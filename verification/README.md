# Quake2World, modelled and verified

A Dafny model of the protocols, indices and allocators at the heart of the Quake2World engine, with proofs of
what they promise. Code that updates objects, rings, lists and buffers in place is modelled as classes whose
methods are tied to functions on values; the promises are lemmas about those functions, mostly over every run.

- **Messages and the reliable channel.** `MemBuf`, `NetMessage`, `NetChan` and `NetProtocol`: the bounded buffer,
  the byte codec, the channel of each end, and two ends joined by a network that loses, repeats and reorders. The
  reliable blocks arrive once each and in order, a block is sent again only when no earlier copy can still
  arrive, and three clean exchanges always suffice.
- **Snapshots.** `EntityDelta`, `PlayerDelta`, `EntityList`, `Rings`, `Snapshots`, `SnapshotRings` and
  `SnapshotRun`: delta records, the merge of two entity lists, the rings on both sides and whole runs with lost
  frames and late acknowledgements. Every frame that arrives decodes to the server's frame, up to the wire's
  quantisation (eighths of a unit, byte angles), and none of the client's delta errors is ever raised.
- **Movement commands.** `UserCmds` and `UserCmdRun`: the player's input becomes commands, three of them go into
  a packet, and the server replays them after losses; exactly which losses that makes good is proved.
- **Space.** `Bsp`, `Clusters`, `BrushClip`, `BoxTrace`, `MailboxShows`, `SweepCover`, `SweepMisses`, `SweepReach`,
  `SweepStops`, `BoxHull`, `AreaFlood`, `AreaLinks` and `AreaNodes`: leaf lists, visibility caches, clipping
  against brushes, the mailbox of a trace, what a sweep sees of the map and what stops it, boxes as partitions of
  space, areas joined by portals, and the tree of entity lists. Each fast structure is proved to agree with the
  simple definition it stands for, and where it does not, there is an input that shows it.
- **Memory and threads.** `MemForest` (managed memory as a forest, the heap being a map from addresses to blocks)
  and `ThreadPool`, `ThreadSearch` and `ThreadProgress` (all interleavings of workers and callers: every job is run
  exactly once, nobody is stuck, and under a fair scheduler everything comes to an end).
- **Datagrams and strings.** `Datagram`, `Glob` and `UserInfo`.

`Bits`, `Vectors` and `Sequences` hold what the others share.

`dafny verify dfyconfig.toml` checks everything.

Coordinates and distances are real numbers. Sequence and frame numbers are below 2^31. A loaded map is taken to
be well formed: trees end (a rank per node says so), the sign bits of node planes match their normals, and a
portal is listed by both its areas under one number, as the map compiler makes it. Clocks, sockets, the choice of
visible entities, the addresses of new blocks and the order of hash tables are parameters or free choices.

Where the code and its comments differ the code is followed:

- `Mem_FreeTag` is described as freeing all items with a tag. It looks at roots only
  (`MemForest.TagCanSurvive`); exactly when the description holds is `MemForest.TagIsOfRoots`.
- `src/mem.h` declares `Mem_Link` with parent and child the other way round than `src/mem.c` defines it.
- `SetUserInfo` deletes the old pair before it measures the new one, so a value that does not fit loses the key
  (`UserInfo.SetUpdates`, `UserInfo.LongerValueLosesKey`). The measure lets a string of the full 512 characters
  through, one more than its buffer has room for besides the terminator (`UserInfo.FourFillTheBuffer`); exactly
  when is `UserInfo.SetFits`.
- Three lost packets in a row are not made good by the three commands of the next one
  (`UserCmdRun.ThirdLossIsGuessed`); exactly when they are is `UserCmdRun.EveryCommandOnce`.
- `Cm_SetAreaPortalState` and `Cm_AreasConnected` let the number just past the last through.
- The server calls a frame uncompressed when its delta is below zero, the client when it is zero or below; frame
  numbers start at one, so they agree.

## Model

| member | source | states |
|---|---|---|
| MemBuf.WroteTwice | src/mem_buf.c:49-81 | writing two pieces is writing their concatenation, and an overflow of either is remembered |
| MemBuf.MemBuf.constructor | src/mem_buf.c:29-35 | a new buffer is empty and has not overflowed |
| MemBuf.MemBuf.Clear | src/mem_buf.c:40-44 | the buffer is empty again and the overflow flag is down |
| MemBuf.MemBuf.Alloc | src/mem_buf.c:49-74 | a reservation starts where the last ended, or at zero with the overflow flag up |
| MemBuf.MemBuf.Write | src/mem_buf.c:79-81 | the contents are the old ones followed by the piece, or the piece alone after an overflow |
| NetMessage.CharRoundTrip | src/net_message.c:34-49 | a byte written is read back modulo 256, signed or not |
| NetMessage.ShortRoundTrip | src/net_message.c:54-60 | sixteen bits written are read back, signed |
| NetMessage.LongRoundTrip | src/net_message.c:65-73 | thirty-two bits written are read back, signed |
| NetMessage.WriteByte | src/net_message.c:44-49 | exactly the byte of the codec is appended |
| NetMessage.WriteShort | src/net_message.c:54-60 | low byte first |
| NetMessage.WriteLong | src/net_message.c:65-73 | low byte first |
| NetMessage.WriteByteTo | src/net_message.c:44-49 | the same in a buffer that may overflow |
| NetMessage.WriteShortTo | src/net_message.c:54-60 | the same in a buffer that may overflow |
| NetMessage.WriteLongTo | src/net_message.c:65-73 | the same in a buffer that may overflow |
| NetMessage.ReadChar | src/net_message.c:295-305 | the signed byte at the cursor, or -1 past the end; the cursor moves either way |
| NetMessage.ReadByte | src/net_message.c:310-320 | the byte at the cursor, or -1 past the end |
| NetMessage.ReadShort | src/net_message.c:325-336 | the short at the cursor, or -1 past the end |
| NetMessage.ReadLong | src/net_message.c:341-353 | the long at the cursor, or -1 past the end |
| NetChan.PacketRoundTrip | src/net_chan.c:192-216 | what one end lays out as header, port, reliable block and rest the other reads back as the same header and payload |
| NetChan.TransmitCarries | src/net_chan.c:169-231 | what goes out is read by the other kind of end as the header with its number and, where the cursor is left (byte 8 or 9), the block due and then the data, or the block alone when both do not fit 1400 bytes |
| NetChan.Channel.constructor | src/net_chan.c:119-131 | a new channel: first packet is number one, nothing outstanding |
| NetChan.Channel.CheckReliable | src/net_chan.c:147-161 | a reliable packet is due when the last was lost or there is something new to stage |
| NetChan.Channel.StageMessage | src/net_chan.c:182-187 | the pending message becomes the outstanding block and the bit flips, only if none is outstanding |
| NetChan.Channel.WriteHeader | src/net_chan.c:192-208 | two words with their top bits and, from a client, the port |
| NetChan.Channel.Assemble | src/net_chan.c:192-220 | the packet is header, block if due, and the rest if there is room |
| NetChan.Channel.Transmit | src/net_chan.c:169-231 | the packet sent and the state after are those of the specification; a channel that overflowed sends nothing |
| NetChan.Channel.ReadHeader | src/net_chan.c:241-255 | the header decoded from the first words of a packet |
| NetChan.Channel.Accept | src/net_chan.c:266-298 | stale packets change nothing; others update sequence, acknowledgement and reliable bit, and free the outstanding block when acknowledged |
| NetChan.Channel.Process | src/net_chan.c:237-299 | the state after a packet is read is that of the specification |
| NetProtocol.OnlyDeadCopies | src/net_chan.c:147-161 | when a reliable packet is due no earlier copy can still be accepted |
| NetProtocol.SendKeeps | src/net_chan.c:169-231 | the invariant of both directions survives a send |
| NetProtocol.ReceiveKeeps | src/net_chan.c:266-293 | it survives the arrival of any packet ever sent, in any order, any number of times |
| NetProtocol.WriteKeeps | src/mem_buf.c:79-81 | it survives the program queueing more reliable bytes |
| NetProtocol.RunKeeps | src/net_chan.c:147-293 | it holds after every run with loss, duplication and reordering |
| NetProtocol.ReliableDelivery | src/net_chan.c:147-161 | in every run, in both directions, the accepted blocks are a prefix of the staged ones, at most one short, none short when nothing is outstanding, and carry a prefix of all bytes written |
| NetProtocol.RepeatsOnlyTheLost | src/net_chan.c:180-210 | a block is sent again only when it was not accepted, and no copy sent before can be accepted now or after any further steps |
| NetProtocol.ThreeExchangesDeliver | src/net_chan.c:169-299 | from any reachable state three exchanges without loss get every staged block accepted |
| EntityDelta.QuantisationError | src/net_message.c:88-90 | a coordinate that fits its sixteen bits arrives within an eighth |
| EntityDelta.CoordArrives | src/net_message.c:80-99 | a coordinate arrives within an eighth of a unit, a whole number of laps of 8192 units off; none for coordinates inside the world |
| EntityDelta.AngleArrives | src/net_message.c:104-115 | an angle arrives within a step of 360/255 degrees and one more for every turn it is off; no turn is lost between -180 and 180 |
| EntityDelta.BitsTell | src/net_message.c:198-227 | each bit of a record says whether its field differs, or is forced |
| EntityDelta.EntityRoundTrip | src/net_message.c:185-272 | a record decodes, against the quantised old state, to exactly the quantised new one, and uses exactly its bytes |
| EntityDelta.EntityArrives | src/net_message.c:185-272 | the state decoded from a record has each coordinate and angle near the one sent and every other field as sent |
| EntityDelta.SentIfChanged | src/net_message.c:198-230 | a record is written exactly when some field differs or it is forced |
| EntityDelta.UnsentEntity | src/net_message.c:229-230 | an entity without a record is to the reader what it would have been with one |
| EntityDelta.WriteDeltaEntity | src/net_message.c:185-272 | exactly the bytes of the record are appended |
| EntityDelta.ReadDeltaEntity | src/net_message.c:483-528 | the state decoded and the bytes consumed are those of the specification |
| EntityList.ReadsNext | src/client/cl_entity.c:69-191 | one record, carried entities included, keeps reader and writer in step |
| EntityList.EntityListRoundTrip | src/server/sv_entity.c:27-82 | parsing the bytes emitted for two ascending lists gives exactly the quantised new list and consumes exactly those bytes: unchanged, changed, new and removed entities and the copied tail |
| EntityList.BaselineRoundTrip | src/server/sv_client.c:114-156 | an entity's baseline, sent against nothing, arrives quantised |
| Rings.SlotsDiffer | src/common.h:72-78 | counts less than a lap apart use different slots |
| Rings.PushAllKeeps | src/client/cl_entity.c:34-35 | pushing onto a ring leaves a window alone until a lap past its start |
| Rings.PushAllWindow | src/server/sv_entity.c:391-403 | what was just pushed is what the window shows |
| PlayerDelta.PlayerRoundTrip | src/server/sv_entity.c:87-214 | a player state decodes against the old one to the new one and uses exactly its bytes; in a demo only the movement type is frozen |
| PlayerDelta.WritePlayerstate | src/server/sv_entity.c:87-214 | exactly those bytes are appended |
| PlayerDelta.ParsePlayerstate | src/client/cl_entity.c:197-275 | the state decoded and the bytes consumed are those of the specification |
| Snapshots.FrameRoundTrip | src/server/sv_entity.c:219-255 | a client that holds the delta frame decodes a frame message, wherever it stands in a packet, to the server's frame, quantised, stores it, and reads on right behind it |
| Snapshots.CheckProtects | src/client/cl_entity.c:292-308 | whatever frames were taken in, a delta that passes the three checks is read against the newest frame taken in with the number it names, whole |
| SnapshotRings.FrameServer.BuildFrame | src/server/sv_entity.c:391-404 | the chosen entities go onto the shared ring and the frame into its slot |
| SnapshotRings.FrameServer.EmitEntities | src/server/sv_entity.c:27-82 | the merge of the two ring windows appends exactly the bytes specified |
| SnapshotRings.FrameServer.ChooseDelta | src/server/sv_entity.c:226-238 | no delta before the first acknowledgement or when it is too old |
| SnapshotRings.FrameServer.WriteFrame | src/server/sv_entity.c:219-255 | exactly the frame message is appended |
| SnapshotRings.FrameClient.ParseDeltaEntity | src/client/cl_entity.c:28-64 | the decoded state goes onto the ring |
| SnapshotRings.FrameClient.ParseEntities | src/client/cl_entity.c:69-191 | the states pushed are those parsed, while the ring has room for them beside the old frame |
| SnapshotRings.FrameClient.CheckDelta | src/client/cl_entity.c:292-308 | each of the three complaints is raised exactly when the specification says |
| SnapshotRings.FrameClient.ParseFrame | src/client/cl_entity.c:280-336 | the client after a message is the one specified, or the same error is raised |
| SnapshotRun.SendKeeps | src/server/sv_entity.c:219-255 | building and sending a frame keeps all that both sides still need |
| SnapshotRun.ArriveKeeps | src/client/cl_entity.c:280-321 | so does the arrival of any frame that the client's channel lets through, whatever was lost before |
| SnapshotRun.EveryFrameDecodes | src/client/cl_entity.c:280-321 | in every run over a channel that loses, repeats and reorders packets, with acknowledgements late and in any order, a frame in a packet that the channel lets through is accepted where it stands behind header and reliable block, and is the server's frame, quantised, with every entity near the one sent; none of the three delta errors is ever raised |
| SnapshotRun.RunGoesOn | src/client/cl_entity.c:280-321 | no complaint of either side ends a run: every frame that may be built can be sent, every packet that was sent can arrive, any number of times |
| SnapshotRun.ServerNeverStuck | src/server/sv_entity.c:219-255 | in every run, once the next frame is built, its entities are intact on the shared ring, and so are the player state and entities of its delta frame, which is one the client took in |
| SnapshotRun.DeltaIsChosen | src/server/sv_entity.c:226-238 | in every run the next frame is a delta from the frame last acknowledged if and only if there is one and it is less than 29 frames old, and otherwise from none |
| SnapshotRun.AlwaysRoom | src/client/cl_entity.c:34-35 | in every run the client's ring has room for the new entities beside the old frame's |
| UserCmds.CmdRoundTrip | src/net_message.c:138-179 | a command decodes against the one before to itself, using exactly its bytes |
| UserCmds.MoveRoundTrip | src/client/cl_cmd.c:114-136 | a move message yields its three commands and the acknowledged frame |
| UserCmds.CmdSender.UpdateCmd | src/client/cl_cmd.c:28-60 | input is added to the command under construction and to no other |
| UserCmds.GatheredIsMade | src/client/cl_cmd.c:47-55 | a cleared command comes to all the buttons pressed, the last angles, and the sums of all movement, wrapped to sixteen bits |
| UserCmds.CmdSender.FinalizeCmd | src/client/cl_cmd.c:75-80 | the command's duration is the packet's, clamped to a byte |
| UserCmds.CmdSender.InitCmd | src/client/cl_cmd.c:66-70 | the next slot of the ring is cleared |
| UserCmds.CmdSender.SendCmd | src/client/cl_cmd.c:86-145 | the payload holds the three newest commands and the ring moves on |
| UserCmds.MoveRunner.Think | src/server/sv_client.c:377-382 | a command is run and its milliseconds are charged |
| UserCmds.MoveRunner.RunMove | src/server/sv_client.c:439-464 | after a gap the older commands of the packet fill it, from the front with repeats of the last if it is longer, unless twenty or more are missing; the milliseconds charged are those of what was run |
| UserCmds.ChargedIsTotal | src/server/sv_client.c:377-382 | the milliseconds charged for some commands are all of theirs, in a counter of thirty-two bits |
| UserCmdRun.SendsThree | src/client/cl_cmd.c:123-139 | the datagram of a packet has its number and, where the server reads on behind header and block, its own command and the two before it, if there is room |
| UserCmdRun.CommandsAreMade | src/client/cl_cmd.c:47-80 | in every run every command sent is what the player did since the one before: all buttons pressed, the last angles, the movement summed up, and the packet's time between 1 and 255 milliseconds |
| UserCmdRun.ReplayIsExact | src/server/sv_client.c:451-463 | the commands run for a packet are exactly the missing ones and its own if and only if fewer than twenty are missing and all but the newest two of them equal the last command run |
| UserCmdRun.ReplayCounts | src/server/sv_client.c:451-463 | a gap below twenty is followed by one command more than the gap, the last three genuine; from twenty on by one |
| UserCmdRun.EveryCommandOnce | src/server/sv_client.c:439-463 | in every run the server has run every command once and in order if and only if each packet taken in held a move and the gap before it is shorter than twenty, with its commands but the newest two equal to the last one run before, as in gaps of at most two; it has run as many commands as there were if and only if all held moves and no gap reached twenty |
| UserCmdRun.ThirdLossIsGuessed | src/server/sv_client.c:451-455 | in every run that loses the first three packets and receives the fourth the gap is three and the commands run are not the true ones |
| UserCmdRun.RunExists | src/server/sv_client.c:439-464 | there is a run for any legal list of sends and arrivals, that one included |
| AreaFlood.AreaTable.FloodArea | src/cmodel.c:1434-1454 | a flood numbers exactly what open portals reach and closes it; the error of flooding twice is not raised |
| AreaFlood.AreaTable.FloodAreaConnections | src/cmodel.c:1459-1476 | afterwards two areas in use have one number exactly when a path of open portals joins them |
| AreaFlood.AreaTable.constructor | src/cmodel.c:549 | a map is flooded when it is loaded, with every portal shut |
| AreaFlood.AreaTable.SetAreaPortalState | src/cmodel.c:1483-1490 | only that portal changes and the numbers are brought up to date; a portal number beyond the count is refused |
| AreaFlood.AreaTable.AreasConnected | src/cmodel.c:1495-1508 | the answer is whether a path of open portals joins the areas; an area beyond the count is refused |
| AreaFlood.AreaTable.WriteAreaBits | src/cmodel.c:1516-1534 | the bits set are exactly those of the areas joined to the given one, or all from area zero or for debugging |
| AreaFlood.OneNumber | src/cmodel.c:1434-1454 | the number does not change along a path of open portals |
| AreaFlood.ConnectedBack | src/cmodel.c:1447-1453 | a path of portals that both their areas list can be walked back |
| Bsp.SignBitsForPlane | src/shared.c:309-319 | the bits are the signs of the normal's components |
| Bsp.SideIsExact | src/shared.c:334-384 | for a plane along no axis the side named is exactly where the box has points |
| Bsp.AxialSide | src/shared.c:329-336 | for a plane along an axis it is exact up to the epsilon |
| Bsp.InnerPointsFollow | src/shared.c:325-384 | a point well inside a box lies on the side the box is said to lie on |
| Bsp.PointLeafnum | src/cmodel.c:744-765 | the loop finds the leaf the tree assigns to a point |
| Bsp.BoxCoversItsPoints | src/cmodel.c:789-818 | the leaf of every point inside the box drawn in by the epsilon is among the leafs of the box |
| Bsp.TouchedUnderTop | src/cmodel.c:789-818 | a box is split just when it touches more than one leaf; then all it touches lie under its top node, whose plane the box crosses |
| Bsp.LeafData.BoxLeafnums | src/cmodel.c:789-818 | the list is that of the box, in order, cut off where the array ends; the top node is set once |
| Bsp.BoxLeafnums | src/cmodel.c:822-849 | the list and top node of a whole box |
| Bsp.ListCovers | src/cmodel.c:822-849 | a list that is not full names the leaf of every inner point, and full or not that leaf lies under the top node |
| Bsp.ListedIsTouched | src/cmodel.c:789-818 | the leafs of a box are exactly those on whose side of every plane on the way down the box has a point, give or take the epsilon for planes along an axis |
| Clusters.HeadnodeVisibleMeans | src/cmodel.c:1540-1562 | a node is visible exactly when some leaf below it is in a visible cluster |
| Clusters.Edict.LinkLeafs | src/server/sv_world.c:217-265 | linking leaves the cache and the two areas of the box's leafs |
| Clusters.Edict.ListClusters | src/server/sv_world.c:245-264 | each cluster once, in order, solid leafs skipped; more than sixteen fall back to the top node |
| Clusters.Edict.Visible | src/server/sv_entity.c:375-388 | the test of a frame is that of the cache |
| Clusters.CacheUsable | src/server/sv_world.c:241-264 | the fallback is taken exactly for 128 leafs or more, or more than sixteen clusters, and its node is a node of the tree |
| Clusters.NeverCulled | src/server/sv_entity.c:375-389 | an entity touching a visible leaf is never culled; with a list the test is exact, with a head node it shows just what lies below |
| Clusters.VisiblePointIsShown | src/server/sv_entity.c:375-388 | an entity is shown whenever a point well inside its box is in a visible cluster |
| Clusters.AreaPairMeans | src/server/sv_world.c:225-239 | the areas remembered were touched and differ; the first is there when any was touched, and without a second it was the only one |
| Clusters.AreaTestIsExact | src/server/sv_entity.c:367-372 | whatever the portals are, the test of the areas remembered passes exactly when some area touched is joined to the client's, if and only if at most two areas are touched |
| Clusters.ThirdAreaHides | src/server/sv_entity.c:367-372 | an entity that touches three areas fails the test for a client in one of them |
| Clusters.EntityAreaIsExact | src/server/sv_world.c:222-239 | linking a box of at most 128 leafs and two areas makes the test exact for that box |
| Clusters.Edict.AreaSeen | src/server/sv_entity.c:367-372 | the test asks for a path of open portals from the client's area to one of the two remembered |
| BrushClip.GapIsNearest | src/cmodel.c:953-969 | pushing a plane out makes the box its nearest point to the inside |
| BrushClip.GapAlong | src/cmodel.c:971-972 | the distance changes evenly along the move |
| BrushClip.SolidFlags | src/cmodel.c:1001-1006 | start and end are reported solid exactly when they are behind every side |
| BrushClip.NeverDeep | src/cmodel.c:929-1019 | a box that starts outside a brush is nowhere, up to the fraction left, more than the epsilon inside all its sides |
| BrushClip.FractionFalls | src/cmodel.c:1008-1018 | the fraction only falls and stays between zero and one |
| BrushClip.StopsShort | src/cmodel.c:986-993 | a move is stopped only by a side it was in front of and approached, the epsilon short of it or at once |
| BrushClip.StopsNear | src/cmodel.c:979-1018 | a move is stopped only where the box is within the epsilon of the inside of every side of the brush |
| BrushClip.ClearOfOneSide | src/cmodel.c:979-999 | a move that starts in front of one side and ends no nearer to it than the epsilon is not affected by the brush |
| BrushClip.ShallowAfter | src/cmodel.c:929-1019 | the same for all fractions at once, in the form that later clips preserve |
| BrushClip.TraceData.ClipBoxToBrush | src/cmodel.c:929-1019 | the trace after a clip is the one specified, all fields |
| BrushClip.TraceData.TestBoxInBrush | src/cmodel.c:1024-1062 | the position test reports solid exactly behind every side |
| BoxTrace.TraceToLeaf | src/cmodel.c:1067-1093 | the brushes of a leaf are tried through the mailbox as specified |
| BoxTrace.TestInLeaf | src/cmodel.c:1098-1122 | the same for the position test |
| BoxTrace.RecursiveHullCheck | src/cmodel.c:1127-1217 | the descent visits what the specification visits, in order |
| BoxTrace.BrushAlreadyTested | src/cmodel.c:918-923 | answers whether the slot held the brush and files it there |
| BoxTrace.TryKeeps | src/cmodel.c:1067-1093 | brushes tried stay settled and unpenetrated; the mailbox names none relevant that was not tried |
| BoxTrace.MailboxIsOnlyACache | src/cmodel.c:918-923 | a sweep with the mailbox starts solid or is all solid just when it would without; unless all solid it gets as far, and unless it comes to nothing in a map with a leaf that lists a brush twice it reports the same plane, surface and contents and, from a start in the open, leaf |
| MailboxShows.RepeatIsReported | src/cmodel.c:918-923 | in a leaf that lists a brush again a move that comes to nothing reports one plane with the mailbox and another without |
| MailboxShows.StuckFractionDiffers | src/cmodel.c:1086-1090 | a sweep that is all solid is cut short with the mailbox and not without, since skipping a brush skips the early exit, too |
| BoxTrace.SweepIsShallow | src/cmodel.c:1127-1217 | up to the final fraction of a sweep no brush tried is penetrated deeply, and every relevant brush of a leaf seen was tried unless the box is stuck |
| SweepStops.SweepStopsNear | src/cmodel.c:1008-1018 | a sweep that ends early ends within the epsilon of all sides of a relevant brush that was tried, an epsilon short of the side reported or at once; it starts solid, or is all solid, exactly when it starts, or starts and ends, in a brush that was tried |
| BoxTrace.TestIsExact | src/cmodel.c:1098-1122 | a standing box is stuck exactly when a tested leaf has a relevant brush it is behind every side of, mailbox or not |
| BoxTrace.NotStuckIsFree | src/cmodel.c:1246-1268 | a standing box not found stuck is in no relevant brush of the leaf of any of its points |
| BoxTrace.BoxTrace | src/cmodel.c:1222-1290 | the whole trace: no map, standing box with all of its fields, sweep with its end point |
| BoxTrace.TestPosition | src/cmodel.c:1246-1268 | a standing box is stuck exactly when one of the listed leafs holds a brush it is stuck in; both solid flags say so, the fraction is then zero and else one, and the contents are those of such a brush |
| SweepCover.ReachBounds | src/cmodel.c:1148-1164 | no point of the box is farther off along the normal than the offset used at a node |
| SweepCover.DivideCovers | src/cmodel.c:1166-1216 | every part of a move where the box may reach in front of a plane goes to the front child, and where it may reach the epsilon behind, or behind at all if the move does not head to the front, to the back child |
| SweepCover.HullSees | src/cmodel.c:1127-1217 | unless cut short before, the descent sees the leaf of every clear point of the moving box: one that lies, at each plane on its way down, on a side that the box reaches, the back by the epsilon or with the move not heading to the front |
| SweepCover.SweepSeesLeafs | src/cmodel.c:1281-1282 | so does a whole sweep, up to its final fraction |
| SweepCover.OffPlanesIsClear | src/cmodel.c:1148-1216 | a point of the box is clear when it is in front of every plane on its way down, or the epsilon behind, or behind one that the move does not head to the front of |
| SweepMisses.CornerIsMissed | src/cmodel.c:1187-1216 | a sweep misses the leaf of a point less than the epsilon behind a plane that the move heads to the front of |
| SweepMisses.PlaneIsMissed | src/cmodel.c:1166-1178 | a sweep misses the leaf of a point on a plane that the box touches from behind only |
| SweepCover.NeverDeepInTheMap | src/cmodel.c:1127-1217 | before the end of a sweep that is not stuck all along, the box is nowhere deep in a relevant brush of a leaf that one of its clear points is in, unless it started in that brush |
| SweepReach.SeenIsReached | src/cmodel.c:1127-1217 | a sweep sees a leaf only if at some moment of the move the box comes within the epsilon of it by every plane on the way down to it |
| BoxHull.HullIsValid | src/cmodel.c:662-718 | the appended nodes, leaf and brush make a well-formed map |
| BoxHull.PointInHull | src/cmodel.c:724-765 | a point has the box's contents exactly when mins <= p < maxs on every axis |
| BoxHull.BoxInHull | src/cmodel.c:1246-1268 | a standing box traced against the hull is stuck exactly when the closed boxes overlap |
| BoxHull.BoundingBox.InitBoxHull | src/cmodel.c:662-718 | the twelve planes face the six faces both ways |
| BoxHull.BoundingBox.HeadnodeForBox | src/cmodel.c:724-739 | storing the twelve distances makes the hull that of the given box |
| BoxHull.BoundingBox.StandsIn | src/cmodel.c:1246-1268 | setting the box and tracing against it answers overlap |
| AreaLinks.RingGrows | src/server/sv_world.c:78-83 | a link inserted before the head comes last in the circle |
| AreaLinks.RingShrinks | src/server/sv_world.c:70-73 | a link removed leaves the others in order |
| AreaLinks.Links.ClearLink | src/server/sv_world.c:63-65 | a head becomes an empty circle |
| AreaLinks.Links.InsertLink | src/server/sv_world.c:78-83 | every circle stays well formed and the link is last in that of the head |
| AreaLinks.Links.Unlink | src/server/sv_world.c:140-147 | the link leaves the one list it is in, or none |
| AreaNodes.WholeTree | src/server/sv_world.c:41-47 | the tree has 31 nodes, one fewer than there is room for |
| AreaNodes.AreaWorld.CreateAreaNode | src/server/sv_world.c:88-123 | nodes are laid out in order, each halving its box along the longer side |
| AreaNodes.SplitIsHalf | src/server/sv_world.c:104-117 | a box is cut across the longer of its horizontal sides into two halves of one size |
| AreaNodes.AreaWorld.InitWorld | src/server/sv_world.c:129-134 | a new world has the whole tree and no entity in it |
| AreaNodes.AreaWorld.UnlinkEdict | src/server/sv_world.c:140-147 | the entity is in no list, all others are where they were |
| AreaNodes.RadiusOf | src/server/sv_world.c:186-203 | the largest coordinate of a box that may turn |
| AreaNodes.AreaWorld.LinkEdict | src/server/sv_world.c:155-298 | the box is brought up to date and the entity is last in the list its box and kind belong to |
| AreaNodes.AbsBoxIsPlace | src/server/sv_world.c:182-214 | a point is in the stored box exactly when on each axis it is within a unit of the entity's box at its origin; for a turned model, when its offset is on no axis larger than the largest coordinate of the box and a unit |
| AreaNodes.AreaWorld.NodeFor | src/server/sv_world.c:278-291 | the first node whose plane the box crosses, or a leaf |
| AreaNodes.FiledIsCollected | src/server/sv_world.c:303-344 | what is filed below a node and touched is collected there |
| AreaNodes.TreeIsBruteForce | src/server/sv_world.c:303-344 | the tree finds exactly the linked entities of the kind whose closed boxes meet the query's, none twice |
| AreaNodes.LinkedIsFound | src/server/sv_world.c:155-366 | once an entity is linked, a query with room finds it exactly when it is in use and solid, of the kind asked for, and its box at its place, a unit wider, has a point in common with the query's; nothing changes for the others |
| AreaNodes.AreaWorld.ScanList | src/server/sv_world.c:307-334 | one circle is walked once around, until the array has no room |
| AreaNodes.AreaWorld.AreaEdictsFrom | src/server/sv_world.c:303-344 | the array gains what the subtree has, as far as there is room |
| AreaNodes.AreaWorld.AreaEdicts | src/server/sv_world.c:353-366 | the result is brute force without repeats, whenever that fits the array exactly or with room to spare, and a full array of such entities otherwise |
| MemForest.MemState.constructor | src/mem.c:257-264 | nothing is allocated |
| MemForest.MemState.Malloc | src/mem.c:135-165 | the new block is first child of its parent or a root, and the total grows by its size |
| MemForest.AllocatedMeans | src/mem.c:135-165 | a new block has the tag, parent and size asked for, comes first among its parent's children, and changes nothing else |
| MemForest.MemState.Link | src/mem.c:214-232 | the child moves below the new parent and the total does not change |
| MemForest.LinkedMeans | src/mem.c:214-232 | the child comes first among the new parent's children and is gone from the old parent's |
| MemForest.MemState.FreeTree | src/mem.c:68-80 | exactly the block and its descendants go, each once, and the total falls by their sizes |
| MemForest.MemState.Free | src/mem.c:85-99 | what is left is the forest without that tree |
| MemForest.MemState.FreeTag | src/mem.c:104-122 | the trees whose roots have the tag go, and no others; with the tag for all, everything |
| MemForest.MemState.Size | src/mem.c:237-239 | the total is the sum of the sizes of the live blocks |
| MemForest.LinkedForest | src/mem.c:214-232 | linking below no descendant of its own keeps the blocks a forest |
| MemForest.LinkedUnder | src/mem.c:204-232 | after linking, the parent's tree is its old one and the child's, so that freeing the parent frees both |
| MemForest.PrunedForest | src/mem.c:85-99 | freeing a tree leaves a forest |
| MemForest.TreesNext | src/mem.c:71-73 | the trees of a block's children are apart, so that none is freed twice |
| MemForest.FreedByRoot | src/mem.c:104-122 | freeing by tag leaves exactly the blocks whose roots have another tag |
| MemForest.TagIsOfRoots | src/mem.c:101-122 | nothing with the tag is left exactly when every block with the tag lies below a root with it |
| MemForest.TagCanSurvive | src/mem.c:101-122 | a block with the tag survives below a root without it, whatever the comment says |
| MemForest.AllTags | src/mem.c:115-118 | the tag for all leaves nothing |
| ThreadPool.WorkKeeps | src/thread.c:38-57 | the invariant survives every step of a worker |
| ThreadPool.CallKeeps | src/thread.c:108-173 | and every step of a caller dispatching or waiting |
| ThreadPool.StepKeeps | src/thread.c:38-173 | and so every step, spurious wake-ups included |
| ThreadPool.EveryJobOnce | src/thread.c:38-158 | in every interleaving a job handed in is in exactly one of three stages: not begun and with its caller or the thread it was given to, begun once and being run by one of them, or begun once and over |
| ThreadPool.ReleasedRanOnce | src/thread.c:108-173 | once a caller is told that its job is over, by waiting or because the job was run at once, the job has been run exactly once, to its end |
| ThreadPool.NoDeadlock | src/thread.c:38-173 | a state of a run that no worker and no caller can change has every caller returned and every job run exactly once, to its end |
| ThreadPool.OneLiveJobEach | src/thread.c:113-140 | no two live jobs share a thread |
| ThreadPool.NoLostWakeUp | src/thread.c:38-57 | a worker asleep with work has a caller about to signal it |
| ThreadSearch.InlineOnlyIfBusy | src/thread.c:108-158 | in every run a caller runs a job by itself only after it has seen each thread not idle, at the scan or under the thread's mutex |
| ThreadProgress.StepFalls | src/thread.c:38-173 | every step that a worker or a caller takes by itself changes nothing or leaves less work in the pool |
| ThreadProgress.EveryJobIsRun | src/thread.c:38-173 | with everyone taking steps again and again and nothing new handed in, after boundedly many rounds every caller has returned and every job handed in has been run exactly once, to its end |
| Datagram.ClientDatagram.DatagramMessage | src/server/sv_send.c:143-157 | the segments tile the buffer while it has not overflowed; a message too long is refused |
| Datagram.ClientDatagram.SendClientDatagram | src/server/sv_send.c:351-398 | the packets sent are the packing of the frame and the queue, or the frame alone after an overflow; the queue is empty after |
| Datagram.ClientDatagram.PackMessages | src/server/sv_send.c:367-386 | the loop makes all packets but the last, which it leaves in the buffer |
| Datagram.SegmentIsMessage | src/server/sv_send.c:153-156 | a segment of the buffer is the message it stands for |
| Datagram.PacketsConserve | src/server/sv_send.c:367-389 | however they are cut, the packets carry the frame and all messages in order |
| Datagram.PackedFits | src/server/sv_send.c:363-386 | all packets fit exactly when the frame and every message alone fit |
| Datagram.PackedIsLeast | src/server/sv_send.c:375-381 | no unsplit packing in that order takes fewer packets |
| Glob.GlobMatch | src/shared.c:764-852 | the answer is what the pattern means, for set-free patterns |
| Glob.GlobMatchStar | src/shared.c:720-744 | the answer is whether some suffix of the text matches, with runs collapsed and first characters filtered |
| Glob.StarAny | src/shared.c:724-726 | a question mark behind a star takes one character wherever it stands |
| Glob.NeedsFirst | src/shared.c:731-738 | a text that does not begin with the pattern's first character does not match |
| Glob.JoinedPatterns | src/shared.c:748-852 | a pattern followed by another matches exactly the texts that fall into one for each |
| Glob.OneElement | src/shared.c:748-852 | the elements that patterns are joined of match any text, any one character, or a character itself |
| Glob.EscapedIsLiteral | src/shared.c:760-762 | a fully escaped text matches itself and nothing else |
| UserInfo.GetUserInfo | src/shared.c:1044-1082 | the value read is that of the specification, on any string |
| UserInfo.InfoString.DeleteUserInfo | src/shared.c:1087-1126 | the string after is the one specified, on any string |
| UserInfo.InfoString.SetUserInfo | src/shared.c:1145-1190 | the string after is the one specified, on any string |
| UserInfo.GetIsLookup | src/shared.c:1044-1082 | on a string that stands for a map, reading a key is looking it up |
| UserInfo.DeleteFinds | src/shared.c:1087-1126 | deleting a key removes its pair and leaves the rest in order |
| UserInfo.SetFits | src/shared.c:1168-1190 | a string that fits its buffer with its terminator still does after a pair is set, if and only if the pair is not one that is kept whole and makes the string 512 characters long |
| UserInfo.FourFillTheBuffer | src/shared.c:1175-1178 | four legal settings from an empty string make it 512 characters long, with no room for the terminator |
| UserInfo.LongerValueLosesKey | src/shared.c:1168-1178 | a string and a legal longer value for a key it has, after which the key has no value |
| UserInfo.PrintableJoins | src/shared.c:1179-1188 | what is kept of a text is kept character by character and is printable |
| UserInfo.PrintableOne | src/shared.c:1179-1188 | a character loses its high bit and is kept if it is then from 32 to 126 |
| UserInfo.SetUpdates | src/shared.c:1145-1190 | setting a legal printable pair that fits changes that key alone; an empty or too long value leaves the key without one; keys stay distinct |

## Left out

- NetProtocol.ReliableDelivery: writes larger than the whole message buffer abort the program and are not part of
  a run; wrap-around of the 31-bit sequence numbers is not modelled.
- SnapshotRun.EveryFrameDecodes: it is assumed that a frame has at most 64 entities, which the server does not
  check: it refuses only a message of more than 1384 bytes, measured on what is left in a buffer of 8192 that may
  already have overflowed. Frame and packet numbers are below 2^31. A packet without room for the frame goes out
  without it, which counts as a loss. That a client parses exactly the reliable block before the frame is assumed.
- SnapshotRings.FrameClient.ParseFrame: a length of the area bits read past the end of a message, which is -1, is
  taken as zero; the program converts it to a huge unsigned count.
- SnapshotRings.FrameClient.ParseDeltaEntity: the previous and current state kept for interpolation.
- SnapshotRings.FrameClient.ParseEntities: the ring written is compared with the list parsed only while the new
  entities do not overrun the old frame's; `SnapshotRun.AlwaysRoom` shows that they never do.
- UserCmds.CmdSender.UpdateCmd: the two timestamps stored beside the command, which only prediction and a graph use.
- UserCmds.CmdSender.SendCmd: the client is active; the packets of a connecting client and the user info queued
  before the command are not modelled.
- UserCmdRun.EveryCommandOnce: the client is active, packet numbers are below 2^31, and the server parses exactly
  the reliable block before the move.
- BoxTrace.MailboxIsOnlyACache: the leaf reported of a move that starts inside a brush is that of the last leaf
  the brush was tried in, and is not compared; nor is what is reported of a box that is stuck all along, or of a
  move that comes to nothing in a leaf that lists a brush twice (`MailboxShows`).
- SweepCover.SweepSeesLeafs: nothing is claimed of points less than the epsilon behind a plane that the move heads
  to the front of, of which the box reaches less than the epsilon behind it, nor of points on a plane that the box
  touches from behind only; both can be missed (`SweepMisses`), since the split points are biased by the epsilon
  and touching counts as being behind.
- ThreadProgress.EveryJobIsRun: a sleeper that wakes up without a signal adds work, at most twelve steps of its
  own, so none does so during the rounds.
- ThreadPool.EveryJobOnce: reads and writes of a thread's status are taken as atomic and seen at once by all;
  shutting the pool down is not modelled, and jobs end and do not themselves use the pool.
- Glob.GlobMatch: character sets, and patterns that end in a backslash, which read past their end.
- UserInfo.GetUserInfo: the fixed sizes of the local arrays that keys and values are copied to.
- AreaNodes.AreaWorld.LinkEdict: the part that files an entity by clusters is `Clusters.Edict.LinkLeafs`; packing
  of the size for prediction and the link count are not modelled.
- Rotated traces and other trigonometry, rounding of floating point, and conversions of values out of range.
- Rendering, sound, user interface, sockets, files, console, game rules, client interpolation and the loading of
  maps and their fixed capacities.
- A record that removes an entity from a frame without a delta frame: the program would read through a null
  pointer, the model gives an error, and the server never sends one.
- Decompression of visibility rows, and the merging of several rows for a client at a boundary.
