/** The pool of worker threads (src/thread.c) as a state machine in which any worker or caller may take the
    next step.  A step is one access to shared memory, one mutex operation or one condition operation; the
    pool is not shut down. */
module ThreadPool {
  import opened Sequences

  datatype Status = Idle | Running | Wait

  /** Where a worker is in its loop.  `Locked` to `ToSleep` and `ToUnlock` hold the thread's mutex. */
  datatype WorkerPc = Top | Locked | ToRun | InRun | Ran | ToWait | ToSleep | Asleep | Woken | ToUnlock

  datatype Holder = Free | ByWorker | ByCaller(caller: nat)

  /** Whom a thread works for: who asked, and for which job. */
  datatype Ticket = Ticket(caller: nat, job: nat)

  datatype Thread = Thread(status: Status, job: Option<nat>, holder: Holder, pc: WorkerPc, ticket: Option<Ticket>)

  /** Where a caller is: outside, in Thread_Create_ with a job, or in Thread_Wait for one. */
  datatype CallerPc =
    | Out
    | ToPool(job: nat)
    | Scan(job: nat, thread: nat)
    | ToLock(job: nat, thread: nat)
    | Check(job: nat, thread: nat)
    | ToAssign(job: nat, thread: nat)
    | Assigned(job: nat, thread: nat)
    | Started(job: nat, thread: nat)
    | ToSignal(job: nat, thread: nat)
    | ToLeave(job: nat, thread: nat)
    | Skip(job: nat, thread: nat)
    | LeaveInline(job: nat)
    | ToInline(job: nat)
    | InInline(job: nat)
    | WaitTest(job: nat, thread: nat)
    | WaitSpin(job: nat, thread: nat)
    | WaitEnd(job: nat, thread: nat)

  /** Where a job is: with its caller or its thread waiting to be run, being run by one of them, or over. */
  datatype Place =
    | AtCaller(caller: nat)
    | AtThread(thread: nat)
    | OnCaller(caller: nat)
    | OnThread(thread: nat)
    | Over

  /** Jobs are numbered as they are handed in.  `runs` counts how often each was begun; `finished` holds those
      that came to their end, `released` those whose caller was told so; `live` pairs threads with the jobs
      they were given and not yet released from. */
  datatype Pool = Pool(threads: seq<Thread>, mutex: Option<nat>, callers: seq<CallerPc>,
                       place: seq<Place>, runs: seq<nat>, finished: set<nat>, released: set<nat>, live: set<(nat, nat)>)

  datatype Step = Work(i: nat) | WakeUp(i: nat) | Call(c: nat) | Create(c: nat) | WaitFor(c: nat, i: nat)

  function Begin(s: Pool, j: nat, place: Place): Pool
    requires j < |s.place| == |s.runs|
  {
    s.(place := s.place[j := place], runs := s.runs[j := s.runs[j] + 1])
  }

  function Finish(s: Pool, j: nat): Pool
    requires j < |s.place|
  {
    s.(place := s.place[j := Over], finished := s.finished + {j})
  }

  /** One step of worker `i`; blocked steps change nothing. */
  function WorkStep(s: Pool, i: nat): Pool
    requires i < |s.threads| && |s.place| == |s.runs|
  {
    var t := s.threads[i];
    match t.pc
    case Top => if t.holder == Free then s.(threads := s.threads[i := t.(holder := ByWorker, pc := Locked)]) else s
    case Locked => s.(threads := s.threads[i := t.(pc := if t.status == Running then ToRun else ToSleep)])
    case ToRun =>
      if t.job.Some? && t.job.value < |s.runs| then
        Begin(s, t.job.value, OnThread(i)).(threads := s.threads[i := t.(pc := InRun)])
      else s
    case InRun =>
      if t.job.Some? && t.job.value < |s.place| then Finish(s, t.job.value).(threads := s.threads[i := t.(pc := Ran)])
      else s
    case Ran => s.(threads := s.threads[i := t.(pc := ToWait, job := None)])
    case ToWait => s.(threads := s.threads[i := t.(pc := ToUnlock, status := Wait)])
    case ToSleep => s.(threads := s.threads[i := t.(pc := Asleep, holder := Free)])
    case Asleep => s
    case Woken => if t.holder == Free then s.(threads := s.threads[i := t.(holder := ByWorker, pc := ToUnlock)]) else s
    case ToUnlock => s.(threads := s.threads[i := t.(holder := Free, pc := Top)])
  }

  function Signalled(t: Thread): Thread { if t.pc == Asleep then t.(pc := Woken) else t }

  /** One step of caller `c`. */
  function CallStep(s: Pool, c: nat): Pool
    requires c < |s.callers| && |s.place| == |s.runs|
    requires CallerInRange(s, c)
  {
    match s.callers[c]
    case Out => s
    case ToPool(j) => if s.mutex == None then s.(mutex := Some(c), callers := s.callers[c := Scan(j, 0)]) else s
    case Scan(j, i) =>
      if i == |s.threads| then s.(callers := s.callers[c := LeaveInline(j)])
      else if s.threads[i].status == Idle then s.(callers := s.callers[c := ToLock(j, i)])
      else s.(callers := s.callers[c := Scan(j, i + 1)])
    case ToLock(j, i) =>
      if s.threads[i].holder == Free then
        s.(threads := s.threads[i := s.threads[i].(holder := ByCaller(c))], callers := s.callers[c := Check(j, i)])
      else s
    case Check(j, i) =>
      s.(callers := s.callers[c := if s.threads[i].status == Idle then ToAssign(j, i) else Skip(j, i)])
    case ToAssign(j, i) =>
      s.(threads := s.threads[i := s.threads[i].(job := Some(j))], callers := s.callers[c := Assigned(j, i)],
         place := s.place[j := AtThread(i)])
    case Assigned(j, i) =>
      s.(threads := s.threads[i := s.threads[i].(status := Running, ticket := Some(Ticket(c, j)))],
         callers := s.callers[c := Started(j, i)], live := s.live + {(i, j)})
    case Started(j, i) =>
      s.(threads := s.threads[i := s.threads[i].(holder := Free)], callers := s.callers[c := ToSignal(j, i)])
    case ToSignal(j, i) =>
      s.(threads := s.threads[i := Signalled(s.threads[i])], callers := s.callers[c := ToLeave(j, i)])
    case ToLeave(j, i) => s.(mutex := None, callers := s.callers[c := Out])
    case Skip(j, i) =>
      s.(threads := s.threads[i := s.threads[i].(holder := Free)], callers := s.callers[c := Scan(j, i + 1)])
    case LeaveInline(j) => s.(mutex := None, callers := s.callers[c := ToInline(j)])
    case ToInline(j) => Begin(s, j, OnCaller(c)).(callers := s.callers[c := InInline(j)])
    case InInline(j) => Finish(s, j).(callers := s.callers[c := Out], released := s.released + {j})
    case WaitTest(j, i) =>
      if s.threads[i].status == Idle then s.(callers := s.callers[c := Out], released := s.released + {j})
      else s.(callers := s.callers[c := WaitSpin(j, i)])
    case WaitSpin(j, i) => if s.threads[i].status == Wait then s.(callers := s.callers[c := WaitEnd(j, i)]) else s
    case WaitEnd(j, i) =>
      s.(threads := s.threads[i := s.threads[i].(status := Idle, ticket := None)], callers := s.callers[c := Out],
         released := s.released + {j}, live := s.live - {(i, j)})
  }

  ghost predicate Enabled(s: Pool, step: Step)
  {
    && |s.place| == |s.runs|
    && match step
       case Work(i) => i < |s.threads|
       case WakeUp(i) => i < |s.threads|
       case Call(c) => c < |s.callers| && CallerInRange(s, c)
       case Create(c) => c < |s.callers| && s.callers[c] == Out
       // only the caller that a thread works for waits for it
       case WaitFor(c, i) => c < |s.callers| && s.callers[c] == Out && i < |s.threads|
                             && s.threads[i].ticket.Some? && s.threads[i].ticket.value.caller == c
  }

  /** A new job goes to the pool, or if there are no threads is run by the caller; a sleeper may wake up by
      itself. */
  function Next(s: Pool, step: Step): Pool
    requires Enabled(s, step)
  {
    match step
    case Work(i) => WorkStep(s, i)
    case WakeUp(i) => s.(threads := s.threads[i := Signalled(s.threads[i])])
    case Call(c) => CallStep(s, c)
    case Create(c) =>
      var j := |s.place|;
      s.(callers := s.callers[c := if |s.threads| > 0 then ToPool(j) else ToInline(j)],
         place := s.place + [AtCaller(c)], runs := s.runs + [0])
    case WaitFor(c, i) => s.(callers := s.callers[c := WaitTest(s.threads[i].ticket.value.job, i)])
  }

  // ----- what every step keeps

  predicate WorkerHolds(pc: WorkerPc) { pc !in {Top, Asleep, Woken} }

  predicate HoldsPool(p: CallerPc)
  {
    p.Scan? || p.ToLock? || p.Check? || p.ToAssign? || p.Assigned? || p.Started? || p.ToSignal? || p.ToLeave? ||
      p.Skip? || p.LeaveInline?
  }

  predicate HoldsThread(p: CallerPc) { p.Check? || p.ToAssign? || p.Assigned? || p.Started? || p.Skip? }

  predicate HasThread(p: CallerPc)
  {
    HoldsThread(p) || p.ToLock? || p.ToSignal? || p.ToLeave? || p.WaitTest? || p.WaitSpin? || p.WaitEnd?
  }

  /** The job a caller has still to pass on or to run. */
  function CallerJob(p: CallerPc): Option<nat>
  {
    if p.ToPool? || p.Scan? || p.ToLock? || p.Check? || p.ToAssign? || p.Skip? || p.LeaveInline? || p.ToInline? then
      Some(p.job)
    else
      None
  }

  /** The job a thread has still to run. */
  function ThreadJob(t: Thread): Option<nat> { if t.pc == InRun || t.pc == Ran then None else t.job }

  /** The job a thread, or a caller by itself, is running. */
  function RunJob(t: Thread): Option<nat> { if t.pc == InRun then t.job else None }

  function InlineJob(p: CallerPc): Option<nat> { if p.InInline? then Some(p.job) else None }

  ghost predicate CallerInRange(s: Pool, c: nat)
    requires c < |s.callers|
  {
    var p := s.callers[c];
    && (p.Scan? ==> p.thread <= |s.threads|) && (HasThread(p) ==> p.thread < |s.threads|)
    && (p != Out ==> p.job < |s.place|)
  }

  predicate AboutToSignal(p: CallerPc, i: nat) { (p.Started? || p.ToSignal?) && p.thread == i }

  /** The caller in the pool's critical section has yet to signal thread `i`. */
  ghost predicate SignalDue(s: Pool, i: nat)
  {
    s.mutex.Some? && s.mutex.value < |s.callers| && AboutToSignal(s.callers[s.mutex.value], i)
  }

  ghost predicate ThreadOk(s: Pool, i: nat)
    requires i < |s.threads|
  {
    var t := s.threads[i];
    && (t.holder == ByWorker <==> WorkerHolds(t.pc))
    && (t.holder.ByCaller? ==>
         t.holder.caller < |s.callers| && HoldsThread(s.callers[t.holder.caller])
           && s.callers[t.holder.caller].thread == i)
    && (t.pc in {ToRun, InRun, Ran, ToWait} ==> t.status == Running)
    && (t.pc == ToSleep ==> t.status != Running)
    && (t.status == Running && t.pc == Asleep ==> SignalDue(s, i))
    && (t.ticket.Some? ==> t.ticket.value.job < |s.place|)
    && match t.status
       case Idle =>
         && t.ticket == None
         && (t.job.Some? ==>
              t.holder.ByCaller? && t.holder.caller < |s.callers|
                && s.callers[t.holder.caller] == Assigned(t.job.value, i))
       case Running =>
         && t.ticket.Some?
         && (if t.pc == ToWait then t.job == None else t.job == Some(t.ticket.value.job))
         && (t.pc in {Ran, ToWait} ==> t.ticket.value.job in s.finished)
       case Wait => t.ticket.Some? && t.job == None && t.ticket.value.job in s.finished
  }

  ghost predicate CallerOk(s: Pool, c: nat)
    requires c < |s.callers|
  {
    var p := s.callers[c];
    && CallerInRange(s, c)
    && (s.mutex == Some(c) <==> HoldsPool(p))
    && (HoldsThread(p) ==> s.threads[p.thread].holder == ByCaller(c))
    && (p.ToAssign? ==> s.threads[p.thread].status == Idle && s.threads[p.thread].job == None)
    && (p.Assigned? ==> s.threads[p.thread].status == Idle && s.threads[p.thread].job == Some(p.job))
    && (p.Started? || p.ToSignal? || p.ToLeave? || p.WaitTest? || p.WaitSpin? || p.WaitEnd? ==>
          s.threads[p.thread].ticket == Some(Ticket(c, p.job)))
    && (p.WaitEnd? ==> s.threads[p.thread].status == Wait)
  }

  /** A job is in one place only; it has not been begun before it runs, and once from then on. */
  ghost predicate JobOk(s: Pool, j: nat)
    requires j < |s.place| == |s.runs|
  {
    && s.runs[j] == (if s.place[j].AtCaller? || s.place[j].AtThread? then 0 else 1)
    && match s.place[j]
       case AtCaller(c) => c < |s.callers| && CallerJob(s.callers[c]) == Some(j)
       case AtThread(i) => i < |s.threads| && ThreadJob(s.threads[i]) == Some(j)
       case OnCaller(c) => c < |s.callers| && InlineJob(s.callers[c]) == Some(j)
       case OnThread(i) => i < |s.threads| && RunJob(s.threads[i]) == Some(j)
       case Over => j in s.finished
  }

  /** A job that somebody has is in the place it should be. */
  ghost predicate Placed(s: Pool, job: Option<nat>, place: Place)
  {
    job.Some? ==> job.value < |s.place| && s.place[job.value] == place
  }

  ghost predicate JobsOk(s: Pool)
  {
    && |s.place| == |s.runs|
    && (forall j {:trigger s.place[j]} :: 0 <= j < |s.place| ==> JobOk(s, j))
    && (forall c {:trigger s.callers[c]} :: 0 <= c < |s.callers| ==>
          Placed(s, CallerJob(s.callers[c]), AtCaller(c)) && Placed(s, InlineJob(s.callers[c]), OnCaller(c)))
    && (forall i {:trigger s.threads[i]} :: 0 <= i < |s.threads| ==>
          && Placed(s, ThreadJob(s.threads[i]), AtThread(i)) && Placed(s, RunJob(s.threads[i]), OnThread(i))
          && (s.threads[i].job.Some? ==> s.threads[i].job.value < |s.place|))
    && (forall j {:trigger j in s.finished} :: j in s.finished ==> j < |s.place| && s.place[j] == Over)
    && s.released <= s.finished
  }

  ghost predicate LiveOk(s: Pool)
  {
    forall i: nat, j: nat {:trigger (i, j) in s.live} :: (i, j) in s.live <==>
      i < |s.threads| && s.threads[i].ticket.Some? && s.threads[i].ticket.value.job == j
  }

  ghost predicate ActorsOk(s: Pool)
  {
    && (forall i {:trigger s.threads[i]} :: 0 <= i < |s.threads| ==> ThreadOk(s, i))
    && (forall c {:trigger s.callers[c]} :: 0 <= c < |s.callers| ==> CallerOk(s, c))
    && (s.mutex.Some? ==> s.mutex.value < |s.callers|)
  }

  ghost predicate Inv(s: Pool) { ActorsOk(s) && JobsOk(s) && LiveOk(s) }

  function Init(threads: nat, callers: nat): Pool
  {
    Pool(seq(threads, _ => Thread(Idle, None, Free, Top, None)), None, seq(callers, _ => Out), [], [], {}, {}, {})
  }

  lemma InitOk(threads: nat, callers: nat)
    ensures Inv(Init(threads, callers))
  {
    var s := Init(threads, callers);
    assert forall i :: 0 <= i < threads ==> s.threads[i] == Thread(Idle, None, Free, Top, None);
    assert forall c :: 0 <= c < callers ==> s.callers[c] == Out;
    assert forall i :: 0 <= i < threads ==> ThreadOk(s, i);
    assert forall c :: 0 <= c < callers ==> CallerOk(s, c);
  }

  /** A change to one thread that no caller can notice. */
  ghost predicate Unnoticed(t: Thread, t': Thread)
  {
    && t'.ticket == t.ticket
    && (t.holder.ByCaller? ==> t'.holder == t.holder && t'.status == t.status && t'.job == t.job)
    && (t.status == Wait ==> t'.status == Wait)
  }

  /** The other actors do not mind a change of one thread alone. */
  lemma ThreadChanges(s: Pool, s': Pool, i: nat)
    requires ActorsOk(s) && i < |s.threads| && |s'.threads| == |s.threads|
    requires s'.threads == s.threads[i := s'.threads[i]]
    requires s'.mutex == s.mutex && s'.callers == s.callers && s.finished <= s'.finished && |s'.place| == |s.place|
    requires Unnoticed(s.threads[i], s'.threads[i]) && ThreadOk(s', i)
    ensures ActorsOk(s')
  {
    forall k | 0 <= k < |s'.threads|
      ensures ThreadOk(s', k)
    {
      assert ThreadOk(s, k);
    }
    forall c | 0 <= c < |s'.callers|
      ensures CallerOk(s', c)
    {
      assert CallerOk(s, c);
      var p := s.callers[c];
      if HasThread(p) && p.thread == i { assert ThreadOk(s, i); }
    }
  }

  lemma WorkKeepsThread(s: Pool, i: nat)
    requires Inv(s) && i < |s.threads|
    ensures var s' := WorkStep(s, i); i < |s'.threads| && ThreadOk(s', i) && Unnoticed(s.threads[i], s'.threads[i])
  {
    assert ThreadOk(s, i);
    match s.threads[i].pc {
      case Top =>
      case Locked =>
      case ToRun =>
      case InRun =>
      case Ran =>
      case ToWait =>
      case ToSleep =>
      case Asleep =>
      case Woken =>
      case ToUnlock =>
    }
  }

  lemma WorkKeeps(s: Pool, i: nat)
    requires Inv(s) && i < |s.threads|
    ensures Inv(WorkStep(s, i))
  {
    hide ThreadOk, CallerOk, JobOk, ThreadJob;
    WorkKeepsThread(s, i);
    WorkKeepsJobs(s, i);
    ThreadChanges(s, WorkStep(s, i), i);
  }

  /** No actor has a job that it did not have, or has passed one on. */
  ghost predicate SameJobs(s: Pool, s': Pool)
  {
    && |s'.threads| == |s.threads| && |s'.callers| == |s.callers| && s'.place == s.place && s'.runs == s.runs
    && s'.finished == s.finished
    && (forall k {:trigger s'.threads[k]} :: 0 <= k < |s.threads| ==>
          && ThreadJob(s'.threads[k]) == ThreadJob(s.threads[k]) && RunJob(s'.threads[k]) == RunJob(s.threads[k])
          && s'.threads[k].job in {None, s.threads[k].job})
    && (forall c {:trigger s'.callers[c]} :: 0 <= c < |s.callers| ==>
          CallerJob(s'.callers[c]) == CallerJob(s.callers[c]) && InlineJob(s'.callers[c]) == InlineJob(s.callers[c]))
  }

  lemma JobsStay(s: Pool, s': Pool)
    requires JobsOk(s) && SameJobs(s, s') && s'.released <= s'.finished
    ensures JobsOk(s')
  {
    hide ThreadJob, CallerJob, RunJob, InlineJob;
    forall j | 0 <= j < |s'.place|
      ensures JobOk(s', j)
    {
      assert JobOk(s, j);
      match s.place[j]
      case AtCaller(c) => assert CallerJob(s'.callers[c]) == Some(j);
      case OnCaller(c) => assert InlineJob(s'.callers[c]) == Some(j);
      case AtThread(i) => assert ThreadJob(s'.threads[i]) == Some(j);
      case OnThread(i) => assert RunJob(s'.threads[i]) == Some(j);
      case Over =>
    }
    forall c | 0 <= c < |s'.callers|
      ensures Placed(s', CallerJob(s'.callers[c]), AtCaller(c)) && Placed(s', InlineJob(s'.callers[c]), OnCaller(c))
    {
      assert Placed(s, CallerJob(s.callers[c]), AtCaller(c)) && Placed(s, InlineJob(s.callers[c]), OnCaller(c));
    }
    forall i | 0 <= i < |s'.threads|
      ensures Placed(s', ThreadJob(s'.threads[i]), AtThread(i)) && Placed(s', RunJob(s'.threads[i]), OnThread(i))
    {
      assert Placed(s, ThreadJob(s.threads[i]), AtThread(i)) && Placed(s, RunJob(s.threads[i]), OnThread(i));
    }
  }

  /** What an actor has of a job when job `b` moves: other jobs stay with it, and `b` is only where it is now
      said to be. */
  ghost predicate Passes(had: Option<nat>, has: Option<nat>, b: nat, here: bool)
  {
    if had.Some? && had.value != b then has == had else has == None || (has == Some(b) && here)
  }

  /** One job moves from one place to another. */
  lemma JobMoves(s: Pool, s': Pool, b: nat)
    requires JobsOk(s) && b < |s.place| == |s'.place| == |s'.runs| && |s'.threads| == |s.threads|
    requires |s'.callers| == |s.callers|
    requires s'.place == s.place[b := s'.place[b]] && s'.runs == s.runs[b := s'.runs[b]]
    requires forall i {:trigger s'.threads[i]} :: 0 <= i < |s.threads| ==>
      && Passes(ThreadJob(s.threads[i]), ThreadJob(s'.threads[i]), b, s'.place[b] == AtThread(i))
      && Passes(RunJob(s.threads[i]), RunJob(s'.threads[i]), b, s'.place[b] == OnThread(i))
      && s'.threads[i].job in {None, Some(b), s.threads[i].job}
    requires forall c {:trigger s'.callers[c]} :: 0 <= c < |s.callers| ==>
      && Passes(CallerJob(s.callers[c]), CallerJob(s'.callers[c]), b, s'.place[b] == AtCaller(c))
      && Passes(InlineJob(s.callers[c]), InlineJob(s'.callers[c]), b, s'.place[b] == OnCaller(c))
    requires JobOk(s', b) && s'.finished == s.finished + (if s'.place[b] == Over then {b} else {}) && b !in s.finished
    requires s'.released <= s'.finished
    ensures JobsOk(s')
  {
    hide ThreadJob, CallerJob, RunJob, InlineJob;
    forall j | 0 <= j < |s'.place|
      ensures JobOk(s', j)
    {
      assert JobOk(s, j);
      if j != b {
        match s.place[j]
        case AtCaller(c) => assert CallerJob(s'.callers[c]) == Some(j);
        case OnCaller(c) => assert InlineJob(s'.callers[c]) == Some(j);
        case AtThread(i) => assert ThreadJob(s'.threads[i]) == Some(j);
        case OnThread(i) => assert RunJob(s'.threads[i]) == Some(j);
        case Over =>
      }
    }
    forall c | 0 <= c < |s'.callers|
      ensures Placed(s', CallerJob(s'.callers[c]), AtCaller(c)) && Placed(s', InlineJob(s'.callers[c]), OnCaller(c))
    {
      assert Placed(s, CallerJob(s.callers[c]), AtCaller(c)) && Placed(s, InlineJob(s.callers[c]), OnCaller(c));
    }
    forall i | 0 <= i < |s'.threads|
      ensures Placed(s', ThreadJob(s'.threads[i]), AtThread(i)) && Placed(s', RunJob(s'.threads[i]), OnThread(i))
    {
      assert Placed(s, ThreadJob(s.threads[i]), AtThread(i)) && Placed(s, RunJob(s.threads[i]), OnThread(i));
    }
  }

  /** A worker begins its job. */
  lemma JobBegins(s: Pool, i: nat)
    requires JobsOk(s) && i < |s.threads| && s.threads[i].pc == ToRun && s.threads[i].job.Some?
    ensures JobsOk(WorkStep(s, i))
  {
    var b := s.threads[i].job.value;
    assert Placed(s, ThreadJob(s.threads[i]), AtThread(i));
    assert JobOk(s, b);
    OthersPass(s, WorkStep(s, i), b, i, |s.callers|);
    JobMoves(s, WorkStep(s, i), b);
  }

  /** A worker comes to the end of its job. */
  lemma JobEnds(s: Pool, i: nat)
    requires JobsOk(s) && i < |s.threads| && s.threads[i].pc == InRun && s.threads[i].job.Some?
    ensures JobsOk(WorkStep(s, i))
  {
    var b := s.threads[i].job.value;
    assert Placed(s, RunJob(s.threads[i]), OnThread(i));
    assert JobOk(s, b);
    OthersPass(s, WorkStep(s, i), b, i, |s.callers|);
    JobMoves(s, WorkStep(s, i), b);
  }

  /** Nobody but the caller or thread that had it had the job that moves. */
  lemma OthersPass(s: Pool, s': Pool, b: nat, i: nat, c: nat)
    requires JobsOk(s) && b < |s.place| && |s'.threads| == |s.threads| && |s'.callers| == |s.callers|
    requires s.place[b] in {AtThread(i), OnThread(i), AtCaller(c), OnCaller(c)}
    requires forall k {:trigger s'.threads[k]} :: 0 <= k < |s.threads| && k != i ==> s'.threads[k] == s.threads[k]
    requires forall d {:trigger s'.callers[d]} :: 0 <= d < |s.callers| && d != c ==> s'.callers[d] == s.callers[d]
    ensures forall k {:trigger s'.threads[k]} :: 0 <= k < |s.threads| && k != i ==>
      && Passes(ThreadJob(s.threads[k]), ThreadJob(s'.threads[k]), b, false)
      && Passes(RunJob(s.threads[k]), RunJob(s'.threads[k]), b, false)
    ensures forall d {:trigger s'.callers[d]} :: 0 <= d < |s.callers| && d != c ==>
      && Passes(CallerJob(s.callers[d]), CallerJob(s'.callers[d]), b, false)
      && Passes(InlineJob(s.callers[d]), InlineJob(s'.callers[d]), b, false)
  {
    hide ThreadJob, CallerJob, RunJob, InlineJob, JobOk;
    forall k | 0 <= k < |s.threads| && k != i
      ensures Passes(ThreadJob(s.threads[k]), ThreadJob(s'.threads[k]), b, false)
      ensures Passes(RunJob(s.threads[k]), RunJob(s'.threads[k]), b, false)
    {
      assert Placed(s, ThreadJob(s.threads[k]), AtThread(k)) && Placed(s, RunJob(s.threads[k]), OnThread(k));
    }
    forall d | 0 <= d < |s.callers| && d != c
      ensures Passes(CallerJob(s.callers[d]), CallerJob(s'.callers[d]), b, false)
      ensures Passes(InlineJob(s.callers[d]), InlineJob(s'.callers[d]), b, false)
    {
      assert Placed(s, CallerJob(s.callers[d]), AtCaller(d)) && Placed(s, InlineJob(s.callers[d]), OnCaller(d));
    }
  }

  lemma WorkKeepsJobs(s: Pool, i: nat)
    requires Inv(s) && i < |s.threads|
    ensures JobsOk(WorkStep(s, i)) && LiveOk(WorkStep(s, i))
  {
    assert |s.place| == |s.runs| && s.released <= s.finished;
    hide JobsOk;
    assert ThreadOk(s, i);
    WorkLive(s, i);
    if s.threads[i].pc == ToRun {
      JobBegins(s, i);
    } else if s.threads[i].pc == InRun {
      JobEnds(s, i);
    } else {
      WorkSameJobs(s, i);
      JobsStay(s, WorkStep(s, i));
    }
  }

  lemma WorkSameJobs(s: Pool, i: nat)
    requires i < |s.threads| && |s.place| == |s.runs| && s.threads[i].pc !in {ToRun, InRun} && ThreadOk(s, i)
    requires s.released <= s.finished
    ensures SameJobs(s, WorkStep(s, i)) && WorkStep(s, i).released <= WorkStep(s, i).finished
  {
  }

  lemma WorkLive(s: Pool, i: nat)
    requires LiveOk(s) && i < |s.threads| && |s.place| == |s.runs|
    ensures LiveOk(WorkStep(s, i))
  {
  }

  /** A change to thread `i` that no caller but `c` can notice. */
  ghost predicate UnnoticedBut(t: Thread, t': Thread, c: nat)
  {
    && (t.holder.ByCaller? && t.holder.caller != c ==>
          t'.holder == t.holder && (t.status == Idle ==> t'.status == Idle && t'.job == t.job))
    && (t.ticket.Some? && t.ticket.value.caller != c ==>
         t'.ticket == t.ticket && (t.status == Wait ==> t'.status == Wait))
  }

  /** Caller `c` changes itself, the pool's mutex if it is its to change, and thread `i`. */
  lemma CallerChanges(s: Pool, s': Pool, c: nat, i: nat)
    requires ActorsOk(s) && c < |s.callers| && |s'.callers| == |s.callers|
    requires s'.callers == s.callers[c := s'.callers[c]]
    requires |s'.threads| == |s.threads| && (i < |s.threads| ==> s'.threads == s.threads[i := s'.threads[i]])
    requires i >= |s.threads| ==> s'.threads == s.threads
    requires s'.mutex != s.mutex ==> s.mutex in {None, Some(c)} && s'.mutex in {None, Some(c)}
    requires s.finished <= s'.finished && |s.place| <= |s'.place|
    requires i < |s.threads| ==> UnnoticedBut(s.threads[i], s'.threads[i], c) && ThreadOk(s', i)
    requires HoldsThread(s.callers[c]) || s.callers[c].ToSignal? ==> s.callers[c].thread == i
    requires CallerOk(s', c)
    ensures ActorsOk(s')
  {
    forall k | 0 <= k < |s'.threads|
      ensures ThreadOk(s', k)
    {
      assert ThreadOk(s, k);
    }
    forall d | 0 <= d < |s'.callers|
      ensures CallerOk(s', d)
    {
      assert CallerOk(s, d);
    }
  }

  /** The thread a step of the caller concerns. */
  function Concerned(s: Pool, c: nat): nat
    requires c < |s.callers|
  {
    if HasThread(s.callers[c]) then s.callers[c].thread else |s.threads|
  }

  ghost predicate OwnKept(s: Pool, c: nat)
    requires |s.place| == |s.runs| && c < |s.callers| && CallerInRange(s, c)
  {
    var s', i := CallStep(s, c), Concerned(s, c);
    && |s'.callers| == |s.callers| && CallerOk(s', c)
    && (i < |s.threads| ==> i < |s'.threads| && UnnoticedBut(s.threads[i], s'.threads[i], c) && ThreadOk(s', i))
  }

  lemma OwnDispatch(s: Pool, c: nat)
    requires ActorsOk(s) && JobsOk(s) && c < |s.callers| && CallerOk(s, c) && HoldsThread(s.callers[c])
    requires !s.callers[c].Check? && !s.callers[c].Skip?
    ensures Concerned(s, c) < |s.threads| ==> ThreadOk(s, Concerned(s, c))
    ensures OwnKept(s, c)
  {
    var i := Concerned(s, c);
    if i < |s.threads| { assert ThreadOk(s, i); }
    match s.callers[c] {
      case ToAssign(j, k) =>
      case Assigned(j, k) =>
      case Started(j, k) =>
    }
  }

  lemma OwnSearch(s: Pool, c: nat)
    requires ActorsOk(s) && JobsOk(s) && c < |s.callers| && CallerOk(s, c)
    requires (s.callers[c].ToLock? || s.callers[c].Check? || s.callers[c].Skip?)
    ensures Concerned(s, c) < |s.threads| ==> ThreadOk(s, Concerned(s, c))
    ensures OwnKept(s, c)
  {
    var i := Concerned(s, c);
    if i < |s.threads| { assert ThreadOk(s, i); }
    match s.callers[c] {
      case ToLock(j, k) =>
      case Check(j, k) =>
      case Skip(j, k) =>
    }
  }

  lemma OwnAfter(s: Pool, c: nat)
    requires ActorsOk(s) && JobsOk(s) && c < |s.callers| && CallerOk(s, c)
    requires (s.callers[c].ToSignal? || s.callers[c].ToLeave?)
    ensures Concerned(s, c) < |s.threads| ==> ThreadOk(s, Concerned(s, c))
    ensures OwnKept(s, c)
  {
    var i := Concerned(s, c);
    if i < |s.threads| { assert ThreadOk(s, i); }
    match s.callers[c] {
      case ToSignal(j, k) =>
      case ToLeave(j, k) =>
    }
  }

  lemma OwnWait(s: Pool, c: nat)
    requires ActorsOk(s) && JobsOk(s) && c < |s.callers| && CallerOk(s, c)
    requires (s.callers[c].WaitTest? || s.callers[c].WaitSpin? || s.callers[c].WaitEnd?)
    ensures Concerned(s, c) < |s.threads| ==> ThreadOk(s, Concerned(s, c))
    ensures OwnKept(s, c)
  {
    var i := Concerned(s, c);
    if i < |s.threads| { assert ThreadOk(s, i); }
    match s.callers[c] {
      case WaitTest(j, k) =>
      case WaitSpin(j, k) =>
      case WaitEnd(j, k) =>
    }
  }

  lemma OwnAlone(s: Pool, c: nat)
    requires ActorsOk(s) && JobsOk(s) && c < |s.callers| && CallerOk(s, c) && !HasThread(s.callers[c])
    ensures Concerned(s, c) < |s.threads| ==> ThreadOk(s, Concerned(s, c))
    ensures OwnKept(s, c)
  {
    match s.callers[c] {
      case Out =>
      case ToPool(j) =>
      case Scan(j, k) =>
      case LeaveInline(j) =>
      case ToInline(j) =>
      case InInline(j) =>
    }
  }

  lemma CallKeepsOwn(s: Pool, c: nat)
    requires ActorsOk(s) && JobsOk(s) && c < |s.callers| && CallerOk(s, c)
    ensures OwnKept(s, c)
  {
    hide ThreadOk, ActorsOk, JobsOk, OwnKept;
    var p := s.callers[c];
    if !HasThread(p) {
      OwnAlone(s, c);
    } else if p.WaitTest? || p.WaitSpin? || p.WaitEnd? {
      OwnWait(s, c);
    } else if p.ToSignal? || p.ToLeave? {
      OwnAfter(s, c);
    } else if p.ToLock? || p.Check? || p.Skip? {
      OwnSearch(s, c);
    } else {
      OwnDispatch(s, c);
    }
  }

  lemma CallKeepsActors(s: Pool, c: nat)
    requires Inv(s) && c < |s.callers| && CallerOk(s, c)
    ensures ActorsOk(CallStep(s, c))
  {
    CallKeepsOwn(s, c);
    hide ThreadOk, CallerOk, JobOk, JobsOk, LiveOk;
    CallerChanges(s, CallStep(s, c), c, Concerned(s, c));
  }

  lemma CallSameJobs(s: Pool, c: nat)
    requires |s.place| == |s.runs| && c < |s.callers| && CallerInRange(s, c)
    requires !s.callers[c].ToAssign? && !s.callers[c].ToInline? && !s.callers[c].InInline?
    ensures SameJobs(s, CallStep(s, c))
  {
    if HasThread(s.callers[c]) {
      var i := s.callers[c].thread;
      assert ThreadJob(Signalled(s.threads[i])) == ThreadJob(s.threads[i]);
    }
  }

  /** Thread_Wait returns for finished jobs only. */
  lemma CallReleases(s: Pool, c: nat)
    requires ActorsOk(s) && |s.place| == |s.runs| && s.released <= s.finished && c < |s.callers| && CallerOk(s, c)
    ensures CallStep(s, c).released <= CallStep(s, c).finished
  {
    if HasThread(s.callers[c]) { assert ThreadOk(s, s.callers[c].thread); }
  }

  /** A job passes from its caller to the thread that will run it. */
  lemma JobAssigned(s: Pool, c: nat)
    requires ActorsOk(s) && JobsOk(s) && c < |s.callers| && CallerOk(s, c) && s.callers[c].ToAssign?
    ensures JobsOk(CallStep(s, c))
  {
    var b, i := s.callers[c].job, s.callers[c].thread;
    assert ThreadOk(s, i) && Placed(s, CallerJob(s.callers[c]), AtCaller(c));
    assert JobOk(s, b);
    OthersPass(s, CallStep(s, c), b, i, c);
    JobMoves(s, CallStep(s, c), b);
  }

  /** A caller that found no thread runs the job itself. */
  lemma JobInline(s: Pool, c: nat)
    requires JobsOk(s) && c < |s.callers| && CallerOk(s, c) && (s.callers[c].ToInline? || s.callers[c].InInline?)
    ensures JobsOk(CallStep(s, c))
  {
    var b := s.callers[c].job;
    assert Placed(s, CallerJob(s.callers[c]), AtCaller(c)) && Placed(s, InlineJob(s.callers[c]), OnCaller(c));
    assert JobOk(s, b);
    OthersPass(s, CallStep(s, c), b, |s.threads|, c);
    JobMoves(s, CallStep(s, c), b);
  }

  lemma CallLive(s: Pool, c: nat)
    requires Inv(s) && c < |s.callers| && CallerOk(s, c)
    ensures LiveOk(CallStep(s, c))
  {
    hide JobsOk;
    if HasThread(s.callers[c]) { assert ThreadOk(s, s.callers[c].thread); }
  }

  lemma CallKeeps(s: Pool, c: nat)
    requires Inv(s) && c < |s.callers| && CallerOk(s, c)
    ensures Inv(CallStep(s, c))
  {
    assert |s.place| == |s.runs| && s.released <= s.finished;
    hide JobsOk, LiveOk, ActorsOk, ThreadOk;
    CallKeepsActors(s, c);
    CallLive(s, c);
    if s.callers[c].ToAssign? {
      JobAssigned(s, c);
    } else if s.callers[c].ToInline? || s.callers[c].InInline? {
      JobInline(s, c);
    } else {
      CallSameJobs(s, c);
      CallReleases(s, c);
      JobsStay(s, CallStep(s, c));
    }
  }

  lemma WakeUpKeeps(s: Pool, i: nat)
    requires Inv(s) && i < |s.threads|
    ensures Enabled(s, WakeUp(i)) && Inv(Next(s, WakeUp(i)))
  {
    var s' := Next(s, WakeUp(i));
    assert ThreadOk(s, i);
    assert ThreadOk(s', i);
    ThreadChanges(s, s', i);
    JobsStay(s, s');
  }

  lemma CreateKeeps(s: Pool, c: nat)
    requires Inv(s) && Enabled(s, Create(c))
    ensures Inv(Next(s, Create(c)))
  {
    var s' := Next(s, Create(c));
    assert CallerOk(s, c);
    assert CallerOk(s', c);
    CreateKeepsJobs(s, c);
    assert s'.threads == s.threads && s'.live == s.live;
    hide ThreadOk, JobsOk, CallerOk;
    CallerChanges(s, s', c, |s.threads|);
  }

  lemma CreateKeepsJobs(s: Pool, c: nat)
    requires JobsOk(s) && Enabled(s, Create(c))
    ensures JobsOk(Next(s, Create(c)))
  {
    var s' := Next(s, Create(c));
    forall j | 0 <= j < |s'.place|
      ensures JobOk(s', j)
    {
      if j < |s.place| { assert JobOk(s, j); }
    }
    forall d | 0 <= d < |s'.callers|
      ensures Placed(s', CallerJob(s'.callers[d]), AtCaller(d)) && Placed(s', InlineJob(s'.callers[d]), OnCaller(d))
    {
      assert Placed(s, CallerJob(s.callers[d]), AtCaller(d)) && Placed(s, InlineJob(s.callers[d]), OnCaller(d));
    }
    forall i | 0 <= i < |s'.threads|
      ensures Placed(s', ThreadJob(s'.threads[i]), AtThread(i)) && Placed(s', RunJob(s'.threads[i]), OnThread(i))
    {
      assert Placed(s, ThreadJob(s.threads[i]), AtThread(i)) && Placed(s, RunJob(s.threads[i]), OnThread(i));
    }
  }

  lemma TicketRange(s: Pool, i: nat)
    requires Inv(s) && i < |s.threads| && s.threads[i].ticket.Some?
    ensures s.threads[i].ticket.value.job < |s.place|
  {
    assert ThreadOk(s, i);
  }

  lemma WaitForKeeps(s: Pool, c: nat, i: nat)
    requires Inv(s) && Enabled(s, WaitFor(c, i))
    ensures Inv(Next(s, WaitFor(c, i)))
  {
    var s' := Next(s, WaitFor(c, i));
    assert CallerOk(s, c) && ThreadOk(s, i);
    TicketRange(s, i);
    assert CallerOk(s', c);
    CallerChanges(s, s', c, |s.threads|);
    JobsStay(s, s');
  }

  // ----- every run

  ghost predicate IsRun(states: seq<Pool>, steps: seq<Step>, threads: nat, callers: nat)
  {
    && |states| == |steps| + 1 && states[0] == Init(threads, callers)
    && forall k {:trigger steps[k]} :: 0 <= k < |steps| ==>
         Enabled(states[k], steps[k]) && states[k + 1] == Next(states[k], steps[k])
  }

  lemma {:induction false} RunKeeps(states: seq<Pool>, steps: seq<Step>, threads: nat, callers: nat, n: nat)
    requires IsRun(states, steps, threads, callers) && n < |states|
    ensures Inv(states[n])
  {
    if n == 0 {
      InitOk(threads, callers);
    } else {
      RunKeeps(states, steps, threads, callers, n - 1);
      var s := states[n - 1];
      hide Inv, Next, Enabled;
      StepKeeps(s, steps[n - 1]);
    }
  }

  lemma StepKeeps(s: Pool, step: Step)
    requires Inv(s) && Enabled(s, step)
    ensures Inv(Next(s, step))
  {
    hide ThreadOk, JobsOk, LiveOk, WorkStep, CallStep;
    match step
    case Work(i) => WorkKeeps(s, i);
    case WakeUp(i) => WakeUpKeeps(s, i);
    case Call(c) => assert CallerOk(s, c); CallKeeps(s, c);
    case Create(c) => CreateKeeps(s, c);
    case WaitFor(c, i) => WaitForKeeps(s, c, i);
  }

  /** In every run a job handed in is in one of three stages.  Not yet begun, it is with its caller still in
      Thread_Create_ or with the thread that was given it; begun once and not over, a thread or its caller is
      running it; or it was begun once and has come to its end. */
  lemma EveryJobOnce(states: seq<Pool>, steps: seq<Step>, threads: nat, callers: nat, n: nat, j: nat)
    requires IsRun(states, steps, threads, callers) && n < |states| && j < |states[n].place|
    ensures var s := states[n];
      && |s.runs| == |s.place| && s.runs[j] <= 1
      && (s.runs[j] == 0 <==> Awaits(s, j)) && (s.runs[j] == 1 <==> Runs(s, j) || j in s.finished)
      && !(Runs(s, j) && j in s.finished)
  {
    RunKeeps(states, steps, threads, callers, n);
    JobStage(states[n], j);
  }

  ghost predicate Awaits(s: Pool, j: nat)
  {
    || (exists c {:trigger s.callers[c]} :: 0 <= c < |s.callers| && CallerJob(s.callers[c]) == Some(j))
    || (exists i {:trigger s.threads[i]} :: 0 <= i < |s.threads| && ThreadJob(s.threads[i]) == Some(j))
  }

  ghost predicate Runs(s: Pool, j: nat)
  {
    || (exists c {:trigger s.callers[c]} :: 0 <= c < |s.callers| && InlineJob(s.callers[c]) == Some(j))
    || (exists i {:trigger s.threads[i]} :: 0 <= i < |s.threads| && RunJob(s.threads[i]) == Some(j))
  }

  lemma JobStage(s: Pool, j: nat)
    requires JobsOk(s) && j < |s.place|
    ensures s.runs[j] == 0 <==> Awaits(s, j)
    ensures s.runs[j] <= 1 && (s.runs[j] == 1 <==> Runs(s, j) || j in s.finished)
    ensures !(Runs(s, j) && j in s.finished)
    ensures j in s.finished <==> s.place[j] == Over
  {
    hide ThreadJob, CallerJob, RunJob, InlineJob;
    assert JobOk(s, j);
    forall c | 0 <= c < |s.callers|
      ensures CallerJob(s.callers[c]) == Some(j) ==> s.place[j] == AtCaller(c)
      ensures InlineJob(s.callers[c]) == Some(j) ==> s.place[j] == OnCaller(c)
    {
      assert Placed(s, CallerJob(s.callers[c]), AtCaller(c)) && Placed(s, InlineJob(s.callers[c]), OnCaller(c));
    }
    forall i | 0 <= i < |s.threads|
      ensures ThreadJob(s.threads[i]) == Some(j) ==> s.place[j] == AtThread(i)
      ensures RunJob(s.threads[i]) == Some(j) ==> s.place[j] == OnThread(i)
    {
      assert Placed(s, ThreadJob(s.threads[i]), AtThread(i)) && Placed(s, RunJob(s.threads[i]), OnThread(i));
    }
  }

  /** In every run, once a caller is told that its job is over, by Thread_Wait or by Thread_Create_ having run
      it, the job has been run exactly once, to its end. */
  lemma ReleasedRanOnce(states: seq<Pool>, steps: seq<Step>, threads: nat, callers: nat, n: nat, j: nat)
    requires IsRun(states, steps, threads, callers) && n < |states| && j in states[n].released
    ensures j < |states[n].runs| && states[n].runs[j] == 1 && j in states[n].finished && !Runs(states[n], j)
  {
    RunKeeps(states, steps, threads, callers, n);
    JobStage(states[n], j);
  }

  /** No two live jobs share a thread. */
  lemma OneLiveJobEach(states: seq<Pool>, steps: seq<Step>, threads: nat, callers: nat, n: nat, i: nat, j: nat, k: nat)
    requires IsRun(states, steps, threads, callers) && n < |states| && (i, j) in states[n].live
    requires (i, k) in states[n].live
    ensures j == k
  {
    RunKeeps(states, steps, threads, callers, n);
  }

  /** A worker asleep with work to do is about to be signalled: no wake-up is lost. */
  lemma NoLostWakeUp(states: seq<Pool>, steps: seq<Step>, threads: nat, callers: nat, n: nat, i: nat)
    requires IsRun(states, steps, threads, callers) && n < |states| && i < |states[n].threads|
    requires states[n].threads[i].status == Running && states[n].threads[i].pc == Asleep
    ensures exists c {:trigger states[n].callers[c]} ::
      0 <= c < |states[n].callers| && AboutToSignal(states[n].callers[c], i)
  {
    RunKeeps(states, steps, threads, callers, n);
    assert ThreadOk(states[n], i);
  }

  // ----- nobody waits for ever

  /** No worker and no caller can do anything more by itself. */
  ghost predicate AtRest(s: Pool)
  {
    forall step: Step {:trigger Enabled(s, step)} :: (step.Work? || step.Call?) && Enabled(s, step) ==>
      Next(s, step) == s
  }

  /** The steps that can be blocked: for a mutex, for a signal, or for the end of a job. */
  lemma WorkerBlocked(s: Pool, i: nat)
    requires Inv(s) && i < |s.threads| && WorkStep(s, i) == s
    ensures s.threads[i].pc == Asleep || (s.threads[i].pc in {Top, Woken} && s.threads[i].holder.ByCaller?)
  {
    var t, t' := s.threads[i], WorkStep(s, i).threads[i];
    assert ThreadOk(s, i);
    assert t'.pc == t.pc;
    if t.job.Some? { assert Placed(s, ThreadJob(t), AtThread(i)) && Placed(s, RunJob(t), OnThread(i)); }
  }

  lemma CallerBlocked(s: Pool, c: nat)
    requires Inv(s) && c < |s.callers| && CallerOk(s, c) && CallStep(s, c) == s
    ensures var p := s.callers[c];
      || p == Out || (p.ToPool? && s.mutex.Some?) || (p.ToLock? && s.threads[p.thread].holder != Free)
      || (p.WaitSpin? && s.threads[p.thread].status != Wait)
  {
    assert |s.place| == |s.runs|;
    hide JobsOk, ActorsOk, LiveOk;
    assert CallStep(s, c).callers[c] == s.callers[c];
  }

  lemma CallerRests(s: Pool, c: nat)
    requires Inv(s) && AtRest(s) && c < |s.callers|
    ensures CallerOk(s, c)
    ensures var p := s.callers[c];
      || p == Out || (p.ToPool? && s.mutex.Some?) || (p.ToLock? && s.threads[p.thread].holder != Free)
      || (p.WaitSpin? && s.threads[p.thread].status != Wait)
  {
    assert CallerOk(s, c) && Enabled(s, Call(c));
    CallerBlocked(s, c);
  }

  lemma NoHolderRests(s: Pool, i: nat)
    requires Inv(s) && AtRest(s) && i < |s.threads|
    ensures !s.threads[i].holder.ByCaller? && s.threads[i].pc == Asleep
  {
    assert ThreadOk(s, i) && Enabled(s, Work(i));
    WorkerBlocked(s, i);
    if s.threads[i].holder.ByCaller? {
      CallerRests(s, s.threads[i].holder.caller);
    }
  }

  lemma MutexRests(s: Pool)
    requires Inv(s) && AtRest(s)
    ensures s.mutex == None
  {
    if s.mutex.Some? {
      var c := s.mutex.value;
      CallerRests(s, c);
      NoHolderRests(s, s.callers[c].thread);
    }
  }

  lemma NoneRunningRests(s: Pool, i: nat)
    requires Inv(s) && AtRest(s) && i < |s.threads|
    ensures s.threads[i].status != Running && s.threads[i].job == None
  {
    MutexRests(s);
    NoHolderRests(s, i);
    assert ThreadOk(s, i);
  }

  lemma NoCallerRests(s: Pool, c: nat)
    requires Inv(s) && AtRest(s) && c < |s.callers|
    ensures s.callers[c] == Out
  {
    MutexRests(s);
    CallerRests(s, c);
    if s.callers[c].WaitSpin? { NoneRunningRests(s, s.callers[c].thread); }
  }

  /** In every run, when nobody can do anything more, every caller has returned, and every job handed in has
      been run exactly once, to its end: nobody is stuck, and no job is left behind. */
  lemma NoDeadlock(states: seq<Pool>, steps: seq<Step>, threads: nat, callers: nat, n: nat, j: nat)
    requires IsRun(states, steps, threads, callers) && n < |states| && AtRest(states[n])
    ensures forall c {:trigger states[n].callers[c]} :: 0 <= c < |states[n].callers| ==> states[n].callers[c] == Out
    ensures j < |states[n].place| ==>
      |states[n].runs| == |states[n].place| && states[n].runs[j] == 1 && j in states[n].finished
  {
    RunKeeps(states, steps, threads, callers, n);
    var s := states[n];
    forall c | 0 <= c < |s.callers|
      ensures s.callers[c] == Out
    {
      NoCallerRests(s, c);
    }
    if j < |s.place| {
      assert JobOk(s, j);
      match s.place[j]
      case AtCaller(c) =>
      case OnCaller(c) =>
      case AtThread(i) => NoneRunningRests(s, i);
      case OnThread(i) => NoneRunningRests(s, i);
      case Over =>
    }
  }
}
