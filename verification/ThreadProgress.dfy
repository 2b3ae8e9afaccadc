/** Every job handed in to the pool of worker threads is run (src/thread.c): the work left in the pool falls
    with every step that a worker or a caller takes by itself, so that under a fair scheduler the pool comes
    to rest, and at rest nothing is left to do. */
module ThreadProgress {
  import opened Sequences
  import opened ThreadPool

  /** The steps a worker is from sleeping, on its way round the loop. */
  function WorkerLeft(t: Thread): nat
  {
    match t.pc
    case Asleep => 0
    case ToSleep => 1
    case Locked => if t.status == Running then 9 else 2
    case Top => if t.status == Running then 10 else 3
    case ToUnlock => if t.status == Running then 11 else 4
    case Woken => if t.status == Running then 12 else 5
    case ToWait => 5
    case Ran => 6
    case InRun => 7
    case ToRun => 8
  }

  /** The threads still to be looked at. */
  function Unseen(n: nat, i: nat): nat { if i <= n then n - i else 0 }

  /** The steps a caller is from returning, at most, in a pool of `n` threads. */
  function CallerLeft(p: CallerPc, n: nat): nat
  {
    match p
    case Out => 0
    case ToPool(_) => 4 * n + 5
    case Scan(_, i) => 4 * Unseen(n, i) + 4
    case ToLock(_, i) => 4 * Unseen(n, i) + 3
    case Check(_, i) => 4 * Unseen(n, i) + 2
    case Skip(_, i) => 4 * Unseen(n, i) + 1
    case ToAssign(_, _) => 5
    case Assigned(_, _) => 4
    case Started(_, _) => 3
    case ToSignal(_, _) => 2
    case ToLeave(_, _) => 1
    case LeaveInline(_) => 3
    case ToInline(_) => 2
    case InInline(_) => 1
    case WaitTest(_, _) => 3
    case WaitSpin(_, _) => 2
    case WaitEnd(_, _) => 1
  }

  function Sum(xs: seq<nat>): nat { if xs == [] then 0 else Sum(xs[..|xs| - 1]) + xs[|xs| - 1] }

  lemma {:induction false} SumChanges(xs: seq<nat>, i: nat, x: nat)
    requires i < |xs|
    ensures Sum(xs[i := x]) == Sum(xs) - xs[i] + x && Sum(xs) >= xs[i]
  {
    var n := |xs| - 1;
    if i < n {
      SumChanges(xs[..n], i, x);
      assert xs[i := x][..n] == xs[..n][i := x];
    } else {
      assert xs[i := x][..n] == xs[..n];
    }
  }

  function WorkersLeft(s: Pool): (xs: seq<nat>)
    ensures |xs| == |s.threads| && forall i {:trigger xs[i]} :: 0 <= i < |xs| ==> xs[i] == WorkerLeft(s.threads[i])
  {
    seq(|s.threads|, i requires 0 <= i < |s.threads| => WorkerLeft(s.threads[i]))
  }

  function CallersLeft(s: Pool): (xs: seq<nat>)
    ensures |xs| == |s.callers|
    ensures forall c {:trigger xs[c]} :: 0 <= c < |xs| ==> xs[c] == CallerLeft(s.callers[c], |s.threads|)
  {
    seq(|s.callers|, c requires 0 <= c < |s.callers| => CallerLeft(s.callers[c], |s.threads|))
  }

  /** The work left: a step of a caller weighs more than all it can make a worker do. */
  function Left(s: Pool): nat
  {
    Sum(WorkersLeft(s)) + 13 * Sum(CallersLeft(s))
  }

  lemma WorkerFalls(s: Pool, i: nat)
    requires Inv(s) && i < |s.threads| && WorkStep(s, i) != s
    ensures var s' := WorkStep(s, i);
      && s'.callers == s.callers && |s'.place| == |s.place| && s'.threads == s.threads[i := s'.threads[i]]
      && WorkerLeft(s'.threads[i]) < WorkerLeft(s.threads[i])
  {
    assert ThreadOk(s, i);
  }

  lemma WorkFalls(s: Pool, i: nat)
    requires Inv(s) && i < |s.threads| && WorkStep(s, i) != s
    ensures Left(WorkStep(s, i)) < Left(s)
  {
    var s' := WorkStep(s, i);
    WorkerFalls(s, i);
    hide Inv, WorkStep, WorkerLeft, CallerLeft, Sum;
    assert CallersLeft(s') == CallersLeft(s);
    assert WorkersLeft(s') == WorkersLeft(s)[i := WorkerLeft(s'.threads[i])];
    SumChanges(WorkersLeft(s), i, WorkerLeft(s'.threads[i]));
  }

  /** The thread that a caller's step may change. */
  function Served(p: CallerPc): nat { if HasThread(p) then p.thread else 0 }

  /** A step of caller `c` brings it on; it may give a worker something to do. */
  ghost predicate ComesOn(s: Pool, c: nat, s': Pool)
    requires c < |s.callers|
  {
    var i := Served(s.callers[c]);
    && |s'.threads| == |s.threads| && |s'.callers| == |s.callers| && |s'.place| == |s.place|
    && s'.callers == s.callers[c := s'.callers[c]]
    && CallerLeft(s'.callers[c], |s.threads|) < CallerLeft(s.callers[c], |s.threads|)
    && (s'.threads == s.threads
        || (i < |s.threads| && s'.threads == s.threads[i := s'.threads[i]]
            && WorkerLeft(s'.threads[i]) <= WorkerLeft(s.threads[i]) + 12))
  }

  lemma AloneFalls(s: Pool, c: nat)
    requires Inv(s) && c < |s.callers| && CallerOk(s, c) && !HasThread(s.callers[c]) && CallStep(s, c) != s
    ensures ComesOn(s, c, CallStep(s, c))
  {
    hide Inv, WorkerLeft;
    match s.callers[c] {
      case Out =>
      case ToPool(j) =>
      case Scan(j, k) =>
      case LeaveInline(j) =>
      case ToInline(j) =>
      case InInline(j) =>
    }
  }

  lemma WaitFalls(s: Pool, c: nat)
    requires Inv(s) && c < |s.callers| && CallerOk(s, c) && CallStep(s, c) != s
    requires s.callers[c].WaitTest? || s.callers[c].WaitSpin? || s.callers[c].WaitEnd?
    ensures ComesOn(s, c, CallStep(s, c))
  {
    hide Inv;
    match s.callers[c] {
      case WaitTest(j, k) =>
      case WaitSpin(j, k) =>
      case WaitEnd(j, k) =>
    }
  }

  lemma DispatchFalls(s: Pool, c: nat)
    requires Inv(s) && c < |s.callers| && CallerOk(s, c) && HasThread(s.callers[c]) && CallStep(s, c) != s
    requires !s.callers[c].WaitTest? && !s.callers[c].WaitSpin? && !s.callers[c].WaitEnd?
    ensures ComesOn(s, c, CallStep(s, c))
  {
    hide Inv;
    match s.callers[c] {
      case ToLock(j, k) =>
      case Check(j, k) =>
      case ToAssign(j, k) =>
      case Assigned(j, k) =>
      case Started(j, k) =>
      case ToSignal(j, k) =>
      case ToLeave(j, k) =>
      case Skip(j, k) =>
    }
  }

  lemma CallerFalls(s: Pool, c: nat)
    requires Inv(s) && c < |s.callers| && CallerOk(s, c) && CallStep(s, c) != s
    ensures ComesOn(s, c, CallStep(s, c))
  {
    hide Inv, ComesOn, CallStep;
    var p := s.callers[c];
    if !HasThread(p) {
      AloneFalls(s, c);
    } else if p.WaitTest? || p.WaitSpin? || p.WaitEnd? {
      WaitFalls(s, c);
    } else {
      DispatchFalls(s, c);
    }
  }

  lemma CallFalls(s: Pool, c: nat)
    requires Inv(s) && c < |s.callers| && CallerOk(s, c) && CallStep(s, c) != s
    ensures Left(CallStep(s, c)) < Left(s)
  {
    var s', i := CallStep(s, c), Served(s.callers[c]);
    CallerFalls(s, c);
    hide Inv, CallStep, WorkerLeft, CallerLeft, Sum, CallerOk;
    var left := CallerLeft(s'.callers[c], |s.threads|);
    assert CallersLeft(s') == CallersLeft(s)[c := left];
    SumChanges(CallersLeft(s), c, left);
    if s'.threads == s.threads {
      assert WorkersLeft(s') == WorkersLeft(s);
    } else {
      assert WorkersLeft(s') == WorkersLeft(s)[i := WorkerLeft(s'.threads[i])];
      SumChanges(WorkersLeft(s), i, WorkerLeft(s'.threads[i]));
    }
  }

  /** A step that a worker or a caller takes by itself changes nothing or leaves less to do. */
  lemma StepFalls(s: Pool, step: Step)
    requires Inv(s) && Enabled(s, step) && (step.Work? || step.Call?) && Next(s, step) != s
    ensures Left(Next(s, step)) < Left(s)
  {
    hide Inv, WorkStep, CallStep, Left;
    match step
    case Work(i) => WorkFalls(s, i);
    case Call(c) => assert CallerOk(s, c) by { CallersOk(s, c); } CallFalls(s, c);
  }

  lemma CallersOk(s: Pool, c: nat)
    requires Inv(s) && c < |s.callers|
    ensures CallerOk(s, c)
  {
  }

  // ----- every job is run

  /** From state `a` to state `b` of a run nobody hands in a job or begins to wait, and no sleeper wakes up by
      itself. */
  ghost predicate OnTheirOwn(steps: seq<Step>, a: nat, b: nat)
    requires a <= b <= |steps|
  {
    forall k {:trigger steps[k]} :: a <= k < b ==> steps[k].Work? || steps[k].Call?
  }

  /** Everyone takes a step in between, whether it is blocked or not. */
  ghost predicate Everyone(s: Pool, steps: seq<Step>, a: nat, b: nat)
    requires a <= b <= |steps|
  {
    && (forall i: nat {:trigger Work(i)} :: i < |s.threads| ==> exists k :: a <= k < b && steps[k] == Work(i))
    && (forall c: nat {:trigger Call(c)} :: c < |s.callers| ==> exists k :: a <= k < b && steps[k] == Call(c))
  }

  lemma {:induction false} Falls(states: seq<Pool>, steps: seq<Step>, threads: nat, callers: nat, a: nat, b: nat)
    requires IsRun(states, steps, threads, callers) && a <= b <= |steps| && OnTheirOwn(steps, a, b)
    ensures Left(states[b]) <= Left(states[a])
    ensures Left(states[b]) == Left(states[a]) ==>
      forall k {:trigger states[k]} :: a <= k <= b ==> states[k] == states[a]
    decreases b - a
  {
    hide Inv, Enabled, Next, Left;
    RunKeeps(states, steps, threads, callers, a);
    if a < b {
      Falls(states, steps, threads, callers, a, b - 1);
      RunKeeps(states, steps, threads, callers, b - 1);
      assert states[b] == Next(states[b - 1], steps[b - 1]);
      if states[b] != states[b - 1] { StepFalls(states[b - 1], steps[b - 1]); }
    }
  }

  /** In a round in which everyone takes a step, the work left falls, unless everyone was at rest before. */
  lemma RoundFalls(states: seq<Pool>, steps: seq<Step>, threads: nat, callers: nat, a: nat, b: nat)
    requires IsRun(states, steps, threads, callers) && a <= b <= |steps| && OnTheirOwn(steps, a, b)
    requires Everyone(states[a], steps, a, b)
    ensures Left(states[b]) < Left(states[a]) || AtRest(states[a])
  {
    hide Inv, Next, Left, Enabled;
    Falls(states, steps, threads, callers, a, b);
    var s := states[a];
    if Left(states[b]) == Left(s) {
      forall step: Step | (step.Work? || step.Call?) && Enabled(s, step)
        ensures Next(s, step) == s
      {
        EnabledMeans(s, step);
        var k :| a <= k < b && steps[k] == step;
        assert states[k] == s && states[k + 1] == s;
      }
    }
  }

  lemma EnabledMeans(s: Pool, step: Step)
    requires Enabled(s, step)
    ensures step.Work? ==> step.i < |s.threads|
    ensures step.Call? ==> step.c < |s.callers|
  {
  }

  lemma {:induction false} RestStays(states: seq<Pool>, steps: seq<Step>, threads: nat, callers: nat, a: nat, b: nat)
    requires IsRun(states, steps, threads, callers) && a <= b <= |steps| && OnTheirOwn(steps, a, b)
    requires AtRest(states[a])
    ensures states[b] == states[a]
    decreases b - a
  {
    hide Next, Enabled;
    if a < b {
      RestStays(states, steps, threads, callers, a, b - 1);
      assert states[b] == Next(states[b - 1], steps[b - 1]);
    }
  }

  /** The steps before mark `m` since the last one are a round in which everyone takes a step. */
  ghost predicate Round(states: seq<Pool>, steps: seq<Step>, marks: seq<nat>, m: nat)
    requires |states| == |steps| + 1 && 0 < m < |marks|
  {
    && marks[m - 1] <= marks[m] <= |steps| && OnTheirOwn(steps, marks[m - 1], marks[m])
    && Everyone(states[marks[m - 1]], steps, marks[m - 1], marks[m])
  }

  ghost predicate Rounds(states: seq<Pool>, steps: seq<Step>, marks: seq<nat>)
    requires |states| == |steps| + 1
  {
    && marks != [] && (forall m {:trigger marks[m]} :: 0 <= m < |marks| ==> marks[m] <= |steps|)
    && forall m {:trigger Round(states, steps, marks, m)} :: 0 < m < |marks| ==> Round(states, steps, marks, m)
  }

  lemma {:induction false} RoundsFall(states: seq<Pool>, steps: seq<Step>, threads: nat, callers: nat, marks: seq<nat>,
                                      m: nat)
    requires IsRun(states, steps, threads, callers) && Rounds(states, steps, marks) && m < |marks|
    ensures Left(states[marks[m]]) + m <= Left(states[marks[0]]) || AtRest(states[marks[m]])
  {
    hide Inv, Next, Enabled, AtRest, Left, OnTheirOwn, Everyone;
    RunKeeps(states, steps, threads, callers, marks[m]);
    if m > 0 {
      RoundsFall(states, steps, threads, callers, marks, m - 1);
      assert Round(states, steps, marks, m);
      if AtRest(states[marks[m - 1]]) {
        RestStays(states, steps, threads, callers, marks[m - 1], marks[m]);
      } else {
        RoundFalls(states, steps, threads, callers, marks[m - 1], marks[m]);
      }
    }
  }

  /** Under a scheduler that lets everyone take a step again and again, every job is run: after as many rounds
      as there was work left, and one more, every caller has returned and every job handed in has been run
      exactly once, to its end. */
  lemma EveryJobIsRun(states: seq<Pool>, steps: seq<Step>, threads: nat, callers: nat, marks: seq<nat>, j: nat)
    requires IsRun(states, steps, threads, callers) && Rounds(states, steps, marks)
    requires |marks| > Left(states[marks[0]]) + 1
    ensures var s := states[marks[|marks| - 1]];
      && AtRest(s)
      && (forall c {:trigger s.callers[c]} :: 0 <= c < |s.callers| ==> s.callers[c] == Out)
      && (j < |s.place| ==> |s.runs| == |s.place| && s.runs[j] == 1 && j in s.finished)
  {
    hide Next, Enabled, AtRest, Left, OnTheirOwn, Everyone;
    RoundsFall(states, steps, threads, callers, marks, |marks| - 1);
    NoDeadlock(states, steps, threads, callers, marks[|marks| - 1], j);
  }
}
