/** A caller runs a job by itself only when it found no idle thread for it (src/thread.c). */
module ThreadSearch {
  import opened Sequences
  import opened ThreadPool

  /** After step `k` of a run caller `c`, looking for a thread for job `j`, saw that thread `i` was not idle:
      on its way along the threads, or with the thread's mutex held. */
  ghost predicate SawBusy(states: seq<Pool>, steps: seq<Step>, k: nat, c: nat, j: nat, i: nat)
    requires |states| == |steps| + 1
  {
    && k < |steps| && steps[k] == Call(c) && c < |states[k].callers| && i < |states[k].threads|
    && (states[k].callers[c] == Scan(j, i) || states[k].callers[c] == Check(j, i))
    && states[k].threads[i].status != Idle
  }

  ghost predicate SeenBusy(states: seq<Pool>, steps: seq<Step>, n: nat, c: nat, j: nat, i: nat)
    requires |states| == |steps| + 1
  {
    exists k: nat :: k < n && SawBusy(states, steps, k, c, j, i)
  }

  /** The threads a caller has looked at and left. */
  function Passed(p: CallerPc, n: nat): nat
  {
    match p
    case Scan(_, i) => i
    case ToLock(_, i) => i
    case Check(_, i) => i
    case ToAssign(_, i) => i
    case Skip(_, i) => i + 1
    case LeaveInline(_) => n
    case ToInline(_) => n
    case InInline(_) => n
    case _ => 0
  }

  ghost predicate Searched(states: seq<Pool>, steps: seq<Step>, n: nat, c: nat)
    requires |states| == |steps| + 1 && n < |states|
  {
    c < |states[n].callers| ==>
      var p := states[n].callers[c];
      forall i: nat {:trigger SeenBusy(states, steps, n, c, p.job, i)} ::
        i < Passed(p, |states[n].threads|) && i < |states[n].threads| ==> SeenBusy(states, steps, n, c, p.job, i)
  }

  /** What a step leaves of a caller that it is not a step of. */
  lemma OthersStay(s: Pool, step: Step, c: nat)
    requires Enabled(s, step) && c < |s.callers|
    ensures var s' := Next(s, step);
      && |s'.threads| == |s.threads| && |s'.callers| == |s.callers|
      && (step != Call(c) && step != Create(c) && (step.WaitFor? ==> step.c != c) ==> s'.callers[c] == s.callers[c])
  {
  }

  /** How a caller gets past threads: one at a time, and only past one that is not idle. */
  lemma OwnStep(s: Pool, c: nat)
    requires c < |s.callers| && |s.place| == |s.runs| && CallerInRange(s, c)
    ensures var p, q, n := s.callers[c], CallStep(s, c).callers[c], |s.threads|;
      && (Passed(q, n) > 0 && !p.Out? ==> q.job == p.job)
      && (Passed(q, n) > Passed(p, n) ==>
            && Passed(q, n) == Passed(p, n) + 1 && Passed(p, n) < n
            && (p == Scan(p.job, Passed(p, n)) || p == Check(p.job, Passed(p, n)))
            && s.threads[Passed(p, n)].status != Idle)
  {
  }

  lemma NewStep(s: Pool, step: Step, c: nat)
    requires Enabled(s, step) && c < |s.callers| && (step == Create(c) || (step.WaitFor? && step.c == c))
    ensures Passed(Next(s, step).callers[c], |s.threads|) == 0 || |s.threads| == 0
  {
  }

  lemma {:induction false} RunSearches(states: seq<Pool>, steps: seq<Step>, threads: nat, callers: nat, n: nat, c: nat)
    requires IsRun(states, steps, threads, callers) && n < |states|
    ensures Searched(states, steps, n, c)
  {
    hide Enabled, Next, CallStep, Passed;
    if n > 0 {
      var s, step := states[n - 1], steps[n - 1];
      RunSearches(states, steps, threads, callers, n - 1, c);
      assert Enabled(s, step) && states[n] == Next(s, step);
      StepSearches(states, steps, n - 1, c);
    } else {
      InitSearches(threads, callers, c);
    }
  }

  lemma InitSearches(threads: nat, callers: nat, c: nat)
    ensures c < |Init(threads, callers).callers| ==> Passed(Init(threads, callers).callers[c], threads) == 0
  {
  }

  lemma StepSearches(states: seq<Pool>, steps: seq<Step>, n: nat, c: nat)
    requires |states| == |steps| + 1 && n < |steps| && Enabled(states[n], steps[n])
    requires states[n + 1] == Next(states[n], steps[n]) && Searched(states, steps, n, c)
    ensures Searched(states, steps, n + 1, c)
  {
    var s, s', step := states[n], states[n + 1], steps[n];
    NextCounts(s, step);
    if c < |s.callers| {
      OthersStay(s, step, c);
      if step == Call(c) {
        EnabledCall(s, c);
        OwnStep(s, c);
      } else if step == Create(c) || (step.WaitFor? && step.c == c) {
        NewStep(s, step, c);
      }
      hide Enabled, Next, CallStep, Passed;
      var p, p', m := s.callers[c], s'.callers[c], |s.threads|;
      forall i: nat {:trigger SeenBusy(states, steps, n + 1, c, p'.job, i)} | i < Passed(p', m) && i < m
        ensures SeenBusy(states, steps, n + 1, c, p'.job, i)
      {
        if i < Passed(p, m) {
          assert SeenBusy(states, steps, n, c, p.job, i) && p'.job == p.job;
        } else {
          assert SawBusy(states, steps, n, c, p'.job, i);
        }
      }
    }
  }

  lemma NextCounts(s: Pool, step: Step)
    requires Enabled(s, step)
    ensures |Next(s, step).callers| == |s.callers| && |Next(s, step).threads| == |s.threads|
  {
  }

  lemma EnabledCall(s: Pool, c: nat)
    requires Enabled(s, Call(c))
    ensures c < |s.callers| && |s.place| == |s.runs| && CallerInRange(s, c) && Next(s, Call(c)) == CallStep(s, c)
  {
  }

  /** In every run a caller runs a job by itself only after it has seen each thread to be not idle, once it had
      the job. */
  lemma InlineOnlyIfBusy(states: seq<Pool>, steps: seq<Step>, threads: nat, callers: nat, n: nat, c: nat, i: nat)
    requires IsRun(states, steps, threads, callers) && n < |states| && c < |states[n].callers|
    requires i < |states[n].threads|
    requires var p := states[n].callers[c]; p.LeaveInline? || p.ToInline? || p.InInline?
    ensures SeenBusy(states, steps, n, c, states[n].callers[c].job, i)
  {
    RunSearches(states, steps, threads, callers, n, c);
  }
}
