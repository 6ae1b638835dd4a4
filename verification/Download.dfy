/**
 The concurrent download of benchmarks/_clients.py: one task per file, a semaphore round each
 transfer, and one shared list of byte counts. Tasks interleave at every await, in any order.
 */
module Download {
  import opened Wrappers

  /** Where one task stands. A finished one has given its permit back but not recorded its bytes yet. */
  datatype Task = Waiting | Transferring | Finished(got: nat) | Recorded(got: nat)

  datatype Pool = Pool(permits: nat, tasks: seq<Task>, moved: seq<nat>)

  datatype Step =
    | Acquire(i: nat)
    | Complete(i: nat, got: nat)
    | Record(i: nat)

  predicate Enabled(p: Pool, step: Step) {
    && step.i < |p.tasks|
    && match step
       case Acquire(i) => p.tasks[i].Waiting? && p.permits > 0
       case Complete(i, _) => p.tasks[i].Transferring?
       case Record(i) => p.tasks[i].Finished?
  }

  function Take(p: Pool, step: Step): Pool
    requires Enabled(p, step)
  {
    match step
    case Acquire(i) => Pool(p.permits - 1, p.tasks[i := Transferring], p.moved)
    case Complete(i, got) => Pool(p.permits + 1, p.tasks[i := Finished(got)], p.moved)
    case Record(i) => Pool(p.permits, p.tasks[i := Recorded(p.tasks[i].got)], p.moved + [p.tasks[i].got])
  }

  function Started(n: nat, concurrency: nat): Pool {
    Pool(concurrency, seq(n, i => Waiting), [])
  }

  predicate AllRecorded(p: Pool) {
    forall t :: t in p.tasks ==> t.Recorded?
  }

  // --- sums over the tasks -----------------------------------------------------------------------------

  function Weigh(tasks: seq<Task>, weight: Task -> nat): nat {
    if tasks == [] then 0 else weight(tasks[0]) + Weigh(tasks[1..], weight)
  }

  lemma {:induction false} WeighUpdate(tasks: seq<Task>, weight: Task -> nat, i: nat, t: Task)
    requires i < |tasks|
    ensures Weigh(tasks[i := t], weight) + weight(tasks[i]) == Weigh(tasks, weight) + weight(t)
  {
    if i == 0 {
      assert tasks[0 := t][1..] == tasks[1..];
    } else {
      assert tasks[i := t][1..] == tasks[1..][i - 1 := t];
      WeighUpdate(tasks[1..], weight, i - 1, t);
    }
  }

  function InFlight(t: Task): nat { if t.Transferring? then 1 else 0 }

  /** What a task has transferred, recorded or not. */
  function Transferred(t: Task): nat { if t.Finished? || t.Recorded? then t.got else 0 }

  function Unrecorded(t: Task): nat { if t.Finished? then t.got else 0 }

  /** How many steps a task still has to take. */
  function StepsLeft(t: Task): nat {
    match t
    case Waiting => 3
    case Transferring => 2
    case Finished(_) => 1
    case Recorded(_) => 0
  }

  function Sum(s: seq<nat>): nat {
    if s == [] then 0 else Sum(s[..|s| - 1]) + s[|s| - 1]
  }

  // --- every interleaving --------------------------------------------------------------------------------

  /** Permits and transfers make up the limit, and every transferred byte is recorded or about to be. */
  ghost predicate Balanced(p: Pool, concurrency: nat) {
    && p.permits + Weigh(p.tasks, InFlight) == concurrency
    && Sum(p.moved) + Weigh(p.tasks, Unrecorded) == Weigh(p.tasks, Transferred)
  }

  lemma StepKeepsBalance(p: Pool, step: Step, concurrency: nat)
    requires Enabled(p, step) && Balanced(p, concurrency)
    ensures Balanced(Take(p, step), concurrency)
    ensures |Take(p, step).tasks| == |p.tasks|
    ensures Weigh(Take(p, step).tasks, StepsLeft) + 1 == Weigh(p.tasks, StepsLeft)
  {
    var t := Take(p, step).tasks[step.i];
    WeighUpdate(p.tasks, InFlight, step.i, t);
    WeighUpdate(p.tasks, Unrecorded, step.i, t);
    WeighUpdate(p.tasks, Transferred, step.i, t);
    WeighUpdate(p.tasks, StepsLeft, step.i, t);
    if step.Record? {
      assert (p.moved + [t.got])[..|p.moved|] == p.moved;
    }
  }

  lemma {:induction false} StartsBalanced(n: nat, concurrency: nat)
    ensures Balanced(Started(n, concurrency), concurrency)
    ensures Weigh(Started(n, concurrency).tasks, StepsLeft) == 3 * n
  {
    if n > 0 {
      assert Started(n, concurrency).tasks[1..] == Started(n - 1, concurrency).tasks;
      StartsBalanced(n - 1, concurrency);
    }
  }

  /** The pool after a run, if each of its steps could be taken. */
  function After(p: Pool, steps: seq<Step>): Option<Pool> {
    if steps == [] then Some(p)
    else
      var q :- After(p, steps[..|steps| - 1]);
      if Enabled(q, steps[|steps| - 1]) then Some(Take(q, steps[|steps| - 1])) else None
  }

  /**
   For any number of tasks and any interleaving: never more transfers in flight than the limit, never
   more steps than three a task, and no transferred byte unaccounted for.
   */
  lemma {:induction false} EveryRunIsBalanced(n: nat, concurrency: nat, steps: seq<Step>)
    requires After(Started(n, concurrency), steps).Some?
    ensures var p := After(Started(n, concurrency), steps).value;
            && Balanced(p, concurrency)
            && Weigh(p.tasks, InFlight) <= concurrency
            && |steps| + Weigh(p.tasks, StepsLeft) == 3 * n
            && |p.tasks| == n
  {
    if steps == [] {
      StartsBalanced(n, concurrency);
    } else {
      var before := steps[..|steps| - 1];
      EveryRunIsBalanced(n, concurrency, before);
      StepKeepsBalance(After(Started(n, concurrency), before).value, steps[|steps| - 1], concurrency);
    }
  }

  lemma {:induction false} NothingLeftUnrecorded(tasks: seq<Task>)
    ensures (forall t :: t in tasks ==> t.Recorded?) <==> Weigh(tasks, StepsLeft) == 0
    ensures Weigh(tasks, StepsLeft) == 0 ==> Weigh(tasks, Unrecorded) == 0
  {
    if tasks == [] {
    } else {
      assert tasks == [tasks[0]] + tasks[1..];
      NothingLeftUnrecorded(tasks[1..]);
      assert (forall t :: t in tasks ==> t.Recorded?)
          <==> tasks[0].Recorded? && forall t :: t in tasks[1..] ==> t.Recorded?;
    }
  }

  /** A finished run returns the sum of what every task transferred: no update is lost. */
  lemma FinishedRunCountsEverything(n: nat, concurrency: nat, steps: seq<Step>)
    requires After(Started(n, concurrency), steps).Some?
    ensures var p := After(Started(n, concurrency), steps).value;
            AllRecorded(p) ==> Sum(p.moved) == Weigh(p.tasks, Transferred)
  {
    EveryRunIsBalanced(n, concurrency, steps);
    NothingLeftUnrecorded(After(Started(n, concurrency), steps).value.tasks);
  }

  lemma {:induction false} SomeoneTransfers(tasks: seq<Task>)
    requires Weigh(tasks, InFlight) > 0
    ensures exists i :: 0 <= i < |tasks| && tasks[i].Transferring?
  {
    if tasks[0].Transferring? {
    } else {
      SomeoneTransfers(tasks[1..]);
      var i :| 0 <= i < |tasks[1..]| && tasks[1..][i].Transferring?;
      assert tasks[i + 1].Transferring?;
    }
  }

  /**
   A run that is not over can always go on, exactly when the limit is positive or there is nothing to
   do: with a limit of zero the first acquire waits for ever.
   */
  lemma NoDeadlock(n: nat, concurrency: nat, steps: seq<Step>)
    requires After(Started(n, concurrency), steps).Some?
    ensures var p := After(Started(n, concurrency), steps).value;
            && (concurrency > 0 || n == 0 ==> AllRecorded(p) || exists step :: Enabled(p, step))
            && (concurrency == 0 && n > 0 ==> !AllRecorded(p) && forall step :: !Enabled(p, step))
  {
    var p := After(Started(n, concurrency), steps).value;
    EveryRunIsBalanced(n, concurrency, steps);
    NothingLeftUnrecorded(p.tasks);
    if concurrency == 0 && n > 0 {
      NothingStarts(n, steps);
      assert p.tasks[0] in p.tasks;
    } else if !AllRecorded(p) {
      var t :| t in p.tasks && !t.Recorded?;
      var i :| 0 <= i < |p.tasks| && p.tasks[i] == t;
      if t.Transferring? {
        assert Enabled(p, Complete(i, 0));
      } else if t.Finished? {
        assert Enabled(p, Record(i));
      } else if p.permits > 0 {
        assert Enabled(p, Acquire(i));
      } else {
        SomeoneTransfers(p.tasks);
        var j :| 0 <= j < |p.tasks| && p.tasks[j].Transferring?;
        assert Enabled(p, Complete(j, 0));
      }
    }
  }

  lemma {:induction false} NothingStarts(n: nat, steps: seq<Step>)
    requires After(Started(n, 0), steps).Some?
    ensures After(Started(n, 0), steps).value == Started(n, 0)
  {
    if steps != [] {
      NothingStarts(n, steps[..|steps| - 1]);
    }
  }

  // --- the program ----------------------------------------------------------------------------------------

  /** Every task that is done with its transfer moved what its file holds. */
  ghost predicate Delivered(tasks: seq<Task>, bytes: seq<nat>) {
    && |tasks| == |bytes|
    && forall i :: 0 <= i < |tasks| && (tasks[i].Finished? || tasks[i].Recorded?) ==> tasks[i].got == bytes[i]
  }

  lemma {:induction false} DeliveredAddsUp(tasks: seq<Task>, bytes: seq<nat>)
    requires Delivered(tasks, bytes) && forall t :: t in tasks ==> t.Recorded?
    ensures Weigh(tasks, Transferred) == Sum(bytes)
  {
    if tasks == [] {
    } else {
      assert tasks[0] in tasks && bytes == [bytes[0]] + bytes[1..];
      DeliveredAddsUp(tasks[1..], bytes[1..]);
      SumOfCons(bytes[0], bytes[1..]);
    }
  }

  lemma {:induction false} SumOfCons(x: nat, s: seq<nat>)
    ensures Sum([x] + s) == x + Sum(s)
  {
    var all := [x] + s;
    if s != [] {
      assert all[..|all| - 1] == [x] + s[..|s| - 1];
      SumOfCons(x, s[..|s| - 1]);
    }
  }

  /** A step a scheduler can take when each file holds `bytes`. */
  predicate CanTake(p: Pool, step: Step, bytes: seq<nat>) {
    Enabled(p, step) && (step.Complete? ==> step.i < |bytes| && step.got == bytes[step.i])
  }

  /** The lowest task that can take a step, for when the scheduler's own pick cannot. */
  method AnyStep(p: Pool, bytes: seq<nat>) returns (step: Step)
    requires |bytes| == |p.tasks| && exists s :: Enabled(p, s)
    ensures CanTake(p, step, bytes)
  {
    step := Acquire(0);
    ghost var able :| Enabled(p, able);
    for i := 0 to |p.tasks|
      invariant i <= able.i
    {
      if Enabled(p, Acquire(i)) {
        return Acquire(i);
      }
      if Enabled(p, Complete(i, bytes[i])) {
        return Complete(i, bytes[i]);
      }
      if Enabled(p, Record(i)) {
        return Record(i);
      }
    }
    assert false;
  }

  /** Some task's transfer is broken. */
  ghost predicate SomeBroken(n: nat, broken: set<nat>) {
    exists i :: 0 <= i < n && i in broken
  }

  /** No broken transfer has come through. */
  ghost predicate NoneBrokenThrough(tasks: seq<Task>, broken: set<nat>) {
    forall i :: 0 <= i < |tasks| && (tasks[i].Finished? || tasks[i].Recorded?) ==> i !in broken
  }

  /**
   Runs the tasks to the end under a scheduler that may pick any step there is. The transfers of the tasks in
   `broken` raise, which ends the task group with no total: exactly when there is one, whatever is picked.
   Otherwise the total is that of the files. The limit must let something through.
   */
  method DownloadMany(bytes: seq<nat>, broken: set<nat>, concurrency: nat) returns (total: Option<nat>)
    requires concurrency > 0 || bytes == []
    ensures total.None? <==> SomeBroken(|bytes|, broken)
    ensures total.Some? ==> total.value == Sum(bytes)
  {
    var n := |bytes|;
    var p := Started(n, concurrency);
    ghost var steps: seq<Step> := [];
    StartsBalanced(n, concurrency);
    NothingLeftUnrecorded(p.tasks);
    while !AllRecorded(p)
      invariant After(Started(n, concurrency), steps) == Some(p)
      invariant Balanced(p, concurrency) && Weigh(p.tasks, InFlight) <= concurrency
      invariant Delivered(p.tasks, bytes) && NoneBrokenThrough(p.tasks, broken)
      decreases Weigh(p.tasks, StepsLeft)
    {
      NoDeadlock(n, concurrency, steps);
      var step: Step := *;
      if !CanTake(p, step, bytes) {
        step := AnyStep(p, bytes);
      }
      if step.Complete? && step.i in broken {
        return None;
      }
      StepKeepsBalance(p, step, concurrency);
      assert (steps + [step])[..|steps|] == steps;
      steps := steps + [step];
      p := Take(p, step);
    }
    NothingLeftUnrecorded(p.tasks);
    DeliveredAddsUp(p.tasks, bytes);
    forall i | 0 <= i < n ensures i !in broken {
      assert p.tasks[i] in p.tasks;
    }
    return Some(Sum(p.moved));
  }

  // --- the form the program avoids ----------------------------------------------------------------------------

  /** `total += await ...`: the total is loaded before the transfer and stored after it. */
  datatype Adder = Idle | Loaded(seen: nat) | Stored

  datatype Tally = Tally(total: nat, adders: seq<Adder>)

  predicate CanLoad(t: Tally, i: nat) { i < |t.adders| && t.adders[i].Idle? }

  predicate CanStore(t: Tally, i: nat) { i < |t.adders| && t.adders[i].Loaded? }

  function Load(t: Tally, i: nat): Tally
    requires CanLoad(t, i)
  {
    t.(adders := t.adders[i := Loaded(t.total)])
  }

  function Store(t: Tally, i: nat, got: nat): Tally
    requires CanStore(t, i)
  {
    Tally(t.adders[i].seen + got, t.adders[i := Stored])
  }

  /** Two overlapping tasks, and the first one's bytes are gone. */
  lemma AugmentedAssignmentLosesAnUpdate(first: nat, second: nat)
    ensures var t0 := Tally(0, [Idle, Idle]);
            && CanLoad(t0, 0) && CanLoad(Load(t0, 0), 1)
            && var t2 := Load(Load(t0, 0), 1);
            && CanStore(t2, 0) && CanStore(Store(t2, 0, first), 1)
            && var t4 := Store(Store(t2, 0, first), 1, second);
            && t4.adders == [Stored, Stored] && t4.total == second
  {
  }
}
