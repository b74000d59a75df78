/**
 The snapshot shared by the monitor loop and the HTTP server.

 A snapshot is copied one field at a time, and any number of threads call update and get; the steps of the
 threads interleave in any order. A call takes the lock, copies field by field, and releases the lock on return.
 */
module SnapshotRegister {
  import opened Words

  /** The fields of a snapshot. */
  type Snapshot = seq<int>

  datatype Call = Update(snap: Snapshot) | Get

  /** What a thread is doing: `copied` is what it has copied so far, `place` its entry in the log. */
  datatype Thread =
    | Idle
    | Waiting(call: Call, calledAt: nat)
    | Copying(call: Call, calledAt: nat, place: nat, copied: Snapshot)

  /** The calls in the order in which they got the lock, with the moment they did. */
  datatype Entry = Entry(call: Call, at: nat)

  datatype Completed = Completed(call: Call, calledAt: nat, place: nat, returnedAt: nat, result: Snapshot)

  datatype State = State(latest: Snapshot, owner: Option<nat>, threads: map<nat, Thread>,
                         log: seq<Entry>, completed: seq<Completed>, now: nat)
  {
    function Of(t: nat): Thread {
      if t in threads then threads[t] else Idle
    }

    function Moved(t: nat, thread: Thread): State {
      this.(threads := threads[t := thread], now := now + 1)
    }
  }

  datatype Step = Invoke(t: nat, call: Call) | Acquire(t: nat) | Copy(t: nat) | Release(t: nat)

  function Start(initial: Snapshot): State {
    State(initial, None, map[], [], [], 0)
  }

  /** One step of one thread; a step the thread cannot make now changes nothing. */
  function Apply(s: State, step: Step): State {
    match step
    case Invoke(t, call) =>
      if s.Of(t).Idle? && (call.Update? ==> |call.snap| == |s.latest|) then
        s.Moved(t, Waiting(call, s.now))
      else s
    case Acquire(t) =>
      if s.Of(t).Waiting? && s.owner == None then
        var call := s.Of(t).call;
        s.Moved(t, Copying(call, s.Of(t).calledAt, |s.log|, []))
        .(owner := Some(t), log := s.log + [Entry(call, s.now)])
      else s
    case Copy(t) => CopyField(s, t)
    case Release(t) =>
      if s.Of(t).Copying? && |s.Of(t).copied| == |s.latest| then
        var c := s.Of(t);
        s.Moved(t, Idle)
        .(owner := None, completed := s.completed + [Completed(c.call, c.calledAt, c.place, s.now, c.copied)])
      else s
  }

  /** The next field: into the register for an update, out of it for a get. */
  function CopyField(s: State, t: nat): State {
    var c := s.Of(t);
    if !(c.Copying? && |c.copied| < |s.latest|) then s
    else
      var k := |c.copied|;
      if c.call.Update? && k < |c.call.snap| then
        s.Moved(t, c.(copied := c.copied + [c.call.snap[k]])).(latest := s.latest[k := c.call.snap[k]])
      else
        s.Moved(t, c.(copied := c.copied + [s.latest[k]]))
  }

  function Run(s: State, steps: seq<Step>): State {
    if steps == [] then s else Apply(Run(s, steps[..|steps| - 1]), steps[|steps| - 1])
  }

  // ----- the sequential meaning

  /** What a get returns after the calls of the log. */
  function Latest(initial: Snapshot, log: seq<Entry>): Snapshot {
    if log == [] then initial
    else
      var last := log[|log| - 1].call;
      if last.Update? then last.snap else Latest(initial, log[..|log| - 1])
  }

  /** A completed call took effect at its place in the log, between its call and its return, and a get returned
      what the calls before it left. */
  predicate TookEffect(initial: Snapshot, log: seq<Entry>, d: Completed) {
    && d.place < |log| && log[d.place].call == d.call
    && d.calledAt < log[d.place].at < d.returnedAt
    && (d.call.Get? ==> d.result == Latest(initial, log[..d.place]))
  }

  predicate InOrder(log: seq<Entry>) {
    forall i, j :: 0 <= i < j < |log| ==> log[i].at < log[j].at
  }

  predicate OwnPlaces(completed: seq<Completed>) {
    forall i, j :: 0 <= i < j < |completed| ==> completed[i].place != completed[j].place
  }

  /** The completed calls can be put in one order, each at a moment between its call and its return, in which
      every get returns the last update before it. */
  predicate Linearized(initial: Snapshot, log: seq<Entry>, completed: seq<Completed>) {
    && InOrder(log)
    && OwnPlaces(completed)
    && forall d :: d in completed ==> TookEffect(initial, log, d)
  }

  // ----- what every step keeps

  /** The thread that holds the lock. */
  predicate OwnerOk(initial: Snapshot, s: State, c: Thread) {
    && c.Copying? && c.place + 1 == |s.log| && s.log[c.place].call == c.call
    && c.calledAt < s.log[c.place].at
    && (forall d :: d in s.completed ==> d.place < c.place)
    && c.copied <= s.latest
    && if c.call.Update? then |c.call.snap| == |s.latest| && c.copied <= c.call.snap
       else s.latest == Latest(initial, s.log)
  }

  predicate WaitingOk(s: State, c: Thread) {
    c.Waiting? ==> c.calledAt < s.now && (c.call.Update? ==> |c.call.snap| == |s.latest|)
  }

  predicate LogOk(s: State) {
    forall i :: 0 <= i < |s.log| ==> s.log[i].at < s.now
  }

  predicate PlacesOk(s: State) {
    forall d :: d in s.completed ==> d.place < |s.log|
  }

  ghost predicate Inv(initial: Snapshot, s: State) {
    && Linearized(initial, s.log, s.completed)
    && LogOk(s) && PlacesOk(s)
    && (forall t: nat :: s.Of(t).Copying? ==> s.owner == Some(t))
    && (forall t: nat :: WaitingOk(s, s.Of(t)))
    && match s.owner
       case None => s.latest == Latest(initial, s.log)
       case Some(t) => OwnerOk(initial, s, s.Of(t))
  }

  lemma {:induction false} OthersStay(s: State, step: Step)
    ensures forall u: nat :: u != step.t ==> Apply(s, step).Of(u) == s.Of(u)
  {
  }

  lemma {:induction false} InvokeKeeps(initial: Snapshot, s: State, t: nat, call: Call)
    requires Inv(initial, s)
    ensures Inv(initial, Apply(s, Invoke(t, call)))
  {
    OthersStay(s, Invoke(t, call));
  }

  /** A later entry of the log changes nothing for a call that took effect before. */
  lemma {:induction false} EffectStays(initial: Snapshot, log: seq<Entry>, e: Entry, d: Completed)
    requires TookEffect(initial, log, d)
    ensures TookEffect(initial, log + [e], d)
  {
    assert (log + [e])[..d.place] == log[..d.place];
  }

  lemma {:induction false} LatestAfter(initial: Snapshot, log: seq<Entry>, e: Entry)
    ensures Latest(initial, log + [e]) == if e.call.Update? then e.call.snap else Latest(initial, log)
  {
    assert (log + [e])[..|log|] == log;
  }

  lemma {:induction false} AcquireKeeps(initial: Snapshot, s: State, t: nat)
    requires Inv(initial, s)
    ensures Inv(initial, Apply(s, Acquire(t)))
  {
    OthersStay(s, Acquire(t));
    if s.Of(t).Waiting? && s.owner == None {
      var e := Entry(s.Of(t).call, s.now);
      LatestAfter(initial, s.log, e);
      forall d | d in s.completed
        ensures TookEffect(initial, s.log + [e], d)
      {
        EffectStays(initial, s.log, e, d);
      }
    }
  }

  lemma {:induction false} CopyKeeps(initial: Snapshot, s: State, t: nat)
    requires Inv(initial, s)
    ensures Inv(initial, Apply(s, Copy(t)))
  {
    OthersStay(s, Copy(t));
  }

  lemma {:induction false} ReleaseKeeps(initial: Snapshot, s: State, t: nat)
    requires Inv(initial, s)
    ensures Inv(initial, Apply(s, Release(t)))
  {
    OthersStay(s, Release(t));
  }

  lemma {:induction false} StepKeeps(initial: Snapshot, s: State, step: Step)
    requires Inv(initial, s)
    ensures Inv(initial, Apply(s, step))
  {
    match step
    case Invoke(t, call) => InvokeKeeps(initial, s, t, call);
    case Acquire(t) => AcquireKeeps(initial, s, t);
    case Copy(t) => CopyKeeps(initial, s, t);
    case Release(t) => ReleaseKeeps(initial, s, t);
  }

  lemma {:induction false} RunKeeps(initial: Snapshot, s: State, steps: seq<Step>)
    requires Inv(initial, s)
    ensures Inv(initial, Run(s, steps))
  {
    if steps != [] {
      RunKeeps(initial, s, steps[..|steps| - 1]);
      StepKeeps(initial, Run(s, steps[..|steps| - 1]), steps[|steps| - 1]);
    }
  }

  // ----- what holds of every interleaving

  /** However the threads interleave, the completed calls are linearized. */
  lemma {:induction false} Linearizable(initial: Snapshot, steps: seq<Step>)
    ensures var s := Run(Start(initial), steps); Linearized(initial, s.log, s.completed)
  {
    RunKeeps(initial, Start(initial), steps);
  }

  /** A call that returned before another was made took effect before it. */
  lemma {:induction false} RealTimeOrder(initial: Snapshot, log: seq<Entry>, completed: seq<Completed>, a: Completed,
                                         b: Completed)
    requires Linearized(initial, log, completed) && a in completed && b in completed
    requires a.returnedAt <= b.calledAt
    ensures a.place < b.place
  {
    assert log[a.place].at < log[b.place].at;
  }

  /** The snapshots the register went through: the initial one, and the updates in the order of the log. */
  function Versions(initial: Snapshot, log: seq<Entry>): seq<Snapshot> {
    if log == [] then [initial]
    else
      var last := log[|log| - 1].call;
      Versions(initial, log[..|log| - 1]) + if last.Update? then [last.snap] else []
  }

  lemma {:induction false} LatestIsLastVersion(initial: Snapshot, log: seq<Entry>)
    ensures var v := Versions(initial, log); v != [] && v[|v| - 1] == Latest(initial, log)
  {
    if log != [] {
      LatestIsLastVersion(initial, log[..|log| - 1]);
    }
  }

  lemma {:induction false} VersionsGrow(initial: Snapshot, log: seq<Entry>, n: nat)
    requires n <= |log|
    ensures Versions(initial, log[..n]) <= Versions(initial, log)
  {
    if n == |log| {
      assert log[..n] == log;
    } else {
      VersionsGrow(initial, log[..|log| - 1], n);
      assert log[..|log| - 1][..n] == log[..n];
    }
  }

  /** What a call saw or left: the snapshot returned by a get, or passed to an update. */
  function Saw(d: Completed): Snapshot {
    if d.call.Update? then d.call.snap else d.result
  }

  /** The number of the version in force just after the call took effect. */
  function VersionOf(initial: Snapshot, log: seq<Entry>, d: Completed): int
    requires d.place < |log|
  {
    |Versions(initial, log[..d.place + 1])| - 1
  }

  /** Every get returns one whole version, and every update leaves its own. */
  lemma {:induction false} SawOneVersion(initial: Snapshot, log: seq<Entry>, completed: seq<Completed>, d: Completed)
    requires Linearized(initial, log, completed) && d in completed
    ensures d.place < |log|
    ensures 0 <= VersionOf(initial, log, d) < |Versions(initial, log)|
    ensures Versions(initial, log)[VersionOf(initial, log, d)] == Saw(d)
  {
    var upTo := log[..d.place + 1];
    assert upTo[..d.place] == log[..d.place];
    LatestIsLastVersion(initial, upTo);
    VersionsGrow(initial, log, d.place + 1);
  }

  /** Calls one after the other never see the versions go back. */
  lemma {:induction false} VersionsInOrder(initial: Snapshot, log: seq<Entry>, completed: seq<Completed>, a: Completed,
                                           b: Completed)
    requires Linearized(initial, log, completed) && a in completed && b in completed
    requires a.returnedAt <= b.calledAt
    ensures a.place < |log| && b.place < |log| && VersionOf(initial, log, a) <= VersionOf(initial, log, b)
  {
    RealTimeOrder(initial, log, completed, a, b);
    var upTo := log[..b.place + 1];
    assert upTo[..a.place + 1] == log[..a.place + 1];
    VersionsGrow(initial, upTo, a.place + 1);
  }

  /** An update of the log, and one about to be made, was asked for by some thread. */
  predicate Asked(steps: seq<Step>, call: Call) {
    exists i :: 0 <= i < |steps| && steps[i].Invoke? && steps[i].call == call
  }

  ghost predicate AllAsked(steps: seq<Step>, s: State) {
    && (forall i :: 0 <= i < |s.log| ==> Asked(steps, s.log[i].call))
    && forall t: nat :: s.Of(t).Waiting? ==> Asked(steps, s.Of(t).call)
  }

  lemma {:induction false} AskedLater(steps: seq<Step>, step: Step, call: Call)
    requires Asked(steps, call)
    ensures Asked(steps + [step], call)
  {
    var i :| 0 <= i < |steps| && steps[i].Invoke? && steps[i].call == call;
    assert (steps + [step])[i] == steps[i];
  }

  lemma {:induction false} StepAsked(steps: seq<Step>, s: State, step: Step)
    requires AllAsked(steps, s)
    ensures AllAsked(steps + [step], Apply(s, step))
  {
    var s' := Apply(s, step);
    OthersStay(s, step);
    assert (steps + [step])[|steps|] == step;
    forall i | 0 <= i < |s'.log|
      ensures Asked(steps + [step], s'.log[i].call)
    {
      AskedLater(steps, step, if i < |s.log| then s.log[i].call else s.Of(step.t).call);
    }
    forall t: nat | s'.Of(t).Waiting?
      ensures Asked(steps + [step], s'.Of(t).call)
    {
      if s.Of(t).Waiting? {
        AskedLater(steps, step, s.Of(t).call);
      }
    }
  }

  lemma {:induction false} RunAsked(initial: Snapshot, steps: seq<Step>)
    ensures AllAsked(steps, Run(Start(initial), steps))
  {
    if steps != [] {
      RunAsked(initial, steps[..|steps| - 1]);
      StepAsked(steps[..|steps| - 1], Run(Start(initial), steps[..|steps| - 1]), steps[|steps| - 1]);
      assert steps == steps[..|steps| - 1] + [steps[|steps| - 1]];
    }
  }

  lemma {:induction false} VersionFromLog(initial: Snapshot, log: seq<Entry>, i: nat)
    requires i < |Versions(initial, log)|
    ensures (i == 0 && Versions(initial, log)[i] == initial) ||
            exists k :: 0 <= k < |log| && log[k].call == Update(Versions(initial, log)[i])
  {
    if log != [] {
      var before := log[..|log| - 1];
      if i < |Versions(initial, before)| {
        VersionFromLog(initial, before, i);
      } else {
        assert log[|log| - 1].call == Update(Versions(initial, log)[i]);
      }
    }
  }

  /** Never a mixture: what a get returns is the initial snapshot or one that a thread passed to an update. */
  lemma {:induction false} GetReturnsWholeSnapshot(initial: Snapshot, steps: seq<Step>, d: Completed)
    requires d in Run(Start(initial), steps).completed && d.call.Get?
    ensures d.result == initial || Asked(steps, Update(d.result))
  {
    var s := Run(Start(initial), steps);
    Linearizable(initial, steps);
    SawOneVersion(initial, s.log, s.completed, d);
    VersionFromLog(initial, s.log, VersionOf(initial, s.log, d));
    RunAsked(initial, steps);
  }

  // ----- and no call is stuck

  /** A thread that is not in a call may make one, with a snapshot of the right size; nothing else changes. */
  lemma {:induction false} CallAccepted(s: State, t: nat, call: Call)
    requires s.Of(t).Idle? && (call.Update? ==> |call.snap| == |s.latest|)
    ensures Apply(s, Invoke(t, call)) == s.(threads := s.threads[t := Waiting(call, s.now)], now := s.now + 1)
  {
  }

  /** The state after thread t has made n copy steps on its own. */
  function Copies(s: State, t: nat, n: nat): State {
    if n == 0 then s else Apply(Copies(s, t, n - 1), Copy(t))
  }

  /** Thread t has copied n more fields of its call, and nobody else has done anything since `before`. */
  ghost predicate Copied(before: State, s: State, t: nat, n: nat) {
    && before.Of(t).Copying? && s.Of(t).Copying?
    && |s.Of(t).copied| == |before.Of(t).copied| + n
    && s.Of(t).call == before.Of(t).call && s.Of(t).calledAt == before.Of(t).calledAt
    && |s.latest| == |before.latest| && s.completed == before.completed && s.owner == before.owner
    && forall u: nat :: u != t ==> s.Of(u) == before.Of(u)
  }

  lemma {:induction false} OneCopy(before: State, s: State, t: nat, n: nat)
    requires Copied(before, s, t, n) && |before.Of(t).copied| + n < |s.latest|
    ensures Copied(before, Apply(s, Copy(t)), t, n + 1)
  {
  }

  lemma {:induction false} CopiesRun(s: State, t: nat, n: nat)
    requires s.Of(t).Copying? && |s.Of(t).copied| + n <= |s.latest|
    ensures Copied(s, Copies(s, t, n), t, n)
  {
    if n > 0 {
      CopiesRun(s, t, n - 1);
      OneCopy(s, Copies(s, t, n - 1), t, n - 1);
    }
  }

  /** Thread t has returned from its call, and nobody else has done anything since `before`. */
  ghost predicate Returned(before: State, s: State, t: nat, call: Call) {
    && s.Of(t).Idle? && s.owner == None && |s.latest| == |before.latest|
    && |s.completed| == |before.completed| + 1
    && s.completed[..|before.completed|] == before.completed
    && !before.Of(t).Idle?
    && (var d := s.completed[|before.completed|];
        d.call == call && d.calledAt == before.Of(t).calledAt && d.returnedAt == s.now - 1)
    && forall u: nat :: u != t ==> s.Of(u) == before.Of(u)
  }

  /** The thread that holds the lock returns after copying the fields that are left. */
  lemma {:induction false} OwnerReturns(s: State, t: nat)
    requires s.Of(t).Copying? && |s.Of(t).copied| <= |s.latest|
    ensures Returned(s, Apply(Copies(s, t, |s.latest| - |s.Of(t).copied|), Release(t)), t, s.Of(t).call)
  {
    var n := |s.latest| - |s.Of(t).copied|;
    CopiesRun(s, t, n);
    OthersStay(Copies(s, t, n), Release(t));
  }

  /** A waiting thread that finds the lock free returns after one copy per field. */
  lemma {:induction false} CallReturns(s: State, t: nat)
    requires s.Of(t).Waiting? && s.owner == None
    ensures Returned(s, Apply(Copies(Apply(s, Acquire(t)), t, |s.latest|), Release(t)), t, s.Of(t).call)
  {
    OthersStay(s, Acquire(t));
    OwnerReturns(Apply(s, Acquire(t)), t);
  }

  lemma {:induction false} RunConcat(s: State, a: seq<Step>, b: seq<Step>)
    ensures Run(s, a + b) == Run(Run(s, a), b)
    decreases |b|
  {
    if b == [] {
      assert a + b == a;
    } else {
      assert (a + b)[..|a + b| - 1] == a + b[..|b| - 1];
      RunConcat(s, a, b[..|b| - 1]);
    }
  }

  /** n copy steps and the release. */
  function Finishing(t: nat, n: nat): seq<Step> {
    seq(n, _ => Copy(t)) + [Release(t)]
  }

  lemma {:induction false} CopiesAreRun(s: State, t: nat, n: nat)
    ensures Run(s, seq(n, _ => Copy(t))) == Copies(s, t, n)
  {
    if n > 0 {
      var steps := seq(n, _ => Copy(t));
      assert steps[..n - 1] == seq(n - 1, _ => Copy(t));
      CopiesAreRun(s, t, n - 1);
    }
  }

  lemma {:induction false} FinishingRuns(s: State, t: nat, n: nat)
    ensures Run(s, Finishing(t, n)) == Apply(Copies(s, t, n), Release(t))
  {
    CopiesAreRun(s, t, n);
    assert Finishing(t, n)[..n] == seq(n, _ => Copy(t));
  }

  /** From any state that is reached, the lock can be freed without the help of thread t, which waits. */
  lemma {:induction false} LockFreed(initial: Snapshot, s: State, t: nat) returns (steps: seq<Step>)
    requires Inv(initial, s) && s.Of(t).Waiting?
    ensures var s' := Run(s, steps); s'.owner == None && s'.Of(t) == s.Of(t) && s.completed <= s'.completed
    ensures forall i :: 0 <= i < |steps| ==> steps[i].t != t
  {
    match s.owner
    case None =>
      steps := [];
    case Some(o) =>
      var n := |s.latest| - |s.Of(o).copied|;
      steps := Finishing(o, n);
      FinishingRuns(s, o, n);
      OwnerReturns(s, o);
  }

  lemma {:induction false} CallFinishes(s: State, t: nat) returns (steps: seq<Step>)
    requires s.Of(t).Waiting? && s.owner == None
    ensures Returned(s, Run(s, steps), t, s.Of(t).call)
  {
    var last := Finishing(t, |s.latest|);
    CallReturns(s, t);
    FinishingRuns(Apply(s, Acquire(t)), t, |s.latest|);
    assert [Acquire(t)][..0] == [];
    RunConcat(s, [Acquire(t)], last);
    steps := [Acquire(t)] + last;
  }

  lemma {:induction false} CompletedLast(s: State, s1: State, s2: State, t: nat, call: Call)
    requires s.completed <= s1.completed && Returned(s1, s2, t, call)
    ensures s2.Of(t).Idle? && s2.owner == None && s.completed < s2.completed
    ensures var d := s2.completed[|s2.completed| - 1]; d.call == call && d.calledAt == s1.Of(t).calledAt
  {
    assert s2.completed == s1.completed + [s2.completed[|s1.completed|]];
  }

  /** No interleaving leads to a deadlock: from every state that is reached, every waiting call can still return. */
  lemma {:induction false} NoDeadlock(initial: Snapshot, before: seq<Step>, t: nat) returns (steps: seq<Step>)
    requires Run(Start(initial), before).Of(t).Waiting?
    ensures var s, s' := Run(Start(initial), before), Run(Start(initial), before + steps);
      && s'.Of(t).Idle? && s'.owner == None && s.completed < s'.completed
      && var d := s'.completed[|s'.completed| - 1]; d.call == s.Of(t).call && d.calledAt == s.Of(t).calledAt
  {
    var s := Run(Start(initial), before);
    RunKeeps(initial, Start(initial), before);
    var freeing := LockFreed(initial, s, t);
    var s1 := Run(s, freeing);
    var last := CallFinishes(s1, t);
    RunConcat(s, freeing, last);
    steps := freeing + last;
    RunConcat(Start(initial), before, steps);
    CompletedLast(s, s1, Run(s1, last), t, s.Of(t).call);
  }
}
