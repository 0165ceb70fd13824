/** The mutable objects around the protocol: the in-memory projection store and the
    state shared by the barrier proxy and its driver. */
module ControlStores {
  import opened Outcome
  import opened RuntimeControl

  /** Snapshots by agent, written by compare-and-set on the control epoch. */
  class InMemoryRuntimeControlStore {
    var snapshots: map<string, Snapshot>

    constructor ()
      ensures snapshots == map[]
    {
      snapshots := map[];
    }

    function Current(agentId: string): Option<Snapshot>
      reads this
    {
      if agentId in snapshots then Some(snapshots[agentId]) else None
    }

    /** True when stored or already present, false when rejected as stale or conflicting. */
    method ProjectSnapshot(agentId: string, incoming: Snapshot) returns (ok: bool)
      modifies this
      ensures ok == !Held(old(Current(agentId)), incoming)
      ensures Current(agentId) == Project(old(Current(agentId)), incoming)
      ensures snapshots - {agentId} == old(snapshots) - {agentId}
    {
      var current := Current(agentId);
      if current.None? || incoming.epoch > current.value.epoch {
        snapshots := snapshots[agentId := incoming];
        return true;
      }
      return incoming == current.value;
    }
  }

  /** The projection after a sequence of writes, some of which may have been rejected. */
  function ProjectAll(current: Option<Snapshot>, writes: seq<Snapshot>): Option<Snapshot>
    decreases |writes|
  {
    if writes == [] then current else ProjectAll(Project(current, writes[0]), writes[1..])
  }

  // One snapshot per epoch among the writes and the current value.
  ghost predicate Consistent(current: Option<Snapshot>, writes: seq<Snapshot>)
  {
    && (forall i, j :: 0 <= i < |writes| && 0 <= j < |writes| && writes[i].epoch == writes[j].epoch ==>
          writes[i] == writes[j])
    && (current.Some? ==> forall i :: 0 <= i < |writes| && writes[i].epoch == current.value.epoch ==>
          writes[i] == current.value)
  }

  /** The newest epoch wins whatever the order, duplication or delay of the writes. */
  lemma {:induction false} NewestEpochWins(current: Option<Snapshot>, writes: seq<Snapshot>)
    requires Consistent(current, writes)
    ensures var p := ProjectAll(current, writes);
      && (p == current || (p.Some? && p.value in writes))
      && (forall w :: w in writes ==> p.Some? && w.epoch <= p.value.epoch)
      && (current.Some? ==> p.Some? && current.value.epoch <= p.value.epoch)
    decreases |writes|
  {
    if writes != [] {
      var next := Project(current, writes[0]);
      NewestEpochWins(next, writes[1..]);
      assert writes == [writes[0]] + writes[1..];
      assert next == current || next == Some(writes[0]);
    }
  }

  /** Replicas that saw the same writes in any order hold the same snapshot. */
  lemma ProjectionsConverge(a: seq<Snapshot>, b: seq<Snapshot>)
    requires Consistent(None, a) && (forall w :: w in a <==> w in b)
    ensures ProjectAll(None, a) == ProjectAll(None, b)
  {
    forall i, j | 0 <= i < |b| && 0 <= j < |b| && b[i].epoch == b[j].epoch ensures b[i] == b[j] {
      assert b[i] in a && b[j] in a;
    }
    NewestEpochWins(None, a);
    NewestEpochWins(None, b);
    var p, q := ProjectAll(None, a), ProjectAll(None, b);
    if p.Some? { assert p.value in b; }
    if q.Some? { assert q.value in a; }
  }

  // ---- The barrier proxy ----

  datatype Capture = Capture(ordinal: nat, authorization: nat, agentVersion: nat)

  datatype Barrier = Barrier(armed: bool, captures: seq<Capture>)

  function ArmBarrier(b: Barrier): Barrier { b.(armed := true) }

  function CaptureNext(b: Barrier, authorization: nat, agentVersion: nat): Barrier
  {
    Barrier(false, b.captures + [Capture(|b.captures| + 1, authorization, agentVersion)])
  }

  class BarrierState {
    var requestCount: nat
    var activateOnNext: bool
    var captures: seq<Capture>

    ghost predicate Valid()
      reads this
    {
      && requestCount == |captures|
      && forall i :: 0 <= i < |captures| ==> captures[i].ordinal == i + 1
    }

    function Model(): Barrier
      reads this
    {
      Barrier(activateOnNext, captures)
    }

    constructor ()
      ensures Valid() && Model() == Barrier(false, [])
    {
      requestCount, activateOnNext, captures := 0, false, [];
    }

    /** Fails, changing nothing, when the barrier is already armed. */
    method ArmActivation() returns (ok: bool)
      requires Valid()
      modifies this
      ensures Valid() && ok == !old(activateOnNext) && Model() == ArmBarrier(old(Model()))
    {
      if activateOnNext { return false; }
      activateOnNext := true;
      return true;
    }

    /** Captures one signed request and consumes the arm in the same critical section. */
    method Record(authorization: nat, agentVersion: nat) returns (capture: Capture, activate: bool)
      requires Valid()
      modifies this
      ensures Valid() && activate == old(activateOnNext)
      ensures Model() == CaptureNext(old(Model()), authorization, agentVersion)
      ensures capture == captures[|captures| - 1]
    {
      requestCount := requestCount + 1;
      capture := Capture(requestCount, authorization, agentVersion);
      captures := captures + [capture];
      activate := activateOnNext;
      activateOnNext := false;
    }
  }

  datatype BarrierEvent = Arm | Received(authorization: nat, agentVersion: nat)

  function BarrierRun(b: Barrier, events: seq<BarrierEvent>): Barrier
    decreases |events|
  {
    if events == [] then b
    else BarrierRun(if events[0].Arm? then ArmBarrier(b)
                    else CaptureNext(b, events[0].authorization, events[0].agentVersion), events[1..])
  }

  /** Accepted arms and activations of a run. */
  function Arms(b: Barrier, events: seq<BarrierEvent>): nat
    decreases |events|
  {
    if events == [] then 0
    else if events[0].Arm? then (if b.armed then 0 else 1) + Arms(ArmBarrier(b), events[1..])
    else Arms(CaptureNext(b, events[0].authorization, events[0].agentVersion), events[1..])
  }

  function Activations(b: Barrier, events: seq<BarrierEvent>): nat
    decreases |events|
  {
    if events == [] then 0
    else if events[0].Arm? then Activations(ArmBarrier(b), events[1..])
    else (if b.armed then 1 else 0) + Activations(CaptureNext(b, events[0].authorization, events[0].agentVersion),
                                                  events[1..])
  }

  /** Every accepted arm triggers exactly one activation, unless it is the one still armed. */
  lemma {:induction false} EachArmActivatesOnce(b: Barrier, events: seq<BarrierEvent>)
    ensures (if b.armed then 1 else 0) + Arms(b, events)
         == Activations(b, events) + (if BarrierRun(b, events).armed then 1 else 0)
    decreases |events|
  {
    if events != [] {
      EachArmActivatesOnce(if events[0].Arm? then ArmBarrier(b)
                           else CaptureNext(b, events[0].authorization, events[0].agentVersion), events[1..]);
    }
  }
}
