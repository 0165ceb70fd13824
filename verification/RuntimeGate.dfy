/** The gate in front of an authorization, over whole runs: what it has compared when it opens,
    and which requests an acknowledged engage, an edit or a disabled agent stops for good. */
module RuntimeGate {
  import opened Outcome
  import opened RuntimeControl

  lemma {:induction false} RunEndsWith(s: System, events: seq<Event>)
    requires events != []
    ensures Run(s, events) == Step(Run(s, events[..|events| - 1]), events[|events| - 1])
    decreases |events|
  {
    if |events| == 1 {
      assert events[..0] == [] && events[1..] == [];
    } else {
      var rest := events[1..];
      RunEndsWith(Step(s, events[0]), rest);
      assert events[..|events| - 1][1..] == rest[..|rest| - 1];
    }
  }

  /** The state just before the k-th step. */
  function StateBefore(s: System, events: seq<Event>, k: nat): System
    requires k <= |events|
  {
    Run(s, events[..k])
  }

  lemma StateAfterStep(s: System, events: seq<Event>, k: nat)
    requires k < |events|
    ensures StateBefore(s, events, k + 1) == Step(StateBefore(s, events, k), events[k])
  {
    assert events[..k + 1][..k] == events[..k];
    RunEndsWith(s, events[..k + 1]);
  }

  lemma Earlier(s: System, events: seq<Event>, n: nat, k: nat)
    requires k <= n <= |events|
    ensures StateBefore(s, events[..n], k) == StateBefore(s, events, k)
  {
    assert events[..n][..k] == events[..k];
  }

  predicate Waiting(s: System, id: nat)
  {
    id in s.requests && s.requests[id].phase.Gating?
  }

  // ---- What the gate has compared when it opens ----

  /** Step k was the request's durable read, of a trusted state, and it has waited ever since. */
  ghost predicate LastRead(s: System, events: seq<Event>, id: nat, k: nat)
  {
    && k < |events| && events[k] == ReadGate(id)
    && DurableTrusted(StateBefore(s, events, k).db)
    && !Waiting(StateBefore(s, events, k), id)
    && forall j :: k < j <= |events| ==> Waiting(StateBefore(s, events, j), id)
  }

  // Only a gate read starts a wait, and it takes the snapshot of the durable state.
  lemma WaitStarts(s: System, e: Event, id: nat)
    requires Waiting(Step(s, e), id)
    ensures if Waiting(s, id) then Step(s, e).requests[id].phase == s.requests[id].phase
            else e == ReadGate(id) && DurableTrusted(s.db)
                 && Step(s, e).requests[id].phase.expected == DurableSnapshot(s.db)
  {
  }

  lemma {:induction false} ReadBehindWait(s: System, events: seq<Event>, id: nat) returns (k: nat)
    requires Initial(s) && Waiting(Run(s, events), id)
    ensures LastRead(s, events, id, k)
    ensures Run(s, events).requests[id].phase.expected == DurableSnapshot(StateBefore(s, events, k).db)
    decreases |events|
  {
    assert events != [];
    var n := |events| - 1;
    RunEndsWith(s, events);
    WaitStarts(StateBefore(s, events, n), events[n], id);
    assert events[..|events|] == events;
    if Waiting(StateBefore(s, events, n), id) {
      k := ReadBehindWait(s, events[..n], id);
      Earlier(s, events, n, k);
      forall j | k < j <= |events| ensures Waiting(StateBefore(s, events, j), id) {
        if j <= n { Earlier(s, events, n, j); }
      }
    } else {
      k := n;
    }
  }

  /** The gate opens exactly when the projection of this moment is the snapshot that the request's
      own durable read took, and that state was inactive; otherwise the request is refused. */
  lemma GateOpensIff(s: System, events: seq<Event>, id: nat) returns (k: nat)
    requires Initial(s) && Waiting(Run(s, events), id)
    ensures LastRead(s, events, id, k)
    ensures var t, d := Run(s, events), StateBefore(s, events, k).db;
      var r := Step(t, CheckGate(id)).requests[id];
      if t.projection == Some(DurableSnapshot(d)) && !d.agent.engaged
      then r.phase == (if t.requests[id].signed then Rechecked else Signed) && r.signed
      else r.phase == Refused
  {
    k := ReadBehindWait(s, events, id);
    RunKeepsInv(s, events);
    assert RequestOk(Run(s, events).db, Run(s, events).requests[id]);
  }

  /** Step m let the request through on the durable read of step k. */
  ghost predicate PassedAt(s: System, events: seq<Event>, id: nat, k: nat, m: nat)
  {
    && k < m < |events| && events[m] == CheckGate(id) && LastRead(s, events[..m], id, k)
    && StateBefore(s, events, m).projection == Some(DurableSnapshot(StateBefore(s, events, k).db))
    && !StateBefore(s, events, k).db.agent.engaged
  }

  lemma PassedStays(s: System, events: seq<Event>, n: nat, id: nat, k: nat, m: nat)
    requires n <= |events| && PassedAt(s, events[..n], id, k, m)
    ensures PassedAt(s, events, id, k, m)
  {
    assert events[..n][..m] == events[..m];
    Earlier(s, events, n, m);
    Earlier(s, events, n, k);
  }

  predicate IsSigned(s: System, id: nat)
  {
    id in s.requests && s.requests[id].signed
  }

  predicate IsRechecked(s: System, id: nat)
  {
    id in s.requests && (s.requests[id].phase == Rechecked || s.requests[id].phase == Allowed)
  }

  // Requests are signed, and rechecked, by the gate alone.
  lemma OnlyTheGateOpens(s: System, e: Event, id: nat)
    ensures IsSigned(Step(s, e), id) && !IsSigned(s, id) ==>
      e == CheckGate(id) && Waiting(s, id) && Step(s, e).requests[id].phase != Refused
    ensures IsRechecked(Step(s, e), id) && !IsRechecked(s, id) ==>
      e == CheckGate(id) && Waiting(s, id) && Step(s, e).requests[id].phase != Refused
  {
  }

  lemma PassedNow(s: System, events: seq<Event>, id: nat) returns (k: nat)
    requires Initial(s) && events != [] && events[|events| - 1] == CheckGate(id)
    requires Waiting(StateBefore(s, events, |events| - 1), id)
    requires id in Run(s, events).requests && Run(s, events).requests[id].phase != Refused
    ensures PassedAt(s, events, id, k, |events| - 1)
  {
    var n := |events| - 1;
    RunEndsWith(s, events);
    k := GateOpensIff(s, events[..n], id);
    Earlier(s, events, n, k);
  }

  /** Over every run: a signed request has passed the gate, the projection then being exactly the
      inactive state it had read. */
  lemma {:induction false} SignedPassedTheGate(s: System, events: seq<Event>, id: nat) returns (k: nat, m: nat)
    requires Initial(s) && IsSigned(Run(s, events), id)
    ensures PassedAt(s, events, id, k, m)
    decreases |events|
  {
    assert events != [];
    var n := |events| - 1;
    RunEndsWith(s, events);
    OnlyTheGateOpens(StateBefore(s, events, n), events[n], id);
    if IsSigned(StateBefore(s, events, n), id) {
      k, m := SignedPassedTheGate(s, events[..n], id);
      PassedStays(s, events, n, id, k, m);
    } else {
      k := PassedNow(s, events, id);
      m := n;
    }
  }

  /** And an allowed request has passed it twice, the second time on a read made after the first. */
  lemma {:induction false} RecheckedPassedTwice(s: System, events: seq<Event>, id: nat)
    returns (k: nat, m: nat, k': nat, m': nat)
    requires Initial(s) && IsRechecked(Run(s, events), id)
    ensures PassedAt(s, events, id, k, m) && PassedAt(s, events, id, k', m') && m < k'
    decreases |events|
  {
    assert events != [];
    var n := |events| - 1;
    RunEndsWith(s, events);
    OnlyTheGateOpens(StateBefore(s, events, n), events[n], id);
    if IsRechecked(StateBefore(s, events, n), id) {
      k, m, k', m' := RecheckedPassedTwice(s, events[..n], id);
      PassedStays(s, events, n, id, k, m);
      PassedStays(s, events, n, id, k', m');
    } else {
      k' := PassedNow(s, events, id);
      m' := n;
      k, m := FirstPass(s, events, id, k');
    }
  }

  lemma SignedBefore(s: System, events: seq<Event>, id: nat)
    requires Initial(s) && Waiting(Run(s, events), id) && IsRechecked(Step(Run(s, events), CheckGate(id)), id)
    ensures IsSigned(Run(s, events), id)
  {
    RunKeepsInv(s, events);
    assert RequestOk(Run(s, events).db, Run(s, events).requests[id]);
  }

  // The second read is of a request that was signed before.
  lemma FirstPass(s: System, events: seq<Event>, id: nat, k': nat) returns (k: nat, m: nat)
    requires Initial(s) && events != [] && IsRechecked(Run(s, events), id)
    requires PassedAt(s, events, id, k', |events| - 1)
    ensures PassedAt(s, events, id, k, m) && m < k'
  {
    var n := |events| - 1;
    RunEndsWith(s, events);
    Earlier(s, events, n, n);
    assert Waiting(StateBefore(s, events[..n], n), id);
    SignedBefore(s, events[..n], id);
    forall j | k' < j <= n ensures Waiting(StateBefore(s, events, j), id) { Earlier(s, events, n, j); }
    SignedBeforeRead(s, events, id, k', n);
    k, m := SignedPassedTheGate(s, events[..k'], id);
    PassedStays(s, events, k', id, k, m);
  }

  lemma {:induction false} SignedBeforeRead(s: System, events: seq<Event>, id: nat, k: nat, n: nat)
    requires Initial(s) && k < n <= |events| && events[k] == ReadGate(id)
    requires forall j :: k < j <= n ==> Waiting(StateBefore(s, events, j), id)
    requires IsSigned(StateBefore(s, events, n), id)
    ensures IsSigned(StateBefore(s, events, k), id)
    decreases n - k
  {
    StateAfterStep(s, events, n - 1);
    if k < n - 1 { SignedBeforeRead(s, events, id, k, n - 1); }
  }

  // ---- What an acknowledged engage stops ----

  /** The version was read before the engage of this epoch was requested, and its projection has
      been acknowledged. */
  predicate Overtaken(s: System, id: nat, epoch: nat)
  {
    && epoch in s.acked && 1 <= epoch <= |s.db.log| && s.db.log[epoch - 1].target == Active
    && id in s.requests && s.requests[id].version <= s.db.log[epoch - 1].floor
  }

  /** Nothing but a finished recheck under the current version can still be allowed. */
  predicate Finishable(s: System, id: nat)
  {
    && id in s.requests
    && (s.requests[id].phase == Allowed
        || (s.requests[id].phase == Rechecked && s.requests[id].version == s.db.agent.version))
  }

  lemma StepGrows(s: System, e: Event)
    requires Inv(s)
    ensures Grows(s.db, Step(s, e).db)
  {
    match e
    case EditAgent(read, enabled) => EditGrows(s.db, read, enabled);
    case RequestChange(target, v) => BeginGrows(s.db, target, v, None);
    case RequestGoverned(c, target) =>
      if c in s.commands { BeginGrows(s.db, target, s.commands[c].version, Some(s.commands[c].decision)); }
    case Finalize(n) => CompleteGrows(s.db, n);
    case _ => DatabaseStays(s, e);
  }

  lemma DatabaseStays(s: System, e: Event)
    requires !e.EditAgent? && !e.RequestChange? && !e.RequestGoverned? && !e.Finalize?
    ensures Step(s, e).db == s.db
  {
  }

  lemma AcknowledgedStays(s: System, e: Event)
    ensures s.acked <= Step(s, e).acked
  {
  }

  lemma StepKeepsOvertaken(s: System, e: Event, id: nat, epoch: nat)
    requires Inv(s) && Overtaken(s, id, epoch)
    ensures Overtaken(Step(s, e), id, epoch)
  {
    StepGrows(s, e);
    AcknowledgedStays(s, e);
    VersionStays(s, e, id);
    assert SameRow(s.db.log[epoch - 1], Step(s, e).db.log[epoch - 1]);
  }

  lemma VersionStays(s: System, e: Event, id: nat)
    requires id in s.requests
    ensures id in Step(s, e).requests && Step(s, e).requests[id].version == s.requests[id].version
  {
  }

  lemma AllowedByFinish(s: System, e: Event, id: nat)
    requires id in s.requests && Decided(Step(s, e), id)
    ensures Finishable(s, id)
  {
  }

  // A recheck that passes after the engage has read a later epoch, so the engage was applied.
  lemma LateRecheckIsStale(s: System, id: nat, epoch: nat)
    requires Inv(s) && Overtaken(s, id, epoch) && Waiting(s, id)
    requires s.projection == Some(s.requests[id].phase.expected)
    ensures s.requests[id].version < s.db.agent.version
  {
    assert RequestOk(s.db, s.requests[id]);
    assert epoch <= s.requests[id].phase.expected.epoch <= AppliedCount(s.db);
  }

  lemma OpensOnAgreement(s: System, id: nat)
    requires Waiting(s, id) && Step(s, CheckGate(id)).requests[id].phase != Refused
    ensures s.projection == Some(s.requests[id].phase.expected) && Step(s, CheckGate(id)).db == s.db
  {
  }

  lemma StepKeepsUnfinishable(s: System, e: Event, id: nat, epoch: nat)
    requires Inv(s) && Overtaken(s, id, epoch) && !Finishable(s, id)
    ensures !Finishable(Step(s, e), id)
  {
    StepGrows(s, e);
    VersionStays(s, e, id);
    if Decided(Step(s, e), id) {
      AllowedByFinish(s, e, id);
    } else if IsRechecked(Step(s, e), id) && !IsRechecked(s, id) {
      OnlyTheGateOpens(s, e, id);
      OpensOnAgreement(s, id);
      LateRecheckIsStale(s, id, epoch);
    }
  }

  lemma {:induction false} UnfinishableForGood(s: System, id: nat, epoch: nat, events: seq<Event>)
    requires Inv(s) && Overtaken(s, id, epoch) && !Finishable(s, id)
    ensures id in Run(s, events).requests && Run(s, events).requests[id].phase != Allowed
    decreases |events|
  {
    if events != [] {
      StepKeepsInv(s, events[0]);
      StepKeepsOvertaken(s, events[0], id, epoch);
      StepKeepsUnfinishable(s, events[0], id, epoch);
      UnfinishableForGood(Step(s, events[0]), id, epoch, events[1..]);
    }
  }

  predicate Decided(s: System, id: nat)
  {
    id in s.requests && s.requests[id].phase == Allowed
  }

  lemma Finishing(s: System, id: nat) returns (after: seq<Event>)
    requires Finishable(s, id)
    ensures Decided(Run(s, after), id)
  {
    if Decided(s, id) {
      after := [];
    } else {
      after := [Finish(id)];
      assert after[1..] == [] && Run(s, after) == Run(Step(s, Finish(id)), []);
    }
  }

  /** Some continuation allows the request. */
  ghost predicate MayBeAllowed(s: System, id: nat)
  {
    exists after :: Decided(Run(s, after), id)
  }

  /** Once an engage is acknowledged, a request of an older version can still be allowed, in any
      continuation at all, exactly if it has been allowed already or only its last version check,
      of a version still current, was left. */
  lemma EngageStopsDecisions(s: System, before: seq<Event>, epoch: nat, id: nat)
    requires Initial(s) && Overtaken(Run(s, before), id, epoch)
    ensures MayBeAllowed(Run(s, before), id) <==> Finishable(Run(s, before), id)
  {
    var t := Run(s, before);
    RunKeepsInv(s, before);
    if Finishable(t, id) {
      var after := Finishing(t, id);
    } else {
      forall after ensures !Decided(Run(t, after), id) { UnfinishableForGood(t, id, epoch, after); }
    }
  }

  /** The control epoch of the request's last gate read. */
  function LastReadEpoch(r: Request): Option<nat>
  {
    if r.phase.Gating? then Some(r.phase.expected.epoch)
    else if r.phase == Rechecked || r.phase == Allowed then Some(r.recheckedAt)
    else if r.signed then Some(r.signedAt) else None
  }

  /** A request that last read the gate before the acknowledged engage, and has not yet passed its
      second check, is never allowed. */
  lemma EarlierGateReadNeverAllows(s: System, before: seq<Event>, epoch: nat, id: nat, after: seq<Event>)
    requires Initial(s)
    requires var t := Run(s, before);
      && epoch in t.acked && 1 <= epoch <= |t.db.log| && t.db.log[epoch - 1].target == Active
      && id in t.requests && t.requests[id].phase != Rechecked && t.requests[id].phase != Allowed
      && LastReadEpoch(t.requests[id]).Some? && LastReadEpoch(t.requests[id]).value < epoch
    ensures !Decided(Run(Run(s, before), after), id)
  {
    var t := Run(s, before);
    RunKeepsInv(s, before);
    EarlierReadIsUnderFloor(t, epoch, id);
    UnfinishableForGood(t, id, epoch, after);
  }

  lemma EarlierReadIsUnderFloor(s: System, epoch: nat, id: nat)
    requires Inv(s) && id in s.requests && 1 <= epoch <= |s.db.log|
    requires LastReadEpoch(s.requests[id]).Some? && LastReadEpoch(s.requests[id]).value < epoch
    requires s.requests[id].phase != Rechecked && s.requests[id].phase != Allowed
    ensures s.requests[id].version <= s.db.log[epoch - 1].floor
  {
    var e := LastReadEpoch(s.requests[id]).value;
    assert RequestOk(s.db, s.requests[id]);
    assert s.db.log[e].floor <= s.db.log[epoch - 1].floor;
  }

  // ---- What an edit stops ----

  lemma StepKeepsStale(s: System, e: Event, id: nat)
    requires Inv(s) && id in s.requests && s.requests[id].version < s.db.agent.version && !Decided(s, id)
    ensures var t := Step(s, e); id in t.requests && t.requests[id].version < t.db.agent.version && !Decided(t, id)
  {
    StepGrows(s, e);
    VersionStays(s, e, id);
    if Decided(Step(s, e), id) { AllowedByFinish(s, e, id); }
  }

  lemma {:induction false} StaleNeverAllowed(s: System, id: nat, events: seq<Event>)
    requires Inv(s) && id in s.requests && s.requests[id].version < s.db.agent.version && !Decided(s, id)
    ensures !Decided(Run(s, events), id)
    decreases |events|
  {
    if events != [] {
      StepKeepsInv(s, events[0]);
      StepKeepsStale(s, events[0], id);
      StaleNeverAllowed(Step(s, events[0]), id, events[1..]);
    }
  }

  /** An edit that does not merge with a completion supersedes every undecided request for good. */
  lemma EditSupersedesRequests(s: System, before: seq<Event>, enabled: bool, id: nat, after: seq<Event>)
    requires Initial(s) && id in Run(s, before).requests && !Decided(Run(s, before), id)
    ensures var t := Run(s, before);
      !Decided(Run(Step(t, EditAgent(t.db.agent.version, enabled)), after), id)
  {
    var t := Run(s, before);
    var e := EditAgent(t.db.agent.version, enabled);
    RunKeepsInv(s, before);
    StepKeepsInv(t, e);
    assert RequestOk(t.db, t.requests[id]);
    StaleNeverAllowed(Step(t, e), id, after);
  }

  // ---- Which commands start a transition ----

  predicate Starts(s: System, e: Event)
  {
    |Step(s, e).db.log| > |s.db.log|
  }

  lemma StartedFloor(s: System, target: ControlState, version: nat)
    requires Starts(s, RequestChange(target, version))
    ensures var log := Step(s, RequestChange(target, version)).db.log;
      log == s.db.log + [log[|s.db.log|]] && log[|s.db.log|].floor == version && log[|s.db.log|].target == target
  {
  }

  ghost predicate HasFloor(d: Database, version: nat)
  {
    exists i :: 0 <= i < |d.log| && d.log[i].floor == version
  }

  lemma StepKeepsFloor(s: System, e: Event, version: nat)
    requires Inv(s) && HasFloor(s.db, version)
    ensures HasFloor(Step(s, e).db, version)
  {
    StepGrows(s, e);
    var i :| 0 <= i < |s.db.log| && s.db.log[i].floor == version;
    assert SameRow(s.db.log[i], Step(s, e).db.log[i]);
  }

  lemma {:induction false} RunKeepsFloor(s: System, events: seq<Event>, version: nat)
    requires Inv(s) && HasFloor(s.db, version)
    ensures HasFloor(Run(s, events).db, version)
    decreases |events|
  {
    if events != [] {
      StepKeepsInv(s, events[0]);
      StepKeepsFloor(s, events[0], version);
      RunKeepsFloor(Step(s, events[0]), events[1..], version);
    }
  }

  lemma StartsOnNewFloor(s: System, target: ControlState, version: nat)
    requires Inv(s) && Starts(s, RequestChange(target, version))
    ensures !HasFloor(s.db, version)
  {
    StepKeepsInv(s, RequestChange(target, version));
    StartedFloor(s, target, version);
    var log := Step(s, RequestChange(target, version)).db.log;
    forall i | 0 <= i < |s.db.log| ensures s.db.log[i].floor != version {
      assert log[i].floor < log[|s.db.log|].floor;
    }
  }

  /** Of all commands that expect one agent version, at most one starts a transition. */
  lemma VersionStartsOneTransition(s: System, before: seq<Event>, version: nat, first: ControlState,
                                   between: seq<Event>, second: ControlState)
    requires Initial(s) && Starts(Run(s, before), RequestChange(first, version))
    ensures !Starts(Run(Step(Run(s, before), RequestChange(first, version)), between), RequestChange(second, version))
  {
    var t := Run(s, before);
    RunKeepsInv(s, before);
    StepKeepsInv(t, RequestChange(first, version));
    StartedFloor(t, first, version);
    var u := Step(t, RequestChange(first, version));
    assert HasFloor(u.db, version) by { assert u.db.log[|t.db.log|].floor == version; }
    RunKeepsInv(u, between);
    RunKeepsFloor(u, between, version);
    if Starts(Run(u, between), RequestChange(second, version)) { StartsOnNewFloor(Run(u, between), second, version); }
  }

  predicate Enables(e: Event)
  {
    e.EditAgent? && e.enabled
  }

  /** A disabled agent starts no transition, whatever is asked, until an edit enables it. */
  lemma {:induction false} DisabledStartsNothing(s: System, events: seq<Event>)
    requires !s.db.agent.enabled && forall e :: e in events ==> !Enables(e)
    ensures !Run(s, events).db.agent.enabled && |Run(s, events).db.log| == |s.db.log|
    decreases |events|
  {
    if events != [] {
      assert events[0] in events;
      DisabledStartsNothing(Step(s, events[0]), events[1..]);
    }
  }
}
