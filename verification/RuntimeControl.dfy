/** The two-phase kill-switch protocol of one agent, interleaved with governed routing.

    Every event is one atomic step of the running system: a committed database
    transaction, one compare-and-set on the shared projection, one durable read, or one
    decision of the model router.  Any number of commands, reconcilers, routing requests
    and holders of captured authorizations interleave freely. */
module RuntimeControl {
  import opened Outcome

  datatype ControlState = Inactive | Active
  datatype Status = Pending | Applied

  /** One durable transition row; (agent, epoch) is unique, so the epoch identifies it. */
  datatype Transition = Transition(
    epoch: nat, previous: ControlState, target: ControlState, status: Status,
    floor: nat, reference: Option<nat>)

  datatype Snapshot = Snapshot(epoch: nat, state: ControlState, floor: nat)

  datatype Agent = Agent(version: nat, enabled: bool, engaged: bool)
  {
    function State(): ControlState { if engaged then Active else Inactive }
  }

  /** A routing request: the agent version read with its scope, how far it has got, and the
      control epochs of its two durable gate reads. */
  datatype Phase =
    | ScopeRead
    | Gating(second: bool, expected: Snapshot)
    | Signed
    | Accepted
    | Rechecked
    | Allowed
    | Refused

  datatype Request = Request(version: nat, phase: Phase, signed: bool, signedAt: nat, recheckedAt: nat)

  /** A governed execution that has passed its preflight read. */
  datatype Command = Command(decision: nat, version: nat)

  /** The durable side: the agent row, the state before its first transition, and the rows. */
  datatype Database = Database(agent: Agent, initial: ControlState, log: seq<Transition>)

  datatype System = System(
    db: Database,
    projection: Option<Snapshot>,
    acked: set<nat>,
    requests: map<nat, Request>,
    routed: seq<nat>,
    commands: map<nat, Command>)

  datatype Event =
    | EditAgent(read: nat, enabled: bool)
    | RequestChange(target: ControlState, expectedVersion: nat)
    | Preflight(command: nat, decision: nat)
    | RequestGoverned(command: nat, target: ControlState)
    | ProjectTransition(epoch: nat)
    | Finalize(epoch: nat)
    | ReadScope(id: nat)
    | ReadGate(id: nat)
    | RepairProjection(id: nat)
    | CheckGate(id: nat)
    | Route(id: nat, byGovernance: bool)
    | Finish(id: nat)

  // ---- The shared projection ----

  function Held(current: Option<Snapshot>, incoming: Snapshot): bool
  {
    current.Some? && (incoming.epoch < current.value.epoch
                      || (incoming.epoch == current.value.epoch && incoming != current.value))
  }

  /** Compare-and-set by epoch: newer applies, identical is idempotent, anything else is rejected. */
  function Project(current: Option<Snapshot>, incoming: Snapshot): Option<Snapshot>
  {
    if Held(current, incoming) then current else Some(incoming)
  }

  // ---- The durable state ----

  function SnapshotOf(t: Transition): Snapshot
  {
    Snapshot(t.epoch, t.target, t.floor)
  }

  /** The projection the database expects. */
  function DurableSnapshot(d: Database): Snapshot
  {
    if d.log == [] then Snapshot(0, d.agent.State(), if d.agent.engaged then d.agent.version else 0)
    else var last := d.log[|d.log| - 1]; Snapshot(last.epoch, d.agent.State(), last.floor)
  }

  predicate HasPending(d: Database)
  {
    EndsPending(d.log)
  }

  predicate DurableTrusted(d: Database)
  {
    !HasPending(d) && (d.log != [] ==> d.log[|d.log| - 1].target == d.agent.State())
  }

  /** The commit of an inventory edit: it stores the version it read plus one, whatever the row
      holds by now.  The edit has locked the AI system and not the agent, so the pending transition
      may have been completed in between, and then the two increments are one; a new transition
      refers to the locked row and waits, so nothing else can have come in between. */
  function Edit(d: Database, read: nat, enabled: bool): Database
  {
    if d.agent.version != read && d.agent.version != read + 1 then d
    else d.(agent := d.agent.(version := read + 1, enabled := enabled))
  }

  /** The first transaction of a kill-switch command. */
  function Begin(d: Database, target: ControlState, expectedVersion: nat, reference: Option<nat>): Database
  {
    if d.agent.version != expectedVersion || HasPending(d) || !d.agent.enabled || target == d.agent.State() then d
    else
      var epoch := if d.log == [] then 1 else d.log[|d.log| - 1].epoch + 1;
      d.(log := d.log + [Transition(epoch, d.agent.State(), target, Pending, d.agent.version, reference)])
  }

  /** The second transaction of the transition with this epoch. */
  function Complete(d: Database, epoch: nat): Database
  {
    if epoch < 1 || epoch > |d.log| then d
    else
      var t := d.log[epoch - 1];
      if t.status == Applied || d.agent.State() != t.previous then d
      else d.(agent := d.agent.(version := d.agent.version + 1, engaged := t.target == Active),
              log := d.log[epoch - 1 := t.(status := Applied)])
  }

  // ---- Routing ----

  datatype Verdict = Routed | Unauthorized | ProjectionMissing | KillSwitchEngaged | AuthorizationRevoked | Replayed

  /** The router's decision on a signed authorization: control state, then floor, then replay. */
  function RouterVerdict(s: System, id: nat): Verdict
  {
    if id !in s.requests || !s.requests[id].signed then Unauthorized
    else if s.projection.None? then ProjectionMissing
    else if s.projection.value.state == Active then KillSwitchEngaged
    else if s.requests[id].version <= s.projection.value.floor then AuthorizationRevoked
    else if id in s.routed then Replayed
    else Routed
  }

  function Update(s: System, id: nat, r: Request): System
  {
    s.(requests := s.requests[id := r])
  }

  function GateRead(s: System, id: nat): System
  {
    if id !in s.requests then s
    else
      var r := s.requests[id];
      if r.phase != ScopeRead && r.phase != Accepted then s
      else if !DurableTrusted(s.db) then Update(s, id, r.(phase := Refused))
      else Update(s, id, r.(phase := Gating(r.phase == Accepted, DurableSnapshot(s.db))))
  }

  function GateCheck(s: System, id: nat): System
  {
    if id !in s.requests || !s.requests[id].phase.Gating? then s
    else
      var r := s.requests[id];
      var expected := r.phase.expected;
      if s.projection != Some(expected) || expected.state == Active then Update(s, id, r.(phase := Refused))
      else if r.phase.second then Update(s, id, r.(phase := Rechecked, recheckedAt := expected.epoch))
      else Update(s, id, r.(phase := Signed, signed := true, signedAt := expected.epoch))
  }

  function RouteOnce(s: System, id: nat, byGovernance: bool): System
  {
    var answered := byGovernance && id in s.requests && s.requests[id].phase == Signed;
    if RouterVerdict(s, id) == Routed then
      var s' := s.(routed := s.routed + [id]);
      if answered then Update(s', id, s.requests[id].(phase := Accepted)) else s'
    else if answered then Update(s, id, s.requests[id].(phase := Refused))
    else s
  }

  predicate Referenced(d: Database, decision: nat)
  {
    exists i :: 0 <= i < |d.log| && d.log[i].reference == Some(decision)
  }

  /** A transition is completed only after the completing command's own projection write succeeded. */
  function Step(s: System, e: Event): System
  {
    match e
    case EditAgent(read, enabled) => s.(db := Edit(s.db, read, enabled))
    case RequestChange(target, expectedVersion) => s.(db := Begin(s.db, target, expectedVersion, None))
    case Preflight(command, decision) =>
      if command in s.commands || Referenced(s.db, decision) then s
      else s.(commands := s.commands[command := Command(decision, s.db.agent.version)])
    case RequestGoverned(command, target) =>
      if command !in s.commands then s
      else s.(db := Begin(s.db, target, s.commands[command].version, Some(s.commands[command].decision)))
    case ProjectTransition(epoch) =>
      if epoch < 1 || epoch > |s.db.log| then s
      else
        var incoming := SnapshotOf(s.db.log[epoch - 1]);
        s.(projection := Project(s.projection, incoming),
           acked := if Held(s.projection, incoming) then s.acked else s.acked + {epoch})
    case Finalize(epoch) => if epoch in s.acked then s.(db := Complete(s.db, epoch)) else s
    case ReadScope(id) =>
      if id in s.requests then s else Update(s, id, Request(s.db.agent.version, ScopeRead, false, 0, 0))
    case ReadGate(id) => GateRead(s, id)
    case RepairProjection(id) =>
      if id !in s.requests || !s.requests[id].phase.Gating? then s
      else s.(projection := Project(s.projection, s.requests[id].phase.expected))
    case CheckGate(id) => GateCheck(s, id)
    case Route(id, byGovernance) => RouteOnce(s, id, byGovernance)
    case Finish(id) =>
      if id !in s.requests || s.requests[id].phase != Rechecked then s
      else
        var r := s.requests[id];
        Update(s, id, r.(phase := if r.version == s.db.agent.version then Allowed else Refused))
  }

  function Run(s: System, events: seq<Event>): System
    decreases |events|
  {
    if events == [] then s else Run(Step(s, events[0]), events[1..])
  }

  /** An agent before its first runtime-control transition. */
  ghost predicate Initial(s: System)
  {
    && s.db.agent.version >= 1 && s.db.initial == s.db.agent.State()
    && s.db.log == [] && s.projection == None && s.acked == {}
    && s.requests == map[] && s.routed == [] && s.commands == map[]
  }

  // ---- The invariant ----

  predicate EndsPending(log: seq<Transition>)
  {
    log != [] && log[|log| - 1].status == Pending
  }

  function AppliedCount(d: Database): nat
  {
    if EndsPending(d.log) then |d.log| - 1 else |d.log|
  }

  /** The control state once the first `epoch` transitions are applied. */
  function StateAfter(initial: ControlState, log: seq<Transition>, epoch: nat): ControlState
    requires epoch <= |log|
  {
    if epoch == 0 then initial else log[epoch - 1].target
  }

  function StateAt(d: Database, epoch: nat): ControlState
    requires epoch <= |d.log|
  {
    StateAfter(d.initial, d.log, epoch)
  }

  ghost predicate RowsOk(log: seq<Transition>)
  {
    forall i :: 0 <= i < |log| ==>
      && log[i].epoch == i + 1 && log[i].floor >= 1
      && log[i].target != log[i].previous
      && (i < |log| - 1 ==> log[i].status == Applied)
  }

  // Each transition leaves the state its predecessor reached.
  predicate Linked(initial: ControlState, log: seq<Transition>, i: nat)
  {
    i < |log| ==> log[i].previous == StateAfter(initial, log, i)
  }

  ghost predicate Alternates(initial: ControlState, log: seq<Transition>)
  {
    forall i: nat {:trigger Linked(initial, log, i)} :: Linked(initial, log, i)
  }

  ghost predicate FloorsRise(log: seq<Transition>)
  {
    forall i, j :: 0 <= i < j < |log| ==> log[i].floor < log[j].floor
  }

  ghost predicate AgentOk(d: Database)
  {
    && d.agent.version >= 1
    && d.agent.State() == StateAt(d, AppliedCount(d))
    && (forall i :: 0 <= i < |d.log| ==> d.log[i].floor <= d.agent.version)
    && (forall i :: 0 <= i < AppliedCount(d) ==> d.log[i].floor < d.agent.version)
  }

  ghost predicate DatabaseOk(d: Database) 
  {
    RowsOk(d.log) && Alternates(d.initial, d.log) && FloorsRise(d.log) && AgentOk(d)
  }

  // A snapshot that some durable state of this run has stood for.
  ghost predicate Genuine(d: Database, p: Snapshot)
  {
    && p.epoch <= |d.log| && p.state == StateAt(d, p.epoch)
    && (if p.epoch > 0 then p.floor == d.log[p.epoch - 1].floor else p.state == Inactive ==> p.floor == 0)
  }

  ghost predicate ProjectionOk(d: Database, projection: Option<Snapshot>, acked: set<nat>)
  {
    && (projection.Some? ==> Genuine(d, projection.value))
    && (AppliedCount(d) > 0 ==> projection.Some? && projection.value.epoch >= AppliedCount(d))
    && (forall e :: e in acked ==> 1 <= e <= |d.log| && projection.Some? && projection.value.epoch >= e)
  }

  // A version read before the gate read of epoch e is under the floor of every later transition.
  ghost predicate ReadAt(d: Database, version: nat, e: nat)
  {
    && e <= AppliedCount(d)
    && version <= d.agent.version
    && (e < |d.log| ==> version <= d.log[e].floor)
  }

  ghost predicate RequestOk(d: Database, r: Request)
  {
    && 1 <= r.version <= d.agent.version
    && (r.phase.Gating? ==> Genuine(d, r.phase.expected) && ReadAt(d, r.version, r.phase.expected.epoch))
    && (r.signed ==> ReadAt(d, r.version, r.signedAt) && StateAt(d, r.signedAt) == Inactive)
    && (r.phase.Gating? ==> (r.phase.second <==> r.signed))
    && (r.phase.Gating? && r.phase.second ==> r.signedAt <= r.phase.expected.epoch)
    && (r.phase == Signed || r.phase == Accepted || r.phase == Rechecked || r.phase == Allowed ==> r.signed)
    && (r.phase == ScopeRead ==> !r.signed)
    && (r.phase == Rechecked || r.phase == Allowed ==>
          r.signedAt <= r.recheckedAt <= AppliedCount(d) && StateAt(d, r.recheckedAt) == Inactive)
  }

  ghost predicate RequestsOk(d: Database, requests: map<nat, Request>)
  {
    forall id :: id in requests ==> RequestOk(d, requests[id])
  }

  ghost predicate RoutedOk(requests: map<nat, Request>, routed: seq<nat>)
  {
    && (forall i :: 0 <= i < |routed| ==> routed[i] in requests && requests[routed[i]].signed)
    && (forall i, j :: 0 <= i < j < |routed| ==> routed[i] != routed[j])
  }

  ghost predicate CommandsOk(d: Database, commands: map<nat, Command>)
  {
    && (forall c :: c in commands ==> commands[c].version <= d.agent.version)
    && (forall c, i :: c in commands && 0 <= i < |d.log| && d.log[i].reference == Some(commands[c].decision) ==>
          commands[c].version <= d.log[i].floor)
  }

  ghost predicate ReferencesUnique(d: Database)
  {
    forall i, j :: 0 <= i < j < |d.log| && d.log[i].reference.Some? ==> d.log[i].reference != d.log[j].reference
  }

  ghost predicate Inv(s: System)
  {
    && DatabaseOk(s.db)
    && ProjectionOk(s.db, s.projection, s.acked)
    && RequestsOk(s.db, s.requests)
    && RoutedOk(s.requests, s.routed)
    && CommandsOk(s.db, s.commands)
    && ReferencesUnique(s.db)
  }

  // ---- The database only grows ----

  ghost predicate SameRow(t: Transition, u: Transition)
  {
    t == u.(status := t.status)
  }

  ghost predicate Grows(d: Database, d': Database)
  {
    && d'.initial == d.initial
    && |d.log| <= |d'.log|
    && (forall i :: 0 <= i < |d.log| ==> SameRow(d.log[i], d'.log[i]))
    && (forall i :: |d.log| <= i < |d'.log| ==> d'.log[i].floor >= d.agent.version)
    && d.agent.version <= d'.agent.version
    && AppliedCount(d) <= AppliedCount(d')
  }

  lemma EditGrows(d: Database, read: nat, enabled: bool)
    requires DatabaseOk(d)
    ensures DatabaseOk(Edit(d, read, enabled)) && Grows(d, Edit(d, read, enabled))
  {
  }

  lemma AppendRow(initial: ControlState, log: seq<Transition>, t: Transition)
    requires RowsOk(log) && Alternates(initial, log) && FloorsRise(log) && !EndsPending(log)
    requires t.epoch == |log| + 1 && t.previous == StateAfter(initial, log, |log|) && t.target != t.previous
    requires t.floor >= 1 && forall i :: 0 <= i < |log| ==> log[i].floor < t.floor
    ensures RowsOk(log + [t]) && Alternates(initial, log + [t]) && FloorsRise(log + [t])
  {
    forall i: nat ensures Linked(initial, log + [t], i) { assert Linked(initial, log, i); }
  }

  lemma BeginGrows(d: Database, target: ControlState, expectedVersion: nat, reference: Option<nat>)
    requires DatabaseOk(d)
    ensures var d' := Begin(d, target, expectedVersion, reference);
      DatabaseOk(d') && Grows(d, d') && AppliedCount(d') == AppliedCount(d)
  {
    var d' := Begin(d, target, expectedVersion, reference);
    if d' != d {
      AppendRow(d.initial, d.log, d'.log[|d.log|]);
      assert StateAt(d', |d.log|) == StateAt(d, |d.log|);
    }
  }

  lemma ApplyRow(initial: ControlState, log: seq<Transition>)
    requires RowsOk(log) && Alternates(initial, log) && FloorsRise(log) && log != []
    ensures var log' := log[|log| - 1 := log[|log| - 1].(status := Applied)];
      && RowsOk(log') && Alternates(initial, log') && FloorsRise(log') && !EndsPending(log')
      && (forall i :: 0 <= i < |log| ==> SameRow(log[i], log'[i]))
      && StateAfter(initial, log', |log|) == log[|log| - 1].target
  {
    var log' := log[|log| - 1 := log[|log| - 1].(status := Applied)];
    forall i: nat ensures Linked(initial, log', i) { assert Linked(initial, log, i); }
  }

  lemma CompleteGrows(d: Database, epoch: nat)
    requires DatabaseOk(d)
    ensures var d' := Complete(d, epoch);
      DatabaseOk(d') && Grows(d, d') && (d' != d ==> epoch == |d.log| == AppliedCount(d'))
  {
    if Complete(d, epoch) != d { ApplyRow(d.initial, d.log); }
  }

  lemma GenuineGrows(d: Database, d': Database, p: Snapshot)
    requires Grows(d, d') && Genuine(d, p)
    ensures Genuine(d', p)
  {
    assert p.epoch > 0 ==> SameRow(d.log[p.epoch - 1], d'.log[p.epoch - 1]);
  }

  lemma ReadAtGrows(d: Database, d': Database, version: nat, e: nat)
    requires Grows(d, d') && ReadAt(d, version, e)
    ensures ReadAt(d', version, e)
    ensures StateAt(d', e) == StateAt(d, e)
  {
    assert e < |d.log| ==> SameRow(d.log[e], d'.log[e]);
    assert e > 0 ==> SameRow(d.log[e - 1], d'.log[e - 1]);
  }

  lemma RequestGrows(d: Database, d': Database, r: Request)
    requires Grows(d, d') && RequestOk(d, r)
    ensures RequestOk(d', r)
  {
    if r.phase.Gating? {
      GenuineGrows(d, d', r.phase.expected);
      ReadAtGrows(d, d', r.version, r.phase.expected.epoch);
    }
    if r.signed { ReadAtGrows(d, d', r.version, r.signedAt); }
    if r.phase == Rechecked || r.phase == Allowed {
      assert r.recheckedAt > 0 ==> SameRow(d.log[r.recheckedAt - 1], d'.log[r.recheckedAt - 1]);
    }
  }

  lemma CommandsGrow(d: Database, d': Database, commands: map<nat, Command>)
    requires Grows(d, d') && CommandsOk(d, commands)
    ensures CommandsOk(d', commands)
  {
    forall c, i | c in commands && 0 <= i < |d'.log| && d'.log[i].reference == Some(commands[c].decision)
      ensures commands[c].version <= d'.log[i].floor
    {
      if i < |d.log| { assert SameRow(d.log[i], d'.log[i]); }
    }
  }

  // ---- Every step keeps the invariant ----

  lemma GrowthKeeps(s: System, d': Database)
    requires Inv(s) && DatabaseOk(d') && Grows(s.db, d') && ReferencesUnique(d')
    requires AppliedCount(d') > AppliedCount(s.db) ==> AppliedCount(d') in s.acked
    ensures Inv(s.(db := d'))
  {
    if s.projection.Some? { GenuineGrows(s.db, d', s.projection.value); }
    forall id | id in s.requests ensures RequestOk(d', s.requests[id]) { RequestGrows(s.db, d', s.requests[id]); }
    CommandsGrow(s.db, d', s.commands);
  }

  lemma BeginKeeps(s: System, target: ControlState, expectedVersion: nat, reference: Option<nat>)
    requires Inv(s)
    requires reference.Some? ==> forall i :: 0 <= i < |s.db.log| && s.db.log[i].reference == reference ==>
               expectedVersion <= s.db.log[i].floor
    ensures Inv(s.(db := Begin(s.db, target, expectedVersion, reference)))
  {
    var d := s.db;
    var d' := Begin(d, target, expectedVersion, reference);
    BeginGrows(d, target, expectedVersion, reference);
    if d' != d {
      // with nothing pending every floor is below the version, so the reference is new
      assert forall i | 0 <= i < |d.log| && reference.Some? :: d.log[i].reference != reference;
      assert forall i | 0 <= i < |d.log| :: d'.log[i] == d.log[i];
    }
    assert ReferencesUnique(d');
    GrowthKeeps(s, d');
  }

  lemma CompleteKeeps(s: System, epoch: nat)
    requires Inv(s) && epoch in s.acked
    ensures Inv(s.(db := Complete(s.db, epoch)))
  {
    CompleteGrows(s.db, epoch);
    var d' := Complete(s.db, epoch);
    assert |d'.log| == |s.db.log| && forall i | 0 <= i < |d'.log| :: d'.log[i].reference == s.db.log[i].reference;
    GrowthKeeps(s, d');
  }

  lemma ProjectKeeps(d: Database, projection: Option<Snapshot>, acked: set<nat>, incoming: Snapshot, acked': set<nat>)
    requires ProjectionOk(d, projection, acked) && Genuine(d, incoming)
    requires projection.Some? || incoming.epoch >= AppliedCount(d)
    requires || acked' == acked
             || (acked' == acked + {incoming.epoch} && incoming.epoch >= 1 && !Held(projection, incoming))
    ensures ProjectionOk(d, Project(projection, incoming), acked')
  {
  }

  lemma UpdateKeeps(s: System, id: nat, r: Request)
    requires Inv(s) && RequestOk(s.db, r)
    requires id in s.requests && s.requests[id].signed ==> r.signed
    ensures Inv(Update(s, id, r))
  {
    var s' := Update(s, id, r);
    assert RequestsOk(s.db, s'.requests);
    assert RoutedOk(s'.requests, s'.routed);
  }

  // A trusted durable read yields a genuine snapshot of the current epoch.
  lemma TrustedReadIsGenuine(d: Database, version: nat)
    requires DatabaseOk(d) && DurableTrusted(d) && version <= d.agent.version
    ensures
      var p := DurableSnapshot(d);
      Genuine(d, p) && p.epoch == |d.log| == AppliedCount(d) && ReadAt(d, version, p.epoch)
  {
  }

  lemma GateReadKeeps(s: System, id: nat)
    requires Inv(s)
    ensures Inv(GateRead(s, id))
  {
    if id in s.requests && (s.requests[id].phase == ScopeRead || s.requests[id].phase == Accepted) {
      var r := s.requests[id];
      assert RequestOk(s.db, r);
      if DurableTrusted(s.db) {
        TrustedReadIsGenuine(s.db, r.version);
        UpdateKeeps(s, id, r.(phase := Gating(r.phase == Accepted, DurableSnapshot(s.db))));
      } else {
        UpdateKeeps(s, id, r.(phase := Refused));
      }
    }
  }

  lemma GateCheckKeeps(s: System, id: nat)
    requires Inv(s)
    ensures Inv(GateCheck(s, id))
  {
    if id in s.requests && s.requests[id].phase.Gating? {
      var r := s.requests[id];
      var expected := r.phase.expected;
      assert RequestOk(s.db, r);
      if s.projection != Some(expected) || expected.state == Active { UpdateKeeps(s, id, r.(phase := Refused)); }
      else if r.phase.second { UpdateKeeps(s, id, r.(phase := Rechecked, recheckedAt := expected.epoch)); }
      else { UpdateKeeps(s, id, r.(phase := Signed, signed := true, signedAt := expected.epoch)); }
    }
  }

  lemma RouteKeeps(s: System, id: nat, byGovernance: bool)
    requires Inv(s)
    ensures Inv(RouteOnce(s, id, byGovernance))
  {
    if id in s.requests { assert RequestOk(s.db, s.requests[id]); }
    var answered := byGovernance && id in s.requests && s.requests[id].phase == Signed;
    if RouterVerdict(s, id) == Routed {
      var s' := s.(routed := s.routed + [id]);
      assert RoutedOk(s'.requests, s'.routed);
      if answered { UpdateKeeps(s', id, s.requests[id].(phase := Accepted)); }
    } else if answered {
      UpdateKeeps(s, id, s.requests[id].(phase := Refused));
    }
  }

  lemma FinishKeeps(s: System, id: nat)
    requires Inv(s)
    ensures Inv(Step(s, Finish(id)))
  {
    if id in s.requests && s.requests[id].phase == Rechecked {
      var r := s.requests[id];
      assert RequestOk(s.db, r);
      UpdateKeeps(s, id, r.(phase := if r.version == s.db.agent.version then Allowed else Refused));
    }
  }

  lemma RepairKeeps(s: System, id: nat)
    requires Inv(s)
    ensures Inv(Step(s, RepairProjection(id)))
  {
    if id in s.requests && s.requests[id].phase.Gating? {
      assert RequestOk(s.db, s.requests[id]);
      ProjectKeeps(s.db, s.projection, s.acked, s.requests[id].phase.expected, s.acked);
    }
  }

  lemma ProjectTransitionKeeps(s: System, epoch: nat)
    requires Inv(s)
    ensures Inv(Step(s, ProjectTransition(epoch)))
  {
    if 1 <= epoch <= |s.db.log| {
      var incoming := SnapshotOf(s.db.log[epoch - 1]);
      RowIsGenuine(s.db, epoch);
      ProjectKeeps(s.db, s.projection, s.acked, incoming,
                   if Held(s.projection, incoming) then s.acked else s.acked + {epoch});
    }
  }

  lemma RowIsGenuine(d: Database, epoch: nat)
    requires DatabaseOk(d) && 1 <= epoch <= |d.log|
    ensures var p := SnapshotOf(d.log[epoch - 1]); p.epoch == epoch && Genuine(d, p)
  {
  }

  lemma PreflightKeeps(s: System, command: nat, decision: nat)
    requires Inv(s)
    ensures Inv(Step(s, Preflight(command, decision)))
  {
    assert CommandsOk(s.db, Step(s, Preflight(command, decision)).commands);
  }

  lemma EditKeeps(s: System, read: nat, enabled: bool)
    requires Inv(s)
    ensures Inv(Step(s, EditAgent(read, enabled)))
  {
    EditGrows(s.db, read, enabled);
    GrowthKeeps(s, Edit(s.db, read, enabled));
  }

  lemma RequestGovernedKeeps(s: System, command: nat, target: ControlState)
    requires Inv(s)
    ensures Inv(Step(s, RequestGoverned(command, target)))
  {
    if command in s.commands {
      BeginKeeps(s, target, s.commands[command].version, Some(s.commands[command].decision));
    }
  }

  lemma ReadScopeKeeps(s: System, id: nat)
    requires Inv(s)
    ensures Inv(Step(s, ReadScope(id)))
  {
    if id !in s.requests { UpdateKeeps(s, id, Request(s.db.agent.version, ScopeRead, false, 0, 0)); }
  }

  lemma RequestStepKeepsInv(s: System, e: Event)
    requires Inv(s) && (e.ReadScope? || e.ReadGate? || e.RepairProjection? || e.CheckGate? || e.Route? || e.Finish?)
    ensures Inv(Step(s, e))
  {
    match e
    case ReadScope(id) => ReadScopeKeeps(s, id);
    case ReadGate(id) => GateReadKeeps(s, id);
    case RepairProjection(id) => RepairKeeps(s, id);
    case CheckGate(id) => GateCheckKeeps(s, id);
    case Route(id, byGovernance) => RouteKeeps(s, id, byGovernance);
    case Finish(id) => FinishKeeps(s, id);
  }

  lemma StepKeepsInv(s: System, e: Event)
    requires Inv(s)
    ensures Inv(Step(s, e))
  {
    match e
    case EditAgent(read, enabled) => EditKeeps(s, read, enabled);
    case RequestChange(target, expectedVersion) => BeginKeeps(s, target, expectedVersion, None);
    case Preflight(command, decision) => PreflightKeeps(s, command, decision);
    case RequestGoverned(command, target) => RequestGovernedKeeps(s, command, target);
    case ProjectTransition(epoch) => ProjectTransitionKeeps(s, epoch);
    case Finalize(epoch) => if epoch in s.acked { CompleteKeeps(s, epoch); }
    case _ => RequestStepKeepsInv(s, e);
  }

  lemma {:induction false} RunKeepsInv(s: System, events: seq<Event>)
    requires Inv(s)
    ensures Inv(Run(s, events))
    decreases |events|
  {
    if events != [] {
      StepKeepsInv(s, events[0]);
      RunKeepsInv(Step(s, events[0]), events[1..]);
    }
  }

  // ---- Safety over every run ----

  /** Epochs count up, states alternate, revocation floors rise strictly, applied floors stay
      below the agent version, and the agent is in the last applied state. */
  ghost predicate Ledger(d: Database)
  {
    && (forall i :: 0 <= i < |d.log| ==> d.log[i].epoch == i + 1 && d.log[i].previous != d.log[i].target)
    && (forall i :: 0 < i < |d.log| ==> d.log[i].previous == d.log[i - 1].target)
    && (forall i, j :: 0 <= i < j < |d.log| ==> d.log[i].floor < d.log[j].floor)
    && (forall i :: 0 <= i < |d.log| ==>
          if d.log[i].status == Applied then d.log[i].floor < d.agent.version
          else i == |d.log| - 1 && d.log[i].floor <= d.agent.version)
    && (d.log != [] ==> d.agent.State() == if HasPending(d) then d.log[|d.log| - 1].previous
                                           else d.log[|d.log| - 1].target)
  }

  lemma LedgerIsOk(d: Database)
    requires DatabaseOk(d)
    ensures Ledger(d)
  {
    forall i | 0 < i < |d.log| ensures d.log[i].previous == d.log[i - 1].target { assert Linked(d.initial, d.log, i); }
    if d.log != [] { assert Linked(d.initial, d.log, |d.log| - 1); }
  }

  /** Whatever is interleaved, the ledger stays in order. */
  lemma RunKeepsLedger(s: System, events: seq<Event>)
    requires Initial(s)
    ensures Ledger(Run(s, events).db)
  {
    RunKeepsInv(s, events);
    LedgerIsOk(Run(s, events).db);
  }

  /** From the acknowledged projection of an engage until the restore is applied. */
  predicate Contained(s: System)
  {
    s.db.agent.engaged || (HasPending(s.db) && s.db.log[|s.db.log| - 1].target == Active && |s.db.log| in s.acked)
  }

  /** While contained nothing is routed, even after the pending restore has reached the projection. */
  lemma NothingRoutedWhileContained(s: System, events: seq<Event>, id: nat)
    requires Initial(s) && Contained(Run(s, events))
    ensures RouterVerdict(Run(s, events), id) != Routed
  {
    RunKeepsInv(s, events);
    ContainedRefuses(Run(s, events), id);
  }

  lemma ContainedRefuses(s: System, id: nat)
    requires Inv(s) && Contained(s)
    ensures RouterVerdict(s, id) != Routed
  {
    if id in s.requests && s.requests[id].signed && s.projection.Some? {
      var r, p, a := s.requests[id], s.projection.value, AppliedCount(s.db);
      assert RequestOk(s.db, r);
      if s.db.agent.engaged && p.epoch != a {
        // the pending restore is projected; its floor is above every authorization
        assert r.signedAt < a < p.epoch;
        assert r.version <= s.db.log[r.signedAt].floor < s.db.log[p.epoch - 1].floor;
      }
    }
  }

  /** Issued against an earlier control epoch than the projected one, or at or below its floor. */
  predicate Revoked(s: System, id: nat)
  {
    && id in s.requests && s.requests[id].signed && s.projection.Some?
    && (s.requests[id].signedAt < s.projection.value.epoch || s.requests[id].version <= s.projection.value.floor)
  }

  lemma RevokedIsUnderFloor(s: System, id: nat)
    requires Inv(s) && Revoked(s, id)
    ensures s.requests[id].version <= s.projection.value.floor
    ensures s.projection.value.epoch > 0
  {
    var r, p := s.requests[id], s.projection.value;
    assert RequestOk(s.db, r);
    if r.signedAt < p.epoch {
      assert s.db.log[r.signedAt].floor <= s.db.log[p.epoch - 1].floor;
    } else {
      assert p.epoch == 0 ==> r.signedAt == 0;
    }
  }

  // The projection never moves back: a later snapshot has a later epoch and a higher floor.
  lemma ProjectionAdvances(d: Database, current: Option<Snapshot>, incoming: Snapshot)
    requires DatabaseOk(d) && current.Some? && Genuine(d, current.value) && Genuine(d, incoming)
    ensures Project(current, incoming).Some?
    ensures var p := Project(current, incoming).value;
      || p == current.value
      || (p.epoch > current.value.epoch && (current.value.epoch > 0 ==> p.floor > current.value.floor))
  {
  }

  lemma StepKeepsSigned(s: System, e: Event, id: nat)
    requires id in s.requests && s.requests[id].signed && s.requests[id].phase != ScopeRead
    requires s.requests[id].phase.Gating? ==> s.requests[id].phase.second
    ensures var s' := Step(s, e);
      id in s'.requests && s'.requests[id].signed && s'.requests[id].version == s.requests[id].version
  {
  }

  lemma StepKeepsRevoked(s: System, e: Event, id: nat)
    requires Inv(s) && Revoked(s, id)
    ensures Revoked(Step(s, e), id)
  {
    assert RequestOk(s.db, s.requests[id]);
    RevokedIsUnderFloor(s, id);
    StepKeepsSigned(s, e, id);
    match e
    case ProjectTransition(epoch) =>
      if 1 <= epoch <= |s.db.log| {
        RowIsGenuine(s.db, epoch);
        ProjectionAdvances(s.db, s.projection, SnapshotOf(s.db.log[epoch - 1]));
      }
    case RepairProjection(i) =>
      if i in s.requests && s.requests[i].phase.Gating? {
        assert RequestOk(s.db, s.requests[i]);
        ProjectionAdvances(s.db, s.projection, s.requests[i].phase.expected);
      }
    case _ =>
  }

  /** Permanent revocation: once revoked, an authorization is never routed again in any
      continuation, whatever is restored later. */
  lemma {:induction false} RevocationIsPermanent(s: System, id: nat, events: seq<Event>)
    requires Inv(s) && Revoked(s, id)
    ensures RouterVerdict(Run(s, events), id) != Routed
    ensures id in Run(s, events).routed <==> id in s.routed
    decreases |events|
  {
    RevokedIsUnderFloor(s, id);
    if events != [] {
      StepKeepsInv(s, events[0]);
      StepKeepsRevoked(s, events[0], id);
      RevokedIsNotRouted(s, events[0], id);
      RevocationIsPermanent(Step(s, events[0]), id, events[1..]);
    }
  }

  lemma RevokedIsNotRouted(s: System, e: Event, id: nat)
    requires Inv(s) && Revoked(s, id)
    ensures id in Step(s, e).routed <==> id in s.routed
  {
    RevokedIsUnderFloor(s, id);
    assert RouterVerdict(s, id) != Routed;
    OnlyRoutedIsAdded(s, e, id);
  }

  lemma OnlyRoutedIsAdded(s: System, e: Event, id: nat)
    requires RouterVerdict(s, id) != Routed
    ensures id in Step(s, e).routed <==> id in s.routed
  {
  }

  /** An acknowledged engage kills every authorization whose gate read came before it, for good. */
  lemma EngageRevokesEarlierAuthorizations(s: System, before: seq<Event>, epoch: nat, id: nat, after: seq<Event>)
    requires Initial(s)
    requires var t := Run(s, before);
      && epoch in t.acked && 1 <= epoch <= |t.db.log| && t.db.log[epoch - 1].target == Active
      && id in t.requests && t.requests[id].signed
    ensures var t := Run(s, before);
      t.requests[id].signedAt != epoch
      && (t.requests[id].signedAt < epoch ==>
            RouterVerdict(Run(t, after), id) != Routed && (id in Run(t, after).routed <==> id in t.routed))
  {
    RunKeepsInv(s, before);
    var t := Run(s, before);
    assert RequestOk(t.db, t.requests[id]);
    if t.requests[id].signedAt < epoch { RevocationIsPermanent(t, id, after); }
  }

  /** An ALLOWED decision: no transition was even requested between the two gate reads, none was
      applied up to the final scope read, and the version is above every applied floor. */
  lemma AllowedSawNoTransition(s: System, events: seq<Event>, id: nat)
    requires Initial(s)
    requires var t := Run(s, events);
      id in t.requests && t.requests[id].phase == Rechecked && Step(t, Finish(id)).requests[id].phase == Allowed
    ensures var t := Run(s, events); var r := t.requests[id];
      && !t.db.agent.engaged
      && r.signedAt == r.recheckedAt == AppliedCount(t.db)
      && r.version == t.db.agent.version
      && (forall i :: 0 <= i < AppliedCount(t.db) ==> t.db.log[i].floor < r.version)
  {
    RunKeepsInv(s, events);
    var t := Run(s, events);
    assert RequestOk(t.db, t.requests[id]);
  }

  /** Each authorization is routed at most once, and each governed decision starts at most one
      transition, however its executions race. */
  lemma AtMostOnce(s: System, events: seq<Event>)
    requires Initial(s)
    ensures var t := Run(s, events);
      && (forall i, j :: 0 <= i < j < |t.routed| ==> t.routed[i] != t.routed[j])
      && (forall i, j :: 0 <= i < j < |t.db.log| && t.db.log[i].reference.Some? ==>
            t.db.log[i].reference != t.db.log[j].reference)
  {
    RunKeepsInv(s, events);
  }

  // ---- The barrier scenario, from every quiescent state ----

  predicate Quiescent(s: System)
  {
    DurableTrusted(s.db) && !s.db.agent.engaged
  }

  lemma QuiescentProjection(s: System)
    requires Inv(s) && Quiescent(s)
    ensures Project(s.projection, DurableSnapshot(s.db)) == Some(DurableSnapshot(s.db))
    ensures DurableSnapshot(s.db).state == Inactive && DurableSnapshot(s.db).floor < s.db.agent.version
    ensures DurableSnapshot(s.db).epoch == |s.db.log|
  {
    TrustedReadIsGenuine(s.db, s.db.agent.version);
  }

  /** One pass through the gate: durable read, repair, check. */
  function PassGate(s: System, id: nat): System
  {
    Step(Step(Step(s, ReadGate(id)), RepairProjection(id)), CheckGate(id))
  }

  function Passed(r: Request, epoch: nat): Request
  {
    if r.phase == Accepted then r.(phase := Rechecked, recheckedAt := epoch)
    else r.(phase := Signed, signed := true, signedAt := epoch)
  }

  lemma GatePasses(s: System, id: nat)
    requires Inv(s) && Quiescent(s)
    requires id in s.requests && (s.requests[id].phase == ScopeRead || s.requests[id].phase == Accepted)
    ensures Inv(PassGate(s, id))
    ensures PassGate(s, id) == s.(projection := Some(DurableSnapshot(s.db)),
                                  requests := s.requests[id := Passed(s.requests[id], |s.db.log|)])
  {
    QuiescentProjection(s);
    var r, expected := s.requests[id], DurableSnapshot(s.db);
    var gating := r.(phase := Gating(r.phase == Accepted, expected));
    var s1 := Update(s, id, gating);
    assert Step(s, ReadGate(id)) == s1;
    var s2 := s1.(projection := Some(expected));
    assert Step(s1, RepairProjection(id)) == s2;
    assert Step(s2, CheckGate(id)) == Update(s2, id, Passed(r, expected.epoch));
    assert s.requests[id := gating][id := Passed(r, expected.epoch)] == s.requests[id := Passed(r, expected.epoch)];
    StepKeepsInv(s, ReadGate(id));
    StepKeepsInv(s1, RepairProjection(id));
    StepKeepsInv(s2, CheckGate(id));
  }

  /** The steps up to a signed authorization. */
  function Sign(s: System, id: nat): System
  {
    PassGate(Step(s, ReadScope(id)), id)
  }

  lemma UpdateTwice(s: System, id: nat, a: Request, b: Request, p: Option<Snapshot>)
    ensures Update(s, id, a).(projection := p, requests := Update(s, id, a).requests[id := b])
         == s.(projection := p, requests := s.requests[id := b])
  {
    assert s.requests[id := a][id := b] == s.requests[id := b];
  }

  lemma SignSigns(s: System, id: nat)
    requires Inv(s) && Quiescent(s) && id !in s.requests
    ensures Inv(Sign(s, id))
    ensures Sign(s, id) == s.(projection := Some(DurableSnapshot(s.db)),
                              requests := s.requests[id := Request(s.db.agent.version, Signed, true, |s.db.log|, 0)])
  {
    var read := Request(s.db.agent.version, ScopeRead, false, 0, 0);
    StepKeepsInv(s, ReadScope(id));
    assert Step(s, ReadScope(id)) == Update(s, id, read);
    GatePasses(Update(s, id, read), id);
    UpdateTwice(s, id, read, Passed(read, |s.db.log|), Some(DurableSnapshot(s.db)));
  }

  /** Request, project and apply one transition with nothing in between. */
  function Change(s: System, target: ControlState): System
  {
    var n := |s.db.log| + 1;
    Step(Step(Step(s, RequestChange(target, s.db.agent.version)), ProjectTransition(n)), Finalize(n))
  }

  lemma ChangeApplies(s: System, target: ControlState)
    requires Inv(s) && DurableTrusted(s.db) && s.db.agent.enabled && target != s.db.agent.State()
    ensures var s' := Change(s, target);
      && Inv(s') && DurableTrusted(s'.db)
      && s'.db.agent == Agent(s.db.agent.version + 1, true, target == Active)
      && s'.projection == Some(Snapshot(|s.db.log| + 1, target, s.db.agent.version))
      && s'.requests == s.requests && s'.routed == s.routed
  {
    var n, v := |s.db.log| + 1, s.db.agent.version;
    var t := Transition(n, s.db.agent.State(), target, Pending, v, None);
    BeginNewest(s, target, t);
    var s1 := s.(db := s.db.(log := s.db.log + [t]));
    ProjectNewest(s, s1, n, t);
    var s2 := s1.(projection := Some(SnapshotOf(t)), acked := s1.acked + {n});
    StepKeepsInv(s1, ProjectTransition(n));
    StepKeepsInv(s2, Finalize(n));
    CompleteNewest(s.db, t);
    AppliedIsTrusted(s.db, Complete(s1.db, n), t);
  }

  lemma BeginNewest(s: System, target: ControlState, t: Transition)
    requires Inv(s) && DurableTrusted(s.db) && s.db.agent.enabled && target != s.db.agent.State()
    requires t == Transition(|s.db.log| + 1, s.db.agent.State(), target, Pending, s.db.agent.version, None)
    ensures var s1 := s.(db := s.db.(log := s.db.log + [t]));
      Step(s, RequestChange(target, s.db.agent.version)) == s1 && Inv(s1)
  {
    StepKeepsInv(s, RequestChange(target, s.db.agent.version));
  }

  lemma AppliedIsTrusted(d: Database, d': Database, t: Transition)
    requires d'.log == d.log + [t.(status := Applied)] && d'.agent.engaged == (t.target == Active)
    ensures DurableTrusted(d')
  {
  }

  lemma CompleteNewest(d: Database, t: Transition)
    requires t.status == Pending && t.previous == d.agent.State()
    ensures var d' := Complete(d.(log := d.log + [t]), |d.log| + 1);
      && d'.agent == Agent(d.agent.version + 1, d.agent.enabled, t.target == Active)
      && d'.log == d.log + [t.(status := Applied)]
  {
    assert (d.log + [t])[|d.log| := t.(status := Applied)] == d.log + [t.(status := Applied)];
  }

  lemma ProjectNewest(s: System, s1: System, n: nat, t: Transition)
    requires Inv(s) && n == |s.db.log| + 1 && t.epoch == n
    requires s1 == s.(db := s.db.(log := s.db.log + [t]))
    ensures Step(s1, ProjectTransition(n)) == s1.(projection := Some(SnapshotOf(t)), acked := s1.acked + {n})
  {
    assert s1.db.log[n - 1] == t;
    assert s.projection.Some? ==> s.projection.value.epoch < n;
  }

  lemma EngageAfterSign(s: System, b: nat)
    requires Inv(s) && Quiescent(s) && s.db.agent.enabled && b !in s.requests
    ensures var engaged := Change(Sign(s, b), Active);
      && Inv(engaged) && DurableTrusted(engaged.db) && engaged.db.agent == Agent(s.db.agent.version + 1, true, true)
      && engaged.projection.Some? && engaged.projection.value.state == Active
      && engaged.requests == s.requests[b := Request(s.db.agent.version, Signed, true, |s.db.log|, 0)]
      && engaged.routed == s.routed
  {
    SignSigns(s, b);
    ChangeApplies(Sign(s, b), Active);
  }

  lemma ActiveRefuses(s: System, id: nat)
    requires id in s.requests && s.requests[id].signed && s.requests[id].phase == Signed
    requires s.projection.Some? && s.projection.value.state == Active
    ensures RouterVerdict(s, id) == KillSwitchEngaged
    ensures Step(s, Route(id, true)) == Update(s, id, s.requests[id].(phase := Refused))
  {
  }

  // The refusal of a freshly signed request, with everything else as it was.
  lemma RefusedAfterSign(s: System, id: nat, requests: map<nat, Request>, r: Request)
    requires Inv(s) && s.projection.Some? && s.projection.value.state == Active
    requires s.requests == requests[id := r] && r.signed && r.phase == Signed
    ensures var refused := Step(s, Route(id, true));
      && RouterVerdict(s, id) == KillSwitchEngaged && Inv(refused)
      && refused.db == s.db && refused.requests == requests[id := r.(phase := Refused)] && refused.routed == s.routed
  {
    ActiveRefuses(s, id);
    StepKeepsInv(s, Route(id, true));
    assert requests[id := r][id := r.(phase := Refused)] == requests[id := r.(phase := Refused)];
  }

  /** B, signed before the engage, is refused by the kill switch once it has been engaged. */
  lemma BarrierEngages(s: System, b: nat)
    requires Inv(s) && Quiescent(s) && s.db.agent.enabled && b !in s.requests
    ensures var engaged := Change(Sign(s, b), Active);
      var refused := Step(engaged, Route(b, true));
      && Inv(refused) && DurableTrusted(refused.db) && refused.db.agent == Agent(s.db.agent.version + 1, true, true)
      && RouterVerdict(engaged, b) == KillSwitchEngaged
      && refused.requests == s.requests[b := Request(s.db.agent.version, Refused, true, |s.db.log|, 0)]
      && refused.routed == s.routed
  {
    EngageAfterSign(s, b);
    RefusedAfterSign(Change(Sign(s, b), Active), b, s.requests,
                     Request(s.db.agent.version, Signed, true, |s.db.log|, 0));
  }

  /** After the restore, B is refused as revoked rather than replayed, and fresh C routes. */
  lemma BarrierRestores(t: System, b: nat, c: nat)
    requires Inv(t) && DurableTrusted(t.db) && t.db.agent.enabled && t.db.agent.engaged
    requires b in t.requests && t.requests[b].signed && t.requests[b].version < t.db.agent.version && b !in t.routed
    requires c !in t.requests
    ensures var restored := Change(t, Inactive);
      && RouterVerdict(restored, b) == AuthorizationRevoked
      && c in Sign(restored, c).requests
      && Sign(restored, c).requests[c].version > t.requests[b].version
      && RouterVerdict(Sign(restored, c), c) == Routed
  {
    ChangeApplies(t, Inactive);
    var restored := Change(t, Inactive);
    QuiescentProjection(restored);
    SignSigns(restored, c);
    assert c !in restored.routed;
  }

  /** The harness verdicts, from every quiescent state: B is stopped by the kill switch, stays
      revoked after the restore, and C is routed under a newer version. */
  lemma BarrierScenario(s: System, b: nat, c: nat)
    requires Inv(s) && Quiescent(s) && s.db.agent.enabled
    requires b != c && b !in s.requests && c !in s.requests
    ensures var engaged := Change(Sign(s, b), Active);
      var restored := Change(Step(engaged, Route(b, true)), Inactive);
      && RouterVerdict(engaged, b) == KillSwitchEngaged
      && RouterVerdict(restored, b) == AuthorizationRevoked
      && RouterVerdict(Sign(restored, c), c) == Routed
  {
    BarrierEngages(s, b);
    assert b !in s.routed;
    BarrierRestores(Step(Change(Sign(s, b), Active), Route(b, true)), b, c);
  }

  // The router accepts a freshly signed request.
  lemma FreshIsRouted(s: System, id: nat)
    requires Inv(s) && Quiescent(s) && id !in s.requests
    ensures Inv(Sign(s, id)) && RouterVerdict(Sign(s, id), id) == Routed
    ensures Step(Sign(s, id), Route(id, true)) == Update(
      Sign(s, id).(routed := s.routed + [id]), id, Request(s.db.agent.version, Accepted, true, |s.db.log|, 0))
  {
    SignSigns(s, id);
    QuiescentProjection(s);
    assert id !in s.routed;
  }

  lemma FinishAllows(s: System, id: nat)
    requires id in s.requests && s.requests[id].phase == Rechecked && s.requests[id].version == s.db.agent.version
    ensures Step(s, Finish(id)) == Update(s, id, s.requests[id].(phase := Allowed))
  {
  }

  /** Nothing is over-blocked: from every quiescent state a fresh request is routed and allowed. */
  lemma FreshRequestIsAllowed(s: System, id: nat)
    requires Inv(s) && Quiescent(s) && id !in s.requests
    ensures var t := Step(PassGate(Step(Sign(s, id), Route(id, true)), id), Finish(id));
      id in t.requests && t.requests[id].phase == Allowed && t.routed == s.routed + [id]
  {
    FreshIsRouted(s, id);
    SignSigns(s, id);
    StepKeepsInv(Sign(s, id), Route(id, true));
    var routed := Step(Sign(s, id), Route(id, true));
    GatePasses(routed, id);
    FinishAllows(PassGate(routed, id), id);
  }
}
