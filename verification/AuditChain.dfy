/** The append-only audit log: the writer that links each event to the latest one, and the
    auditor that recomputes hashes and follows predecessor links. */
module AuditChain {
  import opened Text
  import opened CanonicalJson
  import opened Outcome
  import opened Evidence

  /** The caller's part of an event; every field of it is hashed. */
  datatype Entry = Entry(actor: string, action: string, entityType: string, entityId: string, entityVersion: int,
                         payload: Document)

  datatype Event = Event(id: string, occurredAt: int, entry: Entry, previous: Option<string>, hash: string)

  // ---- Hashing ----

  function PreviousJson(previous: Option<string>): Json
  {
    if previous.Some? then Str(previous.value) else Null
  }

  function Hashed(e: Entry, previous: Option<string>): Document
  {
    map["actor_id" := Str(e.actor), "action" := Str(e.action), "entity_type" := Str(e.entityType),
        "entity_id" := Str(e.entityId), "entity_version" := Int(e.entityVersion), "payload" := Obj(e.payload),
        "previous_hash" := PreviousJson(previous)]
  }

  function HashText(salt: string, e: Entry, previous: Option<string>): string
  {
    salt + ":" + Print(Obj(Hashed(e, previous)), true)
  }

  function EventHash(H: Hash, salt: string, e: Entry, previous: Option<string>): string
  {
    H(HashText(salt, e, previous))
  }

  /** The auditor's own recomputation, from the columns of a stored row. */
  function AuditHash(H: Hash, salt: string, actor: string, action: string, entityType: string, entityId: string,
                     entityVersion: int, payload: Document, previous: Option<string>): string
  {
    var canonical := map[
      "actor_id" := Str(actor),
      "action" := Str(action),
      "entity_type" := Str(entityType),
      "entity_id" := Str(entityId),
      "entity_version" := Int(entityVersion),
      "payload" := Obj(payload),
      "previous_hash" := if previous == None then Null else Str(previous.value)];
    H(salt + ":" + Print(Obj(canonical), true))
  }

  predicate Authentic(H: Hash, salt: string, e: Event)
  {
    e.hash == AuditHash(H, salt, e.entry.actor, e.entry.action, e.entry.entityType, e.entry.entityId,
                        e.entry.entityVersion, e.entry.payload, e.previous)
  }

  /** The auditor hashes the writer's text. */
  lemma AuditHashIsEventHash(H: Hash, salt: string, e: Event)
    ensures Authentic(H, salt, e) <==> e.hash == EventHash(H, salt, e.entry, e.previous)
  {
    var canonical := map[
      "actor_id" := Str(e.entry.actor), "action" := Str(e.entry.action), "entity_type" := Str(e.entry.entityType),
      "entity_id" := Str(e.entry.entityId), "entity_version" := Int(e.entry.entityVersion),
      "payload" := Obj(e.entry.payload),
      "previous_hash" := if e.previous == None then Null else Str(e.previous.value)];
    assert canonical == Hashed(e.entry, e.previous);
  }

  lemma HashedFields(e: Entry, previous: Option<string>)
    ensures var d := Hashed(e, previous);
      && Get(d, "actor_id") == Str(e.actor) && Get(d, "action") == Str(e.action)
      && Get(d, "entity_type") == Str(e.entityType) && Get(d, "entity_id") == Str(e.entityId)
      && Get(d, "entity_version") == Int(e.entityVersion) && Get(d, "payload") == Obj(e.payload)
      && Get(d, "previous_hash") == PreviousJson(previous)
  {
    assert |"actor_id"| == 8 && |"action"| == 6 && |"entity_type"| == 11 && |"entity_id"| == 9;
    assert |"entity_version"| == 14 && |"payload"| == 7 && |"previous_hash"| == 13;
  }

  lemma HashedPrints(e: Entry, previous: Option<string>)
    requires WellFormed(Obj(e.payload))
    ensures WellFormed(Obj(Hashed(e, previous)))
  {
    var d := Hashed(e, previous);
    assert forall k | k in d :: d[k] == Obj(e.payload) || d[k].Str? || d[k].Int? || d[k] == Null;
  }

  /** The hashed text determines every hashed field and the predecessor. */
  lemma HashTextDetermines(salt: string, a: Entry, p: Option<string>, b: Entry, q: Option<string>)
    requires WellFormed(Obj(a.payload)) && WellFormed(Obj(b.payload))
    ensures HashText(salt, a, p) == HashText(salt, b, q) <==> a == b && p == q
  {
    if HashText(salt, a, p) == HashText(salt, b, q) {
      var prefix, x, y := salt + ":", Print(Obj(Hashed(a, p)), true), Print(Obj(Hashed(b, q)), true);
      assert (prefix + x)[|prefix|..] == x && (prefix + y)[|prefix|..] == y;
      HashedPrints(a, p);
      HashedPrints(b, q);
      CanonicalJsonUnambiguous(Obj(Hashed(a, p)), Obj(Hashed(b, q)), true);
      HashedFields(a, p);
      HashedFields(b, q);
    }
  }

  // ---- The writer ----

  /** (occurred_at, id) order. */
  predicate Before(a: Event, b: Event)
  {
    a.occurredAt < b.occurredAt || (a.occurredAt == b.occurredAt && Less(a.id, b.id))
  }

  /** ORDER BY occurred_at DESC, id DESC LIMIT 1. */
  function Latest(rows: seq<Event>): Option<Event>
  {
    if rows == [] then None
    else
      var earlier, last := Latest(rows[..|rows| - 1]), rows[|rows| - 1];
      if earlier.Some? && Before(last, earlier.value) then earlier else Some(last)
  }

  function PreviousHash(rows: seq<Event>): Option<string>
  {
    if Latest(rows).Some? then Some(Latest(rows).value.hash) else None
  }

  function Appended(H: Hash, salt: string, rows: seq<Event>, id: string, now: int, entry: Entry): Event
  {
    Event(id, now, entry, PreviousHash(rows), EventHash(H, salt, entry, PreviousHash(rows)))
  }

  ghost predicate UniqueHashes(rows: seq<Event>)
  {
    forall i, j :: 0 <= i < j < |rows| ==> rows[i].hash != rows[j].hash
  }

  ghost predicate UniqueIds(rows: seq<Event>)
  {
    forall i, j :: 0 <= i < j < |rows| ==> rows[i].id != rows[j].id
  }

  ghost predicate AppendedAt(H: Hash, salt: string, rows: seq<Event>, i: nat)
    requires i < |rows|
  {
    rows[i] == Appended(H, salt, rows[..i], rows[i].id, rows[i].occurredAt, rows[i].entry)
  }

  /** rows came from sequential appends. */
  ghost predicate Written(H: Hash, salt: string, rows: seq<Event>)
  {
    forall i {:trigger AppendedAt(H, salt, rows, i)} :: 0 <= i < |rows| ==> AppendedAt(H, salt, rows, i)
  }

  lemma WrittenMore(H: Hash, salt: string, rows: seq<Event>, event: Event)
    requires Written(H, salt, rows) && event == Appended(H, salt, rows, event.id, event.occurredAt, event.entry)
    ensures Written(H, salt, rows + [event])
  {
    var more := rows + [event];
    forall i | 0 <= i < |more| ensures AppendedAt(H, salt, more, i) {
      assert more[..i] == rows[..i];
      assert i < |rows| ==> AppendedAt(H, salt, rows, i);
    }
  }

  /** The table, in insertion order, under its primary key and UNIQUE(event_hash). */
  class AuditLog {
    const hash: Hash
    const salt: string
    var rows: seq<Event>

    ghost predicate Valid()
      reads this
    {
      UniqueIds(rows) && UniqueHashes(rows) && Written(hash, salt, rows)
    }

    constructor (hash: Hash, salt: string)
      ensures Valid() && rows == [] && this.hash == hash && this.salt == salt
    {
      this.hash, this.salt, rows := hash, salt, [];
    }

    /** Adds exactly one event linked to the latest; a key clash leaves the table alone. */
    method Append(id: string, now: int, entry: Entry) returns (r: Result<Event>)
      requires Valid()
      modifies this`rows
      ensures Valid()
      ensures var event := Appended(hash, salt, old(rows), id, now, entry);
        && (r.Ok? <==> forall e :: e in old(rows) ==> e.id != id && e.hash != event.hash)
        && (r.Ok? ==> r.value == event && rows == old(rows) + [event])
        && (r.Err? ==> rows == old(rows))
    {
      var event := Appended(hash, salt, rows, id, now, entry);
      if exists e :: e in rows && (e.id == id || e.hash == event.hash) {
        return Err("unique constraint violated");
      }
      WrittenMore(hash, salt, rows, event);
      rows := rows + [event];
      return Ok(event);
    }
  }

  lemma WrittenPrevious(H: Hash, salt: string, rows: seq<Event>, i: nat)
    requires Written(H, salt, rows) && i < |rows|
    ensures rows[i].previous == PreviousHash(rows[..i]) && Authentic(H, salt, rows[i])
  {
    assert AppendedAt(H, salt, rows, i);
    AuditHashIsEventHash(H, salt, rows[i]);
  }

  /** Writer and auditor compute the same hash on every written event. */
  lemma WrittenIsAuthentic(H: Hash, salt: string, rows: seq<Event>)
    requires Written(H, salt, rows)
    ensures forall i :: 0 <= i < |rows| ==> Authentic(H, salt, rows[i])
  {
    forall i | 0 <= i < |rows| ensures Authentic(H, salt, rows[i]) {
      WrittenPrevious(H, salt, rows, i);
    }
  }

  ghost predicate LinkAt(rows: seq<Event>, i: nat)
    requires i < |rows|
  {
    rows[i].previous == if i == 0 then None else Some(rows[i - 1].hash)
  }

  /** One linear chain: each event names the event just before it. */
  ghost predicate Linear(rows: seq<Event>)
  {
    forall i {:trigger LinkAt(rows, i)} :: 0 <= i < |rows| ==> LinkAt(rows, i)
  }

  ghost predicate Increasing(rows: seq<Event>)
  {
    forall i, j :: 0 <= i < j < |rows| ==> Before(rows[i], rows[j])
  }

  lemma BeforeTransitive(a: Event, b: Event, c: Event)
    requires Before(a, b) && Before(b, c)
    ensures Before(a, c)
  {
    if a.occurredAt == c.occurredAt { LessTransitive(a.id, b.id, c.id); }
  }

  lemma BeforeTotal(a: Event, b: Event)
    requires a.id != b.id
    ensures Before(a, b) <==> !Before(b, a)
  {
    LessTrichotomy(a.id, b.id);
    if Less(a.id, b.id) { LessAsymmetric(a.id, b.id); }
    if Less(b.id, a.id) { LessAsymmetric(b.id, a.id); }
  }

  lemma {:induction false} LatestIsMaximal(rows: seq<Event>)
    requires rows != [] && UniqueIds(rows)
    ensures Latest(rows).Some? && Latest(rows).value in rows
    ensures forall e :: e in rows ==> e == Latest(rows).value || Before(e, Latest(rows).value)
  {
    var n := |rows| - 1;
    var before, last := rows[..n], rows[n];
    assert rows == before + [last];
    if before != [] {
      LatestIsMaximal(before);
      var top := Latest(before).value;
      var i :| 0 <= i < n && before[i] == top;
      assert rows[i].id != rows[n].id;
      BeforeTotal(top, last);
      if Before(top, last) {
        forall e | e in before && e != top ensures Before(e, last) {
          BeforeTransitive(e, top, last);
        }
      }
    }
  }

  /** The last row is the latest exactly when its key is above all earlier ones. */
  lemma LastIsLatest(rows: seq<Event>)
    requires rows != [] && UniqueIds(rows)
    ensures Latest(rows) == Some(rows[|rows| - 1]) <==>
      forall i :: 0 <= i < |rows| - 1 ==> Before(rows[i], rows[|rows| - 1])
  {
    var last := rows[|rows| - 1];
    LatestIsMaximal(rows);
    var top := Latest(rows).value;
    if top == last {
      forall i | 0 <= i < |rows| - 1 ensures Before(rows[i], last) {
        assert rows[i].id != last.id && rows[i] in rows;
      }
    } else {
      var i :| 0 <= i < |rows| && rows[i] == top;
      assert Before(last, top);
      BeforeTotal(last, top);
    }
  }

  lemma LatestHashIsLast(rows: seq<Event>)
    requires rows != [] && UniqueIds(rows) && UniqueHashes(rows)
    ensures PreviousHash(rows) == Some(rows[|rows| - 1].hash) <==> TopAt(rows, |rows| - 1)
  {
    LatestIsMaximal(rows);
    LastIsLatest(rows);
    var k :| 0 <= k < |rows| && rows[k] == Latest(rows).value;
    assert k < |rows| - 1 ==> rows[k].hash != rows[|rows| - 1].hash;
  }

  // Every one of the first n rows is before row n.
  ghost predicate TopAt(rows: seq<Event>, n: nat)
    requires n < |rows|
  {
    forall i :: 0 <= i < n ==> Before(rows[i], rows[n])
  }

  lemma PrefixTop(rows: seq<Event>, i: nat)
    requires UniqueIds(rows) && UniqueHashes(rows) && 0 < i < |rows|
    ensures PreviousHash(rows[..i]) == Some(rows[i - 1].hash) <==> TopAt(rows, i - 1)
  {
    var front := rows[..i];
    LatestHashIsLast(front);
    assert front[i - 1] == rows[i - 1];
    assert TopAt(front, i - 1) <==> TopAt(rows, i - 1);
  }

  lemma LinkedToLast(H: Hash, salt: string, rows: seq<Event>, i: nat)
    requires Written(H, salt, rows) && UniqueIds(rows) && UniqueHashes(rows) && 0 < i < |rows|
    ensures LinkAt(rows, i) <==> TopAt(rows, i - 1)
  {
    WrittenPrevious(H, salt, rows, i);
    PrefixTop(rows, i);
  }

  /** Sequential appends form one linear chain exactly when, apart from the last event, each
      event's (occurred_at, id) key is above all earlier ones. */
  lemma LinearIffIncreasing(H: Hash, salt: string, rows: seq<Event>)
    requires Written(H, salt, rows) && UniqueIds(rows) && UniqueHashes(rows) && rows != []
    ensures Linear(rows) <==> Increasing(rows[..|rows| - 1])
  {
    if Linear(rows) { LinearIncreases(H, salt, rows); }
    if Increasing(rows[..|rows| - 1]) { IncreasingIsLinear(H, salt, rows); }
  }

  lemma LinearIncreases(H: Hash, salt: string, rows: seq<Event>)
    requires Written(H, salt, rows) && UniqueIds(rows) && UniqueHashes(rows) && rows != [] && Linear(rows)
    ensures Increasing(rows[..|rows| - 1])
  {
    forall i, j | 0 <= i < j < |rows| - 1 ensures Before(rows[i], rows[j]) {
      assert LinkAt(rows, j + 1);
      LinkedToLast(H, salt, rows, j + 1);
    }
  }

  lemma IncreasingIsLinear(H: Hash, salt: string, rows: seq<Event>)
    requires Written(H, salt, rows) && UniqueIds(rows) && UniqueHashes(rows) && rows != []
    requires Increasing(rows[..|rows| - 1])
    ensures Linear(rows)
  {
    var front := rows[..|rows| - 1];
    forall i | 0 <= i < |rows| ensures LinkAt(rows, i) {
      if i == 0 {
        WrittenPrevious(H, salt, rows, 0);
      } else {
        forall j | 0 <= j < i - 1 ensures Before(rows[j], rows[i - 1]) {
          assert Before(front[j], front[i - 1]);
        }
        LinkedToLast(H, salt, rows, i);
      }
    }
  }

  ghost predicate Distinguished(H: Hash, salt: string, e: Event, f: Event)
  {
    NoCollision(H, HashText(salt, e.entry, e.previous), HashText(salt, f.entry, f.previous))
  }

  function Edit(version: int): Entry
  {
    Entry("ops", "agent.updated", "agent", "a-1", version, map[])
  }

  /** Three appends under a clock that steps back once: at 2, at 1, at 3. */
  function ForkedLog(H: Hash, salt: string): seq<Event>
  {
    var first := Appended(H, salt, [], "a", 2, Edit(1));
    var second := Appended(H, salt, [first], "b", 1, Edit(2));
    [first, second, Appended(H, salt, [first, second], "c", 3, Edit(3))]
  }

  lemma ForkedLogLinks(H: Hash, salt: string)
    ensures var log := ForkedLog(H, salt);
      && log[0].previous == None && log[1].previous == Some(log[0].hash) && log[2].previous == Some(log[0].hash)
  {
    var log := ForkedLog(H, salt);
    assert [log[0], log[1]][..1] == [log[0]] && [log[0]][..0] == [];
  }

  lemma ForkedLogWritten(H: Hash, salt: string)
    ensures Written(H, salt, ForkedLog(H, salt))
  {
    var log := ForkedLog(H, salt);
    assert log[..0] == [] && log[..1] == [log[0]] && log[..2] == [log[0], log[1]];
    assert AppendedAt(H, salt, log, 0) && AppendedAt(H, salt, log, 1) && AppendedAt(H, salt, log, 2);
  }

  lemma EntriesDifferHashesDiffer(H: Hash, salt: string, e: Event, f: Event)
    requires e.hash == EventHash(H, salt, e.entry, e.previous) && f.hash == EventHash(H, salt, f.entry, f.previous)
    requires WellFormed(Obj(e.entry.payload)) && WellFormed(Obj(f.entry.payload))
    requires Distinguished(H, salt, e, f) && e.entry != f.entry
    ensures e.hash != f.hash
  {
    HashTextDetermines(salt, e.entry, e.previous, f.entry, f.previous);
  }

  ghost predicate AllDistinguished(H: Hash, salt: string, log: seq<Event>)
  {
    forall i, j :: 0 <= i < j < |log| ==> Distinguished(H, salt, log[i], log[j])
  }

  ghost predicate IsEdit(H: Hash, salt: string, e: Event, version: int)
  {
    e.entry == Edit(version) && e.hash == EventHash(H, salt, e.entry, e.previous)
  }

  lemma ForkedLogEdits(H: Hash, salt: string)
    ensures var log := ForkedLog(H, salt);
      |log| == 3 && IsEdit(H, salt, log[0], 1) && IsEdit(H, salt, log[1], 2) && IsEdit(H, salt, log[2], 3)
  {
  }

  lemma EditsAreDistinct(H: Hash, salt: string, log: seq<Event>)
    requires |log| == 3 && AllDistinguished(H, salt, log)
    requires IsEdit(H, salt, log[0], 1) && IsEdit(H, salt, log[1], 2) && IsEdit(H, salt, log[2], 3)
    ensures UniqueHashes(log)
  {
    forall i, j | 0 <= i < j < 3 ensures log[i].hash != log[j].hash {
      assert log[i].entry.entityVersion != log[j].entry.entityVersion;
      EntriesDifferHashesDiffer(H, salt, log[i], log[j]);
    }
  }

  lemma ForkedLogIds(H: Hash, salt: string)
    ensures UniqueIds(ForkedLog(H, salt))
  {
    var log := ForkedLog(H, salt);
    assert log[0].id[0] == 'a' && log[1].id[0] == 'b' && log[2].id[0] == 'c';
  }

  lemma ForkedLogHashes(H: Hash, salt: string)
    requires AllDistinguished(H, salt, ForkedLog(H, salt))
    ensures UniqueHashes(ForkedLog(H, salt))
  {
    ForkedLogEdits(H, salt);
    EditsAreDistinct(H, salt, ForkedLog(H, salt));
  }

  lemma ForkedLogForks(H: Hash, salt: string)
    requires UniqueHashes(ForkedLog(H, salt))
    ensures !Linear(ForkedLog(H, salt))
  {
    ForkedLogLinks(H, salt);
    assert !LinkAt(ForkedLog(H, salt), 2);
  }

  /** The writer then links the second and the third event to the first: the log forks, with
      unique ids and, short of a collision, unique hashes. */
  lemma ClockStepForksLog(H: Hash, salt: string)
    requires AllDistinguished(H, salt, ForkedLog(H, salt))
    ensures var log := ForkedLog(H, salt);
      && Written(H, salt, log) && UniqueIds(log) && UniqueHashes(log) && !Linear(log)
  {
    ForkedLogWritten(H, salt);
    ForkedLogIds(H, salt);
    ForkedLogHashes(H, salt);
    ForkedLogForks(H, salt);
  }

  // ---- Tampering ----

  /** A walk from the first event succeeds: links and hashes hold. */
  ghost predicate Walks(H: Hash, salt: string, rows: seq<Event>)
  {
    Linear(rows) && forall e {:trigger Authentic(H, salt, e)} :: e in rows ==> Authentic(H, salt, e)
  }

  /** A chain built from the events of a log is a prefix of it: deleting an event that is not
      at the end, or reordering, breaks a link. */
  lemma {:induction false} ChainOfLogEventsIsPrefix(log: seq<Event>, chain: seq<Event>)
    requires Linear(log) && UniqueHashes(log) && Linear(chain)
    requires forall e :: e in chain ==> e in log
    ensures chain <= log
    decreases |chain|
  {
    if chain != [] {
      var n := |chain| - 1;
      var front := chain[..n];
      forall i | 0 <= i < |front| ensures LinkAt(front, i) {
        assert LinkAt(chain, i);
      }
      ChainOfLogEventsIsPrefix(log, front);
      assert chain[n] in log;
      var k :| 0 <= k < |log| && log[k] == chain[n];
      assert LinkAt(chain, n) && LinkAt(log, k);
      assert n > 0 ==> front[n - 1] == log[n - 1];
      assert k == n;
    }
  }

  function Without(rows: seq<Event>, j: nat): seq<Event>
    requires j < |rows|
  {
    rows[..j] + rows[j + 1..]
  }

  lemma DeletionBreaksChain(log: seq<Event>, i: nat)
    requires Linear(log) && UniqueHashes(log) && i < |log|
    ensures Linear(Without(log, i)) <==> i == |log| - 1
  {
    var shorter := Without(log, i);
    if Linear(shorter) {
      assert forall e :: e in shorter ==> e in log;
      assert i < |log| - 1 ==> shorter[i] == log[i + 1] && log[i].hash != log[i + 1].hash;
      ChainOfLogEventsIsPrefix(log, shorter);
    }
    if i == |log| - 1 {
      forall k | 0 <= k < |shorter| ensures LinkAt(shorter, k) {
        assert LinkAt(log, k);
      }
    }
  }

  lemma ReorderingBreaksChain(log: seq<Event>, other: seq<Event>)
    requires Linear(log) && UniqueHashes(log) && multiset(other) == multiset(log)
    ensures Linear(other) <==> other == log
  {
    if Linear(other) {
      forall e | e in other ensures e in log {
        assert e in multiset(log);
      }
      ChainOfLogEventsIsPrefix(log, other);
      assert |multiset(other)| == |other| && |multiset(log)| == |log|;
    }
  }

  /** No two events of the two logs collide under the hash. */
  ghost predicate NoAuditCollision(H: Hash, salt: string, a: seq<Event>, b: seq<Event>)
  {
    forall e, f {:trigger Distinguished(H, salt, e, f)} :: e in a && f in b ==> Distinguished(H, salt, e, f)
  }

  ghost predicate Printable(e: Event)
  {
    WellFormed(Obj(e.entry.payload))
  }

  ghost predicate Payloads(rows: seq<Event>)
  {
    forall e {:trigger Printable(e)} :: e in rows ==> Printable(e)
  }

  /** The same hashed fields, link and hash. */
  ghost predicate SameEvent(a: Event, b: Event)
  {
    a.entry == b.entry && a.previous == b.previous && a.hash == b.hash
  }

  lemma SameHashSameEvent(H: Hash, salt: string, a: seq<Event>, b: seq<Event>, m: nat, n: nat)
    requires Walks(H, salt, a) && Walks(H, salt, b) && m < |a| && n < |b| && a[m].hash == b[n].hash
    requires Payloads(a) && Payloads(b) && NoAuditCollision(H, salt, a, b)
    ensures SameEvent(a[m], b[n])
    ensures m == 0 <==> n == 0
    ensures m > 0 && n > 0 ==> a[m - 1].hash == b[n - 1].hash
  {
    assert Printable(a[m]) && Printable(b[n]) && Distinguished(H, salt, a[m], b[n]);
    assert Authentic(H, salt, a[m]) && Authentic(H, salt, b[n]);
    AuditHashIsEventHash(H, salt, a[m]);
    AuditHashIsEventHash(H, salt, b[n]);
    HashTextDetermines(salt, a[m].entry, a[m].previous, b[n].entry, b[n].previous);
    assert LinkAt(a, m) && LinkAt(b, n);
  }

  lemma {:induction false} HashCommitsToPrefix(H: Hash, salt: string, a: seq<Event>, b: seq<Event>, m: nat, n: nat,
                                               i: nat)
    requires Walks(H, salt, a) && Walks(H, salt, b) && m < |a| && n < |b| && a[m].hash == b[n].hash
    requires Payloads(a) && Payloads(b) && NoAuditCollision(H, salt, a, b)
    ensures m == n && (i <= m ==> SameEvent(a[i], b[i]))
    decreases m
  {
    SameHashSameEvent(H, salt, a, b, m, n);
    if m > 0 { HashCommitsToPrefix(H, salt, a, b, m - 1, n - 1, i); }
  }

  /** The last hash commits to the whole log: two logs that walk and end in the same hash have
      the same hashed history, so no field of any event can be changed. */
  lemma LastHashCommits(H: Hash, salt: string, a: seq<Event>, b: seq<Event>)
    requires Walks(H, salt, a) && Walks(H, salt, b) && a != [] && b != []
    requires Payloads(a) && Payloads(b) && NoAuditCollision(H, salt, a, b)
    requires a[|a| - 1].hash == b[|b| - 1].hash
    ensures |a| == |b| && forall i :: 0 <= i < |a| ==> SameEvent(a[i], b[i])
  {
    HashCommitsToPrefix(H, salt, a, b, |a| - 1, |b| - 1, 0);
    forall i | 0 <= i < |a| ensures SameEvent(a[i], b[i]) {
      HashCommitsToPrefix(H, salt, a, b, |a| - 1, |b| - 1, i);
    }
  }

  // ---- The auditor ----

  datatype Ingested = Ingested(eventId: string, aiSystemId: string, eventName: string, eventOutcome: string,
                               service: string, payloadDigest: string, version: int)

  datatype Finding = Finding(auditEventId: string, hash: string, previous: Option<string>, resolved: bool)

  function MinimizedPayload(agentId: string, r: Ingested): Document
  {
    map["agent_id" := Str(agentId), "ai_system_id" := Str(r.aiSystemId), "event_name" := Str(r.eventName),
        "event_outcome" := Str(r.eventOutcome), "service" := Str(r.service), "payload_digest" := Str(r.payloadDigest)]
  }

  predicate About(e: Event, eventId: string)
  {
    && e.entry.entityId == eventId && e.entry.action == "runtime_telemetry.ingested"
    && e.entry.entityType == "runtime_telemetry_event"
  }

  function Matching(rows: seq<Event>, eventId: string): (m: seq<Event>)
    ensures forall e :: e in m <==> e in rows && About(e, eventId)
  {
    if rows == [] then []
    else (if About(rows[0], eventId) then [rows[0]] else []) + Matching(rows[1..], eventId)
  }

  predicate PredecessorResolved(rows: seq<Event>, e: Event)
  {
    e.previous.Some? ==> exists p :: p in rows && p.hash == e.previous.value
  }

  function Audit(H: Hash, salt: string, rows: seq<Event>, agentId: string, record: Ingested): Result<Finding>
  {
    var m := Matching(rows, record.eventId);
    var _ :- Require(|m| == 1, "expected exactly one audit event");
    var e := m[0];
    var _ :- Require(e.entry.actor == "runtime-telemetry:" + agentId, "audit actor_id");
    var _ :- Require(e.entry.entityVersion == record.version, "audit entity version");
    var _ :- Require(e.entry.payload == MinimizedPayload(agentId, record), "minimized audit payload");
    var _ :- Require(Authentic(H, salt, e), "audit event hash");
    var _ :- Require(PredecessorResolved(rows, e), "previous_hash does not resolve to an audit row");
    Ok(Finding(e.id, e.hash, e.previous, true))
  }

  function Auditor(H: Hash, salt: string, rows: seq<Event>, agentId: string): Ingested -> Result<Finding>
  {
    record => Audit(H, salt, rows, agentId, record)
  }

  /** No record after the i-th, up to the n-th, names the same event. */
  ghost predicate LastAbout(records: seq<Ingested>, i: nat, n: nat)
    requires i < n <= |records|
  {
    forall j :: i < j < n ==> records[j].eventId != records[i].eventId
  }

  /** A finding for each of the first n records and no other; of several about one event, the last one's. */
  ghost predicate Reports(audit: Ingested -> Result<Finding>, records: seq<Ingested>, n: nat,
                          findings: map<string, Finding>)
    requires n <= |records|
  {
    && findings.Keys == EventIds(records, n)
    && forall i :: 0 <= i < n && LastAbout(records, i, n) ==> ReportedAt(audit, records[i], findings)
  }

  ghost function EventIds(records: seq<Ingested>, n: nat): set<string>
    requires n <= |records|
  {
    if n == 0 then {} else EventIds(records, n - 1) + {records[n - 1].eventId}
  }

  ghost predicate ReportedAt(audit: Ingested -> Result<Finding>, record: Ingested, findings: map<string, Finding>)
  {
    record.eventId in findings && audit(record) == Ok(findings[record.eventId])
  }

  lemma OneMoreReported(audit: Ingested -> Result<Finding>, records: seq<Ingested>, n: nat,
                        findings: map<string, Finding>, finding: Finding)
    requires n < |records| && Reports(audit, records, n, findings) && audit(records[n]) == Ok(finding)
    ensures Reports(audit, records, n + 1, findings[records[n].eventId := finding])
  {
    var more := findings[records[n].eventId := finding];
    forall i | 0 <= i < n && LastAbout(records, i, n + 1) ensures ReportedAt(audit, records[i], more) {
      assert LastAbout(records, i, n) && records[n].eventId != records[i].eventId;
    }
  }

  /** The loop over the records, whatever the check of one record: the first failure ends it. */
  method ReportEach(audit: Ingested -> Result<Finding>, records: seq<Ingested>)
    returns (r: Result<map<string, Finding>>)
    ensures r.Ok? <==> forall i :: 0 <= i < |records| ==> audit(records[i]).Ok?
    ensures r.Ok? ==> Reports(audit, records, |records|, r.value)
  {
    var result: map<string, Finding> := map[];
    for n := 0 to |records|
      invariant forall i :: 0 <= i < n ==> audit(records[i]).Ok?
      invariant Reports(audit, records, n, result)
    {
      var finding := audit(records[n]);
      if finding.Err? { return Err(finding.reason); }
      OneMoreReported(audit, records, n, result, finding.value);
      result := result[records[n].eventId := finding.value];
    }
    return Ok(result);
  }

  /** Accepts exactly when every record audits, and reports the finding of each. */
  method VerifyAuditEvents(H: Hash, salt: string, rows: seq<Event>, agentId: string, records: seq<Ingested>)
    returns (r: Result<map<string, Finding>>)
    ensures r.Ok? <==> forall i :: 0 <= i < |records| ==> Audit(H, salt, rows, agentId, records[i]).Ok?
    ensures r.Ok? ==> Reports(Auditor(H, salt, rows, agentId), records, |records|, r.value)
  {
    r := ReportEach(Auditor(H, salt, rows, agentId), records);
  }

  /** The auditor accepts the log the writer leaves: a recorded event with one audit row that
      carries its minimized payload audits, wherever it stands in the run. */
  lemma WrittenEventAudits(H: Hash, salt: string, rows: seq<Event>, agentId: string, record: Ingested, i: nat)
    requires Written(H, salt, rows) && UniqueIds(rows) && i < |rows|
    requires About(rows[i], record.eventId) && Matching(rows, record.eventId) == [rows[i]]
    requires rows[i].entry.actor == "runtime-telemetry:" + agentId && rows[i].entry.entityVersion == record.version
    requires rows[i].entry.payload == MinimizedPayload(agentId, record)
    ensures Audit(H, salt, rows, agentId, record) == Ok(Finding(rows[i].id, rows[i].hash, rows[i].previous, true))
  {
    WrittenPrevious(H, salt, rows, i);
    PredecessorWritten(rows, i);
  }

  lemma PredecessorWritten(rows: seq<Event>, i: nat)
    requires UniqueIds(rows) && i < |rows| && rows[i].previous == PreviousHash(rows[..i])
    ensures PredecessorResolved(rows, rows[i])
  {
    if i > 0 {
      LatestIsMaximal(rows[..i]);
      assert Latest(rows[..i]).value in rows;
    }
  }

  // ---- What the auditor notices ----

  lemma {:induction false} MatchingAppends(a: seq<Event>, b: seq<Event>, eventId: string)
    ensures Matching(a + b, eventId) == Matching(a, eventId) + Matching(b, eventId)
  {
    if a == [] {
      assert a + b == b;
    } else {
      assert (a + b)[1..] == a[1..] + b;
      MatchingAppends(a[1..], b, eventId);
    }
  }

  lemma MatchingAround(rows: seq<Event>, j: nat, eventId: string)
    requires j < |rows|
    ensures var x, y := Matching(rows[..j], eventId), Matching(rows[j + 1..], eventId);
      Matching(rows, eventId) == x + (if About(rows[j], eventId) then [rows[j]] + y else y)
  {
    assert rows == rows[..j] + rows[j..] && rows[j..][1..] == rows[j + 1..];
    MatchingAppends(rows[..j], rows[j..], eventId);
  }

  // Dropping a row drops it from the matches, and nothing else.
  lemma MatchingWithout(rows: seq<Event>, j: nat, eventId: string)
    requires j < |rows|
    ensures About(rows[j], eventId) ==> |Matching(Without(rows, j), eventId)| + 1 == |Matching(rows, eventId)|
    ensures !About(rows[j], eventId) ==> Matching(Without(rows, j), eventId) == Matching(rows, eventId)
  {
    MatchingAround(rows, j, eventId);
    MatchingAppends(rows[..j], rows[j + 1..], eventId);
  }

  /** The row that a record is audited against. */
  function AuditedRow(rows: seq<Event>, eventId: string): (e: Event)
    requires |Matching(rows, eventId)| == 1
    ensures e in rows && About(e, eventId)
  {
    assert Matching(rows, eventId)[0] in Matching(rows, eventId);
    Matching(rows, eventId)[0]
  }

  // The checks on the row alone.
  predicate RowAudits(H: Hash, salt: string, e: Event, agentId: string, record: Ingested)
  {
    && e.entry.actor == "runtime-telemetry:" + agentId && e.entry.entityVersion == record.version
    && e.entry.payload == MinimizedPayload(agentId, record) && Authentic(H, salt, e)
  }

  lemma AuditIs(H: Hash, salt: string, rows: seq<Event>, agentId: string, record: Ingested)
    ensures Audit(H, salt, rows, agentId, record).Ok? <==>
      && |Matching(rows, record.eventId)| == 1
      && RowAudits(H, salt, AuditedRow(rows, record.eventId), agentId, record)
      && PredecessorResolved(rows, AuditedRow(rows, record.eventId))
  {
  }

  lemma ResolvedWithout(rows: seq<Event>, j: nat, e: Event)
    requires UniqueHashes(rows) && j < |rows| && PredecessorResolved(rows, e)
    ensures PredecessorResolved(Without(rows, j), e) <==> e.previous != Some(rows[j].hash)
  {
    var less := Without(rows, j);
    if e.previous.Some? {
      var p :| p in rows && p.hash == e.previous.value;
      var k :| 0 <= k < |rows| && rows[k] == p;
      if k < j { assert less[k] == p; } else if k > j { assert less[k - 1] == p; }
    }
  }

  /** Once a record audits, the loss of one row makes the audit fail exactly when it is the row
      audited, or the one that row names as its predecessor. */
  lemma AuditNoticesIff(H: Hash, salt: string, rows: seq<Event>, agentId: string, record: Ingested, j: nat)
    requires UniqueIds(rows) && UniqueHashes(rows) && j < |rows|
    requires Audit(H, salt, rows, agentId, record).Ok?
    ensures |Matching(rows, record.eventId)| == 1
    ensures var e := AuditedRow(rows, record.eventId);
      Audit(H, salt, Without(rows, j), agentId, record).Err? <==> rows[j] == e || e.previous == Some(rows[j].hash)
  {
    AuditIs(H, salt, rows, agentId, record);
    AuditIs(H, salt, Without(rows, j), agentId, record);
    MatchingWithout(rows, j, record.eventId);
    var e := AuditedRow(rows, record.eventId);
    if About(rows[j], record.eventId) {
      assert rows[j] in Matching(rows, record.eventId);
    } else {
      ResolvedWithout(rows, j, e);
    }
  }
}
