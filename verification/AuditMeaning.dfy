/** What an appended event links to and hashes, and which audit rows the auditor accepts. */
module AuditMeaning {
  import opened Text
  import opened CanonicalJson
  import opened CanonicalForm
  import opened Outcome
  import opened Evidence
  import opened AuditChain

  // ---- What is hashed ----

  /** The seven columns of a row. */
  predicate Columns(d: Document, e: Event)
  {
    && d.Keys == {"actor_id", "action", "entity_type", "entity_id", "entity_version", "payload", "previous_hash"}
    && d["actor_id"] == Str(e.entry.actor) && d["action"] == Str(e.entry.action)
    && d["entity_type"] == Str(e.entry.entityType) && d["entity_id"] == Str(e.entry.entityId)
    && d["entity_version"] == Int(e.entry.entityVersion) && d["payload"] == Obj(e.entry.payload)
    && d["previous_hash"] == if e.previous.Some? then Str(e.previous.value) else Null
  }

  /** The hash of the row is that of the salt, a colon, and its columns in canonical ASCII form. */
  ghost predicate HashesColumns(H: Hash, salt: string, e: Event)
  {
    exists d: Document, text: string {:trigger Writes(Obj(d), true, text)} ::
      Columns(d, e) && Writes(Obj(d), true, text) && e.hash == H(salt + ":" + text)
  }

  lemma HashedColumns(e: Event)
    ensures Columns(Hashed(e.entry, e.previous), e)
  {
    HashedFields(e.entry, e.previous);
  }

  lemma ColumnsAreHashed(d: Document, e: Event)
    requires Columns(d, e)
    ensures d == Hashed(e.entry, e.previous)
  {
    HashedColumns(e);
  }

  lemma PrintedColumns(e: Event, text: string)
    requires Printable(e)
    ensures Writes(Obj(Hashed(e.entry, e.previous)), true, text) <==>
      text == Print(Obj(Hashed(e.entry, e.previous)), true)
  {
    HashedPrints(e.entry, e.previous);
    PrintIsCanonical(Obj(Hashed(e.entry, e.previous)), true, text);
  }

  lemma HashesWhatIsPrinted(H: Hash, salt: string, e: Event)
    requires Printable(e)
    ensures HashesColumns(H, salt, e) <==> e.hash == EventHash(H, salt, e.entry, e.previous)
  {
    var d := Hashed(e.entry, e.previous);
    HashedColumns(e);
    PrintedColumns(e, Print(Obj(d), true));
    if HashesColumns(H, salt, e) {
      var c, text :| Columns(c, e) && Writes(Obj(c), true, text) && e.hash == H(salt + ":" + text);
      ColumnsAreHashed(c, e);
      PrintedColumns(e, text);
    }
  }

  /** The auditor's recomputation agrees exactly with a row that hashes its columns. */
  lemma AuthenticIff(H: Hash, salt: string, e: Event)
    requires Printable(e)
    ensures Authentic(H, salt, e) <==> HashesColumns(H, salt, e)
  {
    AuditHashIsEventHash(H, salt, e);
    HashesWhatIsPrinted(H, salt, e);
  }

  // ---- The writer ----

  /** a was recorded before b: by time, then by id. */
  predicate Precedes(a: Event, b: Event)
  {
    a.occurredAt < b.occurredAt || (a.occurredAt == b.occurredAt && Less(a.id, b.id))
  }

  ghost predicate IsLatest(rows: seq<Event>, top: Event)
  {
    forall e :: e in rows && e != top ==> Precedes(e, top)
  }

  /** The hash of the row that all other rows precede; of no rows, none. */
  ghost predicate LinksToLatest(rows: seq<Event>, previous: Option<string>)
  {
    if rows == [] then previous == None
    else exists top :: top in rows && previous == Some(top.hash) && IsLatest(rows, top)
  }

  lemma LatestIsLinked(rows: seq<Event>)
    requires UniqueIds(rows)
    ensures LinksToLatest(rows, PreviousHash(rows))
  {
    if rows != [] { LatestIsMaximal(rows); }
  }

  /** What the writer adds: the caller's fields, a link to the latest row, and the hash of the columns. */
  lemma AppendMeans(H: Hash, salt: string, rows: seq<Event>, id: string, now: int, entry: Entry)
    requires UniqueIds(rows) && WellFormed(Obj(entry.payload))
    ensures var event := Appended(H, salt, rows, id, now, entry);
      && event.id == id && event.occurredAt == now && event.entry == entry
      && LinksToLatest(rows, event.previous) && HashesColumns(H, salt, event)
  {
    var event := Appended(H, salt, rows, id, now, entry);
    HashesWhatIsPrinted(H, salt, event);
    LatestIsLinked(rows);
  }

  // ---- The auditor ----

  /** The row of the ingestion of this telemetry event. */
  predicate Records(e: Event, eventId: string)
  {
    && e.entry.action == "runtime_telemetry.ingested" && e.entry.entityType == "runtime_telemetry_event"
    && e.entry.entityId == eventId
  }

  /** One row, and no other, records the event. */
  predicate OnlyRecord(rows: seq<Event>, eventId: string, i: nat)
  {
    i < |rows| && Records(rows[i], eventId) && forall j :: 0 <= j < |rows| && j != i ==> !Records(rows[j], eventId)
  }

  lemma {:induction false} NoneMatches(rows: seq<Event>, eventId: string)
    ensures Matching(rows, eventId) == [] <==> forall j :: 0 <= j < |rows| ==> !Records(rows[j], eventId)
  {
    if rows != [] {
      NoneMatches(rows[1..], eventId);
      assert forall j :: 0 < j < |rows| ==> rows[j] == rows[1..][j - 1];
      assert forall j :: 0 <= j < |rows| - 1 ==> rows[1..][j] == rows[j + 1];
    }
  }

  lemma {:induction false} OneMatchesOnly(rows: seq<Event>, eventId: string) returns (i: nat)
    requires |Matching(rows, eventId)| == 1
    ensures OnlyRecord(rows, eventId, i) && Matching(rows, eventId)[0] == rows[i]
  {
    if About(rows[0], eventId) {
      i := 0;
      NoneMatches(rows[1..], eventId);
      assert forall j :: 0 < j < |rows| ==> rows[j] == rows[1..][j - 1];
    } else {
      var k := OneMatchesOnly(rows[1..], eventId);
      i := k + 1;
      assert forall j :: 0 < j < |rows| ==> rows[j] == rows[1..][j - 1];
    }
  }

  lemma {:induction false} OnlyRecordMatches(rows: seq<Event>, eventId: string, i: nat)
    requires OnlyRecord(rows, eventId, i)
    ensures Matching(rows, eventId) == [rows[i]]
  {
    assert forall j :: 0 <= j < |rows| - 1 ==> rows[1..][j] == rows[j + 1];
    if i == 0 {
      NoneMatches(rows[1..], eventId);
    } else {
      OnlyRecordMatches(rows[1..], eventId, i - 1);
    }
  }

  /** The identifiers, outcome, service and digest of the telemetry event, and nothing else. */
  predicate Minimized(payload: Document, agentId: string, record: Ingested)
  {
    && payload.Keys == {"agent_id", "ai_system_id", "event_name", "event_outcome", "service", "payload_digest"}
    && payload["agent_id"] == Str(agentId) && payload["ai_system_id"] == Str(record.aiSystemId)
    && payload["event_name"] == Str(record.eventName) && payload["event_outcome"] == Str(record.eventOutcome)
    && payload["service"] == Str(record.service) && payload["payload_digest"] == Str(record.payloadDigest)
  }

  lemma MinimizedIff(payload: Document, agentId: string, record: Ingested)
    ensures Minimized(payload, agentId, record) <==> payload == MinimizedPayload(agentId, record)
  {
    assert |"agent_id"| == 8 && |"ai_system_id"| == 12 && |"event_name"| == 10 && |"event_outcome"| == 13;
    assert |"service"| == 7 && |"payload_digest"| == 14;
    var whole := MinimizedPayload(agentId, record);
    assert Minimized(whole, agentId, record);
  }

  lemma MinimizedPrints(e: Event, agentId: string, record: Ingested)
    requires e.entry.payload == MinimizedPayload(agentId, record)
    ensures Printable(e)
  {
    var payload := e.entry.payload;
    assert forall k | k in payload :: payload[k].Str?;
  }

  /** The row is of the agent's telemetry writer and of the recorded version, carries the minimized
      event, hashes its columns, and names no predecessor that is not a row. */
  ghost predicate AuditedBy(H: Hash, salt: string, rows: seq<Event>, e: Event, agentId: string, record: Ingested)
  {
    && e.entry.actor == "runtime-telemetry:" + agentId && e.entry.entityVersion == record.version
    && Minimized(e.entry.payload, agentId, record) && HashesColumns(H, salt, e)
    && (e.previous.Some? ==> exists p :: p in rows && p.hash == e.previous.value)
  }

  lemma RowAuditsIff(H: Hash, salt: string, rows: seq<Event>, e: Event, agentId: string, record: Ingested)
    ensures RowAudits(H, salt, e, agentId, record) && PredecessorResolved(rows, e) <==>
      AuditedBy(H, salt, rows, e, agentId, record)
  {
    MinimizedIff(e.entry.payload, agentId, record);
    if e.entry.payload == MinimizedPayload(agentId, record) {
      MinimizedPrints(e, agentId, record);
      AuthenticIff(H, salt, e);
    }
  }

  /** The auditor accepts a record exactly when one row alone records the event and that row is in
      order; it reports that row. */
  lemma AuditAcceptsIff(H: Hash, salt: string, rows: seq<Event>, agentId: string, record: Ingested)
    ensures Audit(H, salt, rows, agentId, record).Ok? <==>
      exists i: nat :: OnlyRecord(rows, record.eventId, i) && AuditedBy(H, salt, rows, rows[i], agentId, record)
    ensures forall i: nat ::
      OnlyRecord(rows, record.eventId, i) && AuditedBy(H, salt, rows, rows[i], agentId, record) ==>
        Audit(H, salt, rows, agentId, record) == Ok(Finding(rows[i].id, rows[i].hash, rows[i].previous, true))
  {
    AuditIs(H, salt, rows, agentId, record);
    if |Matching(rows, record.eventId)| == 1 {
      var i := OneMatchesOnly(rows, record.eventId);
      RowAuditsIff(H, salt, rows, rows[i], agentId, record);
    }
    forall i: nat | OnlyRecord(rows, record.eventId, i) && AuditedBy(H, salt, rows, rows[i], agentId, record)
      ensures Audit(H, salt, rows, agentId, record) == Ok(Finding(rows[i].id, rows[i].hash, rows[i].previous, true))
    {
      OnlyRecordMatches(rows, record.eventId, i);
      RowAuditsIff(H, salt, rows, rows[i], agentId, record);
    }
  }
}
