/** The insert-only evidence tables of governed actuation, with the CHECK, UNIQUE and
    FOREIGN KEY constraints of migrations 0014 to 0019. */
module ActuationTables {
  import opened RuntimeControl

  datatype DecisionOutcome = Approved | Rejected
  datatype Action = EngageKillSwitch | RestoreKillSwitch

  /** What a receipt says about the transition it applied. */
  datatype Receipt = Receipt(transition: nat, epoch: int, previous: ControlState, target: ControlState,
                             floor: int, resultingVersion: int)

  /** The first column refers to the row before; further references repeat ids from earlier in the
      chain, and no constraint ties them to it. */
  datatype Row =
    | Evaluation
    | ControlTransition
    | Promotion(evaluation: nat)
    | Recommendation(promotion: nat, evaluation: nat)
    | Request(recommendation: nat, promotion: nat, evaluation: nat, action: Action)
    | Decision(request: nat, action: Action, outcome: DecisionOutcome)
    | Execution(decision: nat, request: nat, action: Action, receipt: Receipt)
    | RestoreRequest(source: nat, action: Action, remediation: string)
    | RestoreDecision(restoreRequest: nat, source: nat, action: Action, restoreOutcome: DecisionOutcome)
    | RestoreExecution(restoreDecision: nat, restoreRequest: nat, source: nat, action: Action, restoreReceipt: Receipt)

  datatype Table =
    | Evaluations | ControlTransitions | Promotions | Recommendations | Requests | Decisions | Executions
    | RestoreRequests | RestoreDecisions | RestoreExecutions

  function TableOf(row: Row): Table
  {
    match row
    case Evaluation => Evaluations
    case ControlTransition => ControlTransitions
    case Promotion(_) => Promotions
    case Recommendation(_, _) => Recommendations
    case Request(_, _, _, _) => Requests
    case Decision(_, _, _) => Decisions
    case Execution(_, _, _, _) => Executions
    case RestoreRequest(_, _, _) => RestoreRequests
    case RestoreDecision(_, _, _, _) => RestoreDecisions
    case RestoreExecution(_, _, _, _, _) => RestoreExecutions
  }

  /** A primary key: ids are unique within their table. */
  datatype Key = Key(table: Table, id: nat)

  type Tables = map<Key, Row>

  predicate Holds(t: Tables, table: Table, id: nat)
  {
    Key(table, id) in t
  }

  predicate ReceiptChecks(r: Receipt, previous: ControlState, target: ControlState)
  {
    r.previous == previous && r.target == target && r.epoch > 0 && r.floor > 0 && r.resultingVersion == r.floor + 1
  }

  /** CHECK constraints. */
  predicate Checks(row: Row)
  {
    match row
    case Request(_, _, _, action) => action == EngageKillSwitch
    case Decision(_, action, _) => action == EngageKillSwitch
    case Execution(_, _, action, r) => action == EngageKillSwitch && ReceiptChecks(r, Inactive, Active)
    case RestoreRequest(_, action, _) => action == RestoreKillSwitch
    case RestoreDecision(_, _, action, _) => action == RestoreKillSwitch
    case RestoreExecution(_, _, _, action, r) => action == RestoreKillSwitch && ReceiptChecks(r, Active, Inactive)
    case _ => true
  }

  /** FOREIGN KEY constraints. */
  predicate References(t: Tables, row: Row)
  {
    match row
    case Evaluation => true
    case ControlTransition => true
    case Promotion(e) => Holds(t, Evaluations, e)
    case Recommendation(p, e) => Holds(t, Promotions, p) && Holds(t, Evaluations, e)
    case Request(r, p, e, _) => Holds(t, Recommendations, r) && Holds(t, Promotions, p) && Holds(t, Evaluations, e)
    case Decision(q, _, _) => Holds(t, Requests, q)
    case Execution(d, q, _, r) =>
      Holds(t, Decisions, d) && Holds(t, Requests, q) && Holds(t, ControlTransitions, r.transition)
    case RestoreRequest(x, _, _) => Holds(t, Executions, x)
    case RestoreDecision(q, x, _, _) => Holds(t, RestoreRequests, q) && Holds(t, Executions, x)
    case RestoreExecution(d, q, x, _, r) =>
      && Holds(t, RestoreDecisions, d) && Holds(t, RestoreRequests, q) && Holds(t, Executions, x)
      && Holds(t, ControlTransitions, r.transition)
  }

  /** Two rows that one UNIQUE constraint forbids side by side. */
  predicate Clash(a: Row, b: Row)
  {
    match (a, b)
    case (Promotion(x), Promotion(y)) => x == y
    case (Recommendation(x, _), Recommendation(y, _)) => x == y
    case (Request(x, _, _, p), Request(y, _, _, q)) => x == y && p == q
    case (Decision(x, _, _), Decision(y, _, _)) => x == y
    case (Execution(x, _, _, p), Execution(y, _, _, q)) => x == y || p.transition == q.transition
    case (RestoreRequest(x, _, p), RestoreRequest(y, _, q)) => x == y && p == q
    case (RestoreDecision(x, _, _, _), RestoreDecision(y, _, _, _)) => x == y
    case (RestoreExecution(x, _, _, _, p), RestoreExecution(y, _, _, _, q)) => x == y || p.transition == q.transition
    case _ => false
  }

  /** An insert takes effect exactly when no constraint objects. */
  function Insert(t: Tables, id: nat, row: Row): Tables
  {
    var key := Key(TableOf(row), id);
    if key in t || !Checks(row) || !References(t, row) || (exists k :: k in t && Clash(t[k], row)) then t
    else t[key := row]
  }

  function InsertAll(t: Tables, rows: seq<(nat, Row)>): Tables
    decreases |rows|
  {
    if rows == [] then t else InsertAll(Insert(t, rows[0].0, rows[0].1), rows[1..])
  }

  ghost predicate RowsChecked(t: Tables)
  {
    forall k :: k in t ==> TableOf(t[k]) == k.table && Checks(t[k]) && References(t, t[k])
  }

  ghost predicate RowsUnique(t: Tables)
  {
    forall j, k :: j in t && k in t && j != k ==> !Clash(t[j], t[k])
  }

  ghost predicate Constrained(t: Tables) { RowsChecked(t) && RowsUnique(t) }

  lemma ClashSymmetric(a: Row, b: Row)
    ensures Clash(a, b) == Clash(b, a)
  {
  }

  lemma ReferencesStay(t: Tables, key: Key, row: Row, other: Row)
    requires key !in t && References(t, other)
    ensures References(t[key := row], other)
  {
  }

  lemma InsertKeepsConstraints(t: Tables, id: nat, row: Row)
    requires Constrained(t)
    ensures Constrained(Insert(t, id, row))
  {
    var key, t' := Key(TableOf(row), id), Insert(t, id, row);
    if t' != t {
      forall k | k in t' ensures TableOf(t'[k]) == k.table && Checks(t'[k]) && References(t', t'[k]) {
        ReferencesStay(t, key, row, t'[k]);
      }
      forall j, k | j in t' && k in t' && j != k ensures !Clash(t'[j], t'[k]) {
        ClashSymmetric(t'[j], t'[k]);
      }
    }
  }

  lemma {:induction false} InsertsKeepConstraints(t: Tables, rows: seq<(nat, Row)>)
    requires Constrained(t)
    ensures Constrained(InsertAll(t, rows))
    decreases |rows|
  {
    if rows != [] {
      InsertKeepsConstraints(t, rows[0].0, rows[0].1);
      InsertsKeepConstraints(Insert(t, rows[0].0, rows[0].1), rows[1..]);
    }
  }

  // ---- Following the evidence chain ----

  function RowAt(t: Tables, table: Table, id: nat): (row: Row)
    requires Constrained(t) && Holds(t, table, id)
    ensures TableOf(row) == table && References(t, row)
  {
    t[Key(table, id)]
  }

  function DecisionOf(t: Tables, execution: nat): (d: nat)
    requires Constrained(t) && Holds(t, Executions, execution)
    ensures Holds(t, Decisions, d)
  {
    RowAt(t, Executions, execution).decision
  }

  /** execution -> decision -> request. */
  function RequestOf(t: Tables, execution: nat): (q: nat)
    requires Constrained(t) && Holds(t, Executions, execution)
    ensures Holds(t, Requests, q)
  {
    RowAt(t, Decisions, DecisionOf(t, execution)).request
  }

  /** ... -> request -> recommendation -> promotion -> evaluation. */
  function EvaluationOf(t: Tables, execution: nat): nat
    requires Constrained(t) && Holds(t, Executions, execution)
  {
    EvaluationOfRequest(t, RequestOf(t, execution))
  }

  function EvaluationOfRequest(t: Tables, request: nat): nat
    requires Constrained(t) && Holds(t, Requests, request)
  {
    var r := RowAt(t, Requests, request).recommendation;
    var p := RowAt(t, Recommendations, r).promotion;
    RowAt(t, Promotions, p).evaluation
  }

  /** restore execution -> decision -> request. */
  function RestoreRequestOf(t: Tables, execution: nat): (q: nat)
    requires Constrained(t) && Holds(t, RestoreExecutions, execution)
    ensures Holds(t, RestoreRequests, q)
  {
    var d := RowAt(t, RestoreExecutions, execution).restoreDecision;
    RowAt(t, RestoreDecisions, d).restoreRequest
  }

  // A UNIQUE constraint identifies the two rows.
  lemma UniqueRow(t: Tables, table: Table, a: nat, b: nat)
    requires Constrained(t) && Holds(t, table, a) && Holds(t, table, b)
    requires Clash(RowAt(t, table, a), RowAt(t, table, b))
    ensures a == b
  {
  }

  lemma RecommendationIsInjective(t: Tables, m: nat, n: nat)
    requires Constrained(t) && Holds(t, Recommendations, m) && Holds(t, Recommendations, n)
    requires RowAt(t, Promotions, RowAt(t, Recommendations, m).promotion).evaluation
          == RowAt(t, Promotions, RowAt(t, Recommendations, n).promotion).evaluation
    ensures m == n
  {
    UniqueRow(t, Promotions, RowAt(t, Recommendations, m).promotion, RowAt(t, Recommendations, n).promotion);
    UniqueRow(t, Recommendations, m, n);
  }

  lemma RequestChainIsInjective(t: Tables, a: nat, b: nat)
    requires Constrained(t) && Holds(t, Requests, a) && Holds(t, Requests, b)
    requires EvaluationOfRequest(t, a) == EvaluationOfRequest(t, b)
    ensures a == b
  {
    RecommendationIsInjective(t, RowAt(t, Requests, a).recommendation, RowAt(t, Requests, b).recommendation);
    // the single admitted action makes (recommendation, action) unique per recommendation
    assert Checks(RowAt(t, Requests, a)) && Checks(RowAt(t, Requests, b));
    UniqueRow(t, Requests, a, b);
  }

  lemma EngageChainIsInjective(t: Tables, a: nat, b: nat)
    requires Constrained(t) && Holds(t, Executions, a) && Holds(t, Executions, b)
    requires EvaluationOf(t, a) == EvaluationOf(t, b)
    ensures a == b
  {
    RequestChainIsInjective(t, RequestOf(t, a), RequestOf(t, b));
    UniqueRow(t, Decisions, DecisionOf(t, a), DecisionOf(t, b));
    UniqueRow(t, Executions, a, b);
  }

  /** In every state reachable by inserts: one engage execution per evaluation. */
  lemma OneEngagePerEvaluation(rows: seq<(nat, Row)>, a: nat, b: nat)
    ensures var t := InsertAll(map[], rows);
      && Constrained(t)
      && (Holds(t, Executions, a) && Holds(t, Executions, b) && EvaluationOf(t, a) == EvaluationOf(t, b) ==> a == b)
  {
    InsertsKeepConstraints(map[], rows);
    var t := InsertAll(map[], rows);
    if Holds(t, Executions, a) && Holds(t, Executions, b) && EvaluationOf(t, a) == EvaluationOf(t, b) {
      EngageChainIsInjective(t, a, b);
    }
  }

  /** A transition applied under these states: the epoch and the floor are positive, and the agent is
      one version past the floor. */
  predicate Applied(t: Tables, r: Receipt, previous: ControlState, target: ControlState)
  {
    && Key(ControlTransitions, r.transition) in t && r.previous == previous && r.target == target
    && r.epoch > 0 && r.floor > 0 && r.resultingVersion == r.floor + 1
  }

  /** The rows a request refers to are all there, those of its copied columns included. */
  predicate RequestIsBacked(t: Tables, q: nat)
  {
    Key(Requests, q) in t && t[Key(Requests, q)].Request? &&
    var request := t[Key(Requests, q)];
    && request.action == EngageKillSwitch && Key(Promotions, request.promotion) in t
    && Key(Evaluations, request.evaluation) in t && Key(Recommendations, request.recommendation) in t
    && var recommendation := t[Key(Recommendations, request.recommendation)];
       && recommendation.Recommendation? && Key(Promotions, recommendation.promotion) in t
       && Key(Evaluations, recommendation.evaluation) in t
  }

  predicate EngageBacked(t: Tables, a: nat)
  {
    Key(Executions, a) in t && t[Key(Executions, a)].Execution? &&
    var x := t[Key(Executions, a)];
    && x.action == EngageKillSwitch && Applied(t, x.receipt, Inactive, Active)
    && Key(Requests, x.request) in t && Key(Decisions, x.decision) in t
    && var d := t[Key(Decisions, x.decision)];
       d.Decision? && d.action == EngageKillSwitch && RequestIsBacked(t, d.request)
  }

  predicate RestoreBacked(t: Tables, a: nat)
  {
    Key(RestoreExecutions, a) in t && t[Key(RestoreExecutions, a)].RestoreExecution? &&
    var x := t[Key(RestoreExecutions, a)];
    && x.action == RestoreKillSwitch && Applied(t, x.restoreReceipt, Active, Inactive)
    && Key(RestoreRequests, x.restoreRequest) in t && Key(Executions, x.source) in t
    && Key(RestoreDecisions, x.restoreDecision) in t
    && var d := t[Key(RestoreDecisions, x.restoreDecision)];
       && d.RestoreDecision? && d.action == RestoreKillSwitch && Key(Executions, d.source) in t
       && Key(RestoreRequests, d.restoreRequest) in t
       && var q := t[Key(RestoreRequests, d.restoreRequest)];
          q.RestoreRequest? && q.action == RestoreKillSwitch && Key(Executions, q.source) in t
  }

  lemma StoredRequestBacked(t: Tables, q: nat)
    requires Constrained(t) && Key(Requests, q) in t
    ensures RequestIsBacked(t, q)
  {
    var request := RowAt(t, Requests, q);
    var recommendation := RowAt(t, Recommendations, request.recommendation);
    assert Checks(request);
  }

  lemma StoredEngageBacked(t: Tables, a: nat)
    requires Constrained(t) && Key(Executions, a) in t
    ensures EngageBacked(t, a)
  {
    var x := RowAt(t, Executions, a);
    var d := RowAt(t, Decisions, x.decision);
    StoredRequestBacked(t, d.request);
    assert Checks(x) && Checks(d);
  }

  lemma StoredRestoreBacked(t: Tables, a: nat)
    requires Constrained(t) && Key(RestoreExecutions, a) in t
    ensures RestoreBacked(t, a)
  {
    var x := RowAt(t, RestoreExecutions, a);
    var d := RowAt(t, RestoreDecisions, x.restoreDecision);
    var q := RowAt(t, RestoreRequests, d.restoreRequest);
    assert Checks(x) && Checks(d) && Checks(q);
  }

  /** In every state reachable by inserts: an engage execution applied a transition to the active
      state, a restore execution one back, and all the rows they refer to are there. */
  lemma ExecutionsAreBacked(rows: seq<(nat, Row)>, a: nat)
    ensures var t := InsertAll(map[], rows);
      (Key(Executions, a) in t ==> EngageBacked(t, a)) && (Key(RestoreExecutions, a) in t ==> RestoreBacked(t, a))
  {
    InsertsKeepConstraints(map[], rows);
    var t := InsertAll(map[], rows);
    if Key(Executions, a) in t { StoredEngageBacked(t, a); }
    if Key(RestoreExecutions, a) in t { StoredRestoreBacked(t, a); }
  }

  /** No two engage executions, and no two restore executions, share a decision or a transition. */
  ghost predicate ExecutedApart(t: Tables)
  {
    && (forall a, b :: Key(Executions, a) in t && Key(Executions, b) in t && a != b ==>
          Apart(t[Key(Executions, a)], t[Key(Executions, b)]))
    && (forall a, b :: Key(RestoreExecutions, a) in t && Key(RestoreExecutions, b) in t && a != b ==>
          Apart(t[Key(RestoreExecutions, a)], t[Key(RestoreExecutions, b)]))
  }

  predicate Apart(x: Row, y: Row)
  {
    || (x.Execution? && y.Execution? && x.decision != y.decision && x.receipt.transition != y.receipt.transition)
    || (x.RestoreExecution? && y.RestoreExecution? && x.restoreDecision != y.restoreDecision
        && x.restoreReceipt.transition != y.restoreReceipt.transition)
  }

  lemma UniqueMeansApart(t: Tables, table: Table, a: nat, b: nat)
    requires Constrained(t) && Key(table, a) in t && Key(table, b) in t && a != b
    requires table == Executions || table == RestoreExecutions
    ensures Apart(t[Key(table, a)], t[Key(table, b)])
  {
    var x, y := RowAt(t, table, a), RowAt(t, table, b);
    assert !Clash(x, y);
  }

  lemma ExecutedOnce(rows: seq<(nat, Row)>)
    ensures ExecutedApart(InsertAll(map[], rows))
  {
    InsertsKeepConstraints(map[], rows);
    var t := InsertAll(map[], rows);
    forall a, b | Key(Executions, a) in t && Key(Executions, b) in t && a != b
      ensures Apart(t[Key(Executions, a)], t[Key(Executions, b)])
    {
      UniqueMeansApart(t, Executions, a, b);
    }
    forall a, b | Key(RestoreExecutions, a) in t && Key(RestoreExecutions, b) in t && a != b
      ensures Apart(t[Key(RestoreExecutions, a)], t[Key(RestoreExecutions, b)])
    {
      UniqueMeansApart(t, RestoreExecutions, a, b);
    }
  }

  lemma RestoreChainIsInjective(t: Tables, a: nat, b: nat)
    requires Constrained(t) && Holds(t, RestoreExecutions, a) && Holds(t, RestoreExecutions, b)
    requires RowAt(t, RestoreRequests, RestoreRequestOf(t, a)) == RowAt(t, RestoreRequests, RestoreRequestOf(t, b))
    ensures a == b
  {
    var d, e := RowAt(t, RestoreExecutions, a).restoreDecision, RowAt(t, RestoreExecutions, b).restoreDecision;
    UniqueRow(t, RestoreRequests, RestoreRequestOf(t, a), RestoreRequestOf(t, b));
    UniqueRow(t, RestoreDecisions, d, e);
    UniqueRow(t, RestoreExecutions, a, b);
  }

  /** One restore execution per source execution and remediation snapshot. */
  lemma OneRestorePerRemediation(rows: seq<(nat, Row)>, a: nat, b: nat)
    ensures var t := InsertAll(map[], rows);
      && Constrained(t)
      && (Holds(t, RestoreExecutions, a) && Holds(t, RestoreExecutions, b)
          && RowAt(t, RestoreRequests, RestoreRequestOf(t, a)) == RowAt(t, RestoreRequests, RestoreRequestOf(t, b))
          ==> a == b)
  {
    InsertsKeepConstraints(map[], rows);
    var t := InsertAll(map[], rows);
    if Holds(t, RestoreExecutions, a) && Holds(t, RestoreExecutions, b)
       && RowAt(t, RestoreRequests, RestoreRequestOf(t, a)) == RowAt(t, RestoreRequests, RestoreRequestOf(t, b)) {
      RestoreChainIsInjective(t, a, b);
    }
  }

  /** The engage execution a restore goes back to. */
  function SourceOf(t: Tables, execution: nat): (x: nat)
    requires Constrained(t) && Holds(t, RestoreExecutions, execution)
    ensures Holds(t, Executions, x)
  {
    RowAt(t, RestoreRequests, RestoreRequestOf(t, execution)).source
  }

  predicate Reverses(restore: Receipt, engage: Receipt)
  {
    restore.previous == engage.target && restore.target == engage.previous
  }

  lemma ChecksReverse(t: Tables, a: nat)
    requires Constrained(t) && Holds(t, RestoreExecutions, a)
    ensures Reverses(RowAt(t, RestoreExecutions, a).restoreReceipt, RowAt(t, Executions, SourceOf(t, a)).receipt)
  {
    assert Checks(RowAt(t, RestoreExecutions, a)) && Checks(RowAt(t, Executions, SourceOf(t, a)));
  }

  /** Every applied restore traces to an engage receipt whose states it reverses. */
  lemma RestoreReversesItsEngage(rows: seq<(nat, Row)>, a: nat)
    ensures var t := InsertAll(map[], rows);
      && Constrained(t)
      && (Holds(t, RestoreExecutions, a) ==>
            && Holds(t, Executions, SourceOf(t, a))
            && Reverses(RowAt(t, RestoreExecutions, a).restoreReceipt, RowAt(t, Executions, SourceOf(t, a)).receipt))
  {
    InsertsKeepConstraints(map[], rows);
    var t := InsertAll(map[], rows);
    if Holds(t, RestoreExecutions, a) { ChecksReverse(t, a); }
  }

  // ---- The repeated columns alone do not give it ----

  function EngageReceipt(k: nat): Receipt
  {
    Receipt(k, 1, Inactive, Active, 1, 2)
  }

  /** A complete chain with id k in every table, whose request repeats the evaluation 0. */
  function Chain(k: nat): seq<(nat, Row)>
  {
    [(k, Evaluation), (k, Promotion(k)), (k, Recommendation(k, k)), (k, Row.Request(k, k, 0, EngageKillSwitch)),
     (k, Decision(k, EngageKillSwitch, Approved)), (k, ControlTransition),
     (k, Execution(k, k, EngageKillSwitch, EngageReceipt(k)))]
  }

  /** Nothing in the tables has the id k, or refers to it under a UNIQUE constraint. */
  predicate Spare(key: Key, row: Row, k: nat)
  {
    && key.id != k
    && match row
       case Promotion(e) => e != k
       case Recommendation(p, _) => p != k
       case Request(r, _, _, _) => r != k
       case Decision(q, _, _) => q != k
       case Execution(d, _, _, r) => d != k && r.transition != k
       case _ => true
  }

  ghost predicate AllSpare(t: Tables, k: nat)
  {
    forall key {:trigger Spare(key, t[key], k)} :: key in t ==> Spare(key, t[key], k)
  }

  lemma InsertFirst(t: Tables, rows: seq<(nat, Row)>)
    requires rows != []
    ensures InsertAll(t, rows) == InsertAll(Insert(t, rows[0].0, rows[0].1), rows[1..])
  {
  }

  ghost predicate Admits(t: Tables, id: nat, row: Row)
  {
    Key(TableOf(row), id) !in t && Checks(row) && References(t, row) && forall key :: key in t ==> !Clash(t[key], row)
  }

  lemma Admitted(t: Tables, id: nat, row: Row)
    requires Admits(t, id, row)
    ensures Insert(t, id, row) == t[Key(TableOf(row), id) := row]
  {
  }

  // The first n rows of the chain.
  function Part(t: Tables, k: nat, n: nat): Tables
    requires n <= 7
  {
    if n == 0 then t else Part(t, k, n - 1)[Key(TableOf(Chain(k)[n - 1].1), k) := Chain(k)[n - 1].1]
  }

  lemma PartHas(t: Tables, k: nat, n: nat, i: nat)
    requires i < n <= 7
    ensures Holds(Part(t, k, n), TableOf(Chain(k)[i].1), k)
  {
    PartIs(t, k, n);
    assert Key(TableOf(Chain(k)[i].1), k) in Part(t, k, n);
  }

  lemma PartRefers(t: Tables, k: nat, n: nat)
    requires n < 7 && (k > 0 ==> Holds(t, Evaluations, 0))
    ensures References(Part(t, k, n), Chain(k)[n].1)
  {
    if n > 0 { PartHas(t, k, n, 0); }
    if n > 1 { PartHas(t, k, n, 1); }
    if n > 2 { PartHas(t, k, n, 2); }
    if n > 3 { PartHas(t, k, n, 3); }
    if n > 4 { PartHas(t, k, n, 4); }
    if n > 5 { PartHas(t, k, n, 5); }
    PartIs(t, k, n);
    assert Holds(t, Evaluations, 0) ==> Holds(Part(t, k, n), Evaluations, 0);
  }

  lemma ChainClashFree(k: nat, i: nat, n: nat)
    requires i < n < 7
    ensures TableOf(Chain(k)[i].1) != TableOf(Chain(k)[n].1) && !Clash(Chain(k)[i].1, Chain(k)[n].1)
  {
  }

  lemma SpareIsClashFree(t: Tables, k: nat, n: nat, key: Key)
    requires n < 7 && key in t && Spare(key, t[key], k)
    ensures key.id != k && !Clash(t[key], Chain(k)[n].1)
  {
  }

  lemma PartIsClashFree(t: Tables, k: nat, n: nat, key: Key)
    requires AllSpare(t, k) && n < 7 && key in Part(t, k, n)
    ensures key != Key(TableOf(Chain(k)[n].1), k) && !Clash(Part(t, k, n)[key], Chain(k)[n].1)
  {
    PartIs(t, k, n);
    if i :| 0 <= i < n && key == Key(TableOf(Chain(k)[i].1), k) {
      ChainClashFree(k, i, n);
    } else {
      assert Spare(key, t[key], k);
      SpareIsClashFree(t, k, n, key);
    }
  }

  lemma PartAdmits(t: Tables, k: nat, n: nat)
    requires AllSpare(t, k) && n < 7 && (k > 0 ==> Holds(t, Evaluations, 0))
    ensures Admits(Part(t, k, n), k, Chain(k)[n].1)
  {
    PartRefers(t, k, n);
    forall key | key in Part(t, k, n)
      ensures key != Key(TableOf(Chain(k)[n].1), k) && !Clash(Part(t, k, n)[key], Chain(k)[n].1)
    {
      PartIsClashFree(t, k, n, key);
    }
  }

  lemma {:induction false} PartIs(t: Tables, k: nat, n: nat)
    requires n <= 7
    ensures forall key :: key in Part(t, k, n) <==>
      key in t || exists i :: 0 <= i < n && key == Key(TableOf(Chain(k)[i].1), k)
    ensures forall key :: key in Part(t, k, n) && key.id != k ==> Part(t, k, n)[key] == t[key]
    ensures forall i :: 0 <= i < n ==> Part(t, k, n)[Key(TableOf(Chain(k)[i].1), k)] == Chain(k)[i].1
  {
    if n > 0 { PartIs(t, k, n - 1); }
  }

  lemma {:induction false} ChainInserts(t: Tables, k: nat, n: nat)
    requires AllSpare(t, k) && n <= 7 && (k > 0 ==> Holds(t, Evaluations, 0))
    ensures InsertAll(Part(t, k, n), Chain(k)[n..]) == Part(t, k, 7)
    decreases 7 - n
  {
    if n < 7 {
      PartAdmits(t, k, n);
      Admitted(Part(t, k, n), k, Chain(k)[n].1);
      InsertFirst(Part(t, k, n), Chain(k)[n..]);
      assert Chain(k)[n..][1..] == Chain(k)[n + 1..] && Chain(k)[n..][0] == Chain(k)[n];
      ChainInserts(t, k, n + 1);
    }
  }

  lemma AfterChain(k: nat, j: nat)
    requires j != k
    ensures AllSpare(Part(map[], k, 7), j)
  {
    var t := Part(map[], k, 7);
    PartIs(map[], k, 7);
    forall key | key in t ensures Spare(key, t[key], j) {
      var i :| 0 <= i < 7 && key == Key(TableOf(Chain(k)[i].1), k);
      assert t[key] == Chain(k)[i].1;
    }
  }

  lemma {:induction false} InsertBoth(t: Tables, a: seq<(nat, Row)>, b: seq<(nat, Row)>)
    ensures InsertAll(t, a + b) == InsertAll(InsertAll(t, a), b)
    decreases |a|
  {
    if a == [] {
      assert a + b == b;
    } else {
      assert (a + b)[1..] == a[1..] + b;
      InsertBoth(Insert(t, a[0].0, a[0].1), a[1..], b);
    }
  }

  lemma TwoChains()
    ensures InsertAll(map[], Chain(0) + Chain(1)) == Part(Part(map[], 0, 7), 1, 7)
  {
    var t := Part(map[], 0, 7);
    assert Chain(0)[0..] == Chain(0) && Chain(1)[0..] == Chain(1);
    assert AllSpare(map[], 0);
    ChainInserts(map[], 0, 0);
    AfterChain(0, 1);
    PartHas(map[], 0, 7, 0);
    ChainInserts(t, 1, 0);
    InsertBoth(map[], Chain(0), Chain(1));
  }

  // The rows of a chain, read back along its references.
  ghost predicate HasChain(t: Tables, k: nat)
  {
    && Key(Executions, k) in t && t[Key(Executions, k)] == Execution(k, k, EngageKillSwitch, EngageReceipt(k))
    && Key(Decisions, k) in t && t[Key(Decisions, k)] == Decision(k, EngageKillSwitch, Approved)
    && Key(Requests, k) in t && t[Key(Requests, k)] == Row.Request(k, k, 0, EngageKillSwitch)
    && Key(Recommendations, k) in t && t[Key(Recommendations, k)] == Recommendation(k, k)
    && Key(Promotions, k) in t && t[Key(Promotions, k)] == Promotion(k)
  }

  lemma PartHasChain(t: Tables, k: nat, n: nat)
    requires n == 7
    ensures HasChain(Part(t, k, n), k)
  {
    PartIs(t, k, n);
    var p := Part(t, k, n);
    assert Chain(k)[1].1 == p[Key(TableOf(Chain(k)[1].1), k)] && Chain(k)[2].1 == p[Key(TableOf(Chain(k)[2].1), k)];
    assert Chain(k)[3].1 == p[Key(TableOf(Chain(k)[3].1), k)] && Chain(k)[4].1 == p[Key(TableOf(Chain(k)[4].1), k)];
    assert Chain(k)[6].1 == p[Key(TableOf(Chain(k)[6].1), k)];
    PartHas(t, k, n, 1);
    PartHas(t, k, n, 2);
    PartHas(t, k, n, 3);
    PartHas(t, k, n, 4);
    PartHas(t, k, n, 6);
  }

  lemma PartKeepsChain(t: Tables, j: nat, k: nat, n: nat)
    requires n <= 7 && HasChain(t, j) && j != k
    ensures HasChain(Part(t, k, n), j)
  {
    PartIs(t, k, n);
  }

  lemma ChainReads(t: Tables, k: nat)
    requires Constrained(t) && HasChain(t, k)
    ensures Holds(t, Executions, k) && RequestOf(t, k) == k && EvaluationOf(t, k) == k
    ensures RepeatedEvaluation(t, k) == 0
  {
  }

  /** The evaluation named in the execution's request itself. */
  function RepeatedEvaluation(t: Tables, execution: nat): nat
    requires Constrained(t) && Holds(t, Executions, execution)
  {
    RowAt(t, Requests, RequestOf(t, execution)).evaluation
  }

  // Two engage executions that share the repeated column, though not the evaluation of their chains.
  ghost predicate SharesRepeated(t: Tables, a: nat, b: nat)
    requires Constrained(t)
  {
    && Holds(t, Executions, a) && Holds(t, Executions, b)
    && RepeatedEvaluation(t, a) == RepeatedEvaluation(t, b)
    && EvaluationOf(t, a) != EvaluationOf(t, b)
  }

  lemma BothChains(t: Tables)
    requires Constrained(t) && HasChain(t, 0) && HasChain(t, 1)
    ensures SharesRepeated(t, 0, 1)
  {
    ChainReads(t, 0);
    ChainReads(t, 1);
  }

  lemma TwoChainsKept(t: Tables, n: nat)
    requires n == 7 && t == Part(Part(map[], 0, n), 1, n)
    ensures HasChain(t, 0) && HasChain(t, 1)
  {
    PartHasChain(map[], 0, n);
    PartKeepsChain(Part(map[], 0, n), 0, 1, n);
    PartHasChain(Part(map[], 0, n), 1, n);
  }

  /** A reachable state with two engage executions whose requests name the same evaluation in the
      repeated column: only the chain of references keeps them apart. */
  lemma RepeatedEvaluationIsNotUnique() returns (rows: seq<(nat, Row)>)
    ensures Constrained(InsertAll(map[], rows)) && SharesRepeated(InsertAll(map[], rows), 0, 1)
  {
    rows := Chain(0) + Chain(1);
    InsertsKeepConstraints(map[], rows);
    TwoChains();
    TwoChainsKept(InsertAll(map[], rows), 7);
    BothChains(InsertAll(map[], rows));
  }
}
