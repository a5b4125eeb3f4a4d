/** The alerts table as a state machine: correlation by the workers, triage by analysts, and the
    uniqueness of (rule, key, status) (backend/app/services/alerts.py, backend/app/models/alert.py,
    backend/app/storage/repositories.py, backend/app/detection/correlation.py). */
module Alerts {
  import opened Text
  import opened Events
  import opened Correlation

  const HISTORY_CAP: nat := 25

  datatype AuditRecord = AuditRecord(targetId: nat, change: StatusChange)

  datatype Table = Table(rows: seq<AlertRow>, audit: seq<AuditRecord>, nextId: nat)

  const NO_ALERTS: Table := Table([], [], 0)

  // ---------------------------------------------------------------- queries and the constraint

  predicate SameKey(a: AlertRow, ruleId: string, key: string) {
    a.ruleId == ruleId && a.correlationKey == key
  }

  /** The row a query for a key's active alert returns. */
  function FirstActive(rows: seq<AlertRow>, ruleId: string, key: string): (r: Option<nat>)
    ensures r.Some? ==> r.value < |rows| && SameKey(rows[r.value], ruleId, key) && rows[r.value].status.IsActive()
    ensures r.None? ==> forall i :: 0 <= i < |rows| && SameKey(rows[i], ruleId, key) ==> !rows[i].status.IsActive()
  {
    if rows == [] then None
    else
      var before, last := FirstActive(rows[..|rows| - 1], ruleId, key), rows[|rows| - 1];
      if before.Some? then before
      else if SameKey(last, ruleId, key) && last.status.IsActive() then Some(|rows| - 1) else None
  }

  function FindId(rows: seq<AlertRow>, id: nat): (r: Option<nat>)
    ensures r.Some? ==> r.value < |rows| && rows[r.value].alertId == id
    ensures r.None? ==> forall i :: 0 <= i < |rows| ==> rows[i].alertId != id
  {
    if rows == [] then None
    else
      var before := FindId(rows[..|rows| - 1], id);
      if before.Some? then before
      else if rows[|rows| - 1].alertId == id then Some(|rows| - 1) else None
  }

  /** Some row other than number `except` already has this key and status. */
  predicate Taken(rows: seq<AlertRow>, ruleId: string, key: string, status: AlertStatus, except: nat) {
    exists i :: 0 <= i < |rows| && i != except && SameKey(rows[i], ruleId, key) && rows[i].status == status
  }

  // ---------------------------------------------------------------- triage

  function AllowedFrom(from: AlertStatus): set<AlertStatus> {
    match from
    case Open => {Acknowledged, Investigating, Resolved, FalsePositive}
    case Acknowledged => {Investigating, Resolved, FalsePositive, Open}
    case Investigating => {Acknowledged, Resolved, FalsePositive, Open}
    case Resolved => {Open}
    case FalsePositive => {Open}
  }

  function HistoryOf(a: AlertRow): seq<StatusChange> {
    if "status_history" in a.metadata && a.metadata["status_history"].History?
    then a.metadata["status_history"].changes else []
  }

  function Move(a: AlertRow, to: AlertStatus, actor: string): AlertRow {
    var history := HistoryOf(a) + [StatusChange(a.status, to, actor)];
    a.(status := to, metadata := a.metadata["status_history" := History(Last(history, HISTORY_CAP))])
  }

  datatype TriageResult = NotFound | Unchanged | Invalid | Conflict | Changed

  /** How a request to change an alert's status ends; Conflict is the database refusing the commit. */
  function TriageOutcome(t: Table, id: nat, to: AlertStatus): TriageResult {
    var found := FindId(t.rows, id);
    if found.None? then NotFound
    else
      var i, a := found.value, t.rows[found.value];
      if a.status == to then Unchanged
      else if to !in AllowedFrom(a.status) then Invalid
      else if Taken(t.rows, a.ruleId, a.correlationKey, to, i) then Conflict
      else Changed
  }

  /** The workflow: an active alert may go to any other status, a closed one only back to open. */
  lemma {:induction false} LegalMoves(from: AlertStatus, to: AlertStatus)
    ensures to in AllowedFrom(from) <==> from != to && (from in {Open, Acknowledged, Investigating} || to == Open)
  {
  }

  /** How a request about alert i ends: unchanged exactly when it has the status, invalid exactly when it is
      closed and not to be re-opened, refused exactly when another alert of its key has the status. */
  lemma {:induction false} OutcomeOf(t: Table, i: nat, id: nat, to: AlertStatus)
    requires i < |t.rows| && t.rows[i].alertId == id && forall j :: 0 <= j < i ==> t.rows[j].alertId != id
    ensures var a := t.rows[i];
      TriageOutcome(t, id, to) ==
      if a.status == to then Unchanged
      else if a.status in {Resolved, FalsePositive} && to != Open then Invalid
      else if exists k :: 0 <= k < |t.rows| && k != i && t.rows[k].ruleId == a.ruleId
                          && t.rows[k].correlationKey == a.correlationKey && t.rows[k].status == to
      then Conflict else Changed
  {
    FindFirst(t.rows, i, id);
    if t.rows[i].status != to { LegalMoves(t.rows[i].status, to); }
  }

  /** ... and about no alert: not found. */
  lemma {:induction false} NotFoundIff(t: Table, id: nat, to: AlertStatus)
    ensures TriageOutcome(t, id, to) == NotFound <==> forall i :: 0 <= i < |t.rows| ==> t.rows[i].alertId != id
  {
  }

  // ---------------------------------------------------------------- steps

  datatype Step =
    | Apply(d: Detection)                          // one atomic correlation
    | StaleInsert(d: Detection)                    // an insert decided on an outdated "no active alert"
    | StaleFold(d: Detection, i: nat)              // a fold into whichever row of the key was read
    | Triage(id: nat, to: AlertStatus, actor: string)

  function InsertAlert(t: Table, d: Detection): Table {
    t.(rows := t.rows + [Create(t.nextId, d)], nextId := t.nextId + 1)
  }

  function FoldAt(t: Table, i: nat, d: Detection): Table
    requires i < |t.rows|
  {
    t.(rows := t.rows[i := Fold(t.rows[i], d)])
  }

  function Correlated(t: Table, d: Detection): Table {
    match FirstActive(t.rows, d.ruleId, d.correlationKey)
    case None => InsertAlert(t, d)
    case Some(i) => FoldAt(t, i, d)
  }

  function Triaged(t: Table, id: nat, to: AlertStatus, actor: string): Table {
    if TriageOutcome(t, id, to) != Changed then t
    else
      var i := FindId(t.rows, id).value;
      t.(rows := t.rows[i := Move(t.rows[i], to, actor)],
         audit := t.audit + [AuditRecord(id, StatusChange(t.rows[i].status, to, actor))])
  }

  function Next(t: Table, s: Step): Table {
    match s
    case Apply(d) => Correlated(t, d)
    case StaleInsert(d) =>
      if Taken(t.rows, d.ruleId, d.correlationKey, Open, |t.rows|) then t else InsertAlert(t, d)
    case StaleFold(d, i) =>
      if i < |t.rows| && SameKey(t.rows[i], d.ruleId, d.correlationKey) then FoldAt(t, i, d) else t
    case Triage(id, to, actor) => Triaged(t, id, to, actor)
  }

  function RunSteps(t: Table, steps: seq<Step>): Table {
    if steps == [] then t else Next(RunSteps(t, steps[..|steps| - 1]), steps[|steps| - 1])
  }

  /** A change gives alert i the status asked for and its history in the metadata, adds an audit record with the
      status before and after, and leaves everything else. */
  lemma {:induction false} WhatChanges(t: Table, i: nat, id: nat, to: AlertStatus, actor: string)
    requires i < |t.rows| && t.rows[i].alertId == id && forall j :: 0 <= j < i ==> t.rows[j].alertId != id
    ensures var t' := Triaged(t, id, to, actor);
      TriageOutcome(t, id, to) == Changed ==>
        var metadata := t.rows[i].metadata["status_history" := History(HistoryOf(t'.rows[i]))];
        t' == t.(rows := t.rows[i := t.rows[i].(status := to, metadata := metadata)],
                 audit := t.audit + [AuditRecord(id, StatusChange(t.rows[i].status, to, actor))])
  {
    FindFirst(t.rows, i, id);
  }

  // ---------------------------------------------------------------- at most one alert per (rule, key, status)

  ghost predicate Unique(rows: seq<AlertRow>) {
    forall i, j :: 0 <= i < j < |rows| && SameKey(rows[i], rows[j].ruleId, rows[j].correlationKey) ==>
      rows[i].status != rows[j].status
  }

  lemma {:induction false} FoldKeepsKey(a: AlertRow, d: Detection)
    ensures Fold(a, d).ruleId == a.ruleId && Fold(a, d).correlationKey == a.correlationKey
    ensures Fold(a, d).status == a.status && Fold(a, d).alertId == a.alertId
  {
  }

  lemma {:induction false} NextUnique(t: Table, s: Step)
    requires Unique(t.rows)
    ensures Unique(Next(t, s).rows)
  {
    match s
    case Apply(d) =>
      var found := FirstActive(t.rows, d.ruleId, d.correlationKey);
      if found.Some? { FoldKeepsKey(t.rows[found.value], d); }
    case StaleInsert(d) =>
    case StaleFold(d, i) =>
      if i < |t.rows| { FoldKeepsKey(t.rows[i], d); }
    case Triage(id, to, actor) =>
  }

  /** Whatever workers and analysts do, stale reads and re-opens included. */
  lemma {:induction false} AlwaysUnique(steps: seq<Step>)
    ensures Unique(RunSteps(NO_ALERTS, steps).rows)
  {
    if steps != [] {
      AlwaysUnique(steps[..|steps| - 1]);
      NextUnique(RunSteps(NO_ALERTS, steps[..|steps| - 1]), steps[|steps| - 1]);
    }
  }

  /** The number of a key's alerts whose status is in a set. */
  function CountIn(rows: seq<AlertRow>, ruleId: string, key: string, statuses: set<AlertStatus>): nat {
    if rows == [] then 0
    else
      var last := rows[|rows| - 1];
      CountIn(rows[..|rows| - 1], ruleId, key, statuses) +
      if SameKey(last, ruleId, key) && last.status in statuses then 1 else 0
  }

  lemma {:induction false} CountZero(rows: seq<AlertRow>, ruleId: string, key: string, statuses: set<AlertStatus>)
    requires forall i :: 0 <= i < |rows| && SameKey(rows[i], ruleId, key) ==> rows[i].status !in statuses
    ensures CountIn(rows, ruleId, key, statuses) == 0
  {
    if rows != [] { CountZero(rows[..|rows| - 1], ruleId, key, statuses); }
  }

  /** No two of a key's alerts have statuses in the set: then there is at most one. */
  lemma {:induction false} CountOne(rows: seq<AlertRow>, ruleId: string, key: string, statuses: set<AlertStatus>)
    requires forall i, j :: 0 <= i < j < |rows| && SameKey(rows[i], ruleId, key) && SameKey(rows[j], ruleId, key) ==>
      !(rows[i].status in statuses && rows[j].status in statuses)
    ensures CountIn(rows, ruleId, key, statuses) <= 1
  {
    if rows != [] {
      var front, last := rows[..|rows| - 1], rows[|rows| - 1];
      if SameKey(last, ruleId, key) && last.status in statuses {
        assert rows[|front|] == last;
        CountZero(front, ruleId, key, statuses);
      } else {
        CountOne(front, ruleId, key, statuses);
      }
    }
  }

  lemma {:induction false} CountSplit(rows: seq<AlertRow>, ruleId: string, key: string,
                                      s: set<AlertStatus>, s': set<AlertStatus>)
    requires s !! s'
    ensures CountIn(rows, ruleId, key, s + s') == CountIn(rows, ruleId, key, s) + CountIn(rows, ruleId, key, s')
  {
    if rows != [] { CountSplit(rows[..|rows| - 1], ruleId, key, s, s'); }
  }

  const ACTIVE: set<AlertStatus> := {Open, Acknowledged, Investigating}
  const EVERY: set<AlertStatus> := {Open, Acknowledged, Investigating, Resolved, FalsePositive}

  /** Hence at most five alerts per key, ever. */
  lemma {:induction false} AtMostFive(steps: seq<Step>, ruleId: string, key: string)
    ensures CountIn(RunSteps(NO_ALERTS, steps).rows, ruleId, key, EVERY) <= 5
  {
    var rows := RunSteps(NO_ALERTS, steps).rows;
    AlwaysUnique(steps);
    CountOne(rows, ruleId, key, {Open});
    CountOne(rows, ruleId, key, {Acknowledged});
    CountOne(rows, ruleId, key, {Investigating});
    CountOne(rows, ruleId, key, {Resolved});
    CountOne(rows, ruleId, key, {FalsePositive});
    CountSplit(rows, ruleId, key, {Open}, {Acknowledged});
    CountSplit(rows, ruleId, key, {Open} + {Acknowledged}, {Investigating});
    CountSplit(rows, ruleId, key, {Open} + {Acknowledged} + {Investigating}, {Resolved});
    CountSplit(rows, ruleId, key, {Open} + {Acknowledged} + {Investigating} + {Resolved}, {FalsePositive});
    assert EVERY == {Open} + {Acknowledged} + {Investigating} + {Resolved} + {FalsePositive};
  }

  // ---------------------------------------------------------------- at most one active alert per key

  ghost predicate OneActive(rows: seq<AlertRow>) {
    forall i, j :: 0 <= i < j < |rows| && SameKey(rows[i], rows[j].ruleId, rows[j].correlationKey) ==>
      !(rows[i].status.IsActive() && rows[j].status.IsActive())
  }

  predicate Reopens(t: Table, s: Step) {
    s.Triage? && TriageOutcome(t, s.id, s.to) == Changed && !t.rows[FindId(t.rows, s.id).value].status.IsActive()
  }

  /** Another alert of the key is being acknowledged or investigated. */
  predicate InHand(rows: seq<AlertRow>, ruleId: string, key: string, except: nat) {
    Taken(rows, ruleId, key, Acknowledged, except) || Taken(rows, ruleId, key, Investigating, except)
  }

  /** The table accepts a re-open, or an insert decided on a read gone stale, while another alert of the
      key is in hand. */
  predicate Doubles(t: Table, s: Step) {
    match s
    case Apply(_) => false
    case StaleFold(_, _) => false
    case StaleInsert(d) =>
      !Taken(t.rows, d.ruleId, d.correlationKey, Open, |t.rows|) && InHand(t.rows, d.ruleId, d.correlationKey, |t.rows|)
    case Triage(id, _, _) =>
      Reopens(t, s) &&
      var i := FindId(t.rows, id).value;
      InHand(t.rows, t.rows[i].ruleId, t.rows[i].correlationKey, i)
  }

  lemma {:induction false} ApplyOneActive(t: Table, d: Detection)
    requires OneActive(t.rows)
    ensures OneActive(Correlated(t, d).rows)
  {
    var found := FirstActive(t.rows, d.ruleId, d.correlationKey);
    if found.Some? { FoldKeepsKey(t.rows[found.value], d); }
  }

  /** Alert i becomes open or is added as such: one active alert is left exactly when the key has no
      other in hand. */
  lemma {:induction false} OpenedOneActive(rows: seq<AlertRow>, rows': seq<AlertRow>, i: nat)
    requires OneActive(rows) && i < |rows'| && rows'[i].status == Open && |rows| <= |rows'| <= |rows| + 1
    requires |rows'| == |rows| + 1 ==> i == |rows|
    requires forall j :: 0 <= j < |rows| && j != i ==> rows'[j] == rows[j]
    requires !Taken(rows, rows'[i].ruleId, rows'[i].correlationKey, Open, i)
    ensures OneActive(rows') <==> !InHand(rows, rows'[i].ruleId, rows'[i].correlationKey, i)
  {
    var a := rows'[i];
    if k :| 0 <= k < |rows| && k != i && SameKey(rows[k], a.ruleId, a.correlationKey) && rows[k].status.IsActive() {
      assert rows'[k] == rows[k] && rows[k].status != Open;
      assert if k < i then SameKey(rows'[k], rows'[i].ruleId, rows'[i].correlationKey)
             else SameKey(rows'[i], rows'[k].ruleId, rows'[k].correlationKey);
    }
  }

  /** Whatever the step, one active alert per key is kept exactly when the step does not double one. */
  lemma {:induction false} OneActiveIff(t: Table, s: Step)
    requires OneActive(t.rows)
    ensures OneActive(Next(t, s).rows) <==> !Doubles(t, s)
  {
    match s
    case Apply(d) => ApplyOneActive(t, d);
    case StaleFold(d, i) => if i < |t.rows| { FoldKeepsKey(t.rows[i], d); }
    case StaleInsert(d) =>
      if !Taken(t.rows, d.ruleId, d.correlationKey, Open, |t.rows|) { OpenedOneActive(t.rows, Next(t, s).rows, |t.rows|); }
    case Triage(id, to, actor) =>
      if Reopens(t, s) {
        var i := FindId(t.rows, id).value;
        MoveKeeps(t.rows[i], to, actor);
        OpenedOneActive(t.rows, Next(t, s).rows, i);
      } else if TriageOutcome(t, id, to) == Changed {
        MoveKeeps(t.rows[FindId(t.rows, id).value], to, actor);
      }
  }

  /** No step of the run doubles an active alert. */
  predicate NeverDoubles(t: Table, steps: seq<Step>) {
    steps != [] ==>
      NeverDoubles(t, steps[..|steps| - 1]) && !Doubles(RunSteps(t, steps[..|steps| - 1]), steps[|steps| - 1])
  }

  /** After every step of the run each key has at most one active alert. */
  ghost predicate AlwaysOneActive(t: Table, steps: seq<Step>) {
    OneActive(RunSteps(t, steps).rows) && (steps != [] ==> AlwaysOneActive(t, steps[..|steps| - 1]))
  }

  /** A run keeps one active alert per key throughout exactly when no step of it doubles one. */
  lemma {:induction false} AlwaysOneActiveIff(steps: seq<Step>)
    ensures AlwaysOneActive(NO_ALERTS, steps) <==> NeverDoubles(NO_ALERTS, steps)
  {
    if steps != [] {
      var front := steps[..|steps| - 1];
      AlwaysOneActiveIff(front);
      if AlwaysOneActive(NO_ALERTS, front) { OneActiveIff(RunSteps(NO_ALERTS, front), steps[|steps| - 1]); }
    }
  }

  lemma {:induction false} CountThree(rows: seq<AlertRow>, ruleId: string, key: string)
    requires Unique(rows)
    ensures CountIn(rows, ruleId, key, EVERY) <= CountIn(rows, ruleId, key, ACTIVE) + 2
  {
    CountOne(rows, ruleId, key, {Resolved});
    CountOne(rows, ruleId, key, {FalsePositive});
    CountSplit(rows, ruleId, key, ACTIVE, {Resolved});
    CountSplit(rows, ruleId, key, ACTIVE + {Resolved}, {FalsePositive});
    assert EVERY == ACTIVE + {Resolved} + {FalsePositive};
  }

  /** Then a key never has more than one active alert, nor more than three in all: one active, one
      resolved, one false positive. */
  lemma {:induction false} AtMostThree(steps: seq<Step>, ruleId: string, key: string)
    requires NeverDoubles(NO_ALERTS, steps)
    ensures CountIn(RunSteps(NO_ALERTS, steps).rows, ruleId, key, ACTIVE) <= 1
    ensures CountIn(RunSteps(NO_ALERTS, steps).rows, ruleId, key, EVERY) <= 3
  {
    AlwaysOneActiveIff(steps);
    AlwaysUnique(steps);
    CountOne(RunSteps(NO_ALERTS, steps).rows, ruleId, key, ACTIVE);
    CountThree(RunSteps(NO_ALERTS, steps).rows, ruleId, key);
  }

  /** A re-open that the table accepts breaks "one active alert per key" exactly when another alert of
      the key is being acknowledged or investigated. */
  lemma {:induction false} ReopenBreaksIff(t: Table, s: Step)
    requires OneActive(t.rows) && Reopens(t, s)
    ensures var i := FindId(t.rows, s.id).value;
      OneActive(Next(t, s).rows) <==> !InHand(t.rows, t.rows[i].ruleId, t.rows[i].correlationKey, i)
  {
    OneActiveIff(t, s);
  }

  lemma {:induction false} RunOne(t: Table, steps: seq<Step>, s: Step)
    ensures RunSteps(t, []) == t && RunSteps(t, steps + [s]) == Next(RunSteps(t, steps), s)
  {
    assert (steps + [s])[..|steps|] == steps;
  }

  /** An alert, as far as the key and its status go. */
  predicate Stands(a: AlertRow, id: nat, d: Detection, status: AlertStatus) {
    a.alertId == id && a.status == status && SameKey(a, d.ruleId, d.correlationKey)
  }

  lemma {:induction false} FirstOfKey(d: Detection)
    ensures var t := Next(NO_ALERTS, Apply(d)); |t.rows| == 1 && t.nextId == 1 && Stands(t.rows[0], 0, d, Open)
  {
  }

  /** A legal request on row i is carried out, unless another row of the key has that status. */
  lemma {:induction false} TriageAt(t: Table, i: nat, id: nat, d: Detection, from: AlertStatus, to: AlertStatus)
    requires i < |t.rows| && Stands(t.rows[i], id, d, from) && forall j :: 0 <= j < i ==> t.rows[j].alertId != id
    requires from != to && to in AllowedFrom(from)
    ensures var t' := Next(t, Triage(id, to, "analyst"));
      if Taken(t.rows, d.ruleId, d.correlationKey, to, i) then TriageOutcome(t, id, to) == Conflict && t' == t
      else
        && |t'.rows| == |t.rows| && t'.nextId == t.nextId && Stands(t'.rows[i], id, d, to)
        && forall j :: 0 <= j < |t.rows| && j != i ==> t'.rows[j] == t.rows[j]
  {
    FindFirst(t.rows, i, id);
    MoveKeeps(t.rows[i], to, "analyst");
  }

  lemma {:induction false} MoveKeeps(a: AlertRow, to: AlertStatus, actor: string)
    ensures var b := Move(a, to, actor);
      b.alertId == a.alertId && b.status == to && b.ruleId == a.ruleId && b.correlationKey == a.correlationKey
  {
  }

  lemma {:induction false} FindFirst(rows: seq<AlertRow>, i: nat, id: nat)
    requires i < |rows| && rows[i].alertId == id && forall j :: 0 <= j < i ==> rows[j].alertId != id
    ensures FindId(rows, id) == Some(i)
  {
    if i < |rows| - 1 { FindFirst(rows[..|rows| - 1], i, id); }
  }

  /** The table after a key's first alert is resolved and the key fires again. */
  lemma {:induction false} ResolvedThenFresh(d: Detection) returns (t: Table)
    ensures t == RunSteps(NO_ALERTS, [Apply(d), Triage(0, Resolved, "analyst"), Apply(d)])
    ensures |t.rows| == 2 && Stands(t.rows[0], 0, d, Resolved) && Stands(t.rows[1], 1, d, Open)
  {
    var s1, s2 := Apply(d), Triage(0, Resolved, "analyst");
    RunOne(NO_ALERTS, [], s1);
    RunOne(NO_ALERTS, [s1], s2);
    RunOne(NO_ALERTS, [s1, s2], s1);
    assert [] + [s1] == [s1] && [s1] + [s2] == [s1, s2] && [s1, s2] + [s1] == [s1, s2, s1];
    FirstOfKey(d);
    TriageAt(Next(NO_ALERTS, s1), 0, 0, d, Open, Resolved);
    var t2 := Next(Next(NO_ALERTS, s1), s2);
    assert FirstActive(t2.rows, d.ruleId, d.correlationKey).None?;
    t := InsertAlert(t2, d);
  }

  /** The escape, as a run: an alert is resolved, its key fires again, the new alert is acknowledged,
      and the old one is re-opened. The key now has two active alerts. */
  lemma {:induction false} ReopenYieldsTwoActive(d: Detection)
    ensures var steps := [Apply(d), Triage(0, Resolved, "analyst"), Apply(d),
                          Triage(1, Acknowledged, "analyst"), Triage(0, Open, "analyst")];
      !OneActive(RunSteps(NO_ALERTS, steps).rows)
  {
    var s1, s2, s4, s5 := Apply(d), Triage(0, Resolved, "analyst"), Triage(1, Acknowledged, "analyst"), Triage(0, Open, "analyst");
    var t3 := ResolvedThenFresh(d);
    RunOne(NO_ALERTS, [s1, s2, s1], s4);
    RunOne(NO_ALERTS, [s1, s2, s1, s4], s5);
    assert [s1, s2, s1] + [s4] == [s1, s2, s1, s4] && [s1, s2, s1, s4] + [s5] == [s1, s2, s1, s4, s5];
    AcknowledgeAndReopen(t3, d);
  }

  lemma {:induction false} AcknowledgeAndReopen(t: Table, d: Detection)
    requires |t.rows| == 2 && Stands(t.rows[0], 0, d, Resolved) && Stands(t.rows[1], 1, d, Open)
    ensures !OneActive(Next(Next(t, Triage(1, Acknowledged, "analyst")), Triage(0, Open, "analyst")).rows)
  {
    TriageAt(t, 1, 1, d, Open, Acknowledged);
    var t' := Next(t, Triage(1, Acknowledged, "analyst"));
    TriageAt(t', 0, 0, d, Resolved, Open);
    var rows := Next(t', Triage(0, Open, "analyst")).rows;
    assert SameKey(rows[0], rows[1].ruleId, rows[1].correlationKey);
  }

  /** The other escape: an alert is acknowledged while another worker, having read before it was created,
      inserts one of its own. */
  lemma {:induction false} StaleInsertYieldsTwoActive(d: Detection)
    ensures var steps := [Apply(d), Triage(0, Acknowledged, "analyst"), StaleInsert(d)];
      !OneActive(RunSteps(NO_ALERTS, steps).rows)
  {
    var s1, s2, s3 := Apply(d), Triage(0, Acknowledged, "analyst"), StaleInsert(d);
    RunOne(NO_ALERTS, [], s1);
    RunOne(NO_ALERTS, [s1], s2);
    RunOne(NO_ALERTS, [s1, s2], s3);
    assert [] + [s1] == [s1] && [s1] + [s2] == [s1, s2] && [s1, s2] + [s3] == [s1, s2, s3];
    FirstOfKey(d);
    TriageAt(Next(NO_ALERTS, s1), 0, 0, d, Open, Acknowledged);
    var t := Next(Next(NO_ALERTS, s1), s2);
    var rows := Next(t, s3).rows;
    assert |rows| == 2 && Stands(rows[0], 0, d, Acknowledged) && SameKey(rows[0], rows[1].ruleId, rows[1].correlationKey);
  }

  /** A key's second alert cannot be resolved while its first one stays resolved: the commit violates
      the constraint and nothing changes. */
  lemma {:induction false} SecondResolutionRefused(d: Detection)
    ensures var t := RunSteps(NO_ALERTS, [Apply(d), Triage(0, Resolved, "analyst"), Apply(d)]);
      TriageOutcome(t, 1, Resolved) == Conflict && Next(t, Triage(1, Resolved, "analyst")) == t
  {
    var t := ResolvedThenFresh(d);
    assert SameKey(t.rows[0], d.ruleId, d.correlationKey);
    TriageAt(t, 1, 1, d, Open, Resolved);
  }

  // ---------------------------------------------------------------- status history and audit trail

  /** The audit records about one alert, in order. */
  function AuditOf(audit: seq<AuditRecord>, id: nat): seq<StatusChange> {
    if audit == [] then []
    else
      var before, last := AuditOf(audit[..|audit| - 1], id), audit[|audit| - 1];
      if last.targetId == id then before + [last.change] else before
  }

  /** A chain of legal changes that leads from Open to a status. */
  ghost predicate Chain(changes: seq<StatusChange>, status: AlertStatus) {
    && (forall k :: 0 <= k < |changes| ==> changes[k].to in AllowedFrom(changes[k].from))
    && (forall k :: 0 < k < |changes| ==> changes[k].from == changes[k - 1].to)
    && (changes == [] ==> status == Open)
    && (changes != [] ==> changes[0].from == Open && changes[|changes| - 1].to == status)
  }

  ghost predicate Recorded(a: AlertRow, audit: seq<AuditRecord>) {
    HistoryOf(a) == Last(AuditOf(audit, a.alertId), 25) && Chain(AuditOf(audit, a.alertId), a.status)
  }

  ghost predicate Ledger(t: Table) {
    && (forall i, j :: 0 <= i < j < |t.rows| ==> t.rows[i].alertId != t.rows[j].alertId)
    && (forall i :: 0 <= i < |t.rows| ==> t.rows[i].alertId < t.nextId)
    && (forall k :: 0 <= k < |t.audit| ==> t.audit[k].targetId < t.nextId)
    && (forall i :: 0 <= i < |t.rows| ==> Recorded(t.rows[i], t.audit))
  }

  /** Detections that leave the alert's status history alone. */
  predicate Discreet(s: Step) {
    s.Triage? || "status_history" !in s.d.metadata
  }

  lemma {:induction false} NoAuditYet(audit: seq<AuditRecord>, id: nat)
    requires forall k :: 0 <= k < |audit| ==> audit[k].targetId != id
    ensures AuditOf(audit, id) == []
  {
    if audit != [] { NoAuditYet(audit[..|audit| - 1], id); }
  }

  lemma {:induction false} AuditAppend(audit: seq<AuditRecord>, r: AuditRecord, id: nat)
    ensures AuditOf(audit + [r], id) == if r.targetId == id then AuditOf(audit, id) + [r.change] else AuditOf(audit, id)
  {
    assert (audit + [r])[..|audit|] == audit;
  }

  lemma {:induction false} FoldRecorded(a: AlertRow, d: Detection, audit: seq<AuditRecord>)
    requires Recorded(a, audit) && "status_history" !in d.metadata
    ensures Recorded(Fold(a, d), audit)
  {
    FoldKeepsKey(a, d);
    assert Fold(a, d).metadata == a.metadata + d.metadata;
  }

  lemma {:induction false} MoveRecorded(a: AlertRow, to: AlertStatus, actor: string, audit: seq<AuditRecord>)
    requires Recorded(a, audit) && to in AllowedFrom(a.status)
    ensures Recorded(Move(a, to, actor), audit + [AuditRecord(a.alertId, StatusChange(a.status, to, actor))])
  {
    var c := StatusChange(a.status, to, actor);
    var trail := AuditOf(audit, a.alertId);
    AuditAppend(audit, AuditRecord(a.alertId, c), a.alertId);
    LastAppend(trail, c, HISTORY_CAP);
    HistoryOfMove(a, to, actor);
    assert Chain(trail + [c], to);
  }

  lemma {:induction false} HistoryOfMove(a: AlertRow, to: AlertStatus, actor: string)
    ensures HistoryOf(Move(a, to, actor)) == Last(HistoryOf(a) + [StatusChange(a.status, to, actor)], HISTORY_CAP)
    ensures Move(a, to, actor).alertId == a.alertId && Move(a, to, actor).status == to
  {
  }

  lemma {:induction false} InsertLedger(t: Table, d: Detection)
    requires Ledger(t) && "status_history" !in d.metadata
    ensures Ledger(InsertAlert(t, d))
  {
    NoAuditYet(t.audit, t.nextId);
    assert HistoryOf(Create(t.nextId, d)) == [];
  }

  lemma {:induction false} FoldLedger(t: Table, i: nat, d: Detection)
    requires Ledger(t) && i < |t.rows| && "status_history" !in d.metadata
    ensures Ledger(FoldAt(t, i, d))
  {
    FoldKeepsKey(t.rows[i], d);
    FoldRecorded(t.rows[i], d, t.audit);
  }

  /** A record about alert i leaves the other alerts' records as they were. */
  lemma {:induction false} OthersRecorded(t: Table, i: nat, r: AuditRecord)
    requires Ledger(t) && i < |t.rows| && r.targetId == t.rows[i].alertId
    ensures forall j :: 0 <= j < |t.rows| && j != i ==> Recorded(t.rows[j], t.audit + [r])
  {
    forall j | 0 <= j < |t.rows| && j != i ensures Recorded(t.rows[j], t.audit + [r]) {
      assert t.rows[j].alertId != r.targetId;
      AuditAppend(t.audit, r, t.rows[j].alertId);
    }
  }

  lemma {:induction false} TriageLedger(t: Table, id: nat, to: AlertStatus, actor: string)
    requires Ledger(t)
    ensures Ledger(Next(t, Triage(id, to, actor)))
  {
    if TriageOutcome(t, id, to) == Changed {
      var i := FindId(t.rows, id).value;
      MoveRecorded(t.rows[i], to, actor, t.audit);
      MoveKeeps(t.rows[i], to, actor);
      OthersRecorded(t, i, AuditRecord(id, StatusChange(t.rows[i].status, to, actor)));
    }
  }

  lemma {:induction false} NextLedger(t: Table, s: Step)
    requires Ledger(t) && Discreet(s)
    ensures Ledger(Next(t, s))
  {
    match s
    case Apply(d) =>
      var found := FirstActive(t.rows, d.ruleId, d.correlationKey);
      if found.Some? { FoldLedger(t, found.value, d); } else { InsertLedger(t, d); }
    case StaleInsert(d) => InsertLedger(t, d);
    case StaleFold(d, i) => if i < |t.rows| { FoldLedger(t, i, d); }
    case Triage(id, to, actor) => TriageLedger(t, id, to, actor);
  }

  /** Over any interleaving of correlation and triage, every alert's status history is exactly the last
      25 of its audit records; all its records form one chain of legal changes from Open to the status
      it has now. */
  lemma {:induction false} HistoryIsAuditTail(steps: seq<Step>)
    requires forall s :: s in steps ==> Discreet(s)
    ensures var t := RunSteps(NO_ALERTS, steps);
      Ledger(t) && forall a :: a in t.rows ==> Recorded(a, t.audit)
  {
    if steps != [] {
      var front, last := steps[..|steps| - 1], steps[|steps| - 1];
      assert last in steps && forall s :: s in front ==> s in steps;
      HistoryIsAuditTail(front);
      NextLedger(RunSteps(NO_ALERTS, front), last);
    }
  }

  /** A request that changes nothing, or is refused, leaves no trace. */
  lemma {:induction false} OnlyChangesAreRecorded(t: Table, id: nat, to: AlertStatus, actor: string)
    ensures var t' := Next(t, Triage(id, to, actor));
      if TriageOutcome(t, id, to) == Changed then |t'.audit| == |t.audit| + 1 && t'.rows != t.rows else t' == t
  {
    if TriageOutcome(t, id, to) == Changed {
      var i := FindId(t.rows, id).value;
      assert Next(t, Triage(id, to, actor)).rows[i].status == to;
    }
  }

  predicate ChangesStatus(t: Table, s: Step) {
    s.Triage? && TriageOutcome(t, s.id, s.to) == Changed
  }

  function Changes(t: Table, steps: seq<Step>): nat {
    if steps == [] then 0
    else
      var front := steps[..|steps| - 1];
      Changes(t, front) + if ChangesStatus(RunSteps(t, front), steps[|steps| - 1]) then 1 else 0
  }

  /** The audit trail holds one record for each request that changed a status, and nothing else. */
  lemma {:induction false} AuditIsChanges(steps: seq<Step>)
    ensures |RunSteps(NO_ALERTS, steps).audit| == Changes(NO_ALERTS, steps)
  {
    if steps != [] {
      var front, s := steps[..|steps| - 1], steps[|steps| - 1];
      AuditIsChanges(front);
      if s.Triage? { OnlyChangesAreRecorded(RunSteps(NO_ALERTS, front), s.id, s.to, s.actor); }
    }
  }

  // ---------------------------------------------------------------- alerts only grow

  /** The same alert, later: no score lower, nothing of its origin changed. */
  predicate Grown(a: AlertRow, b: AlertRow) {
    && b.alertId == a.alertId && b.ruleId == a.ruleId && b.correlationKey == a.correlationKey
    && b.firstSeen == a.firstSeen && b.sourceIp == a.sourceIp && b.affectedHost == a.affectedHost
    && b.eventCount >= a.eventCount && b.confidence >= a.confidence && b.severity.Rank() >= a.severity.Rank()
    && (a.anomalyScore.Some? ==> b.anomalyScore.Some? && b.anomalyScore.value >= a.anomalyScore.value)
  }

  ghost predicate AllGrown(before: seq<AlertRow>, after: seq<AlertRow>) {
    |before| <= |after| && forall i :: 0 <= i < |before| ==> Grown(before[i], after[i])
  }

  lemma {:induction false} NextGrows(t: Table, s: Step)
    ensures AllGrown(t.rows, Next(t, s).rows)
  {
    match s
    case Apply(d) =>
      var found := FirstActive(t.rows, d.ruleId, d.correlationKey);
      if found.Some? { FoldGrows(t.rows[found.value], d); }
    case StaleInsert(d) =>
    case StaleFold(d, i) => if i < |t.rows| { FoldGrows(t.rows[i], d); }
    case Triage(id, to, actor) =>
  }

  /** Over any run, triage and stale reads included, no alert disappears, loses its origin or goes down in
      event count, severity, confidence or anomaly score. */
  lemma {:induction false} AlertsOnlyGrow(t: Table, steps: seq<Step>)
    ensures AllGrown(t.rows, RunSteps(t, steps).rows)
  {
    if steps != [] {
      var before := RunSteps(t, steps[..|steps| - 1]);
      AlertsOnlyGrow(t, steps[..|steps| - 1]);
      NextGrows(before, steps[|steps| - 1]);
      forall i | 0 <= i < |t.rows| ensures Grown(t.rows[i], RunSteps(t, steps).rows[i]) {
        assert Grown(t.rows[i], before.rows[i]) && Grown(before.rows[i], RunSteps(t, steps).rows[i]);
      }
    }
  }

  // ---------------------------------------------------------------- the table as the services use it

  class AlertStore {
    var rows: seq<Alert>
    var audit: seq<AuditRecord>
    var nextId: nat
    ghost var contents: seq<AlertRow>

    constructor ()
      ensures Valid() && State() == NO_ALERTS && rows == []
    {
      rows, audit, nextId, contents := [], [], 0, [];
    }

    ghost predicate Valid()
      reads this, rows
    {
      && |contents| == |rows|
      && (forall i :: 0 <= i < |rows| ==> contents[i] == rows[i].Row())
      && forall i, j :: 0 <= i < j < |rows| ==> rows[i] != rows[j]
    }

    ghost function State(): Table
      reads this
    {
      Table(contents, audit, nextId)
    }

    /** The active alert of a key, if there is one. */
    method GetOpenByKey(ruleId: string, key: string) returns (found: Option<nat>)
      requires Valid()
      ensures found == FirstActive(contents, ruleId, key)
    {
      found := None;
      for i := 0 to |rows|
        invariant found == FirstActive(contents[..i], ruleId, key)
      {
        assert contents[..i + 1][..i] == contents[..i];
        var a := rows[i].Row();
        if found.None? && SameKey(a, ruleId, key) && a.status.IsActive() {
          found := Some(i);
        }
      }
      assert contents[..|rows|] == contents;
    }

    method Get(id: nat) returns (found: Option<nat>)
      requires Valid()
      ensures found == FindId(contents, id)
    {
      found := None;
      for i := 0 to |rows|
        invariant found == FindId(contents[..i], id)
      {
        assert contents[..i + 1][..i] == contents[..i];
        assert contents[i].alertId == rows[i].alertId;
        if found.None? && rows[i].alertId == id {
          found := Some(i);
        }
      }
      assert contents[..|rows|] == contents;
    }

    /** Whether committing a status for row number `except` would violate the unique constraint. */
    method Violates(ruleId: string, key: string, status: AlertStatus, except: nat) returns (taken: bool)
      requires Valid()
      ensures taken == Taken(contents, ruleId, key, status, except)
    {
      taken := false;
      for i := 0 to |rows|
        invariant taken <==> exists j :: 0 <= j < i && j != except && SameKey(contents[j], ruleId, key) && contents[j].status == status
      {
        var a := rows[i].Row();
        assert a == contents[i];
        if i != except && SameKey(a, ruleId, key) && a.status == status {
          taken := true;
        }
      }
    }

    method Add(d: Detection) returns (alert: Alert)
      requires Valid()
      modifies this
      ensures Valid() && rows == old(rows) + [alert] && fresh(alert)
      ensures State() == InsertAlert(old(State()), d)
    {
      alert := new Alert(nextId, d);
      rows, contents, nextId := rows + [alert], contents + [Create(nextId, d)], nextId + 1;
    }

    method FoldInto(i: nat, d: Detection) returns (alert: Alert)
      requires Valid() && i < |rows|
      modifies this`contents, rows
      ensures Valid() && alert == rows[i]
      ensures State() == FoldAt(old(State()), i, d)
    {
      alert := rows[i];
      alert.FoldIn(d);
      contents := contents[i := Fold(contents[i], d)];
    }

    /** AlertCorrelator.apply: the alert, and whether it is new. */
    method Correlate(d: Detection) returns (alert: Alert, created: bool)
      requires Valid()
      modifies this, rows
      ensures Valid() && forall i :: 0 <= i < |rows| ==> rows[i] in old(rows) || fresh(rows[i])
      ensures State() == Correlated(old(State()), d)
      ensures created <==> FirstActive(old(State()).rows, d.ruleId, d.correlationKey).None?
      ensures alert in rows && (created ==> alert == rows[|rows| - 1]) && |rows| == |old(rows)| + if created then 1 else 0
    {
      var found := GetOpenByKey(d.ruleId, d.correlationKey);
      if found.None? {
        alert := Add(d);
        created := true;
      } else {
        alert := FoldInto(found.value, d);
        created := false;
      }
    }

    method Change(i: nat, to: AlertStatus, actor: string)
      requires Valid() && i < |rows|
      modifies this`audit, this`contents, rows
      ensures Valid()
      ensures var a := old(State()).rows[i];
        State() == old(State()).(rows := old(State()).rows[i := Move(a, to, actor)],
                                 audit := old(audit) + [AuditRecord(a.alertId, StatusChange(a.status, to, actor))])
    {
      var alert := rows[i];
      ghost var row := alert.Row();
      audit := audit + [AuditRecord(alert.alertId, StatusChange(alert.status, to, actor))];
      var history := HistoryOf(alert.Row()) + [StatusChange(alert.status, to, actor)];
      alert.status := to;
      alert.metadata := alert.metadata["status_history" := History(Last(history, HISTORY_CAP))];
      contents := contents[i := Move(row, to, actor)];
      assert alert.Row() == Move(row, to, actor);
    }

    /** update_alert_status */
    method UpdateStatus(id: nat, to: AlertStatus, actor: string) returns (result: TriageResult)
      requires Valid()
      modifies this`audit, this`contents, rows
      ensures Valid()
      ensures result == TriageOutcome(old(State()), id, to)
      ensures State() == Triaged(old(State()), id, to, actor)
      ensures result == Changed <==> State() != old(State())
    {
      var found := Get(id);
      if found.None? { return NotFound; }
      var alert := rows[found.value];
      assert alert.Row() == contents[found.value];
      if alert.status == to { return Unchanged; }
      if to !in AllowedFrom(alert.status) { return Invalid; }
      var taken := Violates(alert.ruleId, alert.correlationKey, to, found.value);
      if taken { return Conflict; }
      Change(found.value, to, actor);
      result := Changed;
    }
  }
}
