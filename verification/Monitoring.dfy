/** Monitoring: what the alerts table keeps while the five detectors feed it and analysts work on it
    (backend/app/detection/engine.py, backend/app/detection/correlation.py, backend/app/services/alerts.py). */
module Monitoring {
  import opened Text
  import opened Events
  import opened Windows
  import opened Rules
  import opened Firing
  import opened Alerts
  import opened Batching
  import opened Burst
  import Correlation

  /** What correlation relies on: one item of evidence, users in order and once each, and nothing that
      would overwrite an alert's status history. */
  ghost predicate WellFormed(d: Detection) {
    |d.evidence| == 1 && Ascending(d.involvedUsers) && "status_history" !in d.metadata
  }

  lemma {:induction false} ResultAscends(entries: seq<Entry>, now: int)
    ensures Ascending(ToResult(entries, now).uniqueValues)
  {
    SortDistinctSorts(Values(entries));
  }

  lemma {:induction false} BruteForceWellFormed(p: Params, a: Arrival, res: WindowResult)
    requires Applies(BruteForce, a.event) && Ascending(res.uniqueValues)
    ensures match BruteForceVerdict(p, a, res) case None => true case Some(d) => WellFormed(d)
  {
    NamedOf(res.uniqueValues);
  }

  lemma {:induction false} SprayWellFormed(p: Params, a: Arrival, res: WindowResult)
    requires Applies(PasswordSpray, a.event) && Ascending(res.uniqueValues)
    ensures match SprayVerdict(p, a, res) case None => true case Some(d) => WellFormed(d)
  {
    NamedOf(res.uniqueValues);
  }

  lemma {:induction false} PortScanWellFormed(p: Params, a: Arrival, res: WindowResult)
    requires Applies(PortScan, a.event)
    ensures match PortScanVerdict(p, a, res) case None => true case Some(d) => WellFormed(d)
  {
  }

  lemma {:induction false} ExfiltrationWellFormed(p: Params, a: Arrival, total: int)
    requires Applies(DataExfiltration, a.event)
    ensures match ExfiltrationVerdict(p, a, total) case None => true case Some(d) => WellFormed(d)
  {
  }

  lemma {:induction false} AuthAnomalyWellFormed(p: Params, a: Arrival, res: WindowResult)
    requires Applies(AuthAnomaly, a.event)
    ensures match AuthAnomalyVerdict(p, a, res) case None => true case Some(d) => WellFormed(d)
  {
  }

  lemma {:induction false} VerdictWellFormed(setup: Setup, r: Rule, a: Arrival, entries: seq<Entry>)
    requires setup.Complete() && Applies(r, a.event)
    ensures match Verdict(setup, r, a, entries) case None => true case Some(d) => WellFormed(d)
  {
    var p, res := setup.params[r], ToResult(entries, OpOf(r, a).Now());
    ResultAscends(entries, OpOf(r, a).Now());
    match r
    case BruteForce => BruteForceWellFormed(p, a, res);
    case PasswordSpray => SprayWellFormed(p, a, res);
    case PortScan => PortScanWellFormed(p, a, res);
    case DataExfiltration => ExfiltrationWellFormed(p, a, Total(entries));
    case AuthAnomaly => AuthAnomalyWellFormed(p, a, res);
  }

  /** Every detection the engine makes is one that correlation can rely on. */
  lemma {:induction false} DetectionsWellFormed(setup: Setup, st: Store, rules: seq<Rule>, a: Arrival)
    requires setup.Complete()
    ensures forall d :: d in RunRules(setup, st, rules, a).detections ==> WellFormed(d)
  {
    if rules != [] {
      var front, r := rules[..|rules| - 1], rules[|rules| - 1];
      var before := RunRules(setup, st, front, a);
      DetectionsWellFormed(setup, st, front, a);
      TurnAdds(setup, st, rules, a);
      if Runs(setup, r, a.event) {
        var c := CommandOf(setup, r, a);
        VerdictWellFormed(setup, r, a, Seen(Execute(before.store, c), c.key).entries);
      }
    }
  }

  // ---------------------------------------------------------------- the table

  /** An alert's lists are bounded, ordered and free of duplicates. */
  ghost predicate Tidy(a: Correlation.AlertRow) {
    && Correlation.Distinct(a.evidence) && |a.evidence| <= Correlation.MAX_EVIDENCE
    && Ascending(a.involvedUsers) && |a.involvedUsers| <= Correlation.MAX_INVOLVED
  }

  ghost predicate Sound(t: Table) {
    Ledger(t) && Unique(t.rows) && forall i :: 0 <= i < |t.rows| ==> Tidy(t.rows[i])
  }

  lemma {:induction false} CreateTidy(id: nat, d: Detection)
    ensures WellFormed(d) ==> Tidy(Correlation.Create(id, d))
  {
  }

  lemma {:induction false} FoldTidy(a: Correlation.AlertRow, d: Detection)
    requires Tidy(a) && WellFormed(d)
    ensures Tidy(Correlation.Fold(a, d))
  {
    SortDistinctSorts(a.involvedUsers + d.involvedUsers);
    Correlation.CollectOne(a.evidence, d.evidence);
  }

  lemma {:induction false} CorrelatedSound(t: Table, d: Detection)
    requires Sound(t) && WellFormed(d)
    ensures Sound(Correlated(t, d))
    ensures OneActive(t.rows) ==> OneActive(Correlated(t, d).rows)
  {
    assert Next(t, Apply(d)) == Correlated(t, d) && Discreet(Apply(d));
    NextLedger(t, Apply(d));
    NextUnique(t, Apply(d));
    if OneActive(t.rows) { ApplyOneActive(t, d); }
    var found := FirstActive(t.rows, d.ruleId, d.correlationKey);
    if found.Some? { FoldTidy(t.rows[found.value], d); } else { CreateTidy(t.nextId, d); }
  }

  lemma {:induction false} CorrelateAllSound(t: Table, ds: seq<Detection>)
    requires Sound(t) && forall d :: d in ds ==> WellFormed(d)
    ensures Sound(CorrelateAll(t, ds))
    ensures OneActive(t.rows) ==> OneActive(CorrelateAll(t, ds).rows)
  {
    if ds != [] {
      var front, d := ds[..|ds| - 1], ds[|ds| - 1];
      assert d in ds && forall x :: x in front ==> x in ds;
      CorrelateAllSound(t, front);
      CorrelatedSound(CorrelateAll(t, front), d);
    }
  }

  lemma {:induction false} TriagedSound(t: Table, id: nat, to: AlertStatus, actor: string)
    requires Sound(t)
    ensures Sound(Triaged(t, id, to, actor))
    ensures OneActive(t.rows) ==>
      (OneActive(Triaged(t, id, to, actor).rows) <==> !Doubles(t, Triage(id, to, actor)))
  {
    var s := Triage(id, to, actor);
    assert Next(t, s) == Triaged(t, id, to, actor) && Discreet(s);
    NextLedger(t, s);
    NextUnique(t, s);
    if OneActive(t.rows) { OneActiveIff(t, s); }
  }

  /** Whatever events arrive and whatever analysts request: every alert's history is its audit tail, no
      key has two alerts in one status, and every list keeps its bound and order. */
  lemma {:induction false} AlwaysSound(setup: Setup, acts: seq<Act>)
    requires setup.Complete()
    ensures Sound(Play(setup, acts).table)
  {
    if acts != [] {
      AlwaysSound(setup, acts[..|acts| - 1]);
      ActSound(setup, Play(setup, acts[..|acts| - 1]), acts[|acts| - 1]);
    }
  }

  /** A request re-opens an alert while another of its key is in hand. */
  predicate ActDoubles(desk: Desk, act: Act) {
    act.Request? && Doubles(desk.table, Triage(act.id, act.to, act.actor))
  }

  lemma {:induction false} ActSound(setup: Setup, desk: Desk, act: Act)
    requires setup.Complete() && Sound(desk.table)
    ensures Sound(Acted(setup, desk, act).table)
    ensures OneActive(desk.table.rows) ==> (OneActive(Acted(setup, desk, act).table.rows) <==> !ActDoubles(desk, act))
  {
    match act
    case Event(a) =>
      DetectionsWellFormed(setup, desk.store, RULES, a);
      CorrelateAllSound(desk.table, RunRules(setup, desk.store, RULES, a).detections);
    case Request(id, to, actor) =>
      TriagedSound(desk.table, id, to, actor);
  }

  /** No act of the run doubles an active alert. */
  predicate NeverDoubled(setup: Setup, acts: seq<Act>)
    requires setup.Complete()
  {
    acts != [] ==>
      NeverDoubled(setup, acts[..|acts| - 1]) && !ActDoubles(Play(setup, acts[..|acts| - 1]), acts[|acts| - 1])
  }

  /** After every act of the run each key has at most one active alert. */
  ghost predicate AlwaysOneActive(setup: Setup, acts: seq<Act>)
    requires setup.Complete()
  {
    OneActive(Play(setup, acts).table.rows) && (acts != [] ==> AlwaysOneActive(setup, acts[..|acts| - 1]))
  }

  /** ... and no key ever has two active alerts exactly when no request re-opens one while another of its
      key is in hand; events never double one. */
  lemma {:induction false} OneActiveUnlessReopened(setup: Setup, acts: seq<Act>)
    requires setup.Complete()
    ensures AlwaysOneActive(setup, acts) <==> NeverDoubled(setup, acts)
  {
    if acts != [] {
      var front := acts[..|acts| - 1];
      OneActiveUnlessReopened(setup, front);
      AlwaysSound(setup, front);
      ActSound(setup, Play(setup, front), acts[|acts| - 1]);
    }
  }
}
