/** Reporting: what the rules' detections say, in terms of the full history
    (backend/app/detection/rules/, backend/app/detection/engine.py). */
module Reporting {
  import opened Text
  import opened Events
  import opened Windows
  import opened Rules
  import opened Firing

  // ---------------------------------------------------------------- a rule's one detection

  /** A detection under a rule's id is that rule's conclusion from what its key holds in the end. */
  lemma {:induction false} ReportedIs(setup: Setup, st: Store, rules: seq<Rule>, r: Rule, a: Arrival, d: Detection)
    requires setup.Complete() && Minted(st) && d in RunRules(setup, st, rules, a).detections && d.ruleId == r.Id()
    requires forall i, j :: 0 <= i < j < |rules| ==> rules[i] != rules[j]
    ensures Conclusion(setup, r, a, RunRules(setup, st, rules, a).store) == Some(d)
  {
    var front, last := rules[..|rules| - 1], rules[|rules| - 1];
    var before := RunRules(setup, st, front, a);
    ReportsIff(setup, st, front, r, a);
    if d in before.detections {
      ReportedIs(setup, st, front, r, a, d);
      if Runs(setup, last, a.event) { OtherTurn(setup, before.store, r, last, a, d); }
    } else {
      OwnTurn(setup, before, r, last, a, d);
    }
  }

  /** What a rule concludes from what its key holds. */
  function Conclusion(setup: Setup, r: Rule, a: Arrival, st: Store): Option<Detection>
    requires setup.Complete()
  {
    if Runs(setup, r, a.event) then Verdict(setup, r, a, Seen(st, CommandOf(setup, r, a).key).entries) else None
  }

  lemma {:induction false} OtherTurn(setup: Setup, st: Store, r: Rule, last: Rule, a: Arrival, d: Detection)
    requires setup.Complete() && Minted(st) && Applies(last, a.event) && r != last && Conclusion(setup, r, a, st) == Some(d)
    ensures Conclusion(setup, r, a, Execute(st, CommandOf(setup, last, a))) == Some(d)
  {
    CommandSteps(st, CommandOf(setup, last, a));
    OneKeyEach(setup, last, a, r, a);
  }

  lemma {:induction false} OwnTurn(setup: Setup, before: Outcome, r: Rule, last: Rule, a: Arrival, d: Detection)
    requires setup.Complete() && d !in before.detections
    ensures d in Turn(setup, before, last, a).detections && d.ruleId == r.Id() ==>
      Conclusion(setup, r, a, Turn(setup, before, last, a).store) == Some(d)
  {
    if d in Turn(setup, before, last, a).detections {
      var c := CommandOf(setup, last, a);
      VerdictRule(setup, last, a, Seen(Execute(before.store, c), c.key).entries);
      IdsDiffer(r, last);
    }
  }

  /** The one detection under a rule's id. */
  ghost predicate Only(d: Detection, ds: seq<Detection>, ruleId: string) {
    d in ds && d.ruleId == ruleId && forall x :: x in ds && x.ruleId == ruleId ==> x == d
  }

  /** A rule's conclusion from the plain pass over the history. */
  function Passed(setup: Setup, hist: seq<Arrival>, r: Rule): Option<Detection>
    requires setup.Complete() && hist != []
  {
    var a := hist[|hist| - 1];
    if Runs(setup, r, a.event) then Verdict(setup, r, a, Counted(setup, hist, r)) else None
  }

  /** When a rule fires on the last event it makes exactly one detection, and it is that conclusion. */
  lemma {:induction false} Reported(setup: Setup, hist: seq<Arrival>, r: Rule)
    requires setup.Complete() && hist != [] && Fired(setup, hist, r)
    requires Applies(r, hist[|hist| - 1].event) ==> Orderly(setup, hist, r)
    ensures exists d :: Only(d, LastDetections(setup, hist), r.Id()) && Passed(setup, hist, r) == Some(d)
  {
    var front, a := hist[..|hist| - 1], hist[|hist| - 1];
    var st := RunStream(setup, START, front).store;
    if !Runs(setup, r, a.event) { OnlyRunningFire(setup, hist, r); }
    KeyHolds(setup, r, a, front);
    EveryRule(r);
    var d :| d in LastDetections(setup, hist) && d.ruleId == r.Id();
    CountedIsHeld(setup, hist, r);
    forall x | x in LastDetections(setup, hist) && x.ruleId == r.Id()
      ensures Verdict(setup, r, a, Counted(setup, hist, r)) == Some(x)
    {
      ReportedIs(setup, st, RULES, r, a, x);
    }
    assert Only(d, LastDetections(setup, hist), r.Id());
  }

  // ---------------------------------------------------------------- what it says

  /** The events of a kind stamped later than `after`. */
  function CountSince(hist: seq<Arrival>, kind: SecurityEvent -> bool, after: int): nat {
    if hist == [] then 0
    else
      var e := hist[|hist| - 1].event;
      CountSince(hist[..|hist| - 1], kind, after) + if kind(e) && e.timestamp > after then 1 else 0
  }

  /** A window holds one entry for each event of the kind that its rule adds to it. */
  lemma {:induction false} WindowCount(setup: Setup, r: Rule, like: Arrival, hist: seq<Arrival>, kind: SecurityEvent -> bool, after: int)
    requires setup.Complete() && Runs(setup, r, like.event) && r != BruteForce
    requires forall e :: kind(e) <==> Runs(setup, r, e) && SameWindow(r, e, like.event)
    ensures |Recent(RuleUses(setup, r, like, hist), after)| == CountSince(hist, kind, after)
  {
    if hist != [] {
      var front, a := hist[..|hist| - 1], hist[|hist| - 1];
      WindowCount(setup, r, like, front, kind, after);
      if kind(a.event) { RecentAppend(RuleUses(setup, r, like, front), ReadBack(OpOf(r, a)), after); }
    }
  }

  /** The detection is the event's: its address, its time of evaluation, its own evidence. */
  predicate FromEvent(d: Detection, a: Arrival) {
    && d.sourceIp == a.event.sourceIp && d.triggeredAt == a.wall && d.anomalyScore == None
    && |d.evidence| == 1 && d.evidence[0].eventId == a.event.eventId
    && d.evidence[0].timestamp == a.event.timestamp && d.evidence[0].eventType == a.event.eventType
  }

  /** Of the event's source. */
  predicate AtSource(d: Detection, a: Arrival) {
    d.affectedHost == Some(a.event.source) && d.involvedHosts == [a.event.source]
  }

  /** One host, unless the event does not name it. */
  predicate Names(hosts: seq<string>, host: Option<string>) {
    hosts == if HasText(host) then [host.value] else []
  }

  /** c is x, or the cap if that is less. */
  predicate Capped(c: real, x: real, cap: real) {
    c <= x && c <= cap && (c == x || c == cap)
  }

  /** How sure a rule is of a count: so much at the threshold, more for each beyond it, up to a cap. */
  predicate Sure(confidence: real, base: real, step: real, cap: real, n: nat, threshold: int) {
    Capped(confidence, base + step * (n - threshold) as real, cap) && base <= confidence
  }

  /** RULE-001 of n failures from the event's address on these accounts; a success among them is a breach. */
  ghost predicate SaysLogin(d: Detection, a: Arrival, n: nat, users: set<string>, p: Params)
    requires IsLogin(a.event)
  {
    var ip, breached := a.event.sourceIp.value, a.event.eventType == AuthSuccess;
    && d.correlationKey == "srcip:" + ip && d.title == "Brute-force login activity from " + ip
    && d.severity == (if breached then Critical else High) && d.eventCountHint == n
    && Sure(d.confidence, if breached then 0.75 else 0.6, 0.02, 0.99, n, p.threshold)
    && Ascending(d.involvedUsers) && Elements(d.involvedUsers) == users && AtSource(d, a)
    && d.metadata.Keys == {"window_seconds", "span_seconds", "account_breached", "status"}
    && d.metadata["window_seconds"] == Number(p.window) && d.metadata["account_breached"] == Flag(breached)
    && d.metadata["status"] == StatusOf(a.event.status)
  }

  /** RULE-002 of n attempts from the event's address on these accounts. */
  ghost predicate SaysSpray(d: Detection, a: Arrival, n: nat, users: set<string>, p: Params)
    requires IsNamedFailure(a.event)
  {
    var ip := a.event.sourceIp.value;
    && d.correlationKey == "srcip:" + ip + ":spray" && d.title == "Password spraying from " + ip && d.severity == High
    && d.eventCountHint == n && Sure(d.confidence, 0.55, 0.03, 0.97, |users|, p.threshold)
    && KSmallest(d.involvedUsers, users, 25) && AtSource(d, a)
    && d.metadata == map["distinct_users" := Number(|users|), "window_seconds" := Number(p.window)]
  }

  /** RULE-003 of n attempts by the event's address on so many ports. */
  predicate SaysScan(d: Detection, a: Arrival, n: nat, ports: nat, p: Params)
    requires IsScan(a.event)
  {
    var ip := a.event.sourceIp.value;
    && d.correlationKey == "srcip:" + ip + ":portscan" && d.title == "Port scan from " + ip && d.severity == High
    && d.eventCountHint == n && Sure(d.confidence, 0.6, 0.015, 0.98, ports, p.threshold)
    && d.involvedUsers == [] && Names(d.involvedHosts, a.event.destinationIp)
    && d.affectedHost == Some(if HasText(a.event.destinationIp) then a.event.destinationIp.value else a.event.source)
    && d.metadata == map["unique_ports" := Number(ports), "window_seconds" := Number(p.window)]
  }

  /** RULE-006 of so many bytes over the event's pair: high from three thresholds on. */
  predicate SaysTransfer(d: Detection, a: Arrival, bytes: nat, p: Params)
    requires IsTransfer(a.event) && p.threshold != 0
  {
    var ip := a.event.sourceIp.value;
    && d.correlationKey == "srcip:" + ip + ":exfil" && d.title == "High outbound volume from " + ip
    && d.severity == (if p.threshold > 0 && bytes >= 3 * p.threshold then High else Medium)
    && Capped(d.confidence, 0.5 + 0.1 * (bytes as real / p.threshold as real), 0.95)
    && (p.threshold > 0 ==> 0.6 <= d.confidence)
    && d.eventCountHint == 1 && d.involvedUsers == [] && Names(d.involvedHosts, a.event.destinationIp)
    && d.affectedHost == Some(a.event.source)
    && d.metadata == map["window_bytes" := Number(bytes), "window_seconds" := Number(p.window),
                         "destination" := Word(a.event.destinationIp)]
  }

  /** RULE-007 of so many addresses with successes of the event's account: high from two more than the
      threshold on. */
  ghost predicate SaysLogins(d: Detection, a: Arrival, addresses: set<string>, p: Params)
    requires IsSuccess(a.event)
  {
    var user := a.event.username.value;
    && d.correlationKey == "user:" + Lower(user) + ":authgeo"
    && d.title == "Unusual authentication pattern for '" + user + "'"
    && d.severity == (if |addresses| >= p.threshold + 2 then High else Medium)
    && d.eventCountHint == 1 && Sure(d.confidence, 0.5, 0.1, 0.92, |addresses|, p.threshold)
    && d.involvedUsers == [user] && AtSource(d, a) && d.metadata.Keys == {"distinct_source_ips"}
    && d.metadata["distinct_source_ips"].Words? && KSmallest(d.metadata["distinct_source_ips"].list, addresses, 20)
  }

  lemma {:induction false} LoginVerdict(p: Params, a: Arrival, res: WindowResult)
    requires IsLogin(a.event) && Ascending(res.uniqueValues)
    ensures var v := BruteForceVerdict(p, a, res);
      v.None? || (FromEvent(v.value, a) && SaysLogin(v.value, a, res.count, Elements(res.uniqueValues) - {"", "-"}, p))
  {
    NamedOf(res.uniqueValues);
  }

  lemma {:induction false} SprayVerdict(p: Params, a: Arrival, res: WindowResult)
    requires IsNamedFailure(a.event) && Ascending(res.uniqueValues)
    ensures var v := Rules.SprayVerdict(p, a, res);
      v.None? || (FromEvent(v.value, a) && SaysSpray(v.value, a, res.count, Elements(res.uniqueValues) - {"", "-"}, p))
  {
    var names := Named(res.uniqueValues);
    NamedOf(res.uniqueValues);
    AscendingCount(names);
    KSmallestOfSorted(names, 25);
  }

  lemma {:induction false} ScanVerdict(p: Params, a: Arrival, res: WindowResult)
    requires IsScan(a.event)
    ensures var v := PortScanVerdict(p, a, res);
      v.None? || (FromEvent(v.value, a) && SaysScan(v.value, a, res.count, |res.uniqueValues|, p))
  {
  }

  function Product(x: real, y: real): real {
    x * y
  }

  lemma {:induction false} ProductOrder(x: real, y: real, k: real)
    ensures k > 0.0 ==> (x <= y <==> Product(x, k) <= Product(y, k))
  {
    if k > 0.0 {
      if x <= y { assert (y - x) * k >= 0.0; } else { assert (x - y) * k > 0.0; }
    }
  }

  lemma {:induction false} Ratio(total: nat, threshold: int, ratio: real)
    requires threshold != 0 && ratio == total as real / threshold as real
    ensures ratio >= 3.0 <==> threshold > 0 && total >= 3 * threshold
    ensures total >= threshold > 0 ==> ratio >= 1.0
  {
    var t := threshold as real;
    assert Product(ratio, t) == total as real;
    if threshold > 0 {
      ProductOrder(3.0, ratio, t);
      ProductOrder(1.0, ratio, t);
    } else if ratio >= 3.0 {
      assert Product(ratio, -t) == -(total as real);
      ProductOrder(3.0, ratio, -t);
    }
  }

  lemma {:induction false} TransferVerdict(p: Params, a: Arrival, total: nat)
    requires IsTransfer(a.event) && p.threshold != 0
    ensures var v := ExfiltrationVerdict(p, a, total);
      v.None? || (FromEvent(v.value, a) && SaysTransfer(v.value, a, total, p))
  {
    Ratio(total, p.threshold, total as real / p.threshold as real);
  }

  lemma {:induction false} LoginsVerdict(p: Params, a: Arrival, res: WindowResult)
    requires IsSuccess(a.event) && Ascending(res.uniqueValues)
    ensures var v := AuthAnomalyVerdict(p, a, res);
      v.None? || (FromEvent(v.value, a) && SaysLogins(v.value, a, Elements(res.uniqueValues), p))
  {
    AscendingCount(res.uniqueValues);
    KSmallestOfSorted(res.uniqueValues, 20);
  }

  // ---------------------------------------------------------------- over the full history

  /** The user names, as given, of failed logins from an address. */
  function NamesTriedSince(hist: seq<Arrival>, ip: string, after: int): set<string> {
    if hist == [] then {}
    else
      var e, before := hist[|hist| - 1].event, NamesTriedSince(hist[..|hist| - 1], ip, after);
      if e.eventType == AuthFailure && e.sourceIp == Some(ip) && HasText(e.username) && e.timestamp > after
      then before + {e.username.value} else before
  }

  lemma {:induction false} FailureUses(setup: Setup, like: Arrival, hist: seq<Arrival>, after: int)
    requires setup.Complete() && Runs(setup, BruteForce, like.event) && hist != []
    ensures var a, before := hist[|hist| - 1], Recent(RuleUses(setup, BruteForce, like, hist[..|hist| - 1]), after);
      Recent(RuleUses(setup, BruteForce, like, hist), after) ==
      if a.event.eventType == AuthFailure && a.event.sourceIp == like.event.sourceIp && a.event.timestamp > after
      then before + [Entry(Decode(OrElse(a.event.username, "-")), a.event.timestamp)] else before
  {
    var front, a := hist[..|hist| - 1], hist[|hist| - 1];
    if Runs(setup, BruteForce, a.event) {
      RecentAppend(RuleUses(setup, BruteForce, like, front), ReadBack(OpOf(BruteForce, a)), after);
    }
  }

  lemma {:induction false} NamesTried(setup: Setup, like: Arrival, hist: seq<Arrival>, after: int)
    requires setup.Complete() && Runs(setup, BruteForce, like.event)
    ensures Elements(Values(Recent(RuleUses(setup, BruteForce, like, hist), after))) - {"", "-"} ==
            Cut(NamesTriedSince(hist, like.event.sourceIp.value, after)) - {"", "-"}
  {
    if hist != [] {
      var front, e, ip := hist[..|hist| - 1], hist[|hist| - 1].event, like.event.sourceIp;
      NamesTried(setup, like, front, after);
      FailureUses(setup, like, hist, after);
      if e.eventType == AuthFailure && e.sourceIp == ip && e.timestamp > after {
        var before, value := Recent(RuleUses(setup, BruteForce, like, front), after), Decode(OrElse(e.username, "-"));
        ValuesAppend(before, Entry(value, e.timestamp));
        ElementsAppend(Values(before), value);
        CutOneMore(Elements(Values(before)), NamesTriedSince(front, ip.value, after), OrElse(e.username, "-"));
      }
    }
  }

  /** RULE-001's detection, when it fires: the failures and accounts are the naive ones. */
  lemma {:induction false} BruteForceReports(setup: Setup, hist: seq<Arrival>)
    requires setup.Complete() && hist != [] && Fired(setup, hist, BruteForce)
    requires IsLogin(hist[|hist| - 1].event) ==> Orderly(setup, hist, BruteForce)
    ensures var a := hist[|hist| - 1];
      exists d ::
        Only(d, LastDetections(setup, hist), "RULE-001") &&
        IsLogin(a.event) && FromEvent(d, a) &&
        var start, ip := WindowStart(setup, hist, BruteForce), a.event.sourceIp.value;
        SaysLogin(d, a, FailuresSince(hist, ip, start), Cut(NamesTriedSince(hist, ip, start)) - {"", "-"}, setup.params[BruteForce])
  {
    var a := hist[|hist| - 1];
    LooksAt(a.event);
    Reported(setup, hist, BruteForce);
    var d :| Only(d, LastDetections(setup, hist), "RULE-001") && Passed(setup, hist, BruteForce) == Some(d);
    var start, entries := WindowStart(setup, hist, BruteForce), Counted(setup, hist, BruteForce);
    CountedFrom(setup, hist, BruteForce);
    CountFailures(setup, a, hist, start);
    NamesTried(setup, a, hist, start);
    SortDistinctSorts(Values(entries));
    LoginVerdict(setup.params[BruteForce], a, ToResult(entries, OpOf(BruteForce, a).Now()));
  }

  /** RULE-002's detection, when it fires: the attempts and accounts are the naive ones. */
  lemma {:induction false} PasswordSprayReports(setup: Setup, hist: seq<Arrival>)
    requires setup.Complete() && hist != [] && Fired(setup, hist, PasswordSpray)
    requires IsNamedFailure(hist[|hist| - 1].event) ==> Orderly(setup, hist, PasswordSpray)
    ensures var a := hist[|hist| - 1];
      exists d ::
        Only(d, LastDetections(setup, hist), "RULE-002") &&
        IsNamedFailure(a.event) && FromEvent(d, a) &&
        var start, ip := WindowStart(setup, hist, PasswordSpray), a.event.sourceIp;
        SaysSpray(d, a, CountSince(hist, e => IsNamedFailure(e) && e.sourceIp == ip, start),
                  CutUsersSince(hist, ip.value, start), setup.params[PasswordSpray])
  {
    var a := hist[|hist| - 1];
    LooksAt(a.event);
    Reported(setup, hist, PasswordSpray);
    var d :| Only(d, LastDetections(setup, hist), "RULE-002") && Passed(setup, hist, PasswordSpray) == Some(d);
    var start, entries, ip := WindowStart(setup, hist, PasswordSpray), Counted(setup, hist, PasswordSpray), a.event.sourceIp;
    CountedFrom(setup, hist, PasswordSpray);
    SprayedUsers(setup, a, hist, start);
    forall e ensures IsNamedFailure(e) && e.sourceIp == ip <==> Runs(setup, PasswordSpray, e) && SameWindow(PasswordSpray, e, a.event) {
      LooksAt(e);
    }
    WindowCount(setup, PasswordSpray, a, hist, e => IsNamedFailure(e) && e.sourceIp == ip, start);
    SortDistinctSorts(Values(entries));
    SprayVerdict(setup.params[PasswordSpray], a, ToResult(entries, OpOf(PasswordSpray, a).Now()));
  }

  /** RULE-003's. */
  lemma {:induction false} PortScanReports(setup: Setup, hist: seq<Arrival>)
    requires setup.Complete() && hist != [] && Fired(setup, hist, PortScan)
    requires IsScan(hist[|hist| - 1].event) ==> Orderly(setup, hist, PortScan)
    ensures var a := hist[|hist| - 1];
      exists d ::
        Only(d, LastDetections(setup, hist), "RULE-003") &&
        IsScan(a.event) && FromEvent(d, a) &&
        var start, ip := WindowStart(setup, hist, PortScan), a.event.sourceIp;
        SaysScan(d, a, CountSince(hist, e => IsScan(e) && e.sourceIp == ip, start),
                 |PortsTriedSince(hist, ip.value, start)|, setup.params[PortScan])
  {
    var a := hist[|hist| - 1];
    LooksAt(a.event);
    Reported(setup, hist, PortScan);
    var d :| Only(d, LastDetections(setup, hist), "RULE-003") && Passed(setup, hist, PortScan) == Some(d);
    var start, entries, ip := WindowStart(setup, hist, PortScan), Counted(setup, hist, PortScan), a.event.sourceIp;
    CountedFrom(setup, hist, PortScan);
    ScannedPorts(setup, a, hist, start);
    DistinctCount(entries);
    forall e ensures IsScan(e) && e.sourceIp == ip <==> Runs(setup, PortScan, e) && SameWindow(PortScan, e, a.event) {
      LooksAt(e);
    }
    WindowCount(setup, PortScan, a, hist, e => IsScan(e) && e.sourceIp == ip, start);
    ScanVerdict(setup.params[PortScan], a, ToResult(entries, OpOf(PortScan, a).Now()));
  }

  /** RULE-006's. */
  lemma {:induction false} DataExfiltrationReports(setup: Setup, hist: seq<Arrival>)
    requires setup.Complete() && hist != [] && Fired(setup, hist, DataExfiltration)
    requires IsTransfer(hist[|hist| - 1].event) ==> Orderly(setup, hist, DataExfiltration)
    ensures var a, p := hist[|hist| - 1], setup.params[DataExfiltration];
      exists d ::
        Only(d, LastDetections(setup, hist), "RULE-006") &&
        IsTransfer(a.event) && p.threshold != 0 && FromEvent(d, a) &&
        SaysTransfer(d, a, BytesSince(hist, Pair(a.event), WindowStart(setup, hist, DataExfiltration)), p)
  {
    var a := hist[|hist| - 1];
    LooksAt(a.event);
    Reported(setup, hist, DataExfiltration);
    var d :| Only(d, LastDetections(setup, hist), "RULE-006") && Passed(setup, hist, DataExfiltration) == Some(d);
    DataExfiltrationFires(setup, hist);
    CountedFrom(setup, hist, DataExfiltration);
    var start := WindowStart(setup, hist, DataExfiltration);
    SentBytes(setup, a, hist, start);
    TransferVerdict(setup.params[DataExfiltration], a, BytesSince(hist, Pair(a.event), start));
  }

  /** RULE-007's. */
  lemma {:induction false} AuthAnomalyReports(setup: Setup, hist: seq<Arrival>)
    requires setup.Complete() && hist != [] && Fired(setup, hist, AuthAnomaly)
    requires IsSuccess(hist[|hist| - 1].event) ==> Orderly(setup, hist, AuthAnomaly)
    ensures var a := hist[|hist| - 1];
      exists d ::
        Only(d, LastDetections(setup, hist), "RULE-007") &&
        IsSuccess(a.event) && FromEvent(d, a) &&
        SaysLogins(d, a, Cut(LoginsSince(hist, Lower(a.event.username.value), WindowStart(setup, hist, AuthAnomaly))),
                   setup.params[AuthAnomaly])
  {
    var a := hist[|hist| - 1];
    LooksAt(a.event);
    AuthAnomalyFires(setup, hist);
    Reported(setup, hist, AuthAnomaly);
    var d :| Only(d, LastDetections(setup, hist), "RULE-007") && Passed(setup, hist, AuthAnomaly) == Some(d);
    var entries := Counted(setup, hist, AuthAnomaly);
    CountedFrom(setup, hist, AuthAnomaly);
    SortDistinctSorts(Values(entries));
    LoginAddresses(setup, a, hist, WindowStart(setup, hist, AuthAnomaly));
    LoginsVerdict(setup.params[AuthAnomaly], a, ToResult(entries, OpOf(AuthAnomaly, a).Now()));
  }

  // ---------------------------------------------------------------- which detections share an alert

  /** Whom a rule's detections are about: an address, or an account whatever its case. */
  function Subject(r: Rule, e: SecurityEvent): string
    requires Applies(r, e)
  {
    if r == AuthAnomaly then Lower(e.username.value) else e.sourceIp.value
  }

  lemma {:induction false} Between(prefix: string, x: string, y: string, suffix: string)
    ensures prefix + x + suffix == prefix + y + suffix <==> x == y
  {
    var l, r := prefix + x + suffix, prefix + y + suffix;
    if l == r {
      assert |x| == |y|;
      assert x == l[|prefix|..|prefix| + |x|] && y == r[|prefix|..|prefix| + |y|];
    }
  }

  /** A rule's correlation key for its subject. */
  function KeyFor(r: Rule, subject: string): string {
    match r
    case BruteForce => "srcip:" + subject
    case PasswordSpray => "srcip:" + subject + ":spray"
    case PortScan => "srcip:" + subject + ":portscan"
    case DataExfiltration => "srcip:" + subject + ":exfil"
    case AuthAnomaly => "user:" + subject + ":authgeo"
  }

  lemma {:induction false} KeysDiffer(r: Rule, x: string, y: string)
    ensures KeyFor(r, x) == KeyFor(r, y) <==> x == y
  {
    match r
    case BruteForce =>
      Between("srcip:", x, y, "");
      assert "srcip:" + x + "" == "srcip:" + x && "srcip:" + y + "" == "srcip:" + y;
    case PasswordSpray => Between("srcip:", x, y, ":spray");
    case PortScan => Between("srcip:", x, y, ":portscan");
    case DataExfiltration => Between("srcip:", x, y, ":exfil");
    case AuthAnomaly => Between("user:", x, y, ":authgeo");
  }

  lemma {:induction false} KeyNames(setup: Setup, r: Rule, a: Arrival, entries: seq<Entry>)
    requires setup.Complete() && Applies(r, a.event)
    ensures var v := Verdict(setup, r, a, entries);
      v.None? || v.value.correlationKey == KeyFor(r, Subject(r, a.event))
  {
  }

  /** Two detections of a rule share a correlation key, and so an alert, exactly when they are about the
      same address, or account. */
  lemma {:induction false} KeyTellsSubject(setup: Setup, r: Rule, a: Arrival, entries: seq<Entry>, a': Arrival, entries': seq<Entry>)
    requires setup.Complete() && Applies(r, a.event) && Applies(r, a'.event)
    ensures var v, v' := Verdict(setup, r, a, entries), Verdict(setup, r, a', entries');
      v.Some? && v'.Some? ==> (v.value.correlationKey == v'.value.correlationKey <==> Subject(r, a.event) == Subject(r, a'.event))
  {
    KeyNames(setup, r, a, entries);
    KeyNames(setup, r, a', entries');
    KeysDiffer(r, Subject(r, a.event), Subject(r, a'.event));
  }
}
