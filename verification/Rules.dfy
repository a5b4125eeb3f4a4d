/** The windowed rule detectors and the engine that runs them
    (backend/app/detection/rules/, backend/app/detection/engine.py). */
module Rules {
  import opened Text
  import opened Events
  import opened Windows

  datatype Rule = BruteForce | PasswordSpray | PortScan | DataExfiltration | AuthAnomaly {
    function Id(): string {
      match this
      case BruteForce => "RULE-001"
      case PasswordSpray => "RULE-002"
      case PortScan => "RULE-003"
      case DataExfiltration => "RULE-006"
      case AuthAnomaly => "RULE-007"
    }
  }

  /** The detectors in catalogue order. */
  const RULES: seq<Rule> := [BruteForce, PasswordSpray, PortScan, DataExfiltration, AuthAnomaly]

  /** A rule's tunable threshold and its window in microseconds. */
  datatype Params = Params(threshold: int, window: nat)

  /** What the engine is set up with. */
  datatype Setup = Setup(params: map<Rule, Params>, disabled: set<string>, namespace: string) {
    ghost predicate Complete() {
      forall r: Rule :: r in params
    }
  }

  /** An event together with the clock at which it is evaluated. */
  datatype Arrival = Arrival(event: SecurityEvent, wall: int)

  // ---------------------------------------------------------------- what each rule looks at

  predicate Applies(r: Rule, e: SecurityEvent) {
    match r
    case BruteForce =>
      (e.eventType == AuthFailure || (e.eventType == AuthSuccess && e.sourceIp.Some?)) && e.sourceIp.Some?
    case PasswordSpray =>
      e.eventType == AuthFailure && Truthy(e.sourceIp) && Truthy(e.username)
    case PortScan =>
      && e.eventType in {ConnectionAttempt, FirewallDeny, FirewallAllow, NetworkFlow}
      && e.sourceIp.Some? && e.destinationPort.Some?
    case DataExfiltration =>
      && e.eventType in {NetworkFlow, FirewallAllow, HttpRequest}
      && e.bytesOut > 0 && Truthy(e.sourceIp)
    case AuthAnomaly =>
      e.eventType in {AuthSuccess, AuthFailure} && Truthy(e.username) && Truthy(e.sourceIp)
  }

  /** A use of the window store: add a value, add an amount, or only measure. */
  datatype Probe =
    | Mark(name: string, entity: string, value: string)
    | Weigh(name: string, entity: string, amount: nat)
    | Peek(name: string, entity: string)

  function ProbeOf(r: Rule, e: SecurityEvent): Probe
    requires Applies(r, e)
  {
    match r
    case BruteForce =>
      if e.eventType == AuthSuccess then Peek("bruteforce", e.sourceIp.value)
      else Mark("bruteforce", e.sourceIp.value, OrElse(e.username, "-"))
    case PasswordSpray => Mark("spray", e.sourceIp.value, Lower(OrElse(e.username, "-")))
    case PortScan => Mark("portscan", e.sourceIp.value, Decimal(e.destinationPort.value))
    case DataExfiltration =>
      Weigh("exfil", e.sourceIp.value + "->" + OrElse(e.destinationIp, "any"), e.bytesOut)
    case AuthAnomaly =>
      Mark(if e.status == Some(Success) then "authgeo_ok" else "authgeo_fail",
           Lower(e.username.value), e.sourceIp.value)
  }

  function KeyOf(namespace: string, name: string, entity: string): string {
    namespace + ":" + name + ":" + entity
  }

  function OpOf(r: Rule, a: Arrival): Op
    requires Applies(r, a.event)
  {
    match ProbeOf(r, a.event)
    case Mark(_, _, value) => Add(value, a.event.timestamp, a.wall)
    case Weigh(_, _, amount) => Add(Render(amount), a.event.timestamp, a.wall)
    case Peek(_, _) => Look(a.wall)
  }

  function CommandOf(setup: Setup, r: Rule, a: Arrival): Command
    requires setup.Complete() && Applies(r, a.event)
  {
    var p := ProbeOf(r, a.event);
    Command(KeyOf(setup.namespace, p.name, p.entity), OpOf(r, a), setup.params[r].window)
  }

  // ---------------------------------------------------------------- what each rule concludes

  function Min(x: real, y: real): real {
    if x <= y then x else y
  }

  /** The values that name someone: not empty and not the "-" placeholder. */
  function Named(values: seq<string>): (r: seq<string>)
    ensures |r| <= |values|
  {
    if values == [] then []
    else if values[0] == "" || values[0] == "-" then Named(values[1..])
    else [values[0]] + Named(values[1..])
  }

  function EvidenceOf(e: SecurityEvent, parts: seq<string>): seq<Evidence> {
    [Evidence(e.eventId, e.timestamp, e.eventType, parts)]
  }

  function BruteForceVerdict(p: Params, a: Arrival, res: WindowResult): Option<Detection>
    requires Applies(BruteForce, a.event)
  {
    if res.count < p.threshold then None
    else
      var e, ip := a.event, a.event.sourceIp.value;
      var breached := e.eventType == AuthSuccess;
      var base := Min(0.99, 0.6 + 0.02 * (res.count - p.threshold) as real);
      Some(Detection(
        BruteForce.Id(),
        "Brute-force login activity from " + ip,
        [Decimal(res.count), ip, Render(res.Span()), Render(p.threshold), Decimal(p.window),
         Decimal(|res.uniqueValues|)] + if breached then ["breached"] else [],
        if breached then Critical else High,
        if breached then Min(0.99, base + 0.15) else base,
        "srcip:" + ip,
        e.sourceIp, Some(e.source),
        EvidenceOf(e, [OrElse(e.username, "None"), e.source]),
        Named(res.uniqueValues), [e.source],
        res.count, None,
        map["window_seconds" := Number(p.window), "span_seconds" := Number(res.Span()),
            "account_breached" := Flag(breached), "status" := StatusOf(e.status)],
        a.wall))
  }

  function SprayVerdict(p: Params, a: Arrival, res: WindowResult): Option<Detection>
    requires Applies(PasswordSpray, a.event)
  {
    var distinct := |Named(res.uniqueValues)|;
    if distinct < p.threshold then None
    else
      var e, ip := a.event, a.event.sourceIp.value;
      Some(Detection(
        PasswordSpray.Id(),
        "Password spraying from " + ip,
        [ip, Decimal(distinct), Render(res.Span()), Decimal(res.count)],
        High,
        Min(0.97, 0.55 + 0.03 * (distinct - p.threshold) as real),
        "srcip:" + ip + ":spray",
        e.sourceIp, Some(e.source),
        EvidenceOf(e, [e.username.value, e.source]),
        Take(Named(res.uniqueValues), 25), [e.source],
        res.count, None,
        map["distinct_users" := Number(distinct), "window_seconds" := Number(p.window)],
        a.wall))
  }

  function PortScanVerdict(p: Params, a: Arrival, res: WindowResult): Option<Detection>
    requires Applies(PortScan, a.event)
  {
    var ports := |res.uniqueValues|;
    if ports < p.threshold then None
    else
      var e, ip := a.event, a.event.sourceIp.value;
      Some(Detection(
        PortScan.Id(),
        "Port scan from " + ip,
        [ip, Decimal(ports), Render(res.Span()), Render(p.threshold), Decimal(p.window)],
        High,
        Min(0.98, 0.6 + 0.015 * (ports - p.threshold) as real),
        "srcip:" + ip + ":portscan",
        e.sourceIp, Some(OrElse(e.destinationIp, e.source)),
        EvidenceOf(e, [OrElse(e.destinationIp, "None"), Decimal(e.destinationPort.value)]),
        [], if Truthy(e.destinationIp) then [e.destinationIp.value] else [],
        res.count, None,
        map["unique_ports" := Number(ports), "window_seconds" := Number(p.window)],
        a.wall))
  }

  /** A threshold of zero divides by zero; the engine isolates the error and reports nothing. */
  function ExfiltrationVerdict(p: Params, a: Arrival, total: int): Option<Detection>
    requires Applies(DataExfiltration, a.event)
  {
    if total < p.threshold || p.threshold == 0 then None
    else
      var e, ip := a.event, a.event.sourceIp.value;
      var ratio := total as real / p.threshold as real;
      Some(Detection(
        DataExfiltration.Id(),
        "High outbound volume from " + ip,
        [Render(total), ip, OrElse(e.destinationIp, "multiple destinations"), Decimal(p.window), Render(p.threshold)],
        if ratio >= 3.0 then High else Medium,
        Min(0.95, 0.5 + 0.1 * ratio),
        "srcip:" + ip + ":exfil",
        e.sourceIp, Some(e.source),
        EvidenceOf(e, [Decimal(e.bytesOut), OrElse(e.destinationIp, "None"),
                       if e.destinationPort.Some? then Decimal(e.destinationPort.value) else "None"]),
        [], if Truthy(e.destinationIp) then [e.destinationIp.value] else [],
        1, None,
        map["window_bytes" := Number(total), "window_seconds" := Number(p.window),
            "destination" := Word(e.destinationIp)],
        a.wall))
  }

  function AuthAnomalyVerdict(p: Params, a: Arrival, res: WindowResult): Option<Detection>
    requires Applies(AuthAnomaly, a.event)
  {
    var ips := |res.uniqueValues|;
    if a.event.status != Some(Success) || ips < p.threshold then None
    else
      var e, ip, user := a.event, a.event.sourceIp.value, a.event.username.value;
      Some(Detection(
        AuthAnomaly.Id(),
        "Unusual authentication pattern for '" + user + "'",
        [user, Decimal(ips), Render(res.Span()), ip],
        if ips >= p.threshold + 2 then High else Medium,
        Min(0.92, 0.5 + 0.1 * (ips - p.threshold) as real),
        "user:" + Lower(user) + ":authgeo",
        e.sourceIp, Some(e.source),
        EvidenceOf(e, [user, ip]),
        [user], [e.source],
        1, None,
        map["distinct_source_ips" := Words(Take(res.uniqueValues, 20))],
        a.wall))
  }

  /** A rule's conclusion from the decoded entries its probe leaves in the window. */
  function Verdict(setup: Setup, r: Rule, a: Arrival, entries: seq<Entry>): Option<Detection>
    requires setup.Complete() && Applies(r, a.event)
  {
    var p, now := setup.params[r], OpOf(r, a).Now();
    match r
    case BruteForce => BruteForceVerdict(p, a, ToResult(entries, now))
    case PasswordSpray => SprayVerdict(p, a, ToResult(entries, now))
    case PortScan => PortScanVerdict(p, a, ToResult(entries, now))
    case DataExfiltration => ExfiltrationVerdict(p, a, Total(entries))
    case AuthAnomaly => AuthAnomalyVerdict(p, a, ToResult(entries, now))
  }

  lemma {:induction false} VerdictRule(setup: Setup, r: Rule, a: Arrival, entries: seq<Entry>)
    requires setup.Complete() && Applies(r, a.event) && Verdict(setup, r, a, entries).Some?
    ensures Verdict(setup, r, a, entries).value.ruleId == r.Id()
  {
  }

  // ---------------------------------------------------------------- one event

  predicate Runs(setup: Setup, r: Rule, e: SecurityEvent) {
    r.Id() !in setup.disabled && Applies(r, e)
  }

  datatype Outcome = Outcome(store: Store, detections: seq<Detection>)

  /** One rule's turn, after what the rules before it have done. */
  function Turn(setup: Setup, before: Outcome, r: Rule, a: Arrival): Outcome
    requires setup.Complete()
  {
    if !Runs(setup, r, a.event) then before
    else
      var c := CommandOf(setup, r, a);
      var store := Execute(before.store, c);
      match Verdict(setup, r, a, Seen(store, c.key).entries)
      case None => Outcome(store, before.detections)
      case Some(d) => Outcome(store, before.detections + [d])
  }

  /** One event through a list of detectors, in order. */
  function RunRules(setup: Setup, st: Store, rules: seq<Rule>, a: Arrival): Outcome
    requires setup.Complete()
  {
    if rules == [] then Outcome(st, [])
    else
      Turn(setup, RunRules(setup, st, rules[..|rules| - 1], a), rules[|rules| - 1], a)
  }

  /** A stream of events, evaluated one after the other. */
  function RunStream(setup: Setup, st: Store, arrivals: seq<Arrival>): Outcome
    requires setup.Complete()
  {
    if arrivals == [] then Outcome(st, [])
    else
      var before := RunStream(setup, st, arrivals[..|arrivals| - 1]);
      var next := RunRules(setup, before.store, RULES, arrivals[|arrivals| - 1]);
      Outcome(next.store, before.detections + next.detections)
  }

  lemma {:induction false} RunStreamConcat(setup: Setup, st: Store, xs: seq<Arrival>, ys: seq<Arrival>)
    requires setup.Complete()
    ensures var first := RunStream(setup, st, xs);
      var second := RunStream(setup, first.store, ys);
      RunStream(setup, st, xs + ys) == Outcome(second.store, first.detections + second.detections)
  {
    var first := RunStream(setup, st, xs);
    if ys == [] {
      assert xs + ys == xs && first.detections + [] == first.detections;
    } else {
      var front, y := ys[..|ys| - 1], ys[|ys| - 1];
      RunStreamConcat(setup, st, xs, front);
      assert (xs + ys)[..|xs + ys| - 1] == xs + front;
      var next := RunRules(setup, RunStream(setup, first.store, front).store, RULES, y);
      assert first.detections + (RunStream(setup, first.store, front).detections + next.detections) ==
             (first.detections + RunStream(setup, first.store, front).detections) + next.detections;
    }
  }

  /** The rules of a list that are not switched off. */
  function Enabled(setup: Setup, rules: seq<Rule>): seq<Rule> {
    if rules == [] then []
    else
      var before, r := Enabled(setup, rules[..|rules| - 1]), rules[|rules| - 1];
      if r.Id() in setup.disabled then before else before + [r]
  }

  /** Switching rules off is taking them out of the list: no window of theirs changes, nothing is
      detected, and the other rules see no difference. */
  lemma {:induction false} OffMeansAbsent(setup: Setup, st: Store, rules: seq<Rule>, a: Arrival)
    requires setup.Complete()
    ensures RunRules(setup, st, rules, a) == RunRules(setup.(disabled := {}), st, Enabled(setup, rules), a)
  {
    if rules != [] {
      var front, r := rules[..|rules| - 1], rules[|rules| - 1];
      OffMeansAbsent(setup, st, front, a);
      if r.Id() !in setup.disabled {
        assert (Enabled(setup, front) + [r])[..|Enabled(setup, front)|] == Enabled(setup, front);
        SameTurn(setup, RunRules(setup, st, front, a), r, a);
      }
    }
  }

  lemma {:induction false} SameTurn(setup: Setup, before: Outcome, r: Rule, a: Arrival)
    requires setup.Complete() && r.Id() !in setup.disabled
    ensures Turn(setup, before, r, a) == Turn(setup.(disabled := {}), before, r, a)
  {
  }

  class DetectionEngine {
    const windows: WindowStore
    const params: map<Rule, Params>
    var disabled: set<string>

    constructor (windows: WindowStore, params: map<Rule, Params>)
      ensures this.windows == windows && this.params == params && disabled == {}
    {
      this.windows, this.params, disabled := windows, params, {};
    }

    function GetSetup(): Setup
      reads this
    {
      Setup(params, disabled, windows.namespace)
    }

    method SetEnabled(ruleId: string, enabled: bool)
      modifies this
      ensures forall id :: id in disabled <==> if id == ruleId then !enabled else id in old(disabled)
    {
      disabled := if enabled then disabled - {ruleId} else disabled + {ruleId};
    }

    method EvaluateBruteForce(a: Arrival) returns (detection: Option<Detection>)
      requires GetSetup().Complete() && Applies(BruteForce, a.event)
      modifies windows
      ensures var c := CommandOf(GetSetup(), BruteForce, a);
        && windows.State() == Execute(old(windows.State()), c)
        && detection == Verdict(GetSetup(), BruteForce, a, Seen(windows.State(), c.key).entries)
    {
      var p, e, result := params[BruteForce], a.event, WindowResult(0, [], 0, 0);
      if e.eventType == AuthSuccess {
        result := windows.Measure("bruteforce", e.sourceIp.value, p.window, a.wall);
      } else {
        result := windows.AddAndMeasure("bruteforce", e.sourceIp.value, OrElse(e.username, "-"),
                                        p.window, e.timestamp, a.wall);
      }
      detection := BruteForceVerdict(p, a, result);
    }

    method EvaluatePasswordSpray(a: Arrival) returns (detection: Option<Detection>)
      requires GetSetup().Complete() && Applies(PasswordSpray, a.event)
      modifies windows
      ensures var c := CommandOf(GetSetup(), PasswordSpray, a);
        && windows.State() == Execute(old(windows.State()), c)
        && detection == Verdict(GetSetup(), PasswordSpray, a, Seen(windows.State(), c.key).entries)
    {
      var p, e := params[PasswordSpray], a.event;
      var result := windows.AddAndMeasure("spray", e.sourceIp.value, Lower(OrElse(e.username, "-")),
                                          p.window, e.timestamp, a.wall);
      detection := SprayVerdict(p, a, result);
    }

    method EvaluatePortScan(a: Arrival) returns (detection: Option<Detection>)
      requires GetSetup().Complete() && Applies(PortScan, a.event)
      modifies windows
      ensures var c := CommandOf(GetSetup(), PortScan, a);
        && windows.State() == Execute(old(windows.State()), c)
        && detection == Verdict(GetSetup(), PortScan, a, Seen(windows.State(), c.key).entries)
    {
      var p, e := params[PortScan], a.event;
      var result := windows.AddAndMeasure("portscan", e.sourceIp.value, Decimal(e.destinationPort.value),
                                          p.window, e.timestamp, a.wall);
      detection := PortScanVerdict(p, a, result);
    }

    method EvaluateDataExfiltration(a: Arrival) returns (detection: Option<Detection>)
      requires GetSetup().Complete() && Applies(DataExfiltration, a.event)
      modifies windows
      ensures var c := CommandOf(GetSetup(), DataExfiltration, a);
        && windows.State() == Execute(old(windows.State()), c)
        && detection == Verdict(GetSetup(), DataExfiltration, a, Seen(windows.State(), c.key).entries)
    {
      var p, e := params[DataExfiltration], a.event;
      var entity := e.sourceIp.value + "->" + OrElse(e.destinationIp, "any");
      var total := windows.IncrSum("exfil", entity, e.bytesOut, p.window, e.timestamp, a.wall);
      detection := ExfiltrationVerdict(p, a, total);
    }

    method EvaluateAuthAnomaly(a: Arrival) returns (detection: Option<Detection>)
      requires GetSetup().Complete() && Applies(AuthAnomaly, a.event)
      modifies windows
      ensures var c := CommandOf(GetSetup(), AuthAnomaly, a);
        && windows.State() == Execute(old(windows.State()), c)
        && detection == Verdict(GetSetup(), AuthAnomaly, a, Seen(windows.State(), c.key).entries)
    {
      var p, e := params[AuthAnomaly], a.event;
      var bucket := if e.status == Some(Success) then "authgeo_ok" else "authgeo_fail";
      var result := windows.AddAndMeasure(bucket, Lower(e.username.value), e.sourceIp.value,
                                          p.window, e.timestamp, a.wall);
      detection := AuthAnomalyVerdict(p, a, result);
    }

    method EvaluateRule(r: Rule, a: Arrival) returns (detection: Option<Detection>)
      requires GetSetup().Complete() && Applies(r, a.event)
      modifies windows
      ensures var c := CommandOf(GetSetup(), r, a);
        && windows.State() == Execute(old(windows.State()), c)
        && detection == Verdict(GetSetup(), r, a, Seen(windows.State(), c.key).entries)
    {
      match r {
        case BruteForce => detection := EvaluateBruteForce(a);
        case PasswordSpray => detection := EvaluatePasswordSpray(a);
        case PortScan => detection := EvaluatePortScan(a);
        case DataExfiltration => detection := EvaluateDataExfiltration(a);
        case AuthAnomaly => detection := EvaluateAuthAnomaly(a);
      }
    }

    method Evaluate(a: Arrival) returns (detections: seq<Detection>)
      requires GetSetup().Complete()
      modifies windows
      ensures Outcome(windows.State(), detections) ==
              RunRules(GetSetup(), old(windows.State()), RULES, a)
    {
      detections := [];
      for i := 0 to |RULES|
        invariant Outcome(windows.State(), detections) ==
                  RunRules(GetSetup(), old(windows.State()), RULES[..i], a)
      {
        var r := RULES[i];
        assert RULES[..i + 1][..i] == RULES[..i];
        if r.Id() !in disabled && Applies(r, a.event) {
          var detection := EvaluateRule(r, a);
          if detection.Some? {
            detections := detections + [detection.value];
          }
        }
      }
      assert RULES[..|RULES|] == RULES;
    }
  }
}
