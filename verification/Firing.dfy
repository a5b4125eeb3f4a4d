/** When the windowed rules fire, in terms of the full event history: each rule's trimmed, expiring
    sorted set is replaced by a plain count, set or sum over every event ever evaluated. */
module Firing {
  import opened Text
  import opened Events
  import opened Windows
  import opened Rules

  const START: Store := Store(map[], 0)

  // ---------------------------------------------------------------- the commands of a history

  function CommandsOf(setup: Setup, rules: seq<Rule>, a: Arrival): seq<Command>
    requires setup.Complete()
  {
    if rules == [] then []
    else
      var before, r := CommandsOf(setup, rules[..|rules| - 1], a), rules[|rules| - 1];
      if Runs(setup, r, a.event) then before + [CommandOf(setup, r, a)] else before
  }

  function HistoryCommands(setup: Setup, hist: seq<Arrival>): seq<Command>
    requires setup.Complete()
  {
    if hist == [] then []
    else HistoryCommands(setup, hist[..|hist| - 1]) + CommandsOf(setup, RULES, hist[|hist| - 1])
  }

  lemma {:induction false} ExecuteAllConcat(st: Store, xs: seq<Command>, ys: seq<Command>)
    ensures ExecuteAll(st, xs + ys) == ExecuteAll(ExecuteAll(st, xs), ys)
  {
    if ys == [] {
      assert xs + ys == xs;
    } else {
      assert (xs + ys)[..|xs + ys| - 1] == xs + ys[..|ys| - 1];
      ExecuteAllConcat(st, xs, ys[..|ys| - 1]);
    }
  }

  lemma {:induction false} TurnExecutes(setup: Setup, st: Store, rules: seq<Rule>, a: Arrival)
    requires setup.Complete() && rules != []
    ensures var r, before := rules[|rules| - 1], RunRules(setup, st, rules[..|rules| - 1], a).store;
      RunRules(setup, st, rules, a).store ==
      if Runs(setup, r, a.event) then Execute(before, CommandOf(setup, r, a)) else before
  {
  }

  lemma {:induction false} RulesExecute(setup: Setup, st: Store, rules: seq<Rule>, a: Arrival)
    requires setup.Complete()
    ensures RunRules(setup, st, rules, a).store == ExecuteAll(st, CommandsOf(setup, rules, a))
  {
    if rules != [] {
      var front, r := rules[..|rules| - 1], rules[|rules| - 1];
      RulesExecute(setup, st, front, a);
      TurnExecutes(setup, st, rules, a);
      if Runs(setup, r, a.event) { ExecuteAppend(st, CommandsOf(setup, front, a), CommandOf(setup, r, a)); }
    }
  }

  lemma {:induction false} ExecuteAppend(st: Store, cs: seq<Command>, c: Command)
    ensures ExecuteAll(st, cs + [c]) == Execute(ExecuteAll(st, cs), c)
  {
    assert (cs + [c])[..|cs|] == cs;
  }

  lemma {:induction false} StreamExecutes(setup: Setup, hist: seq<Arrival>)
    requires setup.Complete()
    ensures RunStream(setup, START, hist).store == ExecuteAll(START, HistoryCommands(setup, hist))
  {
    if hist != [] {
      var front, a := hist[..|hist| - 1], hist[|hist| - 1];
      StreamExecutes(setup, front);
      var st := RunStream(setup, START, front).store;
      RulesExecute(setup, st, RULES, a);
      ExecuteAllConcat(START, HistoryCommands(setup, front), CommandsOf(setup, RULES, a));
    }
  }

  // ---------------------------------------------------------------- keys

  predicate Owns(r: Rule, name: string) {
    match r
    case BruteForce => name == "bruteforce"
    case PasswordSpray => name == "spray"
    case PortScan => name == "portscan"
    case DataExfiltration => name == "exfil"
    case AuthAnomaly => name == "authgeo_ok" || name == "authgeo_fail"
  }

  lemma {:induction false} KeyInjective(namespace: string, name: string, entity: string, name': string, entity': string)
    requires ':' !in name && ':' !in name'
    requires KeyOf(namespace, name, entity) == KeyOf(namespace, name', entity')
    ensures name == name' && entity == entity'
  {
    var key, start := KeyOf(namespace, name, entity), |namespace| + 1;
    FirstColon(namespace, name, entity);
    FirstColon(namespace, name', entity');
    assert name == key[start..start + |name|] && name' == key[start..start + |name'|];
    assert entity == key[start + |name| + 1..] && entity' == key[start + |name'| + 1..];
  }

  lemma {:induction false} FirstColon(namespace: string, name: string, entity: string)
    requires ':' !in name
    ensures var key, start := KeyOf(namespace, name, entity), |namespace| + 1;
      key[start + |name|] == ':' && forall i :: start <= i < start + |name| ==> key[i] != ':'
  {
    var key, start := KeyOf(namespace, name, entity), |namespace| + 1;
    forall i | start <= i < start + |name| ensures key[i] != ':' {
      assert key[i] == name[i - start];
    }
  }

  lemma {:induction false} OwnsName(r: Rule, e: SecurityEvent)
    requires Applies(r, e)
    ensures Owns(r, ProbeOf(r, e).name) && ':' !in ProbeOf(r, e).name
  {
  }

  /** The source and destination pair whose bytes add up. */
  function Pair(e: SecurityEvent): string
    requires e.sourceIp.Some?
  {
    e.sourceIp.value + "->" + OrElse(e.destinationIp, "any")
  }

  /** Two events that a rule counts in one window. */
  predicate SameWindow(r: Rule, e: SecurityEvent, e': SecurityEvent)
    requires Applies(r, e) && Applies(r, e')
  {
    match r
    case BruteForce => e.sourceIp == e'.sourceIp
    case PasswordSpray => e.sourceIp == e'.sourceIp
    case PortScan => e.sourceIp == e'.sourceIp
    case DataExfiltration => Pair(e) == Pair(e')
    case AuthAnomaly =>
      && Lower(e.username.value) == Lower(e'.username.value)
      && (e.status == Some(Success) <==> e'.status == Some(Success))
  }

  lemma {:induction false} SameProbe(r: Rule, e: SecurityEvent, e': SecurityEvent)
    requires Applies(r, e) && Applies(r, e')
    ensures SameWindow(r, e, e') <==>
      ProbeOf(r, e).name == ProbeOf(r, e').name && ProbeOf(r, e).entity == ProbeOf(r, e').entity
  {
    assert |"authgeo_ok"| != |"authgeo_fail"|;
  }

  /** No two rules, and no two windows of a rule, share a key. */
  lemma {:induction false} OneKeyEach(setup: Setup, r: Rule, a: Arrival, r': Rule, a': Arrival)
    requires setup.Complete() && Applies(r, a.event) && Applies(r', a'.event)
    ensures CommandOf(setup, r, a).key == CommandOf(setup, r', a').key <==>
      r == r' && SameWindow(r, a.event, a'.event)
  {
    var p, p' := ProbeOf(r, a.event), ProbeOf(r', a'.event);
    OwnsName(r, a.event);
    OwnsName(r', a'.event);
    if CommandOf(setup, r, a).key == CommandOf(setup, r', a').key {
      KeyInjective(setup.namespace, p.name, p.entity, p'.name, p'.entity);
      NamesDiffer(r, r', p.name);
    }
    if r == r' { SameProbe(r, a.event, a'.event); }
  }

  lemma {:induction false} NamesDiffer(r: Rule, r': Rule, name: string)
    requires Owns(r, name) && Owns(r', name)
    ensures r == r'
  {
    assert "bruteforce"[0] == 'b' && "spray"[0] == 's' && "portscan"[0] == 'p' && "exfil"[0] == 'e'
        && "authgeo_ok"[0] == 'a' && "authgeo_fail"[0] == 'a';
  }

  // ---------------------------------------------------------------- one rule's key

  function ReadBack(op: Op): Op {
    if op.Add? then op.(value := Decode(op.value)) else op
  }

  /** The uses a rule makes, over a history, of the window that `like` makes it use. */
  function RuleUses(setup: Setup, r: Rule, like: Arrival, hist: seq<Arrival>): seq<Op>
    requires Applies(r, like.event)
  {
    if hist == [] then []
    else
      var a, before := hist[|hist| - 1], RuleUses(setup, r, like, hist[..|hist| - 1]);
      if Runs(setup, r, a.event) && SameWindow(r, a.event, like.event)
      then before + [ReadBack(OpOf(r, a))] else before
  }

  lemma {:induction false} UsesConcat(xs: seq<Command>, ys: seq<Command>, key: string)
    ensures UsesOf(xs + ys, key) == UsesOf(xs, key) + UsesOf(ys, key)
  {
    if ys == [] {
      assert xs + ys == xs;
    } else {
      assert (xs + ys)[..|xs + ys| - 1] == xs + ys[..|ys| - 1];
      UsesConcat(xs, ys[..|ys| - 1], key);
    }
  }

  lemma {:induction false} UsesAppend(cs: seq<Command>, c: Command, key: string)
    ensures UsesOf(cs + [c], key) == if c.key == key then UsesOf(cs, key) + [ReadBack(c.op)] else UsesOf(cs, key)
  {
    assert (cs + [c])[..|cs|] == cs;
  }

  lemma {:induction false} UsesOfRules(setup: Setup, rules: seq<Rule>, r: Rule, like: Arrival, a: Arrival)
    requires setup.Complete() && Applies(r, like.event)
    requires forall i, j :: 0 <= i < j < |rules| ==> rules[i] != rules[j]
    ensures var key := CommandOf(setup, r, like).key;
      UsesOf(CommandsOf(setup, rules, a), key) ==
      if r in rules && Runs(setup, r, a.event) && SameWindow(r, a.event, like.event)
      then [ReadBack(OpOf(r, a))] else []
  {
    if rules != [] {
      var front, last := rules[..|rules| - 1], rules[|rules| - 1];
      UsesOfRules(setup, front, r, like, a);
      assert r in rules <==> r in front || r == last;
      if Runs(setup, last, a.event) {
        OneKeyEach(setup, last, a, r, like);
        UsesAppend(CommandsOf(setup, front, a), CommandOf(setup, last, a), CommandOf(setup, r, like).key);
      }
    }
  }

  lemma {:induction false} EveryRule(r: Rule)
    ensures r in RULES && forall i, j :: 0 <= i < j < |RULES| ==> RULES[i] != RULES[j]
  {
    assert RULES[0] == BruteForce && RULES[1] == PasswordSpray && RULES[2] == PortScan
        && RULES[3] == DataExfiltration && RULES[4] == AuthAnomaly;
  }

  lemma {:induction false} UsesOfHistory(setup: Setup, r: Rule, like: Arrival, hist: seq<Arrival>)
    requires setup.Complete() && Applies(r, like.event)
    ensures UsesOf(HistoryCommands(setup, hist), CommandOf(setup, r, like).key) == RuleUses(setup, r, like, hist)
  {
    if hist != [] {
      var front, a, key := hist[..|hist| - 1], hist[|hist| - 1], CommandOf(setup, r, like).key;
      UsesOfHistory(setup, r, like, front);
      EveryRule(r);
      UsesOfRules(setup, RULES, r, like, a);
      UsesConcat(HistoryCommands(setup, front), CommandsOf(setup, RULES, a), key);
    }
  }

  lemma {:induction false} RuleWindowOnly(setup: Setup, rules: seq<Rule>, r: Rule, like: Arrival, a: Arrival)
    requires setup.Complete() && Applies(r, like.event)
    ensures forall c :: c in CommandsOf(setup, rules, a) && c.key == CommandOf(setup, r, like).key ==>
      c.window == setup.params[r].window
  {
    if rules != [] {
      var last := rules[|rules| - 1];
      RuleWindowOnly(setup, rules[..|rules| - 1], r, like, a);
      if Runs(setup, last, a.event) { OneKeyEach(setup, last, a, r, like); }
    }
  }

  lemma {:induction false} KeyWindow(setup: Setup, r: Rule, like: Arrival, hist: seq<Arrival>)
    requires setup.Complete() && Applies(r, like.event)
    ensures forall c :: c in HistoryCommands(setup, hist) && c.key == CommandOf(setup, r, like).key ==>
      c.window == setup.params[r].window
  {
    if hist != [] {
      KeyWindow(setup, r, like, hist[..|hist| - 1]);
      RuleWindowOnly(setup, RULES, r, like, hist[|hist| - 1]);
    }
  }

  /** What a rule's key holds depends only on the rule's own uses of it. */
  lemma {:induction false} KeyHolds(setup: Setup, r: Rule, like: Arrival, hist: seq<Arrival>)
    requires setup.Complete() && Applies(r, like.event)
    ensures var st := RunStream(setup, START, hist).store;
      && Minted(st)
      && Seen(st, CommandOf(setup, r, like).key) ==
         RunExpiring(RuleUses(setup, r, like, hist), setup.params[r].window)
  {
    var key := CommandOf(setup, r, like).key;
    StreamExecutes(setup, hist);
    KeyWindow(setup, r, like, hist);
    EachKeyOnItsOwn(HistoryCommands(setup, hist), key, setup.params[r].window);
    UsesOfHistory(setup, r, like, hist);
  }

  // ---------------------------------------------------------------- firing

  /** The detections of the last event of a history. */
  function LastDetections(setup: Setup, hist: seq<Arrival>): seq<Detection>
    requires setup.Complete() && hist != []
  {
    RunRules(setup, RunStream(setup, START, hist[..|hist| - 1]).store, RULES, hist[|hist| - 1]).detections
  }

  ghost predicate Reports(ds: seq<Detection>, r: Rule) {
    exists d :: d in ds && d.ruleId == r.Id()
  }

  ghost predicate Fired(setup: Setup, hist: seq<Arrival>, r: Rule)
    requires setup.Complete() && hist != []
  {
    Reports(LastDetections(setup, hist), r)
  }

  lemma {:induction false} ReportsAppend(ds: seq<Detection>, d: Detection, r: Rule)
    ensures Reports(ds + [d], r) <==> Reports(ds, r) || d.ruleId == r.Id()
  {
    if Reports(ds, r) {
      var x :| x in ds && x.ruleId == r.Id();
      assert x in ds + [d];
    }
    assert d in ds + [d];
  }

  /** One detector's turn adds a report of its own rule, when it concludes something, and no other. */
  lemma {:induction false} OneTurn(setup: Setup, st: Store, rules: seq<Rule>, r: Rule, a: Arrival)
    requires setup.Complete() && rules != [] && Runs(setup, rules[|rules| - 1], a.event)
    ensures var last := rules[|rules| - 1];
      var before, after := RunRules(setup, st, rules[..|rules| - 1], a), RunRules(setup, st, rules, a);
      && after.store == Execute(before.store, CommandOf(setup, last, a))
      && (Reports(after.detections, r) <==>
          || Reports(before.detections, r)
          || (r == last && Concludes(setup, last, a, after.store)))
  {
    var last := rules[|rules| - 1];
    var before, c := RunRules(setup, st, rules[..|rules| - 1], a), CommandOf(setup, last, a);
    var entries := Seen(Execute(before.store, c), c.key).entries;
    var verdict := Verdict(setup, last, a, entries);
    if verdict.Some? {
      VerdictRule(setup, last, a, entries);
      IdsDiffer(last, r);
      ReportsAppend(before.detections, verdict.value, r);
    }
  }

  /** A rule's conclusion from what its key holds in a store is a detection. */
  ghost predicate Concludes(setup: Setup, r: Rule, a: Arrival, st: Store)
    requires setup.Complete() && Applies(r, a.event)
  {
    Verdict(setup, r, a, Seen(st, CommandOf(setup, r, a).key).entries).Some?
  }

  /** Another rule's turn leaves a rule's conclusion as it was. */
  lemma {:induction false} LaterTurn(setup: Setup, st: Store, r: Rule, last: Rule, a: Arrival)
    requires setup.Complete() && Minted(st) && Applies(last, a.event)
    ensures Minted(Execute(st, CommandOf(setup, last, a)))
    ensures r != last && Applies(r, a.event) ==>
      (Concludes(setup, r, a, Execute(st, CommandOf(setup, last, a))) <==> Concludes(setup, r, a, st))
  {
    CommandSteps(st, CommandOf(setup, last, a));
    if r != last && Applies(r, a.event) {
      OneKeyEach(setup, last, a, r, a);
      SameConclusion(setup, r, a, st, Execute(st, CommandOf(setup, last, a)));
    }
  }

  lemma {:induction false} IdleTurn(setup: Setup, st: Store, rules: seq<Rule>, a: Arrival)
    requires setup.Complete() && rules != [] && !Runs(setup, rules[|rules| - 1], a.event)
    ensures RunRules(setup, st, rules, a) == RunRules(setup, st, rules[..|rules| - 1], a)
  {
  }

  /** A rule reports exactly when its conclusion from what its key holds in the end is a detection:
      the rules after it leave that key alone. */
  lemma {:induction false} ReportsIff(setup: Setup, st: Store, rules: seq<Rule>, r: Rule, a: Arrival)
    requires setup.Complete() && Minted(st)
    requires forall i, j :: 0 <= i < j < |rules| ==> rules[i] != rules[j]
    ensures var out := RunRules(setup, st, rules, a);
      && Minted(out.store)
      && (Reports(out.detections, r) <==>
          r in rules && Runs(setup, r, a.event) && Concludes(setup, r, a, out.store))
  {
    if rules != [] {
      var front, last := rules[..|rules| - 1], rules[|rules| - 1];
      ReportsIff(setup, st, front, r, a);
      assert (r in rules <==> r in front || r == last) && last !in front;
      if Runs(setup, last, a.event) {
        OneTurn(setup, st, rules, r, a);
        LaterTurn(setup, RunRules(setup, st, front, a).store, r, last, a);
      } else {
        IdleTurn(setup, st, rules, a);
      }
    }
  }

  lemma {:induction false} SameConclusion(setup: Setup, r: Rule, a: Arrival, st: Store, st': Store)
    requires setup.Complete() && Applies(r, a.event)
    requires var key := CommandOf(setup, r, a).key; Get(st, key) == Get(st', key)
    ensures Concludes(setup, r, a, st) <==> Concludes(setup, r, a, st')
  {
  }

  lemma {:induction false} IdsDiffer(r: Rule, r': Rule)
    ensures r.Id() == r'.Id() <==> r == r'
  {
    assert "RULE-001"[7] == '1' && "RULE-002"[7] == '2' && "RULE-003"[7] == '3'
        && "RULE-006"[7] == '6' && "RULE-007"[7] == '7';
  }

  lemma {:induction false} CommandSteps(st: Store, c: Command)
    requires Minted(st)
    ensures Minted(Execute(st, c)) && forall k :: k != c.key ==> Get(Execute(st, c), k) == Get(st, k)
  {
    match c.op
    case Add(value, stamp, wall) => AddToSteps(st, c.key, value, c.window, stamp, wall);
    case Look(wall) => LookAtSteps(st, c.key, c.window, wall);
  }

  /** The uses of the key that the last event's rule looks at are made in wall-clock order, on time,
      and the last one is the latest. */
  ghost predicate Orderly(setup: Setup, hist: seq<Arrival>, r: Rule)
    requires setup.Complete() && hist != [] && Applies(r, hist[|hist| - 1].event)
  {
    var uses := RuleUses(setup, r, hist[|hist| - 1], hist);
    setup.params[r].window > 0 && Punctual(uses) && LastIsLatest(uses)
  }

  /** The values a rule counts at the last event of a history, by a plain pass over all of it. */
  function Counted(setup: Setup, hist: seq<Arrival>, r: Rule): seq<Entry>
    requires setup.Complete() && hist != [] && Runs(setup, r, hist[|hist| - 1].event)
  {
    var uses := RuleUses(setup, r, hist[|hist| - 1], hist);
    Recent(uses, uses[|uses| - 1].Cutoff(setup.params[r].window))
  }

  lemma {:induction false} CountedIsHeld(setup: Setup, hist: seq<Arrival>, r: Rule)
    requires setup.Complete() && hist != [] && Runs(setup, r, hist[|hist| - 1].event)
    requires Orderly(setup, hist, r)
    ensures Counted(setup, hist, r) ==
            Seen(RunStream(setup, START, hist).store, CommandOf(setup, r, hist[|hist| - 1]).key).entries
  {
    var a := hist[|hist| - 1];
    KeyHolds(setup, r, a, hist);
    HeldIsRecent(RuleUses(setup, r, a, hist), setup.params[r].window);
  }

  lemma {:induction false} HeldIsRecent(uses: seq<Op>, window: nat)
    requires window > 0 && Punctual(uses) && LastIsLatest(uses)
    ensures RunExpiring(uses, window).entries == Recent(uses, uses[|uses| - 1].Cutoff(window))
  {
    ExpiryUnobservable(uses, window);
    RunIsRecent(uses, window);
  }

  lemma {:induction false} LastUse(setup: Setup, hist: seq<Arrival>, r: Rule)
    requires setup.Complete() && hist != [] && Runs(setup, r, hist[|hist| - 1].event)
    ensures var a := hist[|hist| - 1];
      var uses := RuleUses(setup, r, a, hist);
      uses != [] && uses[|uses| - 1].Now() == OpOf(r, a).Now()
  {
  }

  /** A rule fires on an event exactly when its conclusion from the plain pass is a detection. */
  lemma {:induction false} FiresOnHistory(setup: Setup, hist: seq<Arrival>, r: Rule)
    requires setup.Complete() && hist != [] && Runs(setup, r, hist[|hist| - 1].event)
    requires Orderly(setup, hist, r)
    ensures Fired(setup, hist, r) <==> Verdict(setup, r, hist[|hist| - 1], Counted(setup, hist, r)).Some?
  {
    FiredIff(setup, hist, r);
    CountedIsHeld(setup, hist, r);
  }

  lemma {:induction false} FiredIff(setup: Setup, hist: seq<Arrival>, r: Rule)
    requires setup.Complete() && hist != [] && Runs(setup, r, hist[|hist| - 1].event)
    ensures Fired(setup, hist, r) <==> Concludes(setup, r, hist[|hist| - 1], RunStream(setup, START, hist).store)
  {
    var front, a := hist[..|hist| - 1], hist[|hist| - 1];
    KeyHolds(setup, r, a, front);
    EveryRule(r);
    ReportsIff(setup, RunStream(setup, START, front).store, RULES, r, a);
  }

  /** A rule that is off, or does not look at the event, reports nothing. */
  lemma {:induction false} OnlyRunningFire(setup: Setup, hist: seq<Arrival>, r: Rule)
    requires setup.Complete() && hist != [] && !Runs(setup, r, hist[|hist| - 1].event)
    ensures !Fired(setup, hist, r)
  {
    NoTurnNoReport(setup, RunStream(setup, START, hist[..|hist| - 1]).store, RULES, r, hist[|hist| - 1]);
  }

  lemma {:induction false} NoTurnNoReport(setup: Setup, st: Store, rules: seq<Rule>, r: Rule, a: Arrival)
    requires setup.Complete() && !Runs(setup, r, a.event)
    ensures !Reports(RunRules(setup, st, rules, a).detections, r)
  {
    if rules != [] {
      NoTurnNoReport(setup, st, rules[..|rules| - 1], r, a);
      if Runs(setup, rules[|rules| - 1], a.event) { OneTurn(setup, st, rules, r, a); } else { IdleTurn(setup, st, rules, a); }
    }
  }

  /** Whatever order the stamps come in, a rule fires exactly when its conclusion from the additions that
      survive is a detection: those whose stamp exceeds every later use's clock less the window. */
  lemma {:induction false} FiresInAnyOrder(setup: Setup, hist: seq<Arrival>, r: Rule)
    requires setup.Complete() && hist != [] && Runs(setup, r, hist[|hist| - 1].event)
    requires Punctual(RuleUses(setup, r, hist[|hist| - 1], hist))
    ensures var uses := RuleUses(setup, r, hist[|hist| - 1], hist);
      Fired(setup, hist, r) <==>
      Verdict(setup, r, hist[|hist| - 1], Survivors(uses, setup.params[r].window, |uses|)).Some?
  {
    var a, window := hist[|hist| - 1], setup.params[r].window;
    FiredIff(setup, hist, r);
    KeyHolds(setup, r, a, hist);
    ExpiryUnobservable(RuleUses(setup, r, a, hist), window);
    RunIsSurvivors(RuleUses(setup, r, a, hist), window);
  }

  // ---------------------------------------------------------------- the naive counts

  predicate HasText(s: Option<string>) {
    s.Some? && |s.value| > 0
  }

  /** A login, failed or not, from a known address. */
  predicate IsLogin(e: SecurityEvent) {
    (e.eventType == AuthFailure || e.eventType == AuthSuccess) && e.sourceIp.Some?
  }

  /** A failed login with an address and a user name. */
  predicate IsNamedFailure(e: SecurityEvent) {
    e.eventType == AuthFailure && HasText(e.sourceIp) && HasText(e.username)
  }

  /** An attempt to reach a port, let through or not. */
  predicate IsScan(e: SecurityEvent) {
    && (e.eventType == ConnectionAttempt || e.eventType == FirewallDeny || e.eventType == FirewallAllow
        || e.eventType == NetworkFlow)
    && e.sourceIp.Some? && e.destinationPort.Some?
  }

  /** A transfer of bytes out of a known address. */
  predicate IsTransfer(e: SecurityEvent) {
    && (e.eventType == NetworkFlow || e.eventType == FirewallAllow || e.eventType == HttpRequest)
    && e.bytesOut > 0 && HasText(e.sourceIp)
  }

  /** A login that names its account and address and reports success. */
  predicate IsSuccess(e: SecurityEvent) {
    && (e.eventType == AuthSuccess || e.eventType == AuthFailure) && e.status == Some(Success)
    && HasText(e.username) && HasText(e.sourceIp)
  }

  /** What each rule looks at, in these terms; RULE-007 looks at logins that fail too. */
  lemma {:induction false} LooksAt(e: SecurityEvent)
    ensures Applies(BruteForce, e) <==> IsLogin(e)
    ensures Applies(PasswordSpray, e) <==> IsNamedFailure(e)
    ensures Applies(PortScan, e) <==> IsScan(e)
    ensures Applies(DataExfiltration, e) <==> IsTransfer(e)
    ensures Applies(AuthAnomaly, e) && e.status == Some(Success) <==> IsSuccess(e)
  {
  }

  /** Failed logins from an address stamped later than `after`. */
  function FailuresSince(hist: seq<Arrival>, ip: string, after: int): nat {
    if hist == [] then 0
    else
      var e := hist[|hist| - 1].event;
      FailuresSince(hist[..|hist| - 1], ip, after) +
      if e.eventType == AuthFailure && e.sourceIp == Some(ip) && e.timestamp > after then 1 else 0
  }

  /** Distinct lower-cased account names that failed to log in from an address. */
  function UsersTriedSince(hist: seq<Arrival>, ip: string, after: int): set<string> {
    if hist == [] then {}
    else
      var e, before := hist[|hist| - 1].event, UsersTriedSince(hist[..|hist| - 1], ip, after);
      if e.eventType == AuthFailure && e.sourceIp == Some(ip) && Truthy(e.username)
         && Lower(e.username.value) != "-" && e.timestamp > after
      then before + {Lower(e.username.value)} else before
  }

  /** Distinct destination ports an address reached for. */
  function PortsTriedSince(hist: seq<Arrival>, ip: string, after: int): set<nat> {
    if hist == [] then {}
    else
      var e, before := hist[|hist| - 1].event, PortsTriedSince(hist[..|hist| - 1], ip, after);
      if IsScan(e) && e.sourceIp == Some(ip) && e.timestamp > after
      then before + {e.destinationPort.value} else before
  }

  /** Bytes sent over a source and destination pair. */
  function BytesSince(hist: seq<Arrival>, pair: string, after: int): nat {
    if hist == [] then 0
    else
      var e := hist[|hist| - 1].event;
      BytesSince(hist[..|hist| - 1], pair, after) +
      if IsTransfer(e) && Pair(e) == pair && e.timestamp > after then e.bytesOut else 0
  }

  /** Distinct addresses an account logged in from successfully. */
  function LoginsSince(hist: seq<Arrival>, user: string, after: int): set<string> {
    if hist == [] then {}
    else
      var e, before := hist[|hist| - 1].event, LoginsSince(hist[..|hist| - 1], user, after);
      if IsSuccess(e) && Lower(e.username.value) == user && e.timestamp > after
      then before + {e.sourceIp.value} else before
  }

  /** The values cut at their first separators. */
  function Cut(values: set<string>): set<string> {
    set v | v in values :: Decode(v)
  }

  /** The same names as RULE-002 tells them apart. */
  function CutUsersSince(hist: seq<Arrival>, ip: string, after: int): set<string> {
    Cut(UsersTriedSince(hist, ip, after)) - {"", "-"}
  }

  /** No account name contains the separator. */
  ghost predicate NamesWhole(hist: seq<Arrival>) {
    forall a :: a in hist && a.event.username.Some? ==> SEPARATOR !in a.event.username.value
  }

  /** No address contains the separator. */
  ghost predicate AddressesWhole(hist: seq<Arrival>) {
    forall a :: a in hist && a.event.sourceIp.Some? ==> SEPARATOR !in a.event.sourceIp.value
  }

  // ---------------------------------------------------------------- they agree

  lemma {:induction false} CountFailures(setup: Setup, like: Arrival, hist: seq<Arrival>, after: int)
    requires setup.Complete() && Runs(setup, BruteForce, like.event)
    ensures |Recent(RuleUses(setup, BruteForce, like, hist), after)| ==
            FailuresSince(hist, like.event.sourceIp.value, after)
  {
    if hist != [] {
      var front, a := hist[..|hist| - 1], hist[|hist| - 1];
      CountFailures(setup, like, front, after);
      var uses := RuleUses(setup, BruteForce, like, front);
      if Runs(setup, BruteForce, a.event) {
        RecentAppend(uses, ReadBack(OpOf(BruteForce, a)), after);
      }
    }
  }

  lemma {:induction false} RecentAppend(ops: seq<Op>, op: Op, after: int)
    ensures Recent(ops + [op], after) ==
            if op.Add? && op.stamp > after then Recent(ops, after) + [Entry(op.value, op.stamp)] else Recent(ops, after)
  {
    assert (ops + [op])[..|ops|] == ops;
  }

  lemma {:induction false} ValuesAppend(entries: seq<Entry>, e: Entry)
    ensures Values(entries + [e]) == Values(entries) + [e.value]
  {
    assert (entries + [e])[..|entries|] == entries;
  }

  lemma {:induction false} ElementsAppend(values: seq<string>, v: string)
    ensures Elements(values + [v]) == Elements(values) + {v}
  {
  }

  /** One more addition among the distinct values of a window. */
  lemma {:induction false} OneMoreValue(uses: seq<Op>, value: string, stamp: int, wall: int, after: int)
    ensures Elements(Values(Recent(uses + [Add(value, stamp, wall)], after))) ==
      if stamp > after then Elements(Values(Recent(uses, after))) + {value} else Elements(Values(Recent(uses, after)))
  {
    RecentAppend(uses, Add(value, stamp, wall), after);
    ValuesAppend(Recent(uses, after), Entry(value, stamp));
    ElementsAppend(Values(Recent(uses, after)), value);
  }

  lemma {:induction false} NamedOf(values: seq<string>)
    requires Ascending(values)
    ensures Ascending(Named(values))
    ensures Elements(Named(values)) == Elements(values) - {"", "-"}
  {
    if values != [] {
      NamedOf(values[1..]);
      assert values == [values[0]] + values[1..];
      assert Elements(values) == {values[0]} + Elements(values[1..]);
      var rest := Named(values[1..]);
      forall x | x in rest ensures Before(values[0], x) {
        assert x in Elements(rest) && x in values[1..];
      }
      assert Elements([values[0]] + rest) == {values[0]} + Elements(rest);
    }
  }

  lemma {:induction false} DecodeDigits(s: string)
    requires AllDigits(s)
    ensures Decode(s) == s
  {
    DecodeEncode(s, 0);
    if SEPARATOR in s {
      var i :| 0 <= i < |s| && s[i] == SEPARATOR;
      DigitAt(s, i);
    }
  }

  /** A placeholder name is left out before cutting or after, to the same effect. */
  lemma {:induction false} CutOneMore(counted: set<string>, whole: set<string>, name: string)
    requires counted - {"", "-"} == Cut(whole) - {"", "-"}
    ensures (counted + {Decode(name)}) - {"", "-"} == Cut(whole + {name}) - {"", "-"}
    ensures name == "-" ==> (counted + {Decode(name)}) - {"", "-"} == counted - {"", "-"}
  {
    DecodeDash(name);
    CutAdd(whole, name);
    UnionWithout(counted, {Decode(name)}, {"", "-"});
    UnionWithout(Cut(whole), {Decode(name)}, {"", "-"});
  }

  lemma {:induction false} UnionWithout<T>(a: set<T>, b: set<T>, x: set<T>)
    ensures (a + b) - x == (a - x) + (b - x)
  {
  }

  /** The name an event adds to RULE-002's window. */
  function SprayName(e: SecurityEvent): string
    requires Applies(PasswordSpray, e)
  {
    Lower(e.username.value)
  }

  lemma {:induction false} SprayUses(setup: Setup, like: Arrival, hist: seq<Arrival>)
    requires setup.Complete() && Runs(setup, PasswordSpray, like.event) && hist != []
    ensures var a, before := hist[|hist| - 1], RuleUses(setup, PasswordSpray, like, hist[..|hist| - 1]);
      RuleUses(setup, PasswordSpray, like, hist) ==
      if Runs(setup, PasswordSpray, a.event) && a.event.sourceIp == like.event.sourceIp
      then before + [Add(Decode(SprayName(a.event)), a.event.timestamp, a.wall)] else before
  {
  }

  lemma {:induction false} SprayTried(setup: Setup, like: Arrival, hist: seq<Arrival>, after: int)
    requires setup.Complete() && Runs(setup, PasswordSpray, like.event) && hist != []
    ensures var a, ip := hist[|hist| - 1], like.event.sourceIp.value;
      var before := UsersTriedSince(hist[..|hist| - 1], ip, after);
      UsersTriedSince(hist, ip, after) ==
      if Runs(setup, PasswordSpray, a.event) && a.event.sourceIp == like.event.sourceIp
         && SprayName(a.event) != "-" && a.event.timestamp > after
      then before + {SprayName(a.event)} else before
  {
  }

  lemma {:induction false} SprayedUsers(setup: Setup, like: Arrival, hist: seq<Arrival>, after: int)
    requires setup.Complete() && Runs(setup, PasswordSpray, like.event)
    ensures Elements(Values(Recent(RuleUses(setup, PasswordSpray, like, hist), after))) - {"", "-"} ==
            CutUsersSince(hist, like.event.sourceIp.value, after)
  {
    if hist != [] {
      var front, a := hist[..|hist| - 1], hist[|hist| - 1];
      SprayedUsers(setup, like, front, after);
      SprayUses(setup, like, hist);
      SprayTried(setup, like, hist, after);
      var uses, whole := RuleUses(setup, PasswordSpray, like, front), UsersTriedSince(front, like.event.sourceIp.value, after);
      if Runs(setup, PasswordSpray, a.event) && a.event.sourceIp == like.event.sourceIp {
        CutOneMore(Elements(Values(Recent(uses, after))), whole, SprayName(a.event));
        OneMoreValue(uses, Decode(SprayName(a.event)), a.event.timestamp, a.wall, after);
      }
    }
  }

  lemma {:induction false} LowerWhole(s: string)
    requires SEPARATOR !in s
    ensures Decode(Lower(s)) == Lower(s)
  {
    DecodeEncode(Lower(s), 0);
  }

  /** Whole names are told apart as they are. */
  lemma {:induction false} WholeNames(hist: seq<Arrival>, ip: string, after: int)
    requires NamesWhole(hist)
    ensures CutUsersSince(hist, ip, after) == UsersTriedSince(hist, ip, after)
  {
    if hist != [] {
      var front, a := hist[..|hist| - 1], hist[|hist| - 1];
      assert a in hist && forall x :: x in front ==> x in hist;
      WholeNames(front, ip, after);
      if Truthy(a.event.username) {
        var name, before := Lower(a.event.username.value), UsersTriedSince(front, ip, after);
        LowerWhole(a.event.username.value);
        CutAdd(before, name);
      }
    }
  }

  /** Cutting never makes two of one. */
  lemma {:induction false} CutHidesOnly(values: set<string>)
    ensures |Cut(values)| <= |values|
  {
    if values != {} {
      var v :| v in values;
      CutHidesOnly(values - {v});
      assert Cut(values) == Cut(values - {v}) + {Decode(v)};
    }
  }

  lemma {:induction false} DecodeDash(s: string)
    ensures s == "-" ==> Decode(s) == "-"
  {
    if s == "-" { assert s[1..] == ""; }
  }

  lemma {:induction false} OneMorePort(values: set<string>, ports: set<nat>, port: nat)
    requires |values| == |ports| && forall p: nat :: Decimal(p) in values <==> p in ports
    ensures |values + {Decimal(port)}| == |ports + {port}|
    ensures forall p: nat :: Decimal(p) in values + {Decimal(port)} <==> p in ports + {port}
  {
    forall p: nat ensures Decimal(p) == Decimal(port) <==> p == port {
      if Decimal(p) == Decimal(port) { DecimalInjective(p, port); }
    }
    if port in ports {
      assert values + {Decimal(port)} == values && ports + {port} == ports;
    }
  }

  lemma {:induction false} ScanUses(setup: Setup, like: Arrival, hist: seq<Arrival>)
    requires setup.Complete() && Runs(setup, PortScan, like.event) && hist != []
    ensures var a, before := hist[|hist| - 1], RuleUses(setup, PortScan, like, hist[..|hist| - 1]);
      RuleUses(setup, PortScan, like, hist) ==
      if IsScan(a.event) && a.event.sourceIp == like.event.sourceIp
      then before + [Add(Decimal(a.event.destinationPort.value), a.event.timestamp, a.wall)] else before
  {
    var a := hist[|hist| - 1];
    LooksAt(a.event);
    if IsScan(a.event) {
      DecimalValue(a.event.destinationPort.value);
      DecodeDigits(Decimal(a.event.destinationPort.value));
    }
  }

  lemma {:induction false} ScannedPorts(setup: Setup, like: Arrival, hist: seq<Arrival>, after: int)
    requires setup.Complete() && Runs(setup, PortScan, like.event)
    ensures var values := Elements(Values(Recent(RuleUses(setup, PortScan, like, hist), after)));
      var ports := PortsTriedSince(hist, like.event.sourceIp.value, after);
      |values| == |ports| && forall p: nat :: Decimal(p) in values <==> p in ports
  {
    if hist != [] {
      var front, a := hist[..|hist| - 1], hist[|hist| - 1];
      ScannedPorts(setup, like, front, after);
      ScanUses(setup, like, hist);
      if IsScan(a.event) && a.event.sourceIp == like.event.sourceIp {
        var uses, port := RuleUses(setup, PortScan, like, front), a.event.destinationPort.value;
        OneMoreValue(uses, Decimal(port), a.event.timestamp, a.wall, after);
        OneMorePort(Elements(Values(Recent(uses, after))), PortsTriedSince(front, like.event.sourceIp.value, after), port);
      }
    }
  }

  lemma {:induction false} TransferUses(setup: Setup, like: Arrival, hist: seq<Arrival>)
    requires setup.Complete() && Runs(setup, DataExfiltration, like.event) && hist != []
    ensures var a, before := hist[|hist| - 1], RuleUses(setup, DataExfiltration, like, hist[..|hist| - 1]);
      RuleUses(setup, DataExfiltration, like, hist) ==
      if IsTransfer(a.event) && Pair(a.event) == Pair(like.event)
      then before + [Add(Decimal(a.event.bytesOut), a.event.timestamp, a.wall)] else before
  {
    var a := hist[|hist| - 1];
    LooksAt(a.event);
    DecimalValue(a.event.bytesOut);
    DecodeDigits(Decimal(a.event.bytesOut));
  }

  lemma {:induction false} SentBytes(setup: Setup, like: Arrival, hist: seq<Arrival>, after: int)
    requires setup.Complete() && Runs(setup, DataExfiltration, like.event)
    ensures Total(Recent(RuleUses(setup, DataExfiltration, like, hist), after)) ==
            BytesSince(hist, Pair(like.event), after)
  {
    if hist != [] {
      var front, a := hist[..|hist| - 1], hist[|hist| - 1];
      SentBytes(setup, like, front, after);
      TransferUses(setup, like, hist);
      if IsTransfer(a.event) && Pair(a.event) == Pair(like.event) {
        var uses, bytes := RuleUses(setup, DataExfiltration, like, front), a.event.bytesOut;
        RecentAppend(uses, Add(Decimal(bytes), a.event.timestamp, a.wall), after);
        ParseRender(bytes);
        TotalAppend(Recent(uses, after), Entry(Decimal(bytes), a.event.timestamp));
      }
    }
  }

  /** A success by the same account as `like`. */
  predicate SameAccount(setup: Setup, a: Arrival, like: Arrival)
    requires Applies(AuthAnomaly, like.event)
  {
    Runs(setup, AuthAnomaly, a.event) && a.event.status == Some(Success) && SameWindow(AuthAnomaly, a.event, like.event)
  }

  lemma {:induction false} LoginUses(setup: Setup, like: Arrival, hist: seq<Arrival>)
    requires setup.Complete() && Runs(setup, AuthAnomaly, like.event) && like.event.status == Some(Success) && hist != []
    ensures var a, before := hist[|hist| - 1], RuleUses(setup, AuthAnomaly, like, hist[..|hist| - 1]);
      RuleUses(setup, AuthAnomaly, like, hist) ==
      if SameAccount(setup, a, like)
      then before + [Add(Decode(a.event.sourceIp.value), a.event.timestamp, a.wall)] else before
  {
  }

  lemma {:induction false} LoginTried(setup: Setup, like: Arrival, hist: seq<Arrival>, after: int)
    requires setup.Complete() && Runs(setup, AuthAnomaly, like.event) && like.event.status == Some(Success) && hist != []
    ensures var a, user := hist[|hist| - 1], Lower(like.event.username.value);
      var before := LoginsSince(hist[..|hist| - 1], user, after);
      LoginsSince(hist, user, after) ==
      if SameAccount(setup, a, like) && a.event.timestamp > after then before + {a.event.sourceIp.value} else before
  {
  }

  lemma {:induction false} CutAdd(values: set<string>, v: string)
    ensures Cut(values + {v}) == Cut(values) + {Decode(v)}
  {
  }

  lemma {:induction false} LoginAddresses(setup: Setup, like: Arrival, hist: seq<Arrival>, after: int)
    requires setup.Complete() && Runs(setup, AuthAnomaly, like.event) && like.event.status == Some(Success)
    ensures Elements(Values(Recent(RuleUses(setup, AuthAnomaly, like, hist), after))) ==
            Cut(LoginsSince(hist, Lower(like.event.username.value), after))
  {
    if hist != [] {
      var front, a := hist[..|hist| - 1], hist[|hist| - 1];
      LoginAddresses(setup, like, front, after);
      LoginUses(setup, like, hist);
      LoginTried(setup, like, hist, after);
      if SameAccount(setup, a, like) {
        var ip := a.event.sourceIp.value;
        OneMoreValue(RuleUses(setup, AuthAnomaly, like, front), Decode(ip), a.event.timestamp, a.wall, after);
        CutAdd(LoginsSince(front, Lower(like.event.username.value), after), ip);
      }
    }
  }

  // ---------------------------------------------------------------- main results

  /** Where the window of the last event's use begins. */
  function WindowStart(setup: Setup, hist: seq<Arrival>, r: Rule): int
    requires setup.Complete() && hist != [] && Applies(r, hist[|hist| - 1].event)
  {
    var a := hist[|hist| - 1];
    (if r == BruteForce && a.event.eventType == AuthSuccess then a.wall else a.event.timestamp) -
    setup.params[r].window
  }

  lemma {:induction false} CountedFrom(setup: Setup, hist: seq<Arrival>, r: Rule)
    requires setup.Complete() && hist != [] && Runs(setup, r, hist[|hist| - 1].event)
    ensures Counted(setup, hist, r) ==
            Recent(RuleUses(setup, r, hist[|hist| - 1], hist), WindowStart(setup, hist, r))
  {
    LastUse(setup, hist, r);
  }

  lemma {:induction false} DistinctCount(entries: seq<Entry>)
    ensures (|SortDistinct(Values(entries))|, |Named(SortDistinct(Values(entries)))|) ==
            (|Elements(Values(entries))|, |Elements(Values(entries)) - {"", "-"}|)
  {
    SortDistinctSorts(Values(entries));
    AscendingCount(SortDistinct(Values(entries)));
    NamedOf(SortDistinct(Values(entries)));
    AscendingCount(Named(SortDistinct(Values(entries))));
  }

  /** RULE-001 fires on a login event exactly when the failures from its address inside the window
      reach the threshold; the window ends at the event's own time for a failure and at the wall
      clock for a success. */
  lemma {:induction false} BruteForceFires(setup: Setup, hist: seq<Arrival>)
    requires setup.Complete() && hist != [] && (IsLogin(hist[|hist| - 1].event) ==> Orderly(setup, hist, BruteForce))
    ensures var e := hist[|hist| - 1].event;
      Fired(setup, hist, BruteForce) <==>
      && "RULE-001" !in setup.disabled && IsLogin(e)
      && FailuresSince(hist, e.sourceIp.value, WindowStart(setup, hist, BruteForce)) >= setup.params[BruteForce].threshold
  {
    LooksAt(hist[|hist| - 1].event);
    if !Runs(setup, BruteForce, hist[|hist| - 1].event) {
      OnlyRunningFire(setup, hist, BruteForce);
      return;
    }
    FiresOnHistory(setup, hist, BruteForce);
    CountedFrom(setup, hist, BruteForce);
    CountFailures(setup, hist[|hist| - 1], hist, WindowStart(setup, hist, BruteForce));
  }

  /** In any order of stamps RULE-001 fires exactly when the failures that survive reach the threshold. */
  lemma {:induction false} BruteForceFiresInAnyOrder(setup: Setup, hist: seq<Arrival>)
    requires setup.Complete() && hist != [] && "RULE-001" !in setup.disabled && IsLogin(hist[|hist| - 1].event)
    requires Punctual(RuleUses(setup, BruteForce, hist[|hist| - 1], hist))
    ensures var uses := RuleUses(setup, BruteForce, hist[|hist| - 1], hist);
      Fired(setup, hist, BruteForce) <==>
      |Survivors(uses, setup.params[BruteForce].window, |uses|)| >= setup.params[BruteForce].threshold
  {
    FiresInAnyOrder(setup, hist, BruteForce);
  }

  /** RULE-002 fires exactly when enough distinct lower-cased account names failed from the address,
      each taken up to its first separator. */
  lemma {:induction false} PasswordSprayFires(setup: Setup, hist: seq<Arrival>)
    requires setup.Complete() && hist != [] && (IsNamedFailure(hist[|hist| - 1].event) ==> Orderly(setup, hist, PasswordSpray))
    ensures var e := hist[|hist| - 1].event;
      Fired(setup, hist, PasswordSpray) <==>
      && "RULE-002" !in setup.disabled && IsNamedFailure(e)
      && |CutUsersSince(hist, e.sourceIp.value, WindowStart(setup, hist, PasswordSpray))| >= setup.params[PasswordSpray].threshold
  {
    LooksAt(hist[|hist| - 1].event);
    if !Runs(setup, PasswordSpray, hist[|hist| - 1].event) {
      OnlyRunningFire(setup, hist, PasswordSpray);
      return;
    }
    FiresOnHistory(setup, hist, PasswordSpray);
    CountedFrom(setup, hist, PasswordSpray);
    DistinctCount(Counted(setup, hist, PasswordSpray));
    SprayedUsers(setup, hist[|hist| - 1], hist, WindowStart(setup, hist, PasswordSpray));
  }

  /** So it never fires on too few names, and misses none when no name holds a separator. */
  lemma {:induction false} PasswordSprayAgainstNames(setup: Setup, hist: seq<Arrival>)
    requires setup.Complete() && hist != [] && "RULE-002" !in setup.disabled && IsNamedFailure(hist[|hist| - 1].event)
    requires Orderly(setup, hist, PasswordSpray)
    ensures var users := UsersTriedSince(hist, hist[|hist| - 1].event.sourceIp.value, WindowStart(setup, hist, PasswordSpray));
      && (Fired(setup, hist, PasswordSpray) ==> |users| >= setup.params[PasswordSpray].threshold)
      && (NamesWhole(hist) && |users| >= setup.params[PasswordSpray].threshold ==> Fired(setup, hist, PasswordSpray))
  {
    var ip, start := hist[|hist| - 1].event.sourceIp.value, WindowStart(setup, hist, PasswordSpray);
    PasswordSprayFires(setup, hist);
    CutHidesOnly(UsersTriedSince(hist, ip, start));
    SubsetCount(CutUsersSince(hist, ip, start), Cut(UsersTriedSince(hist, ip, start)));
    if NamesWhole(hist) { WholeNames(hist, ip, start); }
  }

  /** A source of failed logins under two names that differ only after a separator. */
  predicate TwoNames(setup: Setup, a: Arrival, b: Arrival, u: string, v: string)
    requires setup.Complete()
  {
    && Runs(setup, PasswordSpray, a.event) && Runs(setup, PasswordSpray, b.event)
    && a.event.sourceIp == b.event.sourceIp && a.event.username == Some(u) && b.event.username == Some(v)
    && a.event.timestamp <= b.event.timestamp < a.event.timestamp + setup.params[PasswordSpray].window
    && a.wall <= b.wall && a.wall - 30_000_000 <= a.event.timestamp <= a.wall && b.wall - 30_000_000 <= b.event.timestamp <= b.wall
    && Lower(u) != Lower(v) && "-" !in {Lower(u), Lower(v)} && Decode(Lower(u)) == Decode(Lower(v))
  }

  lemma {:induction false} TwoUses(setup: Setup, a: Arrival, b: Arrival, u: string, v: string)
    requires setup.Complete() && TwoNames(setup, a, b, u, v)
    ensures RuleUses(setup, PasswordSpray, b, [a, b]) ==
      [Add(Decode(Lower(u)), a.event.timestamp, a.wall), Add(Decode(Lower(v)), b.event.timestamp, b.wall)]
  {
    assert [a, b][..1] == [a] && [a][..0] == [];
    assert RuleUses(setup, PasswordSpray, b, []) == [];
    SprayUses(setup, b, [a]);
    SprayUses(setup, b, [a, b]);
  }

  lemma {:induction false} TwoTried(setup: Setup, a: Arrival, b: Arrival, u: string, v: string, after: int)
    requires setup.Complete() && TwoNames(setup, a, b, u, v) && after < a.event.timestamp
    ensures UsersTriedSince([a, b], b.event.sourceIp.value, after) == {Lower(u), Lower(v)}
  {
    assert [a, b][..1] == [a] && [a][..0] == [];
    assert UsersTriedSince([], b.event.sourceIp.value, after) == {};
    SprayTried(setup, b, [a], after);
    SprayTried(setup, b, [a, b], after);
  }

  /** A separator inside two names can make RULE-002 miss them: it counts one. */
  lemma {:induction false} SeparatorHidesNames(setup: Setup, a: Arrival, b: Arrival, u: string, v: string)
    requires setup.Complete() && TwoNames(setup, a, b, u, v) && setup.params[PasswordSpray].threshold == 2
    ensures !Fired(setup, [a, b], PasswordSpray)
    ensures |UsersTriedSince([a, b], b.event.sourceIp.value, WindowStart(setup, [a, b], PasswordSpray))| == 2
  {
    var start := WindowStart(setup, [a, b], PasswordSpray);
    TwoUses(setup, a, b, u, v);
    TwoTried(setup, a, b, u, v, start);
    PasswordSprayFires(setup, [a, b]);
    OneOfTwo(Lower(u), Lower(v));
  }

  lemma {:induction false} CutOfTwo(u: string, v: string)
    ensures Decode(u) == Decode(v) ==> Cut({u, v}) == {Decode(u)}
  {
  }

  lemma {:induction false} OneOfTwo(u: string, v: string)
    requires Decode(u) == Decode(v) && u != v
    ensures |Cut({u, v}) - {"", "-"}| <= 1 && |{u, v}| == 2
  {
    CutOfTwo(u, v);
    SubsetCount(Cut({u, v}) - {"", "-"}, {Decode(u)});
  }

  /** Such names exist: "a" and "b", and "a" and "c", joined by a separator. */
  lemma {:induction false} InnerSeparators()
    ensures var u, v := ['a', SEPARATOR, 'b'], ['a', SEPARATOR, 'c'];
      Lower(u) != Lower(v) && "-" !in {Lower(u), Lower(v)} && Decode(Lower(u)) == Decode(Lower(v)) == "a"
  {
    var u, v := ['a', SEPARATOR, 'b'], ['a', SEPARATOR, 'c'];
    assert Lower(u) == u && Lower(v) == v && u[2] != v[2];
    CutAfterFirst(u);
    CutAfterFirst(v);
  }

  lemma {:induction false} CutAfterFirst(s: string)
    requires |s| == 3 && s[0] == 'a' && s[1] == SEPARATOR
    ensures Decode(s) == "a"
  {
    assert s[1..][0] == SEPARATOR;
    assert Decode(s[1..]) == "";
  }

  /** RULE-003 fires exactly when the address reached for enough distinct ports. */
  lemma {:induction false} PortScanFires(setup: Setup, hist: seq<Arrival>)
    requires setup.Complete() && hist != [] && (IsScan(hist[|hist| - 1].event) ==> Orderly(setup, hist, PortScan))
    ensures var e := hist[|hist| - 1].event;
      Fired(setup, hist, PortScan) <==>
      && "RULE-003" !in setup.disabled && IsScan(e)
      && |PortsTriedSince(hist, e.sourceIp.value, WindowStart(setup, hist, PortScan))| >= setup.params[PortScan].threshold
  {
    LooksAt(hist[|hist| - 1].event);
    if !Runs(setup, PortScan, hist[|hist| - 1].event) {
      OnlyRunningFire(setup, hist, PortScan);
      return;
    }
    FiresOnHistory(setup, hist, PortScan);
    CountedFrom(setup, hist, PortScan);
    DistinctCount(Counted(setup, hist, PortScan));
    ScannedPorts(setup, hist[|hist| - 1], hist, WindowStart(setup, hist, PortScan));
  }

  /** RULE-006 fires exactly when the bytes over the source and destination pair reach a threshold
      that is not zero. */
  lemma {:induction false} DataExfiltrationFires(setup: Setup, hist: seq<Arrival>)
    requires setup.Complete() && hist != [] && (IsTransfer(hist[|hist| - 1].event) ==> Orderly(setup, hist, DataExfiltration))
    ensures var e := hist[|hist| - 1].event;
      Fired(setup, hist, DataExfiltration) <==>
      && "RULE-006" !in setup.disabled && IsTransfer(e) && setup.params[DataExfiltration].threshold != 0
      && BytesSince(hist, Pair(e), WindowStart(setup, hist, DataExfiltration)) >= setup.params[DataExfiltration].threshold
  {
    LooksAt(hist[|hist| - 1].event);
    if !Runs(setup, DataExfiltration, hist[|hist| - 1].event) {
      OnlyRunningFire(setup, hist, DataExfiltration);
      return;
    }
    FiresOnHistory(setup, hist, DataExfiltration);
    CountedFrom(setup, hist, DataExfiltration);
    SentBytes(setup, hist[|hist| - 1], hist, WindowStart(setup, hist, DataExfiltration));
  }

  /** RULE-007 fires exactly on a successful login to an account that enough distinct addresses, each
      taken up to its first separator, logged in to successfully. */
  lemma {:induction false} AuthAnomalyFires(setup: Setup, hist: seq<Arrival>)
    requires setup.Complete() && hist != [] && (IsSuccess(hist[|hist| - 1].event) ==> Orderly(setup, hist, AuthAnomaly))
    ensures var e := hist[|hist| - 1].event;
      Fired(setup, hist, AuthAnomaly) <==>
      && "RULE-007" !in setup.disabled && IsSuccess(e)
      && |Cut(LoginsSince(hist, Lower(e.username.value), WindowStart(setup, hist, AuthAnomaly)))|
         >= setup.params[AuthAnomaly].threshold
  {
    LooksAt(hist[|hist| - 1].event);
    if !Runs(setup, AuthAnomaly, hist[|hist| - 1].event) {
      OnlyRunningFire(setup, hist, AuthAnomaly);
    } else if hist[|hist| - 1].event.status != Some(Success) {
      FiredIff(setup, hist, AuthAnomaly);
    } else {
      FiresOnHistory(setup, hist, AuthAnomaly);
      CountedFrom(setup, hist, AuthAnomaly);
      DistinctCount(Counted(setup, hist, AuthAnomaly));
      LoginAddresses(setup, hist[|hist| - 1], hist, WindowStart(setup, hist, AuthAnomaly));
    }
  }

  lemma {:induction false} LoginsWhole(hist: seq<Arrival>, user: string, after: int)
    requires AddressesWhole(hist)
    ensures forall v :: v in LoginsSince(hist, user, after) ==> SEPARATOR !in v
  {
    if hist != [] {
      var front := hist[..|hist| - 1];
      assert hist[|hist| - 1] in hist && forall x :: x in front ==> x in hist;
      LoginsWhole(front, user, after);
    }
  }

  lemma {:induction false} CutWhole(values: set<string>)
    requires forall v :: v in values ==> SEPARATOR !in v
    ensures Cut(values) == values
  {
    forall v | v in values ensures Decode(v) == v { DecodeEncode(v, 0); }
  }

  /** Addresses without separators are told apart as they are. */
  lemma {:induction false} WholeAddresses(hist: seq<Arrival>, user: string, after: int)
    requires AddressesWhole(hist)
    ensures Cut(LoginsSince(hist, user, after)) == LoginsSince(hist, user, after)
  {
    LoginsWhole(hist, user, after);
    CutWhole(LoginsSince(hist, user, after));
  }
}
