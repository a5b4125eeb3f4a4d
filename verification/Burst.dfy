/** What a login attack looks like in the alerts table: windows, RULE-001 and correlation together
    (backend/app/detection/rules/brute_force.py, backend/app/detection/correlation.py). */
module Burst {
  import opened Text
  import opened Events
  import opened Windows
  import opened Rules
  import opened Firing
  import opened Alerts
  import opened Batching
  import Correlation

  // ---------------------------------------------------------------- RULE-001's share of one event

  /** What one rule adds for an event, given the store before its turn. */
  function Share(setup: Setup, st: Store, r: Rule, a: Arrival): seq<Detection>
    requires setup.Complete()
  {
    if !Runs(setup, r, a.event) then []
    else
      var c := CommandOf(setup, r, a);
      match Verdict(setup, r, a, Seen(Execute(st, c), c.key).entries)
      case None => []
      case Some(d) => [d]
  }

  lemma {:induction false} TurnAdds(setup: Setup, st: Store, rules: seq<Rule>, a: Arrival)
    requires setup.Complete() && rules != []
    ensures var before := RunRules(setup, st, rules[..|rules| - 1], a);
      RunRules(setup, st, rules, a).detections ==
      before.detections + Share(setup, before.store, rules[|rules| - 1], a)
  {
    var before := RunRules(setup, st, rules[..|rules| - 1], a);
    assert before.detections + [] == before.detections;
  }

  lemma {:induction false} ShareIsOwn(setup: Setup, st: Store, r: Rule, a: Arrival)
    requires setup.Complete()
    ensures |Share(setup, st, r, a)| <= 1
    ensures forall d :: d in Share(setup, st, r, a) ==> d.ruleId == r.Id()
  {
    if Runs(setup, r, a.event) {
      var c := CommandOf(setup, r, a);
      var entries := Seen(Execute(st, c), c.key).entries;
      if Verdict(setup, r, a, entries).Some? { VerdictRule(setup, r, a, entries); }
    }
  }

  /** RULE-001 takes its turn first; every other detection of the event carries another rule's id. */
  lemma {:induction false} BruteFirst(setup: Setup, st: Store, rules: seq<Rule>, a: Arrival) returns (rest: seq<Detection>)
    requires setup.Complete() && rules != [] && rules[0] == BruteForce
    requires forall i :: 0 < i < |rules| ==> rules[i] != BruteForce
    ensures RunRules(setup, st, rules, a).detections == Share(setup, st, BruteForce, a) + rest
    ensures forall d :: d in rest ==> d.ruleId != BruteForce.Id()
  {
    var front, last := rules[..|rules| - 1], rules[|rules| - 1];
    var before := RunRules(setup, st, front, a);
    TurnAdds(setup, st, rules, a);
    if |rules| == 1 {
      assert before == Outcome(st, []);
      rest := [];
    } else {
      rest := BruteFirst(setup, st, front, a);
      ShareIsOwn(setup, before.store, last, a);
      IdsDiffer(last, BruteForce);
      rest := rest + Share(setup, before.store, last, a);
    }
  }

  // ---------------------------------------------------------------- one address's alerts

  function AlertKey(ip: string): string {
    "srcip:" + ip
  }

  /** An alert RULE-001 raised about an address. */
  predicate About(a: Correlation.AlertRow, ip: string) {
    SameKey(a, BruteForce.Id(), AlertKey(ip))
  }

  predicate Concerns(d: Detection, ip: string) {
    d.ruleId == BruteForce.Id() && d.correlationKey == AlertKey(ip)
  }

  ghost predicate Closed(rows: seq<Correlation.AlertRow>, ip: string) {
    forall j :: 0 <= j < |rows| && About(rows[j], ip) ==> !rows[j].status.IsActive()
  }

  /** The address's alerts in `rows` are those of `was`, each unchanged in place, except row `i` if it
      is an index. */
  ghost predicate Beside(rows: seq<Correlation.AlertRow>, was: seq<Correlation.AlertRow>, ip: string, i: int) {
    && |was| <= |rows|
    && forall j :: 0 <= j < |rows| && j != i ==>
         (About(rows[j], ip) ==> j < |was|) && (j < |was| && (About(rows[j], ip) || About(was[j], ip)) ==> rows[j] == was[j])
  }

  /** Beside the alerts of `was` there is one new alert about the address: active, counting n events. */
  ghost predicate OneNew(rows: seq<Correlation.AlertRow>, was: seq<Correlation.AlertRow>, ip: string, i: int, n: int) {
    && Beside(rows, was, ip, i)
    && |was| <= i < |rows| && About(rows[i], ip) && rows[i].status.IsActive() && rows[i].eventCount == n
  }

  lemma {:induction false} OtherDetection(t: Table, was: seq<Correlation.AlertRow>, ip: string, i: int, d: Detection)
    requires Beside(t.rows, was, ip, i) && i < |t.rows| && !Concerns(d, ip)
    ensures Beside(Correlated(t, d).rows, was, ip, i)
    ensures 0 <= i && About(t.rows[i], ip) ==> Correlated(t, d).rows[i] == t.rows[i]
  {
    var found := FirstActive(t.rows, d.ruleId, d.correlationKey);
    if found.Some? { FoldKeepsKey(t.rows[found.value], d); }
  }

  lemma {:induction false} OtherDetections(t: Table, was: seq<Correlation.AlertRow>, ip: string, i: int, ds: seq<Detection>)
    requires Beside(t.rows, was, ip, i) && i < |t.rows| && (0 <= i ==> About(t.rows[i], ip))
    requires forall d :: d in ds ==> !Concerns(d, ip)
    ensures var rows := CorrelateAll(t, ds).rows;
      Beside(rows, was, ip, i) && i < |rows| && (0 <= i ==> rows[i] == t.rows[i])
  {
    if ds != [] {
      var front, d := ds[..|ds| - 1], ds[|ds| - 1];
      assert d in ds && forall x :: x in front ==> x in ds;
      OtherDetections(t, was, ip, i, front);
      OtherDetection(CorrelateAll(t, front), was, ip, i, d);
    }
  }

  lemma {:induction false} FirstDetection(t: Table, was: seq<Correlation.AlertRow>, ip: string, d: Detection)
    requires Beside(t.rows, was, ip, -1) && Closed(was, ip) && Concerns(d, ip)
    ensures OneNew(Correlated(t, d).rows, was, ip, |t.rows|, Correlation.MaxInt(1, d.eventCountHint))
  {
    var found := FirstActive(t.rows, d.ruleId, d.correlationKey);
    assert found.None? by {
      if found.Some? { assert About(t.rows[found.value], ip); }
    }
  }

  lemma {:induction false} NextDetection(t: Table, was: seq<Correlation.AlertRow>, ip: string, i: int, n: int, d: Detection)
    requires OneNew(t.rows, was, ip, i, n) && Closed(was, ip) && Concerns(d, ip)
    ensures OneNew(Correlated(t, d).rows, was, ip, i, Correlation.MaxInt(n + 1, d.eventCountHint))
  {
    var found := FirstActive(t.rows, d.ruleId, d.correlationKey);
    assert found == Some(i) by {
      if found.Some? && found.value != i { assert About(t.rows[found.value], ip); }
    }
    FoldKeepsKey(t.rows[i], d);
  }

  // ---------------------------------------------------------------- the entries RULE-001 counts

  /** How many entries RULE-001's window for an event holds after a history. */
  function Held(setup: Setup, a: Arrival, hist: seq<Arrival>): nat
    requires setup.Complete() && Runs(setup, BruteForce, a.event)
  {
    |RunExpiring(RuleUses(setup, BruteForce, a, hist), setup.params[BruteForce].window).entries|
  }

  /** The entries an event leaves in RULE-001's window are those of the address's own history. */
  lemma {:induction false} BruteEntries(setup: Setup, hist: seq<Arrival>, a: Arrival)
    requires setup.Complete() && Runs(setup, BruteForce, a.event)
    ensures var c := CommandOf(setup, BruteForce, a);
      Seen(Execute(RunStream(setup, START, hist).store, c), c.key) ==
      RunExpiring(RuleUses(setup, BruteForce, a, hist + [a]), setup.params[BruteForce].window)
  {
    var c, st := CommandOf(setup, BruteForce, a), RunStream(setup, START, hist).store;
    var uses, window := RuleUses(setup, BruteForce, a, hist), setup.params[BruteForce].window;
    KeyHolds(setup, BruteForce, a, hist);
    ExecuteSteps(st, c);
    OwnUse(setup, hist, a);
    OneMoreUse(uses, ReadBack(OpOf(BruteForce, a)), window);
  }

  lemma {:induction false} OwnUse(setup: Setup, hist: seq<Arrival>, a: Arrival)
    requires setup.Complete() && Runs(setup, BruteForce, a.event)
    ensures RuleUses(setup, BruteForce, a, hist + [a]) == RuleUses(setup, BruteForce, a, hist) + [ReadBack(OpOf(BruteForce, a))]
    ensures CommandOf(setup, BruteForce, a).op == OpOf(BruteForce, a)
    ensures CommandOf(setup, BruteForce, a).window == setup.params[BruteForce].window
  {
    assert (hist + [a])[..|hist|] == hist;
  }

  lemma {:induction false} OneMoreUse(uses: seq<Op>, op: Op, window: nat)
    ensures RunExpiring(uses + [op], window) == StepExpiring(RunExpiring(uses, window), op, window)
  {
    assert (uses + [op])[..|uses|] == uses;
  }

  lemma {:induction false} ExecuteSteps(st: Store, c: Command)
    requires Minted(st)
    ensures Seen(Execute(st, c), c.key) == StepExpiring(Seen(st, c.key), ReadBack(c.op), c.window)
  {
    match c.op
    case Add(value, stamp, wall) => AddToSteps(st, c.key, value, c.window, stamp, wall);
    case Look(wall) => LookAtSteps(st, c.key, c.window, wall);
  }

  /** A RULE-001 detection on event a counts n failures of the event's address. */
  predicate Says(a: Arrival, n: nat, d: Detection)
    requires Applies(BruteForce, a.event)
  {
    Concerns(d, a.event.sourceIp.value) && d.eventCountHint == n
  }

  /** RULE-001's conclusion from the entries of its window. */
  lemma {:induction false} ConclusionSays(setup: Setup, a: Arrival, entries: seq<Entry>)
    requires setup.Complete() && Runs(setup, BruteForce, a.event)
    ensures match Verdict(setup, BruteForce, a, entries)
      case None => |entries| < setup.params[BruteForce].threshold
      case Some(d) => |entries| >= setup.params[BruteForce].threshold && Says(a, |entries|, d)
  {
  }

  /** RULE-001's detection for an event, when it makes one: about the event's address, counting the
      window's entries. */
  lemma {:induction false} BruteShare(setup: Setup, hist: seq<Arrival>, a: Arrival)
    requires setup.Complete() && Runs(setup, BruteForce, a.event)
    ensures var n := Held(setup, a, hist + [a]);
      var share := Share(setup, RunStream(setup, START, hist).store, BruteForce, a);
      if n < setup.params[BruteForce].threshold then share == [] else |share| == 1 && Says(a, n, share[0])
  {
    BruteEntries(setup, hist, a);
    ConclusionSays(setup, a, RunExpiring(RuleUses(setup, BruteForce, a, hist + [a]), setup.params[BruteForce].window).entries);
  }

  /** The detections of one event: RULE-001's own, if any, and then those of other rules. */
  lemma {:induction false} BruteTurn(setup: Setup, hist: seq<Arrival>, a: Arrival)
    returns (share: seq<Detection>, rest: seq<Detection>)
    requires setup.Complete()
    ensures RunRules(setup, RunStream(setup, START, hist).store, RULES, a).detections == share + rest
    ensures forall d :: d in rest ==> d.ruleId != BruteForce.Id()
    ensures !Runs(setup, BruteForce, a.event) ==> share == []
    ensures Runs(setup, BruteForce, a.event) ==>
      var n := Held(setup, a, hist + [a]);
      if n < setup.params[BruteForce].threshold then share == []
      else |share| == 1 && Says(a, n, share[0])
  {
    var st := RunStream(setup, START, hist).store;
    EveryRule(BruteForce);
    share := Share(setup, st, BruteForce, a);
    rest := BruteFirst(setup, st, RULES, a);
    if Runs(setup, BruteForce, a.event) { BruteShare(setup, hist, a); }
  }

  // ---------------------------------------------------------------- a burst of failures

  predicate Ours(e: SecurityEvent, ip: string) {
    Applies(BruteForce, e) && e.sourceIp == Some(ip)
  }

  /** How many of a stream's events are logins, failed or not, from an address. */
  function LoginsFrom(arrivals: seq<Arrival>, ip: string): nat {
    if arrivals == [] then 0
    else LoginsFrom(arrivals[..|arrivals| - 1], ip) + if Ours(arrivals[|arrivals| - 1].event, ip) then 1 else 0
  }

  /** The clock a login's window ends at. */
  function Clock(a: Arrival): int {
    if a.event.eventType == AuthSuccess then a.wall else a.event.timestamp
  }

  /** Events come in wall-clock order; the address's logins are stamped at most 30 seconds before they
      are processed, never after. */
  ghost predicate OnTime(arrivals: seq<Arrival>, ip: string) {
    && (forall i, j :: 0 <= i < j < |arrivals| ==> arrivals[i].wall <= arrivals[j].wall)
    && (forall a :: a in arrivals && Ours(a.event, ip) ==> a.wall - 30_000_000 <= a.event.timestamp <= a.wall)
  }

  /** In `attack`, an address's logins all fail, in the order of their stamps and all within one window;
      whatever it did in the history before lies outside that window. Other events may mix in. */
  ghost predicate Attack(setup: Setup, hist: seq<Arrival>, attack: seq<Arrival>, ip: string)
    requires setup.Complete()
  {
    var window := setup.params[BruteForce].window;
    && BruteForce.Id() !in setup.disabled
    && OnTime(hist + attack, ip)
    && (forall b :: b in attack && Ours(b.event, ip) ==> b.event.eventType == AuthFailure)
    && (forall i, j :: 0 <= i <= j < |attack| && Ours(attack[i].event, ip) && Ours(attack[j].event, ip) ==>
          attack[i].event.timestamp <= attack[j].event.timestamp < attack[i].event.timestamp + window)
    && (forall a, b :: a in hist && Ours(a.event, ip) && b in attack && Ours(b.event, ip) ==>
          Clock(a) <= b.event.timestamp && a.event.timestamp <= b.event.timestamp - window)
  }

  lemma {:induction false} BruteOp(a: Arrival)
    requires Applies(BruteForce, a.event)
    ensures var op := ReadBack(OpOf(BruteForce, a));
      op.wall == a.wall && op.Now() == Clock(a) && (op.Add? ==> op.stamp == a.event.timestamp)
  {
  }

  lemma {:induction false} PunctualUses(setup: Setup, like: Arrival, hist: seq<Arrival>, latest: int, now: int)
    requires setup.Complete() && Runs(setup, BruteForce, like.event)
    requires OnTime(hist, like.event.sourceIp.value)
    requires forall a :: a in hist ==> a.wall <= latest && (Ours(a.event, like.event.sourceIp.value) ==> Clock(a) <= now)
    ensures var uses := RuleUses(setup, BruteForce, like, hist);
      Punctual(uses) && forall u :: u in uses ==> u.wall <= latest && u.Now() <= now
  {
    if hist != [] {
      var front, a := hist[..|hist| - 1], hist[|hist| - 1];
      assert a in hist && forall x :: x in front ==> x in hist;
      PunctualUses(setup, like, front, a.wall, now);
      if Runs(setup, BruteForce, a.event) { BruteOp(a); }
    }
  }

  lemma {:induction false} LoginsFromAll(hist: seq<Arrival>, attack: seq<Arrival>, ip: string, after: int)
    requires forall a :: a in hist && Ours(a.event, ip) ==> a.event.timestamp <= after
    requires forall b :: b in attack && Ours(b.event, ip) ==> b.event.eventType == AuthFailure && b.event.timestamp > after
    ensures FailuresSince(hist + attack, ip, after) == LoginsFrom(attack, ip)
  {
    if attack == [] {
      assert hist + attack == hist;
      NoneSince(hist, ip, after);
    } else {
      var front, b := attack[..|attack| - 1], attack[|attack| - 1];
      assert b in attack && forall x :: x in front ==> x in attack;
      assert (hist + attack)[..|hist + attack| - 1] == hist + front;
      LoginsFromAll(hist, front, ip, after);
    }
  }

  lemma {:induction false} NoneSince(hist: seq<Arrival>, ip: string, after: int)
    requires forall a :: a in hist && Ours(a.event, ip) ==> a.event.timestamp <= after
    ensures FailuresSince(hist, ip, after) == 0
  {
    if hist != [] {
      var front, a := hist[..|hist| - 1], hist[|hist| - 1];
      assert a in hist && forall x :: x in front ==> x in hist;
      NoneSince(front, ip, after);
    }
  }

  lemma {:induction false} AttackClocks(setup: Setup, hist: seq<Arrival>, attack: seq<Arrival>, ip: string)
    requires setup.Complete() && Attack(setup, hist, attack, ip)
    requires attack != [] && Ours(attack[|attack| - 1].event, ip)
    ensures var a := attack[|attack| - 1];
      && (forall x :: x in hist + attack ==>
            x.wall <= a.wall && (Ours(x.event, ip) ==> Clock(x) <= a.event.timestamp))
      && (forall x :: x in hist && Ours(x.event, ip) ==>
            x.event.timestamp <= a.event.timestamp - setup.params[BruteForce].window)
      && (forall b :: b in attack && Ours(b.event, ip) ==>
            b.event.timestamp > a.event.timestamp - setup.params[BruteForce].window)
  {
    var a, p := attack[|attack| - 1], hist + attack;
    assert a in attack && p[|p| - 1] == a;
    forall x | x in p ensures x.wall <= a.wall && (Ours(x.event, ip) ==> Clock(x) <= a.event.timestamp) {
      var i :| 0 <= i < |p| && p[i] == x;
      if i >= |hist| { assert x == attack[i - |hist|]; } else { assert x in hist; }
    }
    forall b | b in attack && Ours(b.event, ip) ensures b.event.timestamp > a.event.timestamp - setup.params[BruteForce].window {
      var i :| 0 <= i < |attack| && attack[i] == b;
    }
  }

  /** At each of the attack's failures the window holds exactly the attack's failures so far. */
  lemma {:induction false} AttackEntries(setup: Setup, hist: seq<Arrival>, attack: seq<Arrival>, ip: string)
    requires setup.Complete() && Attack(setup, hist, attack, ip)
    requires attack != [] && Ours(attack[|attack| - 1].event, ip)
    ensures Held(setup, attack[|attack| - 1], hist + attack) == LoginsFrom(attack, ip)
  {
    AttackCount(setup, hist, attack, ip);
    AttackHeld(setup, hist, attack, ip);
  }

  lemma {:induction false} AttackCount(setup: Setup, hist: seq<Arrival>, attack: seq<Arrival>, ip: string)
    requires setup.Complete() && Attack(setup, hist, attack, ip)
    requires attack != [] && Ours(attack[|attack| - 1].event, ip)
    ensures FailuresSince(hist + attack, ip, attack[|attack| - 1].event.timestamp - setup.params[BruteForce].window) ==
            LoginsFrom(attack, ip)
  {
    AttackClocks(setup, hist, attack, ip);
    LoginsFromAll(hist, attack, ip, attack[|attack| - 1].event.timestamp - setup.params[BruteForce].window);
  }

  lemma {:induction false} AttackHeld(setup: Setup, hist: seq<Arrival>, attack: seq<Arrival>, ip: string)
    requires setup.Complete() && Attack(setup, hist, attack, ip)
    requires attack != [] && Ours(attack[|attack| - 1].event, ip)
    ensures var a := attack[|attack| - 1];
      Held(setup, a, hist + attack) == FailuresSince(hist + attack, ip, a.event.timestamp - setup.params[BruteForce].window)
  {
    AttackLast(setup, hist, attack, ip);
    AttackClocks(setup, hist, attack, ip);
    var a := attack[|attack| - 1];
    EntriesAtFailure(setup, hist + attack, a, ip, a.event.timestamp - setup.params[BruteForce].window);
  }

  lemma {:induction false} AttackLast(setup: Setup, hist: seq<Arrival>, attack: seq<Arrival>, ip: string)
    requires setup.Complete() && Attack(setup, hist, attack, ip)
    requires attack != [] && Ours(attack[|attack| - 1].event, ip)
    ensures var a := attack[|attack| - 1];
      && (hist + attack)[|hist + attack| - 1] == a && a.event.eventType == AuthFailure
      && Runs(setup, BruteForce, a.event) && setup.params[BruteForce].window > 0
  {
    assert attack[|attack| - 1] in attack;
  }

  /** At a failure that no earlier use of its key is ahead of, the window holds the failures since its start. */
  lemma {:induction false} EntriesAtFailure(setup: Setup, hist: seq<Arrival>, a: Arrival, ip: string, start: int)
    requires setup.Complete() && hist != [] && hist[|hist| - 1] == a
    requires Runs(setup, BruteForce, a.event) && a.event.eventType == AuthFailure && a.event.sourceIp == Some(ip)
    requires OnTime(hist, ip)
    requires forall x :: x in hist ==>
      x.wall <= a.wall && (Ours(x.event, ip) ==> Clock(x) <= a.event.timestamp)
    requires setup.params[BruteForce].window > 0 && start == a.event.timestamp - setup.params[BruteForce].window
    ensures Held(setup, a, hist) == FailuresSince(hist, ip, start)
  {
    var window := setup.params[BruteForce].window;
    var uses := RuleUses(setup, BruteForce, a, hist);
    assert RunExpiring(uses, window).entries == Recent(uses, start) by {
      PunctualUses(setup, a, hist, a.wall, a.event.timestamp);
      LastFailure(setup, hist, a);
      HeldSince(uses, window, start);
    }
    CountFailures(setup, a, hist, start);
  }

  lemma {:induction false} HeldSince(uses: seq<Op>, window: nat, start: int)
    requires window > 0 && Punctual(uses) && uses != [] && uses[|uses| - 1].Cutoff(window) == start
    requires forall u :: u in uses ==> u.Now() <= start + window
    ensures RunExpiring(uses, window).entries == Recent(uses, start)
  {
    assert uses[|uses| - 1].Now() == start + window;
    HeldIsRecent(uses, window);
  }

  lemma {:induction false} LastFailure(setup: Setup, hist: seq<Arrival>, a: Arrival)
    requires setup.Complete() && hist != [] && hist[|hist| - 1] == a
    requires Runs(setup, BruteForce, a.event) && a.event.eventType == AuthFailure
    ensures var uses := RuleUses(setup, BruteForce, a, hist);
      uses != [] && uses[|uses| - 1].Now() == a.event.timestamp
  {
    BruteOp(a);
    var before := RuleUses(setup, BruteForce, a, hist[..|hist| - 1]);
    assert RuleUses(setup, BruteForce, a, hist) == before + [ReadBack(OpOf(BruteForce, a))];
  }

  lemma {:induction false} AttackPrefix(setup: Setup, hist: seq<Arrival>, attack: seq<Arrival>, ip: string)
    requires setup.Complete() && attack != [] && Attack(setup, hist, attack, ip)
    ensures Attack(setup, hist, attack[..|attack| - 1], ip)
  {
    var front := attack[..|attack| - 1];
    var p, q := hist + attack, hist + front;
    forall i | 0 <= i < |q| ensures q[i] == p[i] {
      assert i >= |hist| ==> p[i] == attack[i - |hist|] && q[i] == front[i - |hist|];
    }
    assert forall a :: a in q ==> a in p;
    assert OnTime(q, ip);
    assert forall b :: b in front ==> b in attack;
    forall i, j | 0 <= i <= j < |front| && Ours(front[i].event, ip) && Ours(front[j].event, ip)
      ensures front[i].event.timestamp <= front[j].event.timestamp < front[i].event.timestamp + setup.params[BruteForce].window
    {
      assert front[i] == attack[i] && front[j] == attack[j];
    }
  }

  lemma {:induction false} AlertKeyInjective(ip: string, ip': string)
    requires AlertKey(ip) == AlertKey(ip')
    ensures ip == ip'
  {
    assert ip == AlertKey(ip)[6..] && ip' == AlertKey(ip')[6..];
  }

  /** The alerts about the address after an attack with n failures. */
  ghost predicate Raised(rows: seq<Correlation.AlertRow>, was: seq<Correlation.AlertRow>, ip: string, n: nat, threshold: int) {
    exists i :: RaisedAt(rows, was, ip, n, threshold, i)
  }

  /** ... at place i; none, at -1, below the threshold. */
  ghost predicate RaisedAt(rows: seq<Correlation.AlertRow>, was: seq<Correlation.AlertRow>, ip: string, n: nat, threshold: int,
                           i: int) {
    if n == 0 || n < threshold then i == -1 && Beside(rows, was, ip, -1) else OneNew(rows, was, ip, i, n)
  }

  /** A detection about the address, and then others that are not. */
  lemma {:induction false} Hit(t: Table, was: seq<Correlation.AlertRow>, ip: string, n: nat, threshold: int, d: Detection, rest: seq<Detection>)
    requires Closed(was, ip) && n >= 1 && n >= threshold && Raised(t.rows, was, ip, n - 1, threshold)
    requires Concerns(d, ip) && d.eventCountHint == n && forall x :: x in rest ==> !Concerns(x, ip)
    ensures Raised(CorrelateAll(t, [d] + rest).rows, was, ip, n, threshold)
  {
    CorrelateAllConcat(t, [d], rest);
    assert [d][..0] == [] && CorrelateAll(t, []) == t;
    var t' := Correlated(t, d);
    assert CorrelateAll(t, [d]) == t';
    var i :| RaisedAt(t.rows, was, ip, n - 1, threshold, i);
    if n - 1 == 0 || n - 1 < threshold {
      FirstDetection(t, was, ip, d);
      OtherDetections(t', was, ip, |t.rows|, rest);
      assert RaisedAt(CorrelateAll(t', rest).rows, was, ip, n, threshold, |t.rows|);
    } else {
      NextDetection(t, was, ip, i, n - 1, d);
      OtherDetections(t', was, ip, i, rest);
      assert RaisedAt(CorrelateAll(t', rest).rows, was, ip, n, threshold, i);
    }
  }

  /** No detection about the address. */
  lemma {:induction false} Miss(t: Table, was: seq<Correlation.AlertRow>, ip: string, n: nat, threshold: int, ds: seq<Detection>)
    requires Raised(t.rows, was, ip, n, threshold) && forall x :: x in ds ==> !Concerns(x, ip)
    ensures Raised(CorrelateAll(t, ds).rows, was, ip, n, threshold)
  {
    var i :| RaisedAt(t.rows, was, ip, n, threshold, i);
    OtherDetections(t, was, ip, i, ds);
    assert RaisedAt(CorrelateAll(t, ds).rows, was, ip, n, threshold, i);
  }

  lemma {:induction false} OthersElsewhere(ds: seq<Detection>, ip: string)
    ensures (forall d :: d in ds ==> d.ruleId != BruteForce.Id()) ==> forall d :: d in ds ==> !Concerns(d, ip)
  {
  }

  lemma {:induction false} ShareElsewhere(setup: Setup, a: Arrival, ip: string, share: seq<Detection>, n: nat)
    requires setup.Complete() && Runs(setup, BruteForce, a.event) && !Ours(a.event, ip)
    requires |share| == 1 && Says(a, n, share[0])
    ensures forall d :: d in share ==> !Concerns(d, ip)
  {
    if AlertKey(ip) == AlertKey(a.event.sourceIp.value) { AlertKeyInjective(ip, a.event.sourceIp.value); }
  }

  /** What RULE-001 makes of one more event, whose n-th login it is if it is the address's own. */
  lemma {:induction false} HitOrMiss(t: Table, was: seq<Correlation.AlertRow>, ip: string, n: nat, threshold: int, own: bool,
                                     share: seq<Detection>, rest: seq<Detection>)
    requires Closed(was, ip) && (forall d :: d in rest ==> !Concerns(d, ip))
    requires own ==> n >= 1 && if n < threshold then share == [] else |share| == 1 && Concerns(share[0], ip) && share[0].eventCountHint == n
    requires !own ==> forall d :: d in share ==> !Concerns(d, ip)
    requires Raised(t.rows, was, ip, if own then n - 1 else n, threshold)
    ensures Raised(CorrelateAll(t, share + rest).rows, was, ip, n, threshold)
  {
    if own && n >= threshold {
      assert share == [share[0]];
      Hit(t, was, ip, n, threshold, share[0], rest);
    } else {
      var i :| RaisedAt(t.rows, was, ip, if own then n - 1 else n, threshold, i);
      assert RaisedAt(t.rows, was, ip, n, threshold, i);
      Miss(t, was, ip, n, threshold, share + rest);
    }
  }

  /** One more event: a login from the address, whose window holds what it has tried so far, or something
      else. */
  lemma {:induction false} AttackTurn(setup: Setup, hist: seq<Arrival>, attack: seq<Arrival>, ip: string, before: Desk,
                                      was: seq<Correlation.AlertRow>)
    requires setup.Complete() && Attack(setup, hist, attack, ip) && Closed(was, ip) && attack != []
    requires before.store == RunStream(setup, START, hist + attack[..|attack| - 1]).store
    requires Raised(before.table.rows, was, ip, LoginsFrom(attack[..|attack| - 1], ip), setup.params[BruteForce].threshold)
    ensures var after := Digest(setup, before, attack[|attack| - 1]);
      && after.store == RunStream(setup, START, hist + attack).store
      && Raised(after.table.rows, was, ip, LoginsFrom(attack, ip), setup.params[BruteForce].threshold)
  {
    var front, a, n := attack[..|attack| - 1], attack[|attack| - 1], LoginsFrom(attack, ip);
    CutLast(hist, attack);
    var share, rest := BruteTurn(setup, hist + front, a);
    OthersElsewhere(rest, ip);
    if Ours(a.event, ip) {
      AttackEntries(setup, hist, attack, ip);
      AttackLast(setup, hist, attack, ip);
    } else if share != [] {
      ShareElsewhere(setup, a, ip, share, Held(setup, a, (hist + front) + [a]));
    }
    HitOrMiss(before.table, was, ip, n, setup.params[BruteForce].threshold, Ours(a.event, ip), share, rest);
  }

  /** N failures from one address, in order and within one window, with no active alert about it
      beforehand: exactly one new alert, active, with an event count of exactly N, once N reaches the
      threshold; none before. The address's older alerts stay as they are, whatever other events mix in. */
  lemma {:induction false} AttackRaisesOneAlert(setup: Setup, hist: seq<Arrival>, attack: seq<Arrival>, ip: string, t: Table)
    requires setup.Complete() && Attack(setup, hist, attack, ip) && Closed(t.rows, ip)
    ensures var desk := DigestAll(setup, Desk(RunStream(setup, START, hist).store, t), attack);
      && desk.store == RunStream(setup, START, hist + attack).store
      && Raised(desk.table.rows, t.rows, ip, LoginsFrom(attack, ip), setup.params[BruteForce].threshold)
  {
    if attack == [] {
      assert hist + attack == hist;
      assert RaisedAt(t.rows, t.rows, ip, 0, setup.params[BruteForce].threshold, -1);
    } else {
      var front := attack[..|attack| - 1];
      AttackPrefix(setup, hist, attack, ip);
      AttackRaisesOneAlert(setup, hist, front, ip, t);
      AttackTurn(setup, hist, attack, ip, DigestAll(setup, Desk(RunStream(setup, START, hist).store, t), front), t.rows);
    }
  }

  // ---------------------------------------------------------------- one id many times in one batch

  const EMPTY_CORE: Core := Core(Desk(START, NO_ALERTS), map[], {}, [])

  function Copies(a: Arrival, n: nat): (r: seq<Arrival>)
    ensures |r| == n && forall i :: 0 <= i < n ==> r[i] == a
  {
    seq(n, i => a)
  }

  lemma {:induction false} CopiesCount(a: Arrival, ip: string, n: nat)
    requires Ours(a.event, ip)
    ensures (LoginsFrom(Copies(a, n), ip), FreshOf({}, Copies(a, n))) == (n, Copies(a, n))
  {
    if n > 0 {
      CopiesCount(a, ip, n - 1);
      assert Copies(a, n)[..n - 1] == Copies(a, n - 1);
      assert Copies(a, n) == Copies(a, n - 1) + [a];
    }
  }

  lemma {:induction false} CopiesAttack(setup: Setup, a: Arrival, ip: string, n: nat)
    requires setup.Complete() && Runs(setup, BruteForce, a.event) && setup.params[BruteForce].window > 0
    requires a.event.eventType == AuthFailure && a.event.sourceIp == Some(ip)
    requires a.wall - 30_000_000 <= a.event.timestamp <= a.wall
    ensures Attack(setup, [], Copies(a, n), ip)
  {
    var copies := Copies(a, n);
    assert [] + copies == copies;
    assert forall x :: x in copies ==> x == a;
    assert OnTime(copies, ip);
  }

  lemma {:induction false} CopiesSingly(setup: Setup, a: Arrival, n: nat)
    requires setup.Complete() && n > 0
    ensures Batches(setup, EMPTY_CORE, Singly(Copies(a, n))) == Batch(setup, EMPTY_CORE, [a])
    ensures a.event.eventId in Batch(setup, EMPTY_CORE, [a]).seen
  {
    assert Copies(a, n)[..n - 1] == Copies(a, n - 1);
    FreshOne({}, a);
    assert a in [a];
    var singles := Singly(Copies(a, n));
    assert singles[|singles| - 1] == [a] && singles[..|singles| - 1] == Singly(Copies(a, n - 1));
    if n > 1 {
      CopiesSingly(setup, a, n - 1);
      FreshOne(Batch(setup, EMPTY_CORE, [a]).seen, a);
    } else {
      assert Copies(a, 0) == [] && Singly([]) == [];
    }
  }

  /** The condition of transparent batching is needed: as many copies of one failure in one batch as
      the threshold demands raise a brute-force alert, though the event is stored once and processing
      it copy by copy counts a single failure. */
  lemma {:induction false} RepeatedIdInBatch(setup: Setup, a: Arrival, ip: string, n: nat)
    requires setup.Complete() && Runs(setup, BruteForce, a.event) && setup.params[BruteForce].window > 0
    requires a.event.eventType == AuthFailure && a.event.sourceIp == Some(ip)
    requires a.wall - 30_000_000 <= a.event.timestamp <= a.wall
    requires n == setup.params[BruteForce].threshold >= 2
    ensures exists i :: OneNew(Batch(setup, EMPTY_CORE, Copies(a, n)).desk.table.rows, [], ip, i, n)
    ensures Beside(Batches(setup, EMPTY_CORE, Singly(Copies(a, n))).desk.table.rows, [], ip, -1)
  {
    CopiesAlert(setup, a, ip, n);
    CopiesAlert(setup, a, ip, 1);
    CopiesSingly(setup, a, n);
    assert Copies(a, 1) == [a];
  }

  lemma {:induction false} CopiesAlert(setup: Setup, a: Arrival, ip: string, n: nat)
    requires setup.Complete() && Runs(setup, BruteForce, a.event) && setup.params[BruteForce].window > 0
    requires a.event.eventType == AuthFailure && a.event.sourceIp == Some(ip)
    requires a.wall - 30_000_000 <= a.event.timestamp <= a.wall && n > 0
    ensures Raised(Batch(setup, EMPTY_CORE, Copies(a, n)).desk.table.rows, [], ip, n, setup.params[BruteForce].threshold)
  {
    CopiesAttack(setup, a, ip, n);
    CopiesCount(a, ip, n);
    assert RunStream(setup, START, []) == Outcome(START, []);
    AttackRaisesOneAlert(setup, [], Copies(a, n), ip, NO_ALERTS);
    EvaluateThenCorrelate(setup, EMPTY_CORE.desk, Copies(a, n));
  }

  // ---------------------------------------------------------------- the event count is never inflated

  /** Every RULE-001 alert counts at most the logins processed from its address. */
  ghost predicate CountsBounded(rows: seq<Correlation.AlertRow>, arrivals: seq<Arrival>) {
    forall j, ip :: 0 <= j < |rows| && About(rows[j], ip) ==> rows[j].eventCount <= LoginsFrom(arrivals, ip)
  }

  datatype Act = Event(a: Arrival) | Request(id: nat, to: AlertStatus, actor: string)

  function EventsOf(acts: seq<Act>): seq<Arrival> {
    if acts == [] then []
    else
      var before, last := EventsOf(acts[..|acts| - 1]), acts[|acts| - 1];
      if last.Event? then before + [last.a] else before
  }

  function Acted(setup: Setup, desk: Desk, act: Act): Desk
    requires setup.Complete()
  {
    match act
    case Event(a) => Digest(setup, desk, a)
    case Request(id, to, actor) => Desk(desk.store, Triaged(desk.table, id, to, actor))
  }

  /** Events and analysts' requests, in any order. */
  function Play(setup: Setup, acts: seq<Act>): Desk
    requires setup.Complete()
  {
    if acts == [] then Desk(START, NO_ALERTS)
    else Acted(setup, Play(setup, acts[..|acts| - 1]), acts[|acts| - 1])
  }

  lemma {:induction false} EntriesBounded(setup: Setup, like: Arrival, hist: seq<Arrival>)
    requires setup.Complete() && Runs(setup, BruteForce, like.event)
    ensures Held(setup, like, hist) <= LoginsFrom(hist, like.event.sourceIp.value)
  {
    if hist != [] {
      var front, a, window := hist[..|hist| - 1], hist[|hist| - 1], setup.params[BruteForce].window;
      EntriesBounded(setup, like, front);
      if Runs(setup, BruteForce, a.event) {
        BruteOp(a);
        var uses, op := RuleUses(setup, BruteForce, like, front), ReadBack(OpOf(BruteForce, a));
        assert (uses + [op])[..|uses|] == uses;
      }
    }
  }

  lemma {:induction false} CorrelatedBounded(t: Table, d: Detection, arrivals: seq<Arrival>, ip: string)
    requires d.ruleId == BruteForce.Id() && d.correlationKey == AlertKey(ip)
    requires forall j, x :: 0 <= j < |t.rows| && About(t.rows[j], x) ==>
      t.rows[j].eventCount <= LoginsFrom(arrivals, x) - if x == ip then 1 else 0
    requires d.eventCountHint <= LoginsFrom(arrivals, ip) && 1 <= LoginsFrom(arrivals, ip)
    ensures CountsBounded(Correlated(t, d).rows, arrivals)
  {
    var found, t' := FirstActive(t.rows, d.ruleId, d.correlationKey), Correlated(t, d);
    var i := if found.Some? then found.value else |t.rows|;
    if found.Some? { FoldKeepsKey(t.rows[i], d); }
    forall j, x | 0 <= j < |t'.rows| && About(t'.rows[j], x) ensures t'.rows[j].eventCount <= LoginsFrom(arrivals, x) {
      if j == i { AlertKeyInjective(x, ip); } else { assert t'.rows[j] == t.rows[j]; }
    }
  }

  lemma {:induction false} OtherBounded(t: Table, d: Detection, arrivals: seq<Arrival>)
    requires CountsBounded(t.rows, arrivals) && d.ruleId != BruteForce.Id()
    ensures CountsBounded(Correlated(t, d).rows, arrivals)
  {
    var found, t' := FirstActive(t.rows, d.ruleId, d.correlationKey), Correlated(t, d);
    var i := if found.Some? then found.value else |t.rows|;
    if found.Some? { FoldKeepsKey(t.rows[i], d); }
    forall j, x | 0 <= j < |t'.rows| && About(t'.rows[j], x) ensures t'.rows[j].eventCount <= LoginsFrom(arrivals, x) {
      assert j != i && t'.rows[j] == t.rows[j];
    }
  }

  lemma {:induction false} OthersBounded(t: Table, ds: seq<Detection>, arrivals: seq<Arrival>)
    requires CountsBounded(t.rows, arrivals) && forall d :: d in ds ==> d.ruleId != BruteForce.Id()
    ensures CountsBounded(CorrelateAll(t, ds).rows, arrivals)
  {
    if ds != [] {
      var front, d := ds[..|ds| - 1], ds[|ds| - 1];
      assert d in ds && forall x :: x in front ==> x in ds;
      OthersBounded(t, front, arrivals);
      OtherBounded(CorrelateAll(t, front), d, arrivals);
    }
  }

  lemma {:induction false} EventBounded(setup: Setup, hist: seq<Arrival>, a: Arrival, t: Table)
    requires setup.Complete() && CountsBounded(t.rows, hist)
    ensures CountsBounded(Digest(setup, Desk(RunStream(setup, START, hist).store, t), a).table.rows, hist + [a])
  {
    var all := hist + [a];
    var share, rest := BruteTurn(setup, hist, a);
    assert all[..|hist|] == hist;
    CorrelateAllConcat(t, share, rest);
    assert share != [] ==> CountsBounded(CorrelateAll(t, share).rows, all) by {
      if share != [] {
        EntriesBounded(setup, a, all);
        assert share == [share[0]] && share[..0] == [];
        CorrelatedBounded(t, share[0], all, a.event.sourceIp.value);
      }
    }
    assert share == [] ==> CorrelateAll(t, share) == t;
    OthersBounded(CorrelateAll(t, share), rest, all);
  }

  lemma {:induction false} LoginsGrow(hist: seq<Arrival>, more: seq<Arrival>, ip: string)
    ensures LoginsFrom(hist + more, ip) == LoginsFrom(hist, ip) + LoginsFrom(more, ip)
  {
    if more == [] {
      assert hist + more == hist;
    } else {
      assert (hist + more)[..|hist + more| - 1] == hist + more[..|more| - 1];
      LoginsGrow(hist, more[..|more| - 1], ip);
    }
  }

  /** Events evaluated and not correlated leave the bound as it is. */
  lemma {:induction false} StillBounded(rows: seq<Correlation.AlertRow>, hist: seq<Arrival>, more: seq<Arrival>)
    requires CountsBounded(rows, hist)
    ensures CountsBounded(rows, hist + more)
  {
    forall j, ip | 0 <= j < |rows| && About(rows[j], ip) ensures rows[j].eventCount <= LoginsFrom(hist + more, ip) {
      LoginsGrow(hist, more, ip);
    }
  }

  lemma {:induction false} BatchBounded(setup: Setup, hist: seq<Arrival>, more: seq<Arrival>, desk: Desk)
    requires setup.Complete() && desk.store == RunStream(setup, START, hist).store && CountsBounded(desk.table.rows, hist)
    ensures DigestAll(setup, desk, more).store == RunStream(setup, START, hist + more).store
    ensures CountsBounded(DigestAll(setup, desk, more).table.rows, hist + more)
  {
    if more == [] {
      assert hist + more == hist;
    } else {
      var front, a := more[..|more| - 1], more[|more| - 1];
      BatchBounded(setup, hist, front, desk);
      assert hist + more == (hist + front) + [a];
      OneMoreBounded(setup, hist + front, a, DigestAll(setup, desk, front));
    }
  }

  lemma {:induction false} OneMoreBounded(setup: Setup, hist: seq<Arrival>, a: Arrival, desk: Desk)
    requires setup.Complete() && desk.store == RunStream(setup, START, hist).store && CountsBounded(desk.table.rows, hist)
    ensures Digest(setup, desk, a).store == RunStream(setup, START, hist + [a]).store
    ensures CountsBounded(Digest(setup, desk, a).table.rows, hist + [a])
  {
    assert (hist + [a])[..|hist|] == hist;
    EventBounded(setup, hist, a, desk.table);
  }

  lemma {:induction false} RequestBounded(t: Table, id: nat, to: AlertStatus, actor: string, arrivals: seq<Arrival>)
    requires CountsBounded(t.rows, arrivals)
    ensures CountsBounded(Triaged(t, id, to, actor).rows, arrivals)
  {
    if TriageOutcome(t, id, to) == Changed {
      var i := FindId(t.rows, id).value;
      MoveKeeps(t.rows[i], to, actor);
      assert Move(t.rows[i], to, actor).eventCount == t.rows[i].eventCount;
    }
  }

  /** In any run of events and triage requests, late, early or out of order, no RULE-001 alert's event
      count exceeds the number of logins processed from its address. */
  lemma {:induction false} CountNeverInflated(setup: Setup, acts: seq<Act>)
    requires setup.Complete()
    ensures Play(setup, acts).store == RunStream(setup, START, EventsOf(acts)).store
    ensures CountsBounded(Play(setup, acts).table.rows, EventsOf(acts))
  {
    if acts != [] {
      var front, hist := acts[..|acts| - 1], EventsOf(acts[..|acts| - 1]);
      CountNeverInflated(setup, front);
      var before := Play(setup, front);
      match acts[|acts| - 1]
      case Event(a) =>
        EventBounded(setup, hist, a, before.table);
        assert (hist + [a])[..|hist|] == hist;
      case Request(id, to, actor) =>
        RequestBounded(before.table, id, to, actor, hist);
    }
  }
}
