/** The stream processor's batch loop with its counters (backend/app/streaming/pipeline.py). */
module Processing {
  import opened Text
  import opened Events
  import opened Rules
  import opened Alerts
  import opened Batching
  import Windows

  /** A raw event as validation leaves it (None when it is rejected) and the clock at its evaluation. */
  datatype Raw = Raw(parsed: Option<SecurityEvent>, wall: int)

  function ValidOf(raws: seq<Raw>): (r: seq<Arrival>)
    ensures |r| <= |raws|
  {
    if raws == [] then []
    else
      var before, last := ValidOf(raws[..|raws| - 1]), raws[|raws| - 1];
      if last.parsed.None? then before else before + [Arrival(last.parsed.value, last.wall)]
  }

  /** Validation takes the raw events one by one, in their order. */
  lemma {:induction false} ValidInOrder(xs: seq<Raw>, ys: seq<Raw>)
    ensures ValidOf(xs + ys) == ValidOf(xs) + ValidOf(ys)
  {
    if ys == [] {
      assert xs + ys == xs;
    } else {
      CutLast(xs, ys);
      ValidInOrder(xs, ys[..|ys| - 1]);
    }
  }

  lemma {:induction false} ValidOne(r: Raw)
    ensures ValidOf([r]) == match r.parsed case None => [] case Some(e) => [Arrival(e, r.wall)]
  {
    assert [r][..0] == [];
  }

  /** The counters of the rolling five-second window. */
  datatype Counters = Counters(
    ingested: nat, invalid: nat, duplicate: nat, persisted: nat,
    alertsCreated: nat, alertsCorrelated: nat, batches: nat)

  const ZERO: Counters := Counters(0, 0, 0, 0, 0, 0, 0)

  /** All that a series of reports counts. */
  function Sum(reports: seq<Counters>): Counters {
    if reports == [] then ZERO
    else
      var s, r := Sum(reports[..|reports| - 1]), reports[|reports| - 1];
      Counters(s.ingested + r.ingested, s.invalid + r.invalid, s.duplicate + r.duplicate, s.persisted + r.persisted,
               s.alertsCreated + r.alertsCreated, s.alertsCorrelated + r.alertsCorrelated, s.batches + r.batches)
  }

  /** Equal but for what storing a batch counts. */
  predicate SameBatch(a: Counters, b: Counters) {
    a.ingested == b.ingested && a.invalid == b.invalid && a.duplicate == b.duplicate && a.batches == b.batches
  }

  /** The counters of one minute. */
  datatype Minute = Minute(events: nat, authFailures: nat, dbErrors: nat, firewallDenies: nat, bytesOut: nat, ips: set<string>)

  const QUIET: Minute := Minute(0, 0, 0, 0, 0, {})

  function CountEvent(m: Minute, e: SecurityEvent): Minute {
    Minute(m.events + 1,
           m.authFailures + if e.eventType == AuthFailure then 1 else 0,
           m.dbErrors + if e.eventType == DbError then 1 else 0,
           m.firewallDenies + if e.eventType == FirewallDeny then 1 else 0,
           m.bytesOut + e.bytesOut,
           if Truthy(e.sourceIp) then m.ips + {e.sourceIp.value} else m.ips)
  }

  /** What a minute made of these events counts. */
  function MinuteOf(arrivals: seq<Arrival>): Minute {
    if arrivals == [] then QUIET
    else CountEvent(MinuteOf(arrivals[..|arrivals| - 1]), arrivals[|arrivals| - 1].event)
  }

  lemma {:induction false} MinuteAppend(arrivals: seq<Arrival>, a: Arrival)
    ensures MinuteOf(arrivals + [a]) == CountEvent(MinuteOf(arrivals), a.event)
  {
    assert (arrivals + [a])[..|arrivals|] == arrivals;
  }

  /** The places of the events of a type. */
  function Places(arrivals: seq<Arrival>, eventType: EventType): (r: set<nat>)
    ensures forall i: nat :: i in r <==> i < |arrivals| && arrivals[i].event.eventType == eventType
  {
    set i: nat | i < |arrivals| && arrivals[i].event.eventType == eventType
  }

  function SentBy(arrivals: seq<Arrival>): (n: nat) {
    if arrivals == [] then 0 else SentBy(arrivals[..|arrivals| - 1]) + arrivals[|arrivals| - 1].event.bytesOut
  }

  lemma {:induction false} PlacesMore(arrivals: seq<Arrival>, eventType: EventType)
    requires arrivals != []
    ensures var k := |arrivals| - 1;
      |Places(arrivals, eventType)| == |Places(arrivals[..k], eventType)| + if arrivals[k].event.eventType == eventType then 1 else 0
  {
    var k := |arrivals| - 1;
    var before := Places(arrivals[..k], eventType);
    assert k !in before;
    assert Places(arrivals, eventType) == if arrivals[k].event.eventType == eventType then before + {k} else before;
  }

  /** A minute's totals: its events, those of three types, the bytes sent and the addresses named. */
  lemma {:induction false} MinuteCounts(arrivals: seq<Arrival>)
    ensures var m := MinuteOf(arrivals);
      (m.events, m.authFailures, m.dbErrors, m.firewallDenies, m.bytesOut) ==
      (|arrivals|, |Places(arrivals, AuthFailure)|, |Places(arrivals, DbError)|, |Places(arrivals, FirewallDeny)|, SentBy(arrivals))
  {
    if arrivals != [] {
      MinuteCounts(arrivals[..|arrivals| - 1]);
      PlacesMore(arrivals, AuthFailure);
      PlacesMore(arrivals, DbError);
      PlacesMore(arrivals, FirewallDeny);
    }
  }

  lemma {:induction false} MinuteNames(arrivals: seq<Arrival>, ip: string)
    ensures ip in MinuteOf(arrivals).ips <==> ip != "" && exists i :: 0 <= i < |arrivals| && arrivals[i].event.sourceIp == Some(ip)
  {
    if arrivals != [] {
      var front := arrivals[..|arrivals| - 1];
      MinuteNames(front, ip);
      assert forall i :: 0 <= i < |front| ==> front[i] == arrivals[i];
    }
  }

  /** Counting on from some events to one more of these. */
  lemma {:induction false} MinuteMore(was: seq<Arrival>, unseen: seq<Arrival>, i: nat)
    requires i < |unseen|
    ensures MinuteOf(was + unseen[..i + 1]) == CountEvent(MinuteOf(was + unseen[..i]), unseen[i].event)
  {
    MinuteAppend(was + unseen[..i], unseen[i]);
    assert was + unseen[..i + 1] == (was + unseen[..i]) + [unseen[i]];
  }

  /** The totals handed to anomaly detection when a minute ends. */
  datatype Ended = Ended(bucket: int, counted: Minute)

  /** The k-th flush counts exactly the k-th group of events. */
  ghost predicate Attributed(flushes: seq<Ended>, groups: seq<seq<Arrival>>) {
    |flushes| == |groups| && forall k :: 0 <= k < |flushes| ==> flushes[k].counted == MinuteOf(groups[k])
  }

  /** The per-minute counters, and which events each minute was charged with. */
  class MinuteMeter {
    var bucket: int
    var minute: Minute
    var flushes: seq<Ended>
    // every event counted, how the minutes past split them, and those of the open minute
    ghost var counted: seq<Arrival>
    ghost var groups: seq<seq<Arrival>>
    ghost var current: seq<Arrival>

    constructor (bucket: int)
      ensures Valid() && counted == [] && flushes == [] && this.bucket == bucket
    {
      this.bucket, minute, flushes := bucket, QUIET, [];
      counted, groups, current := [], [], [];
    }

    /** Every event counted is in exactly one minute, in order. */
    ghost predicate Valid()
      reads this
    {
      Attributed(flushes, groups) && minute == MinuteOf(current) && Flatten(groups) + current == counted
    }

    method Count(unseen: seq<Arrival>)
      requires Valid()
      modifies this`minute, this`current, this`counted
      ensures Valid() && current == old(current) + unseen && counted == old(counted) + unseen
    {
      ghost var was := current;
      assert was + unseen[..0] == was;
      for i := 0 to |unseen|
        invariant minute == MinuteOf(was + unseen[..i])
        invariant current == was && counted == old(counted) && flushes == old(flushes) && groups == old(groups)
      {
        MinuteMore(was, unseen, i);
        minute := CountEvent(minute, unseen[i].event);
      }
      assert unseen[..|unseen|] == unseen;
      current, counted := was + unseen, counted + unseen;
      assert Flatten(groups) + (was + unseen) == (Flatten(groups) + was) + unseen;
    }

    method Flush()
      requires Valid()
      modifies this`flushes, this`groups, this`minute, this`current
      ensures Valid() && current == [] && flushes == old(flushes) + [Ended(bucket, old(minute))]
    {
      flushes := flushes + [Ended(bucket, minute)];
      groups := groups + [current];
      assert groups[..|groups| - 1] == old(groups);
      minute, current := QUIET, [];
      assert Flatten(groups) + current == counted;
    }

    /** The batch counts towards the minute that is open, even when the clock has already left it;
        then, if it has, that minute is flushed. */
    method Update(unseen: seq<Arrival>, nowMinute: int)
      requires Valid()
      modifies this
      ensures Valid() && counted == old(counted) + unseen && bucket == nowMinute
      ensures nowMinute == old(bucket) ==> flushes == old(flushes) && current == old(current) + unseen
      ensures nowMinute != old(bucket) ==>
        current == [] && flushes == old(flushes) + [Ended(old(bucket), MinuteOf(old(current) + unseen))]
    {
      Count(unseen);
      if nowMinute != bucket {
        Flush();
        bucket := nowMinute;
      }
    }
  }

  class Pipeline {
    const engine: DetectionEngine
    const alerts: AlertStore
    var events: map<EventId, SecurityEvent>
    var seen: set<EventId>
    var w: Counters
    var windowStarted: int
    var reports: seq<Counters>
    const meter: MinuteMeter
    // every rule detection made
    ghost var detected: seq<Detection>

    constructor (engine: DetectionEngine, bucket: int, tick: int)
      requires engine.windows.State() == Windows.Store(map[], 0)
      ensures Valid() && fresh(alerts) && fresh(meter) && alerts.rows == [] && this.engine == engine
      ensures State() == Core(Desk(Windows.Store(map[], 0), NO_ALERTS), map[], {}, [])
    {
      this.engine := engine;
      alerts := new AlertStore();
      meter := new MinuteMeter(bucket);
      events, seen, w, windowStarted, reports, detected := map[], {}, ZERO, tick, [], [];
    }

    ghost function State(): Core
      reads this`events, this`seen, this`detected, engine.windows, alerts
    {
      Core(Desk(engine.windows.State(), alerts.State()), events, seen, detected)
    }

    /** The five-second reports and the current window add up to all that happened. Of that, every raw
        event is invalid, a duplicate or absorbed; every stored row and every alert was counted once; every
        detection created an alert or joined one; every absorbed event is in exactly one minute. */
    ghost predicate Valid()
      reads this, meter, alerts, alerts.rows
    {
      meter.Valid() && Balanced(0)
    }

    /** The same sums while `pending` events of the batch at hand are still to be absorbed. */
    ghost predicate Balanced(pending: nat)
      reads this, meter, alerts, alerts.rows
    {
      var past := Sum(reports);
      && alerts.Valid()
      && past.ingested + w.ingested == past.invalid + w.invalid + past.duplicate + w.duplicate + |meter.counted| + pending
      && past.persisted + w.persisted == |events|
      && past.alertsCreated + w.alertsCreated == |alerts.rows|
      && past.alertsCreated + w.alertsCreated + past.alertsCorrelated + w.alertsCorrelated == |detected|
      && seen == events.Keys
    }

    method Validate(raws: seq<Raw>) returns (valid: seq<Arrival>)
      modifies this`w
      ensures valid == ValidOf(raws)
      ensures w.ingested == old(w).ingested + |raws| && w.invalid == old(w).invalid + |raws| - |valid|
      ensures w.duplicate == old(w).duplicate && w.persisted == old(w).persisted
      ensures w.alertsCreated == old(w).alertsCreated && w.alertsCorrelated == old(w).alertsCorrelated
    {
      valid := [];
      for i := 0 to |raws|
        invariant valid == ValidOf(raws[..i])
        invariant w.ingested == old(w).ingested + i && w.invalid == old(w).invalid + i - |valid|
        invariant w.duplicate == old(w).duplicate && w.persisted == old(w).persisted
        invariant w.alertsCreated == old(w).alertsCreated && w.alertsCorrelated == old(w).alertsCorrelated
      {
        assert raws[..i + 1][..i] == raws[..i];
        w := w.(ingested := w.ingested + 1);
        match raws[i].parsed {
          case None => w := w.(invalid := w.invalid + 1);
          case Some(e) => valid := valid + [Arrival(e, raws[i].wall)];
        }
      }
      assert raws[..|raws|] == raws;
    }

    method Unseen(valid: seq<Arrival>) returns (unseen: seq<Arrival>)
      ensures unseen == FreshOf(seen, valid)
    {
      unseen := [];
      for i := 0 to |valid|
        invariant unseen == FreshOf(seen, valid[..i])
      {
        assert valid[..i + 1][..i] == valid[..i];
        if valid[i].event.eventId !in seen {
          unseen := unseen + [valid[i]];
        }
      }
      assert valid[..|valid|] == valid;
    }

    method Detect(unseen: seq<Arrival>) returns (all: seq<Detection>)
      requires engine.GetSetup().Complete()
      modifies engine.windows
      ensures Outcome(engine.windows.State(), all) == RunStream(engine.GetSetup(), old(engine.windows.State()), unseen)
    {
      all := [];
      for i := 0 to |unseen|
        invariant Outcome(engine.windows.State(), all) ==
                  RunStream(engine.GetSetup(), old(engine.windows.State()), unseen[..i])
      {
        assert unseen[..i + 1][..i] == unseen[..i];
        var ds := engine.Evaluate(unseen[i]);
        all := all + ds;
      }
      assert unseen[..|unseen|] == unseen;
    }

    /** EventRepository.bulk_insert: the number of new rows. */
    method BulkInsert(unseen: seq<Arrival>) returns (written: nat)
      modifies this`events
      ensures events == InsertRows(old(events), unseen)
      ensures written == |events| - |old(events)|
    {
      written := 0;
      for i := 0 to |unseen|
        invariant events == InsertRows(old(events), unseen[..i])
        invariant written == |events| - |old(events)|
      {
        assert unseen[..i + 1][..i] == unseen[..i];
        var e := unseen[i].event;
        if e.eventId !in events {
          events := events[e.eventId := e];
          written := written + 1;
        }
      }
      assert unseen[..|unseen|] == unseen;
    }

    method CorrelateOne(d: Detection)
      requires alerts.Valid()
      modifies this`w, alerts, alerts.rows
      ensures alerts.Valid() && forall i :: 0 <= i < |alerts.rows| ==> alerts.rows[i] in old(alerts.rows) || fresh(alerts.rows[i])
      ensures alerts.State() == Correlated(old(alerts.State()), d)
      ensures SameBatch(w, old(w)) && w.persisted == old(w).persisted
      ensures w.alertsCreated - old(w).alertsCreated == |alerts.rows| - |old(alerts.rows)|
      ensures w.alertsCreated + w.alertsCorrelated == old(w).alertsCreated + old(w).alertsCorrelated + 1
    {
      var alert, created := alerts.Correlate(d);
      if created {
        w := w.(alertsCreated := w.alertsCreated + 1);
      } else {
        w := w.(alertsCorrelated := w.alertsCorrelated + 1);
      }
    }

    method Correlate(ds: seq<Detection>)
      requires alerts.Valid()
      modifies this`w, alerts, alerts.rows
      ensures alerts.Valid() && forall i :: 0 <= i < |alerts.rows| ==> alerts.rows[i] in old(alerts.rows) || fresh(alerts.rows[i])
      ensures alerts.State() == CorrelateAll(old(alerts.State()), ds)
      ensures SameBatch(w, old(w)) && w.persisted == old(w).persisted
      ensures w.alertsCreated - old(w).alertsCreated == |alerts.rows| - |old(alerts.rows)|
      ensures w.alertsCreated + w.alertsCorrelated == old(w).alertsCreated + old(w).alertsCorrelated + |ds|
    {
      for i := 0 to |ds|
        invariant alerts.Valid()
        invariant forall j :: 0 <= j < |alerts.rows| ==> alerts.rows[j] in old(alerts.rows) || fresh(alerts.rows[j])
        invariant alerts.State() == CorrelateAll(old(alerts.State()), ds[..i])
        invariant SameBatch(w, old(w)) && w.persisted == old(w).persisted
        invariant w.alertsCreated - old(w).alertsCreated == |alerts.rows| - |old(alerts.rows)|
        invariant w.alertsCreated + w.alertsCorrelated == old(w).alertsCreated + old(w).alertsCorrelated + i
      {
        assert ds[..i + 1][..i] == ds[..i];
        CorrelateOne(ds[i]);
      }
      assert ds[..|ds|] == ds;
    }

    /** Marks the events as seen, evaluates them and inserts their rows. */
    method Record(unseen: seq<Arrival>) returns (all: seq<Detection>)
      requires engine.GetSetup().Complete()
      modifies this`events, this`seen, this`w, engine.windows
      ensures Outcome(engine.windows.State(), all) == RunStream(engine.GetSetup(), old(engine.windows.State()), unseen)
      ensures events == InsertRows(old(events), unseen) && seen == old(seen) + IdsOf(unseen)
      ensures events.Keys == old(events).Keys + IdsOf(unseen)
      ensures SameBatch(w, old(w).(batches := old(w).batches + 1)) && w.persisted - old(w).persisted == |events| - |old(events)|
      ensures w.alertsCreated == old(w).alertsCreated && w.alertsCorrelated == old(w).alertsCorrelated
    {
      seen := seen + IdsOf(unseen);
      all := Detect(unseen);
      var written := BulkInsert(unseen);
      w := w.(persisted := w.persisted + written, batches := w.batches + 1);
      InsertRowsKeys(old(events), unseen);
    }

    /** Everything a batch stores, in the order process_batch does it. */
    method Store(unseen: seq<Arrival>)
      requires engine.GetSetup().Complete() && alerts.Valid()
      modifies this`events, this`seen, this`w, this`detected, engine.windows, alerts, alerts.rows
      ensures alerts.Valid() && forall i :: 0 <= i < |alerts.rows| ==> alerts.rows[i] in old(alerts.rows) || fresh(alerts.rows[i])
      ensures old(seen) == old(events).Keys ==> seen == events.Keys
      ensures State() == Absorb(engine.GetSetup(), old(State()), unseen)
      ensures SameBatch(w, old(w).(batches := old(w).batches + 1))
      ensures w.persisted - old(w).persisted == |events| - |old(events)|
      ensures w.alertsCreated - old(w).alertsCreated == |alerts.rows| - |old(alerts.rows)|
      ensures w.alertsCreated + w.alertsCorrelated - |detected| ==
              old(w).alertsCreated + old(w).alertsCorrelated - |old(detected)|
    {
      var all := Record(unseen);
      Correlate(all);
      detected := detected + all;
    }

    method ReportIfDue(tick: int)
      modifies this`w, this`reports, this`windowStarted
      ensures SameTotal(old(reports), old(w))
      ensures if tick >= old(windowStarted) + 5_000_000
        then (reports, w, windowStarted) == (old(reports) + [old(w)], ZERO, tick)
        else (reports, w, windowStarted) == (old(reports), old(w), old(windowStarted))
    {
      if tick - windowStarted >= 5_000_000 {
        reports := reports + [w];
        assert reports[..|reports| - 1] == old(reports);
        w, windowStarted := ZERO, tick;
      }
    }

    method ReportBalanced(tick: int, ghost pending: nat)
      requires Balanced(pending)
      modifies this`w, this`reports, this`windowStarted
      ensures Balanced(pending)
    {
      ReportIfDue(tick);
    }

    /** The reports and the current window count what these counted. */
    ghost predicate SameTotal(reports': seq<Counters>, w': Counters)
      reads this`reports, this`w
    {
      var past, past' := Sum(reports), Sum(reports');
      && past.ingested + w.ingested == past'.ingested + w'.ingested
      && past.invalid + w.invalid == past'.invalid + w'.invalid
      && past.duplicate + w.duplicate == past'.duplicate + w'.duplicate
      && past.persisted + w.persisted == past'.persisted + w'.persisted
      && past.alertsCreated + w.alertsCreated == past'.alertsCreated + w'.alertsCreated
      && past.alertsCorrelated + w.alertsCorrelated == past'.alertsCorrelated + w'.alertsCorrelated
      && past.batches + w.batches == past'.batches + w'.batches
    }

    method StoreAndReport(unseen: seq<Arrival>, tick: int)
      requires Balanced(|unseen|) && engine.GetSetup().Complete()
      modifies this, engine.windows, alerts, alerts.rows
      ensures Balanced(|unseen|)
      ensures forall i :: 0 <= i < |alerts.rows| ==> alerts.rows[i] in old(alerts.rows) || fresh(alerts.rows[i])
      ensures State() == Absorb(engine.GetSetup(), old(State()), unseen)
    {
      Store(unseen);
      ReportBalanced(tick, |unseen|);
    }

    /** Stores a batch's unseen events and counts them. */
    method Finish(unseen: seq<Arrival>, nowMinute: int, tick: int)
      requires meter.Valid() && Balanced(|unseen|) && engine.GetSetup().Complete()
      modifies this, engine.windows, alerts, alerts.rows, meter
      ensures Valid() && forall i :: 0 <= i < |alerts.rows| ==> alerts.rows[i] in old(alerts.rows) || fresh(alerts.rows[i])
      ensures State() == Absorb(engine.GetSetup(), old(State()), unseen)
      ensures meter.counted == old(meter.counted) + unseen
    {
      StoreAndReport(unseen, tick);
      meter.Update(unseen, nowMinute);
    }

    /** Counts a batch of raw events and picks those to absorb. */
    method Intake(raws: seq<Raw>) returns (unseen: seq<Arrival>)
      requires Valid()
      modifies this`w
      ensures Balanced(|unseen|) && unseen == FreshOf(seen, ValidOf(raws))
    {
      var valid := Validate(raws);
      if valid == [] { return []; }
      unseen := Unseen(valid);
      w := w.(duplicate := w.duplicate + |valid| - |unseen|);
    }

    method ProcessBatch(raws: seq<Raw>, nowMinute: int, tick: int)
      requires Valid() && engine.GetSetup().Complete()
      modifies this, engine.windows, alerts, alerts.rows, meter
      ensures Valid() && forall i :: 0 <= i < |alerts.rows| ==> alerts.rows[i] in old(alerts.rows) || fresh(alerts.rows[i])
      ensures State() == Batch(engine.GetSetup(), old(State()), ValidOf(raws))
      ensures meter.counted == old(meter.counted) + FreshOf(old(seen), ValidOf(raws))
    {
      var unseen := Intake(raws);
      if unseen == [] {
        assert meter.counted + [] == meter.counted;
        return;
      }
      Finish(unseen, nowMinute, tick);
    }
  }
}
