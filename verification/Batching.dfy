/** What a batch does to the detection windows, the alerts table, the event table and the set of seen
    event ids, and why the way a stream is cut into batches does not matter
    (backend/app/streaming/pipeline.py, backend/app/storage/repositories.py). */
module Batching {
  import opened Events
  import opened Windows
  import opened Rules
  import opened Alerts

  // ---------------------------------------------------------------- detection and correlation

  /** The detection windows and the alerts. */
  datatype Desk = Desk(store: Store, table: Table)

  function CorrelateAll(t: Table, ds: seq<Detection>): Table {
    if ds == [] then t else Correlated(CorrelateAll(t, ds[..|ds| - 1]), ds[|ds| - 1])
  }

  /** One event, evaluated and correlated at once. */
  function Digest(setup: Setup, desk: Desk, a: Arrival): Desk
    requires setup.Complete()
  {
    var out := RunRules(setup, desk.store, RULES, a);
    Desk(out.store, CorrelateAll(desk.table, out.detections))
  }

  function DigestAll(setup: Setup, desk: Desk, arrivals: seq<Arrival>): Desk
    requires setup.Complete()
  {
    if arrivals == [] then desk
    else Digest(setup, DigestAll(setup, desk, arrivals[..|arrivals| - 1]), arrivals[|arrivals| - 1])
  }

  lemma {:induction false} CorrelateAllConcat(t: Table, xs: seq<Detection>, ys: seq<Detection>)
    ensures CorrelateAll(t, xs + ys) == CorrelateAll(CorrelateAll(t, xs), ys)
  {
    if ys == [] {
      assert xs + ys == xs;
    } else {
      assert (xs + ys)[..|xs + ys| - 1] == xs + ys[..|ys| - 1];
      CorrelateAllConcat(t, xs, ys[..|ys| - 1]);
    }
  }

  /** Evaluating a whole batch before correlating any of it gives what doing both per event gives. */
  lemma {:induction false} EvaluateThenCorrelate(setup: Setup, desk: Desk, arrivals: seq<Arrival>)
    requires setup.Complete()
    ensures var out := RunStream(setup, desk.store, arrivals);
      DigestAll(setup, desk, arrivals) == Desk(out.store, CorrelateAll(desk.table, out.detections))
  {
    if arrivals != [] {
      var front, a := arrivals[..|arrivals| - 1], arrivals[|arrivals| - 1];
      EvaluateThenCorrelate(setup, desk, front);
      var before := RunStream(setup, desk.store, front);
      var next := RunRules(setup, before.store, RULES, a);
      CorrelateAllConcat(desk.table, before.detections, next.detections);
    }
  }

  // ---------------------------------------------------------------- one batch

  datatype Core = Core(
    desk: Desk,
    events: map<EventId, SecurityEvent>,
    seen: set<EventId>,
    detections: seq<Detection>)

  /** The events whose id is not in the seen set when the batch begins. */
  function FreshOf(seen: set<EventId>, arrivals: seq<Arrival>): (r: seq<Arrival>)
    ensures |r| <= |arrivals|
  {
    if arrivals == [] then []
    else
      var before, a := FreshOf(seen, arrivals[..|arrivals| - 1]), arrivals[|arrivals| - 1];
      if a.event.eventId in seen then before else before + [a]
  }

  function IdsOf(arrivals: seq<Arrival>): set<EventId> {
    set a | a in arrivals :: a.event.eventId
  }

  /** INSERT ... ON CONFLICT DO NOTHING */
  function InsertRow(events: map<EventId, SecurityEvent>, e: SecurityEvent): map<EventId, SecurityEvent> {
    if e.eventId in events then events else events[e.eventId := e]
  }

  function InsertRows(events: map<EventId, SecurityEvent>, arrivals: seq<Arrival>): map<EventId, SecurityEvent> {
    if arrivals == [] then events
    else InsertRow(InsertRows(events, arrivals[..|arrivals| - 1]), arrivals[|arrivals| - 1].event)
  }

  /** Everything a batch does with its unseen events. */
  function Absorb(setup: Setup, c: Core, unseen: seq<Arrival>): Core
    requires setup.Complete()
  {
    var out := RunStream(setup, c.desk.store, unseen);
    Core(Desk(out.store, CorrelateAll(c.desk.table, out.detections)),
         InsertRows(c.events, unseen), c.seen + IdsOf(unseen), c.detections + out.detections)
  }

  function Batch(setup: Setup, c: Core, arrivals: seq<Arrival>): Core
    requires setup.Complete()
  {
    var unseen := FreshOf(c.seen, arrivals);
    if unseen == [] then c else Absorb(setup, c, unseen)
  }

  function Batches(setup: Setup, c: Core, batches: seq<seq<Arrival>>): Core
    requires setup.Complete()
  {
    if batches == [] then c
    else Batch(setup, Batches(setup, c, batches[..|batches| - 1]), batches[|batches| - 1])
  }

  /** The events of a stream as batches of one. */
  function Singly(arrivals: seq<Arrival>): seq<seq<Arrival>> {
    if arrivals == [] then [] else Singly(arrivals[..|arrivals| - 1]) + [[arrivals[|arrivals| - 1]]]
  }

  function Flatten(batches: seq<seq<Arrival>>): seq<Arrival> {
    if batches == [] then [] else Flatten(batches[..|batches| - 1]) + batches[|batches| - 1]
  }

  ghost predicate DistinctIds(arrivals: seq<Arrival>) {
    forall i, j :: 0 <= i < j < |arrivals| ==> arrivals[i].event.eventId != arrivals[j].event.eventId
  }

  // ---------------------------------------------------------------- batching is transparent

  lemma {:induction false} FreshMembers(seen: set<EventId>, arrivals: seq<Arrival>)
    ensures forall a :: a in FreshOf(seen, arrivals) <==> a in arrivals && a.event.eventId !in seen
  {
    if arrivals != [] {
      FreshMembers(seen, arrivals[..|arrivals| - 1]);
      assert arrivals == arrivals[..|arrivals| - 1] + [arrivals[|arrivals| - 1]];
    }
  }

  lemma {:induction false} FreshOne(seen: set<EventId>, a: Arrival)
    ensures FreshOf(seen, [a]) == if a.event.eventId in seen then [] else [a]
  {
    assert [a][..0] == [] && FreshOf(seen, []) == [];
  }

  lemma {:induction false} AbsorbNone(setup: Setup, c: Core)
    requires setup.Complete()
    ensures Absorb(setup, c, []) == c
  {
    assert c.detections + [] == c.detections && c.seen + IdsOf([]) == c.seen;
  }

  lemma {:induction false} AbsorbExtend(setup: Setup, c: Core, unseen: seq<Arrival>, a: Arrival)
    requires setup.Complete()
    ensures Absorb(setup, c, unseen + [a]) == Absorb(setup, Absorb(setup, c, unseen), [a])
  {
    var first := RunStream(setup, c.desk.store, unseen);
    var second := RunStream(setup, first.store, [a]);
    RunStreamConcat(setup, c.desk.store, unseen, [a]);
    CorrelateAllConcat(c.desk.table, first.detections, second.detections);
    Associate(c.detections, first.detections, second.detections);
    IdsConcat(c.seen, unseen, [a]);
    InsertRowsConcat(c.events, unseen, [a]);
  }

  lemma {:induction false} Associate(x: seq<Detection>, y: seq<Detection>, z: seq<Detection>)
    ensures x + (y + z) == (x + y) + z
  {
  }

  lemma {:induction false} IdsConcat(seen: set<EventId>, xs: seq<Arrival>, ys: seq<Arrival>)
    ensures seen + IdsOf(xs + ys) == (seen + IdsOf(xs)) + IdsOf(ys)
  {
  }

  /** A batch extended by an event that it does not absorb already does what the batch and then the event
      alone do. */
  lemma {:induction false} BatchExtend(setup: Setup, c: Core, arrivals: seq<Arrival>, a: Arrival)
    requires setup.Complete()
    requires a.event.eventId in c.seen || a.event.eventId !in IdsOf(FreshOf(c.seen, arrivals))
    ensures Batch(setup, c, arrivals + [a]) == Batch(setup, Batch(setup, c, arrivals), [a])
  {
    var unseen := FreshOf(c.seen, arrivals);
    assert (arrivals + [a])[..|arrivals|] == arrivals;
    AbsorbNone(setup, c);
    var c' := Absorb(setup, c, unseen);
    assert Batch(setup, c, arrivals) == c';
    FreshOne(c'.seen, a);
    if a.event.eventId !in c.seen { AbsorbExtend(setup, c, unseen, a); }
  }

  lemma {:induction false} FreshAppend(seen: set<EventId>, arrivals: seq<Arrival>, a: Arrival)
    ensures FreshOf(seen, arrivals + [a]) ==
      if a.event.eventId in seen then FreshOf(seen, arrivals) else FreshOf(seen, arrivals) + [a]
  {
    assert (arrivals + [a])[..|arrivals|] == arrivals;
  }

  lemma {:induction false} DistinctFront(arrivals: seq<Arrival>, a: Arrival)
    ensures DistinctIds(arrivals + [a]) <==> DistinctIds(arrivals) && a.event.eventId !in IdsOf(arrivals)
  {
    var all := arrivals + [a];
    assert all[|arrivals|] == a && forall i :: 0 <= i < |arrivals| ==> all[i] == arrivals[i];
    if a.event.eventId in IdsOf(arrivals) {
      var x :| x in arrivals && x.event.eventId == a.event.eventId;
      var i :| 0 <= i < |arrivals| && arrivals[i] == x;
      assert all[i].event.eventId == all[|arrivals|].event.eventId;
    } else {
      assert forall i :: 0 <= i < |arrivals| ==> arrivals[i] in arrivals;
    }
  }

  lemma {:induction false} BatchIsSingly(setup: Setup, c: Core, arrivals: seq<Arrival>)
    requires setup.Complete() && DistinctIds(FreshOf(c.seen, arrivals))
    ensures Batch(setup, c, arrivals) == Batches(setup, c, Singly(arrivals))
  {
    if arrivals != [] {
      var front, a := arrivals[..|arrivals| - 1], arrivals[|arrivals| - 1];
      assert front + [a] == arrivals;
      FreshAppend(c.seen, front, a);
      DistinctFront(FreshOf(c.seen, front), a);
      BatchIsSingly(setup, c, front);
      BatchExtend(setup, c, front, a);
    }
  }

  lemma {:induction false} BatchesConcat(setup: Setup, c: Core, xs: seq<seq<Arrival>>, ys: seq<seq<Arrival>>)
    requires setup.Complete()
    ensures Batches(setup, c, xs + ys) == Batches(setup, Batches(setup, c, xs), ys)
  {
    if ys == [] {
      assert xs + ys == xs;
    } else {
      assert (xs + ys)[..|xs + ys| - 1] == xs + ys[..|ys| - 1];
      BatchesConcat(setup, c, xs, ys[..|ys| - 1]);
    }
  }

  lemma {:induction false} SinglyConcat(xs: seq<Arrival>, ys: seq<Arrival>)
    ensures Singly(xs + ys) == Singly(xs) + Singly(ys)
  {
    if ys == [] {
      assert xs + ys == xs;
    } else {
      assert (xs + ys)[..|xs + ys| - 1] == xs + ys[..|ys| - 1];
      SinglyConcat(xs, ys[..|ys| - 1]);
    }
  }

  /** What batch n has that was not seen before it. */
  function FreshAt(setup: Setup, c: Core, batches: seq<seq<Arrival>>, n: nat): seq<Arrival>
    requires setup.Complete() && n < |batches|
  {
    FreshOf(Batches(setup, c, batches[..n]).seen, batches[n])
  }

  /** No batch repeats an id that is new to it. Ids seen before may repeat, within a batch and across. */
  ghost predicate NoFreshRepeat(setup: Setup, c: Core, batches: seq<seq<Arrival>>)
    requires setup.Complete()
  {
    forall n :: 0 <= n < |batches| ==> DistinctIds(FreshAt(setup, c, batches, n))
  }

  lemma {:induction false} FreshAtFront(setup: Setup, c: Core, batches: seq<seq<Arrival>>, n: nat)
    requires setup.Complete() && n < |batches| - 1
    ensures FreshAt(setup, c, batches[..|batches| - 1], n) == FreshAt(setup, c, batches, n)
  {
    assert batches[..|batches| - 1][..n] == batches[..n];
  }

  lemma {:induction false} NoFreshRepeatFront(setup: Setup, c: Core, batches: seq<seq<Arrival>>)
    requires setup.Complete() && batches != []
    ensures NoFreshRepeat(setup, c, batches) <==>
      && NoFreshRepeat(setup, c, batches[..|batches| - 1])
      && DistinctIds(FreshAt(setup, c, batches, |batches| - 1))
  {
    var front := batches[..|batches| - 1];
    forall n | 0 <= n < |front| ensures FreshAt(setup, c, front, n) == FreshAt(setup, c, batches, n) {
      FreshAtFront(setup, c, batches, n);
    }
    if NoFreshRepeat(setup, c, batches) {
      assert forall n :: 0 <= n < |front| ==> DistinctIds(FreshAt(setup, c, batches, n));
    }
  }

  /** However a stream is cut into batches, stored rows, windows, the detection sequence and the alerts
      come out as when every event is processed alone, provided no batch repeats an id that is new to it. */
  lemma {:induction false} BatchingTransparent(setup: Setup, c: Core, batches: seq<seq<Arrival>>)
    requires setup.Complete() && NoFreshRepeat(setup, c, batches)
    ensures Batches(setup, c, batches) == Batches(setup, c, Singly(Flatten(batches)))
  {
    if batches != [] {
      var front, b := batches[..|batches| - 1], batches[|batches| - 1];
      NoFreshRepeatFront(setup, c, batches);
      BatchingTransparent(setup, c, front);
      BatchIsSingly(setup, Batches(setup, c, front), b);
      SinglyConcat(Flatten(front), b);
      BatchesConcat(setup, c, Singly(Flatten(front)), Singly(b));
    }
  }

  /** Every event the batches evaluate, in order. */
  function Evaluated(setup: Setup, c: Core, batches: seq<seq<Arrival>>): seq<Arrival>
    requires setup.Complete()
  {
    if batches == [] then []
    else Evaluated(setup, c, batches[..|batches| - 1]) + FreshAt(setup, c, batches, |batches| - 1)
  }

  lemma {:induction false} EvaluatedIsSeen(setup: Setup, c: Core, batches: seq<seq<Arrival>>)
    requires setup.Complete()
    ensures Batches(setup, c, batches).seen == c.seen + IdsOf(Evaluated(setup, c, batches))
  {
    if batches != [] {
      var front, k := batches[..|batches| - 1], |batches| - 1;
      EvaluatedIsSeen(setup, c, front);
      IdsConcat(c.seen, Evaluated(setup, c, front), FreshAt(setup, c, batches, k));
      assert FreshAt(setup, c, batches, k) == [] ==> IdsOf(FreshAt(setup, c, batches, k)) == {};
    }
  }

  lemma {:induction false} DistinctConcat(xs: seq<Arrival>, ys: seq<Arrival>)
    requires IdsOf(xs) !! IdsOf(ys)
    ensures DistinctIds(xs + ys) <==> DistinctIds(xs) && DistinctIds(ys)
  {
    if ys == [] {
      assert xs + ys == xs;
    } else {
      var front, y := ys[..|ys| - 1], ys[|ys| - 1];
      assert front + [y] == ys && xs + ys == (xs + front) + [y];
      IdsConcat({}, front, [y]);
      IdsConcat({}, xs, front);
      assert y in ys;
      DistinctConcat(xs, front);
      DistinctFront(front, y);
      DistinctFront(xs + front, y);
    }
  }

  lemma {:induction false} FreshIsNew(seen: set<EventId>, arrivals: seq<Arrival>)
    ensures IdsOf(FreshOf(seen, arrivals)) !! seen
  {
    FreshMembers(seen, arrivals);
  }

  /** Deduplication works, in that every id is evaluated at most once, exactly when no batch repeats an
      id that is new to it. */
  lemma {:induction false} EvaluatedOnceIff(setup: Setup, c: Core, batches: seq<seq<Arrival>>)
    requires setup.Complete()
    ensures DistinctIds(Evaluated(setup, c, batches)) <==> NoFreshRepeat(setup, c, batches)
  {
    if batches != [] {
      var front, k := batches[..|batches| - 1], |batches| - 1;
      EvaluatedOnceIff(setup, c, front);
      EvaluatedIsSeen(setup, c, front);
      FreshIsNew(Batches(setup, c, front).seen, batches[k]);
      DistinctConcat(Evaluated(setup, c, front), FreshAt(setup, c, batches, k));
      NoFreshRepeatFront(setup, c, batches);
    }
  }

  // ---------------------------------------------------------------- stored rows

  lemma {:induction false} InsertRowsKeys(events: map<EventId, SecurityEvent>, arrivals: seq<Arrival>)
    ensures InsertRows(events, arrivals).Keys == events.Keys + IdsOf(arrivals)
    ensures forall id :: id in events ==> InsertRows(events, arrivals)[id] == events[id]
  {
    if arrivals != [] {
      var front, a := arrivals[..|arrivals| - 1], arrivals[|arrivals| - 1];
      InsertRowsKeys(events, front);
      assert arrivals == front + [a];
      assert IdsOf(arrivals) == IdsOf(front) + {a.event.eventId};
    }
  }

  lemma {:induction false} InsertRowsConcat(events: map<EventId, SecurityEvent>, xs: seq<Arrival>, ys: seq<Arrival>)
    ensures InsertRows(events, xs + ys) == InsertRows(InsertRows(events, xs), ys)
  {
    if ys == [] {
      assert xs + ys == xs;
    } else {
      assert (xs + ys)[..|xs + ys| - 1] == xs + ys[..|ys| - 1];
      InsertRowsConcat(events, xs, ys[..|ys| - 1]);
    }
  }

  lemma {:induction false} SeenRowsAreStored(events: map<EventId, SecurityEvent>, seen: set<EventId>, arrivals: seq<Arrival>)
    requires seen <= events.Keys
    ensures InsertRows(events, FreshOf(seen, arrivals)) == InsertRows(events, arrivals)
  {
    if arrivals != [] {
      var front := arrivals[..|arrivals| - 1];
      SeenRowsAreStored(events, seen, front);
      InsertRowsKeys(events, front);
    }
  }

  /** While nothing fails, every id seen is stored and the event table holds the first occurrence of
      each id in the stream, however the stream was cut and whatever ids repeat. */
  lemma {:induction false} StoredRows(setup: Setup, c: Core, batches: seq<seq<Arrival>>)
    requires setup.Complete() && c.seen == c.events.Keys
    ensures var c' := Batches(setup, c, batches);
      (c'.events, c'.seen) == (InsertRows(c.events, Flatten(batches)), c'.events.Keys)
  {
    if batches != [] {
      var front, b := batches[..|batches| - 1], batches[|batches| - 1];
      StoredRows(setup, c, front);
      var before := Batches(setup, c, front);
      SeenRowsAreStored(before.events, before.seen, b);
      InsertRowsConcat(c.events, Flatten(front), b);
      InsertRowsKeys(before.events, FreshOf(before.seen, b));
    }
  }

  /** The row stored under an id not stored before is the first event that carries it. */
  lemma {:induction false} FirstWriteWins(events: map<EventId, SecurityEvent>, arrivals: seq<Arrival>, i: nat)
    requires i < |arrivals| && arrivals[i].event.eventId !in events
    requires forall j :: 0 <= j < i ==> arrivals[j].event.eventId != arrivals[i].event.eventId
    ensures (arrivals[i].event.eventId, arrivals[i].event) in InsertRows(events, arrivals).Items
  {
    var upto, after := arrivals[..i + 1], arrivals[i + 1..];
    assert arrivals == upto + after && upto[..i] == arrivals[..i];
    InsertRowsConcat(events, upto, after);
    InsertRowsKeys(events, arrivals[..i]);
    InsertRowsKeys(InsertRows(events, upto), after);
  }
}
