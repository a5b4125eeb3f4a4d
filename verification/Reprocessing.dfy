/** Reprocessing: the protocol and the batch loop side by side. Clean rounds store what the batch loop
    stores; failing runs evaluate more events than they store (backend/app/worker.py,
    backend/app/streaming/pipeline.py). */
module Reprocessing {
  import opened Events
  import opened Rules
  import opened Delivery
  import opened Worker
  import Text
  import Alerts
  import Batching
  import Burst
  import Firing

  /** What a record's id and body are, as an event and the clock at its evaluation. */
  type Reader = (nat, int) -> Arrival

  ghost predicate Reads(read: Reader) {
    forall id, body :: read(id, body).event.eventId == id
  }

  // ---------------------------------------------------------------- clean rounds are batches

  ghost predicate AllKnown(log: seq<Message>, lo: nat, hi: nat)
    requires lo <= hi <= |log|
  {
    forall o :: lo <= o < hi ==> log[o].Known?
  }

  /** The events of the records lo to hi. */
  function ArrivalsOf(log: seq<Message>, lo: nat, hi: nat, read: Reader): seq<Arrival>
    requires lo <= hi <= |log| && forall o :: lo <= o < hi ==> log[o].Known?
  {
    if lo == hi then [] else ArrivalsOf(log, lo, hi - 1, read) + [read(log[hi - 1].id, log[hi - 1].body)]
  }

  /** Items and events in step. */
  ghost predicate InStep(items: seq<Item>, arrivals: seq<Arrival>, read: Reader) {
    && |items| == |arrivals|
    && forall i :: 0 <= i < |items| ==> Reading(items[i], arrivals[i], read)
  }

  ghost predicate Reading(item: Item, a: Arrival, read: Reader) {
    item.key == Named(a.event.eventId) && a == read(a.event.eventId, item.row.body)
  }

  function NamedKeys(ids: set<EventId>): set<Key> {
    set id | id in ids :: Named(id)
  }

  /** The protocol's table and seen set hold what the batch loop's do. */
  ghost predicate SameRows(rows: map<Key, Row>, events: map<EventId, SecurityEvent>, read: Reader) {
    && rows.Keys == NamedKeys(events.Keys)
    && forall id :: id in events ==> events[id] == read(id, rows[Named(id)].body).event
  }

  ghost predicate Mirrors(s: State, c: Batching.Core, read: Reader) {
    s.seen == NamedKeys(c.seen) && SameRows(s.rows, c.events, read)
  }

  lemma {:induction false} RecordsInStep(log: seq<Message>, lo: nat, hi: nat, drawn: nat, read: Reader)
    requires lo <= hi <= |log| && AllKnown(log, lo, hi) && Reads(read)
    ensures InStep(ItemsOf(log, lo, hi, drawn), ArrivalsOf(log, lo, hi, read), read)
  {
    if lo < hi { RecordsInStep(log, lo, hi - 1, drawn, read); }
  }

  lemma {:induction false} UnseenInStep(items: seq<Item>, arrivals: seq<Arrival>, seen: set<EventId>, read: Reader)
    requires InStep(items, arrivals, read)
    ensures InStep(Unseen(items, NamedKeys(seen)), Batching.FreshOf(seen, arrivals), read)
  {
    if items != [] {
      var k := |items| - 1;
      assert Reading(items[k], arrivals[k], read);
      UnseenInStep(items[..k], arrivals[..k], seen, read);
      assert items[k].key in NamedKeys(seen) <==> arrivals[k].event.eventId in seen;
    }
  }

  lemma {:induction false} KeysInStep(items: seq<Item>, arrivals: seq<Arrival>, read: Reader)
    requires InStep(items, arrivals, read)
    ensures KeysOf(items) == NamedKeys(Batching.IdsOf(arrivals))
  {
    forall k | k in KeysOf(items) ensures k in NamedKeys(Batching.IdsOf(arrivals)) {
      var i :| 0 <= i < |items| && items[i].key == k;
      assert Reading(items[i], arrivals[i], read) && arrivals[i] in arrivals;
    }
    forall k | k in NamedKeys(Batching.IdsOf(arrivals)) ensures k in KeysOf(items) {
      var a :| a in arrivals && Named(a.event.eventId) == k;
      var i :| 0 <= i < |arrivals| && arrivals[i] == a;
      assert Reading(items[i], arrivals[i], read) && items[i] in items;
    }
  }

  lemma {:induction false} InsertInStep(rows: map<Key, Row>, events: map<EventId, SecurityEvent>, items: seq<Item>,
                                        arrivals: seq<Arrival>, read: Reader)
    requires InStep(items, arrivals, read) && SameRows(rows, events, read)
    ensures SameRows(Delivery.Insert(rows, items), Batching.InsertRows(events, arrivals), read)
  {
    if items != [] {
      var k := |items| - 1;
      InsertInStep(rows, events, items[..k], arrivals[..k], read);
      assert Reading(items[k], arrivals[k], read);
      OneRow(Delivery.Insert(rows, items[..k]), Batching.InsertRows(events, arrivals[..k]), items[k], arrivals[k], read);
    }
  }

  lemma {:induction false} OneRow(rows: map<Key, Row>, events: map<EventId, SecurityEvent>, item: Item, a: Arrival, read: Reader)
    requires SameRows(rows, events, read) && Reading(item, a, read)
    ensures SameRows(if item.key in rows then rows else rows[item.key := item.row], Batching.InsertRow(events, a.event), read)
  {
    var id := a.event.eventId;
    assert item.key in rows <==> id in events;
    assert NamedKeys(events.Keys + {id}) == NamedKeys(events.Keys) + {Named(id)};
  }

  /** The state after a clean turn over the records lo to hi, whatever steps applied. */
  ghost predicate CleanlyRead(s: State, t: State, hi: nat)
    requires s.position <= hi <= |s.log|
  {
    var unseen := Unseen(ItemsOf(s.log, s.position, hi, s.drawn), s.seen);
    (t.phase, t.position, t.log, t.seen, t.rows, InLog(t)) ==
    (Idle, hi, s.log, s.seen + KeysOf(unseen), Delivery.Insert(s.rows, unseen), true)
  }

  lemma {:induction false} NothingToStore(s: State)
    ensures Delivery.Insert(s.rows, []) == s.rows && s.seen + KeysOf([]) == s.seen
  {
  }

  lemma {:induction false} GarbageHasNoItems(log: seq<Message>, lo: nat, hi: nat, drawn: nat)
    requires lo <= hi <= |log| && OnlyGarbage(log, lo, hi)
    ensures ItemsOf(log, lo, hi, drawn) == []
  {
    if lo < hi { GarbageHasNoItems(log, lo, hi - 1, drawn); }
  }

  lemma {:induction false} CleanTurn(s: State, max: nat)
    requires InLog(s) && s.phase.Idle?
    ensures CleanlyRead(s, Turned(s, max, CLEAN), ReadUpTo(s, max))
  {
    if OnlyGarbage(s.log, s.position, ReadUpTo(s, max)) {
      GarbageTurn(s, max);
    } else {
      FetchedTurn(s, max);
    }
  }

  lemma {:induction false} GarbageTurn(s: State, max: nat)
    requires InLog(s) && s.phase.Idle? && OnlyGarbage(s.log, s.position, ReadUpTo(s, max))
    ensures CleanlyRead(s, Turned(s, max, CLEAN), ReadUpTo(s, max))
  {
    NothingToStore(s);
    GarbageHasNoItems(s.log, s.position, ReadUpTo(s, max), s.drawn);
    IdleTurn(s, max, CLEAN);
  }

  lemma {:induction false} FetchedTurn(s: State, max: nat)
    requires InLog(s) && s.phase.Idle? && !OnlyGarbage(s.log, s.position, ReadUpTo(s, max))
    ensures CleanlyRead(s, Turned(s, max, CLEAN), ReadUpTo(s, max))
  {
    var fetched := Next(s, Fetch(max));
    assert fetched == s.(position := ReadUpTo(s, max), phase := Fetched(s.position, ReadUpTo(s, max)));
    CheckedBatch(fetched);
  }

  /** The rest of a clean turn, from a fetched batch on. */
  lemma {:induction false} CheckedBatch(s: State)
    requires InLog(s) && s.phase.Fetched?
    ensures var t := Next(Processed(s, CLEAN), Commit);
      var unseen := Unseen(ItemsOf(s.log, s.phase.lo, s.phase.hi, s.drawn), s.seen);
      && t.phase.Idle? && t.position == s.position && t.log == s.log
      && t.seen == s.seen + KeysOf(unseen) && t.rows == Delivery.Insert(s.rows, unseen)
  {
    var checked := Next(s, Check);
    NothingToStore(s);
    if checked.phase.Done? { NothingUnseen(s, CLEAN); } else { StoredAndCommitted(checked); }
  }

  lemma {:induction false} StoredAndCommitted(s: State)
    requires InLog(s) && s.phase.Checked?
    ensures var t := Next(Next(Next(Next(s, Delivery.Mark), Persist), Publish), Commit);
      && t.phase.Idle? && t.position == s.position && t.log == s.log
      && t.seen == s.seen + KeysOf(s.phase.unseen) && t.rows == Delivery.Insert(s.rows, s.phase.unseen)
  {
  }

  /** Where a poll of at most max records ends. */
  function ReadUpTo(s: State, max: nat): nat {
    if s.position + max <= |s.log| then s.position + max else |s.log|
  }

  /** A clean turn over events with ids of their own stores what the batch loop stores of that batch. */
  lemma {:induction false} CleanTurnIsBatch(setup: Setup, s: State, c: Batching.Core, max: nat, read: Reader)
    requires setup.Complete() && InLog(s) && s.phase.Idle? && Reads(read) && Mirrors(s, c, read)
    requires AllKnown(s.log, s.position, ReadUpTo(s, max))
    ensures var t, hi := Turned(s, max, CLEAN), ReadUpTo(s, max);
      && CleanlyRead(s, t, hi)
      && Mirrors(t, Batching.Batch(setup, c, ArrivalsOf(s.log, s.position, hi, read)), read)
  {
    var hi := ReadUpTo(s, max);
    var items, arrivals := ItemsOf(s.log, s.position, hi, s.drawn), ArrivalsOf(s.log, s.position, hi, read);
    CleanTurn(s, max);
    RecordsInStep(s.log, s.position, hi, s.drawn, read);
    UnseenInStep(items, arrivals, c.seen, read);
    var unseen := Batching.FreshOf(c.seen, arrivals);
    KeysInStep(Unseen(items, s.seen), unseen, read);
    InsertInStep(s.rows, c.events, Unseen(items, s.seen), unseen, read);
    Batching.AbsorbNone(setup, c);
    assert NamedKeys(c.seen + Batching.IdsOf(unseen)) == NamedKeys(c.seen) + NamedKeys(Batching.IdsOf(unseen));
  }

  // ---------------------------------------------------------------- and over every clean run

  /** Rounds without an exception, in which only events with ids of their own arrive. */
  ghost predicate CleanRounds(rounds: seq<Round>) {
    forall i :: 0 <= i < |rounds| ==>
      rounds[i].raisesAfter >= CLEAN && forall j :: 0 <= j < |rounds[i].arrivals| ==> rounds[i].arrivals[j].Known?
  }

  /** The batches that the rounds, from the first start, hand to process_batch. */
  ghost function BatchesOf(rounds: seq<Round>, read: Reader): seq<seq<Arrival>>
    requires CleanRounds(rounds)
    ensures AllKnown(TurnedAll(START, rounds).log, 0, |TurnedAll(START, rounds).log|)
  {
    if rounds == [] then []
    else
      var front, r := rounds[..|rounds| - 1], rounds[|rounds| - 1];
      var before, s := BatchesOf(front, read), Arrived(TurnedAll(START, front), r.arrivals);
      LogKept(s, r.max, r.raisesAfter);
      before + [ArrivalsOf(s.log, s.position, ReadUpTo(s, r.max), read)]
  }

  lemma {:induction false} LogKept(s: State, max: nat, raisesAfter: nat)
    requires InLog(s)
    ensures Turned(s, max, raisesAfter).log == s.log
  {
    var fetched := Next(s, Fetch(max));
    LogNext(s, Fetch(max));
    LogNext(fetched, Check);
    LogNext(Next(fetched, Check), Delivery.Mark);
    LogNext(Next(Next(fetched, Check), Delivery.Mark), Persist);
    LogNext(Next(Next(Next(fetched, Check), Delivery.Mark), Persist), Publish);
    LogNext(Processed(fetched, raisesAfter), if raisesAfter < CLEAN then Fail else Commit);
  }

  lemma {:induction false} TurnIsClean(s: State, max: nat, raisesAfter: nat)
    requires InLog(s) && raisesAfter >= CLEAN
    ensures Turned(s, max, raisesAfter) == Turned(s, max, CLEAN)
  {
  }

  lemma {:induction false} ReadOn(log: seq<Message>, lo: nat, hi: nat, read: Reader)
    requires lo <= hi <= |log| && AllKnown(log, 0, hi)
    ensures ArrivalsOf(log, 0, hi, read) == ArrivalsOf(log, 0, lo, read) + ArrivalsOf(log, lo, hi, read)
  {
    if lo < hi { ReadOn(log, lo, hi - 1, read); }
  }

  lemma {:induction false} SamePrefix(log: seq<Message>, more: seq<Message>, lo: nat, hi: nat, read: Reader)
    requires lo <= hi <= |log| && AllKnown(log, lo, hi)
    ensures AllKnown(log + more, lo, hi) && ArrivalsOf(log + more, lo, hi, read) == ArrivalsOf(log, lo, hi, read)
  {
    if lo < hi { SamePrefix(log, more, lo, hi - 1, read); }
  }

  /** From the first start, any clean run stores exactly what the batch loop stores of the same batches,
      which are, in order, the records read so far. */
  lemma {:induction false} CleanRunIsBatches(setup: Setup, rounds: seq<Round>, read: Reader)
    requires setup.Complete() && Reads(read) && CleanRounds(rounds)
    ensures var s := TurnedAll(START, rounds);
      && s.phase.Idle? && AllKnown(s.log, 0, |s.log|)
      && Mirrors(s, Batching.Batches(setup, Burst.EMPTY_CORE, BatchesOf(rounds, read)), read)
      && Batching.Flatten(BatchesOf(rounds, read)) == ArrivalsOf(s.log, 0, s.position, read)
  {
    if rounds != [] {
      var front, r := rounds[..|rounds| - 1], rounds[|rounds| - 1];
      CleanRunIsBatches(setup, front, read);
      var before := TurnedAll(START, front);
      var s, c := Arrived(before, r.arrivals), Batching.Batches(setup, Burst.EMPTY_CORE, BatchesOf(front, read));
      TurnIsClean(s, r.max, r.raisesAfter);
      LogKept(s, r.max, r.raisesAfter);
      CleanTurnIsBatch(setup, s, c, r.max, read);
      SamePrefix(before.log, r.arrivals, 0, before.position, read);
      ReadOn(s.log, s.position, ReadUpTo(s, r.max), read);
    }
  }

  /** ... so the table is that of the first occurrences among the records read. */
  lemma {:induction false} CleanRunStoresFirsts(setup: Setup, rounds: seq<Round>, read: Reader)
    requires setup.Complete() && Reads(read) && CleanRounds(rounds)
    ensures var s := TurnedAll(START, rounds);
      && AllKnown(s.log, 0, |s.log|)
      && SameRows(s.rows, Batching.InsertRows(map[], ArrivalsOf(s.log, 0, s.position, read)), read)
      && s.seen == s.rows.Keys
  {
    CleanRunIsBatches(setup, rounds, read);
    Batching.StoredRows(setup, Burst.EMPTY_CORE, BatchesOf(rounds, read));
  }

  // ---------------------------------------------------------------- what failing runs evaluate

  /** The items an action has evaluated: the whole batch before its database commit, and as many of a
      batch broken off after marking as it had got to. */
  function EvaluatedBy(s: State, a: Action, reach: nat): seq<Item> {
    if !s.phase.Marked? then []
    else if a == Persist then s.phase.unseen
    else if a == Fail || a == Restart then Text.Take(s.phase.unseen, reach)
    else []
  }

  /** Everything a run evaluates, in order; reach says how far each batch broken off had got. */
  function Evaluations(actions: seq<Action>, reach: seq<nat>): seq<Item>
    requires |reach| == |actions|
  {
    if actions == [] then []
    else
      var k := |actions| - 1;
      Evaluations(actions[..k], reach[..k]) + EvaluatedBy(Run(actions[..k]), actions[k], reach[k])
  }

  /** The items of a batch whose id is stored already, or occurs earlier in the batch. */
  function Repeats(rows: map<Key, Row>, items: seq<Item>): seq<Item> {
    if items == [] then []
    else
      var before, last := Repeats(rows, items[..|items| - 1]), items[|items| - 1];
      if last.key in Delivery.Insert(rows, items[..|items| - 1]) then before + [last] else before
  }

  /** Evaluations that add no row: of a batch broken off, and of ids stored already. */
  function WastedBy(s: State, a: Action, reach: nat): seq<Item> {
    if !s.phase.Marked? then []
    else if a == Persist then Repeats(s.rows, s.phase.unseen)
    else EvaluatedBy(s, a, reach)
  }

  function Wasted(actions: seq<Action>, reach: seq<nat>): seq<Item>
    requires |reach| == |actions|
  {
    if actions == [] then []
    else
      var k := |actions| - 1;
      Wasted(actions[..k], reach[..k]) + WastedBy(Run(actions[..k]), actions[k], reach[k])
  }

  function Count(items: seq<Item>, which: Row -> bool): nat {
    if items == [] then 0
    else Count(items[..|items| - 1], which) + if which(items[|items| - 1].row) then 1 else 0
  }

  function StoredKeys(rows: map<Key, Row>, which: Row -> bool): set<Key> {
    set k | k in rows && which(rows[k]) :: k
  }

  lemma {:induction false} CountConcat(xs: seq<Item>, ys: seq<Item>, which: Row -> bool)
    ensures Count(xs + ys, which) == Count(xs, which) + Count(ys, which)
  {
    if ys == [] {
      assert xs + ys == xs;
    } else {
      assert (xs + ys)[..|xs + ys| - 1] == xs + ys[..|ys| - 1];
      CountConcat(xs, ys[..|ys| - 1], which);
    }
  }

  lemma {:induction false} IsStoredKey(rows: map<Key, Row>, which: Row -> bool, k: Key)
    ensures k in StoredKeys(rows, which) <==> k in rows && which(rows[k])
  {
  }

  lemma {:induction false} OneStored(rows: map<Key, Row>, item: Item, which: Row -> bool)
    requires item.key !in rows
    ensures |StoredKeys(rows[item.key := item.row], which)| ==
      |StoredKeys(rows, which)| + if which(item.row) then 1 else 0
  {
    var rows', kept := rows[item.key := item.row], StoredKeys(rows, which);
    var added := if which(item.row) then {item.key} else {};
    forall k ensures k in StoredKeys(rows', which) <==> k in kept + added {
      IsStoredKey(rows, which, k);
      IsStoredKey(rows', which, k);
    }
    assert StoredKeys(rows', which) == kept + added;
    assert kept !! added;
  }

  /** Every item of a batch that is stored adds a row or is a repeat. */
  lemma {:induction false} InsertCounts(rows: map<Key, Row>, items: seq<Item>, which: Row -> bool)
    ensures |StoredKeys(rows, which)| + Count(items, which) ==
      |StoredKeys(Delivery.Insert(rows, items), which)| + Count(Repeats(rows, items), which)
  {
    if items != [] {
      var front, last := items[..|items| - 1], items[|items| - 1];
      InsertCounts(rows, front, which);
      if last.key in Delivery.Insert(rows, front) {
        CountConcat(Repeats(rows, front), [last], which);
        CountOne(last, which);
      } else {
        OneStored(Delivery.Insert(rows, front), last, which);
      }
    }
  }

  lemma {:induction false} CountOne(item: Item, which: Row -> bool)
    ensures Count([item], which) == if which(item.row) then 1 else 0
  {
    assert [item][..0] == [];
  }

  lemma {:induction false} StepCounts(s: State, a: Action, reach: nat, which: Row -> bool)
    requires InLog(s)
    ensures |StoredKeys(s.rows, which)| + Count(EvaluatedBy(s, a, reach), which) ==
      |StoredKeys(Next(s, a).rows, which)| + Count(WastedBy(s, a, reach), which)
  {
    if s.phase.Marked? && a == Persist {
      InsertCounts(s.rows, s.phase.unseen, which);
    } else {
      RowsOnlyByPersist(s, a);
    }
  }

  /** Over every run, whatever fails: of the events of any kind, those evaluated are those stored and
      those wasted, counted with their repetitions. */
  lemma {:induction false} EvaluatedIsStoredAndWasted(actions: seq<Action>, reach: seq<nat>, which: Row -> bool)
    requires |reach| == |actions|
    ensures Count(Evaluations(actions, reach), which) ==
      |StoredKeys(Run(actions).rows, which)| + Count(Wasted(actions, reach), which)
  {
    if actions == [] {
      assert StoredKeys(Run(actions).rows, which) == {};
    } else {
      var k := |actions| - 1;
      var s := Run(actions[..k]);
      EvaluatedIsStoredAndWasted(actions[..k], reach[..k], which);
      StepCounts(s, actions[k], reach[k], which);
      CountConcat(Evaluations(actions[..k], reach[..k]), EvaluatedBy(s, actions[k], reach[k]), which);
      CountConcat(Wasted(actions[..k], reach[..k]), WastedBy(s, actions[k], reach[k]), which);
    }
  }

  /** Action n evaluated this item to no effect: it broke off the batch, or the id was stored already. */
  ghost predicate Wastes(actions: seq<Action>, reach: seq<nat>, n: nat, item: Item)
    requires |reach| == |actions| && n < |actions|
  {
    item in WastedBy(Run(actions[..n]), actions[n], reach[n])
  }

  lemma {:induction false} CountZero(items: seq<Item>, which: Row -> bool)
    ensures Count(items, which) == 0 <==> forall i :: i in items ==> !which(i.row)
  {
    if items != [] {
      CountZero(items[..|items| - 1], which);
      assert items == items[..|items| - 1] + [items[|items| - 1]];
    }
  }

  lemma {:induction false} WastesBefore(actions: seq<Action>, reach: seq<nat>, k: nat, n: nat, item: Item)
    requires |reach| == |actions| && n < k <= |actions|
    ensures Wastes(actions[..k], reach[..k], n, item) <==> Wastes(actions, reach, n, item)
  {
    assert actions[..k][..n] == actions[..n];
  }

  lemma {:induction false} WastedMeans(actions: seq<Action>, reach: seq<nat>, item: Item)
    requires |reach| == |actions|
    ensures item in Wasted(actions, reach) <==> exists n :: 0 <= n < |actions| && Wastes(actions, reach, n, item)
  {
    if actions != [] {
      var k := |actions| - 1;
      WastedMeans(actions[..k], reach[..k], item);
      forall n | 0 <= n < k ensures Wastes(actions[..k], reach[..k], n, item) <==> Wastes(actions, reach, n, item) {
        WastesBefore(actions, reach, k, n, item);
      }
      LastWastes(actions, reach, item);
    }
  }

  lemma {:induction false} LastWastes(actions: seq<Action>, reach: seq<nat>, item: Item)
    requires |reach| == |actions| > 0
    ensures var k := |actions| - 1;
      item in Wasted(actions, reach) <==> item in Wasted(actions[..k], reach[..k]) || Wastes(actions, reach, k, item)
  {
  }

  /** More are evaluated than stored exactly when some action of the run wasted one. */
  lemma {:induction false} ExcessIff(actions: seq<Action>, reach: seq<nat>, which: Row -> bool)
    requires |reach| == |actions|
    ensures Count(Evaluations(actions, reach), which) >= |StoredKeys(Run(actions).rows, which)|
    ensures Count(Evaluations(actions, reach), which) > |StoredKeys(Run(actions).rows, which)| <==>
      exists n, item :: 0 <= n < |actions| && Wastes(actions, reach, n, item) && which(item.row)
  {
    EvaluatedIsStoredAndWasted(actions, reach, which);
    CountZero(Wasted(actions, reach), which);
    if i :| i in Wasted(actions, reach) && which(i.row) {
      WastedMeans(actions, reach, i);
      var n :| 0 <= n < |actions| && Wastes(actions, reach, n, i);
    } else if n, i :| 0 <= n < |actions| && Wastes(actions, reach, n, i) && which(i.row) {
      WastedMeans(actions, reach, i);
    }
  }

  // ---------------------------------------------------------------- and what RULE-001 makes of it

  /** What an item is as an event, and the clocks at which a run evaluates its items. */
  function ArrivalsFrom(items: seq<Item>, event: Row -> SecurityEvent, walls: seq<int>): (r: seq<Arrival>)
    requires |walls| == |items|
    ensures |r| == |items|
  {
    if items == [] then []
    else
      var k := |items| - 1;
      ArrivalsFrom(items[..k], event, walls[..k]) + [Arrival(event(items[k].row), walls[k])]
  }

  /** The failed logins from an address stamped later than `after`. */
  predicate IsFailure(e: SecurityEvent, ip: string, after: int) {
    e.eventType == AuthFailure && e.sourceIp == Text.Some(ip) && e.timestamp > after
  }

  lemma {:induction false} FailuresAreCounted(items: seq<Item>, event: Row -> SecurityEvent, walls: seq<int>, ip: string, after: int)
    requires |walls| == |items|
    ensures Firing.FailuresSince(ArrivalsFrom(items, event, walls), ip, after) ==
      Count(items, row => IsFailure(event(row), ip, after))
  {
    if items != [] {
      var k := |items| - 1;
      FailuresAreCounted(items[..k], event, walls[..k], ip, after);
    }
  }

  /** RULE-001 over a failing run: it fires on the last event evaluated exactly when the address's
      failures stored in the window, together with those evaluated to no effect, reach the threshold. */
  lemma {:induction false} FiringOverFailures(setup: Setup, actions: seq<Action>, reach: seq<nat>, event: Row -> SecurityEvent,
                                              walls: seq<int>, hist: seq<Arrival>, ip: string, after: int)
    requires setup.Complete() && |reach| == |actions| && |walls| == |Evaluations(actions, reach)|
    requires hist == ArrivalsFrom(Evaluations(actions, reach), event, walls) && hist != []
    requires Runs(setup, BruteForce, hist[|hist| - 1].event) && Firing.Orderly(setup, hist, BruteForce)
    requires ip == hist[|hist| - 1].event.sourceIp.value && after == Firing.WindowStart(setup, hist, BruteForce)
    ensures var failure := row => IsFailure(event(row), ip, after);
      Firing.Fired(setup, hist, BruteForce) <==>
      |StoredKeys(Run(actions).rows, failure)| + Count(Wasted(actions, reach), failure) >= setup.params[BruteForce].threshold
  {
    var failure := row => IsFailure(event(row), ip, after);
    Firing.BruteForceFires(setup, hist);
    FailuresAreCounted(Evaluations(actions, reach), event, walls, ip, after);
    EvaluatedIsStoredAndWasted(actions, reach, failure);
  }

  // ---------------------------------------------------------------- every firing of a failing run

  /** Every evaluation of a run is the r-th of the batch that some action n finds marked. */
  lemma {:induction false} EveryEvaluation(actions: seq<Action>, reach: seq<nat>, k: nat) returns (n: nat, r: nat)
    requires |reach| == |actions| && 0 < k <= |Evaluations(actions, reach)|
    ensures n < |actions| && Run(actions[..n]).phase.Marked? && 0 < r <= |Run(actions[..n]).phase.unseen|
    ensures Evaluations(actions, reach)[..k] == Evaluations(actions[..n], reach[..n]) + Run(actions[..n]).phase.unseen[..r]
  {
    var last := |actions| - 1;
    var before := Evaluations(actions[..last], reach[..last]);
    if k <= |before| {
      n, r := EveryEvaluation(actions[..last], reach[..last], k);
      assert actions[..last][..n] == actions[..n] && reach[..last][..n] == reach[..n];
      assert Evaluations(actions, reach)[..k] == before[..k];
    } else {
      n, r := last, k - |before|;
      var unseen, items := Run(actions[..n]).phase.unseen, EvaluatedBy(Run(actions[..n]), actions[n], reach[n]);
      assert items[..r] == unseen[..r];
      assert (before + items)[..k] == before + items[..r];
    }
  }

  /** RULE-001 at any evaluation of a failing run, the r-th of the batch in hand: it fires exactly when the
      address's failures in the window, those stored, those evaluated to no effect and those of the
      batch so far, reach the threshold. */
  lemma {:induction false} FiringInBatch(setup: Setup, actions: seq<Action>, reach: seq<nat>, r: nat, event: Row -> SecurityEvent,
                                         walls: seq<int>, hist: seq<Arrival>, ip: string, after: int)
    requires setup.Complete() && |reach| == |actions|
    requires Run(actions).phase.Marked? && 0 < r <= |Run(actions).phase.unseen|
    requires |walls| == |Evaluations(actions, reach)| + r
    requires hist == ArrivalsFrom(Evaluations(actions, reach) + Run(actions).phase.unseen[..r], event, walls)
    requires Runs(setup, BruteForce, hist[|hist| - 1].event) && Firing.Orderly(setup, hist, BruteForce)
    requires ip == hist[|hist| - 1].event.sourceIp.value && after == Firing.WindowStart(setup, hist, BruteForce)
    ensures var failure := row => IsFailure(event(row), ip, after);
      Firing.Fired(setup, hist, BruteForce) <==>
      |StoredKeys(Run(actions).rows, failure)| + Count(Wasted(actions, reach), failure) +
      Count(Run(actions).phase.unseen[..r], failure) >= setup.params[BruteForce].threshold
  {
    var failure := row => IsFailure(event(row), ip, after);
    var before, batch := Evaluations(actions, reach), Run(actions).phase.unseen[..r];
    Firing.BruteForceFires(setup, hist);
    FailuresAreCounted(before + batch, event, walls, ip, after);
    CountConcat(before, batch, failure);
    EvaluatedIsStoredAndWasted(actions, reach, failure);
  }

  // ---------------------------------------------------------------- the alerts of a failing run

  lemma {:induction false} ArrivalsConcat(xs: seq<Item>, ys: seq<Item>, event: Row -> SecurityEvent, walls: seq<int>)
    requires |walls| == |xs| + |ys|
    ensures ArrivalsFrom(xs + ys, event, walls) ==
      ArrivalsFrom(xs, event, walls[..|xs|]) + ArrivalsFrom(ys, event, walls[|xs|..])
  {
    if ys == [] {
      assert xs + ys == xs && walls[..|xs|] == walls;
    } else {
      var k := |ys| - 1;
      assert (xs + ys)[..|xs| + k] == xs + ys[..k];
      assert walls[..|xs| + k][..|xs|] == walls[..|xs|] && walls[..|xs| + k][|xs|..] == walls[|xs|..][..k];
      ArrivalsConcat(xs, ys[..k], event, walls[..|xs| + k]);
    }
  }

  /** The windows and alerts of a run: every evaluation moves the windows; what a batch detects reaches
      the alerts with its database commit, and is lost when the batch is broken off. */
  function DeskAfter(setup: Setup, actions: seq<Action>, reach: seq<nat>, event: Row -> SecurityEvent, walls: seq<int>): Batching.Desk
    requires setup.Complete() && |reach| == |actions| && |walls| == |Evaluations(actions, reach)|
  {
    if actions == [] then Batching.Desk(Firing.START, Alerts.NO_ALERTS)
    else
      var k := |actions| - 1;
      var s, done := Run(actions[..k]), |Evaluations(actions[..k], reach[..k])|;
      var before := DeskAfter(setup, actions[..k], reach[..k], event, walls[..done]);
      var out := RunStream(setup, before.store, ArrivalsFrom(EvaluatedBy(s, actions[k], reach[k]), event, walls[done..]));
      Batching.Desk(out.store,
        if s.phase.Marked? && actions[k] == Persist then Batching.CorrelateAll(before.table, out.detections) else before.table)
  }

  lemma {:induction false} DeskBounded(setup: Setup, actions: seq<Action>, reach: seq<nat>, event: Row -> SecurityEvent, walls: seq<int>)
    requires setup.Complete() && |reach| == |actions| && |walls| == |Evaluations(actions, reach)|
    ensures var hist, desk := ArrivalsFrom(Evaluations(actions, reach), event, walls), DeskAfter(setup, actions, reach, event, walls);
      desk.store == RunStream(setup, Firing.START, hist).store && Burst.CountsBounded(desk.table.rows, hist)
  {
    if actions != [] {
      var k := |actions| - 1;
      var s, past := Run(actions[..k]), Evaluations(actions[..k], reach[..k]);
      var items := EvaluatedBy(s, actions[k], reach[k]);
      DeskBounded(setup, actions[..k], reach[..k], event, walls[..|past|]);
      ArrivalsConcat(past, items, event, walls);
      var hist, more := ArrivalsFrom(past, event, walls[..|past|]), ArrivalsFrom(items, event, walls[|past|..]);
      var before := DeskAfter(setup, actions[..k], reach[..k], event, walls[..|past|]);
      RunStreamConcat(setup, Firing.START, hist, more);
      if s.phase.Marked? && actions[k] == Persist {
        Batching.EvaluateThenCorrelate(setup, before, more);
        Burst.BatchBounded(setup, hist, more, before);
      } else {
        Burst.StillBounded(before.table.rows, hist, more);
      }
    }
  }

  lemma {:induction false} LoginsAreCounted(items: seq<Item>, event: Row -> SecurityEvent, walls: seq<int>, ip: string)
    requires |walls| == |items|
    ensures Burst.LoginsFrom(ArrivalsFrom(items, event, walls), ip) == Count(items, row => Burst.Ours(event(row), ip))
  {
    if items != [] {
      var k := |items| - 1;
      LoginsAreCounted(items[..k], event, walls[..k], ip);
    }
  }

  /** Over every run, whatever fails, a RULE-001 alert counts at most the address's logins stored and
      those evaluated to no effect. */
  lemma {:induction false} AlertCountsOverFailures(setup: Setup, actions: seq<Action>, reach: seq<nat>, event: Row -> SecurityEvent,
                                                   walls: seq<int>, j: nat, ip: string)
    requires setup.Complete() && |reach| == |actions| && |walls| == |Evaluations(actions, reach)|
    requires var rows := DeskAfter(setup, actions, reach, event, walls).table.rows; j < |rows| && Burst.About(rows[j], ip)
    ensures var login := row => Burst.Ours(event(row), ip);
      DeskAfter(setup, actions, reach, event, walls).table.rows[j].eventCount <=
      |StoredKeys(Run(actions).rows, login)| + Count(Wasted(actions, reach), login)
  {
    DeskBounded(setup, actions, reach, event, walls);
    LoginsAreCounted(Evaluations(actions, reach), event, walls, ip);
    EvaluatedIsStoredAndWasted(actions, reach, row => Burst.Ours(event(row), ip));
  }
}
