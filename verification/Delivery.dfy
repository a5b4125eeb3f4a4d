/** Delivery: from the broker's log through the seen-id set to the event table, with every failure the
    worker survives (backend/app/worker.py, backend/app/streaming/kafka.py, backend/app/streaming/pipeline.py). */
module Delivery {
  import opened Text

  /** A record in the log: not JSON, refused by validation, an event with an id of its own, or an
      event without one. */
  datatype Message = Garbage | Refused | Known(id: nat, body: int) | Nameless(body: int)

  /** The id an event is stored under; an event without one draws a new id each time it is processed. */
  datatype Key = Named(id: nat) | Drawn(n: nat)

  datatype Row = Row(offset: nat, body: int)

  datatype Item = Item(key: Key, row: Row)

  /** Where the batch in hand, the records lo to hi, has got to. */
  datatype Phase =
    | Idle
    | Fetched(lo: nat, hi: nat)
    | Checked(lo: nat, hi: nat, unseen: seq<Item>)
    | Marked(lo: nat, hi: nat, unseen: seq<Item>)
    | Persisted(lo: nat, hi: nat)
    | Done(lo: nat, hi: nat)

  /** The records lo to hi of a batch. */
  datatype Range = Range(lo: nat, hi: nat)

  /** The broker's log and committed offset, the consumer's position, the seen-id set, the event table;
      and, for the record, the batches that failed before their database commit, the ids a batch marked
      and never stored, the records filtered as seen though not stored, and how far starts without a
      committed offset skipped ahead. */
  datatype State = State(
    log: seq<Message>, committed: Option<nat>, position: nat,
    seen: set<Key>, rows: map<Key, Row>, drawn: nat, phase: Phase,
    failed: seq<Range>, orphans: set<Key>, shadowed: set<nat>, skipped: nat)

  const START: State := State([], None, 0, {}, map[], 0, Idle, [], {}, {}, 0)

  datatype Action =
    | Produce(m: Message)
    | Fetch(max: nat)      // getmany; a batch of nothing but garbage is not handed on
    | Check                // validation and SISMEMBER
    | Mark                 // SADD
    | Persist              // detection and the database commit
    | Publish              // publishing and metrics
    | Commit               // the broker commits the position
    | Fail                 // an exception, caught by the worker, which carries on
    | Restart              // crash and restart from the committed offset, or from the end without one
    | Expire               // the seen-id set expires

  /** The valid events among records lo to hi; each nameless one takes the next drawn id. */
  function ItemsOf(log: seq<Message>, lo: nat, hi: nat, drawn: nat): seq<Item>
    requires lo <= hi <= |log|
  {
    if lo == hi then []
    else
      var before := ItemsOf(log, lo, hi - 1, drawn);
      match log[hi - 1]
      case Known(id, body) => before + [Item(Named(id), Row(hi - 1, body))]
      case Nameless(body) => before + [Item(Drawn(drawn + hi - 1 - lo), Row(hi - 1, body))]
      case _ => before
  }

  function Unseen(items: seq<Item>, seen: set<Key>): seq<Item> {
    if items == [] then []
    else
      var before, last := Unseen(items[..|items| - 1], seen), items[|items| - 1];
      if last.key in seen then before else before + [last]
  }

  function KeysOf(items: seq<Item>): set<Key> {
    set i | i in items :: i.key
  }

  /** INSERT ... ON CONFLICT DO NOTHING */
  function Insert(rows: map<Key, Row>, items: seq<Item>): map<Key, Row> {
    if items == [] then rows
    else
      var before, last := Insert(rows, items[..|items| - 1]), items[|items| - 1];
      if last.key in before then before else before[last.key := last.row]
  }

  /** Known records in lo..hi whose id is filtered as seen but not stored. */
  function Shadowed(s: State, lo: nat, hi: nat): set<nat>
    requires lo <= hi <= |s.log|
  {
    set o: nat | lo <= o < hi && s.log[o].Known? && Named(s.log[o].id) in s.seen && Named(s.log[o].id) !in s.rows
  }

  predicate OnlyGarbage(log: seq<Message>, lo: nat, hi: nat)
    requires lo <= hi <= |log|
  {
    forall o :: lo <= o < hi ==> log[o].Garbage?
  }

  /** Positions stay inside the log. */
  predicate InLog(s: State) {
    && s.position <= |s.log|
    && (s.committed.Some? ==> s.committed.value <= s.position)
    && (!s.phase.Idle? ==> s.phase.lo <= s.phase.hi == s.position)
    && (s.committed.Some? && !s.phase.Idle? ==> s.committed.value <= s.phase.lo)
  }

  /** An action that does not apply in the current phase does nothing. */
  function Next(s: State, a: Action): (r: State)
    requires InLog(s)
    ensures InLog(r)
  {
    match a
    case Produce(m) => s.(log := s.log + [m])
    case Fetch(max) =>
      if !s.phase.Idle? then s
      else
        var hi := if s.position + max <= |s.log| then s.position + max else |s.log|;
        if OnlyGarbage(s.log, s.position, hi) then s.(position := hi)
        else s.(position := hi, phase := Fetched(s.position, hi))
    case Check =>
      if !s.phase.Fetched? then s
      else
        var lo, hi := s.phase.lo, s.phase.hi;
        var unseen := Unseen(ItemsOf(s.log, lo, hi, s.drawn), s.seen);
        s.(drawn := s.drawn + (hi - lo),
           shadowed := s.shadowed + Shadowed(s, lo, hi),
           phase := if unseen == [] then Done(lo, hi) else Checked(lo, hi, unseen))
    case Mark =>
      if !s.phase.Checked? then s
      else s.(seen := s.seen + KeysOf(s.phase.unseen), phase := Marked(s.phase.lo, s.phase.hi, s.phase.unseen))
    case Persist =>
      if !s.phase.Marked? then s
      else s.(rows := Insert(s.rows, s.phase.unseen), phase := Persisted(s.phase.lo, s.phase.hi))
    case Publish =>
      if !s.phase.Persisted? then s else s.(phase := Done(s.phase.lo, s.phase.hi))
    case Commit =>
      if !s.phase.Done? then s else s.(committed := Some(s.position), phase := Idle)
    case Fail =>
      if s.phase.Idle? then s
      else s.(phase := Idle,
              failed := if BeforeCommit(s.phase) then s.failed + [Range(s.phase.lo, s.phase.hi)] else s.failed,
              orphans := Orphaned(s))
    case Restart =>
      s.(phase := Idle, orphans := Orphaned(s),
         position := if s.committed.Some? then s.committed.value else |s.log|,
         skipped := if s.committed.Some? then s.skipped else |s.log|)
    case Expire => s.(seen := {})
  }

  /** The database transaction of the batch in hand has not committed. */
  predicate BeforeCommit(p: Phase) {
    p.Fetched? || p.Checked? || p.Marked?
  }

  function Orphaned(s: State): set<Key> {
    if s.phase.Marked? then s.orphans + KeysOf(s.phase.unseen) else s.orphans
  }

  /** A run of the system from its first start, on an empty log. */
  function Run(actions: seq<Action>): (s: State)
    ensures InLog(s)
  {
    if actions == [] then START else Next(Run(actions[..|actions| - 1]), actions[|actions| - 1])
  }

  // ---------------------------------------------------------------- what is accounted for

  /** Up to where every record has been dealt with. */
  function Frontier(s: State): nat
    requires InLog(s)
  {
    if BeforeCommit(s.phase) then s.phase.lo else s.position
  }

  /** Up to where every record has been looked at. */
  function Reached(s: State): nat
    requires InLog(s)
  {
    if s.phase.Fetched? then s.phase.lo else s.position
  }

  ghost predicate InFailed(s: State, o: nat) {
    exists i :: 0 <= i < |s.failed| && s.failed[i].lo <= o < s.failed[i].hi
  }

  predicate Stored(s: State, o: nat)
    requires o < |s.log| && s.log[o].Known?
  {
    Named(s.log[o].id) in s.rows
  }

  /** An event with its own id is stored, or one of the escapes applies: its batch failed before the
      database commit and the worker carried on; or it was filtered as seen while not stored, its id
      having been marked by a batch that never stored it; or a start without a committed offset
      skipped it. */
  ghost predicate Settled(s: State, o: nat)
    requires o < |s.log| && s.log[o].Known?
  {
    || Stored(s, o)
    || InFailed(s, o)
    || (o in s.shadowed && Named(s.log[o].id) in s.orphans)
    || o < s.skipped
  }

  /** The item of a known record is among those the batch will store. */
  ghost predicate Pending(s: State, o: nat)
    requires o < |s.log| && s.log[o].Known?
  {
    (s.phase.Checked? || s.phase.Marked?) && Named(s.log[o].id) in KeysOf(s.phase.unseen)
  }

  ghost predicate Inv(s: State) {
    && InLog(s)
    && (forall o :: 0 <= o < Reached(s) && s.log[o].Known? ==> Settled(s, o) || (Frontier(s) <= o && Pending(s, o)))
    && (forall k :: k in s.seen ==>
          k in s.rows || k in s.orphans || (s.phase.Marked? && k in KeysOf(s.phase.unseen)))
    && (forall k, r :: Holds(s, k, r) ==> FromLog(s, k, r))
  }

  /** The row is stored under this id, or is going to be. */
  predicate Holds(s: State, k: Key, r: Row) {
    || (k in s.rows && s.rows[k] == r)
    || ((s.phase.Checked? || s.phase.Marked?) && Item(k, r) in s.phase.unseen)
  }

  /** A row holds the body of a record in the log, and its own id if it has one. */
  ghost predicate FromLog(s: State, k: Key, r: Row) {
    && r.offset < |s.log|
    && match k
       case Named(id) => s.log[r.offset] == Known(id, r.body)
       case Drawn(_) => s.log[r.offset] == Nameless(r.body)
  }

  // ---------------------------------------------------------------- every step keeps the account

  lemma {:induction false} UnseenKeys(items: seq<Item>, seen: set<Key>)
    ensures forall i :: i in Unseen(items, seen) <==> i in items && i.key !in seen
  {
    if items != [] {
      UnseenKeys(items[..|items| - 1], seen);
      assert items == items[..|items| - 1] + [items[|items| - 1]];
    }
  }

  lemma {:induction false} ItemsCover(log: seq<Message>, lo: nat, hi: nat, drawn: nat)
    requires lo <= hi <= |log|
    ensures forall o :: lo <= o < hi && log[o].Known? ==>
      Item(Named(log[o].id), Row(o, log[o].body)) in ItemsOf(log, lo, hi, drawn)
    ensures forall i :: i in ItemsOf(log, lo, hi, drawn) ==>
      (lo <= i.row.offset < hi
       && match i.key
          case Named(id) => log[i.row.offset] == Known(id, i.row.body)
          case Drawn(n) => log[i.row.offset] == Nameless(i.row.body) && n == drawn + i.row.offset - lo)
  {
    if lo < hi { ItemsCover(log, lo, hi - 1, drawn); }
  }

  lemma {:induction false} InsertKeys(rows: map<Key, Row>, items: seq<Item>)
    ensures forall k :: k in Insert(rows, items) <==> k in rows || k in KeysOf(items)
    ensures forall k :: k in Insert(rows, items) ==>
      if k in rows then Insert(rows, items)[k] == rows[k] else Item(k, Insert(rows, items)[k]) in items
  {
    if items != [] {
      var front, last := items[..|items| - 1], items[|items| - 1];
      InsertKeys(rows, front);
      assert items == front + [last];
      assert KeysOf(items) == KeysOf(front) + {last.key};
    }
  }

  lemma {:induction false} CheckInv(s: State)
    requires Inv(s)
    ensures Inv(Next(s, Check))
  {
    if s.phase.Fetched? {
      var lo, hi, t := s.phase.lo, s.phase.hi, Next(s, Check);
      var items := ItemsOf(s.log, lo, hi, s.drawn);
      var unseen := Unseen(items, s.seen);
      ItemsCover(s.log, lo, hi, s.drawn);
      UnseenKeys(items, s.seen);
      forall o | lo <= o < hi && s.log[o].Known? ensures Settled(t, o) || Named(s.log[o].id) in KeysOf(unseen) {
        var item := Item(Named(s.log[o].id), Row(o, s.log[o].body));
        if item.key !in s.seen {
          assert item in unseen;
        } else if item.key !in s.rows {
          assert o in Shadowed(s, lo, hi);
        }
      }
      forall o | 0 <= o < lo && s.log[o].Known? ensures Settled(t, o) {
        assert Settled(s, o) && InFailed(s, o) ==> InFailed(t, o);
      }
      assert unseen == [] ==> KeysOf(unseen) == {};
      forall k, r | Holds(t, k, r) ensures FromLog(t, k, r) {
        if k in s.rows && s.rows[k] == r { assert Holds(s, k, r); } else { assert Item(k, r) in items; }
      }
    }
  }

  lemma {:induction false} PersistInv(s: State)
    requires Inv(s)
    ensures Inv(Next(s, Persist))
  {
    if s.phase.Marked? {
      var t := Next(s, Persist);
      InsertKeys(s.rows, s.phase.unseen);
      forall o | 0 <= o < Frontier(t) && t.log[o].Known? ensures Settled(t, o) {
        assert InFailed(s, o) ==> InFailed(t, o);
        if o < s.phase.lo { assert Settled(s, o); }
      }
      forall k, r | Holds(t, k, r) ensures FromLog(t, k, r) {
        assert k in s.rows || Item(k, r) in s.phase.unseen;
        assert Holds(s, k, r);
      }
    }
  }

  lemma {:induction false} FailInv(s: State)
    requires Inv(s)
    ensures Inv(Next(s, Fail))
  {
    var t := Next(s, Fail);
    if !s.phase.Idle? {
      forall o | 0 <= o < Frontier(t) && t.log[o].Known? ensures Settled(t, o) {
        if BeforeCommit(s.phase) && s.phase.lo <= o {
          assert t.failed[|s.failed|].lo <= o < t.failed[|s.failed|].hi;
        } else {
          assert Settled(s, o);
          if InFailed(s, o) {
            var i :| 0 <= i < |s.failed| && s.failed[i].lo <= o < s.failed[i].hi;
            assert t.failed[i] == s.failed[i];
          }
        }
      }
      forall k, r | Holds(t, k, r) ensures FromLog(t, k, r) { assert Holds(s, k, r); }
    }
  }

  lemma {:induction false} RestartInv(s: State)
    requires Inv(s)
    ensures Inv(Next(s, Restart))
  {
    var t := Next(s, Restart);
    forall o | 0 <= o < Frontier(t) && t.log[o].Known? ensures Settled(t, o) {
      if s.committed.Some? {
        assert o < Frontier(s) && Settled(s, o);
        assert InFailed(s, o) ==> InFailed(t, o);
      }
    }
    forall k, r | Holds(t, k, r) ensures FromLog(t, k, r) { assert Holds(s, k, r); }
  }

  /** Steps that store nothing, drop nothing and only move on. */
  lemma {:induction false} PlainInv(s: State, a: Action)
    requires Inv(s) && !a.Check? && !a.Persist? && !a.Fail? && !a.Restart?
    ensures Inv(Next(s, a))
  {
    var t := Next(s, a);
    assert |s.log| <= |t.log| && forall o :: 0 <= o < |s.log| ==> t.log[o] == s.log[o];
    forall o | 0 <= o < |s.log| && s.log[o].Known? && Settled(s, o) ensures Settled(t, o) {
      assert InFailed(s, o) ==> InFailed(t, o);
    }
    forall k, r | FromLog(s, k, r) ensures FromLog(t, k, r) {
    }
    assert a.Fetch? && s.phase.Idle? ==> forall o :: s.position <= o < Frontier(t) ==> !t.log[o].Known?;
  }

  lemma {:induction false} NextInv(s: State, a: Action)
    requires Inv(s)
    ensures Inv(Next(s, a))
  {
    match a
    case Check => CheckInv(s);
    case Persist => PersistInv(s);
    case Fail => FailInv(s);
    case Restart => RestartInv(s);
    case _ => PlainInv(s, a);
  }

  lemma {:induction false} RunInv(actions: seq<Action>)
    ensures Inv(Run(actions))
  {
    if actions != [] {
      RunInv(actions[..|actions| - 1]);
      NextInv(Run(actions[..|actions| - 1]), actions[|actions| - 1]);
    }
  }

  // ---------------------------------------------------------------- main results

  /** Over every interleaving, an event with its own id below the committed offset is stored, unless one
      of the three escapes applies. */
  lemma {:induction false} CommittedIsAccountedFor(actions: seq<Action>, o: nat)
    requires var s := Run(actions);
      s.committed.Some? && o < s.committed.value && s.log[o].Known?
    ensures Settled(Run(actions), o)
  {
    RunInv(actions);
  }

  lemma {:induction false} RowsStay(s: State, a: Action, k: Key)
    requires InLog(s) && k in s.rows
    ensures (k, s.rows[k]) in Next(s, a).rows.Items
  {
    if s.phase.Marked? { InsertKeys(s.rows, s.phase.unseen); }
  }

  /** A stored row keeps its first value for good. */
  lemma {:induction false} FirstWriteStays(actions: seq<Action>, n: nat, k: Key)
    requires n <= |actions| && k in Run(actions[..n]).rows
    ensures (k, Run(actions[..n]).rows[k]) in Run(actions).rows.Items
  {
    if n == |actions| {
      assert actions[..n] == actions;
    } else {
      var front := actions[..|actions| - 1];
      assert front[..n] == actions[..n];
      FirstWriteStays(front, n, k);
      RowsStay(Run(front), actions[|actions| - 1], k);
    }
  }

  /** Every row stores a record of the log under that record's own id, if it has one. */
  lemma {:induction false} RowsAreRecords(actions: seq<Action>)
    ensures var s := Run(actions);
      forall k :: k in s.rows ==> FromLog(s, k, s.rows[k])
  {
    RunInv(actions);
  }

  // The escapes are events of the run.

  /** Action n is an exception caught while record o's batch had not reached its database commit. */
  ghost predicate CarriesOn(actions: seq<Action>, n: nat, o: nat)
    requires n < |actions|
  {
    var p := Run(actions[..n]).phase;
    actions[n] == Fail && BeforeCommit(p) && p.lo <= o < p.hi
  }

  /** Action n breaks off a batch that had marked an id and not stored it. */
  ghost predicate Orphans(actions: seq<Action>, n: nat, k: Key)
    requires n < |actions|
  {
    var p := Run(actions[..n]).phase;
    (actions[n] == Fail || actions[n] == Restart) && p.Marked? && k in KeysOf(p.unseen)
  }

  /** Action n filters record o as seen, though its id is not stored. */
  ghost predicate Filters(actions: seq<Action>, n: nat, o: nat)
    requires n < |actions|
  {
    var s := Run(actions[..n]);
    actions[n] == Check && s.phase.Fetched? && o in Shadowed(s, s.phase.lo, s.phase.hi)
  }

  /** Action n starts reading beyond record o because no offset was ever committed. */
  ghost predicate Skips(actions: seq<Action>, n: nat, o: nat)
    requires n < |actions|
  {
    actions[n] == Restart && Run(actions[..n]).committed.None? && o < |Run(actions[..n]).log|
  }

  lemma {:induction false} OrphanMeans(actions: seq<Action>, k: Key)
    requires k in Run(actions).orphans
    ensures exists n :: 0 <= n < |actions| && Orphans(actions, n, k)
  {
    var front, last := actions[..|actions| - 1], |actions| - 1;
    if k in Run(front).orphans {
      OrphanMeans(front, k);
      var n :| 0 <= n < |front| && Orphans(front, n, k);
      assert front[..n] == actions[..n];
      assert Orphans(actions, n, k);
    } else {
      assert Orphans(actions, last, k);
    }
  }

  /** A batch filters an unstored event as seen only if an earlier one, broken off, had marked its id. */
  lemma {:induction false} FilterNeedsOrphan(actions: seq<Action>, n: nat, o: nat)
    requires n < |actions| && Filters(actions, n, o)
    ensures exists m :: 0 <= m < n && Orphans(actions, m, Named(Run(actions[..n]).log[o].id))
  {
    var k := Named(Run(actions[..n]).log[o].id);
    RunInv(actions[..n]);
    OrphanMeans(actions[..n], k);
    var m :| 0 <= m < n && Orphans(actions[..n], m, k);
    assert actions[..n][..m] == actions[..m];
    assert Orphans(actions, m, k);
  }

  /** A step that cannot cost an event: exceptions only after the database commit, crashes not between
      marking and the database commit, restarts only once an offset is committed. */
  predicate Harmless(s: State, a: Action) {
    && (a.Fail? ==> !BeforeCommit(s.phase))
    && (a.Restart? ==> !s.phase.Marked? && s.committed.Some?)
  }

  /** No batch was given up, no id orphaned and nothing skipped. */
  predicate NoEscape(s: State) {
    (s.failed, s.orphans, s.skipped) == ([], {}, 0)
  }

  lemma {:induction false} HarmlessStep(s: State, a: Action)
    requires InLog(s) && NoEscape(s) && Harmless(s, a)
    ensures NoEscape(Next(s, a))
  {
  }

  lemma {:induction false} HarmlessRun(actions: seq<Action>)
    requires forall n :: 0 <= n < |actions| ==> Harmless(Run(actions[..n]), actions[n])
    ensures NoEscape(Run(actions))
  {
    if actions != [] {
      var front := actions[..|actions| - 1];
      forall n | 0 <= n < |front| ensures Harmless(Run(front[..n]), front[n]) {
        assert front[..n] == actions[..n];
      }
      HarmlessRun(front);
      HarmlessStep(Run(front), actions[|actions| - 1]);
    }
  }

  /** In a run of such steps "committed" does mean "stored". */
  lemma {:induction false} HarmlessRunStoresAll(actions: seq<Action>, o: nat)
    requires forall n :: 0 <= n < |actions| ==> Harmless(Run(actions[..n]), actions[n])
    requires var s := Run(actions);
      s.committed.Some? && o < s.committed.value && s.log[o].Known?
    ensures Stored(Run(actions), o)
  {
    HarmlessRun(actions);
    CommittedIsAccountedFor(actions, o);
  }

  // ---------------------------------------------------------------- each escape does happen

  const ROUND: seq<Action> := [Fetch(1), Check, Mark, Persist, Publish, Commit]

  /** Idle, with everything read and committed. */
  predicate CaughtUp(s: State) {
    s == s.(phase := Idle, committed := Some(|s.log|), position := |s.log|)
  }

  /** One more record read and committed, nothing stored. */
  function Read(s: State): State {
    s.(position := s.position + 1, committed := Some(s.position + 1))
  }

  lemma {:induction false} Then(actions: seq<Action>, a: Action)
    ensures Run(actions + [a]) == Next(Run(actions), a)
  {
    assert (actions + [a])[..|actions|] == actions;
  }

  lemma {:induction false} ThenTwo(actions: seq<Action>, a: Action, b: Action)
    ensures Run(actions + [a, b]) == Next(Next(Run(actions), a), b)
  {
    Then(actions, a);
    Then(actions + [a], b);
    assert actions + [a, b] == actions + [a] + [b];
  }

  lemma {:induction false} ThenThree(actions: seq<Action>, a: Action, b: Action, c: Action)
    ensures Run(actions + [a, b, c]) == Next(Next(Next(Run(actions), a), b), c)
  {
    ThenTwo(actions, a, b);
    Then(actions + [a, b], c);
    assert actions + [a, b, c] == actions + [a, b] + [c];
  }

  /** The event at the position, as a batch of one would hold it. */
  function ItemAt(s: State): Item
    requires s.position < |s.log| && (s.log[s.position].Known? || s.log[s.position].Nameless?)
  {
    match s.log[s.position]
    case Known(id, body) => Item(Named(id), Row(s.position, body))
    case Nameless(body) => Item(Drawn(s.drawn), Row(s.position, body))
  }

  /** An event is waiting and the worker is free to read it. */
  predicate Waiting(s: State) {
    s.phase.Idle? && s.position < |s.log| && (s.log[s.position].Known? || s.log[s.position].Nameless?)
  }

  lemma {:induction false} ItemsOfOne(s: State)
    requires Waiting(s)
    ensures ItemsOf(s.log, s.position, s.position + 1, s.drawn) == [ItemAt(s)]
  {
    assert ItemsOf(s.log, s.position, s.position, s.drawn) == [];
  }

  lemma {:induction false} UnseenOfOne(item: Item, seen: set<Key>)
    ensures Unseen([item], seen) == if item.key in seen then [] else [item]
  {
    assert [item][..0] == [] && Unseen([], seen) == [];
  }

  lemma {:induction false} KeysOfOne(item: Item)
    ensures KeysOf([item]) == {item.key}
  {
  }

  lemma {:induction false} InsertOne(rows: map<Key, Row>, item: Item)
    ensures Insert(rows, [item]) == if item.key in rows then rows else rows[item.key := item.row]
  {
    assert [item][..0] == [] && Insert(rows, []) == rows;
  }

  lemma {:induction false} FetchOne(s: State)
    requires InLog(s) && Waiting(s)
    ensures Next(s, Fetch(1)) == s.(position := s.position + 1, phase := Fetched(s.position, s.position + 1))
  {
    assert !OnlyGarbage(s.log, s.position, s.position + 1) by { assert !s.log[s.position].Garbage?; }
  }

  lemma {:induction false} CheckOne(s: State, t: State)
    requires InLog(s) && Waiting(s) && InLog(t)
    requires t == s.(position := s.position + 1, phase := Fetched(s.position, s.position + 1))
    ensures Next(t, Check) ==
      if ItemAt(s).key !in s.seen then t.(drawn := s.drawn + 1, phase := Checked(s.position, s.position + 1, [ItemAt(s)]))
      else t.(drawn := s.drawn + 1, phase := Done(s.position, s.position + 1),
              shadowed := s.shadowed + Shadowed(t, s.position, s.position + 1))
  {
    ItemsOfOne(s);
    UnseenOfOne(ItemAt(s), s.seen);
    assert ItemAt(s).key !in s.seen ==> Shadowed(t, s.position, s.position + 1) == {};
  }

  /** The state once the waiting event has been read and marked. */
  function ReadAndMarked(s: State): State
    requires Waiting(s)
  {
    s.(position := s.position + 1, drawn := s.drawn + 1, seen := s.seen + {ItemAt(s).key},
       phase := Marked(s.position, s.position + 1, [ItemAt(s)]))
  }

  lemma {:induction false} ReadAndMarkSteps(s: State)
    requires InLog(s) && Waiting(s) && ItemAt(s).key !in s.seen
    ensures Next(Next(Next(s, Fetch(1)), Check), Mark) == ReadAndMarked(s)
  {
    FetchOne(s);
    CheckOne(s, Next(s, Fetch(1)));
    KeysOfOne(ItemAt(s));
  }

  lemma {:induction false} ReadAndMark(actions: seq<Action>)
    requires Waiting(Run(actions)) && ItemAt(Run(actions)).key !in Run(actions).seen
    ensures Run(actions + [Fetch(1), Check, Mark]) == ReadAndMarked(Run(actions))
  {
    ReadAndMarkSteps(Run(actions));
    ThenThree(actions, Fetch(1), Check, Mark);
  }

  lemma {:induction false} PersistOne(s: State)
    requires Waiting(s) && InLog(ReadAndMarked(s)) && ItemAt(s).key !in s.rows
    ensures Next(ReadAndMarked(s), Persist) ==
      ReadAndMarked(s).(rows := s.rows[ItemAt(s).key := ItemAt(s).row], phase := Persisted(s.position, s.position + 1))
  {
    InsertOne(s.rows, ItemAt(s));
  }

  /** The state once the waiting event has been stored and committed. */
  function Finished(s: State): State
    requires Waiting(s)
  {
    s.(position := s.position + 1, committed := Some(s.position + 1), drawn := s.drawn + 1,
       seen := s.seen + {ItemAt(s).key}, rows := s.rows[ItemAt(s).key := ItemAt(s).row])
  }

  lemma {:induction false} FinishOne(s: State)
    requires Waiting(s) && InLog(ReadAndMarked(s)) && ItemAt(s).key !in s.rows
    ensures Next(Next(Next(ReadAndMarked(s), Persist), Publish), Commit) == Finished(s)
  {
    PersistOne(s);
  }

  /** A failure-free round on an event that is new to the system stores and commits it. */
  lemma {:induction false} CleanRound(actions: seq<Action>)
    requires var s := Run(actions); Waiting(s) && ItemAt(s).key !in s.seen && ItemAt(s).key !in s.rows
    ensures Run(actions + ROUND) == Finished(Run(actions))
  {
    var marked := actions + [Fetch(1), Check, Mark];
    ReadAndMark(actions);
    FinishOne(Run(actions));
    ThenThree(marked, Persist, Publish, Commit);
    assert actions + ROUND == marked + [Persist, Publish, Commit];
  }

  /** Two records arrive, and the batch of the first fails. */
  lemma {:induction false} FailedBatch(s: State, first: Message, second: Message)
    requires InLog(s) && CaughtUp(s) && first.Known?
    ensures var t := Next(Next(Next(Next(s, Produce(first)), Produce(second)), Fetch(1)), Fail);
      t == s.(log := s.log + [first, second], position := s.position + 1, failed := t.failed)
  {
    var arrived := Next(Next(s, Produce(first)), Produce(second));
    assert arrived == s.(log := s.log + [first, second]);
    FetchOne(arrived);
  }

  /** With this log all committed, of two events in it the first is not stored and the second is. */
  predicate OnlyLater(s: State, log: seq<Message>, first: Message, second: Message)
    requires first.Known? && second.Known?
  {
    (CaughtUp(s), s.log, Named(first.id) in s.rows, Named(second.id) in s.rows) == (true, log, false, true)
  }

  /** An exception before the database commit, caught by the worker, and the next commit of the
      position passes over the lost event: from any state with nothing pending. */
  lemma {:induction false} FailureThenCommitLoses(actions: seq<Action>, first: Message, second: Message)
    requires var s := Run(actions);
      && CaughtUp(s) && first.Known? && second.Known? && first.id != second.id
      && Named(first.id) !in s.rows && Named(second.id) !in s.seen && Named(second.id) !in s.rows
    ensures var s, t := Run(actions), Run(actions + [Produce(first), Produce(second)] + [Fetch(1), Fail] + ROUND);
      OnlyLater(t, s.log + [first, second], first, second)
  {
    FailedRound(actions, first, second);
    CleanRound(actions + [Produce(first), Produce(second)] + [Fetch(1), Fail]);
  }

  lemma {:induction false} FailedRound(actions: seq<Action>, first: Message, second: Message)
    requires CaughtUp(Run(actions)) && first.Known?
    ensures var s, t := Run(actions), Run(actions + [Produce(first), Produce(second)] + [Fetch(1), Fail]);
      t == s.(log := s.log + [first, second], position := s.position + 1, failed := t.failed)
  {
    ThenTwo(actions, Produce(first), Produce(second));
    ThenTwo(actions + [Produce(first), Produce(second)], Fetch(1), Fail);
    FailedBatch(Run(actions), first, second);
  }

  /** A crash between marking the id as seen and the database commit: the redelivered event is taken
      for a duplicate and committed, though nothing was stored. */
  lemma {:induction false} CrashAfterMarkLoses(actions: seq<Action>)
    requires var s := Run(actions);
      Waiting(s) && s.committed == Some(s.position) && ItemAt(s).key.Named? && ItemAt(s).key !in s.seen && ItemAt(s).key !in s.rows
    ensures var s, t := Run(actions), Run(actions + [Fetch(1), Check, Mark] + [Restart] + [Fetch(1), Check, Commit]);
      && t == Read(s).(seen := t.seen, orphans := t.orphans, shadowed := t.shadowed, drawn := t.drawn)
      && ItemAt(s).key !in t.rows
  {
    var marked := actions + [Fetch(1), Check, Mark] + [Restart];
    MarkThenRestart(actions);
    SeenIsCommitted(marked);
    ReadAfterRestart(Run(actions), Run(marked), Run(marked + [Fetch(1), Check, Commit]));
  }

  lemma {:induction false} ReadAfterRestart(s: State, again: State, t: State)
    ensures (again == s.(drawn := s.drawn + 1, seen := again.seen, orphans := again.orphans) &&
             t == Read(again).(shadowed := t.shadowed, drawn := t.drawn)) ==>
      t == Read(s).(seen := t.seen, orphans := t.orphans, shadowed := t.shadowed, drawn := t.drawn) && t.rows == s.rows
  {
  }

  lemma {:induction false} MarkThenRestart(actions: seq<Action>)
    requires var s := Run(actions);
      Waiting(s) && s.committed == Some(s.position) && ItemAt(s).key !in s.seen
    ensures var s, t := Run(actions), Run(actions + [Fetch(1), Check, Mark] + [Restart]);
      t == s.(drawn := s.drawn + 1, seen := s.seen + {ItemAt(s).key}, orphans := t.orphans)
  {
    ReadAndMark(actions);
    Then(actions + [Fetch(1), Check, Mark], Restart);
  }

  /** An event whose id is marked is committed without a look at the table. */
  lemma {:induction false} SeenIsCommitted(actions: seq<Action>)
    requires Waiting(Run(actions)) && ItemAt(Run(actions)).key in Run(actions).seen
    ensures var s, t := Run(actions), Run(actions + [Fetch(1), Check, Commit]);
      t == Read(s).(shadowed := t.shadowed, drawn := t.drawn)
  {
    var s := Run(actions);
    FetchOne(s);
    CheckOne(s, Next(s, Fetch(1)));
    ThenThree(actions, Fetch(1), Check, Commit);
  }

  lemma {:induction false} LateStart(first: Message, second: Message)
    ensures var t := Next(Next(Next(START, Produce(first)), Restart), Produce(second));
      t == START.(log := [first, second], position := 1, skipped := t.skipped)
  {
  }

  /** A restart before the first commit begins at the end of the log. */
  lemma {:induction false} RestartWithoutOffsetLoses(first: Message, second: Message)
    requires first.Known? && second.Known? && first.id != second.id
    ensures OnlyLater(Run([] + [Produce(first), Restart, Produce(second)] + ROUND), [first, second], first, second)
  {
    assert Run([]) == START;
    ThenThree([], Produce(first), Restart, Produce(second));
    LateStart(first, second);
    CleanRound([] + [Produce(first), Restart, Produce(second)]);
  }

  /** The ids of the items that the batch in hand will store. */
  function KeysInHand(s: State): set<Key> {
    if s.phase.Checked? || s.phase.Marked? then KeysOf(s.phase.unseen) else {}
  }

  /** No drawn id is used before it is drawn. */
  ghost predicate DrawsAreFresh(s: State) {
    forall n: nat :: Drawn(n) in s.seen || Drawn(n) in s.rows || Drawn(n) in KeysInHand(s) ==> n < s.drawn
  }

  lemma {:induction false} DrawsStayFresh(s: State, a: Action)
    requires InLog(s) && DrawsAreFresh(s)
    ensures DrawsAreFresh(Next(s, a))
  {
    match a
    case Check =>
      if s.phase.Fetched? {
        ItemsCover(s.log, s.phase.lo, s.phase.hi, s.drawn);
        UnseenKeys(ItemsOf(s.log, s.phase.lo, s.phase.hi, s.drawn), s.seen);
      }
    case Persist =>
      if s.phase.Marked? { InsertKeys(s.rows, s.phase.unseen); }
    case _ =>
  }

  lemma {:induction false} DrawsAreAlwaysFresh(actions: seq<Action>)
    ensures DrawsAreFresh(Run(actions))
  {
    if actions != [] {
      DrawsAreAlwaysFresh(actions[..|actions| - 1]);
      DrawsStayFresh(Run(actions[..|actions| - 1]), actions[|actions| - 1]);
    }
  }

  lemma {:induction false} NextDrawIsFresh(actions: seq<Action>)
    ensures var s := Run(actions); Drawn(s.drawn) !in s.seen + s.rows.Keys
  {
    DrawsAreAlwaysFresh(actions);
  }

  /** The waiting event has been stored, and waits again. */
  function Redelivered(s: State): State
    requires Waiting(s)
  {
    s.(drawn := s.drawn + 1, seen := s.seen + {ItemAt(s).key}, rows := s.rows[ItemAt(s).key := ItemAt(s).row])
  }

  /** The waiting record is committed and stored under two ids that were new. */
  ghost predicate TwiceStored(s: State, t: State)
    requires Waiting(s)
  {
    var row := ItemAt(s).row;
    && t == Read(s).(drawn := s.drawn + 2, seen := t.seen, rows := s.rows[Drawn(s.drawn) := row][Drawn(s.drawn + 1) := row])
    && {Drawn(s.drawn), Drawn(s.drawn + 1)} !! s.rows.Keys
  }

  lemma {:induction false} StoredAgain(s: State)
    requires Waiting(s) && s.log[s.position].Nameless? && DrawsAreFresh(s)
    ensures Waiting(Redelivered(s)) && ItemAt(Redelivered(s)).key == Drawn(s.drawn + 1)
    ensures TwiceStored(s, Finished(Redelivered(s)))
  {
  }

  /** The crash after the database commit, before the next reading. */
  lemma {:induction false} PersistThenRestart(actions: seq<Action>)
    requires var s := Run(actions);
      Waiting(s) && ItemAt(s).key !in s.seen && ItemAt(s).key !in s.rows && s.committed == Some(s.position)
    ensures Run(actions + [Fetch(1), Check, Mark] + [Persist, Restart]) == Redelivered(Run(actions))
  {
    ReadAndMark(actions);
    PersistOne(Run(actions));
    ThenTwo(actions + [Fetch(1), Check, Mark], Persist, Restart);
  }

  /** An event without an id gets another one on redelivery: a crash after the database commit stores
      it twice. */
  lemma {:induction false} NamelessStoredTwice(actions: seq<Action>)
    requires var s := Run(actions);
      Waiting(s) && s.log[s.position].Nameless? && s.committed == Some(s.position)
    ensures TwiceStored(Run(actions), Run(actions + [Fetch(1), Check, Mark] + [Persist, Restart] + ROUND))
  {
    var redelivered := actions + [Fetch(1), Check, Mark] + [Persist, Restart];
    DrawsAreAlwaysFresh(actions);
    NextDrawIsFresh(actions);
    PersistThenRestart(actions);
    StoredAgain(Run(actions));
    NextDrawIsFresh(redelivered);
    CleanRound(redelivered);
  }

  // ---------------------------------------------------------------- what becomes of a batch given up

  /** No other record carries the event's id. */
  ghost predicate Alone(log: seq<Message>, o: nat)
    requires o < |log| && log[o].Known?
  {
    forall p :: 0 <= p < |log| && p != o && log[p].Known? ==> log[p].id != log[o].id
  }

  /** The events with an id no other carries that are not stored and lie behind everything the worker has
      in hand or will read next. */
  ghost function LeftBehind(s: State): set<nat>
    requires InLog(s)
  {
    set o: nat | o < s.position && s.log[o].Known? && Alone(s.log, o) && !Stored(s, o)
                 && (s.phase.Fetched? ==> o < s.phase.lo) && !Pending(s, o)
  }

  predicate Another(a: Action, id: nat) {
    a.Produce? && a.m.Known? ==> a.m.id != id
  }

  lemma {:induction false} LeftBehindAtCheck(s: State, o: nat)
    requires InLog(s) && o in LeftBehind(s)
    ensures o in LeftBehind(Next(s, Check))
  {
    if s.phase.Fetched? {
      ItemsCover(s.log, s.phase.lo, s.phase.hi, s.drawn);
      UnseenKeys(ItemsOf(s.log, s.phase.lo, s.phase.hi, s.drawn), s.seen);
    }
  }

  lemma {:induction false} LeftBehindStays(s: State, a: Action, o: nat)
    requires InLog(s) && o in LeftBehind(s) && Another(a, s.log[o].id)
    requires a.Restart? && s.committed.Some? ==> o < s.committed.value
    ensures o in LeftBehind(Next(s, a)) && Next(s, a).log[o] == s.log[o]
  {
    match a
    case Check => LeftBehindAtCheck(s, o);
    case Persist => if s.phase.Marked? { InsertKeys(s.rows, s.phase.unseen); }
    case Produce(m) =>
      assert forall p :: 0 <= p < |s.log| ==> (s.log + [m])[p] == s.log[p];
    case _ =>
  }

  /** ... and to which no restart leads back. */
  ghost function Gone(s: State): set<nat>
    requires InLog(s)
  {
    set o | o in LeftBehind(s) && (s.committed.Some? ==> o < s.committed.value)
  }

  /** Nothing from action n on produces another event with this id. */
  ghost predicate NoneLike(actions: seq<Action>, n: nat, id: nat) {
    forall m :: n <= m < |actions| ==> Another(actions[m], id)
  }

  lemma {:induction false} LeftBehindUntil(actions: seq<Action>, n: nat, o: nat)
    requires n <= |actions| && o in LeftBehind(Run(actions[..n])) && NoneLike(actions, n, Run(actions[..n]).log[o].id)
    requires forall m :: n <= m < |actions| ==> actions[m] != Restart
    ensures o in LeftBehind(Run(actions)) && Run(actions).log[o] == Run(actions[..n]).log[o]
  {
    if n == |actions| {
      assert actions[..n] == actions;
    } else {
      var front := actions[..|actions| - 1];
      assert front[..n] == actions[..n];
      LeftBehindUntil(front, n, o);
      LeftBehindStays(Run(front), actions[|actions| - 1], o);
    }
  }

  lemma {:induction false} GoneStays(s: State, a: Action, o: nat)
    requires InLog(s) && o in Gone(s) && Another(a, s.log[o].id)
    ensures o in Gone(Next(s, a)) && Next(s, a).log[o] == s.log[o]
  {
    LeftBehindStays(s, a, o);
  }

  lemma {:induction false} FailLeavesBehind(s: State, o: nat)
    requires InLog(s) && BeforeCommit(s.phase) && s.phase.lo <= o < s.phase.hi
    requires s.log[o].Known? && Alone(s.log, o) && !Stored(s, o)
    ensures o in LeftBehind(Next(s, Fail)) && Next(s, Fail).log == s.log
  {
  }

  lemma {:induction false} CommitMovesOn(s: State, o: nat)
    requires InLog(s) && o in LeftBehind(s) && s.phase.Done?
    ensures o in Gone(Next(s, Commit)) && Next(s, Commit).log == s.log
  {
  }

  lemma {:induction false} GoneForGood(actions: seq<Action>, n: nat, o: nat)
    requires n <= |actions| && o in Gone(Run(actions[..n])) && NoneLike(actions, n, Run(actions[..n]).log[o].id)
    ensures o in Gone(Run(actions)) && Run(actions).log[o] == Run(actions[..n]).log[o]
  {
    if n == |actions| {
      assert actions[..n] == actions;
    } else {
      var front := actions[..|actions| - 1];
      assert front[..n] == actions[..n];
      GoneForGood(front, n, o);
      GoneStays(Run(front), actions[|actions| - 1], o);
    }
  }

  lemma {:induction false} GoneAtCommit(actions: seq<Action>, c: nat, o: nat)
    requires c < |actions| && o in LeftBehind(Run(actions[..c]))
    requires actions[c] == Commit && Run(actions[..c]).phase.Done?
    ensures (o in Gone(Run(actions[..c + 1])), Run(actions[..c + 1]).log) == (true, Run(actions[..c]).log)
  {
    assert actions[..c + 1] == actions[..c] + [Commit];
    Then(actions[..c], Commit);
    CommitMovesOn(Run(actions[..c]), o);
  }

  lemma {:induction false} BehindIsLost(actions: seq<Action>, n: nat, c: nat, o: nat)
    requires n <= c < |actions| && o in LeftBehind(Run(actions[..n])) && NoneLike(actions, n, Run(actions[..n]).log[o].id)
    requires forall m :: n <= m < c ==> actions[m] != Restart
    requires actions[c] == Commit && Run(actions[..c]).phase.Done?
    ensures o in Gone(Run(actions))
  {
    assert actions[..c][..n] == actions[..n];
    LeftBehindUntil(actions[..c], n, o);
    GoneAtCommit(actions, c, o);
    GoneForGood(actions, c + 1, o);
  }

  /** An exception before the database commit at action n, a commit of an offset at action c and no
      restart between them: an event of the failed batch whose id no other carries is never stored, whatever
      the rest of the run does. */
  lemma {:induction false} GivenUpIsLost(actions: seq<Action>, n: nat, c: nat, o: nat)
    requires n < c < |actions| && CarriesOn(actions, n, o)
    requires var s := Run(actions[..n]); s.log[o].Known? && Alone(s.log, o) && !Stored(s, o) && NoneLike(actions, n, s.log[o].id)
    requires forall m :: n < m < c ==> actions[m] != Restart
    requires actions[c] == Commit && Run(actions[..c]).phase.Done?
    ensures o in Gone(Run(actions))
  {
    assert actions[..n + 1] == actions[..n] + [Fail];
    Then(actions[..n], Fail);
    FailLeavesBehind(Run(actions[..n]), o);
    BehindIsLost(actions, n + 1, c, o);
  }

  lemma {:induction false} FilterLeavesBehind(s: State, o: nat)
    requires InLog(s) && s.phase.Fetched? && o in Shadowed(s, s.phase.lo, s.phase.hi) && Alone(s.log, o)
    ensures o in LeftBehind(Next(s, Check)) && Next(s, Check).log == s.log
  {
    ItemsCover(s.log, s.phase.lo, s.phase.hi, s.drawn);
    UnseenKeys(ItemsOf(s.log, s.phase.lo, s.phase.hi, s.drawn), s.seen);
  }

  /** The same for an event that action n filters as seen though it is not stored. */
  lemma {:induction false} FilteredIsLost(actions: seq<Action>, n: nat, c: nat, o: nat)
    requires n < c < |actions| && Filters(actions, n, o)
    requires var s := Run(actions[..n]); Alone(s.log, o) && NoneLike(actions, n, s.log[o].id)
    requires forall m :: n < m < c ==> actions[m] != Restart
    requires actions[c] == Commit && Run(actions[..c]).phase.Done?
    ensures o in Gone(Run(actions))
  {
    assert actions[..n + 1] == actions[..n] + [Check];
    Then(actions[..n], Check);
    FilterLeavesBehind(Run(actions[..n]), o);
    BehindIsLost(actions, n + 1, c, o);
  }

  lemma {:induction false} SkipLeavesBehind(s: State, o: nat)
    requires InLog(s) && s.committed.None? && o < |s.log| && s.log[o].Known? && Alone(s.log, o) && !Stored(s, o)
    ensures o in Gone(Next(s, Restart)) && Next(s, Restart).log == s.log
  {
  }

  /** ... and, commit or not, for one that a start without a committed offset skips. */
  lemma {:induction false} SkippedIsLost(actions: seq<Action>, n: nat, o: nat)
    requires n < |actions| && Skips(actions, n, o)
    requires var s := Run(actions[..n]); s.log[o].Known? && Alone(s.log, o) && !Stored(s, o) && NoneLike(actions, n, s.log[o].id)
    ensures o in Gone(Run(actions))
  {
    assert actions[..n + 1] == actions[..n] + [Restart];
    Then(actions[..n], Restart);
    SkipLeavesBehind(Run(actions[..n]), o);
    GoneForGood(actions, n + 1, o);
  }

  /** A restart first, and the batch is read again: the position is back at or before every event of it. */
  lemma {:induction false} RestartReadsAgain(actions: seq<Action>, n: nat, o: nat)
    requires n < |actions| && CarriesOn(actions, n, o) && Run(actions[..n]).committed.Some?
    requires forall m :: n < m < |actions| ==> actions[m] != Commit
    ensures Run(actions + [Restart]).position <= o
  {
    OffsetStays(actions, n, o);
    Then(actions, Restart);
  }

  predicate OffsetUpTo(s: State, o: nat) {
    s.committed.Some? && s.committed.value <= o
  }

  lemma {:induction false} OffsetStays(actions: seq<Action>, n: nat, o: nat)
    requires n < |actions| && CarriesOn(actions, n, o) && Run(actions[..n]).committed.Some?
    requires forall m :: n < m < |actions| ==> actions[m] != Commit
    ensures OffsetUpTo(Run(actions), o)
  {
    var front, a := actions[..|actions| - 1], actions[|actions| - 1];
    if n == |front| {
      assert actions[..n] == front;
    } else {
      assert front[..n] == actions[..n];
      OffsetStays(front, n, o);
    }
  }

  // ---------------------------------------------------------------- exactly when an event is missing

  /** Before action n record o is in the log and not stored. */
  ghost predicate UnstoredAt(actions: seq<Action>, n: nat, o: nat)
    requires n < |actions|
  {
    var s := Run(actions[..n]);
    o < |s.log| && s.log[o].Known? && !Stored(s, o)
  }

  /** At action n the worker goes on past record o without storing it. */
  ghost predicate PassesBy(actions: seq<Action>, n: nat, o: nat)
    requires n < |actions|
  {
    UnstoredAt(actions, n, o) && (CarriesOn(actions, n, o) || Filters(actions, n, o))
  }

  /** Between actions n and c there is no restart. */
  ghost predicate NoRestart(actions: seq<Action>, n: nat, c: nat)
    requires c <= |actions|
  {
    forall m :: n < m < c ==> actions[m] != Restart
  }

  /** Action c commits an offset. */
  ghost predicate Commits(actions: seq<Action>, c: nat)
    requires c < |actions|
  {
    actions[c] == Commit && Run(actions[..c]).phase.Done?
  }

  /** The worker has gone on past record o and has not restarted since. */
  ghost predicate PassedBy(actions: seq<Action>, o: nat) {
    exists n :: 0 <= n < |actions| && PassesBy(actions, n, o) && NoRestart(actions, n, |actions|)
  }

  /** A start without a committed offset skipped the unstored record o, or the worker went on past it
      and committed an offset before it restarted. */
  ghost predicate Missed(actions: seq<Action>, o: nat) {
    || (exists n :: 0 <= n < |actions| && Skips(actions, n, o) && UnstoredAt(actions, n, o))
    || (exists n, c :: 0 <= n < c < |actions| && PassesBy(actions, n, o) && Commits(actions, c) && NoRestart(actions, n, c))
  }

  /** Where an unstored record can be, given whether it was missed and whether it was passed by: below
      the committed offset only if missed; dealt with only if missed or passed by; otherwise in a batch
      that is going to store it, or still to come. */
  ghost predicate Placed(s: State, o: nat, missed: bool, passed: bool) {
    && InLog(s) && o < |s.log| && s.log[o].Known?
    && (|| Stored(s, o)
        || ((s.committed.Some? && o < s.committed.value ==> missed)
            && (o < Frontier(s) ==> missed || passed)
            && ((s.phase.Checked? || s.phase.Marked?) && s.phase.lo <= o < s.phase.hi ==>
                  missed || passed || Pending(s, o))))
  }

  lemma {:induction false} CheckPlaces(s: State, o: nat, missed: bool, passed: bool, passed': bool)
    requires Placed(s, o, missed, passed) && (passed ==> passed')
    requires s.phase.Fetched? && o in Shadowed(s, s.phase.lo, s.phase.hi) ==> passed'
    ensures Placed(Next(s, Check), o, missed, passed')
  {
    if s.phase.Fetched? {
      var items := ItemsOf(s.log, s.phase.lo, s.phase.hi, s.drawn);
      ItemsCover(s.log, s.phase.lo, s.phase.hi, s.drawn);
      UnseenKeys(items, s.seen);
      if s.phase.lo <= o < s.phase.hi && Named(s.log[o].id) !in s.seen {
        assert Item(Named(s.log[o].id), Row(o, s.log[o].body)) in Unseen(items, s.seen);
      }
    }
  }

  lemma {:induction false} PersistPlaces(s: State, o: nat, missed: bool, passed: bool)
    requires Placed(s, o, missed, passed)
    ensures Placed(Next(s, Persist), o, missed, passed)
  {
    if s.phase.Marked? { InsertKeys(s.rows, s.phase.unseen); }
  }

  /** One step, given what it does to the record. */
  lemma {:induction false} StepPlaces(s: State, a: Action, o: nat, missed: bool, passed: bool, missed': bool, passed': bool)
    requires Placed(s, o, missed, passed) && (missed ==> missed') && (passed && a != Restart ==> passed')
    requires a.Restart? && s.committed.None? && !Stored(s, o) ==> missed'
    requires a.Fail? && BeforeCommit(s.phase) && s.phase.lo <= o < s.phase.hi && !Stored(s, o) ==> passed'
    requires a.Check? && s.phase.Fetched? && o in Shadowed(s, s.phase.lo, s.phase.hi) ==> passed'
    requires a.Commit? && s.phase.Done? && passed && !Stored(s, o) ==> missed'
    ensures Placed(Next(s, a), o, missed', passed')
  {
    match a
    case Check => CheckPlaces(s, o, missed, passed, passed');
    case Persist => PersistPlaces(s, o, missed, passed);
    case _ =>
  }

  lemma {:induction false} PassesByBefore(front: seq<Action>, a: Action, n: nat, o: nat)
    requires n < |front|
    ensures (front + [a])[..n] == front[..n] && (front + [a])[n] == front[n]
    ensures PassesBy(front + [a], n, o) <==> PassesBy(front, n, o)
  {
    assert (front + [a])[..n] == front[..n];
  }

  lemma {:induction false} MissedStays(front: seq<Action>, a: Action, o: nat)
    requires Missed(front, o)
    ensures Missed(front + [a], o)
  {
    var actions := front + [a];
    if n :| 0 <= n < |front| && Skips(front, n, o) && UnstoredAt(front, n, o) {
      assert actions[..n] == front[..n];
      assert Skips(actions, n, o) && UnstoredAt(actions, n, o);
    } else {
      var n, c :| 0 <= n < c < |front| && PassesBy(front, n, o) && Commits(front, c) && NoRestart(front, n, c);
      PassesByBefore(front, a, n, o);
      assert actions[..c] == front[..c];
      assert Commits(actions, c) && NoRestart(actions, n, c);
    }
  }

  lemma {:induction false} PassedByStays(front: seq<Action>, a: Action, o: nat)
    requires PassedBy(front, o) && a != Restart
    ensures PassedBy(front + [a], o)
  {
    var n :| 0 <= n < |front| && PassesBy(front, n, o) && NoRestart(front, n, |front|);
    PassesByBefore(front, a, n, o);
    assert NoRestart(front + [a], n, |front + [a]|);
  }

  lemma {:induction false} PassedByThenCommit(front: seq<Action>, o: nat)
    requires PassedBy(front, o) && Run(front).phase.Done?
    ensures Missed(front + [Commit], o)
  {
    var actions := front + [Commit];
    var n :| 0 <= n < |front| && PassesBy(front, n, o) && NoRestart(front, n, |front|);
    PassesByBefore(front, Commit, n, o);
    assert actions[..|front|] == front;
    assert Commits(actions, |front|) && NoRestart(actions, n, |front|);
  }

  lemma {:induction false} PassedByNow(front: seq<Action>, a: Action, o: nat)
    requires PassesBy(front + [a], |front|, o)
    ensures PassedBy(front + [a], o)
  {
    assert NoRestart(front + [a], |front|, |front + [a]|);
  }

  lemma {:induction false} ActionPlaces(front: seq<Action>, a: Action, o: nat)
    requires Placed(Run(front), o, Missed(front, o), PassedBy(front, o))
    ensures Placed(Next(Run(front), a), o, Missed(front + [a], o), PassedBy(front + [a], o))
  {
    var s, actions := Run(front), front + [a];
    assert actions[..|front|] == front;
    if Missed(front, o) { MissedStays(front, a, o); }
    if PassedBy(front, o) && a != Restart { PassedByStays(front, a, o); }
    if !Stored(s, o) {
      assert UnstoredAt(actions, |front|, o);
      if a.Restart? && s.committed.None? {
        assert Skips(actions, |front|, o);
      } else if a.Fail? && BeforeCommit(s.phase) && s.phase.lo <= o < s.phase.hi {
        PassedByNow(front, a, o);
      } else if a.Check? && s.phase.Fetched? && o in Shadowed(s, s.phase.lo, s.phase.hi) {
        PassedByNow(front, a, o);
      } else if a.Commit? && s.phase.Done? && PassedBy(front, o) {
        PassedByThenCommit(front, o);
      }
    }
    StepPlaces(s, a, o, Missed(front, o), PassedBy(front, o), Missed(actions, o), PassedBy(actions, o));
  }

  lemma {:induction false} RecordPlacedNext(front: seq<Action>, a: Action, o: nat)
    requires o < |Next(Run(front), a).log| && Next(Run(front), a).log[o].Known?
    requires o < |Run(front).log| && Run(front).log[o].Known? ==> Placed(Run(front), o, Missed(front, o), PassedBy(front, o))
    ensures Placed(Next(Run(front), a), o, Missed(front + [a], o), PassedBy(front + [a], o))
  {
    LogNext(Run(front), a);
    if o < |Run(front).log| { ActionPlaces(front, a, o); }
  }

  lemma {:induction false} RecordPlaced(actions: seq<Action>, o: nat)
    requires o < |Run(actions).log| && Run(actions).log[o].Known?
    ensures Placed(Run(actions), o, Missed(actions, o), PassedBy(actions, o))
  {
    var front, a := actions[..|actions| - 1], actions[|actions| - 1];
    assert actions == front + [a];
    if o < |Run(front).log| && Run(front).log[o].Known? { RecordPlaced(front, o); }
    RecordPlacedNext(front, a, o);
  }

  /** An event with its own id below the committed offset that is not stored was missed: skipped by a
      start without a committed offset, or passed by, in a batch that failed before its database
      commit or as seen, with a commit of an offset before the next restart. */
  lemma {:induction false} OnlyEscapes(actions: seq<Action>, o: nat)
    requires var s := Run(actions);
      s.committed.Some? && o < s.committed.value && s.log[o].Known? && !Stored(s, o)
    ensures Missed(actions, o)
  {
    RecordPlaced(actions, o);
  }

  // ---------------------------------------------------------------- and a missed event stays missing

  lemma {:induction false} LogNext(s: State, a: Action)
    requires InLog(s)
    ensures Next(s, a).log == if a.Produce? then s.log + [a.m] else s.log
  {
  }

  /** A log extends another, and holds these records beyond it. */
  ghost predicate Extends(log: seq<Message>, before: seq<Message>, beyond: set<Message>) {
    exists more: seq<Message> :: log == before + more && forall m :: m in beyond ==> m in more
  }

  lemma {:induction false} ExtendsMore(log: seq<Message>, before: seq<Message>, beyond: set<Message>, m: Message)
    requires Extends(log, before, beyond)
    ensures Extends(log + [m], before, beyond + {m})
  {
    var more: seq<Message> :| log == before + more && forall m :: m in beyond ==> m in more;
    assert log + [m] == before + (more + [m]);
  }

  function Produced(actions: seq<Action>, n: nat): set<Message> {
    set m | n <= m < |actions| && actions[m].Produce? :: actions[m].m
  }

  lemma {:induction false} ProducedMore(front: seq<Action>, a: Action, n: nat)
    requires n <= |front|
    ensures Produced(front + [a], n) == if a.Produce? then Produced(front, n) + {a.m} else Produced(front, n)
  {
    var actions := front + [a];
    assert actions[|front|] == a;
    forall x | x in Produced(front, n) ensures x in Produced(actions, n) {
      var m :| n <= m < |front| && front[m].Produce? && front[m].m == x;
      assert actions[m] == front[m];
    }
  }

  lemma {:induction false} LogGrows(actions: seq<Action>, n: nat)
    requires n <= |actions|
    ensures Extends(Run(actions).log, Run(actions[..n]).log, Produced(actions, n))
  {
    if n == |actions| {
      assert actions[..n] == actions && Run(actions).log == Run(actions).log + [];
    } else {
      var front, a := actions[..|actions| - 1], actions[|actions| - 1];
      assert front[..n] == actions[..n] && front + [a] == actions;
      LogGrows(front, n);
      LogNext(Run(front), a);
      ProducedMore(front, a, n);
      if a.Produce? { ExtendsMore(Run(front).log, Run(actions[..n]).log, Produced(front, n), a.m); }
    }
  }

  lemma {:induction false} AloneBefore(actions: seq<Action>, n: nat, o: nat)
    requires n <= |actions| && o < |Run(actions[..n]).log| <= |Run(actions).log| && Run(actions).log[o].Known?
    requires Alone(Run(actions).log, o)
    ensures var log := Run(actions[..n]).log;
      log[o] == Run(actions).log[o] && Alone(log, o) && NoneLike(actions, n, log[o].id)
  {
    var before, log := Run(actions[..n]).log, Run(actions).log;
    LogGrows(actions, n);
    var more: seq<Message> :| log == before + more && forall m :: m in Produced(actions, n) ==> m in more;
    assert forall p :: 0 <= p < |before| ==> log[p] == before[p];
    forall m | n <= m < |actions| ensures Another(actions[m], log[o].id) {
      if actions[m].Produce? {
        assert actions[m].m in Produced(actions, n);
        var i :| 0 <= i < |more| && more[i] == actions[m].m;
        assert log[|before| + i] == more[i];
      }
    }
  }

  lemma {:induction false} MissedIsGone(actions: seq<Action>, o: nat)
    requires o < |Run(actions).log| && Run(actions).log[o].Known? && Alone(Run(actions).log, o) && Missed(actions, o)
    ensures !Stored(Run(actions), o)
  {
    if n :| 0 <= n < |actions| && Skips(actions, n, o) && UnstoredAt(actions, n, o) {
      LogGrows(actions, n);
      AloneBefore(actions, n, o);
      SkippedIsLost(actions, n, o);
    } else {
      var n, c :| 0 <= n < c < |actions| && PassesBy(actions, n, o) && Commits(actions, c) && NoRestart(actions, n, c);
      LogGrows(actions, n);
      AloneBefore(actions, n, o);
      if CarriesOn(actions, n, o) { GivenUpIsLost(actions, n, c, o); } else { FilteredIsLost(actions, n, c, o); }
    }
  }

  /** Exactly when "committed" does not mean "stored": an event whose id no other record carries, below
      the committed offset, is not stored if and only if it was missed. */
  lemma {:induction false} MissingIff(actions: seq<Action>, o: nat)
    requires var s := Run(actions);
      s.committed.Some? && o < s.committed.value && s.log[o].Known? && Alone(s.log, o)
    ensures !Stored(Run(actions), o) <==> Missed(actions, o)
  {
    if Missed(actions, o) { MissedIsGone(actions, o); } else { RecordPlaced(actions, o); }
  }

  // ---------------------------------------------------------------- how often an event without an id is stored

  /** The ids under which record o is stored. */
  function RowsOf(rows: map<Key, Row>, o: nat): set<Key> {
    set k | k in rows && rows[k].offset == o
  }

  /** The step commits the database transaction of a batch that holds record o. */
  predicate Stores(s: State, a: Action, o: nat) {
    a == Persist && s.phase.Marked? && s.phase.lo <= o < s.phase.hi
  }

  function TimesStored(actions: seq<Action>, o: nat): nat {
    if actions == [] then 0
    else
      var front := actions[..|actions| - 1];
      TimesStored(front, o) + if Stores(Run(front), actions[|actions| - 1], o) then 1 else 0
  }

  predicate NamelessAt(log: seq<Message>, o: nat) {
    o < |log| && log[o].Nameless?
  }

  /** The one item a batch holds for record o, under an id not stored and not shared. */
  ghost predicate OnlyItem(unseen: seq<Item>, rows: map<Key, Row>, o: nat, i: Item) {
    && i in unseen && i.row.offset == o && i.key.Drawn? && i.key !in rows
    && forall j :: j in unseen && (j.row.offset == o || j.key == i.key) ==> j == i
  }

  /** A batch to be stored holds only its own records, and one item for record o if that has no id. */
  ghost predicate HoldsOne(s: State, o: nat) {
    || (!s.phase.Checked? && !s.phase.Marked?)
    || ((forall j :: j in s.phase.unseen ==> s.phase.lo <= j.row.offset < s.phase.hi)
        && (s.phase.lo <= o < s.phase.hi && NamelessAt(s.log, o) ==> exists i :: OnlyItem(s.phase.unseen, s.rows, o, i)))
  }

  lemma {:induction false} NamelessCover(log: seq<Message>, lo: nat, hi: nat, drawn: nat, o: nat)
    requires lo <= o < hi <= |log| && log[o].Nameless?
    ensures Item(Drawn(drawn + o - lo), Row(o, log[o].body)) in ItemsOf(log, lo, hi, drawn)
  {
    if o < hi - 1 { NamelessCover(log, lo, hi - 1, drawn, o); }
  }

  lemma {:induction false} ReadHoldsOne(s: State, lo: nat, hi: nat, o: nat)
    requires lo <= o < hi <= |s.log| && s.log[o].Nameless? && DrawsAreFresh(s)
    ensures exists i :: OnlyItem(Unseen(ItemsOf(s.log, lo, hi, s.drawn), s.seen), s.rows, o, i)
  {
    var items := ItemsOf(s.log, lo, hi, s.drawn);
    var i := Item(Drawn(s.drawn + o - lo), Row(o, s.log[o].body));
    ItemsCover(s.log, lo, hi, s.drawn);
    UnseenKeys(items, s.seen);
    NamelessCover(s.log, lo, hi, s.drawn, o);
    assert OnlyItem(Unseen(items, s.seen), s.rows, o, i);
  }

  lemma {:induction false} StaysHeld(s: State, a: Action, o: nat)
    requires InLog(s) && DrawsAreFresh(s) && HoldsOne(s, o)
    ensures HoldsOne(Next(s, a), o)
  {
    match a
    case Check =>
      if s.phase.Fetched? {
        var lo, hi := s.phase.lo, s.phase.hi;
        ItemsCover(s.log, lo, hi, s.drawn);
        UnseenKeys(ItemsOf(s.log, lo, hi, s.drawn), s.seen);
        if lo <= o < hi && s.log[o].Nameless? { ReadHoldsOne(s, lo, hi, o); }
      }
    case _ =>
  }

  lemma {:induction false} InsertAddsOne(rows: map<Key, Row>, unseen: seq<Item>, o: nat, i: Item)
    requires OnlyItem(unseen, rows, o, i)
    ensures RowsOf(Insert(rows, unseen), o) == RowsOf(rows, o) + {i.key} && i.key !in RowsOf(rows, o)
  {
    var rows' := Insert(rows, unseen);
    InsertKeys(rows, unseen);
    assert i.key in KeysOf(unseen);
    assert Item(i.key, rows'[i.key]) in unseen;
    forall k | k in RowsOf(rows', o) && k !in rows ensures k == i.key {
      assert Item(k, rows'[k]) in unseen;
    }
  }

  lemma {:induction false} InsertAddsNone(rows: map<Key, Row>, unseen: seq<Item>, o: nat)
    requires forall j :: j in unseen ==> j.row.offset != o
    ensures RowsOf(Insert(rows, unseen), o) == RowsOf(rows, o)
  {
    var rows' := Insert(rows, unseen);
    InsertKeys(rows, unseen);
    forall k | k in rows' && k !in rows ensures rows'[k].offset != o {
      assert Item(k, rows'[k]) in unseen;
    }
  }

  lemma {:induction false} StepStores(s: State, a: Action, o: nat)
    requires InLog(s) && HoldsOne(s, o) && (o < |s.log| ==> s.log[o].Nameless?)
    ensures |RowsOf(Next(s, a).rows, o)| == |RowsOf(s.rows, o)| + if Stores(s, a, o) then 1 else 0
  {
    if s.phase.Marked? && a == Persist {
      if s.phase.lo <= o < s.phase.hi {
        var i :| OnlyItem(s.phase.unseen, s.rows, o, i);
        InsertAddsOne(s.rows, s.phase.unseen, o, i);
      } else {
        InsertAddsNone(s.rows, s.phase.unseen, o);
      }
    } else {
      RowsOnlyByPersist(s, a);
    }
  }

  lemma {:induction false} RowsOnlyByPersist(s: State, a: Action)
    requires InLog(s) && !(s.phase.Marked? && a == Persist)
    ensures Next(s, a).rows == s.rows
  {
  }

  lemma {:induction false} AlwaysHoldsOne(actions: seq<Action>, o: nat)
    ensures HoldsOne(Run(actions), o)
  {
    if actions != [] {
      AlwaysHoldsOne(actions[..|actions| - 1], o);
      DrawsAreAlwaysFresh(actions[..|actions| - 1]);
      StaysHeld(Run(actions[..|actions| - 1]), actions[|actions| - 1], o);
    }
  }

  /** Over every run, an event without an id is stored exactly as often as a batch that holds it reaches
      its database commit, each time under a new id. */
  lemma {:induction false} NamelessCount(actions: seq<Action>, o: nat)
    requires o < |Run(actions).log| ==> Run(actions).log[o].Nameless?
    ensures |RowsOf(Run(actions).rows, o)| == TimesStored(actions, o)
  {
    if actions == [] {
      assert RowsOf(Run(actions).rows, o) == {};
    } else {
      var front, a := actions[..|actions| - 1], actions[|actions| - 1];
      LogNext(Run(front), a);
      NamelessCount(front, o);
      AlwaysHoldsOne(front, o);
      StepStores(Run(front), a, o);
    }
  }

  ghost predicate StoresAt(actions: seq<Action>, n: nat, o: nat)
    requires n < |actions|
  {
    Stores(Run(actions[..n]), actions[n], o)
  }

  lemma {:induction false} StoresBefore(front: seq<Action>, a: Action, n: nat, o: nat)
    requires n < |front|
    ensures StoresAt(front + [a], n, o) <==> StoresAt(front, n, o)
  {
    assert (front + [a])[..n] == front[..n];
  }

  lemma {:induction false} StoredOnceIff(actions: seq<Action>, o: nat)
    ensures TimesStored(actions, o) >= 1 <==> exists n :: 0 <= n < |actions| && StoresAt(actions, n, o)
  {
    if actions != [] {
      var front, a := actions[..|actions| - 1], actions[|actions| - 1];
      assert front + [a] == actions;
      StoredOnceIff(front, o);
      forall n | 0 <= n < |front| ensures StoresAt(actions, n, o) <==> StoresAt(front, n, o) {
        StoresBefore(front, a, n, o);
      }
      assert StoresAt(actions, |front|, o) <==> Stores(Run(front), a, o);
    }
  }

  /** So it is stored more than once exactly when two batches that hold it reach their database commits. */
  lemma {:induction false} StoredTwiceIff(actions: seq<Action>, o: nat)
    ensures TimesStored(actions, o) >= 2 <==>
      exists m, n :: 0 <= m < n < |actions| && StoresAt(actions, m, o) && StoresAt(actions, n, o)
  {
    if actions != [] {
      var front, a := actions[..|actions| - 1], actions[|actions| - 1];
      assert front + [a] == actions;
      StoredTwiceIff(front, o);
      StoredOnceIff(front, o);
      forall n | 0 <= n < |front| ensures StoresAt(actions, n, o) <==> StoresAt(front, n, o) {
        StoresBefore(front, a, n, o);
      }
      assert StoresAt(actions, |front|, o) <==> Stores(Run(front), a, o);
    }
  }

  /** "Stored once", for an event without an id: it has more than one row exactly then. */
  lemma {:induction false} DuplicatedIff(actions: seq<Action>, o: nat)
    requires NamelessAt(Run(actions).log, o)
    ensures |RowsOf(Run(actions).rows, o)| > 1 <==>
      exists m, n :: 0 <= m < n < |actions| && StoresAt(actions, m, o) && StoresAt(actions, n, o)
  {
    NamelessCount(actions, o);
    StoredTwiceIff(actions, o);
  }
}
