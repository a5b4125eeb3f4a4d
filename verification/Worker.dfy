/** Worker: the consuming loop, with the exceptions it catches, as a run of the delivery protocol
    (backend/app/worker.py, backend/app/streaming/kafka.py). */
module Worker {
  import opened Text
  import opened Delivery

  /** One turn of the loop: what arrived before it, how many records the poll may take, and after how
      many of the five steps that follow the poll an exception is raised; five or more is no exception. */
  datatype Round = Round(arrivals: seq<Message>, max: nat, raisesAfter: nat)

  const CLEAN := 5

  /** The first n of the four steps of process_batch; one that does not apply changes nothing. */
  function Processed(s: State, n: nat): (t: State)
    requires InLog(s)
    ensures InLog(t)
  {
    if n == 0 then s
    else if n == 1 then Next(s, Check)
    else if n == 2 then Next(Next(s, Check), Mark)
    else if n == 3 then Next(Next(Next(s, Check), Mark), Persist)
    else Next(Next(Next(Next(s, Check), Mark), Persist), Publish)
  }

  function Turned(s: State, max: nat, raisesAfter: nat): (t: State)
    requires InLog(s)
    ensures InLog(t)
  {
    Next(Processed(Next(s, Fetch(max)), raisesAfter), if raisesAfter < CLEAN then Fail else Commit)
  }

  function Arrived(s: State, arrivals: seq<Message>): State {
    s.(log := s.log + arrivals)
  }

  function TurnedAll(s: State, rounds: seq<Round>): (t: State)
    requires InLog(s)
    ensures InLog(t)
  {
    if rounds == [] then s
    else
      var before, r := TurnedAll(s, rounds[..|rounds| - 1]), rounds[|rounds| - 1];
      Turned(Arrived(before, r.arrivals), r.max, r.raisesAfter)
  }

  /** An idle worker has nothing to do but poll. */
  lemma {:induction false} IdleStays(s: State, a: Action)
    requires InLog(s) && s.phase.Idle?
    requires a == Check || a == Mark || a == Persist || a == Publish || a == Commit || a == Fail
    ensures Next(s, a) == s
  {
  }

  /** A batch with nothing left to store only awaits its commit. */
  lemma {:induction false} DoneStays(s: State, a: Action)
    requires InLog(s) && s.phase.Done? && (a == Mark || a == Persist || a == Publish)
    ensures Next(s, a) == s
  {
  }

  lemma {:induction false} IdleTurn(s: State, max: nat, raisesAfter: nat)
    requires InLog(s) && Next(s, Fetch(max)).phase.Idle?
    ensures Turned(s, max, raisesAfter) == Next(s, Fetch(max))
  {
    var t := Next(s, Fetch(max));
    IdleStays(t, Check);
    IdleStays(t, Mark);
    IdleStays(t, Persist);
    IdleStays(t, Publish);
    IdleStays(t, Commit);
    IdleStays(t, Fail);
  }

  lemma {:induction false} NothingUnseen(s: State, n: nat)
    requires InLog(s) && Next(s, Check).phase.Done? && 0 < n
    ensures Processed(s, n) == Next(s, Check)
  {
    var t := Next(s, Check);
    DoneStays(t, Mark);
    DoneStays(t, Persist);
    DoneStays(t, Publish);
  }

  lemma {:induction false} CheckLeadsOn(s: State)
    requires InLog(s) && NoEscape(s) && (s.phase.Idle? || s.phase.Fetched?)
    ensures var t := Next(s, Check); NoEscape(t) && (t.phase.Idle? || t.phase.Checked? || t.phase.Done?)
  {
  }

  lemma {:induction false} PersistLeadsOn(s: State)
    requires InLog(s) && NoEscape(s) && (s.phase.Idle? || s.phase.Checked? || s.phase.Done?)
    ensures var t := Next(Next(s, Mark), Persist); NoEscape(t) && (t.phase.Idle? || t.phase.Persisted? || t.phase.Done?)
  {
  }

  lemma {:induction false} LateTurn(s: State)
    requires InLog(s) && NoEscape(s) && (s.phase.Idle? || s.phase.Persisted? || s.phase.Done?)
    ensures NoEscape(Next(s, Fail)) && Next(s, Fail).phase.Idle?
    ensures var t := Next(s, Publish); NoEscape(t) && NoEscape(Next(t, Fail)) && Next(t, Fail).phase.Idle?
    ensures var t := Next(Next(s, Publish), Commit); NoEscape(t) && t.phase.Idle?
  {
  }

  lemma {:induction false} HarmlessTurn(s: State, max: nat, raisesAfter: nat)
    requires InLog(s) && s.phase.Idle? && NoEscape(s) && raisesAfter >= 3
    ensures Turned(s, max, raisesAfter).phase.Idle? && NoEscape(Turned(s, max, raisesAfter))
  {
    var checked := Next(Next(s, Fetch(max)), Check);
    CheckLeadsOn(Next(s, Fetch(max)));
    PersistLeadsOn(checked);
    LateTurn(Next(Next(checked, Mark), Persist));
  }

  lemma {:induction false} ArrivedInv(s: State, arrivals: seq<Message>)
    requires Inv(s)
    ensures Inv(Arrived(s, arrivals))
  {
    if arrivals == [] {
      assert Arrived(s, arrivals) == s;
    } else {
      var front, m := arrivals[..|arrivals| - 1], arrivals[|arrivals| - 1];
      ArrivedInv(s, front);
      NextInv(Arrived(s, front), Produce(m));
      assert arrivals == front + [m];
      assert s.log + front + [m] == s.log + arrivals;
    }
  }

  lemma {:induction false} TurnedAllInv(s: State, rounds: seq<Round>)
    requires Inv(s)
    ensures Inv(TurnedAll(s, rounds))
  {
    if rounds != [] {
      var front, r := rounds[..|rounds| - 1], rounds[|rounds| - 1];
      TurnedAllInv(s, front);
      var arrived := Arrived(TurnedAll(s, front), r.arrivals);
      ArrivedInv(TurnedAll(s, front), r.arrivals);
      NextInv(arrived, Fetch(r.max));
      var fetched := Next(arrived, Fetch(r.max));
      NextInv(fetched, Check);
      NextInv(Next(fetched, Check), Mark);
      NextInv(Next(Next(fetched, Check), Mark), Persist);
      NextInv(Next(Next(Next(fetched, Check), Mark), Persist), Publish);
      NextInv(Processed(Next(arrived, Fetch(r.max)), r.raisesAfter), if r.raisesAfter < CLEAN then Fail else Commit);
    }
  }

  /** Rounds whose exceptions, if any, come after the database commit cost nothing. */
  lemma {:induction false} LateExceptionsCostNothing(s: State, rounds: seq<Round>)
    requires InLog(s) && s.phase.Idle? && NoEscape(s)
    requires forall i :: 0 <= i < |rounds| ==> rounds[i].raisesAfter >= 3
    ensures TurnedAll(s, rounds).phase.Idle? && NoEscape(TurnedAll(s, rounds))
  {
    if rounds != [] {
      var front, r := rounds[..|rounds| - 1], rounds[|rounds| - 1];
      LateExceptionsCostNothing(s, front);
      HarmlessTurn(Arrived(TurnedAll(s, front), r.arrivals), r.max, r.raisesAfter);
    }
  }

  /** The records lo to hi that decode. */
  function Decodable(log: seq<Message>, lo: nat, hi: nat): seq<Message>
    requires lo <= hi <= |log|
  {
    if lo == hi then []
    else
      var before, last := Decodable(log, lo, hi - 1), log[hi - 1];
      if last.Garbage? then before else before + [last]
  }

  lemma {:induction false} NothingDecodes(log: seq<Message>, lo: nat, hi: nat)
    requires lo <= hi <= |log|
    ensures Decodable(log, lo, hi) == [] <==> OnlyGarbage(log, lo, hi)
  {
    if lo < hi { NothingDecodes(log, lo, hi - 1); }
  }

  /** The part of a state that the broker and the stores hold. */
  datatype View = View(log: seq<Message>, committed: Option<nat>, position: nat, seen: set<Key>, rows: map<Key, Row>, drawn: nat)

  function ViewOf(s: State): View {
    View(s.log, s.committed, s.position, s.seen, s.rows, s.drawn)
  }

  /** The broker, the consumer, the seen-id set and the event table, as the worker's calls change them. */
  class Consumer {
    var log: seq<Message>
    var committed: Option<nat>
    var position: nat
    var seen: set<Key>
    var rows: map<Key, Row>
    var drawn: nat
    var consumed: nat
    ghost var s: State

    ghost function Real(): View
      reads this
    {
      View(log, committed, position, seen, rows, drawn)
    }

    /** The real state is the one the protocol has got to. */
    ghost predicate Follows()
      reads this
    {
      InLog(s) && Real() == ViewOf(s)
    }

    ghost predicate Valid()
      reads this
    {
      Follows() && s.phase.Idle?
    }

    constructor ()
      ensures Valid() && s == START && consumed == 0
    {
      log, committed, position, seen, rows, drawn, consumed := [], None, 0, {}, map[], 0, 0;
      s := START;
    }

    method Receive(m: Message)
      requires Valid()
      modifies this`log, this`s
      ensures Valid() && s == Next(old(s), Produce(m))
    {
      log := log + [m];
      s := Next(s, Produce(m));
    }

    method ReceiveAll(arrivals: seq<Message>)
      requires Valid()
      modifies this`log, this`s
      ensures Valid() && s == Arrived(old(s), arrivals)
    {
      for j := 0 to |arrivals|
        invariant Valid() && s == Arrived(old(s), arrivals[..j])
      {
        Receive(arrivals[j]);
      }
      assert arrivals[..|arrivals|] == arrivals;
    }

    /** getmany and decoding; a batch with nothing decodable is not handed on. */
    method Poll(max: nat) returns (batch: seq<Message>)
      requires Valid()
      modifies this`position, this`s
      ensures Follows() && s == Next(old(s), Fetch(max))
      ensures batch == Decodable(log, old(position), position)
      ensures s.phase == if batch == [] then Idle else Fetched(old(position), position)
      ensures position == if old(position) + max <= |log| then old(position) + max else |log|
    {
      var lo := position;
      position := if position + max <= |log| then position + max else |log|;
      batch := [];
      for o := lo to position
        invariant batch == Decodable(log, lo, o)
      {
        if !log[o].Garbage? { batch := batch + [log[o]]; }
      }
      NothingDecodes(log, lo, position);
      s := Next(s, Fetch(max));
    }

    /** Validation, then the ids the seen set does not hold. */
    method Filter(lo: nat) returns (unseen: seq<Item>)
      requires Follows() && s.phase == Fetched(lo, position) && lo <= position <= |log|
      modifies this`drawn, this`s
      ensures Follows() && s == Next(old(s), Check)
      ensures s.phase == if unseen == [] then Done(lo, position) else Checked(lo, position, unseen)
    {
      var items := [];
      for o := lo to position
        invariant items == ItemsOf(log, lo, o, drawn)
      {
        match log[o]
        case Known(id, body) => items := items + [Item(Named(id), Delivery.Row(o, body))];
        case Nameless(body) => items := items + [Item(Drawn(drawn + o - lo), Delivery.Row(o, body))];
        case _ =>
      }
      unseen := [];
      for i := 0 to |items|
        invariant unseen == Unseen(items[..i], seen)
      {
        assert items[..i + 1][..i] == items[..i];
        if items[i].key !in seen { unseen := unseen + [items[i]]; }
      }
      assert items[..|items|] == items;
      drawn := drawn + (position - lo);
      s := Next(s, Check);
    }

    method MarkSeen(lo: nat, unseen: seq<Item>)
      requires Follows() && s.phase == Checked(lo, position, unseen)
      modifies this`seen, this`s
      ensures Follows() && s == Next(old(s), Mark) && s.phase == Marked(lo, position, unseen)
    {
      seen := seen + KeysOf(unseen);
      s := Next(s, Mark);
    }

    /** bulk_insert: a conflicting id leaves the stored row alone. */
    method Store(lo: nat, unseen: seq<Item>)
      requires Follows() && s.phase == Marked(lo, position, unseen)
      modifies this`rows, this`s
      ensures Follows() && s == Next(old(s), Persist) && s.phase == Persisted(lo, position)
    {
      for i := 0 to |unseen|
        invariant rows == Delivery.Insert(old(rows), unseen[..i])
        invariant s == old(s)
      {
        assert unseen[..i + 1][..i] == unseen[..i];
        if unseen[i].key !in rows { rows := rows[unseen[i].key := unseen[i].row]; }
      }
      assert unseen[..|unseen|] == unseen;
      s := Next(s, Persist);
    }

    method CommitOffset()
      requires Follows() && s.phase.Done?
      modifies this`committed, this`s
      ensures Valid() && s == Next(old(s), Commit) && committed == Some(position)
    {
      committed := Some(position);
      s := Next(s, Commit);
    }

    /** Crash and restart. */
    method Restart()
      requires Follows()
      modifies this`position, this`s
      ensures Valid() && s == Next(old(s), Delivery.Restart)
    {
      position := if committed.Some? then committed.value else |log|;
      s := Next(s, Delivery.Restart);
    }

    /** process_batch, with an exception after n of its four steps if n is less than five. */
    method ProcessBatch(lo: nat, n: nat)
      requires Follows() && s.phase == Fetched(lo, position) && lo <= position <= |log|
      modifies this`seen, this`rows, this`drawn, this`s
      ensures Follows() && s == Processed(old(s), n)
      ensures n >= CLEAN ==> s.phase.Done?
    {
      if n == 0 { return; }
      var unseen := Filter(lo);
      if unseen == [] {
        NothingUnseen(old(s), n);
        return;
      }
      if n == 1 { return; }
      MarkSeen(lo, unseen);
      if n == 2 { return; }
      Store(lo, unseen);
      if n == 3 { return; }
      s := Next(s, Publish);
    }

    /** One turn of the loop over batches: process, commit and count, or catch the exception and go on. */
    method Turn(max: nat, raisesAfter: nat)
      requires Valid()
      modifies this
      ensures Valid() && log == old(log)
      ensures s == Turned(old(s), max, raisesAfter)
      ensures consumed == old(consumed) +
        if raisesAfter < CLEAN then 0 else |Decodable(log, old(position), position)|
    {
      var lo := position;
      var batch := Poll(max);
      if batch == [] {
        IdleTurn(old(s), max, raisesAfter);
        return;
      }
      ProcessBatch(lo, raisesAfter);
      if raisesAfter < CLEAN {
        s := Next(s, Fail);
      } else {
        CommitOffset();
        consumed := consumed + |batch|;
      }
    }

    /** The worker's loop: whatever arrives and wherever exceptions strike, an event with its own id
        below the committed offset is stored or escaped in one of the three ways; and if no exception
        comes before a database commit, every one is stored. */
    method Work(rounds: seq<Round>)
      requires Valid() && Inv(s)
      modifies this
      ensures Valid() && Inv(s) && s == TurnedAll(old(s), rounds)
      ensures committed.Some? ==> forall o :: 0 <= o < committed.value && log[o].Known? ==> Settled(s, o)
      ensures NoEscape(s) && committed.Some? ==>
        forall o :: 0 <= o < committed.value && log[o].Known? ==> Named(log[o].id) in rows
      ensures NoEscape(old(s)) && (forall i :: 0 <= i < |rounds| ==> rounds[i].raisesAfter >= 3) ==> NoEscape(s)
    {
      for i := 0 to |rounds|
        invariant Valid() && s == TurnedAll(old(s), rounds[..i])
      {
        assert rounds[..i + 1][..i] == rounds[..i];
        ReceiveAll(rounds[i].arrivals);
        Turn(rounds[i].max, rounds[i].raisesAfter);
      }
      assert rounds[..|rounds|] == rounds;
      TurnedAllInv(old(s), rounds);
      if NoEscape(old(s)) && forall i :: 0 <= i < |rounds| ==> rounds[i].raisesAfter >= 3 {
        LateExceptionsCostNothing(old(s), rounds);
      }
    }
  }

  /** A partition's next position, and its end if the broker reported one. */
  datatype Partition = Partition(position: nat, end: Option<nat>)

  function Behind(p: Partition): nat {
    if p.end.Some? && p.end.value > p.position then p.end.value - p.position else 0
  }

  function TotalBehind(parts: seq<Partition>): nat {
    if parts == [] then 0 else TotalBehind(parts[..|parts| - 1]) + Behind(parts[|parts| - 1])
  }

  lemma {:induction false} TotalMoves(parts: seq<Partition>, i: nat, p: Partition)
    requires i < |parts|
    ensures TotalBehind(parts[i := p]) == TotalBehind(parts) - Behind(parts[i]) + Behind(p)
  {
    var k := |parts| - 1;
    if i < k {
      TotalMoves(parts[..k], i, p);
      assert parts[i := p][..k] == parts[..k][i := p];
    } else {
      assert parts[i := p][..k] == parts[..k];
    }
  }

  /** Reading so many records of a partition lowers the lag by their number, and so many more at its end
      raise it by theirs. */
  lemma {:induction false} LagFollows(parts: seq<Partition>, i: nat, read: nat, more: nat)
    requires i < |parts| && parts[i].end.Some? && parts[i].position + read <= parts[i].end.value
    ensures var p := Partition(parts[i].position + read, Some(parts[i].end.value + more));
      TotalBehind(parts[i := p]) == TotalBehind(parts) - read + more
  {
    TotalMoves(parts, i, Partition(parts[i].position + read, Some(parts[i].end.value + more)));
  }

  /** Records not yet consumed, if the end offsets could be fetched; zero exactly when every partition
      has been read to its end. */
  method Lag(parts: seq<Partition>, fetched: bool) returns (lag: Option<nat>)
    ensures lag == if parts == [] || !fetched then None else Some(TotalBehind(parts))
    ensures lag.Some? ==>
      (lag.value == 0 <==> forall i :: 0 <= i < |parts| && parts[i].end.Some? ==> parts[i].end.value <= parts[i].position)
  {
    if parts == [] || !fetched { return None; }
    var total := 0;
    for i := 0 to |parts|
      invariant total == TotalBehind(parts[..i])
      invariant total == 0 <==> forall j :: 0 <= j < i && parts[j].end.Some? ==> parts[j].end.value <= parts[j].position
    {
      assert parts[..i + 1][..i] == parts[..i];
      total := total + Behind(parts[i]);
    }
    assert parts[..|parts|] == parts;
    return Some(total);
  }
}
