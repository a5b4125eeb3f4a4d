/** Sliding windows over Redis sorted sets (backend/app/detection/windows.py).

    A window is the sorted set stored under one key: members with scores, and the instant at which
    the whole key expires. Instants and window lengths are in microseconds. The random token that keeps equal values apart
    is the next number of a counter kept by the store. */
module Windows {
  import opened Text

  const SLACK: nat := 30_000_000
  const SEPARATOR: char := '\U{001F}'

  /** A member of a sorted set with its score; also, once decoded, an observed value with its stamp. */
  datatype Entry = Entry(value: string, score: int)

  /** A sorted set and the instant its key expires. */
  datatype Window = Window(entries: seq<Entry>, deadline: int)

  const EMPTY: Window := Window([], 0)

  // ---------------------------------------------------------------- members

  function Encode(value: string, token: nat): string {
    value + [SEPARATOR] + Decimal(token)
  }

  /** The part of a member in front of its first separator. */
  function Decode(member: string): string {
    if member == "" || member[0] == SEPARATOR then "" else [member[0]] + Decode(member[1..])
  }

  /** Decoding an encoded value cuts it at its own first separator; it comes back whole
      exactly when it has none. */
  lemma {:induction false} DecodeEncode(value: string, token: nat)
    ensures Decode(Encode(value, token)) == Decode(value)
    ensures Decode(value) == value <==> SEPARATOR !in value
  {
    var member := Encode(value, token);
    if value == "" {
      assert member[0] == SEPARATOR;
    } else {
      assert member[1..] == Encode(value[1..], token);
      assert value == [value[0]] + value[1..];
      DecodeEncode(value[1..], token);
    }
  }

  /** A member's last separator is the one in front of its token. */
  lemma {:induction false} LastSeparator(value: string, token: nat)
    ensures var m := Encode(value, token);
      m[|value|] == SEPARATOR && forall i :: |value| < i < |m| ==> m[i] != SEPARATOR
  {
    var m, d := Encode(value, token), Decimal(token);
    DecimalValue(token);
    forall i | |value| < i < |m| ensures m[i] != SEPARATOR {
      DigitAt(d, i - |value| - 1);
    }
  }

  /** Different tokens make different members, whatever the values. */
  lemma {:induction false} EncodeToken(v: string, t: nat, v': string, t': nat)
    requires Encode(v, t) == Encode(v', t')
    ensures t == t'
  {
    LastSeparator(v, t);
    LastSeparator(v', t');
    var m := Encode(v, t);
    assert Decimal(t) == m[|v| + 1..] && Decimal(t') == m[|v'| + 1..];
    DecimalInjective(t, t');
  }

  // ---------------------------------------------------------------- sorted-set commands

  /** ZREMRANGEBYSCORE key -inf cutoff */
  function Trim(entries: seq<Entry>, cutoff: int): (r: seq<Entry>)
    ensures |r| <= |entries|
  {
    if entries == [] then []
    else
      var last := entries[|entries| - 1];
      var kept := Trim(entries[..|entries| - 1], cutoff);
      if last.score > cutoff then kept + [last] else kept
  }

  lemma {:induction false} TrimMembers(entries: seq<Entry>, cutoff: int)
    ensures forall e :: e in Trim(entries, cutoff) <==> e in entries && e.score > cutoff
  {
    if entries != [] {
      TrimMembers(entries[..|entries| - 1], cutoff);
      assert entries == entries[..|entries| - 1] + [entries[|entries| - 1]];
    }
  }

  lemma {:induction false} TrimAppend(entries: seq<Entry>, e: Entry, cutoff: int)
    ensures Trim(entries + [e], cutoff) == if e.score > cutoff then Trim(entries, cutoff) + [e] else Trim(entries, cutoff)
  {
    assert (entries + [e])[..|entries|] == entries;
  }

  /** ZADD key score member: a member already present only changes its score. */
  function ZAdd(entries: seq<Entry>, member: string, score: int): seq<Entry> {
    if entries == [] then [Entry(member, score)]
    else if entries[0].value == member then [Entry(member, score)] + entries[1..]
    else [entries[0]] + ZAdd(entries[1..], member, score)
  }

  function Decoded(entries: seq<Entry>): (r: seq<Entry>)
    ensures |r| == |entries|
  {
    if entries == [] then []
    else
      var last := entries[|entries| - 1];
      Decoded(entries[..|entries| - 1]) + [Entry(Decode(last.value), last.score)]
  }

  lemma {:induction false} DecodedAppend(entries: seq<Entry>, e: Entry)
    ensures Decoded(entries + [e]) == Decoded(entries) + [Entry(Decode(e.value), e.score)]
  {
    assert (entries + [e])[..|entries|] == entries;
  }

  lemma {:induction false} TrimDecoded(entries: seq<Entry>, cutoff: int)
    ensures Decoded(Trim(entries, cutoff)) == Trim(Decoded(entries), cutoff)
  {
    if entries != [] {
      var front, last := entries[..|entries| - 1], entries[|entries| - 1];
      TrimDecoded(front, cutoff);
      TrimAppend(Decoded(front), Entry(Decode(last.value), last.score), cutoff);
      DecodedAppend(Trim(front, cutoff), last);
    }
  }

  lemma {:induction false} TrimAll(entries: seq<Entry>, cutoff: int)
    requires forall e :: e in entries ==> e.score <= cutoff
    ensures Trim(entries, cutoff) == []
  {
    if entries != [] { TrimAll(entries[..|entries| - 1], cutoff); }
  }

  lemma {:induction false} ZAddNew(entries: seq<Entry>, member: string, score: int)
    requires forall e :: e in entries ==> e.value != member
    ensures ZAdd(entries, member, score) == entries + [Entry(member, score)]
  {
    if entries != [] { ZAddNew(entries[1..], member, score); }
  }

  // ---------------------------------------------------------------- one key

  /** One use of a key: an addition stamped with event time, or a wall-clock measurement.
      `wall` is when the store is asked. */
  datatype Op = Add(value: string, stamp: int, wall: int) | Look(wall: int) {
    function Now(): int {
      if Add? then stamp else wall
    }

    function Cutoff(window: nat): int {
      Now() - window
    }
  }

  /** One use of a key that never expires. */
  function Step(entries: seq<Entry>, op: Op, window: nat): seq<Entry> {
    var kept := Trim(entries, op.Cutoff(window));
    if op.Add? then kept + [Entry(op.value, op.stamp)] else kept
  }

  /** One use of a key that expires `window` and 30 seconds after its last addition. */
  function StepExpiring(w: Window, op: Op, window: nat): Window {
    var entries := Step(if op.wall < w.deadline then w.entries else [], op, window);
    if op.Add? then Window(entries, op.wall + window + SLACK)
    else if entries == [] then EMPTY
    else Window(entries, w.deadline)
  }

  function Run(ops: seq<Op>, window: nat): seq<Entry> {
    if ops == [] then [] else Step(Run(ops[..|ops| - 1], window), ops[|ops| - 1], window)
  }

  function RunExpiring(ops: seq<Op>, window: nat): Window {
    if ops == [] then EMPTY else StepExpiring(RunExpiring(ops[..|ops| - 1], window), ops[|ops| - 1], window)
  }

  /** Use i is an addition whose stamp lies above every later use's cutoff. */
  ghost predicate Survives(ops: seq<Op>, window: nat, i: nat)
    requires i < |ops|
  {
    ops[i].Add? && forall j :: i < j < |ops| ==> ops[i].stamp > ops[j].Cutoff(window)
  }

  /** The additions among the first n uses that survive the whole history. */
  ghost function Survivors(ops: seq<Op>, window: nat, n: nat): seq<Entry>
    requires n <= |ops|
  {
    if n == 0 then []
    else
      var before := Survivors(ops, window, n - 1);
      if Survives(ops, window, n - 1) then before + [Entry(ops[n - 1].value, ops[n - 1].stamp)] else before
  }

  /** The additions in a history stamped later than `after`, in order: no trimming, no state. */
  function Recent(ops: seq<Op>, after: int): seq<Entry> {
    if ops == [] then []
    else
      var op, before := ops[|ops| - 1], Recent(ops[..|ops| - 1], after);
      if op.Add? && op.stamp > after then before + [Entry(op.value, op.stamp)] else before
  }

  lemma {:induction false} SurvivesStep(ops: seq<Op>, op: Op, window: nat, i: nat)
    requires i < |ops|
    ensures Survives(ops + [op], window, i) <==>
            Survives(ops, window, i) && ops[i].stamp > op.Cutoff(window)
  {
    var longer := ops + [op];
    assert longer[|ops|] == op;
    assert forall j :: i <= j < |ops| ==> longer[j] == ops[j];
  }

  lemma {:induction false} SurvivorsStep(ops: seq<Op>, op: Op, window: nat, n: nat)
    requires n <= |ops|
    ensures Survivors(ops + [op], window, n) == Trim(Survivors(ops, window, n), op.Cutoff(window))
  {
    if n > 0 {
      var i := n - 1;
      SurvivorsStep(ops, op, window, i);
      SurvivesStep(ops, op, window, i);
      if Survives(ops, window, i) {
        var e := Entry(ops[i].value, ops[i].stamp);
        assert (ops + [op])[i] == ops[i];
        TrimAppend(Survivors(ops, window, i), e, op.Cutoff(window));
      }
    }
  }

  /** After any history, in any order of stamps, an addition is in the set exactly when its stamp
      exceeds every later use's `now - window`. */
  lemma {:induction false} RunIsSurvivors(ops: seq<Op>, window: nat)
    ensures Run(ops, window) == Survivors(ops, window, |ops|)
  {
    if ops != [] {
      var front, op := ops[..|ops| - 1], ops[|ops| - 1];
      RunIsSurvivors(front, window);
      SurvivorsStep(front, op, window, |front|);
      assert front + [op] == ops;
    }
  }

  /** No use of the key carries a later clock than the last one. */
  ghost predicate LastIsLatest(ops: seq<Op>) {
    ops != [] && forall j :: 0 <= j < |ops| ==> ops[j].Now() <= ops[|ops| - 1].Now()
  }

  /** When the current use is the latest, the trimmed set is the half-open window
      (now - window, now] over the full history. */
  lemma {:induction false} RunIsRecent(ops: seq<Op>, window: nat)
    requires window > 0 && LastIsLatest(ops)
    ensures Run(ops, window) == Recent(ops, ops[|ops| - 1].Cutoff(window))
  {
    RunIsSurvivors(ops, window);
    SurvivorsRecent(ops, window, |ops|);
    assert ops[..|ops|] == ops;
  }

  lemma {:induction false} SurvivorsRecent(ops: seq<Op>, window: nat, n: nat)
    requires window > 0 && LastIsLatest(ops) && n <= |ops|
    ensures Survivors(ops, window, n) == Recent(ops[..n], ops[|ops| - 1].Cutoff(window))
  {
    if n > 0 {
      SurvivorsRecent(ops, window, n - 1);
      assert ops[..n][..n - 1] == ops[..n - 1];
      var i, last := n - 1, |ops| - 1;
      assert i < last ==> (Survives(ops, window, i) ==> ops[i].stamp > ops[last].Cutoff(window));
    }
  }

  /** The store is asked in wall-clock order, and every addition is stamped at most 30 seconds
      before it is made, never after. */
  ghost predicate Punctual(ops: seq<Op>) {
    && (forall i, j :: 0 <= i < j < |ops| ==> ops[i].wall <= ops[j].wall)
    && (forall i :: 0 <= i < |ops| && ops[i].Add? ==> ops[i].wall - 30_000_000 <= ops[i].stamp <= ops[i].wall)
  }

  /** Expiry cannot be observed: whenever the key is gone, the next trim would have emptied it. */
  lemma {:induction false} ExpiryUnobservable(ops: seq<Op>, window: nat)
    requires Punctual(ops)
    ensures RunExpiring(ops, window).entries == Run(ops, window)
  {
    ExpiryInvariant(ops, window);
  }

  lemma {:induction false} ExpiryInvariant(ops: seq<Op>, window: nat)
    requires Punctual(ops)
    ensures RunExpiring(ops, window).entries == Run(ops, window)
    ensures var w := RunExpiring(ops, window);
      forall e :: e in w.entries ==> e.score <= w.deadline - window - SLACK
    ensures var w := RunExpiring(ops, window);
      w.entries != [] ==> exists i :: 0 <= i < |ops| && w.deadline == ops[i].wall + window + SLACK
  {
    if ops != [] {
      var front, op := ops[..|ops| - 1], ops[|ops| - 1];
      ExpiryInvariant(front, window);
      var w := RunExpiring(front, window);
      TrimMembers(w.entries, op.Cutoff(window));
      if op.wall >= w.deadline {
        TrimAll(w.entries, op.Cutoff(window));
        assert Trim([], op.Cutoff(window)) == [];
      }
      if op.Add? {
        assert RunExpiring(ops, window).deadline == ops[|ops| - 1].wall + window + SLACK;
      }
    }
  }

  /** The 30 seconds of slack are exact: for every window and every longer delay there is a history in
      which an event that late finds the key expired and misses one that its window still covers. */
  lemma {:induction false} SlackIsTight(window: nat, late: nat)
    requires window > 0 && late > 30_000_000
    ensures var ops := [Add("root", 0, 0), Add("root", window - 1, window - 1 + late)];
      |Run(ops, window)| == 2 && |RunExpiring(ops, window).entries| == 1
  {
    var first, second, e := Add("root", 0, 0), Add("root", window - 1, window - 1 + late), Entry("root", 0);
    assert [first, second][..1] == [first] && [first][..0] == [];
    assert Trim([], 0 - window) == [];
    assert Run([first], window) == Step(Run([], window), first, window) == [e];
    assert RunExpiring([first], window) == Window([e], window + SLACK);
    assert [e][..0] == [] && Trim([e], -1) == [e];
    assert Run([first, second], window) == Step([e], second, window);
  }

  // ---------------------------------------------------------------- the store

  datatype Store = Store(sets: map<string, Window>, drawn: nat)

  function Get(st: Store, key: string): Window {
    if key in st.sets then st.sets[key] else EMPTY
  }

  function Live(st: Store, key: string, wall: int): seq<Entry> {
    if wall < Get(st, key).deadline then Get(st, key).entries else []
  }

  /** The store with one key rewritten. */
  function Put(st: Store, key: string, entries: seq<Entry>, deadline: int, drawn: nat): Store {
    Store(st.sets[key := Window(entries, deadline)], drawn)
  }

  function AddTo(st: Store, key: string, value: string, window: nat, now: int, wall: int): Store {
    var kept := Trim(Live(st, key, wall), now - window);
    var entries := ZAdd(kept, Encode(value, st.drawn), now);
    Put(st, key, entries, wall + window + SLACK, st.drawn + 1)
  }

  /** A key whose set becomes empty is deleted. */
  function LookAt(st: Store, key: string, window: nat, wall: int): Store {
    var kept := Trim(Live(st, key, wall), wall - window);
    if kept == [] then Store(st.sets - {key}, st.drawn)
    else Put(st, key, kept, Get(st, key).deadline, st.drawn)
  }

  /** The window under a key with its members decoded. */
  function Seen(st: Store, key: string): Window {
    Window(Decoded(Get(st, key).entries), Get(st, key).deadline)
  }

  /** Every member was encoded with a token drawn earlier. */
  ghost predicate Minted(st: Store) {
    forall key, e :: key in st.sets && e in st.sets[key].entries ==> MintedBefore(e.value, st.drawn)
  }

  ghost predicate MintedBefore(member: string, drawn: nat) {
    exists v: string, t: nat :: t < drawn && member == Encode(v, t)
  }

  lemma {:induction false} MintedMember(st: Store, key: string, wall: int, e: Entry, value: string)
    requires Minted(st) && e in Live(st, key, wall)
    ensures MintedBefore(e.value, st.drawn) && e.value != Encode(value, st.drawn)
  {
    assert e in st.sets[key].entries;
    var v: string, t: nat :| t < st.drawn && e.value == Encode(v, t);
    if e.value == Encode(value, st.drawn) { EncodeToken(v, t, value, st.drawn); }
  }

  /** What a use of a key finds in it after expiry and trimming. */
  function Left(w: Window, wall: int, cutoff: int): seq<Entry> {
    Trim(if wall < w.deadline then w.entries else [], cutoff)
  }

  /** The decoded view of a trimmed key is the trimmed decoded view. */
  lemma {:induction false} LiveDecoded(st: Store, key: string, wall: int, cutoff: int)
    ensures Left(Seen(st, key), wall, cutoff) == Decoded(Trim(Live(st, key, wall), cutoff))
  {
    TrimDecoded(Live(st, key, wall), cutoff);
  }

  lemma {:induction false} SeenAfterAppend(st: Store, key: string, kept: seq<Entry>, member: string,
                                           window: nat, now: int, wall: int, put: Store)
    requires kept == Trim(Live(st, key, wall), now - window)
    requires put == Put(st, key, kept + [Entry(member, now)], wall + window + SLACK, put.drawn)
    ensures Seen(put, key) == StepExpiring(Seen(st, key), Add(Decode(member), now, wall), window)
  {
    LiveDecoded(st, key, wall, now - window);
    SeenAfterPut(st, key, kept, member, window, now, wall, put);
  }

  lemma {:induction false} SeenAfterPut(st: Store, key: string, kept: seq<Entry>, member: string,
                                        window: nat, now: int, wall: int, put: Store)
    requires Decoded(kept) == Left(Seen(st, key), wall, now - window)
    requires put == Put(st, key, kept + [Entry(member, now)], wall + window + SLACK, put.drawn)
    ensures Seen(put, key) == StepExpiring(Seen(st, key), Add(Decode(member), now, wall), window)
  {
    AppendedStep(Seen(st, key), kept, member, window, now, wall);
    SeenPut(st, key, kept + [Entry(member, now)], wall + window + SLACK, put.drawn);
  }

  /** The same for the key's decoded view alone. */
  lemma {:induction false} AppendedStep(w: Window, kept: seq<Entry>, member: string, window: nat, now: int, wall: int)
    requires Decoded(kept) == Left(w, wall, now - window)
    ensures Window(Decoded(kept + [Entry(member, now)]), wall + window + SLACK) ==
            StepExpiring(w, Add(Decode(member), now, wall), window)
  {
    DecodedAppend(kept, Entry(member, now));
    AddStep(w, Decoded(kept), Decode(member), now, wall, window);
  }

  lemma {:induction false} SeenPut(st: Store, key: string, entries: seq<Entry>, deadline: int, drawn: nat)
    ensures Seen(Put(st, key, entries, deadline, drawn), key) == Window(Decoded(entries), deadline)
  {
  }

  lemma {:induction false} AddStep(w: Window, kept: seq<Entry>, value: string, now: int, wall: int, window: nat)
    requires kept == Left(w, wall, now - window)
    ensures StepExpiring(w, Add(value, now, wall), window) ==
            Window(kept + [Entry(value, now)], wall + window + SLACK)
  {
  }

  lemma {:induction false} LookStep(w: Window, kept: seq<Entry>, wall: int, window: nat)
    requires kept == Left(w, wall, wall - window)
    ensures StepExpiring(w, Look(wall), window) == if kept == [] then EMPTY else Window(kept, w.deadline)
  {
  }

  lemma {:induction false} SeenAfterLook(st: Store, key: string, window: nat, wall: int)
    ensures Seen(LookAt(st, key, window, wall), key) == StepExpiring(Seen(st, key), Look(wall), window)
  {
    var kept, w := Trim(Live(st, key, wall), wall - window), Seen(st, key);
    LiveDecoded(st, key, wall, wall - window);
    LookStep(w, Decoded(kept), wall, window);
    if kept == [] {
      SeenGone(st, key);
    } else {
      SeenPut(st, key, kept, Get(st, key).deadline, st.drawn);
      assert w.deadline == Get(st, key).deadline;
    }
  }

  lemma {:induction false} SeenGone(st: Store, key: string)
    ensures Seen(Store(st.sets - {key}, st.drawn), key) == EMPTY
  {
  }

  /** What one command does to the store: the key it names makes one step, no other key changes. */
  lemma {:induction false} AddToSteps(st: Store, key: string, value: string, window: nat, now: int, wall: int)
    requires Minted(st)
    ensures var st' := AddTo(st, key, value, window, now, wall);
      && Minted(st')
      && Seen(st', key) == StepExpiring(Seen(st, key), Add(Decode(value), now, wall), window)
      && forall k :: k != key ==> Get(st', k) == Get(st, k)
  {
    AddToAppends(st, key, value, window, now, wall);
    var kept := Trim(Live(st, key, wall), now - window);
    SeenAfterAppend(st, key, kept, Encode(value, st.drawn), window, now, wall, AddTo(st, key, value, window, now, wall));
    DecodeEncode(value, st.drawn);
  }

  lemma {:induction false} AddToAppends(st: Store, key: string, value: string, window: nat, now: int, wall: int)
    requires Minted(st)
    ensures var st' := AddTo(st, key, value, window, now, wall);
      && Minted(st')
      && Get(st', key).entries ==
         Trim(Live(st, key, wall), now - window) + [Entry(Encode(value, st.drawn), now)]
  {
    var live, member := Live(st, key, wall), Encode(value, st.drawn);
    var kept := Trim(live, now - window);
    TrimMembers(live, now - window);
    forall e | e in live ensures MintedBefore(e.value, st.drawn) && e.value != member {
      MintedMember(st, key, wall, e, value);
    }
    ZAddNew(kept, member, now);
    MintedAfter(st, key, Window(kept + [Entry(member, now)], wall + window + SLACK), st.drawn + 1);
  }

  lemma {:induction false} MintedAfter(st: Store, key: string, w: Window, drawn: nat)
    requires Minted(st) && st.drawn <= drawn
    requires forall e :: e in w.entries ==> MintedBefore(e.value, st.drawn) || MintedBefore(e.value, drawn)
    ensures Minted(Store(st.sets[key := w], drawn))
  {
    var st' := Store(st.sets[key := w], drawn);
    forall k, e | k in st'.sets && e in st'.sets[k].entries ensures MintedBefore(e.value, drawn) {
      if k != key { assert k in st.sets && e in st.sets[k].entries; }
    }
  }

  lemma {:induction false} LookAtSteps(st: Store, key: string, window: nat, wall: int)
    requires Minted(st)
    ensures var st' := LookAt(st, key, window, wall);
      && Minted(st')
      && Seen(st', key) == StepExpiring(Seen(st, key), Look(wall), window)
      && forall k :: k != key ==> Get(st', k) == Get(st, k)
  {
    LookAtMinted(st, key, window, wall);
    SeenAfterLook(st, key, window, wall);
  }

  lemma {:induction false} LookAtMinted(st: Store, key: string, window: nat, wall: int)
    requires Minted(st)
    ensures Minted(LookAt(st, key, window, wall))
  {
    var kept := Trim(Live(st, key, wall), wall - window);
    if kept != [] {
      TrimMembers(Live(st, key, wall), wall - window);
      forall e | e in kept ensures MintedBefore(e.value, st.drawn) {
        assert e in st.sets[key].entries;
      }
      MintedAfter(st, key, Window(kept, Get(st, key).deadline), st.drawn);
    }
  }

  // ---------------------------------------------------------------- histories over many keys

  /** A command on one of the store's keys. */
  datatype Command = Command(key: string, op: Op, window: nat)

  function Execute(st: Store, c: Command): Store {
    match c.op
    case Add(value, stamp, wall) => AddTo(st, c.key, value, c.window, stamp, wall)
    case Look(wall) => LookAt(st, c.key, c.window, wall)
  }

  function ExecuteAll(st: Store, cs: seq<Command>): Store {
    if cs == [] then st else Execute(ExecuteAll(st, cs[..|cs| - 1]), cs[|cs| - 1])
  }

  /** The uses of one key in a history, with values as they will be read back. */
  function UsesOf(cs: seq<Command>, key: string): seq<Op> {
    if cs == [] then []
    else
      var c, before := cs[|cs| - 1], UsesOf(cs[..|cs| - 1], key);
      if c.key != key then before
      else before + [if c.op.Add? then c.op.(value := Decode(c.op.value)) else c.op]
  }

  /** However commands on different keys interleave, each key holds what its own history gives. */
  lemma {:induction false} EachKeyOnItsOwn(cs: seq<Command>, key: string, window: nat)
    requires forall c :: c in cs && c.key == key ==> c.window == window
    ensures var st := ExecuteAll(Store(map[], 0), cs);
      Minted(st) && Seen(st, key) == RunExpiring(UsesOf(cs, key), window)
  {
    if cs != [] {
      var front, c := cs[..|cs| - 1], cs[|cs| - 1];
      EachKeyOnItsOwn(front, key, window);
      var st := ExecuteAll(Store(map[], 0), front);
      match c.op {
        case Add(value, stamp, wall) => AddToSteps(st, c.key, value, c.window, stamp, wall);
        case Look(wall) => LookAtSteps(st, c.key, c.window, wall);
      }
      var uses := UsesOf(cs, key);
      if c.key == key {
        assert uses[..|uses| - 1] == UsesOf(front, key);
      } else {
        assert uses == UsesOf(front, key);
      }
    }
  }

  // ---------------------------------------------------------------- results

  /** The set of unique values is kept as its sorted listing. */
  datatype WindowResult = WindowResult(count: nat, uniqueValues: seq<string>, oldest: int, newest: int) {
    function Span(): int {
      if newest > oldest then newest - oldest else 0
    }
  }

  function Oldest(entries: seq<Entry>): int
    requires entries != []
  {
    if |entries| == 1 then entries[0].score
    else
      var rest := Oldest(entries[1..]);
      if entries[0].score < rest then entries[0].score else rest
  }

  function Newest(entries: seq<Entry>): int
    requires entries != []
  {
    if |entries| == 1 then entries[0].score
    else
      var rest := Newest(entries[1..]);
      if entries[0].score > rest then entries[0].score else rest
  }

  function Values(entries: seq<Entry>): seq<string> {
    if entries == [] then [] else Values(entries[..|entries| - 1]) + [entries[|entries| - 1].value]
  }

  /** What a detector is told about a window's decoded entries. */
  function ToResult(entries: seq<Entry>, now: int): WindowResult {
    if entries == [] then WindowResult(0, [], now, now)
    else WindowResult(|entries|, SortDistinct(Values(entries)), Oldest(entries), Newest(entries))
  }

  function Amount(value: string): int {
    match Parse(value)
    case Some(n) => n
    case None => 0
  }

  /** The sum of the amounts written in the entries, skipping what is no number. */
  function Total(entries: seq<Entry>): int {
    if entries == [] then 0
    else Total(entries[..|entries| - 1]) + Amount(entries[|entries| - 1].value)
  }

  lemma {:induction false} TotalAppend(entries: seq<Entry>, e: Entry)
    ensures Total(entries + [e]) == Total(entries) + Amount(e.value)
  {
    assert (entries + [e])[..|entries|] == entries;
  }

  lemma {:induction false} TotalMore(entries: seq<Entry>, i: nat)
    requires i < |entries|
    ensures Total(Decoded(entries[..i + 1])) == Total(Decoded(entries[..i])) + Amount(Decode(entries[i].value))
  {
    assert entries[..i + 1] == entries[..i] + [entries[i]];
    DecodedAppend(entries[..i], entries[i]);
    TotalAppend(Decoded(entries[..i]), Entry(Decode(entries[i].value), entries[i].score));
  }

  /** Every score lies between those of two of the entries. */
  predicate Between(entries: seq<Entry>, oldest: int, newest: int) {
    exists e, f :: e in entries && f in entries && e.score == oldest && f.score == newest
      && forall g :: g in entries ==> oldest <= g.score <= newest
  }

  lemma {:induction false} OldestToNewest(entries: seq<Entry>)
    requires entries != []
    ensures Between(entries, Oldest(entries), Newest(entries))
  {
    assert entries == [entries[0]] + entries[1..];
    if |entries| > 1 {
      OldestToNewest(entries[1..]);
      var e, f :| e in entries[1..] && f in entries[1..] && e.score == Oldest(entries[1..]) && f.score == Newest(entries[1..]);
      var first := entries[0];
      var least, greatest := if first.score < e.score then first else e, if first.score > f.score then first else f;
      assert least in entries && greatest in entries;
      assert least.score == Oldest(entries) && greatest.score == Newest(entries);
    } else {
      assert entries[0] in entries;
    }
  }

  lemma {:induction false} ValuesAre(entries: seq<Entry>)
    ensures Elements(Values(entries)) == set e | e in entries :: e.value
  {
    if entries != [] {
      var front, last := entries[..|entries| - 1], entries[|entries| - 1];
      ValuesAre(front);
      assert entries == front + [last];
    }
  }

  /** A result tells the number of entries, their distinct values in order, the least and the greatest
      score, and so how far the scores lie apart. */
  lemma {:induction false} ResultSays(entries: seq<Entry>, now: int)
    requires entries != []
    ensures var r := ToResult(entries, now);
      && (r.count, r.Span(), Elements(r.uniqueValues)) == (|entries|, r.newest - r.oldest, set e | e in entries :: e.value)
      && Between(entries, r.oldest, r.newest) && Ascending(r.uniqueValues)
  {
    OldestToNewest(entries);
    ValuesAre(entries);
    SortDistinctSorts(Values(entries));
  }

  class WindowStore {
    const namespace: string
    var sets: map<string, Window>
    var drawn: nat

    constructor (namespace: string := "siem:win")
      ensures State() == Store(map[], 0) && this.namespace == namespace
    {
      this.namespace := namespace;
      sets, drawn := map[], 0;
    }

    function State(): Store
      reads this
    {
      Store(sets, drawn)
    }

    function Key(name: string, entity: string): string {
      namespace + ":" + name + ":" + entity
    }

    /** Trims, adds and moves the deadline; the key's encoded entries. */
    method Add(key: string, value: string, window: nat, now: int, wall: int) returns (entries: seq<Entry>)
      modifies this
      ensures State() == AddTo(old(State()), key, value, window, now, wall)
      ensures Decoded(entries) == Seen(State(), key).entries
    {
      var kept := Trim(Live(State(), key, wall), now - window);
      entries := ZAdd(kept, Encode(value, drawn), now);
      sets, drawn := sets[key := Window(entries, wall + window + SLACK)], drawn + 1;
    }

    method AddAndMeasure(name: string, entity: string, value: string, window: nat, now: int, wall: int)
      returns (result: WindowResult)
      modifies this
      ensures State() == AddTo(old(State()), Key(name, entity), value, window, now, wall)
      ensures result == ToResult(Seen(State(), Key(name, entity)).entries, now)
    {
      var entries := Add(Key(name, entity), value, window, now, wall);
      result := ToResult(Decoded(entries), now);
    }

    method Measure(name: string, entity: string, window: nat, wall: int) returns (result: WindowResult)
      modifies this
      ensures State() == LookAt(old(State()), Key(name, entity), window, wall)
      ensures result == ToResult(Seen(State(), Key(name, entity)).entries, wall)
    {
      var key, cutoff := Key(name, entity), wall - window;
      var kept := Trim(Live(State(), key, wall), cutoff);
      if kept == [] {
        sets := sets - {key};
      } else {
        sets := sets[key := sets[key].(entries := kept)];
      }
      result := ToResult(Decoded(kept), wall);
    }

    static method SumAmounts(entries: seq<Entry>) returns (total: int)
      ensures total == Total(Decoded(entries))
    {
      total := 0;
      for i := 0 to |entries|
        invariant total == Total(Decoded(entries[..i]))
      {
        TotalMore(entries, i);
        match Parse(Decode(entries[i].value)) {
          case Some(n) => total := total + n;
          case None =>
        }
      }
      assert entries[..|entries|] == entries;
    }

    method IncrSum(name: string, entity: string, amount: int, window: nat, now: int, wall: int)
      returns (total: int)
      modifies this
      ensures State() == AddTo(old(State()), Key(name, entity), Render(amount), window, now, wall)
      ensures total == Total(Seen(State(), Key(name, entity)).entries)
    {
      var entries := Add(Key(name, entity), Render(amount), window, now, wall);
      total := SumAmounts(entries);
    }
  }
}
