/** RateLimit: the fixed-window request limiter, with its counters in an expiring store
    (backend/app/core/security.py). */
module RateLimit {
  import opened Text

  const SECOND := 1_000_000
  const WINDOW := 60_000_000
  const TTL := 90_000_000

  /** How the store answers a request: as it should; not at all; or only up to the increment, its
      connection failing when the time to live is set. */
  datatype Answer = Normal | Unreachable | CutOff

  datatype Request = Request(client: string, api: bool, at: int, answer: Answer)

  datatype Key = Key(client: string, window: int)

  /** A count, and when it expires if a time to live was set. */
  datatype Counter = Counter(count: nat, expires: Option<int>)

  function WindowOf(at: int): int {
    at / WINDOW
  }

  function KeyOf(r: Request): Key {
    Key(r.client, WindowOf(r.at))
  }

  predicate Alive(c: Counter, now: int) {
    c.expires.None? || now < c.expires.value
  }

  function Purged(counters: map<Key, Counter>, now: int): map<Key, Counter> {
    map k | k in counters && Alive(counters[k], now) :: counters[k]
  }

  /** incr, and expire for a new counter unless the connection fails first */
  function Incremented(counters: map<Key, Counter>, r: Request): map<Key, Counter> {
    var live, k := Purged(counters, r.at), KeyOf(r);
    if k in live then live[k := Counter(live[k].count + 1, live[k].expires)]
    else live[k := Counter(1, if r.answer.CutOff? then None else Some(r.at + TTL))]
  }

  predicate Counts(r: Request) {
    r.api && !r.answer.Unreachable?
  }

  function Stepped(counters: map<Key, Counter>, r: Request): map<Key, Counter> {
    if Counts(r) then Incremented(counters, r) else counters
  }

  /** Other paths are not limited, and a failing store lets the request through. */
  predicate Passes(limit: int, counters: map<Key, Counter>, r: Request) {
    || !Counts(r)
    || (r.answer.CutOff? && Incremented(counters, r)[KeyOf(r)].count == 1)
    || Incremented(counters, r)[KeyOf(r)].count <= limit
  }

  function After(requests: seq<Request>): map<Key, Counter> {
    if requests == [] then map[]
    else Stepped(After(requests[..|requests| - 1]), requests[|requests| - 1])
  }

  /** Did the last request get through? */
  predicate LastPasses(limit: int, requests: seq<Request>)
    requires requests != []
  {
    Passes(limit, After(requests[..|requests| - 1]), requests[|requests| - 1])
  }

  /** Clocks never run backwards. */
  predicate InOrder(requests: seq<Request>) {
    forall i, j :: 0 <= i < j < |requests| ==> requests[i].at <= requests[j].at
  }

  // ---------------------------------------------------------------- what is counted

  predicate For(r: Request, k: Key) {
    r.api && KeyOf(r) == k
  }

  /** Requests of this client and window that reached the store. */
  function Reached(requests: seq<Request>, k: Key): nat {
    if requests == [] then 0
    else
      var r := requests[|requests| - 1];
      Reached(requests[..|requests| - 1], k) + if For(r, k) && !r.answer.Unreachable? then 1 else 0
  }

  /** The last request reached the store, and its count was within the limit. */
  predicate LastAdmitted(limit: int, requests: seq<Request>)
    requires requests != []
  {
    var k, r := |requests| - 1, requests[|requests| - 1];
    Counts(r) && Incremented(After(requests[..k]), r)[KeyOf(r)].count <= limit
  }

  /** Besides these, only what the limiter leaves alone gets through: other paths, requests for which the
      store fails, and, under a limit below 1, one cut off. */
  lemma {:induction false} OnlyAdmittedOrOpen(limit: int, requests: seq<Request>)
    requires requests != []
    ensures var r := requests[|requests| - 1];
      LastPasses(limit, requests) <==>
        LastAdmitted(limit, requests) || !r.api || r.answer.Unreachable? ||
        (limit < 1 && r.answer.CutOff? && Incremented(After(requests[..|requests| - 1]), r)[KeyOf(r)].count == 1)
  {
  }

  /** ... of these, the ones that got through. */
  function Admitted(limit: int, requests: seq<Request>, k: Key): nat {
    if requests == [] then 0
    else
      var r := requests[|requests| - 1];
      Admitted(limit, requests[..|requests| - 1], k) + if For(r, k) && LastAdmitted(limit, requests) then 1 else 0
  }

  /** Requests of this client that reached the store and got through in the minute from start. */
  function AdmittedWithin(limit: int, requests: seq<Request>, client: string, start: int): nat {
    if requests == [] then 0
    else
      var r := requests[|requests| - 1];
      AdmittedWithin(limit, requests[..|requests| - 1], client, start) +
      if r.client == client && start <= r.at < start + 60_000_000 && LastAdmitted(limit, requests) then 1 else 0
  }

  /** A key's count, zero without a counter. */
  function CountOf(counters: map<Key, Counter>, k: Key): nat {
    if k in counters then counters[k].count else 0
  }

  /** A key's counter, if it has one, has counted and outlives the key's window. */
  predicate Outlives(counters: map<Key, Counter>, k: Key) {
    k in counters ==>
      counters[k].count > 0 && (counters[k].expires.None? || counters[k].expires.value > (k.window + 1) * WINDOW)
  }

  /** A window is over, or its count is the number of requests that reached it and its counter outlives it. */
  ghost predicate Exact(requests: seq<Request>, k: Key, now: int) {
    || (k.window + 1) * WINDOW <= now
    || (CountOf(After(requests), k) == Reached(requests, k) && Outlives(After(requests), k))
  }

  lemma {:induction false} WindowBounds(at: int)
    ensures WindowOf(at) * WINDOW <= at < (WindowOf(at) + 1) * WINDOW
  {
  }

  /** The time to live outlasts every window it serves. */
  lemma {:induction false} CountersAreExact(requests: seq<Request>, k: Key, now: int)
    requires InOrder(requests) && forall i :: 0 <= i < |requests| ==> requests[i].at <= now
    ensures Exact(requests, k, now)
  {
    if requests != [] {
      var front, r := requests[..|requests| - 1], requests[|requests| - 1];
      CountersAreExact(front, k, r.at);
      WindowBounds(r.at);
    }
  }

  function Least(x: int, y: int): int {
    if x < y then x else y
  }

  function Largest(x: int, y: int): int {
    if x < y then y else x
  }

  /** In every minute window a client gets through exactly the first requests that reach the store, up
      to the limit. */
  lemma {:induction false} AdmittedIsCapped(limit: int, requests: seq<Request>, k: Key)
    requires InOrder(requests)
    ensures Admitted(limit, requests, k) == Least(Largest(limit, 0), Reached(requests, k))
  {
    if requests != [] {
      var front, r := requests[..|requests| - 1], requests[|requests| - 1];
      AdmittedIsCapped(limit, front, k);
      if For(r, k) && Counts(r) {
        CountersAreExact(front, k, r.at);
        WindowBounds(r.at);
      }
    }
  }

  /** A minute from any start touches two windows. */
  lemma {:induction false} TwoWindows(limit: int, requests: seq<Request>, client: string, start: int)
    ensures var w := WindowOf(start);
      AdmittedWithin(limit, requests, client, start) <=
      Admitted(limit, requests, Key(client, w)) + Admitted(limit, requests, Key(client, w + 1))
  {
    if requests != [] {
      var r := requests[|requests| - 1];
      TwoWindows(limit, requests[..|requests| - 1], client, start);
      if start <= r.at < start + 60_000_000 {
        assert WindowOf(r.at) == WindowOf(start) || WindowOf(r.at) == WindowOf(start) + 1;
      }
    }
  }

  /** In no sixty seconds does a client get more than twice the limit through. */
  lemma {:induction false} AtMostTwiceTheLimit(limit: int, requests: seq<Request>, client: string, start: int)
    requires InOrder(requests)
    ensures AdmittedWithin(limit, requests, client, start) <= 2 * Largest(limit, 0)
  {
    TwoWindows(limit, requests, client, start);
    AdmittedIsCapped(limit, requests, Key(client, WindowOf(start)));
    AdmittedIsCapped(limit, requests, Key(client, WindowOf(start) + 1));
  }

  predicate Within(r: Request, client: string, start: int) {
    r.api && r.client == client && start <= r.at < start + 60_000_000
  }

  /** Of a client's limited requests in the minute from start, all that get through. */
  function PassedWithin(limit: int, requests: seq<Request>, client: string, start: int): nat {
    if requests == [] then 0
    else
      PassedWithin(limit, requests[..|requests| - 1], client, start) +
      if Within(requests[|requests| - 1], client, start) && LastPasses(limit, requests) then 1 else 0
  }

  /** ... and those for which the store failed. */
  function FailedWithin(requests: seq<Request>, client: string, start: int): nat {
    if requests == [] then 0
    else
      var r := requests[|requests| - 1];
      FailedWithin(requests[..|requests| - 1], client, start) + if Within(r, client, start) && !r.answer.Normal? then 1 else 0
  }

  lemma {:induction false} PassedAreAdmittedOrFailed(limit: int, requests: seq<Request>, client: string, start: int)
    ensures PassedWithin(limit, requests, client, start) <=
      AdmittedWithin(limit, requests, client, start) + FailedWithin(requests, client, start)
  {
    if requests != [] {
      PassedAreAdmittedOrFailed(limit, requests[..|requests| - 1], client, start);
      OnlyAdmittedOrOpen(limit, requests);
    }
  }

  /** With failures of the store counted: at most twice the limit, and one for each failure. */
  lemma {:induction false} AtMostTwiceTheLimitAndFailures(limit: int, requests: seq<Request>, client: string, start: int)
    requires InOrder(requests)
    ensures PassedWithin(limit, requests, client, start) <= 2 * Largest(limit, 0) + FailedWithin(requests, client, start)
  {
    PassedAreAdmittedOrFailed(limit, requests, client, start);
    AtMostTwiceTheLimit(limit, requests, client, start);
  }

  // ---------------------------------------------------------------- and it can be twice the limit

  function Early(client: string): (r: Request)
    ensures WindowOf(r.at) == 0
  {
    Request(client, true, WINDOW - 1, Normal)
  }

  function Late(client: string): (r: Request)
    ensures WindowOf(r.at) == 1
  {
    Request(client, true, WINDOW, Normal)
  }

  /** Requests from one client: first requests just before the minute, then more on it. */
  function Volley(client: string, early: nat, late: nat): (rs: seq<Request>)
    ensures |rs| == early + late
  {
    if late > 0 then Volley(client, early, late - 1) + [Late(client)]
    else if early > 0 then Volley(client, early - 1, 0) + [Early(client)]
    else []
  }

  lemma {:induction false} VolleyInOrder(client: string, early: nat, late: nat)
    ensures forall i :: 0 <= i < early + late ==> Volley(client, early, late)[i].at == if i < early then 59_999_999 else 60_000_000
    decreases early + late
  {
    if late > 0 {
      VolleyInOrder(client, early, late - 1);
    } else if early > 0 {
      VolleyInOrder(client, early - 1, 0);
    }
  }

  lemma {:induction false} ReachedAppend(requests: seq<Request>, r: Request, k: Key)
    requires r.answer.Normal? && r.api && k.client == r.client
    ensures Reached(requests + [r], k) == Reached(requests, k) + if WindowOf(r.at) == k.window then 1 else 0
  {
    assert (requests + [r])[..|requests|] == requests;
  }

  lemma {:induction false} VolleyReaches(client: string, early: nat, late: nat, k: Key)
    requires k.client == client && 0 <= k.window <= 1
    ensures Reached(Volley(client, early, late), k) == if k.window == 0 then early else late
    decreases early + late
  {
    if late > 0 {
      VolleyReaches(client, early, late - 1, k);
      ReachedAppend(Volley(client, early, late - 1), Late(client), k);
    } else if early > 0 {
      VolleyReaches(client, early - 1, 0, k);
      ReachedAppend(Volley(client, early - 1, 0), Early(client), k);
    }
  }

  lemma {:induction false} AllWithin(limit: int, requests: seq<Request>, client: string)
    requires forall i :: 0 <= i < |requests| ==> 59_999_999 <= requests[i].at <= 60_000_000
    ensures AdmittedWithin(limit, requests, client, 59_999_999) ==
      Admitted(limit, requests, Key(client, 0)) + Admitted(limit, requests, Key(client, 1))
  {
    if requests != [] {
      AllWithin(limit, requests[..|requests| - 1], client);
      var r := requests[|requests| - 1];
      assert r.at == 59_999_999 || r.at == 60_000_000;
      assert WindowOf(59_999_999) == 0 && WindowOf(60_000_000) == 1;
    }
  }

  /** The bound is reached, within a microsecond. */
  lemma {:induction false} TwiceTheLimitHappens(limit: nat, client: string)
    ensures var requests := Volley(client, limit, limit);
      InOrder(requests) && AdmittedWithin(limit, requests, client, 59_999_999) == 2 * limit
  {
    var requests := Volley(client, limit, limit);
    VolleyInOrder(client, limit, limit);
    VolleyReaches(client, limit, limit, Key(client, 0));
    VolleyReaches(client, limit, limit, Key(client, 1));
    AdmittedIsCapped(limit, requests, Key(client, 0));
    AdmittedIsCapped(limit, requests, Key(client, 1));
    AllWithin(limit, requests, client);
  }

  // ---------------------------------------------------------------- the middleware

  class Limiter {
    const limit: int
    var counters: map<Key, Counter>
    ghost var requests: seq<Request>

    ghost predicate Valid()
      reads this
    {
      counters == After(requests) && InOrder(requests)
    }

    constructor (limit: int)
      ensures Valid() && this.limit == limit && requests == []
    {
      this.limit := limit;
      counters, requests := map[], [];
    }

    /** Lets a request through or not; one that reaches the store gets through exactly when fewer than
        limit of its client's did so before it in its window, or the connection fails on the first. */
    method Dispatch(r: Request) returns (allowed: bool)
      requires Valid() && forall i :: 0 <= i < |requests| ==> requests[i].at <= r.at
      modifies this
      ensures Valid() && requests == old(requests) + [r]
      ensures !r.api || r.answer.Unreachable? ==> allowed && counters == old(counters)
      ensures Counts(r) ==> (allowed <==> Reached(old(requests), KeyOf(r)) < limit || (r.answer.CutOff? && Reached(old(requests), KeyOf(r)) == 0))
      ensures allowed <==> LastPasses(limit, requests)
    {
      CountersAreExact(requests, KeyOf(r), r.at);
      WindowBounds(r.at);
      assert (requests + [r])[..|requests|] == requests;
      requests := requests + [r];
      if !r.api || r.answer.Unreachable? { return true; }
      var k := KeyOf(r);
      counters := Purged(counters, r.at);
      if k in counters {
        counters := counters[k := Counter(counters[k].count + 1, counters[k].expires)];
      } else {
        counters := counters[k := Counter(1, None)];
        if r.answer.CutOff? { return true; }
        counters := counters[k := Counter(1, Some(r.at + TTL))];
      }
      return counters[k].count <= limit;
    }
  }
}
