/** Realtime: the live lists of events and alerts (frontend/src/realtime/RealtimeProvider.tsx). Each
    state update counts as atomic, but for the one that resuming requests: it may run only after the buffer
    it reads has been emptied. */
module Realtime {
  import opened Text

  const MAX_EVENTS := 250
  const MAX_ALERTS := 80

  datatype Event = Event(id: int)

  datatype Alert = Alert(id: nat, version: int)

  // ---------------------------------------------------------------- the alert list

  function Without(alerts: seq<Alert>, id: nat): (r: seq<Alert>)
    ensures |r| <= |alerts|
  {
    if alerts == [] then []
    else if alerts[0].id == id then Without(alerts[1..], id)
    else [alerts[0]] + Without(alerts[1..], id)
  }

  function ToFront(alerts: seq<Alert>, a: Alert): seq<Alert> {
    [a] + Without(alerts, a.id)
  }

  /** The list without its bound: after each message, its alert comes first. */
  function Unbounded(messages: seq<Alert>): seq<Alert> {
    if messages == [] then []
    else ToFront(Unbounded(messages[..|messages| - 1]), messages[|messages| - 1])
  }

  ghost predicate DistinctIds(alerts: seq<Alert>) {
    forall i, j :: 0 <= i < j < |alerts| ==> alerts[i].id != alerts[j].id
  }

  ghost predicate HasId(alerts: seq<Alert>, id: nat) {
    exists i :: 0 <= i < |alerts| && alerts[i].id == id
  }

  lemma {:induction false} WithoutNothing(alerts: seq<Alert>, id: nat)
    requires !HasId(alerts, id)
    ensures Without(alerts, id) == alerts
  {
    if alerts != [] {
      assert alerts[0].id != id;
      assert !HasId(alerts[1..], id) by {
        assert forall i :: 0 <= i < |alerts[1..]| ==> alerts[1..][i] == alerts[i + 1];
      }
      WithoutNothing(alerts[1..], id);
    }
  }

  /** Taking out of the first n is the same as taking out of all, one shorter if the id was among them. */
  lemma {:induction false} WithoutOfFirst(alerts: seq<Alert>, id: nat, n: nat)
    requires DistinctIds(alerts)
    ensures Take(Without(Take(alerts, n + 1), id), n) == Take(Without(alerts, id), n)
    decreases |alerts|
  {
    if |alerts| > n + 1 {
      var rest := alerts[1..];
      assert DistinctIds(rest);
      assert Take(alerts, n + 1) == [alerts[0]] + Take(rest, n);
      if alerts[0].id == id {
        assert !HasId(rest, id) by { assert forall i :: 0 <= i < |rest| ==> rest[i] == alerts[i + 1]; }
        assert !HasId(Take(rest, n), id) by { assert forall i :: 0 <= i < |Take(rest, n)| ==> Take(rest, n)[i] == rest[i]; }
        WithoutNothing(rest, id);
        WithoutNothing(Take(rest, n), id);
      } else if n > 0 {
        WithoutOfFirst(rest, id, n - 1);
        assert Take(Without(alerts, id), n) == [alerts[0]] + Take(Without(rest, id), n - 1);
        var first := Take(alerts, n + 1);
        assert first[1..] == Take(rest, n);
        assert Take(Without(first, id), n) == [alerts[0]] + Take(Without(Take(rest, n), id), n - 1);
      }
    }
  }

  ghost predicate Below(ps: seq<nat>, n: nat) {
    forall i :: 0 <= i < |ps| ==> ps[i] < n
  }

  ghost predicate Descending(ps: seq<nat>) {
    forall i, j :: 0 <= i < j < |ps| ==> ps[i] > ps[j]
  }

  /** No message after the one at p is about the same alert. */
  ghost predicate IsLatest(messages: seq<Alert>, p: nat) {
    p < |messages| && forall q :: p < q < |messages| ==> messages[q].id != messages[p].id
  }

  /** The positions of every alert's latest message, newest first. */
  ghost predicate LatestPositions(messages: seq<Alert>, ps: seq<nat>) {
    && Below(ps, |messages|) && Descending(ps)
    && forall p: nat :: p in ps <==> IsLatest(messages, p)
  }

  ghost function At(messages: seq<Alert>, ps: seq<nat>): (r: seq<Alert>)
    requires Below(ps, |messages|)
    ensures |r| == |ps|
  {
    seq(|ps|, i requires 0 <= i < |ps| => messages[ps[i]])
  }

  ghost function Keep(messages: seq<Alert>, ps: seq<nat>, id: nat): (r: seq<nat>)
    requires Below(ps, |messages|)
    ensures |r| <= |ps|
  {
    if ps == [] then []
    else
      assert Below(ps[1..], |messages|);
      if messages[ps[0]].id == id then Keep(messages, ps[1..], id)
      else [ps[0]] + Keep(messages, ps[1..], id)
  }

  lemma {:induction false} KeepMembers(messages: seq<Alert>, ps: seq<nat>, id: nat)
    requires Below(ps, |messages|)
    ensures forall p :: p in Keep(messages, ps, id) <==> p in ps && messages[p].id != id
    ensures Below(Keep(messages, ps, id), |messages|)
  {
    if ps != [] {
      assert Below(ps[1..], |messages|);
      KeepMembers(messages, ps[1..], id);
      assert forall p :: p in ps <==> p == ps[0] || p in ps[1..];
    }
    assert forall i :: 0 <= i < |Keep(messages, ps, id)| ==> Keep(messages, ps, id)[i] in ps;
  }

  lemma {:induction false} KeepDescends(messages: seq<Alert>, ps: seq<nat>, id: nat)
    requires Below(ps, |messages|) && Descending(ps)
    ensures Descending(Keep(messages, ps, id))
  {
    if ps != [] {
      var rest := ps[1..];
      assert Below(rest, |messages|) && Descending(rest);
      KeepDescends(messages, rest, id);
      KeepMembers(messages, rest, id);
      var kept := Keep(messages, rest, id);
      assert forall j :: 0 <= j < |kept| ==> kept[j] in rest;
      assert Descending([ps[0]] + kept);
    }
  }

  lemma {:induction false} KeepMatches(messages: seq<Alert>, ps: seq<nat>, id: nat)
    requires Below(ps, |messages|)
    ensures Below(Keep(messages, ps, id), |messages|)
    ensures Without(At(messages, ps), id) == At(messages, Keep(messages, ps, id))
  {
    KeepMembers(messages, ps, id);
    if ps != [] {
      assert Below(ps[1..], |messages|);
      KeepMatches(messages, ps[1..], id);
      assert At(messages, ps)[1..] == At(messages, ps[1..]);
    }
  }

  lemma {:induction false} LatestAppend(messages: seq<Alert>, a: Alert, p: nat)
    ensures IsLatest(messages + [a], p) <==> p == |messages| || (IsLatest(messages, p) && messages[p].id != a.id)
  {
    var all := messages + [a];
    if IsLatest(messages, p) && messages[p].id != a.id {
      assert forall q :: p < q < |all| ==> all[q].id != all[p].id;
    }
    if IsLatest(all, p) && p < |messages| {
      assert all[|messages|].id != all[p].id;
      forall q | p < q < |messages| ensures messages[q].id != messages[p].id {
        assert all[q] == messages[q] && all[p] == messages[p] && all[q].id != all[p].id;
      }
    }
  }

  /** The unbounded list holds the latest message of every alert heard of, the most recently heard of
      first. */
  lemma {:induction false} UnboundedIsByRecency(messages: seq<Alert>) returns (ps: seq<nat>)
    ensures LatestPositions(messages, ps) && Unbounded(messages) == At(messages, ps)
  {
    if messages == [] { return []; }
    var front, k := messages[..|messages| - 1], |messages| - 1;
    var before := UnboundedIsByRecency(front);
    ps := PlusLatest(front, before, messages[k]);
    assert front + [messages[k]] == messages;
  }

  lemma {:induction false} PlusLatest(messages: seq<Alert>, before: seq<nat>, a: Alert) returns (ps: seq<nat>)
    requires LatestPositions(messages, before)
    ensures LatestPositions(messages + [a], ps)
    ensures At(messages + [a], ps) == ToFront(At(messages, before), a)
  {
    var kept := Keep(messages, before, a.id);
    KeepMembers(messages, before, a.id);
    KeepDescends(messages, before, a.id);
    KeepMatches(messages, before, a.id);
    ps := [|messages|] + kept;
    assert Below(ps, |messages + [a]|) && Descending(ps);
    forall p: nat ensures p in ps <==> IsLatest(messages + [a], p) {
      LatestAppend(messages, a, p);
    }
    assert At(messages + [a], ps) == [a] + At(messages, kept);
  }

  lemma {:induction false} RecencyIsDistinct(messages: seq<Alert>, ps: seq<nat>)
    requires LatestPositions(messages, ps)
    ensures DistinctIds(At(messages, ps))
  {
    forall i, j | 0 <= i < j < |ps| ensures messages[ps[i]].id != messages[ps[j]].id {
      assert ps[j] in ps && ps[j] < ps[i] && IsLatest(messages, ps[j]);
    }
  }

  lemma {:induction false} UnboundedIsDistinct(messages: seq<Alert>)
    ensures DistinctIds(Unbounded(messages))
  {
    var ps := UnboundedIsByRecency(messages);
    RecencyIsDistinct(messages, ps);
  }

  /** Cutting the list after every message shows the same as cutting it only now. */
  lemma {:induction false} CutEveryTime(messages: seq<Alert>, a: Alert)
    ensures Take(ToFront(Take(Unbounded(messages), 80), a), 80) == Take(Unbounded(messages + [a]), 80)
  {
    var full := Unbounded(messages);
    assert (messages + [a])[..|messages|] == messages;
    UnboundedIsDistinct(messages);
    WithoutOfFirst(full, a.id, MAX_ALERTS - 1);
    TakeAfterFirst(a, Without(full, a.id), MAX_ALERTS - 1);
    TakeAfterFirst(a, Without(Take(full, MAX_ALERTS), a.id), MAX_ALERTS - 1);
  }

  lemma {:induction false} TakeAfterFirst(a: Alert, rest: seq<Alert>, n: nat)
    ensures Take([a] + rest, n + 1) == [a] + Take(rest, n)
  {
  }

  // ---------------------------------------------------------------- the provider

  lemma {:induction false} TakeJoined(xs: seq<Event>, ys: seq<Event>, n: nat)
    ensures Take(Take(xs, n) + Take(ys, n), n) == Take(xs + ys, n)
  {
  }

  /** An update run only after the buffer is emptied shows the right list exactly when nothing was held. */
  lemma {:induction false} LateResumeIff(shown: seq<Event>, held: seq<Event>)
    requires forall i, j :: 0 <= i < j < |held + shown| ==> (held + shown)[i] != (held + shown)[j]
    ensures Take([] + Take(shown, 250), 250) == Take(held + shown, 250) <==> held == []
  {
    if held == [] {
      assert held + shown == shown;
    } else {
      var late, right := Take([] + Take(shown, MAX_EVENTS), MAX_EVENTS), Take(held + shown, MAX_EVENTS);
      assert right[0] == (held + shown)[0];
      if late != [] { assert late[0] == shown[0] == (held + shown)[|held|]; }
    }
  }

  class Provider {
    var events: seq<Event>
    var buffer: seq<Event>
    var paused: bool
    var eventCount: nat
    var alerts: seq<Alert>
    var lastAlert: Option<Alert>
    ghost var sinceClear: seq<Event> // every event since the last clear, newest first
    ghost var shown: seq<Event>      // of these, those that reached the list
    ghost var held: seq<Event>       // and those held back by the pause
    ghost var intact: bool           // none has been lost
    ghost var alertMessages: seq<Alert>

    ghost predicate Valid()
      reads this
    {
      && events == Take(shown, 250) && buffer == Take(held, 250)
      && (!paused ==> held == []) && (intact ==> sinceClear == held + shown)
      && alerts == Take(Unbounded(alertMessages), 80)
    }

    constructor ()
      ensures Valid() && !paused && intact && sinceClear == [] && alertMessages == [] && eventCount == 0
    {
      events, buffer, paused, eventCount, alerts, lastAlert := [], [], false, 0, [], None;
      sinceClear, shown, held, intact, alertMessages := [], [], [], true, [];
    }

    method OnEvent(e: Event)
      requires Valid()
      modifies this`events, this`buffer, this`eventCount, this`sinceClear, this`shown, this`held
      ensures Valid() && sinceClear == [e] + old(sinceClear) && eventCount == old(eventCount) + 1
      ensures paused ==> events == old(events) && buffer == Take([e] + old(buffer), 250)
      ensures !paused ==> buffer == old(buffer) && events == Take([e] + old(events), 250)
    {
      eventCount := eventCount + 1;
      sinceClear := [e] + sinceClear;
      if paused {
        buffer := Take([e] + buffer, MAX_EVENTS);
        held := [e] + held;
      } else {
        events := Take([e] + events, MAX_EVENTS);
        shown := [e] + shown;
      }
    }

    /** Resuming brings back what was held, so that an intact list is what it would be without the pause;
        unless the update is late, which loses what was held. */
    method SetPaused(v: bool, late: bool)
      requires Valid()
      modifies this`events, this`buffer, this`paused, this`shown, this`held, this`intact
      ensures Valid() && paused == v
      ensures v ==> events == old(events) && buffer == old(buffer) && intact == old(intact)
      ensures !v ==> buffer == []
      ensures !v && !late ==> intact == old(intact) && events == Take(old(buffer) + old(events), 250)
      ensures !v && !late && intact ==> events == Take(sinceClear, 250)
      ensures !v && late ==> events == old(events) && intact == (old(intact) && old(buffer) == [])
    {
      paused := v;
      if !v && buffer != [] {
        TakeJoined(held, shown, MAX_EVENTS);
        if late {
          intact := false;
        } else {
          events := Take(buffer + events, MAX_EVENTS);
          shown := held + shown;
        }
        buffer, held := [], [];
      }
    }

    method ClearEvents()
      requires Valid()
      modifies this`events, this`buffer, this`sinceClear, this`shown, this`held, this`intact
      ensures Valid() && sinceClear == [] && events == [] && buffer == [] && intact
    {
      events, buffer := [], [];
      sinceClear, shown, held, intact := [], [], [], true;
    }

    method OnAlert(a: Alert)
      requires Valid()
      modifies this`alerts, this`lastAlert, this`alertMessages
      ensures Valid() && alertMessages == old(alertMessages) + [a]
      ensures lastAlert == Some(a) && alerts != [] && alerts[0] == a
    {
      lastAlert := Some(a);
      CutEveryTime(alertMessages, a);
      alerts := Take([a] + Without(alerts, a.id), MAX_ALERTS);
      alertMessages := alertMessages + [a];
    }

    /** Whatever was paused, resumed and cleared before, an unpaused list is the newest events since the
        last clear, unless a late update lost some; and every alert's latest message is listed unless 80 others were heard of since. */
    lemma {:induction false} WhatIsShown(p: nat)
      requires Valid() && IsLatest(alertMessages, p)
      ensures !paused && intact ==> events == Take(sinceClear, 250)
      ensures DistinctIds(alerts)
      ensures alertMessages[p] in alerts || |alerts| == 80
    {
      assert !paused && intact ==> sinceClear == shown;
      var ps := UnboundedIsByRecency(alertMessages);
      RecencyIsDistinct(alertMessages, ps);
      assert p in ps;
      var i :| 0 <= i < |ps| && ps[i] == p;
      assert Unbounded(alertMessages)[i] == alertMessages[p];
      if |alerts| < MAX_ALERTS { assert alerts == Unbounded(alertMessages); }
    }
  }
}
