/** Simulator: the pacing of ticks and the queue of attack events (simulator/simulator/engine.py). */
module Simulator {
  import opened Text

  const TICKS := 10

  /** How many events a tick may send at a given rate per second. */
  function Budget(rate: nat, tick: nat): nat {
    rate / TICKS + if tick % TICKS < rate % TICKS then 1 else 0
  }

  /** What the n ticks from a given one send together. */
  function Budgets(rate: nat, first: nat, n: nat): nat {
    if n == 0 then 0 else Budgets(rate, first, n - 1) + Budget(rate, first + n - 1)
  }

  function Least(x: int, y: int): int {
    if x < y then x else y
  }

  // ---------------------------------------------------------------- pacing

  lemma {:induction false} WholeSecond(rate: nat, n: nat)
    ensures n % TICKS == TICKS - 1 ==> (n + 1) / TICKS == n / TICKS + 1 && (n + 1) % TICKS == 0
    ensures n % TICKS < TICKS - 1 ==> (n + 1) / TICKS == n / TICKS && (n + 1) % TICKS == n % TICKS + 1
    ensures rate == TICKS * (rate / TICKS) + rate % TICKS
  {
  }

  /** The sum over the first n ticks, in the rate's whole seconds and what is left over. */
  function ClosedForm(rate: nat, n: nat): nat {
    rate * (n / TICKS) + (rate / TICKS) * (n % TICKS) + Least(n % TICKS, rate % TICKS)
  }

  lemma {:induction false} ClosedFormStep(rate: nat, n: nat)
    ensures ClosedForm(rate, n + 1) == ClosedForm(rate, n) + Budget(rate, n)
  {
    WholeSecond(rate, n);
    var b, m := rate / TICKS, n % TICKS;
    if m < TICKS - 1 {
      assert b * (m + 1) == b * m + b;
    } else {
      assert rate * (n / TICKS + 1) == rate * (n / TICKS) + rate;
      assert b * (TICKS - 1) == (TICKS - 1) * b;
    }
  }

  lemma {:induction false} FirstTicks(rate: nat, n: nat)
    ensures Budgets(rate, 0, n) == ClosedForm(rate, n)
  {
    if n > 0 {
      FirstTicks(rate, n - 1);
      ClosedFormStep(rate, n - 1);
    } else {
      assert rate * 0 == 0 && (rate / TICKS) * 0 == 0;
    }
  }

  lemma {:induction false} FromTheStart(rate: nat, first: nat, n: nat)
    ensures Budgets(rate, 0, first + n) == Budgets(rate, 0, first) + Budgets(rate, first, n)
  {
    if n > 0 { FromTheStart(rate, first, n - 1); }
  }

  /** Any ten consecutive ticks send exactly a second's worth. */
  lemma {:induction false} TenTicksAreASecond(rate: nat, first: nat)
    ensures Budgets(rate, first, 10) == rate
  {
    FromTheStart(rate, first, TICKS);
    FirstTicks(rate, first);
    FirstTicks(rate, first + TICKS);
    assert (first + TICKS) / TICKS == first / TICKS + 1 && (first + TICKS) % TICKS == first % TICKS;
    assert rate * (first / TICKS + 1) == rate * (first / TICKS) + rate;
  }

  /** How far the first n ticks are ahead of the rate, in tenths of an event. */
  function Ahead(rate: nat, n: nat): int {
    TICKS * Least(n % TICKS, rate % TICKS) - (n % TICKS) * (rate % TICKS)
  }

  lemma {:induction false} AheadOfRate(rate: nat, n: nat)
    ensures TICKS * ClosedForm(rate, n) - n * rate == Ahead(rate, n)
  {
    var b, r, q, m := rate / TICKS, rate % TICKS, n / TICKS, n % TICKS;
    assert rate == TICKS * b + r && n == TICKS * q + m;
    assert n * rate == TICKS * q * rate + m * rate;
    assert m * rate == TICKS * (b * m) + m * r;
  }

  lemma {:induction false} AheadBetween(rate: nat, n: nat)
    ensures 0 <= Ahead(rate, n) <= 25
  {
    var r, m := rate % TICKS, n % TICKS;
    if m <= r {
      ProductBound(m, TICKS - r, r);
    } else {
      ProductBound(r, TICKS - m, m);
    }
  }

  lemma {:induction false} ProductBound(x: nat, y: nat, z: nat)
    requires x <= z && z + y == TICKS
    ensures 0 <= TICKS * x - x * z <= 25
  {
    assert TICKS * x - x * z == x * y;
    assert x * y <= z * y;
    assert z == 0 || z == 1 || z == 2 || z == 3 || z == 4 || z == 5 || z == 6 || z == 7 || z == 8 || z == 9 || z == TICKS;
  }

  /** Any run of ticks keeps within two and a half events of the rate. */
  lemma {:induction false} PacingIsEven(rate: nat, first: nat, n: nat)
    ensures -25 <= 10 * Budgets(rate, first, n) - n * rate <= 25
  {
    FromTheStart(rate, first, n);
    FirstTicks(rate, first);
    FirstTicks(rate, first + n);
    AheadOfRate(rate, first);
    AheadOfRate(rate, first + n);
    AheadBetween(rate, first);
    AheadBetween(rate, first + n);
    assert (first + n) * rate == first * rate + n * rate;
  }

  /** ... and no closer: half a second at five past a multiple of ten is two and a half ahead. */
  lemma {:induction false} PacingIsNoCloser(tens: nat)
    ensures 10 * Budgets(10 * tens + 5, 0, 5) - 5 * (10 * tens + 5) == 25
  {
    FirstTicks(TICKS * tens + 5, 5);
    AheadOfRate(TICKS * tens + 5, 5);
  }

  // ---------------------------------------------------------------- the engine

  datatype Event = Attack(id: nat) | Ordinary(n: nat)

  /** No scenario, any of them at random, or one that is repeated. */
  datatype Scenario = Off | Mixed | Dedicated

  /** What the surroundings decide for one tick: whether the engine runs and at what rate, whether a
      burst is on, the events of a scenario the dice may launch, and which send, if any, fails. */
  datatype Tick = Tick(running: bool, rate: int, burst: bool, scenario: Scenario, launch: Option<seq<Event>>, failsAt: Option<nat>)

  function Ordinaries(next: nat, n: nat): (es: seq<Event>)
    ensures |es| == n
  {
    if n == 0 then [] else Ordinaries(next, n - 1) + [Ordinary(next + n - 1)]
  }

  /** Sends tried, and sends that succeed: the tick ends with its first failure. */
  function Tries(budget: nat, failsAt: Option<nat>): nat {
    if failsAt.Some? && failsAt.value < budget then failsAt.value + 1 else budget
  }

  function Delivered(budget: nat, failsAt: Option<nat>): nat {
    if failsAt.Some? && failsAt.value < budget then failsAt.value else budget
  }

  /** Queued attacks first, ordinary events after them. */
  function Drawn(queue: seq<Event>, next: nat, tries: nat): (es: seq<Event>)
    ensures |es| == tries
  {
    if tries <= |queue| then queue[..tries] else queue + Ordinaries(next, tries - |queue|)
  }

  lemma {:induction false} DrawnStep(queue: seq<Event>, next: nat, i: nat)
    ensures Drawn(queue, next, i + 1) ==
      Drawn(queue, next, i) + [if i < |queue| then queue[i] else Ordinary(next + i - |queue|)]
  {
    if i < |queue| {
      assert queue[..i + 1] == queue[..i] + [queue[i]];
    } else {
      assert Ordinaries(next, i + 1 - |queue|) == Ordinaries(next, i - |queue|) + [Ordinary(next + i - |queue|)];
      assert i == |queue| ==> queue[..i] == queue && Ordinaries(next, 0) == [];
    }
  }

  /** What is left of a queue after that many have been taken. */
  function Rest(queue: seq<Event>, n: nat): seq<Event> {
    if n <= |queue| then queue[n..] else []
  }

  function Front(queue: seq<Event>, n: nat): seq<Event> {
    if n <= |queue| then queue[..n] else queue
  }

  class Engine {
    var tick: nat
    var attackQueue: seq<Event>
    var drawn: nat
    var sentTotal: nat
    var sentAttack: nat
    var scenarioRuns: nat
    ghost var launched: seq<Event>
    ghost var taken: seq<Event>
    ghost var sent: seq<Event>

    /** Launched attacks leave the queue in the order they came, each once. */
    ghost predicate Valid()
      reads this
    {
      launched == taken + attackQueue && sentAttack == |taken| && sentTotal == |sent|
    }

    constructor ()
      ensures Valid() && tick == sentTotal == 0 && attackQueue == [] && sent == []
    {
      tick, attackQueue, drawn, sentTotal, sentAttack, scenarioRuns := 0, [], 0, 0, 0, 0;
      launched, taken, sent := [], [], [];
    }

    method EnqueueScenario(events: seq<Event>)
      requires Valid()
      modifies this`attackQueue, this`scenarioRuns, this`launched
      ensures Valid() && attackQueue == old(attackQueue) + events && launched == old(launched) + events
      ensures scenarioRuns == old(scenarioRuns) + 1
    {
      attackQueue := attackQueue + events;
      launched := launched + events;
      scenarioRuns := scenarioRuns + 1;
    }

    /** A mixed scenario whenever the dice say so, a dedicated one only when the queue is empty. */
    method MaybeLaunch(scenario: Scenario, launch: Option<seq<Event>>)
      requires Valid()
      modifies this`attackQueue, this`scenarioRuns, this`launched
      ensures Valid()
      ensures attackQueue ==
        if launch.Some? && (scenario.Mixed? || (scenario.Dedicated? && old(attackQueue) == []))
        then old(attackQueue) + launch.value else old(attackQueue)
    {
      if scenario.Off? || launch.None? { return; }
      if scenario.Mixed? || attackQueue == [] { EnqueueScenario(launch.value); }
    }

    /** Sends up to the budget, attacks first. An event whose send fails is gone. */
    method EmitTick(budget: nat, failsAt: Option<nat>)
      requires Valid()
      modifies this`attackQueue, this`drawn, this`sentTotal, this`sentAttack, this`taken, this`sent
      ensures Valid()
      ensures var tries := Tries(budget, failsAt);
        && taken == old(taken) + Front(old(attackQueue), tries)
        && attackQueue == Rest(old(attackQueue), tries)
        && sent == old(sent) + Drawn(old(attackQueue), old(drawn), tries)[..Delivered(budget, failsAt)]
    {
      ghost var queue := attackQueue;
      for i := 0 to budget
        invariant failsAt.Some? && failsAt.value < budget ==> i <= failsAt.value
        invariant Valid() && launched == old(launched)
        invariant attackQueue == Rest(queue, i) && taken == old(taken) + Front(queue, i)
        invariant drawn == old(drawn) + if i <= |queue| then 0 else i - |queue|
        invariant sent == old(sent) + Drawn(queue, old(drawn), i)
      {
        DrawnStep(queue, old(drawn), i);
        var event := Take();
        assert attackQueue == Rest(queue, i + 1) && taken == old(taken) + Front(queue, i + 1);
        if failsAt == Some(i) {
          assert Drawn(queue, old(drawn), i + 1)[..i] == Drawn(queue, old(drawn), i);
          return;
        }
        sent := sent + [event];
        sentTotal := sentTotal + 1;
      }
      assert Drawn(queue, old(drawn), budget)[..budget] == Drawn(queue, old(drawn), budget);
    }

    method Take() returns (event: Event)
      requires Valid()
      modifies this`attackQueue, this`drawn, this`sentAttack, this`taken
      ensures Valid()
      ensures old(attackQueue) != [] ==>
        event == old(attackQueue)[0] && attackQueue == old(attackQueue)[1..] && taken == old(taken) + [event] && drawn == old(drawn)
      ensures old(attackQueue) == [] ==>
        event == Ordinary(old(drawn)) && drawn == old(drawn) + 1 && attackQueue == [] && taken == old(taken)
    {
      if attackQueue != [] {
        event := attackQueue[0];
        attackQueue := attackQueue[1..];
        taken := taken + [event];
        sentAttack := sentAttack + 1;
      } else {
        event := Ordinary(drawn);
        drawn := drawn + 1;
      }
    }

    /** The engine's loop. It sends the budget of each tick's rate, up to the tick's first failed send; at a
        constant rate with no pause or failure that is the sum of the budgets. Whatever happens, events once
        sent or taken stay so, and launched attacks are taken in order. */
    method Run(ticks: seq<Tick>, rate: nat)
      requires Valid()
      modifies this
      ensures Valid() && tick == old(tick) + |ticks|
      ensures sentTotal == old(sentTotal) + Sends(ticks, old(tick))
      ensures (forall i :: 0 <= i < |ticks| ==> Steady(ticks[i], rate)) ==>
        sentTotal == old(sentTotal) + Budgets(rate, old(tick), |ticks|)
      ensures Prefix(old(sent), sent) && Prefix(old(taken), taken)
    {
      for i := 0 to |ticks|
        invariant Valid() && tick == old(tick) + i
        invariant sentTotal == old(sentTotal) + Sends(ticks[..i], old(tick))
        invariant Prefix(old(sent), sent) && Prefix(old(taken), taken)
      {
        assert ticks[..i + 1][..i] == ticks[..i];
        OneTick(ticks[i]);
      }
      assert ticks[..|ticks|] == ticks;
      if forall i :: 0 <= i < |ticks| ==> Steady(ticks[i], rate) { SteadySends(ticks, rate, old(tick)); }
    }

    method OneTick(t: Tick)
      requires Valid()
      modifies this
      ensures Valid() && tick == old(tick) + 1
      ensures sentTotal == old(sentTotal) + Delivered(Budget(RateOf(t), old(tick)), t.failsAt)
      ensures Prefix(old(sent), sent) && Prefix(old(taken), taken)
    {
      if t.running && t.rate > 0 {
        MaybeLaunch(t.scenario, t.launch);
        EmitTick(Budget(if t.burst then BURST * t.rate else t.rate, tick), t.failsAt);
      }
      tick := tick + 1;
    }
  }

  const BURST := 10

  predicate Prefix(s: seq<Event>, t: seq<Event>) {
    |s| <= |t| && t[..|s|] == s
  }

  /** Events per second: none while paused, ten times the rate during a burst. */
  function RateOf(t: Tick): nat {
    if !t.running || t.rate <= 0 then 0 else if t.burst then 10 * t.rate else t.rate
  }

  /** What these ticks send, the first of them with this number. */
  function Sends(ticks: seq<Tick>, first: nat): nat {
    if ticks == [] then 0
    else
      var k := |ticks| - 1;
      Sends(ticks[..k], first) + Delivered(Budget(RateOf(ticks[k]), first + k), ticks[k].failsAt)
  }

  predicate Steady(t: Tick, rate: nat) {
    RateOf(t) == rate && t.failsAt.None?
  }

  lemma {:induction false} SteadySends(ticks: seq<Tick>, rate: nat, first: nat)
    requires forall i :: 0 <= i < |ticks| ==> Steady(ticks[i], rate)
    ensures Sends(ticks, first) == Budgets(rate, first, |ticks|)
  {
    if ticks != [] { SteadySends(ticks[..|ticks| - 1], rate, first); }
  }
}
