/** Text as the engine uses it: decimal rendering and parsing (the windowed byte sum stores its
    amounts as text), the order Python sorts strings by, and sorted duplicate-free lists. */
module Text {

  datatype Option<+T> = None | Some(value: T)

  predicate IsDigit(c: char) {
    '0' <= c <= '9'
  }

  predicate AllDigits(s: string) {
    s == "" || (IsDigit(s[|s| - 1]) && AllDigits(s[..|s| - 1]))
  }

  lemma {:induction false} DigitAt(s: string, i: nat)
    requires AllDigits(s) && i < |s|
    ensures IsDigit(s[i])
  {
    if i < |s| - 1 { DigitAt(s[..|s| - 1], i); }
  }

  function Decimal(n: nat): string {
    var last := ('0' as int + n % 10) as char;
    if n < 10 then [last] else Decimal(n / 10) + [last]
  }

  /** str(n) */
  function Render(n: int): string {
    if n < 0 then "-" + Decimal(-n) else Decimal(n)
  }

  function DigitsValue(s: string): nat
    requires AllDigits(s)
  {
    if s == "" then 0
    else
      DigitsValue(s[..|s| - 1]) * 10 + (s[|s| - 1] as int - '0' as int)
  }

  /** int(s), None standing for ValueError */
  function Parse(s: string): Option<int> {
    var negative := s != "" && s[0] == '-';
    var digits := if negative then s[1..] else s;
    if digits != "" && AllDigits(digits) then
      var value: int := DigitsValue(digits);
      Some(if negative then -value else value)
    else None
  }

  lemma {:induction false} DecimalValue(n: nat)
    ensures Decimal(n) != "" && AllDigits(Decimal(n)) && DigitsValue(Decimal(n)) == n
  {
    var s := Decimal(n);
    if n < 10 {
      assert s[..0] == "";
    } else {
      DecimalValue(n / 10);
      assert s[..|s| - 1] == Decimal(n / 10);
    }
  }

  lemma {:induction false} ParseDigits(s: string)
    requires s != "" && AllDigits(s)
    ensures Parse(s) == Some(DigitsValue(s)) && Parse("-" + s) == Some(-(DigitsValue(s) as int))
  {
    DigitAt(s, 0);
    assert ("-" + s)[1..] == s;
  }

  lemma {:induction false} ParseRender(n: int)
    ensures Parse(Render(n)) == Some(n)
  {
    var m: nat := if n < 0 then -n else n;
    DecimalValue(m);
    ParseDigits(Decimal(m));
  }

  lemma {:induction false} DecimalInjective(m: nat, n: nat)
    ensures Decimal(m) == Decimal(n) <==> m == n
  {
    DecimalValue(m);
    DecimalValue(n);
  }

  // ---------------------------------------------------------------- order

  /** a < b on Python strings: code point by code point */
  predicate Before(a: string, b: string) {
    b != "" && (a == "" || a[0] < b[0] || (a[0] == b[0] && Before(a[1..], b[1..])))
  }

  /** ... so the first difference decides, or a proper prefix comes first. */
  lemma {:induction false} FirstDifference(a: string, b: string, n: nat)
    requires n <= |a| && n <= |b| && a[..n] == b[..n]
    ensures n < |a| && n < |b| && a[n] != b[n] ==> (Before(a, b) <==> a[n] < b[n])
    ensures n == |a| ==> (Before(a, b) <==> |a| < |b|)
  {
    if n > 0 {
      assert a[0] == a[..n][0] && b[0] == b[..n][0];
      assert a[1..][..n - 1] == a[..n][1..] && b[1..][..n - 1] == b[..n][1..];
      FirstDifference(a[1..], b[1..], n - 1);
    }
  }

  lemma {:induction false} BeforeIrreflexive(a: string)
    ensures !Before(a, a)
  {
    if a != "" { BeforeIrreflexive(a[1..]); }
  }

  lemma {:induction false} BeforeTotal(a: string, b: string)
    ensures a == b || Before(a, b) || Before(b, a)
  {
    if a != "" && b != "" && a[0] == b[0] {
      BeforeTotal(a[1..], b[1..]);
      assert a == [a[0]] + a[1..] && b == [b[0]] + b[1..];
    }
  }

  lemma {:induction false} BeforeTransitive(a: string, b: string, c: string)
    requires Before(a, b) && Before(b, c)
    ensures Before(a, c)
  {
    if a != "" && a[0] == b[0] == c[0] {
      BeforeTransitive(a[1..], b[1..], c[1..]);
    }
  }

  // ---------------------------------------------------------------- sorted lists

  function Elements<T(!new)>(s: seq<T>): (r: set<T>)
    ensures forall x :: x in r <==> x in s
  {
    set x | x in s
  }

  lemma {:induction false} ElementsCount<T(!new)>(s: seq<T>)
    requires forall i, j :: 0 <= i < j < |s| ==> s[i] != s[j]
    ensures |Elements(s)| == |s|
  {
    if s != [] {
      var front := s[..|s| - 1];
      ElementsCount(front);
      assert s == front + [s[|s| - 1]];
      assert Elements(s) == Elements(front) + {s[|s| - 1]};
    }
  }

  predicate Ascending(s: seq<string>) {
    forall i, j :: 0 <= i < j < |s| ==> Before(s[i], s[j])
  }

  lemma {:induction false} AscendingCount(s: seq<string>)
    requires Ascending(s)
    ensures |Elements(s)| == |s|
  {
    forall i, j | 0 <= i < j < |s| ensures s[i] != s[j] {
      BeforeIrreflexive(s[i]);
    }
    ElementsCount(s);
  }

  function Insert(x: string, s: seq<string>): seq<string> {
    if s == [] then [x]
    else if x == s[0] then s
    else if Before(x, s[0]) then [x] + s
    else [s[0]] + Insert(x, s[1..])
  }

  /** sorted(set(s)) */
  function SortDistinct(s: seq<string>): seq<string> {
    if s == [] then [] else Insert(s[0], SortDistinct(s[1..]))
  }

  lemma {:induction false} ElementsCons(x: string, s: seq<string>)
    ensures Elements([x] + s) == {x} + Elements(s)
  {
  }

  lemma {:induction false} AscendingCons(x: string, s: seq<string>)
    ensures Ascending(s) && (forall y :: y in s ==> Before(x, y)) ==> Ascending([x] + s)
  {
  }

  lemma {:induction false} InsertSorts(x: string, s: seq<string>)
    requires Ascending(s)
    ensures Ascending(Insert(x, s)) && Elements(Insert(x, s)) == Elements(s) + {x}
  {
    if s == [] || x == s[0] {
    } else if Before(x, s[0]) {
      forall j | 0 <= j < |s| ensures Before(x, s[j]) {
        if j > 0 { BeforeTransitive(x, s[0], s[j]); }
      }
      AscendingCons(x, s);
      ElementsCons(x, s);
    } else {
      var tail := Insert(x, s[1..]);
      InsertSorts(x, s[1..]);
      BeforeTotal(x, s[0]);
      forall y | y in tail ensures Before(s[0], y) {
        assert y in Elements(tail);
      }
      AscendingCons(s[0], tail);
      ElementsCons(s[0], tail);
      ElementsCons(s[0], s[1..]);
      assert s == [s[0]] + s[1..];
    }
  }

  lemma {:induction false} SortDistinctSorts(s: seq<string>)
    ensures Ascending(SortDistinct(s)) && Elements(SortDistinct(s)) == Elements(s)
  {
    if s != [] {
      SortDistinctSorts(s[1..]);
      InsertSorts(s[0], SortDistinct(s[1..]));
      ElementsCons(s[0], s[1..]);
      assert s == [s[0]] + s[1..];
    }
  }

  /** s[:k] */
  function Take<T>(s: seq<T>, k: nat): (r: seq<T>)
    ensures |r| == if |s| <= k then |s| else k
  {
    if |s| <= k then s else s[..k]
  }

  /** s[-k:] */
  function Last<T>(s: seq<T>, k: nat): (r: seq<T>)
    ensures |r| == if |s| <= k then |s| else k
  {
    if |s| <= k then s else s[|s| - k..]
  }

  /** The last element of the second half, cut off and put back. */
  lemma {:induction false} CutLast<T>(xs: seq<T>, ys: seq<T>)
    ensures ys != [] ==> var k := |ys| - 1;
      (xs + ys)[..|xs| + k] == xs + ys[..k] && (xs + ys[..k]) + [ys[k]] == xs + ys && (xs + ys)[|xs| + k] == ys[k]
  {
  }

  lemma {:induction false} LastAppend<T>(s: seq<T>, x: T, k: nat)
    ensures Last(Last(s, k) + [x], k) == Last(s + [x], k)
  {
  }

  /** `out` lists, in order, all members of `all`, at most k; or k of them, smaller than the others. */
  ghost predicate KSmallest(out: seq<string>, all: set<string>, k: nat) {
    || (Ascending(out) && |out| <= k && Elements(out) == all)
    || (Ascending(out) && |out| == k && Elements(out) <= all
        && forall x, y :: x in out && y in all && y !in out ==> Before(x, y))
  }

  lemma {:induction false} KSmallestOfSorted(s: seq<string>, k: nat)
    requires Ascending(s)
    ensures KSmallest(Take(s, k), Elements(s), k)
  {
    var out := Take(s, k);
    forall y | y in Elements(s)
      ensures y in out || (|out| == k && forall x :: x in out ==> Before(x, y))
    {
      var j :| 0 <= j < |s| && s[j] == y;
      if j < |out| { assert out[j] == y; }
    }
  }

  /** Merging a batch into a capped list and capping again loses nothing. */
  lemma {:induction false} KSmallestMerge(a: seq<string>, all: set<string>, b: seq<string>, k: nat)
    requires KSmallest(a, all, k)
    ensures KSmallest(Take(SortDistinct(a + b), k), all + Elements(b), k)
  {
    var c := SortDistinct(a + b);
    SortDistinctSorts(a + b);
    var out := Take(c, k);
    KSmallestOfSorted(c, k);
    assert Elements(c) == Elements(a) + Elements(b) by { assert Elements(a + b) == Elements(a) + Elements(b); }
    forall y | y in all + Elements(b)
      ensures y in out || (|out| == k && forall x :: x in out ==> Before(x, y))
    {
      if y !in Elements(c) {
        assert |a| == k;
        CrowdedOut(a, c, k, y);
      }
    }
    assert forall x :: x in out ==> x in Elements(c);
  }

  /** If k members of the sorted list c all precede y, so do its first k members. */
  lemma {:induction false} CrowdedOut(a: seq<string>, c: seq<string>, k: nat, y: string)
    requires Ascending(a) && Ascending(c) && |a| == k
    requires forall x :: x in a ==> x in c && Before(x, y)
    ensures |Take(c, k)| == k && forall x :: x in Take(c, k) ==> Before(x, y)
  {
    AscendingCount(a);
    AscendingCount(c);
    SubsetCount(Elements(a), Elements(c));
    forall i | 0 <= i < k
      ensures Before(c[i], y)
    {
      if !Before(c[i], y) {
        var low := c[..i];
        forall x | x in a ensures x in low {
          var j :| 0 <= j < |c| && c[j] == x;
          if j == i {
          } else if j > i {
            BeforeTransitive(c[i], x, y);
          } else {
            assert low[j] == x;
          }
        }
        AscendingCount(low);
        SubsetCount(Elements(a), Elements(low));
        assert false;
      }
    }
  }

  lemma {:induction false} SubsetCount<T>(a: set<T>, b: set<T>)
    ensures a <= b ==> |a| <= |b|
  {
    if a <= b { assert b == a + (b - a); }
  }

  /** There is only one such list, so it does not depend on the order the members arrived in. */
  lemma {:induction false} KSmallestUnique(p: seq<string>, q: seq<string>, all: set<string>, k: nat)
    requires KSmallest(p, all, k) && KSmallest(q, all, k)
    ensures p == q
  {
    KSmallestContained(p, q, all, k);
    KSmallestContained(q, p, all, k);
    AscendingUnique(p, q);
  }

  lemma {:induction false} KSmallestContained(p: seq<string>, q: seq<string>, all: set<string>, k: nat)
    requires KSmallest(p, all, k) && KSmallest(q, all, k)
    ensures Elements(p) <= Elements(q)
  {
    AscendingCount(p);
    AscendingCount(q);
    forall x | x in p ensures x in q {
      if x !in q {
        forall y | y in q ensures y in p {
          if y !in p {
            assert Before(y, x) && Before(x, y);
            BeforeTransitive(x, y, x);
            BeforeIrreflexive(x);
          }
        }
        assert Elements(q) <= Elements(p) - {x};
        SubsetCount(Elements(q), Elements(p) - {x});
      }
    }
  }

  lemma {:induction false} AscendingUnique(p: seq<string>, q: seq<string>)
    requires Ascending(p) && Ascending(q) && Elements(p) == Elements(q)
    ensures p == q
  {
    AscendingCount(p);
    AscendingCount(q);
    if p != [] {
      HeadIsLeast(p, q);
      HeadIsLeast(q, p);
      if p[0] != q[0] {
        BeforeTransitive(p[0], q[0], p[0]);
        BeforeIrreflexive(p[0]);
      }
      forall x ensures x in p[1..] <==> x in p && x != p[0] { TailMembers(p, x); }
      forall x ensures x in q[1..] <==> x in q && x != q[0] { TailMembers(q, x); }
      assert forall x :: x in p <==> x in Elements(p);
      assert forall x :: x in q <==> x in Elements(q);
      assert Elements(p[1..]) == Elements(q[1..]);
      AscendingUnique(p[1..], q[1..]);
      assert p == [p[0]] + p[1..] && q == [q[0]] + q[1..];
    }
  }

  lemma {:induction false} TailMembers(p: seq<string>, x: string)
    requires Ascending(p) && p != []
    ensures x in p[1..] <==> x in p && x != p[0]
  {
    BeforeIrreflexive(p[0]);
    assert p == [p[0]] + p[1..];
  }

  lemma {:induction false} HeadIsLeast(p: seq<string>, q: seq<string>)
    requires Ascending(p) && p != [] && q != [] && Elements(p) == Elements(q)
    ensures p[0] == q[0] || Before(p[0], q[0])
  {
    assert q[0] in Elements(p);
  }
}
