/** List helpers shared by the core: JavaScript's `slice(0, n)`, the "prepend, then keep the
    first n" update used by the status context and the log dashboard, and `filter` and
    `map(...).filter(x => x !== null)`. */
module Lists {
  import opened Wrappers

  /** `s.slice(0, n)`: the first n elements, or all of s when it is shorter. */
  function Take<T>(s: seq<T>, n: nat): (r: seq<T>)
    ensures |r| == if |s| <= n then |s| else n
    ensures r == s[..|r|]
  {
    if |s| <= n then s else s[..n]
  }

  /** `[x, ...s].slice(0, cap)` */
  function PushFrontCapped<T>(x: T, s: seq<T>, cap: nat): seq<T>
  {
    Take([x] + s, cap)
  }

  /** The new entry comes first, older entries follow in their old order, and the list never
      grows past the cap; an entry drops off the end only when the list was already full. */
  lemma PushFrontCappedShape<T>(x: T, s: seq<T>, cap: nat)
    requires cap > 0
    ensures |PushFrontCapped(x, s, cap)| <= cap
    ensures PushFrontCapped(x, s, cap)[0] == x
    ensures PushFrontCapped(x, s, cap)[1..] == s[..|PushFrontCapped(x, s, cap)| - 1]
    ensures |PushFrontCapped(x, s, cap)| == if |s| < cap then |s| + 1 else cap
  {
    var r := PushFrontCapped(x, s, cap);
    assert r == ([x] + s)[..|r|];
    assert r[1..] == s[..|r| - 1];
  }

  /** Two capped pushes in a row equal one capped push of both entries, newest first. */
  lemma PushFrontCappedTwice<T>(x: T, y: T, s: seq<T>, cap: nat)
    ensures PushFrontCapped(y, PushFrontCapped(x, s, cap), cap) == Take([y, x] + s, cap)
  {
    var inner := Take([x] + s, cap);
    var lhs := Take([y] + inner, cap);
    var rhs := Take([y, x] + s, cap);
    assert |lhs| == |rhs|;
    forall i | 0 <= i < |lhs| ensures lhs[i] == rhs[i] {
      if i > 0 {
        assert lhs[i] == inner[i - 1];
      }
    }
  }

  /** `s.filter(keep)` */
  function Filter<T>(s: seq<T>, keep: T -> bool): (r: seq<T>)
    ensures forall k :: 0 <= k < |r| ==> keep(r[k])
    ensures |r| <= |s|
  {
    if s == [] then []
    else if keep(s[0]) then [s[0]] + Filter(s[1..], keep)
    else Filter(s[1..], keep)
  }

  /** `filter` keeps each element that passes as often as it occurs, and drops every other. */
  lemma {:induction false} FilterSpec<T>(s: seq<T>, keep: T -> bool)
    ensures forall x :: keep(x) ==> multiset(Filter(s, keep))[x] == multiset(s)[x]
    ensures forall x :: !keep(x) ==> multiset(Filter(s, keep))[x] == 0
    decreases |s|
  {
    if s != [] {
      FilterSpec(s[1..], keep);
      assert s == [s[0]] + s[1..];
    }
  }

  /** Every element `filter` keeps is an element of the list that passes the test. */
  lemma {:induction false} FilterFrom<T>(s: seq<T>, keep: T -> bool, x: T)
    requires x in Filter(s, keep)
    ensures exists k :: 0 <= k < |s| && s[k] == x && keep(x)
    decreases |s|
  {
    if s[0] != x || !keep(s[0]) {
      if keep(s[0]) {
        assert Filter(s, keep) == [s[0]] + Filter(s[1..], keep);
      }
      FilterFrom(s[1..], keep, x);
      var k :| 0 <= k < |s[1..]| && s[1..][k] == x && keep(x);
      assert s[k + 1] == x;
    }
  }

  /** `s.map(f).filter(y => y !== null)`: the results that are present, in order. */
  function FilterMap<A, B>(s: seq<A>, f: A -> Option<B>): (r: seq<B>)
    ensures |r| <= |s|
  {
    if s == [] then []
    else match f(s[0])
      case Some(y) => [y] + FilterMap(s[1..], f)
      case None => FilterMap(s[1..], f)
  }

  /** Mapping block by block: the results of two blocks are those of the first followed by
      those of the second. */
  lemma {:induction false} FilterMapAppend<A, B>(a: seq<A>, b: seq<A>, f: A -> Option<B>)
    ensures FilterMap(a + b, f) == FilterMap(a, f) + FilterMap(b, f)
    decreases |a|
  {
    if a != [] {
      assert (a + b)[1..] == a[1..] + b;
      FilterMapAppend(a[1..], b, f);
    } else {
      assert a + b == b;
    }
  }

  /** Every result comes from some element. */
  lemma {:induction false} FilterMapOrigin<A, B>(s: seq<A>, f: A -> Option<B>, y: B)
    requires y in FilterMap(s, f)
    ensures exists k :: 0 <= k < |s| && f(s[k]) == Some(y)
    decreases |s|
  {
    if f(s[0]) != Some(y) {
      if f(s[0]).Some? {
        assert FilterMap(s, f) == [f(s[0]).value] + FilterMap(s[1..], f);
      }
      FilterMapOrigin(s[1..], f, y);
      var k :| 0 <= k < |s[1..]| && f(s[1..][k]) == Some(y);
      assert f(s[k + 1]) == Some(y);
    }
  }

  /** Filtering out elements that map to nothing anyway changes nothing. */
  lemma {:induction false} FilterMapSkipsFiltered<A, B>(s: seq<A>, keep: A -> bool, f: A -> Option<B>)
    requires forall x :: x in s && !keep(x) ==> f(x).None?
    ensures FilterMap(Filter(s, keep), f) == FilterMap(s, f)
    decreases |s|
  {
    if s != [] {
      FilterMapSkipsFiltered(s[1..], keep, f);
      if keep(s[0]) {
        assert ([s[0]] + Filter(s[1..], keep))[1..] == Filter(s[1..], keep);
      }
    }
  }
}
