/** `sorted(set(xs))` on a list of dates: the distinct dates of `xs` in
    chronological order, as one strictly ascending sequence. */
module Sorting {
  import opened Dates

  /** Every earlier entry is strictly before every later one. */
  predicate StrictlyAscending(s: seq<Date>)
  {
    forall i, j :: 0 <= i < j < |s| ==> Before(s[i], s[j])
  }

  /** The set of dates a list holds (`set(xs)`). */
  function Elements(s: seq<Date>): set<Date>
  {
    set x | x in s
  }

  /** Inserts `x` into a strictly ascending list, dropping it if already present. */
  function Insert(x: Date, s: seq<Date>): (r: seq<Date>)
    requires StrictlyAscending(s)
    ensures StrictlyAscending(r)
    ensures Elements(r) == Elements(s) + {x}
    ensures |r| == if x in s then |s| else |s| + 1
  {
    if s == [] then [x]
    else if x == s[0] then s
    else if Before(x, s[0]) then [x] + s
    else
      var rest := Insert(x, s[1..]);
      assert Elements(s) == {s[0]} + Elements(s[1..]);
      assert x in s <==> x in s[1..];
      assert Before(s[0], x);
      assert forall k :: 0 <= k < |rest| ==> rest[k] in Elements(rest);
      [s[0]] + rest
  }

  /** `sorted(set(xs))`: the distinct dates of `xs`, strictly ascending. */
  function SortedSet(xs: seq<Date>): (r: seq<Date>)
    ensures StrictlyAscending(r)
    ensures Elements(r) == Elements(xs)
    ensures |r| <= |xs|
  {
    if xs == [] then []
    else
      var init := xs[..|xs| - 1];
      assert Elements(xs) == Elements(init) + {xs[|xs| - 1]};
      Insert(xs[|xs| - 1], SortedSet(init))
  }

  /** Two strictly ascending lists, the first ending before the second begins,
      join into a strictly ascending list, since `Before` is transitive. */
  lemma AscendingConcat(a: seq<Date>, b: seq<Date>)
    requires StrictlyAscending(a) && StrictlyAscending(b)
    requires a != [] && b != [] ==> Before(a[|a| - 1], b[0])
    ensures StrictlyAscending(a + b)
  {
    var s := a + b;
    forall i, j | 0 <= i < j < |s|
      ensures Before(s[i], s[j])
    {
      if i < |a| <= j {
        assert s[i] == a[i] && s[j] == b[j - |a|];
        assert i == |a| - 1 || Before(a[i], a[|a| - 1]);
        assert j == |a| || Before(b[0], b[j - |a|]);
      }
    }
  }

  /** A strictly ascending list holds no date twice. */
  lemma AscendingIsDistinct(s: seq<Date>)
    requires StrictlyAscending(s)
    ensures forall i, j :: 0 <= i < j < |s| ==> s[i] != s[j]
  {
  }

  /** A strictly ascending list holds exactly as many dates as the set of them. */
  lemma {:induction false} AscendingCardinality(s: seq<Date>)
    requires StrictlyAscending(s)
    ensures |Elements(s)| == |s|
  {
    if s != [] {
      AscendingCardinality(s[1..]);
      assert Elements(s) == {s[0]} + Elements(s[1..]);
      assert s[0] !in Elements(s[1..]);
    }
  }

  /** Only the empty list holds no dates. */
  lemma EmptyElements(s: seq<Date>)
    ensures Elements(s) == {} <==> s == []
  {
    if s != [] {
      assert s[0] in Elements(s);
    }
  }

  /** The head of a strictly ascending list is its earliest date. */
  lemma HeadIsEarliest(s: seq<Date>, x: Date)
    requires StrictlyAscending(s) && x in s
    ensures x == s[0] || Before(s[0], x)
  {
  }

  /** There is only one strictly ascending list of a given set of dates, so the
      result of `SortedSet` does not depend on how it was built. */
  lemma {:induction false} AscendingUnique(a: seq<Date>, b: seq<Date>)
    requires StrictlyAscending(a) && StrictlyAscending(b)
    requires Elements(a) == Elements(b)
    ensures a == b
  {
    if a != [] && b != [] {
      assert a[0] in Elements(b) && b[0] in Elements(a);
      HeadIsEarliest(b, a[0]);
      HeadIsEarliest(a, b[0]);
      assert Elements(a) == {a[0]} + Elements(a[1..]);
      assert Elements(b) == {b[0]} + Elements(b[1..]);
      assert a[0] !in Elements(a[1..]);
      assert b[0] !in Elements(b[1..]);
      AscendingUnique(a[1..], b[1..]);
    } else {
      EmptyElements(a);
      EmptyElements(b);
    }
  }
}
