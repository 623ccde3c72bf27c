/** Three-way comparisons, their lexicographic chains, and sorting by one. */
module Orderings {
  import opened Collections

  datatype Ordering = Less | Equal | Greater

  type Comparison<!T> = (T, T) -> Ordering

  function Flip(o: Ordering): Ordering {
    match o
    case Less => Greater
    case Equal => Equal
    case Greater => Less
  }

  function Then(first: Ordering, second: Ordering): Ordering {
    if first == Equal then second else first
  }

  /** A comparison under which every two elements compare consistently, in both directions and through a third. */
  ghost predicate Preorder<T(!new)>(compare: Comparison<T>) {
    && (forall a: T, b: T :: compare(a, b) == Flip(compare(b, a)))
    && (forall a: T, b: T, c: T :: compare(a, b) != Greater && compare(b, c) != Greater ==>
          compare(a, c) == (if compare(a, b) == Less || compare(b, c) == Less then Less else Equal))
  }

  function Chain<T>(first: Comparison<T>, second: Comparison<T>): Comparison<T> {
    (a, b) => Then(first(a, b), second(a, b))
  }

  lemma ChainPreorder<T(!new)>(first: Comparison<T>, second: Comparison<T>)
    requires Preorder(first) && Preorder(second)
    ensures Preorder(Chain(first, second))
  {
  }

  function By<T, K>(key: T -> K, compare: Comparison<K>): Comparison<T> {
    (a, b) => compare(key(a), key(b))
  }

  lemma ByPreorder<T(!new), K(!new)>(key: T -> K, compare: Comparison<K>)
    requires Preorder(compare)
    ensures Preorder(By(key, compare))
  {
  }

  function CompareNat(a: nat, b: nat): Ordering {
    if a < b then Less else if a == b then Equal else Greater
  }

  function CompareReal(a: real, b: real): Ordering {
    if a < b then Less else if a == b then Equal else Greater
  }

  /** Known values first, in the given order; unknown ones last. */
  function CompareKnown<T>(compare: Comparison<T>, a: Option<T>, b: Option<T>): Ordering {
    match (a, b)
    case (Some(x), Some(y)) => compare(x, y)
    case (Some(_), None) => Less
    case (None, Some(_)) => Greater
    case (None, None) => Equal
  }

  function Known<T>(compare: Comparison<T>): Comparison<Option<T>> {
    (a, b) => CompareKnown(compare, a, b)
  }

  lemma KnownPreorder<T(!new)>(compare: Comparison<T>)
    requires Preorder(compare)
    ensures Preorder(Known(compare))
  {
    forall a: Option<T>, b: Option<T>
      ensures Known(compare)(a, b) == Flip(Known(compare)(b, a))
    {
    }
    forall a: Option<T>, b: Option<T>, c: Option<T> | Known(compare)(a, b) != Greater && Known(compare)(b, c) != Greater
      ensures Known(compare)(a, c)
           == (if Known(compare)(a, b) == Less || Known(compare)(b, c) == Less then Less else Equal)
    {
      if a.Some? && b.Some? && c.Some? {
        var x, y, z := a.value, b.value, c.value;
        assert compare(x, y) != Greater && compare(y, z) != Greater;
      }
    }
  }

  function CompareText(a: string, b: string): Ordering {
    if a == [] || b == [] then CompareNat(|a|, |b|)
    else if a[0] != b[0] then if a[0] < b[0] then Less else Greater
    else CompareText(a[1..], b[1..])
  }

  lemma {:induction false} TextFlips(a: string, b: string)
    ensures CompareText(a, b) == Flip(CompareText(b, a))
    ensures CompareText(a, b) == Equal <==> a == b
  {
    if a != [] && b != [] && a[0] == b[0] {
      TextFlips(a[1..], b[1..]);
      assert a == [a[0]] + a[1..] && b == [b[0]] + b[1..];
    }
  }

  lemma {:induction false} TextTransitive(a: string, b: string, c: string)
    requires CompareText(a, b) != Greater && CompareText(b, c) != Greater
    ensures CompareText(a, c) == (if CompareText(a, b) == Less || CompareText(b, c) == Less then Less else Equal)
  {
    if a != [] && b != [] && c != [] && a[0] == b[0] == c[0] {
      TextTransitive(a[1..], b[1..], c[1..]);
    }
  }

  lemma TextPreorder()
    ensures Preorder(CompareText)
  {
    forall a: string, b: string
      ensures CompareText(a, b) == Flip(CompareText(b, a))
    {
      TextFlips(a, b);
    }
    forall a: string, b: string, c: string | CompareText(a, b) != Greater && CompareText(b, c) != Greater
      ensures CompareText(a, c) == (if CompareText(a, b) == Less || CompareText(b, c) == Less then Less else Equal)
    {
      TextTransitive(a, b, c);
    }
  }

  // ---- Stable sorting ----

  function InsertWith<T>(compare: Comparison<T>, x: T, s: seq<T>): seq<T> {
    if s == [] then [x]
    else if compare(x, s[0]) != Greater then [x] + s
    else [s[0]] + InsertWith(compare, x, s[1..])
  }

  function SortWith<T>(compare: Comparison<T>, s: seq<T>): seq<T> {
    if s == [] then [] else InsertWith(compare, s[0], SortWith(compare, s[1..]))
  }

  ghost predicate Ascending<T>(compare: Comparison<T>, s: seq<T>) {
    forall i: nat, j: nat :: i < j < |s| ==> compare(s[i], s[j]) != Greater
  }

  lemma PrependAscends<T>(compare: Comparison<T>, x: T, s: seq<T>)
    requires Ascending(compare, s)
    requires forall j: nat :: j < |s| ==> compare(x, s[j]) != Greater
    ensures Ascending(compare, [x] + s)
  {
  }

  lemma {:induction false} InsertAscends<T(!new)>(compare: Comparison<T>, x: T, s: seq<T>)
    requires Preorder(compare) && Ascending(compare, s)
    ensures multiset(InsertWith(compare, x, s)) == multiset{x} + multiset(s)
    ensures Ascending(compare, InsertWith(compare, x, s))
  {
    if s == [] {
    } else if compare(x, s[0]) != Greater {
      forall j: nat | j < |s|
        ensures compare(x, s[j]) != Greater
      {
        assert j > 0 ==> compare(s[0], s[j]) != Greater;
      }
      PrependAscends(compare, x, s);
    } else {
      InsertAscends(compare, x, s[1..]);
      var rest := InsertWith(compare, x, s[1..]);
      HeadTail(s);
      forall j: nat | j < |rest|
        ensures compare(s[0], rest[j]) != Greater
      {
        assert rest[j] in multiset(rest);
      }
      PrependAscends(compare, s[0], rest);
    }
  }

  lemma {:induction false} SortAscends<T(!new)>(compare: Comparison<T>, s: seq<T>)
    requires Preorder(compare)
    ensures multiset(SortWith(compare, s)) == multiset(s)
    ensures Ascending(compare, SortWith(compare, s))
  {
    if s != [] {
      SortAscends(compare, s[1..]);
      InsertAscends(compare, s[0], SortWith(compare, s[1..]));
      HeadTail(s);
    }
  }

  lemma SameLeast<T(!new)>(compare: Comparison<T>, a: seq<T>, b: seq<T>)
    requires a != [] && b != [] && multiset(a) == multiset(b)
    requires forall x: T, y: T :: compare(x, y) == Flip(compare(y, x))
    requires Ascending(compare, a) && Ascending(compare, b)
    requires forall x, y :: x in a && y in a && compare(x, y) == Equal ==> x == y
    ensures a[0] == b[0]
  {
    assert a[0] in multiset(b) && b[0] in multiset(a);
    assert compare(a[0], a[0]) == Equal;
    assert compare(a[0], b[0]) != Greater && compare(b[0], a[0]) != Greater;
  }

  /** Two ascending arrangements of one multiset agree when elements that compare equal are equal. */
  lemma {:induction false} AscendingUnique<T(!new)>(compare: Comparison<T>, a: seq<T>, b: seq<T>)
    requires multiset(a) == multiset(b)
    requires forall x: T, y: T :: compare(x, y) == Flip(compare(y, x))
    requires Ascending(compare, a) && Ascending(compare, b)
    requires forall x, y :: x in a && y in a && compare(x, y) == Equal ==> x == y
    ensures a == b
  {
    assert |multiset(a)| == |multiset(b)|;
    if a != [] {
      SameLeast(compare, a, b);
      HeadTail(a);
      HeadTail(b);
      assert multiset(a[1..]) == multiset(a) - multiset{a[0]} == multiset(b[1..]);
      AscendingUnique(compare, a[1..], b[1..]);
    }
  }
}
