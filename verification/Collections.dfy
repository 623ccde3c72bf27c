/** Results, and the multiset and sorting facts shared by the other modules. */
module Collections {

  datatype Option<+T> = None | Some(value: T)

  datatype Result<+T, +E> = Ok(value: T) | Err(error: E)

  /** The multiset sum of `f` over a sequence. */
  ghost function Gather<T, F>(f: T -> multiset<F>, s: seq<T>): multiset<F> {
    if s == [] then multiset{} else f(s[0]) + Gather(f, s[1..])
  }

  lemma {:induction false} GatherConcat<T, F>(f: T -> multiset<F>, a: seq<T>, b: seq<T>)
    ensures Gather(f, a + b) == Gather(f, a) + Gather(f, b)
  {
    if a == [] {
      assert a + b == b;
    } else {
      assert (a + b)[1..] == a[1..] + b;
      GatherConcat(f, a[1..], b);
    }
  }

  lemma GatherOne<T, F>(f: T -> multiset<F>, x: T)
    ensures Gather(f, [x]) == f(x)
  {
    assert [x][1..] == [];
  }

  lemma GatherSplit<T, F>(f: T -> multiset<F>, s: seq<T>, i: nat)
    requires i < |s|
    ensures Gather(f, s) == Gather(f, s[..i]) + f(s[i]) + Gather(f, s[i + 1..])
  {
    assert s == s[..i] + ([s[i]] + s[i + 1..]);
    GatherConcat(f, s[..i], [s[i]] + s[i + 1..]);
    GatherConcat(f, [s[i]], s[i + 1..]);
    GatherOne(f, s[i]);
  }

  /** Replacing one element by a larger one adds exactly the difference. */
  lemma GatherUpdate<T, F>(f: T -> multiset<F>, s: seq<T>, i: nat, x: T, extra: multiset<F>)
    requires i < |s|
    requires f(x) == f(s[i]) + extra
    ensures Gather(f, s[i := x]) == Gather(f, s) + extra
  {
    var t := s[i := x];
    GatherSplit(f, s, i);
    GatherSplit(f, t, i);
    assert t[..i] == s[..i] && t[i + 1..] == s[i + 1..];
  }

  lemma HeadTail<T>(s: seq<T>)
    requires s != []
    ensures multiset(s) == multiset{s[0]} + multiset(s[1..])
  {
    assert s == [s[0]] + s[1..];
  }

  lemma RemoveAt<T>(b: seq<T>, i: nat)
    requires i < |b|
    ensures multiset(b) == multiset{b[i]} + multiset(b[..i] + b[i + 1..])
  {
    assert b == b[..i] + ([b[i]] + b[i + 1..]);
  }

  /** The sum does not depend on the order of the sequence. */
  lemma {:induction false} GatherPermutation<T, F>(f: T -> multiset<F>, a: seq<T>, b: seq<T>)
    requires multiset(a) == multiset(b)
    ensures Gather(f, a) == Gather(f, b)
  {
    if a == [] {
      assert |multiset(b)| == 0;
      assert b == [];
    } else {
      assert a[0] in multiset(a);
      var i :| 0 <= i < |b| && b[i] == a[0];
      HeadTail(a);
      RemoveAt(b, i);
      assert multiset(a[1..]) == multiset(a) - multiset{a[0]} == multiset(b[..i] + b[i + 1..]);
      GatherPermutation(f, a[1..], b[..i] + b[i + 1..]);
      GatherSplit(f, b, i);
      GatherConcat(f, b[..i], b[i + 1..]);
    }
  }

  lemma {:induction false} GatherMember<T, F>(f: T -> multiset<F>, s: seq<T>, fact: F) returns (i: nat)
    requires fact in Gather(f, s)
    ensures i < |s| && fact in f(s[i])
  {
    if fact in f(s[0]) {
      i := 0;
    } else {
      var j := GatherMember(f, s[1..], fact);
      i := j + 1;
    }
  }

  lemma GatherContains<T, F>(f: T -> multiset<F>, s: seq<T>, i: nat)
    requires i < |s|
    ensures f(s[i]) <= Gather(f, s)
  {
    GatherSplit(f, s, i);
  }

  /** If nothing but position `i` contributes to a fact, its count is that of position `i`. */
  lemma {:induction false} GatherOnly<T, F>(f: T -> multiset<F>, s: seq<T>, i: nat, fact: F)
    requires i < |s|
    requires forall j :: 0 <= j < |s| && j != i ==> fact !in f(s[j])
    ensures Gather(f, s)[fact] == f(s[i])[fact]
  {
    GatherSplit(f, s, i);
    if fact in Gather(f, s[..i]) {
      var _ := GatherMember(f, s[..i], fact);
    }
    if fact in Gather(f, s[i + 1..]) {
      var _ := GatherMember(f, s[i + 1..], fact);
    }
  }

  /** If every element contributes at most as much to `a`, `b` together as to `k`, so does the sum. */
  lemma {:induction false} GatherBound<T, F, G>(
      f: T -> multiset<F>, g: T -> multiset<G>, s: seq<T>, a: F, b: F, k: G)
    requires forall i :: 0 <= i < |s| ==> f(s[i])[a] + f(s[i])[b] <= g(s[i])[k]
    ensures Gather(f, s)[a] + Gather(f, s)[b] <= Gather(g, s)[k]
  {
    if s != [] {
      forall i | 0 <= i < |s[1..]|
        ensures f(s[1..][i])[a] + f(s[1..][i])[b] <= g(s[1..][i])[k]
      {
        assert s[1..][i] == s[i + 1];
      }
      GatherBound(f, g, s[1..], a, b, k);
    }
  }

  function Heads<T, H>(head: T -> H, s: seq<T>): seq<H> {
    seq(|s|, i requires 0 <= i < |s| => head(s[i]))
  }

  /** Counting a fact that marks the heads equal to `h` is counting those heads. */
  lemma {:induction false} GatherHeads<T, F, H>(f: T -> multiset<F>, head: T -> H, s: seq<T>, fact: F, h: H)
    requires forall i :: 0 <= i < |s| ==> f(s[i])[fact] == if head(s[i]) == h then 1 else 0
    ensures Gather(f, s)[fact] == multiset(Heads(head, s))[h]
  {
    if s != [] {
      forall i | 0 <= i < |s[1..]|
        ensures f(s[1..][i])[fact] == if head(s[1..][i]) == h then 1 else 0
      {
        assert s[1..][i] == s[i + 1];
      }
      GatherHeads(f, head, s[1..], fact, h);
      HeadTail(Heads(head, s));
      assert Heads(head, s)[1..] == Heads(head, s[1..]);
    }
  }

  lemma HeadsPush<T, H>(head: T -> H, s: seq<T>, i: nat)
    requires i < |s|
    ensures Heads(head, s[..i + 1]) == Heads(head, s[..i]) + [head(s[i])]
  {
  }

  /** Mapping permuted sequences gives permuted sequences. */
  lemma {:induction false} HeadsPermute<T, H>(head: T -> H, a: seq<T>, b: seq<T>)
    requires multiset(a) == multiset(b)
    ensures multiset(Heads(head, a)) == multiset(Heads(head, b))
  {
    var one := (x: T) => multiset{head(x)};
    GatherPermutation(one, a, b);
    HeadsGathered(head, one, a);
    HeadsGathered(head, one, b);
  }

  lemma {:induction false} HeadsGathered<T, H>(head: T -> H, one: T -> multiset<H>, s: seq<T>)
    requires forall x :: x in s ==> one(x) == multiset{head(x)}
    ensures multiset(Heads(head, s)) == Gather(one, s)
  {
    if s != [] {
      HeadsGathered(head, one, s[1..]);
      HeadTail(Heads(head, s));
      assert Heads(head, s)[1..] == Heads(head, s[1..]);
    }
  }

  // ---- Collecting what a fallible function gives ----

  /** The values `f` gives, in order; the first failure ends the collection. */
  function CollectSome<T, V, E>(f: T -> Result<Option<V>, E>, s: seq<T>): Result<seq<V>, E> {
    if s == [] then Ok([])
    else
      match CollectSome(f, s[..|s| - 1])
      case Err(e) => Err(e)
      case Ok(before) =>
        match f(s[|s| - 1])
        case Err(e) => Err(e)
        case Ok(None) => Ok(before)
        case Ok(Some(value)) => Ok(before + [value])
  }

  lemma {:induction false} CollectOrigin<T, V, E>(f: T -> Result<Option<V>, E>, s: seq<T>, value: V)
    requires CollectSome(f, s).Ok? && value in CollectSome(f, s).value
    ensures exists x :: x in s && f(x) == Ok(Some(value))
  {
    var n := |s| - 1;
    assert s[n] in s;
    if value in CollectSome(f, s[..n]).value {
      CollectOrigin(f, s[..n], value);
      var x :| x in s[..n] && f(x) == Ok(Some(value));
      assert x in s;
    }
  }

  lemma {:induction false} CollectComplete<T, V, E>(f: T -> Result<Option<V>, E>, s: seq<T>, k: nat)
    requires CollectSome(f, s).Ok? && k < |s|
    ensures f(s[k]).Ok? && (f(s[k]).value.Some? ==> f(s[k]).value.value in CollectSome(f, s).value)
  {
    var n := |s| - 1;
    if k < n {
      CollectComplete(f, s[..n], k);
      assert s[..n][k] == s[k];
    }
  }

  lemma {:induction false} CollectFails<T, V, E>(f: T -> Result<Option<V>, E>, s: seq<T>, n: nat)
    requires n <= |s| && CollectSome(f, s[..n]).Err?
    ensures CollectSome(f, s) == CollectSome(f, s[..n])
    decreases |s|
  {
    if n == |s| {
      assert s[..n] == s;
    } else {
      assert s[..|s| - 1][..n] == s[..n];
      CollectFails(f, s[..|s| - 1], n);
    }
  }

  // ---- Stable sorting by a key ----

  type Key = (nat, nat)

  predicate KeyLe(a: Key, b: Key) {
    a.0 < b.0 || (a.0 == b.0 && a.1 <= b.1)
  }

  function Insert<T>(key: T -> Key, x: T, s: seq<T>): seq<T> {
    if s == [] then [x]
    else if KeyLe(key(x), key(s[0])) then [x] + s
    else [s[0]] + Insert(key, x, s[1..])
  }

  /** The standard library's stable `sort_by`, as insertion from the right. */
  function SortBy<T>(key: T -> Key, s: seq<T>): seq<T> {
    if s == [] then [] else Insert(key, s[0], SortBy(key, s[1..]))
  }

  ghost predicate SortedBy<T>(key: T -> Key, s: seq<T>) {
    forall i, j :: 0 <= i < j < |s| ==> KeyLe(key(s[i]), key(s[j]))
  }

  lemma {:induction false} InsertProperties<T>(key: T -> Key, x: T, s: seq<T>)
    requires SortedBy(key, s)
    ensures multiset(Insert(key, x, s)) == multiset{x} + multiset(s)
    ensures SortedBy(key, Insert(key, x, s))
  {
    if s == [] {
    } else if KeyLe(key(x), key(s[0])) {
    } else {
      InsertProperties(key, x, s[1..]);
      var rest := Insert(key, x, s[1..]);
      assert s == [s[0]] + s[1..];
      forall j | 0 <= j < |rest|
        ensures KeyLe(key(s[0]), key(rest[j]))
      {
        assert rest[j] in multiset(rest);
      }
    }
  }

  lemma {:induction false} SortByProperties<T>(key: T -> Key, s: seq<T>)
    ensures multiset(SortBy(key, s)) == multiset(s)
    ensures |SortBy(key, s)| == |s|
    ensures SortedBy(key, SortBy(key, s))
  {
    if s != [] {
      SortByProperties(key, s[1..]);
      InsertProperties(key, s[0], SortBy(key, s[1..]));
      assert s == [s[0]] + s[1..];
    }
    assert |multiset(SortBy(key, s))| == |multiset(s)|;
  }

  /** Two sorted arrangements of one multiset agree when equal keys mean equal elements. */
  lemma {:induction false} SortedUnique<T>(key: T -> Key, a: seq<T>, b: seq<T>)
    requires multiset(a) == multiset(b)
    requires SortedBy(key, a) && SortedBy(key, b)
    requires forall x, y :: x in a && y in a && key(x) == key(y) ==> x == y
    ensures a == b
  {
    assert |multiset(a)| == |multiset(b)|;
    if a != [] {
      assert a[0] in multiset(b) && b[0] in multiset(a);
      assert KeyLe(key(a[0]), key(b[0])) && KeyLe(key(b[0]), key(a[0]));
      HeadTail(a);
      HeadTail(b);
      assert multiset(a[1..]) == multiset(a) - multiset{a[0]} == multiset(b[1..]);
      SortedUnique(key, a[1..], b[1..]);
    }
  }

  /** `dedup_by_key`: neighbours with the same key collapse onto the first. */
  function Dedup<T>(key: T -> Key, s: seq<T>): seq<T> {
    if |s| <= 1 then s
    else
      var rest, last := Dedup(key, s[..|s| - 1]), s[|s| - 1];
      if rest != [] && key(rest[|rest| - 1]) == key(last) then rest else rest + [last]
  }

  lemma {:induction false} DedupKeeps<T>(key: T -> Key, s: seq<T>)
    ensures forall x :: x in Dedup(key, s) ==> x in s
    ensures s != [] ==> Dedup(key, s) != [] && key(Dedup(key, s)[|Dedup(key, s)| - 1]) == key(s[|s| - 1])
  {
    if |s| > 1 {
      DedupKeeps(key, s[..|s| - 1]);
    }
  }

  /** No key is lost. */
  lemma {:induction false} DedupCovers<T>(key: T -> Key, s: seq<T>, i: nat) returns (j: nat)
    requires i < |s|
    ensures j < |Dedup(key, s)| && key(Dedup(key, s)[j]) == key(s[i])
  {
    DedupKeeps(key, s);
    if i == |s| - 1 {
      j := |Dedup(key, s)| - 1;
    } else {
      j := DedupCovers(key, s[..|s| - 1], i);
    }
  }

  /** On a sorted list, collapsing neighbours leaves every key exactly once. */
  lemma {:induction false} DedupDistinct<T>(key: T -> Key, s: seq<T>)
    requires SortedBy(key, s)
    ensures forall i, j :: 0 <= i < j < |Dedup(key, s)| ==>
      KeyLe(key(Dedup(key, s)[i]), key(Dedup(key, s)[j])) && key(Dedup(key, s)[i]) != key(Dedup(key, s)[j])
  {
    if |s| > 1 {
      var n := |s| - 1;
      DedupDistinct(key, s[..n]);
      DedupKeeps(key, s[..n]);
      var rest := Dedup(key, s[..n]);
      assert forall i :: 0 <= i < |rest| ==> KeyLe(key(rest[i]), key(rest[|rest| - 1]));
      assert KeyLe(key(rest[|rest| - 1]), key(s[n])) by {
        assert key(rest[|rest| - 1]) == key(s[n - 1]);
      }
    }
  }

  /** The element comes first of those with its key. */
  ghost predicate FirstWith<T(!new)>(key: T -> Key, s: seq<T>, x: T) {
    exists k: nat :: k < |s| && s[k] == x && forall j: nat :: j < k ==> key(s[j]) != key(x)
  }

  lemma FirstOfCons<T(!new)>(key: T -> Key, head: T, s: seq<T>, x: T)
    ensures FirstWith(key, [head] + s, x) <==> x == head || (key(x) != key(head) && FirstWith(key, s, x))
  {
    var t := [head] + s;
    if FirstWith(key, t, x) && x != head {
      var k: nat :| k < |t| && t[k] == x && forall j: nat :: j < k ==> key(t[j]) != key(x);
      assert key(t[0]) != key(x) && s[k - 1] == x;
      assert forall j: nat :: j < k - 1 ==> s[j] == t[j + 1];
    }
    if x == head {
      assert t[0] == x;
    } else if key(x) != key(head) && FirstWith(key, s, x) {
      var k: nat :| k < |s| && s[k] == x && forall j: nat :: j < k ==> key(s[j]) != key(x);
      assert t[k + 1] == x;
      assert forall j: nat :: 0 < j < k + 1 ==> t[j] == s[j - 1];
    }
  }

  lemma FirstOfConcat<T(!new)>(key: T -> Key, a: seq<T>, b: seq<T>, x: T)
    ensures FirstWith(key, a + b, x)
       <==> FirstWith(key, a, x) || (FirstWith(key, b, x) && forall y :: y in a ==> key(y) != key(x))
  {
    var t := a + b;
    if FirstWith(key, t, x) {
      var k: nat :| k < |t| && t[k] == x && forall j: nat :: j < k ==> key(t[j]) != key(x);
      if k < |a| {
        assert a[k] == x && forall j: nat :: j < k ==> a[j] == t[j];
      } else {
        assert b[k - |a|] == x && forall j: nat :: j < k - |a| ==> b[j] == t[|a| + j];
        assert forall j: nat :: j < |a| ==> a[j] == t[j];
      }
    }
    if FirstWith(key, a, x) {
      var k: nat :| k < |a| && a[k] == x && forall j: nat :: j < k ==> key(a[j]) != key(x);
      assert t[k] == x && forall j: nat :: j < k ==> t[j] == a[j];
    } else if FirstWith(key, b, x) && forall y :: y in a ==> key(y) != key(x) {
      var k: nat :| k < |b| && b[k] == x && forall j: nat :: j < k ==> key(b[j]) != key(x);
      assert t[|a| + k] == x;
      forall j: nat | j < |a| + k
        ensures key(t[j]) != key(x)
      {
        if j < |a| {
          assert t[j] in a;
        } else {
          assert t[j] == b[j - |a|];
        }
      }
    }
  }

  lemma {:induction false} InsertKeepsFirst<T(!new)>(key: T -> Key, x: T, s: seq<T>, y: T)
    ensures FirstWith(key, Insert(key, x, s), y) <==> y == x || (key(y) != key(x) && FirstWith(key, s, y))
  {
    FirstOfCons(key, x, s, y);
    if s != [] && !KeyLe(key(x), key(s[0])) {
      InsertKeepsFirst(key, x, s[1..], y);
      FirstOfCons(key, s[0], Insert(key, x, s[1..]), y);
      FirstOfCons(key, s[0], s[1..], y);
      assert s == [s[0]] + s[1..];
    }
  }

  /** Sorting is stable: the first of each key stays the first. */
  lemma {:induction false} SortKeepsFirst<T(!new)>(key: T -> Key, s: seq<T>, x: T)
    ensures FirstWith(key, SortBy(key, s), x) <==> FirstWith(key, s, x)
  {
    if s != [] {
      SortKeepsFirst(key, s[1..], x);
      InsertKeepsFirst(key, s[0], SortBy(key, s[1..]), x);
      FirstOfCons(key, s[0], s[1..], x);
      assert s == [s[0]] + s[1..];
    }
  }

  /** Whether the last of a sorted list comes first with its key shows on the one before it. */
  lemma LastIsFirst<T(!new)>(key: T -> Key, s: seq<T>)
    requires SortedBy(key, s) && |s| > 1
    ensures key(s[|s| - 2]) != key(s[|s| - 1]) <==> forall y :: y in s[..|s| - 1] ==> key(y) != key(s[|s| - 1])
  {
    var n := |s| - 1;
    assert s[..n][n - 1] == s[n - 1] && s[n - 1] in s[..n];
    if y :| y in s[..n] && key(y) == key(s[n]) {
      var j :| 0 <= j < n && s[j] == y;
      assert KeyLe(key(s[n - 1]), key(s[n]));
      if j < n - 1 {
        assert KeyLe(key(s[j]), key(s[n - 1]));
      }
    }
  }

  lemma FirstOfOne<T(!new)>(key: T -> Key, y: T, x: T)
    ensures FirstWith(key, [y], x) <==> x == y
  {
    FirstOfCons(key, y, [], x);
    assert [y] + [] == [y];
  }

  lemma FirstOfSorted<T(!new)>(key: T -> Key, s: seq<T>, x: T)
    requires SortedBy(key, s) && |s| > 1
    ensures FirstWith(key, s, x)
       <==> FirstWith(key, s[..|s| - 1], x) || (x == s[|s| - 1] && key(s[|s| - 2]) != key(s[|s| - 1]))
  {
    var n := |s| - 1;
    LastIsFirst(key, s);
    FirstOfOne(key, s[n], x);
    FirstOfConcat(key, s[..n], [s[n]], x);
    assert s == s[..n] + [s[n]];
  }

  lemma DedupLast<T>(key: T -> Key, s: seq<T>, x: T)
    requires |s| > 1
    ensures x in Dedup(key, s)
       <==> x in Dedup(key, s[..|s| - 1]) || (x == s[|s| - 1] && key(s[|s| - 2]) != key(s[|s| - 1]))
  {
    var n := |s| - 1;
    DedupKeeps(key, s[..n]);
    assert s[..n][n - 1] == s[n - 1];
  }

  lemma {:induction false} DedupIsFirst<T(!new)>(key: T -> Key, s: seq<T>, x: T)
    requires SortedBy(key, s)
    ensures x in Dedup(key, s) <==> FirstWith(key, s, x)
  {
    if |s| == 1 {
      FirstOfOne(key, s[0], x);
      assert s == [s[0]];
    } else if |s| > 1 {
      DedupIsFirst(key, s[..|s| - 1], x);
      DedupLast(key, s, x);
      FirstOfSorted(key, s, x);
    }
  }

  ghost predicate Climbing<T>(key: T -> Key, s: seq<T>) {
    forall i, j :: 0 <= i < j < |s| ==> KeyLe(key(s[i]), key(s[j])) && key(s[i]) != key(s[j])
  }

  /** Sorting and collapsing leaves the first element of every key, the keys ascending. */
  lemma SortedFirsts<T(!new)>(key: T -> Key, s: seq<T>)
    ensures Climbing(key, Dedup(key, SortBy(key, s)))
    ensures forall x :: x in Dedup(key, SortBy(key, s)) <==> FirstWith(key, s, x)
  {
    SortByProperties(key, s);
    DedupDistinct(key, SortBy(key, s));
    forall x
      ensures x in Dedup(key, SortBy(key, s)) <==> FirstWith(key, s, x)
    {
      DedupIsFirst(key, SortBy(key, s), x);
      SortKeepsFirst(key, s, x);
    }
  }

  lemma EmptyAlike<T>(a: seq<T>, b: seq<T>)
    requires forall x :: x in b ==> x in a
    ensures a == [] ==> b == []
  {
    if b != [] {
      assert b[0] in a;
    }
  }

  /** Climbing lists of the same elements are the same list. */
  lemma {:induction false} ClimbingUnique<T(!new)>(key: T -> Key, a: seq<T>, b: seq<T>)
    requires Climbing(key, a) && Climbing(key, b) && forall x :: x in a <==> x in b
    ensures a == b
  {
    if a == [] {
      EmptyAlike(a, b);
    } else {
      assert a[0] in b && b != [] && b[0] in a;
      var i :| 0 <= i < |b| && b[i] == a[0];
      var j :| 0 <= j < |a| && a[j] == b[0];
      assert a[0] == b[0];
      forall x
        ensures x in a[1..] <==> x in b[1..]
      {
        assert a == [a[0]] + a[1..] && b == [b[0]] + b[1..];
        assert x in a <==> x == a[0] || x in a[1..];
        assert x in b <==> x == b[0] || x in b[1..];
        assert a[0] !in a[1..] && b[0] !in b[1..] by {
          assert forall k: nat :: k < |a| - 1 ==> a[1..][k] == a[k + 1];
          assert forall k: nat :: k < |b| - 1 ==> b[1..][k] == b[k + 1];
        }
      }
      ClimbingUnique(key, a[1..], b[1..]);
    }
  }
}
