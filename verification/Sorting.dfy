/** Stable sorting by an order given as a function, and the order of strings by character:
    what `sorted(xs, key=...)` means to every program modelled in this project. */
module Sorting {
  import opened Wrappers

  ghost predicate TotalPreorder<T(!new)>(le: (T, T) -> bool) {
    && (forall x, y :: le(x, y) || le(y, x))
    && (forall x, y, z :: le(x, y) && le(y, z) ==> le(x, z))
  }

  ghost predicate AntiSymmetric<T(!new)>(le: (T, T) -> bool) {
    forall x, y :: le(x, y) && le(y, x) ==> x == y
  }

  ghost predicate NoTies<T(!new)>(s: seq<T>, le: (T, T) -> bool) {
    forall x, y :: x in s && y in s && le(x, y) && le(y, x) ==> x == y
  }

  ghost predicate SortedBy<T>(s: seq<T>, le: (T, T) -> bool) {
    forall i, j :: 0 <= i < j < |s| ==> le(s[i], s[j])
  }

  /** Puts `x` before the first element it does not come after, so equal keys keep their order. */
  function Insert<T>(x: T, s: seq<T>, le: (T, T) -> bool): (r: seq<T>)
    ensures |r| == |s| + 1
    ensures multiset(r) == multiset{x} + multiset(s)
  {
    if s == [] then [x]
    else if le(x, s[0]) then [x] + s
    else
      var rest := Insert(x, s[1..], le);
      assert s == [s[0]] + s[1..];
      [s[0]] + rest
  }

  function Sorted<T>(s: seq<T>, le: (T, T) -> bool): (r: seq<T>)
    ensures |r| == |s|
    ensures multiset(r) == multiset(s)
  {
    if s == [] then []
    else
      assert s == [s[0]] + s[1..];
      Insert(s[0], Sorted(s[1..], le), le)
  }

  lemma {:induction false} InsertKeepsSorted<T(!new)>(x: T, s: seq<T>, le: (T, T) -> bool)
    requires TotalPreorder(le) && SortedBy(s, le)
    ensures SortedBy(Insert(x, s, le), le)
  {
    if s != [] && !le(x, s[0]) {
      InsertKeepsSorted(x, s[1..], le);
      var rest := Insert(x, s[1..], le);
      forall j | 0 <= j < |rest| ensures le(s[0], rest[j]) {
        assert rest[j] in multiset(rest);
        assert rest[j] == x || rest[j] in s[1..];
      }
    }
  }

  lemma {:induction false} SortedIsSorted<T(!new)>(s: seq<T>, le: (T, T) -> bool)
    requires TotalPreorder(le)
    ensures SortedBy(Sorted(s, le), le)
  {
    if s != [] {
      SortedIsSorted(s[1..], le);
      InsertKeepsSorted(s[0], Sorted(s[1..], le), le);
    }
  }

  /** A sequence already in order is left alone: the sort is stable. */
  lemma {:induction false} SortedFixpoint<T>(s: seq<T>, le: (T, T) -> bool)
    requires SortedBy(s, le)
    ensures Sorted(s, le) == s
  {
    if |s| > 1 {
      SortedFixpoint(s[1..], le);
      assert le(s[0], s[1]);
    }
  }

  lemma TailsEqual<T>(s: seq<T>, t: seq<T>)
    requires s != [] && t != [] && s[0] == t[0] && multiset(s) == multiset(t)
    ensures multiset(s[1..]) == multiset(t[1..])
  {
    assert s == [s[0]] + s[1..] && t == [t[0]] + t[1..];
    assert multiset(s[1..]) == multiset(s) - multiset{s[0]};
    assert multiset(t[1..]) == multiset(t) - multiset{t[0]};
  }

  /** A collection without ties has one sorted arrangement . */
  lemma {:induction false} SortedUnique<T(!new)>(s: seq<T>, t: seq<T>, le: (T, T) -> bool)
    requires NoTies(s, le) && TotalPreorder(le)
    requires SortedBy(s, le) && SortedBy(t, le)
    requires multiset(s) == multiset(t)
    ensures s == t
  {
    if s == [] {
      assert |multiset(t)| == 0;
    } else {
      assert |multiset(s)| == |multiset(t)|;
      assert s == [s[0]] + s[1..] && t == [t[0]] + t[1..];
      assert s[0] in multiset(t) && t[0] in multiset(s);
      assert le(s[0], t[0]) && le(t[0], s[0]);
      TailsEqual(s, t);
      SortedUnique(s[1..], t[1..], le);
    }
  }

  /** Sorting forgets the order the elements came in. */
  lemma {:induction false} SortForgetsOrder<T(!new)>(s: seq<T>, t: seq<T>, le: (T, T) -> bool)
    requires NoTies(s, le) && TotalPreorder(le)
    requires multiset(s) == multiset(t)
    ensures Sorted(s, le) == Sorted(t, le)
  {
    SortedIsSorted(s, le);
    SortedIsSorted(t, le);
    forall x | x in Sorted(s, le) ensures x in s {
      assert x in multiset(Sorted(s, le));
    }
    SortedUnique(Sorted(s, le), Sorted(t, le), le);
  }

  // ---- selecting and relabelling what is sorted -------------------------------------------------

  /** What `f` makes of the elements it keeps, in their order. */
  function Collect<T, U>(s: seq<T>, f: T -> Option<U>): (r: seq<U>) {
    if s == [] then []
    else
      var n := |s| - 1;
      Collect(s[..n], f) + match f(s[n]) case Some(y) => [y] case None => []
  }

  lemma {:induction false} CollectSplits<T, U>(s: seq<T>, t: seq<T>, f: T -> Option<U>)
    ensures Collect(s + t, f) == Collect(s, f) + Collect(t, f)
  {
    if t == [] {
      assert s + t == s;
    } else {
      var n := |t| - 1;
      CollectSplits(s, t[..n], f);
      assert (s + t)[..|s + t| - 1] == s + t[..n];
    }
  }

  lemma {:induction false} CollectedFrom<T, U>(s: seq<T>, f: T -> Option<U>, y: U) returns (x: T)
    requires y in Collect(s, f)
    ensures x in s && f(x) == Some(y)
  {
    var n := |s| - 1;
    if f(s[n]) == Some(y) { x := s[n]; } else { x := CollectedFrom(s[..n], f, y); }
  }

  lemma {:induction false} CollectKeeps<T, U>(s: seq<T>, f: T -> Option<U>, x: T)
    requires x in s && f(x).Some?
    ensures f(x).value in Collect(s, f)
  {
    var n := |s| - 1;
    if s[n] != x { CollectKeeps(s[..n], f, x); }
  }

  function Kept<T, U>(x: T, f: T -> Option<U>): multiset<U> {
    match f(x) case Some(y) => multiset{y} case None => multiset{}
  }

  lemma {:induction false} CollectAround<T, U>(a: seq<T>, x: T, b: seq<T>, f: T -> Option<U>)
    ensures multiset(Collect(a + [x] + b, f)) == multiset(Collect(a + b, f)) + Kept(x, f)
  {
    CollectSplits(a + [x], b, f);
    CollectSplits(a, b, f);
    assert (a + [x])[..|a|] == a;
  }

  lemma TakeOut<T>(t: seq<T>, x: T) returns (a: seq<T>, b: seq<T>)
    requires x in multiset(t)
    ensures t == a + [x] + b && multiset(a + b) == multiset(t) - multiset{x}
  {
    var j :| 0 <= j < |t| && t[j] == x;
    a, b := t[..j], t[j + 1..];
    assert t == a + [x] + b;
  }

  /** Selecting commutes with rearranging. */
  lemma {:induction false} CollectForgetsOrder<T, U>(s: seq<T>, t: seq<T>, f: T -> Option<U>)
    requires multiset(s) == multiset(t)
    ensures multiset(Collect(s, f)) == multiset(Collect(t, f))
  {
    if s == [] {
      assert |multiset(t)| == 0;
    } else {
      var n, x := |s| - 1, s[|s| - 1];
      assert s == s[..n] + [x];
      var a, b := TakeOut(t, x);
      assert multiset(s[..n]) == multiset(a + b);
      CollectForgetsOrder(s[..n], a + b, f);
      CollectAround(a, x, b, f);
    }
  }

  /** Selecting keeps an order that the selection respects. */
  lemma {:induction false} CollectKeepsSorted<T, U>(s: seq<T>, f: T -> Option<U>, le: (T, T) -> bool,
                                                    among: (U, U) -> bool)
    requires SortedBy(s, le)
    requires forall x, y :: x in s && y in s && le(x, y) && f(x).Some? && f(y).Some? ==> among(f(x).value, f(y).value)
    ensures SortedBy(Collect(s, f), among)
  {
    if s != [] {
      var n := |s| - 1;
      CollectKeepsSorted(s[..n], f, le, among);
      if f(s[n]).Some? {
        var front := Collect(s[..n], f);
        forall i | 0 <= i < |front| ensures among(front[i], f(s[n]).value) {
          var x := CollectedFrom(s[..n], f, front[i]);
          assert x in s && s[n] in s;
        }
      }
    }
  }

  function Mapped<T, U>(s: seq<T>, f: T -> U): (r: seq<U>)
    ensures |r| == |s| && forall i :: 0 <= i < |s| ==> r[i] == f(s[i])
  {
    seq(|s|, i requires 0 <= i < |s| => f(s[i]))
  }

  /** The two orders agree on these elements and their labels. */
  ghost predicate Agree<T(!new), U>(s: seq<T>, f: T -> U, le: (T, T) -> bool, among: (U, U) -> bool) {
    forall y: T, z: T :: y in s && z in s ==> le(y, z) == among(f(y), f(z))
  }

  lemma AgreeOnPart<T(!new), U>(s: seq<T>, part: seq<T>, f: T -> U, le: (T, T) -> bool, among: (U, U) -> bool)
    requires Agree(s, f, le, among) && forall y :: y in part ==> y in s
    ensures Agree(part, f, le, among)
  {
  }

  lemma MappedSplits<T, U>(x: T, s: seq<T>, f: T -> U)
    ensures Mapped([x] + s, f) == [f(x)] + Mapped(s, f)
  {
  }

  lemma {:induction false} InsertCommutes<T(!new), U>(x: T, s: seq<T>, f: T -> U, le: (T, T) -> bool,
                                                      among: (U, U) -> bool)
    requires Agree([x] + s, f, le, among)
    ensures Mapped(Insert(x, s, le), f) == Insert(f(x), Mapped(s, f), among)
  {
    if s == [] {
      MappedSplits(x, [], f);
    } else {
      var rest := s[1..];
      assert s == [s[0]] + rest;
      MappedSplits(s[0], rest, f);
      assert Mapped(s, f)[1..] == Mapped(rest, f);
      assert le(x, s[0]) == among(f(x), f(s[0])) by { assert x in [x] + s && s[0] in [x] + s; }
      if le(x, s[0]) {
        MappedSplits(x, s, f);
      } else {
        AgreeOnPart([x] + s, [x] + rest, f, le, among);
        InsertCommutes(x, rest, f, le, among);
        MappedSplits(s[0], Insert(x, rest, le), f);
      }
    }
  }

  lemma HeldByTail<T>(s: seq<T>, tail: seq<T>)
    requires s != [] && multiset(tail) == multiset(s[1..])
    ensures forall y :: y in [s[0]] + tail ==> y in s
  {
    forall y | y in [s[0]] + tail ensures y in s {
      assert y == s[0] || y in multiset(tail);
    }
  }

  /** Sorting by a label and then reading the labels is sorting the labels. */
  lemma {:induction false} SortCommutes<T(!new), U>(s: seq<T>, f: T -> U, le: (T, T) -> bool, among: (U, U) -> bool)
    requires Agree(s, f, le, among)
    ensures Mapped(Sorted(s, le), f) == Sorted(Mapped(s, f), among)
  {
    if s != [] {
      var tail := Sorted(s[1..], le);
      AgreeOnPart(s, s[1..], f, le, among);
      SortCommutes(s[1..], f, le, among);
      assert Mapped(s, f)[1..] == Mapped(s[1..], f);
      HeldByTail(s, tail);
      AgreeOnPart(s, [s[0]] + tail, f, le, among);
      InsertCommutes(s[0], tail, f, le, among);
    }
  }

  /** No two elements share a key. */
  ghost predicate KeyedOnce<T, K>(s: seq<T>, key: T -> K) {
    forall i, j :: 0 <= i < j < |s| ==> key(s[i]) != key(s[j])
  }

  lemma {:induction false} OnceIn<T, K>(s: seq<T>, key: T -> K, x: T)
    requires KeyedOnce(s, key)
    ensures multiset(s)[x] <= 1
  {
    if s != [] {
      assert s == [s[0]] + s[1..];
      OnceIn(s[1..], key, x);
      if x == s[0] { assert x !in s[1..]; }
    }
  }

  lemma SameKey<T, K>(s: seq<T>, key: T -> K, x: T, y: T)
    requires KeyedOnce(s, key) && x in multiset(s) && y in multiset(s) && key(x) == key(y)
    ensures x == y
  {
    var i :| 0 <= i < |s| && s[i] == x;
    var j :| 0 <= j < |s| && s[j] == y;
    assert i == j;
  }

  lemma Twice<T>(t: seq<T>, i: nat, j: nat)
    requires i < j < |t|
    ensures t[i] in multiset(t) && t[j] in multiset(t)
    ensures t[i] == t[j] ==> multiset(t)[t[i]] >= 2
  {
    assert t == t[..j] + [t[j]] + t[j + 1..];
    assert t[i] == t[..j][i] && t[i] in multiset(t[..j]);
  }

  /** Having no key twice does not depend on the order. */
  lemma KeyedOnceForgetsOrder<T, K>(s: seq<T>, t: seq<T>, key: T -> K)
    requires KeyedOnce(s, key) && multiset(s) == multiset(t)
    ensures KeyedOnce(t, key)
  {
    forall i, j | 0 <= i < j < |t| ensures key(t[i]) != key(t[j]) {
      Twice(t, i, j);
      OnceIn(s, key, t[i]);
      if key(t[i]) == key(t[j]) { SameKey(s, key, t[i], t[j]); }
    }
  }

  // ---- strings, compared character by character -----------------------------------------------

  predicate StringLe(a: string, b: string) {
    if a == "" then true
    else if b == "" then false
    else if a[0] == b[0] then StringLe(a[1..], b[1..])
    else a[0] < b[0]
  }

  lemma {:induction false} StringLeTotal(a: string, b: string)
    ensures StringLe(a, b) || StringLe(b, a)
    ensures StringLe(a, b) && StringLe(b, a) ==> a == b
  {
    if a != "" && b != "" && a[0] == b[0] {
      StringLeTotal(a[1..], b[1..]);
      assert a == [a[0]] + a[1..] && b == [b[0]] + b[1..];
    }
  }

  lemma {:induction false} StringLeTransitive(a: string, b: string, c: string)
    requires StringLe(a, b) && StringLe(b, c)
    ensures StringLe(a, c)
  {
    if a != "" && b != "" && c != "" && a[0] == b[0] && b[0] == c[0] {
      StringLeTransitive(a[1..], b[1..], c[1..]);
    }
  }

  lemma StringOrder()
    ensures TotalPreorder(StringLe) && AntiSymmetric(StringLe)
  {
    forall a, b ensures (StringLe(a, b) || StringLe(b, a)) && (StringLe(a, b) && StringLe(b, a) ==> a == b) {
      StringLeTotal(a, b);
    }
    forall a, b, c | StringLe(a, b) && StringLe(b, c) ensures StringLe(a, c) {
      StringLeTransitive(a, b, c);
    }
  }

  /** The order decides at the first character that differs, and a text comes before its continuations. */
  lemma {:induction false} StringLeDecides(front: string, a: string, b: string)
    ensures StringLe(front, front + b)
    ensures a != "" && b != "" && a[0] != b[0] ==> (StringLe(front + a, front + b) <==> a[0] < b[0])
    ensures a != "" ==> !StringLe(front + a, front)
  {
    if front == "" {
      assert front + a == a && front + b == b;
    } else {
      assert (front + a)[1..] == front[1..] + a && (front + b)[1..] == front[1..] + b;
      StringLeDecides(front[1..], a, b);
    }
  }
}
