/** Strings as Go compares them, and the stable vocabulary built on that order. */
module Text {

  newtype byte = x: int | 0 <= x < 256

  datatype Option<+T> = None | Some(value: T)

  datatype Result<+T, +E> = Ok(value: T) | Err(error: E)

  /** Bytewise lexicographic order. */
  predicate Leq(a: string, b: string) {
    a == [] || (b != [] && (a[0] < b[0] || (a[0] == b[0] && Leq(a[1..], b[1..]))))
  }

  /** `a` comes strictly before `b`: it is a proper prefix, or has the smaller character where the two
      first differ. */
  ghost predicate Before(a: string, b: string) {
    a < b || exists k: nat :: k < |a| && k < |b| && a[..k] == b[..k] && a[k] < b[k]
  }

  lemma BeforeStep(a: string, b: string)
    requires a != [] && b != [] && a[0] == b[0]
    ensures Before(a, b) <==> Before(a[1..], b[1..])
  {
    assert a == [a[0]] + a[1..] && b == [b[0]] + b[1..];
    assert a < b <==> a[1..] < b[1..];
    forall k: nat | 0 < k < |a| && k < |b| ensures a[..k] == b[..k] <==> a[1..][..k - 1] == b[1..][..k - 1] {
      assert a[..k] == [a[0]] + a[1..][..k - 1] && b[..k] == [b[0]] + b[1..][..k - 1];
    }
    if k: nat :| k < |a| && k < |b| && a[..k] == b[..k] && a[k] < b[k] {
      assert a[1..][k - 1] < b[1..][k - 1];
    }
    if k: nat :| k < |a[1..]| && k < |b[1..]| && a[1..][..k] == b[1..][..k] && a[1..][k] < b[1..][k] {
      assert a[..k + 1] == b[..k + 1] && a[k + 1] < b[k + 1];
    }
  }

  /** What the recursive comparison decides. */
  lemma {:induction false} LeqMeans(a: string, b: string)
    ensures Leq(a, b) <==>
            a <= b || exists k: nat :: k < |a| && k < |b| && a[..k] == b[..k] && a[k] < b[k]
    ensures Before(a, b) <==> Leq(a, b) && a != b
  {
    if a != [] && b != [] {
      if a[0] == b[0] {
        LeqMeans(a[1..], b[1..]);
        BeforeStep(a, b);
        assert a == [a[0]] + a[1..] && b == [b[0]] + b[1..];
      } else {
        if a[0] < b[0] { assert a[..0] == b[..0]; }
        forall k: nat | 0 < k < |a| && k < |b| ensures a[..k] != b[..k] {
          assert a[..k][0] != b[..k][0];
        }
      }
    }
  }

  lemma {:induction false} LeqTotal(a: string, b: string)
    ensures Leq(a, a)
    ensures Leq(a, b) || Leq(b, a)
    ensures Leq(a, b) && Leq(b, a) ==> a == b
  {
    if a != [] {
      LeqTotal(a[1..], if b == [] then [] else b[1..]);
      if b != [] && a[0] == b[0] {
        assert a == [a[0]] + a[1..] && b == [b[0]] + b[1..];
      }
    }
  }

  lemma {:induction false} LeqTransitive(a: string, b: string, c: string)
    requires Leq(a, b) && Leq(b, c)
    ensures Leq(a, c)
  {
    if a != [] && a[0] == b[0] == c[0] {
      LeqTransitive(a[1..], b[1..], c[1..]);
    }
  }

  ghost predicate SortedBy<T(!new)>(s: seq<T>, key: T -> string) {
    forall i, j :: 0 <= i < j < |s| ==> Leq(key(s[i]), key(s[j]))
  }

  lemma BelowHeadBelowAll<T(!new)>(x: T, s: seq<T>, key: T -> string)
    requires SortedBy(s, key) && s != [] && Leq(key(x), key(s[0]))
    ensures SortedBy([x] + s, key)
  {
    forall j | 0 <= j < |s| ensures Leq(key(x), key(s[j])) {
      if j > 0 { LeqTransitive(key(x), key(s[0]), key(s[j])); }
    }
  }

  lemma HeadBelowRest<T(!new)>(x: T, s: seq<T>, rest: seq<T>, key: T -> string)
    requires SortedBy(s, key) && s != [] && !Leq(key(x), key(s[0]))
    requires SortedBy(rest, key) && multiset(rest) == multiset(s[1..]) + multiset{x}
    ensures SortedBy([s[0]] + rest, key)
  {
    LeqTotal(key(x), key(s[0]));
    forall j | 0 <= j < |rest| ensures Leq(key(s[0]), key(rest[j])) {
      assert rest[j] in multiset(rest);
      assert rest[j] == x || rest[j] in s[1..];
    }
  }

  lemma HeadTail<T>(s: seq<T>)
    requires s != []
    ensures s == [s[0]] + s[1..]
  {
  }

  function InsertBy<T(!new)>(x: T, s: seq<T>, key: T -> string): (r: seq<T>)
    requires SortedBy(s, key)
    ensures SortedBy(r, key)
    ensures multiset(r) == multiset(s) + multiset{x}
  {
    if s == [] then [x]
    else if Leq(key(x), key(s[0])) then
      BelowHeadBelowAll(x, s, key);
      [x] + s
    else
      HeadTail(s);
      var rest := InsertBy(x, s[1..], key);
      HeadBelowRest(x, s, rest, key);
      [s[0]] + rest
  }

  /** A sorting library call: ascending by key, a permutation of its input. */
  function SortBy<T(!new)>(s: seq<T>, key: T -> string): (r: seq<T>)
    ensures SortedBy(r, key)
    ensures multiset(r) == multiset(s)
    ensures |r| == |s|
  {
    if s == [] then []
    else
      assert s == [s[0]] + s[1..];
      var r := InsertBy(s[0], SortBy(s[1..], key), key);
      assert |multiset(r)| == |multiset(s)|;
      r
  }

  ghost predicate DistinctBy<T(!new)>(s: seq<T>, key: T -> string) {
    forall i, j :: 0 <= i < j < |s| ==> key(s[i]) != key(s[j])
  }

  /** The key under which strings sort as themselves. */
  function Itself(s: string): string { s }

  lemma {:induction false} DistinctCountsOnce<T(!new)>(s: seq<T>, key: T -> string, x: T)
    requires DistinctBy(s, key)
    ensures multiset(s)[x] == if x in s then 1 else 0
  {
    if s != [] {
      assert s == [s[0]] + s[1..];
      DistinctCountsOnce(s[1..], key, x);
      assert s[0] !in s[1..];
    }
  }

  lemma NotEarlier<T(!new)>(s: seq<T>, key: T -> string, i: nat)
    requires DistinctBy(s, key) && i < |s|
    ensures s[i] !in s[..i]
  {
    assert forall k :: 0 <= k < i ==> key(s[k]) != key(s[i]);
  }

  lemma TwoPlacesCountTwice<T>(s: seq<T>, i: nat, j: nat)
    requires i < j < |s| && s[i] == s[j]
    ensures multiset(s)[s[i]] >= 2
  {
    assert s == s[..i] + [s[i]] + s[i + 1..j] + [s[j]] + s[j + 1..];
  }

  /** Rearranging keeps distinct keys distinct, and the elements. */
  lemma {:induction false} RearrangedStaysDistinct<T(!new)>(a: seq<T>, s: seq<T>, key: T -> string)
    requires DistinctBy(a, key) && multiset(s) == multiset(a)
    ensures DistinctBy(s, key)
    ensures forall x :: x in s <==> x in a
  {
    forall x ensures x in s <==> x in a { assert x in multiset(s) <==> x in multiset(a); }
    forall i, j | 0 <= i < j < |s| ensures key(s[i]) != key(s[j]) {
      DistinctCountsOnce(a, key, s[i]);
      if s[i] == s[j] {
        TwoPlacesCountTwice(s, i, j);
      }
      assert s[i] in s && s[j] in s;
      var k, n :| 0 <= k < |a| && 0 <= n < |a| && a[k] == s[i] && a[n] == s[j];
    }
  }

  function SetOf(s: seq<string>): set<string> { set x | x in s }

  lemma InitLast<T>(s: seq<T>)
    requires s != []
    ensures s == s[..|s| - 1] + [s[|s| - 1]]
  {
  }

  lemma Associative<T>(a: seq<T>, b: seq<T>, c: seq<T>)
    ensures (a + b) + c == a + (b + c)
  {
  }

  lemma TailMultiset<T>(s: seq<T>)
    requires s != []
    ensures multiset(s[1..]) == multiset(s) - multiset{s[0]}
  {
    assert s == [s[0]] + s[1..];
  }

  lemma TailKeeps<T(!new)>(s: seq<T>, key: T -> string)
    requires s != []
    ensures SortedBy(s, key) ==> SortedBy(s[1..], key)
    ensures DistinctBy(s, key) ==> DistinctBy(s[1..], key)
  {
  }

  lemma SortedHeadsAgree<T(!new)>(a: seq<T>, b: seq<T>, key: T -> string)
    requires SortedBy(a, key) && SortedBy(b, key) && DistinctBy(a, key)
    requires a != [] && b != [] && a[0] in b && b[0] in a
    ensures a[0] == b[0]
  {
    var j :| 0 <= j < |b| && b[j] == a[0];
    var i :| 0 <= i < |a| && a[i] == b[0];
    LeqTotal(key(a[0]), key(b[0]));
  }

  lemma HeadsAreShared<T>(a: seq<T>, b: seq<T>)
    requires multiset(a) == multiset(b)
    ensures |a| == |b|
    ensures a != [] ==> b != [] && a[0] in b && b[0] in a
  {
    assert |multiset(a)| == |multiset(b)|;
    if a != [] {
      assert a[0] in multiset(b) && b[0] in multiset(a);
    }
  }

  lemma TailsAgree<T>(a: seq<T>, b: seq<T>)
    requires multiset(a) == multiset(b) && a != [] && b != [] && a[0] == b[0]
    ensures multiset(a[1..]) == multiset(b[1..])
  {
    TailMultiset(a);
    TailMultiset(b);
  }

  lemma HeadAndTail<T>(a: seq<T>, b: seq<T>)
    requires a != [] && b != [] && a[0] == b[0] && a[1..] == b[1..]
    ensures a == b
  {
    assert a == [a[0]] + a[1..] && b == [b[0]] + b[1..];
  }

  /** With distinct keys there is only one sorted arrangement, so any sorting routine, stable or
      not, started from any arrangement, ends in the same one. */
  lemma {:induction false} SortedArrangementUnique<T(!new)>(a: seq<T>, b: seq<T>, key: T -> string)
    requires SortedBy(a, key) && SortedBy(b, key) && DistinctBy(a, key)
    requires multiset(a) == multiset(b)
    ensures a == b
  {
    HeadsAreShared(a, b);
    if a != [] {
      SortedHeadsAgree(a, b, key);
      TailsAgree(a, b);
      TailKeeps(a, key);
      TailKeeps(b, key);
      hide SortedBy, DistinctBy;
      SortedArrangementUnique(a[1..], b[1..], key);
      HeadAndTail(a, b);
    }
  }
}
