/** Which old slots may be deleted. */
module Retention {
  import opened Text
  import Backoff

  function Max0(keep: int): nat { if keep < 0 then 0 else keep }

  /** Distinct versions that are neither current nor previous. */
  function Candidates(versions: seq<string>, current: string, previous: string): set<string> {
    (set v | v in versions) - {current, previous}
  }

  /** Candidates that sort after `v`. */
  function Newer(cs: set<string>, v: string): set<string> {
    set w | w in cs && w != v && Leq(v, w)
  }

  /** How many candidates are protected besides current and previous: `keep`, and one more when those
      two are the same version. */
  function Room(current: string, previous: string, keep: int): nat {
    Max0(keep) + if current == previous then 1 else 0
  }

  /** Old enough to go: at least Room candidates are newer. */
  predicate Removable(versions: seq<string>, current: string, previous: string, keep: int, v: string) {
    var cs := Candidates(versions, current, previous);
    v in cs && |Newer(cs, v)| >= Room(current, previous, keep)
  }

  lemma {:induction false} CardMonotone<T>(a: set<T>, b: set<T>)
    requires a <= b
    ensures |a| <= |b|
  {
    if a != {} {
      var x :| x in a;
      CardMonotone(a - {x}, b - {x});
    }
  }

  /** The elements of `s` that are not in `protected`, in order. */
  function Unprotected(s: seq<string>, protected: set<string>): seq<string> {
    if s == [] then []
    else
      var n := |s| - 1;
      Unprotected(s[..n], protected) + if s[n] in protected then [] else [s[n]]
  }

  lemma {:induction false} UnprotectedCounts(s: seq<string>, protected: set<string>)
    ensures forall v :: multiset(Unprotected(s, protected))[v] == if v in protected then 0 else multiset(s)[v]
    ensures forall v :: v in Unprotected(s, protected) ==> v in s
  {
    if s != [] {
      UnprotectedCounts(s[..|s| - 1], protected);
      InitLast(s);
    }
  }

  lemma {:induction false} UnprotectedStaysSorted(s: seq<string>, protected: set<string>)
    requires SortedBy(s, Itself)
    ensures SortedBy(Unprotected(s, protected), Itself)
  {
    if s != [] {
      var n := |s| - 1;
      UnprotectedStaysSorted(s[..n], protected);
      UnprotectedCounts(s[..n], protected);
      var head := Unprotected(s[..n], protected);
      forall i | 0 <= i < |head| ensures Leq(Itself(head[i]), Itself(s[n])) {
        assert head[i] in s[..n];
        var j :| 0 <= j < n && s[j] == head[i];
        assert Leq(Itself(s[j]), Itself(s[n]));
      }
    }
  }

  lemma UnprotectedExactly(s: seq<string>, protected: set<string>)
    requires SortedBy(s, Itself)
    ensures SortedBy(Unprotected(s, protected), Itself)
    ensures forall v :: multiset(Unprotected(s, protected))[v] == if v in protected then 0 else multiset(s)[v]
    ensures forall v :: v in Unprotected(s, protected) ==> v in s
  {
    UnprotectedCounts(s, protected);
    UnprotectedStaysSorted(s, protected);
  }

  /** `protected` is current, previous and the top part of the sorted list from index `from`. */
  ghost predicate TopPart(protected: set<string>, s: seq<string>, from: nat, current: string, previous: string)
    requires from <= |s|
  {
    protected == {current, previous} + set v | v in s[from..]
  }

  lemma TopSize(protected: set<string>, current: string, previous: string, keep: int)
    requires {current, previous} <= protected && |protected| <= Max0(keep) + 2
    ensures |protected - {current, previous}| <= Room(current, previous, keep)
    ensures |protected| == Max0(keep) + 2 ==> |protected - {current, previous}| == Room(current, previous, keep)
  {
    assert |{current, previous}| == if current == previous then 1 else 2;
    assert protected == (protected - {current, previous}) + {current, previous};
  }

  lemma NewerIsLater(s: seq<string>, j: nat, w: string)
    requires SortedBy(s, Itself) && j < |s| && w in s && w != s[j] && Leq(s[j], w)
    ensures forall from: nat :: from <= j ==> w in s[from..]
  {
    var k :| 0 <= k < |s| && s[k] == w;
    if k <= j {
      assert k < j ==> Leq(Itself(s[k]), Itself(s[j]));
      LeqTotal(s[j], w);
    }
    assert k > j;
    forall from: nat | from <= j ensures w in s[from..] {
      assert s[from..][k - from] == w;
    }
  }

  lemma KeptHasFewNewer(cs: set<string>, s: seq<string>, from: nat, top: set<string>, v: string)
    requires SortedBy(s, Itself) && from <= |s| && (forall w :: w in cs ==> w in s)
    requires v in s[from..] && v in top && forall w :: w in cs && w in s[from..] ==> w in top
    ensures |Newer(cs, v)| < |top|
  {
    var j :| from <= j < |s| && s[j] == v;
    forall w | w in Newer(cs, v) ensures w in top - {v} {
      NewerIsLater(s, j, w);
    }
    CardMonotone(Newer(cs, v), top - {v});
  }

  lemma EarlierIsOlder(s: seq<string>, from: nat, j: nat, v: string)
    requires SortedBy(s, Itself) && from <= j < |s| && v in s && v !in s[from..]
    ensures Leq(v, s[j]) && v != s[j]
  {
    var k :| 0 <= k < |s| && s[k] == v;
    assert forall m :: from <= m < |s| ==> s[from..][m - from] == s[m];
    assert Leq(Itself(s[k]), Itself(s[j]));
    assert s[from..][j - from] == s[j];
  }

  lemma DroppedHasManyNewer(cs: set<string>, s: seq<string>, from: nat, top: set<string>, v: string)
    requires SortedBy(s, Itself) && from <= |s| && v in s && v !in s[from..]
    requires top <= cs && forall w :: w in top ==> w in s[from..]
    ensures |top| <= |Newer(cs, v)|
  {
    forall w | w in top ensures w in Newer(cs, v) {
      var j :| from <= j < |s| && s[j] == w;
      EarlierIsOlder(s, from, j, v);
    }
    CardMonotone(top, Newer(cs, v));
  }

  /** A top part of exactly the right size protects exactly the versions that are not removable. */
  lemma TopPartIsExact(versions: seq<string>, s: seq<string>, protected: set<string>, from: nat,
                       current: string, previous: string, keep: int, v: string)
    requires SortedBy(s, Itself) && multiset(s) == multiset(versions) && from <= |s|
    requires TopPart(protected, s, from, current, previous)
    requires |protected| <= Max0(keep) + 2 && (from > 0 ==> |protected| == Max0(keep) + 2)
    requires v in versions
    ensures v !in protected <==> Removable(versions, current, previous, keep, v)
  {
    var cs, top := Candidates(versions, current, previous), protected - {current, previous};
    TopSize(protected, current, previous, keep);
    assert forall w :: w in versions <==> w in multiset(versions);
    assert forall w :: w in s <==> w in multiset(s);
    assert s[0..] == s;
    hide Newer, Room, Max0, SortedBy;
    if v in cs {
      if v in protected {
        KeptHasFewNewer(cs, s, from, top, v);
      } else {
        DroppedHasManyNewer(cs, s, from, top, v);
      }
    }
  }

  /** What one call gets right: exactly the removable versions go, each as often as it was listed. */
  ghost predicate Exact(remove: seq<string>, versions: seq<string>, current: string, previous: string, keep: int) {
    && SortedBy(remove, Itself)
    && forall v :: multiset(remove)[v] ==
         if Removable(versions, current, previous, keep, v) then multiset(versions)[v] else 0
  }

  lemma UnprotectedIsExact(versions: seq<string>, s: seq<string>, protected: set<string>, from: nat,
                           current: string, previous: string, keep: int)
    requires SortedBy(s, Itself) && multiset(s) == multiset(versions) && from <= |s|
    requires TopPart(protected, s, from, current, previous)
    requires |protected| <= Max0(keep) + 2 && (from > 0 ==> |protected| == Max0(keep) + 2)
    ensures Exact(Unprotected(s, protected), versions, current, previous, keep)
  {
    UnprotectedExactly(s, protected);
    hide TopPart, Unprotected, Newer, Room;
    forall v ensures multiset(Unprotected(s, protected))[v] ==
                     if Removable(versions, current, previous, keep, v) then multiset(versions)[v] else 0 {
      if v in versions {
        TopPartIsExact(versions, s, protected, from, current, previous, keep, v);
      } else {
        assert v !in multiset(versions);
      }
    }
  }

  lemma TopPartExtends(protected: set<string>, s: seq<string>, i: nat, current: string, previous: string)
    requires 0 < i <= |s| && TopPart(protected, s, i, current, previous)
    ensures TopPart(protected + {s[i - 1]}, s, i - 1, current, previous)
    ensures |protected| <= |protected + {s[i - 1]}| <= |protected| + 1
  {
    assert s[i - 1..] == [s[i - 1]] + s[i..];
    if s[i - 1] in protected { assert protected + {s[i - 1]} == protected; }
  }

  lemma TopPartStarts(s: seq<string>, current: string, previous: string)
    ensures TopPart({current, previous}, s, |s|, current, previous) && |{current, previous}| <= 2
  {
  }

  lemma UnprotectedStep(s: seq<string>, k: nat, protected: set<string>)
    requires k < |s|
    ensures Unprotected(s[..k + 1], protected) ==
            Unprotected(s[..k], protected) + if s[k] in protected then [] else [s[k]]
  {
    assert s[..k + 1][..k] == s[..k];
  }

  /** The backwards loop. */
  method Protect(sorted: seq<string>, current: string, previous: string, n: nat)
    returns (protected: set<string>, ghost from: nat)
    requires n < Backoff.TWO63
    ensures from <= |sorted| && TopPart(protected, sorted, from, current, previous)
    ensures |protected| <= n + 2 && (from > 0 && n < Backoff.TWO63 - 2 ==> |protected| == n + 2)
    ensures n >= Backoff.TWO63 - 2 ==> protected == {current, previous}
  {
    hide TopPart;
    TopPartStarts(sorted, current, previous);
    if n < Backoff.TWO63 - 2 { Backoff.WrapSmall(n + 2); }
    protected := {current, previous};
    var i := |sorted|;
    while i > 0 && |protected| < Backoff.Wrap(n + 2)
      invariant 0 <= i <= |sorted| && TopPart(protected, sorted, i, current, previous)
      invariant |protected| <= n + 2 && (n >= Backoff.TWO63 - 2 ==> protected == {current, previous})
    {
      TopPartExtends(protected, sorted, i, current, previous);
      protected := protected + {sorted[i - 1]};
      i := i - 1;
    }
    from := i;
  }

  lemma NothingUnprotected(protected: set<string>)
    ensures Unprotected([], protected) == []
  {
  }

  /** The forward loop. */
  method Collect(sorted: seq<string>, protected: set<string>) returns (remove: seq<string>)
    ensures remove == Unprotected(sorted, protected)
  {
    hide Unprotected;
    remove := [];
    NothingUnprotected(protected);
    for k := 0 to |sorted|
      invariant remove == Unprotected(sorted[..k], protected)
    {
      UnprotectedStep(sorted, k, protected);
      if sorted[k] !in protected {
        remove := remove + [sorted[k]];
      }
    }
    assert sorted[..|sorted|] == sorted;
  }

  lemma SurvivorsAreProtected(versions: seq<string>, s: seq<string>, protected: set<string>)
    requires SortedBy(s, Itself) && multiset(s) == multiset(versions)
    ensures |SetOf(versions) - SetOf(Unprotected(s, protected))| <= |protected|
  {
    UnprotectedExactly(s, protected);
    var left := Unprotected(s, protected);
    forall v | v in versions && v !in left ensures v in protected {
      assert v in multiset(versions) && v !in multiset(left);
    }
    CardMonotone(SetOf(versions) - SetOf(left), protected);
  }

  lemma OnlySlotsStay(versions: seq<string>, s: seq<string>, current: string, previous: string)
    requires multiset(s) == multiset(versions)
    ensures forall v :: multiset(Unprotected(s, {current, previous}))[v] ==
                        if v in {current, previous} then 0 else multiset(versions)[v]
  {
    UnprotectedCounts(s, {current, previous});
  }

  /** Everything that is promised of the versions left over by the two loops. */
  lemma RemovalIsRight(versions: seq<string>, s: seq<string>, protected: set<string>, from: nat,
                       current: string, previous: string, keep: int)
    requires SortedBy(s, Itself) && multiset(s) == multiset(versions) && from <= |s| && Backoff.Int64(keep)
    requires TopPart(protected, s, from, current, previous)
    requires |protected| <= Max0(keep) + 2
    requires from > 0 && keep < Backoff.TWO63 - 2 ==> |protected| == Max0(keep) + 2
    requires keep >= Backoff.TWO63 - 2 ==> protected == {current, previous}
    ensures var remove := Unprotected(s, protected);
      && (keep < Backoff.TWO63 - 2 ==> Exact(remove, versions, current, previous, keep))
      && (keep >= Backoff.TWO63 - 2 ==>
            forall v :: multiset(remove)[v] == if v in {current, previous} then 0 else multiset(versions)[v])
      && |SetOf(versions) - SetOf(remove)| <= Max0(keep) + 2
  {
    hide Unprotected, Exact;
    if keep < Backoff.TWO63 - 2 {
      UnprotectedIsExact(versions, s, protected, from, current, previous, keep);
    } else {
      OnlySlotsStay(versions, s, current, previous);
    }
    SurvivorsAreProtected(versions, s, protected);
  }

  /** What exactness says of one version: it goes, and goes as often as it was listed, if and only if it is
      in neither slot and at least `keep` other such versions come after it in bytewise order (one more
      when both slots are the same version). */
  lemma ExactMeans(remove: seq<string>, versions: seq<string>, current: string, previous: string, keep: int,
                   v: string)
    requires Exact(remove, versions, current, previous, keep)
    ensures
      var newer := set w | w in versions && w != current && w != previous && w != v &&
                           (v <= w || exists k: nat :: k < |v| && k < |w| && v[..k] == w[..k] && v[k] < w[k]);
      multiset(remove)[v] ==
        if v in versions && v != current && v != previous &&
           |newer| >= (if keep < 0 then 0 else keep) + (if current == previous then 1 else 0)
        then multiset(versions)[v] else 0
  {
    var newer := set w | w in versions && w != current && w != previous && w != v &&
                         (v <= w || exists k: nat :: k < |v| && k < |w| && v[..k] == w[..k] && v[k] < w[k]);
    forall w ensures w in newer <==> w in Newer(Candidates(versions, current, previous), v) {
      LeqMeans(v, w);
    }
    assert newer == Newer(Candidates(versions, current, previous), v);
  }

  /** The limit `keep + 2` is computed in 64 bits. For the two largest values of `keep` it wraps and
      nothing but current and previous is protected; for every other one the result is exact, and at
      most keep + 2 distinct versions survive. */
  method VersionsToRemove(versions: seq<string>, current: string, previous: string, keep: int)
    returns (remove: seq<string>)
    requires Backoff.Int64(keep)
    ensures keep < Backoff.TWO63 - 2 ==> Exact(remove, versions, current, previous, keep)
    ensures keep < Backoff.TWO63 - 2 ==>
      forall v :: multiset(remove)[v] ==
        if v in versions && v != current && v != previous &&
           |set w | w in versions && w != current && w != previous && w != v &&
                    (v <= w || exists k: nat :: k < |v| && k < |w| && v[..k] == w[..k] && v[k] < w[k])|
             >= (if keep < 0 then 0 else keep) + (if current == previous then 1 else 0)
        then multiset(versions)[v] else 0
    ensures keep >= Backoff.TWO63 - 2 ==>
      forall v :: multiset(remove)[v] == if v in {current, previous} then 0 else multiset(versions)[v]
    ensures |SetOf(versions) - SetOf(remove)| <= Max0(keep) + 2
  {
    var sorted := SortBy(versions, Itself);
    var protected;
    ghost var from;
    protected, from := Protect(sorted, current, previous, Max0(keep));
    RemovalIsRight(versions, sorted, protected, from, current, previous, keep);
    hide TopPart, Unprotected, Exact, SetOf;
    remove := Collect(sorted, protected);
    if keep < Backoff.TWO63 - 2 {
      forall v { ExactMeans(remove, versions, current, previous, keep, v); }
    }
  }
}
