/** Sequences used as lists without repetition. */
module Lists {

  ghost predicate Distinct<T>(s: seq<T>) {
    forall i, j :: 0 <= i < j < |s| ==> s[i] != s[j]
  }

  ghost function Elems<T>(s: seq<T>): set<T> {
    set p | p in s
  }

  /** s without the first p. */
  function Without<T(==)>(s: seq<T>, p: T): seq<T> {
    if s == [] then [] else if s[0] == p then s[1..] else [s[0]] + Without(s[1..], p)
  }

  lemma DistinctJoin<T>(p: T, s: seq<T>)
    requires Distinct(s) && p !in s
    ensures Distinct([p] + s) && Distinct(s + [p])
    ensures forall q :: q in [p] + s <==> q in s + [p]
    ensures forall q :: q in s + [p] <==> q == p || q in s
  {
  }

  lemma {:induction false} WithoutElems<T>(s: seq<T>, p: T)
    requires Distinct(s)
    ensures Distinct(Without(s, p))
    ensures forall q :: q in Without(s, p) <==> q in s && q != p
    ensures |Without(s, p)| == if p in s then |s| - 1 else |s|
    ensures p !in s ==> Without(s, p) == s
  {
    if s != [] {
      assert s == [s[0]] + s[1..] && s[0] !in s[1..];
      if s[0] != p {
        assert Distinct(s[1..]);
        WithoutElems(s[1..], p);
        DistinctJoin(s[0], Without(s[1..], p));
      }
    }
  }

  lemma DistinctCount<T>(s: seq<T>)
    requires Distinct(s)
    ensures |Elems(s)| == |s|
  {
    if s == [] {
      assert Elems(s) == {};
    } else {
      DistinctCount(s[1..]);
      assert Elems(s) == {s[0]} + Elems(s[1..]) && s[0] !in Elems(s[1..]);
    }
  }

  lemma CountBound<T>(s: seq<T>)
    ensures |Elems(s)| <= |s|
  {
    if s == [] {
      assert Elems(s) == {};
    } else {
      CountBound(s[1..]);
      assert Elems(s) == {s[0]} + Elems(s[1..]);
    }
  }

  lemma SubsetCount<T>(a: set<T>, b: set<T>)
    requires a <= b
    ensures |a| <= |b|
  {
    if a != {} {
      var p :| p in a;
      SubsetCount(a - {p}, b - {p});
    }
  }

  lemma SameCount<T>(a: set<T>, b: set<T>)
    requires a <= b && |a| >= |b|
    ensures a == b
  {
    if a != b {
      var x :| x in b && x !in a;
      SubsetCount(a, b - {x});
    }
  }

  lemma ElemsLast<T>(s: seq<T>)
    requires s != []
    ensures var n := |s| - 1; |Elems(s)| == |Elems(s[..n])| + if s[n] in s[..n] then 0 else 1
  {
    var n := |s| - 1;
    assert forall p :: p in s <==> p in s[..n] || p == s[n];
    assert Elems(s) == Elems(s[..n]) + {s[n]};
  }

  lemma {:induction false} AllDistinct<T>(s: seq<T>)
    requires |Elems(s)| >= |s|
    ensures Distinct(s)
  {
    if s != [] {
      var n := |s| - 1;
      ElemsLast(s);
      CountBound(s[..n]);
      AllDistinct(s[..n]);
    }
  }

  /** Taking the elements of s out of keys takes out as many as s has just if each was there, and is in s once. */
  lemma RemovedOnce<T>(s: seq<T>, keys: set<T>)
    ensures |keys - Elems(s)| == |keys| - |s| <==> Distinct(s) && forall p :: p in s ==> p in keys
  {
    var hit := Elems(s) * keys;
    assert keys - Elems(s) == keys - hit;
    assert |keys - hit| == |keys| - |hit|;
    SubsetCount(hit, Elems(s));
    CountBound(s);
    assert forall p :: p in s ==> p in Elems(s);
    if forall p :: p in s ==> p in keys {
      assert hit == Elems(s);
    }
    if Distinct(s) {
      DistinctCount(s);
    }
    if |hit| == |s| {
      SameCount(hit, Elems(s));
      AllDistinct(s);
    }
  }
}
