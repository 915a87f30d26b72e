/** Sequences as collections: their elements, and that none repeats. */
module Collections {
  datatype Option<+T> = None | Some(value: T)

  ghost predicate Distinct<T>(s: seq<T>) {
    forall i, j :: 0 <= i < j < |s| ==> s[i] != s[j]
  }

  function Elems<T>(s: seq<T>): set<T> {
    set x | x in s
  }

  lemma Snoc<T>(s: seq<T>)
    requires s != []
    ensures var x, s' := s[|s| - 1], s[..|s| - 1];
            && Elems(s) == Elems(s') + {x}
            && (Distinct(s) <==> Distinct(s') && x !in s')
  {
    var n := |s| - 1;
    var x, s' := s[n], s[..n];
    assert s == s' + [x];
    if x in s' {
      var i :| 0 <= i < n && s'[i] == x;
      assert s[i] == s[n];
    }
    if !Distinct(s') {
      var i, j :| 0 <= i < j < n && s'[i] == s'[j];
      assert s[i] == s[j];
    }
  }

  lemma DistinctConcat<T>(a: seq<T>, b: seq<T>)
    ensures Distinct(a + b) <==> Distinct(a) && Distinct(b) && Elems(a) !! Elems(b)
  {
    var c := a + b;
    if Distinct(c) {
      forall i, j | 0 <= i < j < |a| ensures a[i] != a[j] { assert c[i] != c[j]; }
      forall i, j | 0 <= i < j < |b| ensures b[i] != b[j] { assert c[|a| + i] != c[|a| + j]; }
      forall i, j | 0 <= i < |a| && 0 <= j < |b| ensures a[i] != b[j] { assert c[i] != c[|a| + j]; }
    }
    if Distinct(a) && Distinct(b) && Elems(a) !! Elems(b) {
      forall i, j | 0 <= i < j < |c| ensures c[i] != c[j] {
        if i < |a| <= j { assert a[i] in Elems(a) && b[j - |a|] in Elems(b); }
      }
    }
  }

  lemma SameIndex<T>(s: seq<T>, i: nat, j: nat)
    requires Distinct(s) && i < |s| && j < |s| && s[i] == s[j]
    ensures i == j
  {
  }

  lemma {:induction false} DistinctCard<T>(s: seq<T>)
    requires Distinct(s)
    ensures |Elems(s)| == |s|
  {
    if s != [] {
      Snoc(s);
      DistinctCard(s[..|s| - 1]);
      assert s[|s| - 1] !in Elems(s[..|s| - 1]);
    }
  }

  lemma {:induction false} SubsetCard<T>(a: set<T>, b: set<T>)
    requires a <= b
    ensures |a| <= |b|
  {
    assert a + (b - a) == b;
    assert |a + (b - a)| == |a| + |b - a|;
  }
}
