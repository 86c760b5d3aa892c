/** Small vocabulary shared by the models: optional values and duplicate-free sequences. */
module Common {
  datatype Option<+T> = None | Some(value: T)

  // Identifiers (of nodes, types, interfaces and options) are only ever compared and looked up, so a number
  // stands for the text.
  type Name = nat

  ghost predicate Distinct<T>(s: seq<T>) {
    forall i, j :: 0 <= i < j < |s| ==> s[i] != s[j]
  }

  ghost function Elements<T>(s: seq<T>): set<T> {
    set x | x in s
  }

  lemma ElementsOfLonger<T>(s: seq<T>, k: nat)
    requires k < |s|
    ensures Elements(s[..k + 1]) == Elements(s[..k]) + {s[k]}
  {
    assert s[..k + 1] == s[..k] + [s[k]];
  }

  lemma {:induction false} DistinctCounts<T>(xs: seq<T>)
    requires Distinct(xs)
    ensures |Elements(xs)| == |xs|
    ensures multiset(Elements(xs)) == multiset(xs)
  {
    if xs == [] {
      assert Elements(xs) == {};
    } else {
      var x, rest := xs[0], xs[1..];
      assert xs == [x] + rest;
      assert Elements(xs) == {x} + Elements(rest);
      assert x !in Elements(rest);
      DistinctCounts(rest);
    }
  }

  // The position of the first element satisfying a predicate, as std::find_if returns it.
  ghost function FirstIndex<T>(s: seq<T>, p: T -> bool): (r: Option<nat>)
    ensures r.Some? ==> r.value < |s| && p(s[r.value]) && forall i :: 0 <= i < r.value ==> !p(s[i])
    ensures r.None? ==> forall x :: x in s ==> !p(x)
  {
    if s == [] then None
    else if p(s[0]) then Some(0)
    else match FirstIndex(s[1..], p)
      case None => None
      case Some(i) => Some(i + 1)
  }

  // The sequence without the first occurrence of an element.
  ghost function Erase<T>(s: seq<T>, x: T): (r: seq<T>)
    ensures forall y :: y in r ==> y in s
    ensures forall y :: y in s && y != x ==> y in r
    ensures Distinct(s) ==> Distinct(r) && x !in r
    ensures |r| == if x in s then |s| - 1 else |s|
  {
    if s == [] then []
    else if s[0] == x then s[1..]
    else
      var tail := s[1..];
      var left := Erase(tail, x);
      assert s == [s[0]] + tail;
      assert Distinct(s) ==> Distinct(tail) && s[0] !in tail && s[0] !in left;
      [s[0]] + left
  }

  lemma FirstIndexIs<T>(s: seq<T>, p: T -> bool, i: nat)
    requires i < |s| && p(s[i]) && forall j :: 0 <= j < i ==> !p(s[j])
    ensures FirstIndex(s, p) == Some(i)
  {
    assert s[i] in s;
  }

  lemma {:induction false} EraseIsSplice<T>(s: seq<T>, i: nat)
    requires i < |s| && s[i] !in s[..i]
    ensures Erase(s, s[i]) == s[..i] + s[i + 1..]
  {
    if i > 0 {
      assert s[0] in s[..i];
      assert s[1..][..i - 1] == s[..i][1..];
      EraseIsSplice(s[1..], i - 1);
      assert s[..i] + s[i + 1..] == [s[0]] + (s[1..][..i - 1] + s[1..][i..]);
    }
  }

  ghost predicate Pairwise<T>(s: seq<T>, r: (T, T) -> bool) {
    forall i, j :: 0 <= i < j < |s| ==> r(s[i], s[j])
  }

  ghost function Filter<T(!new)>(s: seq<T>, keep: T -> bool): (r: seq<T>)
    ensures forall x :: x in r <==> x in s && keep(x)
    ensures |r| <= |s|
  {
    if s == [] then []
    else
      assert s == [s[0]] + s[1..];
      (if keep(s[0]) then [s[0]] else []) + Filter(s[1..], keep)
  }

  lemma {:induction false} FilterPairwise<T(!new)>(s: seq<T>, keep: T -> bool, r: (T, T) -> bool)
    requires Pairwise(s, r)
    ensures Pairwise(Filter(s, keep), r)
  {
    if s != [] {
      var tail := Filter(s[1..], keep);
      FilterPairwise(s[1..], keep, r);
      forall y | y in tail ensures r(s[0], y) {
        var j :| 0 <= j < |s[1..]| && s[1..][j] == y;
        assert s[j + 1] == y;
      }
    }
  }

  ghost function Splice<T>(s: seq<T>, i: nat): seq<T>
    requires i < |s|
  {
    s[..i] + s[i + 1..]
  }

  lemma SplicePairwise<T>(s: seq<T>, i: nat, r: (T, T) -> bool)
    requires Pairwise(s, r) && i < |s|
    ensures Pairwise(Splice(s, i), r)
    ensures forall x :: x in Splice(s, i) ==> x in s
    ensures forall j :: 0 <= j < |s| && j != i ==> s[j] in Splice(s, i)
  {
    var left := Splice(s, i);
    assert forall j :: 0 <= j < |left| ==> left[j] == s[if j < i then j else j + 1];
    forall j | 0 <= j < |s| && j != i ensures s[j] in left {
      assert left[if j < i then j else j - 1] == s[j];
    }
  }

  ghost function Insert<T>(s: seq<T>, i: nat, x: T): seq<T>
    requires i <= |s|
  {
    s[..i] + [x] + s[i..]
  }

  lemma InsertPairwise<T>(s: seq<T>, i: nat, x: T, r: (T, T) -> bool)
    requires Pairwise(s, r) && i <= |s|
    requires forall j :: 0 <= j < i ==> r(s[j], x)
    requires forall j :: i <= j < |s| ==> r(x, s[j])
    ensures Pairwise(Insert(s, i, x), r)
    ensures forall y :: y in Insert(s, i, x) <==> y == x || y in s
  {
    var t := Insert(s, i, x);
    assert forall j :: 0 <= j < |t| ==> t[j] == if j < i then s[j] else if j == i then x else s[j - 1];
    forall j, k | 0 <= j < k < |t| ensures r(t[j], t[k]) {
      var a, b := if j < i then j else j - 1, if k < i then k else k - 1;
      assert j != i && k != i ==> r(s[a], s[b]);
    }
    assert s == s[..i] + s[i..];
  }
}
