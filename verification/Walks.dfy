/** Walking a store of uint64 keys in ascending order. */
module Walks {

  predicate IsLeast(m: nat, s: set<nat>) {
    m in s && forall k <- s :: m <= k
  }

  ghost predicate IsAscending(r: seq<nat>) {
    forall i, j :: 0 <= i < j < |r| ==> r[i] < r[j]
  }

  lemma {:induction false} HasLeast(s: set<nat>)
    requires s != {}
    ensures exists m :: IsLeast(m, s)
    decreases |s|
  {
    var x :| x in s;
    var t := s - {x};
    if t == {} {
      assert s == {x};
      assert IsLeast(x, s);
    } else {
      HasLeast(t);
      var m :| IsLeast(m, t);
      assert forall k <- s :: k == x || k in t;
      if x < m {
        assert IsLeast(x, s);
      } else {
        assert IsLeast(m, s);
      }
    }
  }

  /** The keys of s, smallest first. */
  function Ascending(s: set<nat>): (r: seq<nat>)
    ensures forall k :: k in r <==> k in s
    decreases |s|
  {
    if s == {} then []
    else
      HasLeast(s);
      var m :| IsLeast(m, s);
      [m] + Ascending(s - {m})
  }

  lemma {:induction false} AscendingLaw(s: set<nat>)
    ensures IsAscending(Ascending(s))
    decreases |s|
  {
    if s != {} {
      HasLeast(s);
      var m :| IsLeast(m, s) && Ascending(s) == [m] + Ascending(s - {m});
      AscendingLaw(s - {m});
      AscendingCons(m, Ascending(s - {m}));
    }
  }

  lemma AscendingCons(m: nat, r: seq<nat>)
    requires IsAscending(r) && forall k <- r :: m < k
    ensures IsAscending([m] + r)
  {
    var t := [m] + r;
    forall i, j | 0 <= i < j < |t| ensures t[i] < t[j] {
      assert t[j] == r[j - 1] && r[j - 1] in r;
    }
  }

  lemma AscendingTail(r: seq<nat>)
    requires IsAscending(r) && r != []
    ensures IsAscending(r[1..]) && forall k :: k in r[1..] <==> k in r && k != r[0]
  {
    assert r == [r[0]] + r[1..];
    assert forall i :: 0 <= i < |r[1..]| ==> r[1..][i] == r[i + 1];
  }

  /** A set has only one ascending enumeration. */
  lemma {:induction false} AscendingUnique(r: seq<nat>, t: seq<nat>)
    requires IsAscending(r) && IsAscending(t)
    requires forall k :: k in r <==> k in t
    ensures r == t
  {
    if r == [] {
      if t != [] { HasMember(t); }
    } else {
      assert r[0] in r && r[0] in t;
      assert t[0] in t && t[0] in r;
      SameFirst(r, t);
      AscendingTail(r);
      AscendingTail(t);
      AscendingUnique(r[1..], t[1..]);
      assert r == [r[0]] + r[1..] && t == [t[0]] + t[1..];
    }
  }

  lemma HasMember(r: seq<nat>)
    requires r != []
    ensures exists k :: k in r
  {
    assert r[0] in r;
  }

  lemma SameFirst(r: seq<nat>, t: seq<nat>)
    requires IsAscending(r) && IsAscending(t) && r != [] && t != [] && r[0] in t && t[0] in r
    ensures r[0] == t[0]
  {
  }
}
