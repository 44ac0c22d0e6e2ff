/** Lists of distinct ids ordered by a stored rank, ties broken by id. */
module Ordering {

  predicate Before(rank: map<nat, nat>, a: nat, b: nat)
    requires a in rank && b in rank
  {
    rank[a] < rank[b] || (rank[a] == rank[b] && a < b)
  }

  predicate Ranked(rank: map<nat, nat>, s: seq<nat>) {
    && (forall i :: i in s ==> i in rank)
    && (forall i, j :: 0 <= i < j < |s| ==> Before(rank, s[i], s[j]))
  }

  predicate Precedes(rank: map<nat, nat>, m: nat, ids: set<nat>)
    requires m in rank && ids <= rank.Keys
  {
    forall i :: i in ids && i != m ==> Before(rank, m, i)
  }

  function First(rank: map<nat, nat>, ids: set<nat>): (m: nat)
    requires ids != {} && ids <= rank.Keys
    ensures m in ids && Precedes(rank, m, ids)
  {
    FirstExists(rank, ids);
    var m :| m in ids && Precedes(rank, m, ids);
    m
  }

  lemma {:induction false} FirstExists(rank: map<nat, nat>, ids: set<nat>)
    requires ids != {} && ids <= rank.Keys
    ensures exists m :: m in ids && Precedes(rank, m, ids)
  {
    var x :| x in ids;
    var rest := ids - {x};
    if rest == {} {
      assert ids == {x};
      assert Precedes(rank, x, ids);
    } else {
      FirstExists(rank, rest);
      var m :| m in rest && Precedes(rank, m, rest);
      var first := if Before(rank, m, x) then m else x;
      forall i | i in ids && i != first ensures Before(rank, first, i) {
        assert i == x || i in rest;
      }
      assert first in ids && Precedes(rank, first, ids);
    }
  }

  /** The ids in ascending rank, ties in ascending id. */
  function ByRank(rank: map<nat, nat>, ids: set<nat>): (s: seq<nat>)
    requires ids <= rank.Keys
    ensures Ranked(rank, s)
    ensures forall i :: i in s <==> i in ids
  {
    if ids == {} then []
    else
      var m := First(rank, ids);
      [m] + ByRank(rank, ids - {m})
  }

  lemma NoRepeats(rank: map<nat, nat>, s: seq<nat>)
    requires Ranked(rank, s)
    ensures forall i, j :: 0 <= i < j < |s| ==> s[i] != s[j]
  {
  }

  lemma SomeMember(s: seq<nat>)
    ensures s == [] || exists i :: i in s
  {
    if s != [] {
      assert s[0] in s;
    }
  }

  /** There is only one ranked list of given ids. */
  lemma {:induction false} RankedUnique(rank: map<nat, nat>, s: seq<nat>, t: seq<nat>)
    requires Ranked(rank, s) && Ranked(rank, t) && forall i :: i in s <==> i in t
    ensures s == t
  {
    SomeMember(t);
    if s != [] {
      assert s[0] in s && s[0] in t;
      assert t[0] in t && t[0] in s;
      var i :| 0 <= i < |t| && t[i] == s[0];
      var j :| 0 <= j < |s| && s[j] == t[0];
      assert i == 0;
      forall k ensures k in s[1..] <==> k in t[1..] {
        InTail(s, k);
        InTail(t, k);
        assert s[0] !in s[1..] && t[0] !in t[1..];
      }
      RankedUnique(rank, s[1..], t[1..]);
      assert s == [s[0]] + s[1..] && t == [t[0]] + t[1..];
    }
  }

  lemma InTail(s: seq<nat>, k: nat)
    requires s != []
    ensures k in s <==> k == s[0] || k in s[1..]
  {
    assert s == [s[0]] + s[1..];
  }

  /** The members of s that are in keep, in the order of s. */
  function Only(s: seq<nat>, keep: set<nat>): seq<nat> {
    if s == [] then []
    else Only(s[..|s| - 1], keep) + if s[|s| - 1] in keep then [s[|s| - 1]] else []
  }

  lemma {:induction false} OnlyAppend(s: seq<nat>, t: seq<nat>, keep: set<nat>)
    ensures Only(s + t, keep) == Only(s, keep) + Only(t, keep)
  {
    if t == [] {
      assert s + t == s;
    } else {
      assert (s + t)[..|s + t| - 1] == s + t[..|t| - 1];
      OnlyAppend(s, t[..|t| - 1], keep);
    }
  }

  lemma {:induction false} OnlyMembers(s: seq<nat>, keep: set<nat>)
    ensures forall i :: i in Only(s, keep) <==> i in s && i in keep
  {
    if s != [] {
      OnlyMembers(s[..|s| - 1], keep);
      assert s == s[..|s| - 1] + [s[|s| - 1]];
    }
  }

  lemma {:induction false} OnlyRanked(rank: map<nat, nat>, s: seq<nat>, keep: set<nat>)
    requires Ranked(rank, s)
    ensures Ranked(rank, Only(s, keep))
  {
    if s != [] {
      var before := s[..|s| - 1];
      var kept := Only(before, keep);
      OnlyRanked(rank, before, keep);
      OnlyMembers(before, keep);
      forall i | 0 <= i < |kept| ensures Before(rank, kept[i], s[|s| - 1]) {
        assert kept[i] in before;
        var j :| 0 <= j < |before| && before[j] == kept[i];
      }
    }
  }

  lemma {:induction false} OnlyAll(s: seq<nat>, keep: set<nat>)
    requires forall i :: i in s ==> i in keep
    ensures Only(s, keep) == s
  {
    if s != [] {
      assert s[|s| - 1] in s;
      OnlyAll(s[..|s| - 1], keep);
    }
  }

  /** Where x stands in s. */
  function IndexOf(s: seq<nat>, x: nat): (i: nat)
    requires x in s
    ensures i < |s| && s[i] == x
  {
    if s[0] == x then 0 else IndexOf(s[1..], x) + 1
  }

  method Find(s: seq<nat>, x: nat) returns (i: nat)
    requires x in s
    ensures i == IndexOf(s, x)
  {
    i := 0;
    while s[i] != x
      invariant i < |s| && x in s[i..]
      invariant IndexOf(s, x) == i + IndexOf(s[i..], x)
      decreases |s| - i
    {
      assert s[i..][1..] == s[i + 1..];
      i := i + 1;
    }
  }

  /** Sorts distinct ids by inserting each into the list sorted so far. */
  method SortByRank(rank: map<nat, nat>, ids: seq<nat>) returns (s: seq<nat>)
    requires forall i :: i in ids ==> i in rank
    requires forall i, j :: 0 <= i < j < |ids| ==> ids[i] != ids[j]
    ensures s == ByRank(rank, set i | i in ids)
  {
    s := [];
    for n := 0 to |ids|
      invariant Ranked(rank, s)
      invariant forall i :: i in s <==> i in ids[..n]
    {
      var x := ids[n];
      assert x !in ids[..n];
      s := InsertRanked(rank, s, x);
      assert ids[..n + 1] == ids[..n] + [x];
    }
    assert ids[..|ids|] == ids;
    RankedUnique(rank, s, ByRank(rank, set i | i in ids));
  }

  method InsertRanked(rank: map<nat, nat>, s: seq<nat>, x: nat) returns (r: seq<nat>)
    requires Ranked(rank, s) && x in rank && x !in s
    ensures Ranked(rank, r) && forall i :: i in r <==> i in s || i == x
  {
    var j := |s|;
    while j > 0 && Before(rank, x, s[j - 1])
      invariant 0 <= j <= |s|
      invariant forall i :: j <= i < |s| ==> Before(rank, x, s[i])
    {
      j := j - 1;
    }
    forall i | 0 <= i < j ensures Before(rank, s[i], x) {
      assert s[j - 1] in s;
    }
    r := s[..j] + [x] + s[j..];
    InsertedRanked(rank, s, x, j, r);
  }

  lemma InsertedRanked(rank: map<nat, nat>, s: seq<nat>, x: nat, j: nat, r: seq<nat>)
    requires Ranked(rank, s) && x in rank && j <= |s| && r == s[..j] + [x] + s[j..]
    requires forall i :: 0 <= i < j ==> Before(rank, s[i], x)
    requires forall i :: j <= i < |s| ==> Before(rank, x, s[i])
    ensures Ranked(rank, r) && forall i :: i in r <==> i in s || i == x
  {
    forall i ensures i in r <==> i in s || i == x {
      assert s == s[..j] + s[j..];
    }
    forall a, b | 0 <= a < b < |r| ensures Before(rank, r[a], r[b]) {
      assert r[a] == if a < j then s[a] else if a == j then x else s[a - 1];
      assert r[b] == if b < j then s[b] else if b == j then x else s[b - 1];
    }
  }
}
