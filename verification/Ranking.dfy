/** Rendezvous ranking: every peer orders the brokers of a pool by a score that depends on the
    broker and the destination only, and tries the best ten. */
module Ranking {
  import opened Basics

  type Host = string
  type Score = Host -> real

  /** Stable insertion: before the first host that scores no better. */
  function Insert(h: Host, s: seq<Host>, score: Score): seq<Host> {
    if s == [] || score(h) <= score(s[0]) then [h] + s else [s[0]] + Insert(h, s[1..], score)
  }

  /** list.sort by score, best (lowest) first. */
  function Rank(pool: seq<Host>, score: Score): (r: seq<Host>)
    ensures |r| == |pool|
  {
    if pool == [] then []
    else
      var r := Rank(pool[1..], score);
      InsertLength(pool[0], r, score);
      Insert(pool[0], r, score)
  }

  lemma {:induction false} InsertLength(h: Host, s: seq<Host>, score: Score)
    ensures |Insert(h, s, score)| == |s| + 1
  {
    if s != [] && score(h) > score(s[0]) {
      InsertLength(h, s[1..], score);
    }
  }

  function Filter(s: seq<Host>, keep: Host -> bool): seq<Host> {
    if s == [] then [] else (if keep(s[0]) then [s[0]] else []) + Filter(s[1..], keep)
  }

  predicate Sorted(s: seq<Host>, score: Score) {
    forall i, j :: 0 <= i < j < |s| ==> score(s[i]) <= score(s[j])
  }

  predicate Unique<T(==)>(s: seq<T>) { forall i, j :: 0 <= i < j < |s| ==> s[i] != s[j] }

  /** No two brokers of the pool score the same. */
  predicate Strict(s: seq<Host>, score: Score) {
    forall i, j :: 0 <= i < j < |s| ==> score(s[i]) != score(s[j])
  }

  predicate SameMembers<T(==)>(s: seq<T>, t: seq<T>) {
    (forall x :: x in s ==> x in t) && (forall x :: x in t ==> x in s)
  }

  lemma {:induction false} InsertBag(h: Host, s: seq<Host>, score: Score)
    ensures multiset(Insert(h, s, score)) == multiset(s) + multiset{h}
    ensures forall x :: x in Insert(h, s, score) <==> x == h || x in s
  {
    if s != [] && score(h) > score(s[0]) {
      InsertBag(h, s[1..], score);
      assert s == [s[0]] + s[1..];
    }
  }

  lemma {:induction false} InsertSorts(h: Host, s: seq<Host>, score: Score)
    requires Sorted(s, score)
    ensures Sorted(Insert(h, s, score), score)
  {
    if s != [] && score(h) > score(s[0]) {
      InsertSorts(h, s[1..], score);
      InsertBag(h, s[1..], score);
      var t := Insert(h, s[1..], score);
      forall i | 0 <= i < |t| ensures score(s[0]) <= score(t[i]) {
        assert t[i] in t;
      }
    }
  }

  lemma {:induction false} InsertStrict(h: Host, s: seq<Host>, score: Score)
    requires Strict(s, score) && forall x :: x in s ==> score(x) != score(h)
    ensures Strict(Insert(h, s, score), score)
  {
    if s != [] && score(h) > score(s[0]) {
      InsertStrict(h, s[1..], score);
      InsertBag(h, s[1..], score);
      var t := Insert(h, s[1..], score);
      forall i | 0 <= i < |t| ensures score(s[0]) != score(t[i]) {
        assert t[i] in t;
      }
    }
  }

  lemma {:induction false} RankSorts(pool: seq<Host>, score: Score)
    ensures Sorted(Rank(pool, score), score)
    ensures multiset(Rank(pool, score)) == multiset(pool)
  {
    if pool != [] {
      RankSorts(pool[1..], score);
      var rest := Rank(pool[1..], score);
      InsertSorts(pool[0], rest, score);
      InsertBag(pool[0], rest, score);
      hide Insert, Sorted;
      FirstInBag(pool);
    }
  }

  lemma FirstInBag(pool: seq<Host>)
    requires pool != []
    ensures multiset(pool) == multiset(pool[1..]) + multiset{pool[0]}
  {
    assert pool == [pool[0]] + pool[1..];
  }

  lemma RankMembers(pool: seq<Host>, score: Score)
    ensures SameMembers(pool, Rank(pool, score))
  {
    RankSorts(pool, score);
    var r := Rank(pool, score);
    forall x ensures x in pool <==> x in r {
      assert x in pool <==> x in multiset(pool);
      assert x in r <==> x in multiset(r);
    }
  }

  /** Two strictly sorted lists with the same members are equal. */
  lemma {:induction false} SortedUnique(s: seq<Host>, t: seq<Host>, score: Score)
    requires Sorted(s, score) && Sorted(t, score) && Strict(s, score) && Strict(t, score) && SameMembers(s, t)
    ensures s == t
    decreases |s|
  {
    assert (t != [] ==> t[0] in t) && (s != [] ==> s[0] in s);
    if s != [] {
      assert s[0] in t && t[0] in s;
      assert s[0] == t[0];
      forall x ensures x in s[1..] <==> x in t[1..] {
        if x in s[1..] {
          assert x in s && x != s[0];
        }
        if x in t[1..] {
          assert x in t && x != t[0];
        }
      }
      SortedUnique(s[1..], t[1..], score);
      assert s == [s[0]] + s[1..] && t == [t[0]] + t[1..];
    }
  }

  lemma {:induction false} RankStrict(pool: seq<Host>, score: Score)
    requires Strict(pool, score)
    ensures Strict(Rank(pool, score), score)
  {
    if pool != [] {
      RankStrict(pool[1..], score);
      RankMembers(pool[1..], score);
      InsertStrict(pool[0], Rank(pool[1..], score), score);
    }
  }

  /** The ranking does not depend on the order in which a peer's pool lists the brokers. */
  lemma RankDeterministic(pool: seq<Host>, other: seq<Host>, score: Score)
    requires Strict(pool, score) && Strict(other, score) && SameMembers(pool, other)
    ensures Rank(pool, score) == Rank(other, score)
  {
    RankSorts(pool, score);
    RankSorts(other, score);
    RankStrict(pool, score);
    RankStrict(other, score);
    RankMembers(pool, score);
    RankMembers(other, score);
    SortedUnique(Rank(pool, score), Rank(other, score), score);
  }

  // ---- a sub-pool -------------------------------------------------------------------------------

  lemma {:induction false} FilterInsert(h: Host, s: seq<Host>, score: Score, keep: Host -> bool)
    requires Sorted(s, score)
    ensures Filter(Insert(h, s, score), keep) == if keep(h) then Insert(h, Filter(s, keep), score) else Filter(s, keep)
  {
    FilterKeeps(s, keep);
    if s == [] || score(h) <= score(s[0]) {
      assert ([h] + s)[1..] == s;
      if Filter(s, keep) != [] {
        assert Filter(s, keep)[0] in s;
        assert score(h) <= score(Filter(s, keep)[0]);
      }
    } else {
      FilterInsert(h, s[1..], score, keep);
      var t := Insert(h, s[1..], score);
      assert Insert(h, s, score) == [s[0]] + t && ([s[0]] + t)[1..] == t;
      if keep(s[0]) {
        assert ([s[0]] + Filter(s[1..], keep))[1..] == Filter(s[1..], keep);
      } else {
        assert Filter(s, keep) == Filter(s[1..], keep) && Filter([s[0]] + t, keep) == Filter(t, keep);
      }
    }
  }

  lemma {:induction false} FilterKeeps(s: seq<Host>, keep: Host -> bool)
    ensures forall x :: x in Filter(s, keep) <==> x in s && keep(x)
  {
    if s != [] {
      FilterKeeps(s[1..], keep);
      assert s == [s[0]] + s[1..];
    }
  }

  /** Ranking a sub-pool is reading the whole ranking without the others: brokers that join or
      leave never reorder the rest. */
  lemma {:induction false} RankRestricts(pool: seq<Host>, score: Score, keep: Host -> bool)
    ensures Rank(Filter(pool, keep), score) == Filter(Rank(pool, score), keep)
  {
    if pool != [] {
      RankRestricts(pool[1..], score, keep);
      RankSorts(pool[1..], score);
      FilterInsert(pool[0], Rank(pool[1..], score), score, keep);
      if keep(pool[0]) {
        assert Filter(pool, keep)[1..] == Filter(pool[1..], keep);
      } else {
        assert Filter(pool, keep) == Filter(pool[1..], keep);
      }
    }
  }

  /** What is kept at position i stands at some position j <= i of the filtered list. */
  lemma {:induction false} FilterPosition(s: seq<Host>, keep: Host -> bool, i: nat) returns (j: nat)
    requires i < |s| && keep(s[i])
    ensures j <= i && j < |Filter(s, keep)| && Filter(s, keep)[j] == s[i]
  {
    if i == 0 {
      j := 0;
    } else {
      j := FilterPosition(s[1..], keep, i - 1);
      j := if keep(s[0]) then j + 1 else j;
    }
  }

  /** When brokers leave, no survivor's rank gets worse. */
  lemma SurvivorsMoveUp(pool: seq<Host>, score: Score, keep: Host -> bool, i: nat) returns (j: nat)
    requires i < |pool| && keep(Rank(pool, score)[i])
    ensures j <= i && j < |Filter(pool, keep)| && Rank(Filter(pool, keep), score)[j] == Rank(pool, score)[i]
  {
    RankRestricts(pool, score, keep);
    j := FilterPosition(Rank(pool, score), keep, i);
  }

  lemma {:induction false} AllAlike(pool: seq<Host>, score: Score, v: real)
    requires forall h :: h in pool ==> score(h) == v
    ensures Rank(pool, score) == pool
  {
    if pool != [] { AllAlike(pool[1..], score, v); }
  }

  /** Brokers with the same score keep the order in which the pool lists them. */
  lemma RankStable(pool: seq<Host>, score: Score, v: real)
    ensures Filter(Rank(pool, score), h => score(h) == v) == Filter(pool, h => score(h) == v)
  {
    var keep := h => score(h) == v;
    RankRestricts(pool, score, keep);
    FilterKeeps(pool, keep);
    AllAlike(Filter(pool, keep), score, v);
  }

  // ---- two pools ----------------------------------------------------------------------------------

  lemma {:induction false} FilterPrefix(s: seq<Host>, n: nat, keep: Host -> bool)
    requires n <= |s|
    ensures Filter(s[..n], keep) <= Filter(s, keep)
  {
    if n > 0 {
      FilterPrefix(s[1..], n - 1, keep);
      assert s[..n][1..] == s[1..][..n - 1];
    }
  }

  /** Filtering a list without repetition drops at most the outsiders. */
  lemma {:induction false} FilterDrops(s: seq<Host>, keep: Host -> bool, outside: set<Host>)
    requires Unique(s) && forall x :: x in s && !keep(x) ==> x in outside
    ensures |Filter(s, keep)| >= |s| - |outside|
  {
    if s != [] {
      if keep(s[0]) {
        FilterDrops(s[1..], keep, outside);
      } else {
        assert s[0] in s;
        forall x | x in s[1..] && !keep(x) ensures x in outside - {s[0]} {
          assert x in s && x != s[0];
        }
        FilterDrops(s[1..], keep, outside - {s[0]});
      }
    }
  }

  lemma {:induction false} UniqueCount<T>(s: seq<T>, members: set<T>)
    requires Unique(s) && forall x :: x in s ==> x in members
    ensures |s| <= |members|
  {
    if s != [] {
      assert s[0] in s;
      forall x | x in s[1..] ensures x in members - {s[0]} {
        assert x in s && x != s[0];
      }
      UniqueCount(s[1..], members - {s[0]});
    }
  }

  predicate In(h: Host, pool: seq<Host>) { h in pool }

  lemma {:induction false} FilterStrict(s: seq<Host>, keep: Host -> bool, score: Score)
    requires Strict(s, score)
    ensures Strict(Filter(s, keep), score)
  {
    if s != [] {
      FilterStrict(s[1..], keep, score);
      FilterKeeps(s[1..], keep);
      var t := Filter(s[1..], keep);
      forall i | 0 <= i < |t| ensures score(s[0]) != score(t[i]) {
        assert t[i] in t;
      }
    }
  }

  /** The common brokers, as each side ranks them. */
  lemma CommonRanking(a: seq<Host>, b: seq<Host>, score: Score)
    requires Strict(a, score) && Strict(b, score)
    ensures Filter(Rank(a, score), h => In(h, b)) == Filter(Rank(b, score), h => In(h, a))
  {
    var inA, inB := h => In(h, a), h => In(h, b);
    RankRestricts(a, score, inB);
    RankRestricts(b, score, inA);
    FilterKeeps(a, inB);
    FilterKeeps(b, inA);
    FilterStrict(a, inB, score);
    FilterStrict(b, inA, score);
    RankDeterministic(Filter(a, inB), Filter(b, inA), score);
  }

  ghost function Members(s: seq<Host>): set<Host> { set h | h in s }

  lemma StrictUnique(s: seq<Host>, score: Score)
    requires Strict(s, score)
    ensures Unique(s)
  {
  }

  /** How much of the common ranking a window of size n contains. */
  lemma WindowContains(a: seq<Host>, b: seq<Host>, score: Score, n: nat) returns (m: nat)
    requires Strict(a, score) && n <= |a|
    ensures var common := Filter(Rank(a, score), h => In(h, b));
            && m <= |common| && m >= n - |Members(a) - Members(b)|
            && forall i :: 0 <= i < m ==> common[i] in Rank(a, score)[..n]
  {
    var r, inB := Rank(a, score), h => In(h, b);
    RankStrict(a, score);
    RankMembers(a, score);
    StrictUnique(r, score);
    FilterPrefix(r, n, inB);
    FilterKeeps(r[..n], inB);
    forall x | x in r[..n] && !inB(x) ensures x in Members(a) - Members(b) {
      assert x in r;
    }
    FilterDrops(r[..n], inB, Members(a) - Members(b));
    m := |Filter(r[..n], inB)|;
    forall i | 0 <= i < m ensures Filter(r, inB)[i] in r[..n] {
      assert Filter(r, inB)[i] == Filter(r[..n], inB)[i];
    }
  }

  /** Two peers whose pools differ still overlap: of their n best brokers at least
      n - max(|a \ b|, |b \ a|) are the same. */
  lemma {:induction false} WindowOverlap(a: seq<Host>, b: seq<Host>, score: Score, n: nat)
    requires Strict(a, score) && Strict(b, score) && n <= |a| && n <= |b|
    ensures |Members(Rank(a, score)[..n]) * Members(Rank(b, score)[..n])|
         >= n - Max(|Members(a) - Members(b)|, |Members(b) - Members(a)|)
  {
    CommonRanking(a, b, score);
    var common := Filter(Rank(a, score), h => In(h, b));
    var m := WindowContains(a, b, score, n);
    var k := WindowContains(b, a, score, n);
    var least := if m <= k then m else k;
    RankStrict(a, score);
    FilterStrict(Rank(a, score), h => In(h, b), score);
    StrictUnique(common, score);
    var both := Members(Rank(a, score)[..n]) * Members(Rank(b, score)[..n]);
    forall x | x in common[..least] ensures x in both {
      var i :| 0 <= i < least && common[i] == x;
    }
    UniqueCount(common[..least], both);
  }

  // ---- rendezvous_hash --------------------------------------------------------------------------

  /** One ranked bucket per supported address family. */
  method RendezvousHash(supported: seq<nat>, servers: map<nat, seq<Host>>, score: (nat, Host) -> real)
    returns (buckets: map<nat, seq<Host>>)
    requires forall af :: af in supported ==> af in servers
    ensures buckets.Keys == set af | af in supported
    ensures forall af :: af in supported ==> buckets[af] == Rank(servers[af], h => score(af, h))
  {
    buckets := map[];
    for i := 0 to |supported|
      invariant buckets.Keys == set af | af in supported[..i]
      invariant forall af :: af in supported[..i] ==> buckets[af] == Rank(servers[af], h => score(af, h))
    {
      var af := supported[i];
      var bucket: seq<Host> := [];
      for k := 0 to |servers[af]|
        invariant bucket == servers[af][..k]
      {
        bucket := bucket + [servers[af][k]];
      }
      assert bucket == servers[af];
      buckets := buckets[af := Rank(bucket, h => score(af, h))];
    }
    assert supported[..|supported|] == supported;
  }
}
