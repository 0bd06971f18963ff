/** interleave_buckets: one item of every family per round. The families are given in the
    order of their sorted keys. */
module Interleave {
  import opened Basics

  type Buckets<T> = seq<seq<T>>

  /** The items of round `i`, from the first `f` families. */
  function Round<T>(bs: Buckets<T>, i: nat, f: nat): seq<T>
    requires f <= |bs|
  {
    if f == 0 then [] else Round(bs, i, f - 1) + if i < |bs[f - 1]| then [bs[f - 1][i]] else []
  }

  function Merge<T>(bs: Buckets<T>, rounds: nat): seq<T> {
    if rounds == 0 then [] else Merge(bs, rounds - 1) + Round(bs, rounds - 1, |bs|)
  }

  function Longest<T>(bs: Buckets<T>): (n: nat)
    ensures forall f :: 0 <= f < |bs| ==> |bs[f]| <= n
  {
    if bs == [] then 0 else Max(|bs[|bs| - 1]|, Longest(bs[..|bs| - 1]))
  }

  method InterleaveBuckets<T>(bs: Buckets<T>) returns (out: seq<T>)
    ensures out == Merge(bs, Longest(bs))
  {
    out := [];
    var maxLen := Longest(bs);
    for i := 0 to maxLen
      invariant out == Merge(bs, i)
    {
      ghost var before := out;
      for f := 0 to |bs|
        invariant out == before + Round(bs, i, f)
      {
        if i < |bs[f]| {
          out := out + [bs[f][i]];
        }
      }
    }
  }

  /** Sum over the first `f` families of min(i, length). */
  function Before<T>(bs: Buckets<T>, i: nat, f: nat): nat
    requires f <= |bs|
  {
    if f == 0 then 0 else Before(bs, i, f - 1) + Min(i, |bs[f - 1]|)
  }

  /** How many of the first `f` families have more than `i` items. */
  function Longer<T>(bs: Buckets<T>, i: nat, f: nat): nat
    requires f <= |bs|
  {
    if f == 0 then 0 else Longer(bs, i, f - 1) + if i < |bs[f - 1]| then 1 else 0
  }

  /** Where item `i` of family `f` goes. */
  function Position<T>(bs: Buckets<T>, f: nat, i: nat): nat
    requires f < |bs|
  {
    Before(bs, i, |bs|) + Longer(bs, i, f)
  }

  lemma {:induction false} RoundShape<T>(bs: Buckets<T>, i: nat, f: nat)
    requires f <= |bs|
    ensures |Round(bs, i, f)| == Longer(bs, i, f) && Before(bs, i + 1, f) == Before(bs, i, f) + Longer(bs, i, f)
  {
    if f > 0 {
      RoundShape(bs, i, f - 1);
    }
  }

  lemma {:induction false} MergeLength<T>(bs: Buckets<T>, rounds: nat)
    ensures |Merge(bs, rounds)| == Before(bs, rounds, |bs|)
  {
    if rounds == 0 {
      NothingBefore(bs, |bs|);
    } else {
      MergeLength(bs, rounds - 1);
      RoundShape(bs, rounds - 1, |bs|);
    }
  }

  lemma {:induction false} NothingBefore<T>(bs: Buckets<T>, f: nat)
    requires f <= |bs|
    ensures Before(bs, 0, f) == 0
  {
    if f > 0 {
      NothingBefore(bs, f - 1);
    }
  }

  lemma {:induction false} InRound<T>(bs: Buckets<T>, i: nat, f: nat, g: nat)
    requires f < g <= |bs| && i < |bs[f]|
    ensures Longer(bs, i, f) < |Round(bs, i, g)| && Round(bs, i, g)[Longer(bs, i, f)] == bs[f][i]
    decreases g
  {
    RoundShape(bs, i, f);
    RoundShape(bs, i, g - 1);
    if g > f + 1 {
      InRound(bs, i, f, g - 1);
    }
  }

  /** Item i of family f stands after min(i, length) items of every family and after the
      earlier families that are longer than i. */
  lemma {:induction false} PositionExactly<T>(bs: Buckets<T>, rounds: nat, f: nat, i: nat)
    requires f < |bs| && i < |bs[f]| && i < rounds
    ensures Position(bs, f, i) < |Merge(bs, rounds)| && Merge(bs, rounds)[Position(bs, f, i)] == bs[f][i]
    decreases rounds
  {
    hide Before, Longer, Round;
    MergeLength(bs, rounds - 1);
    if i == rounds - 1 {
      InRound(bs, i, f, |bs|);
    } else {
      PositionExactly(bs, rounds - 1, f, i);
    }
  }

  lemma {:induction false} BeforeMonotone<T>(bs: Buckets<T>, i: nat, f: nat, g: nat)
    requires f < g <= |bs| && i < |bs[f]|
    ensures Before(bs, i, g) < Before(bs, i + 1, g) && Longer(bs, i, f) < Before(bs, i + 1, g) - Before(bs, i, g)
    decreases g
  {
    RoundShape(bs, i, g);
    RoundShape(bs, i, f);
    if g > f + 1 {
      BeforeMonotone(bs, i, f, g - 1);
      RoundShape(bs, i, g - 1);
    }
  }

  /** A family's own order survives. */
  lemma OrderKept<T>(bs: Buckets<T>, f: nat, i: nat)
    requires f < |bs| && i + 1 < |bs[f]|
    ensures Position(bs, f, i) < Position(bs, f, i + 1)
  {
    BeforeMonotone(bs, i, f, |bs|);
  }

  function Bag<T>(bs: Buckets<T>, i: nat, f: nat): multiset<T>
    requires f <= |bs|
  {
    if f == 0 then multiset{} else Bag(bs, i, f - 1) + multiset(bs[f - 1][..Min(i, |bs[f - 1]|)])
  }

  lemma {:induction false} BagStep<T>(bs: Buckets<T>, i: nat, f: nat)
    requires f <= |bs|
    ensures Bag(bs, i + 1, f) == Bag(bs, i, f) + multiset(Round(bs, i, f))
  {
    hide Bag, Round;
    if f == 0 {
      NoFamilies(bs, i);
      NoFamilies(bs, i + 1);
    } else {
      BagStep(bs, i, f - 1);
      var b, earlier := bs[f - 1], Round(bs, i, f - 1);
      var item := if i < |b| then [b[i]] else [];
      OneMore(b, i);
      BagOfBoth(earlier, item);
      BagUnfold(bs, i, f);
      BagUnfold(bs, i + 1, f);
      RoundUnfold(bs, i, f);
      hide Min;
      Regroup(Bag(bs, i, f - 1), multiset(earlier), multiset(b[..Min(i, |b|)]), multiset(item));
    }
  }

  lemma NoFamilies<T>(bs: Buckets<T>, i: nat)
    ensures Bag(bs, i, 0) == multiset{} && Round(bs, i, 0) == []
  {
  }

  lemma BagUnfold<T>(bs: Buckets<T>, i: nat, f: nat)
    requires 0 < f <= |bs|
    ensures Bag(bs, i, f) == Bag(bs, i, f - 1) + multiset(bs[f - 1][..Min(i, |bs[f - 1]|)])
  {
  }

  lemma RoundUnfold<T>(bs: Buckets<T>, i: nat, f: nat)
    requires 0 < f <= |bs|
    ensures Round(bs, i, f) == Round(bs, i, f - 1) + if i < |bs[f - 1]| then [bs[f - 1][i]] else []
  {
  }

  lemma Regroup<T>(a: multiset<T>, b: multiset<T>, c: multiset<T>, d: multiset<T>)
    ensures (a + b) + (c + d) == (a + c) + (b + d)
  {
  }

  lemma OneMore<T>(b: seq<T>, i: nat)
    ensures var item := if i < |b| then [b[i]] else [];
            multiset(b[..Min(i + 1, |b|)]) == multiset(b[..Min(i, |b|)]) + multiset(item)
  {
    if i < |b| {
      assert b[..i + 1] == b[..i] + [b[i]];
    }
  }

  lemma {:induction false} BagZero<T>(bs: Buckets<T>, f: nat)
    requires f <= |bs|
    ensures Bag(bs, 0, f) == multiset{}
  {
    if f > 0 {
      BagZero(bs, f - 1);
    }
  }

  lemma BagOfBoth<T>(a: seq<T>, b: seq<T>)
    ensures multiset(a + b) == multiset(a) + multiset(b)
  {
  }

  lemma {:induction false} MergeBag<T>(bs: Buckets<T>, rounds: nat)
    ensures multiset(Merge(bs, rounds)) == Bag(bs, rounds, |bs|)
  {
    hide Bag, Round;
    if rounds == 0 {
      BagZero(bs, |bs|);
    } else {
      MergeBag(bs, rounds - 1);
      BagStep(bs, rounds - 1, |bs|);
      BagOfBoth(Merge(bs, rounds - 1), Round(bs, rounds - 1, |bs|));
    }
  }

  function All<T>(bs: Buckets<T>): multiset<T> {
    if bs == [] then multiset{} else All(bs[..|bs| - 1]) + multiset(bs[|bs| - 1])
  }

  lemma {:induction false} BagAll<T>(bs: Buckets<T>, i: nat, f: nat)
    requires f <= |bs| && forall g :: 0 <= g < f ==> |bs[g]| <= i
    ensures Bag(bs, i, f) == All(bs[..f])
  {
    if f > 0 {
      BagAll(bs, i, f - 1);
      assert bs[..f][..f - 1] == bs[..f - 1];
      assert bs[f - 1][..|bs[f - 1]|] == bs[f - 1];
    }
  }

  /** Nothing is lost and nothing is added. */
  lemma FairMerge<T>(bs: Buckets<T>)
    ensures multiset(Merge(bs, Longest(bs))) == All(bs)
  {
    MergeBag(bs, Longest(bs));
    BagAll(bs, Longest(bs), |bs|);
    assert bs[..|bs|] == bs;
  }
}
