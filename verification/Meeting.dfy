/** Whether the brokers that one peer publishes to and those that the other one protects are sure
    to have one in common. */
module Meeting {
  import opened Basics
  import opened Ranking
  import opened Walk

  // ---- which lists a walk can take -----------------------------------------------------------------

  /** As many as wanted of the brokers of the window that can be reached, or all of them. */
  predicate Taking(window: seq<nat>, up: set<nat>, needed: nat, t: seq<nat>) {
    && Unique(t) && |t| == Min(needed, |Up(window, up)|)
    && forall c :: c in t ==> c in window && c in up
  }

  lemma TakenOk(window: seq<nat>, up: set<nat>, needed: nat, cs: seq<Completion>)
    requires Unique(window) && FullRace(window, up, cs)
    ensures Outcome(cs, needed).Found? && Taking(window, up, needed, Outcome(cs, needed).clients)
  {
    FullRaceUp(window, up, cs);
    UpMembers(window, up);
    hide FullRace, Up;
    SameSize(Successes(cs), Up(window, up));
  }

  function Without(window: seq<nat>, t: seq<nat>): seq<nat> {
    if window == [] then []
    else Without(window[..|window| - 1], t) + if window[|window| - 1] in t then [] else [window[|window| - 1]]
  }

  lemma {:induction false} WithoutMembers(window: seq<nat>, t: seq<nat>)
    requires Unique(window)
    ensures Unique(Without(window, t)) && forall c :: c in Without(window, t) <==> c in window && c !in t
  {
    if window != [] {
      WithoutMembers(window[..|window| - 1], t);
      assert window == window[..|window| - 1] + [window[|window| - 1]];
    }
  }

  lemma {:induction false} UpSplits(s: seq<nat>, t: seq<nat>, up: set<nat>)
    ensures Up(s + t, up) == Up(s, up) + Up(t, up)
    decreases |t|
  {
    if t == [] {
      assert s + t == s;
    } else {
      UpSplits(s, t[..|t| - 1], up);
      assert (s + t)[..|s + t| - 1] == s + t[..|t| - 1];
    }
  }

  lemma Reordered(window: seq<nat>, t: seq<nat>, rest: seq<nat>)
    requires Unique(t) && Unique(rest) && forall c :: c in rest <==> c in window && c !in t
    requires forall c :: c in t ==> c in window
    ensures Unique(t + rest) && SameMembers(window, t + rest)
  {
    var all := t + rest;
    forall i, j | 0 <= i < j < |all| ensures all[i] != all[j] {
      if i < |t| <= j { assert t[i] in t && rest[j - |t|] in rest; }
    }
  }

  /** The race in which these complete first. */
  lemma TakenBy(window: seq<nat>, up: set<nat>, needed: nat, t: seq<nat>) returns (cs: seq<Completion>)
    requires Unique(window) && Taking(window, up, needed, t)
    ensures FullRace(window, up, cs) && Outcome(cs, needed) == Found(t)
  {
    var rest := Without(window, t);
    WithoutMembers(window, t);
    Reordered(window, t, rest);
    cs := InOrder(t + rest, up);
    OrderIsRace(window, t + rest, up);
    InOrderUp(t + rest, up);
    UpSplits(t, rest, up);
    AllUp(t, up);
    FullRaceUp(window, up, cs);
    UpMembers(window, up);
    hide FullRace, Up, Without;
    SameSize(Successes(cs), Up(window, up));
    assert t <= Successes(cs);
    if |t| == |Successes(cs)| { assert t == Successes(cs); }
  }

  /** The results of a walk whose connects all complete are exactly these lists. */
  lemma TakenExactly(window: seq<nat>, up: set<nat>, needed: nat, t: seq<nat>)
    requires Unique(window)
    ensures (exists cs :: FullRace(window, up, cs) && Outcome(cs, needed) == Found(t))
            <==> Taking(window, up, needed, t)
  {
    hide *;
    forall cs | FullRace(window, up, cs) && Outcome(cs, needed) == Found(t) ensures Taking(window, up, needed, t) {
      TakenOk(window, up, needed, cs);
    }
    if Taking(window, up, needed, t) {
      var cs := TakenBy(window, up, needed, t);
    }
  }

  // ---- finite sets -----------------------------------------------------------------------------------

  lemma {:induction false} AsList(s: set<nat>) returns (t: seq<nat>)
    ensures Unique(t) && |t| == |s| && forall c :: c in t <==> c in s
    decreases |s|
  {
    if s == {} {
      t := [];
    } else {
      var c :| c in s;
      t := AsList(s - {c});
      t := t + [c];
    }
  }

  lemma {:induction false} ListSize(t: seq<nat>)
    requires Unique(t)
    ensures |AsSet(t)| == |t|
  {
    if t != [] {
      ListSize(t[1..]);
      assert t[0] !in t[1..];
      assert AsSet(t) == AsSet(t[1..]) + {t[0]};
    }
  }

  lemma {:induction false} PartOf(s: set<nat>, k: nat) returns (p: set<nat>)
    requires k <= |s|
    ensures p <= s && |p| == k
    decreases k
  {
    if k == 0 {
      p := {};
    } else {
      var c :| c in s;
      p := PartOf(s - {c}, k - 1);
      p := p + {c};
    }
  }

  /** Two sets hold disjoint parts of these sizes exactly if their union is large enough. */
  lemma DisjointParts(a: set<nat>, b: set<nat>, k: nat, m: nat) returns (p: set<nat>, q: set<nat>)
    requires k <= |a| && m <= |b| && k + m <= |a + b|
    ensures p <= a && |p| == k && q <= b && |q| == m && p !! q
  {
    assert a + b == (a - b) + b && a == (a - b) + a * b;
    if k <= |a - b| {
      p := PartOf(a - b, k);
      q := PartOf(b, m);
    } else {
      var shared := PartOf(a * b, k - |a - b|);
      p := (a - b) + shared;
      assert b - p == b - shared && |b - shared| == |b| - |shared|;
      q := PartOf(b - p, m);
    }
  }

  // ---- the guarantee -----------------------------------------------------------------------------------

  /** However the connects of the two walks race, both take some broker in common. */
  ghost predicate Meet(mine: seq<nat>, up: set<nat>, needed: nat, yours: seq<nat>, reach: set<nat>, wanted: nat) {
    forall x, y :: FullRace(mine, up, x) && FullRace(yours, reach, y) ==>
                     && Outcome(x, needed).Found? && Outcome(y, wanted).Found?
                     && exists c :: c in Outcome(x, needed).clients && c in Outcome(y, wanted).clients
  }

  /** They do exactly if together they take more than the brokers that either of them reaches. */
  lemma MeetExactly(mine: seq<nat>, up: set<nat>, needed: nat, yours: seq<nat>, reach: set<nat>, wanted: nat)
    requires Unique(mine) && Unique(yours)
    ensures Meet(mine, up, needed, yours, reach, wanted)
            <==> Min(needed, |Up(mine, up)|) + Min(wanted, |Up(yours, reach)|)
                 > |AsSet(Up(mine, up)) + AsSet(Up(yours, reach))|
  {
    hide Meet, FullRace, Up, Outcome;
    if Min(needed, |Up(mine, up)|) + Min(wanted, |Up(yours, reach)|) > |AsSet(Up(mine, up)) + AsSet(Up(yours, reach))| {
      SureToMeet(mine, up, needed, yours, reach, wanted);
    } else {
      MayMiss(mine, up, needed, yours, reach, wanted);
    }
  }

  lemma SureToMeet(mine: seq<nat>, up: set<nat>, needed: nat, yours: seq<nat>, reach: set<nat>, wanted: nat)
    requires Unique(mine) && Unique(yours)
    requires Min(needed, |Up(mine, up)|) + Min(wanted, |Up(yours, reach)|)
             > |AsSet(Up(mine, up)) + AsSet(Up(yours, reach))|
    ensures Meet(mine, up, needed, yours, reach, wanted)
  {
    hide FullRace, Up, Outcome, Unique, AsSet, Min;
    forall x, y | FullRace(mine, up, x) && FullRace(yours, reach, y)
      ensures Outcome(x, needed).Found? && Outcome(y, wanted).Found?
              && exists c :: c in Outcome(x, needed).clients && c in Outcome(y, wanted).clients
    {
      FromUp(mine, up, needed, x);
      FromUp(yours, reach, wanted, y);
      var c := Overlap(Outcome(x, needed).clients, Outcome(y, wanted).clients, Up(mine, up), Up(yours, reach));
    }
  }

  lemma FromUp(window: seq<nat>, up: set<nat>, needed: nat, cs: seq<Completion>)
    requires Unique(window) && FullRace(window, up, cs)
    ensures Outcome(cs, needed).Found?
    ensures var t := Outcome(cs, needed).clients;
            Unique(t) && |t| == Min(needed, |Up(window, up)|) && forall c :: c in t ==> c in Up(window, up)
  {
    hide FullRace, Up, Outcome;
    TakenOk(window, up, needed, cs);
    UpMembers(window, up);
  }

  lemma Overlap(s: seq<nat>, t: seq<nat>, a: seq<nat>, b: seq<nat>) returns (c: nat)
    requires Unique(s) && Unique(t) && |s| + |t| > |AsSet(a) + AsSet(b)|
    requires (forall x :: x in s ==> x in a) && (forall x :: x in t ==> x in b)
    ensures c in s && c in t
  {
    ListSize(s);
    ListSize(t);
    if AsSet(s) * AsSet(t) == {} {
      SubsetSize(AsSet(s) + AsSet(t), AsSet(a) + AsSet(b));
      assert false;
    } else {
      c :| c in AsSet(s) * AsSet(t);
    }
  }

  lemma MayMiss(mine: seq<nat>, up: set<nat>, needed: nat, yours: seq<nat>, reach: set<nat>, wanted: nat)
    requires Unique(mine) && Unique(yours)
    requires Min(needed, |Up(mine, up)|) + Min(wanted, |Up(yours, reach)|)
             <= |AsSet(Up(mine, up)) + AsSet(Up(yours, reach))|
    ensures !Meet(mine, up, needed, yours, reach, wanted)
  {
    hide FullRace, Up, Outcome;
    UpMembers(mine, up);
    UpMembers(yours, reach);
    ListSize(Up(mine, up));
    ListSize(Up(yours, reach));
    var p, q := DisjointParts(AsSet(Up(mine, up)), AsSet(Up(yours, reach)),
                              Min(needed, |Up(mine, up)|), Min(wanted, |Up(yours, reach)|));
    var s := AsList(p);
    var t := AsList(q);
    var x := TakenBy(mine, up, needed, s);
    var y := TakenBy(yours, reach, wanted, t);
    assert forall c :: c in s && c in t ==> c in p && c in q;
  }

  /** Two peers with the same window who reach the same `u` brokers of it are sure to meet exactly
      if 0 < u < 2 * needed. */
  lemma SameWindowMeets(window: seq<nat>, up: set<nat>, needed: nat)
    requires Unique(window)
    ensures Meet(window, up, needed, window, up, needed) <==> 0 < |Up(window, up)| < 2 * needed
  {
    MeetExactly(window, up, needed, window, up, needed);
    UpMembers(window, up);
    ListSize(Up(window, up));
    assert AsSet(Up(window, up)) + AsSet(Up(window, up)) == AsSet(Up(window, up));
  }

  /** So never, for a walk, when every candidate can be reached: at least twice as many are tried
      as are taken. */
  lemma NeverSureWhenAllReached(cached: seq<Host>, ranked: seq<Host>, clients: map<Host, nat>, up: set<nat>)
    requires forall c :: c in Candidates(cached, ranked, clients) ==> c in up
    ensures var candidates := Candidates(cached, ranked, clients);
            var window, needed := FirstOf(candidates, WINDOW), Needed(|candidates|);
            !Meet(window, up, needed, window, up, needed)
  {
    var candidates := Candidates(cached, ranked, clients);
    var window := FirstOf(candidates, WINDOW);
    CandidatesExactly(cached, ranked, clients);
    SameWindowMeets(window, up, Needed(|candidates|));
    AllUp(window, up);
    NeededExactly(|candidates|);
    hide Meet, Candidates, Up, Needed;
    assert Pow2(0) == 1 && Pow2(1) == 2 && Pow2(2) == 4 && Pow2(3) == 8;
  }
}
