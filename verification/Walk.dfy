/** The per-family broker walk: which clients are tried, how many are wanted, and which are
    taken, for every order in which the connects complete and every moment the cap strikes.
    Clients are identified by number; completions are a prefix of what the race produces. */
module Walk {
  import opened Basics
  import opened Ranking

  const WINDOW: nat := 10

  /** Append the clients of `hosts`, skipping unknown hosts and clients already listed. */
  function Collect(hosts: seq<Host>, clients: map<Host, nat>, listed: seq<nat>): seq<nat> {
    if hosts == [] then listed
    else
      var h := hosts[0];
      Collect(hosts[1..], clients, if h in clients && clients[h] !in listed then listed + [clients[h]] else listed)
  }

  /** Cached brokers first, in their order, then the ranked ones. */
  function Candidates(cached: seq<Host>, ranked: seq<Host>, clients: map<Host, nat>): seq<nat> {
    Collect(ranked, clients, Collect(cached, clients, []))
  }

  lemma {:induction false} CollectOk(hosts: seq<Host>, clients: map<Host, nat>, listed: seq<nat>)
    requires Unique(listed)
    ensures var r := Collect(hosts, clients, listed);
            && listed <= r && Unique(r)
            && (forall c :: c in r <==> c in listed || exists h :: h in hosts && h in clients && clients[h] == c)
  {
    if hosts != [] {
      var h := hosts[0];
      var next := if h in clients && clients[h] !in listed then listed + [clients[h]] else listed;
      CollectOk(hosts[1..], clients, next);
      assert hosts == [h] + hosts[1..];
      forall c ensures c in Collect(hosts, clients, listed) <==>
        c in listed || exists k :: k in hosts && k in clients && clients[k] == c {
        if k :| k in hosts && k in clients && clients[k] == c {
          assert k == h || k in hosts[1..];
        }
        if c in next && c !in listed {
          assert h in hosts && h in clients && clients[h] == c;
        }
        if k :| k in hosts[1..] && k in clients && clients[k] == c {
          assert k in hosts;
        }
      }
    }
  }

  /** The candidates are exactly the known clients of both lists, each once, with the cached
      ones, in the order of the cache, in front. */
  lemma CandidatesExactly(cached: seq<Host>, ranked: seq<Host>, clients: map<Host, nat>)
    ensures var r := Candidates(cached, ranked, clients);
            && Unique(r) && Collect(cached, clients, []) <= r
            && (forall c :: c in r <==> exists h :: h in cached + ranked && h in clients && clients[h] == c)
  {
    CollectOk(cached, clients, []);
    var first := Collect(cached, clients, []);
    CollectOk(ranked, clients, first);
    forall c ensures c in Candidates(cached, ranked, clients) <==>
      exists h :: h in cached + ranked && h in clients && clients[h] == c {
      if h :| h in cached && h in clients && clients[h] == c { assert h in cached + ranked; }
      if h :| h in ranked && h in clients && clients[h] == c { assert h in cached + ranked; }
    }
  }

  predicate OwnClients(hosts: seq<Host>, clients: map<Host, nat>) {
    && (forall h :: h in hosts ==> h in clients)
    && (forall h, k :: h in hosts && k in hosts && h != k ==> clients[h] != clients[k])
  }

  /** Without hints, and with a client of its own for every broker, the candidates are the
      ranking itself. */
  lemma {:induction false} CollectRanking(hosts: seq<Host>, clients: map<Host, nat>, listed: seq<nat>)
    requires Unique(hosts) && OwnClients(hosts, clients) && forall h :: h in hosts ==> clients[h] !in listed
    ensures var r := Collect(hosts, clients, listed);
            |r| == |listed| + |hosts| && listed <= r && forall i :: 0 <= i < |hosts| ==>
              hosts[i] in clients && r[|listed| + i] == clients[hosts[i]]
  {
    if hosts != [] {
      var h, rest := hosts[0], hosts[1..];
      assert h in hosts && forall k :: k in rest ==> k in hosts && k != h;
      CollectRanking(rest, clients, listed + [clients[h]]);
      assert forall i :: 1 <= i < |hosts| ==> hosts[i] == rest[i - 1];
      assert forall i :: 0 <= i < |hosts| ==> hosts[i] in hosts;
    }
  }

  /** Convergence: two routers with different pools, no hints and a client per broker have at
      least 10 - max(|a \ b|, |b \ a|) brokers in common among the ten they try. */
  lemma {:induction false} WindowsOverlap(a: seq<Host>, b: seq<Host>, score: Score, mine: map<Host, nat>,
                                          yours: map<Host, nat>)
    requires Strict(a, score) && Strict(b, score) && |a| >= 10 && |b| >= 10
    requires OwnClients(a, mine) && OwnClients(b, yours)
    ensures var shared := set h | h in a && h in b && h in mine && h in yours
                            && mine[h] in FirstOf(Candidates([], Rank(a, score), mine), 10)
                            && yours[h] in FirstOf(Candidates([], Rank(b, score), yours), 10);
            |shared| >= 10 - Max(|Members(a) - Members(b)|, |Members(b) - Members(a)|)
  {
    var ra, rb := Rank(a, score), Rank(b, score);
    WindowOverlap(a, b, score, WINDOW);
    WindowClients(a, score, mine);
    WindowClients(b, score, yours);
    var shared := set h | h in a && h in b && h in mine && h in yours
                    && mine[h] in FirstOf(Candidates([], ra, mine), WINDOW) &&
                         yours[h] in FirstOf(Candidates([], rb, yours), WINDOW);
    var both := Members(ra[..WINDOW]) * Members(rb[..WINDOW]);
    forall h | h in both ensures h in shared {
    }
    SubsetSize(both, shared);
  }

  lemma WindowClients(pool: seq<Host>, score: Score, clients: map<Host, nat>)
    requires Strict(pool, score) && |pool| >= WINDOW && OwnClients(pool, clients)
    ensures |Candidates([], Rank(pool, score), clients)| == |pool|
    ensures forall h :: h in Rank(pool, score)[..WINDOW] ==>
              h in pool && h in clients && clients[h] in FirstOf(Candidates([], Rank(pool, score), clients), WINDOW)
  {
    var r := Rank(pool, score);
    RankStrict(pool, score);
    StrictUnique(r, score);
    RankMembers(pool, score);
    CollectRanking(r, clients, []);
    forall h | h in r[..WINDOW]
      ensures h in pool && h in clients && clients[h] in FirstOf(Candidates([], r, clients), WINDOW) {
      var i :| 0 <= i < WINDOW && r[i] == h;
      assert h in r;
      assert FirstOf(Candidates([], r, clients), WINDOW)[i] == clients[h];
    }
  }

  lemma {:induction false} SubsetSize<T>(a: set<T>, b: set<T>)
    requires a <= b
    ensures |a| <= |b|
  {
    if a != {} {
      var x :| x in a;
      SubsetSize(a - {x}, b - {x});
    }
  }

  // ---- how many are wanted ------------------------------------------------------------------------

  function BitLength(n: nat): nat { if n == 0 then 0 else 1 + BitLength(n / 2) }

  function Needed(count: nat): nat { Min(3, Max(0, BitLength(count) - 1)) }

  function Pow2(n: nat): nat { if n == 0 then 1 else 2 * Pow2(n - 1) }

  lemma {:induction false} BitLengthBounds(n: nat)
    requires n > 0
    ensures BitLength(n) >= 1 && Pow2(BitLength(n) - 1) <= n < Pow2(BitLength(n))
  {
    if n > 1 {
      BitLengthBounds(n / 2);
    }
  }

  /** floor(log2(count)), clamped to 0..3. */
  lemma NeededExactly(count: nat)
    ensures var k := Needed(count);
            && k <= 3 && k <= count
            && (k > 0 ==> Pow2(k) <= count)
            && (k < 3 ==> count < Pow2(k + 1))
  {
    if count > 0 {
      BitLengthBounds(count);
      var b := BitLength(count);
      if b > 4 {
        Pow2Monotone(3, b - 1);
      }
      assert Pow2(1) == 2 && Pow2(2) == 4 && Pow2(3) == 8;
    }
  }

  lemma {:induction false} Pow2Monotone(m: nat, n: nat)
    requires m <= n
    ensures Pow2(m) <= Pow2(n)
  {
    if m < n {
      Pow2Monotone(m, n - 1);
    }
  }

  // ---- the walk ------------------------------------------------------------------------------------

  /** How a connect ends: usable, refused or failed in a way try_client expects, or with an
      exception it does not catch. */
  datatype Result = Usable | Refused | Raised

  datatype Completion = Completion(client: nat, result: Result)

  function Successes(cs: seq<Completion>): seq<nat> {
    if cs == [] then []
    else Successes(cs[..|cs| - 1]) + if cs[|cs| - 1].result.Usable? then [cs[|cs| - 1].client] else []
  }

  function FirstOf(s: seq<nat>, n: nat): seq<nat> { if |s| <= n then s else s[..n] }

  /** The completions before the first that raises. */
  function Calm(cs: seq<Completion>): (r: seq<Completion>)
    ensures r <= cs && forall i :: 0 <= i < |r| ==> !r[i].result.Raised?
    ensures |r| < |cs| ==> cs[|r|].result.Raised?
  {
    if cs == [] then []
    else
      var r := Calm(cs[..|cs| - 1]);
      if |r| == |cs| - 1 && !cs[|cs| - 1].result.Raised? then cs else r
  }

  /** `Escaped`: an exception ends the walk, and with it the whole discovery. */
  datatype Walked = Found(clients: seq<nat>) | Escaped

  /** The first `needed` successes, if they come before anything raises. */
  function Outcome(cs: seq<Completion>, needed: nat): Walked {
    var found := Successes(Calm(cs));
    if |found| >= needed then Found(found[..needed])
    else if |Calm(cs)| < |cs| then Escaped
    else Found(found)
  }

  /** Completions the race over the window can produce before the cap: each task at most once. */
  ghost predicate RaceOf(window: seq<nat>, cs: seq<Completion>) {
    && (forall i :: 0 <= i < |cs| ==> cs[i].client in window)
    && (forall i, j :: 0 <= i < j < |cs| ==> cs[i].client != cs[j].client)
  }

  lemma {:induction false} SuccessesOk(cs: seq<Completion>)
    requires forall i, j :: 0 <= i < j < |cs| ==> cs[i].client != cs[j].client
    ensures Unique(Successes(cs))
    ensures forall c :: c in Successes(cs) <==> Completion(c, Usable) in cs
  {
    if cs != [] {
      var init, last := cs[..|cs| - 1], cs[|cs| - 1];
      SuccessesOk(init);
      assert cs == init + [last];
      forall c | c in Successes(init) ensures c != last.client {
        var i :| 0 <= i < |init| && init[i] == Completion(c, Usable);
        assert cs[i] == init[i];
      }
    }
  }

  /** The inner collect(): take successes as they complete, until enough are in. */
  method CollectCompleted(cs: seq<Completion>, needed: nat) returns (w: Walked)
    requires needed > 0
    ensures w == Outcome(cs, needed)
  {
    var found: seq<nat> := [];
    for i := 0 to |cs|
      invariant Calm(cs[..i]) == cs[..i] && found == Successes(cs[..i]) && |found| < needed
    {
      assert cs[..i + 1][..i] == cs[..i];
      CalmPrefix(cs, i + 1);
      if cs[i].result.Raised? {
        return Escaped;
      }
      if cs[i].result.Usable? {
        found := found + [cs[i].client];
        if |found| >= needed {
          EnoughFound(cs, i + 1, needed);
          return Found(found);
        }
      }
    }
    assert cs[..|cs|] == cs;
    w := Found(found);
  }

  /** Once enough have succeeded before anything raises, the outcome is settled. */
  lemma EnoughFound(cs: seq<Completion>, n: nat, needed: nat)
    requires n <= |cs| && Calm(cs[..n]) == cs[..n] && |Successes(cs[..n])| == needed
    ensures Outcome(cs, needed) == Found(Successes(cs[..n]))
  {
    CalmPrefix(cs, n);
    assert n <= |Calm(cs)| && Calm(cs)[..n] == cs[..n];
    SuccessesPrefix(Calm(cs), n);
    hide Calm, Successes;
  }

  lemma {:induction false} CalmPrefix(cs: seq<Completion>, n: nat)
    requires n <= |cs|
    ensures Calm(cs[..n]) == if |Calm(cs)| <= n then Calm(cs) else cs[..n]
    decreases |cs|
  {
    if n < |cs| {
      CalmPrefix(cs[..|cs| - 1], n);
      assert cs[..|cs| - 1][..n] == cs[..n];
    } else {
      assert cs[..n] == cs;
    }
  }

  lemma {:induction false} SuccessesPrefix(cs: seq<Completion>, n: nat)
    requires n <= |cs|
    ensures Successes(cs[..n]) <= Successes(cs)
    decreases |cs|
  {
    if n < |cs| {
      SuccessesPrefix(cs[..|cs| - 1], n);
      assert cs[..|cs| - 1][..n] == cs[..n];
    } else {
      assert cs[..n] == cs;
    }
  }

  /** walk_af. `race` is what the connects started together produce before the cap, in the
      order in which they complete. */
  method WalkAf(cached: seq<Host>, ranked: seq<Host>, clients: map<Host, nat>, race: seq<nat> -> seq<Completion>)
    returns (w: Walked)
    ensures var candidates := Candidates(cached, ranked, clients);
            w == Outcome(race(FirstOf(candidates, WINDOW)), Needed(|candidates|))
  {
    var candidates: seq<nat>, seen: set<nat> := [], {};
    for i := 0 to |cached|
      invariant seen == set c | c in candidates
      invariant Collect(cached[i..], clients, candidates) == Collect(cached, clients, [])
    {
      assert cached[i..][1..] == cached[i + 1..];
      if cached[i] in clients && clients[cached[i]] !in seen {
        seen := seen + {clients[cached[i]]};
        candidates := candidates + [clients[cached[i]]];
      }
    }
    for i := 0 to |ranked|
      invariant seen == set c | c in candidates
      invariant Collect(ranked[i..], clients, candidates) == Candidates(cached, ranked, clients)
    {
      assert ranked[i..][1..] == ranked[i + 1..];
      if ranked[i] in clients && clients[ranked[i]] !in seen {
        seen := seen + {clients[ranked[i]]};
        candidates := candidates + [clients[ranked[i]]];
      }
    }
    var needed := Needed(|candidates|);
    if needed == 0 {
      return Found([]);
    }
    w := CollectCompleted(race(FirstOf(candidates, WINDOW)), needed);
  }

  /** Under any completion order and any cap: distinct clients, all among the first ten
      candidates, never more than wanted, and as many as wanted if that many succeeded. It
      escapes exactly if something raises before enough have succeeded. */
  lemma WalkResult(cached: seq<Host>, ranked: seq<Host>, clients: map<Host, nat>, race: seq<nat> -> seq<Completion>)
    requires var window := FirstOf(Candidates(cached, ranked, clients), 10); RaceOf(window, race(window))
    ensures var candidates := Candidates(cached, ranked, clients);
            var cs, needed := race(FirstOf(candidates, 10)), Needed(|candidates|);
            match Outcome(cs, needed)
            case Found(found) =>
              && Unique(found)
              && (forall c :: c in found ==>
                    c in FirstOf(candidates, 10) && c in candidates && Completion(c, Usable) in cs)
              && |found| == Min(needed, |Successes(Calm(cs))|)
            case Escaped => exists i :: 0 <= i < |cs| && cs[i].result.Raised? && |Successes(cs[..i])| < needed
  {
    var candidates := Candidates(cached, ranked, clients);
    var cs := race(FirstOf(candidates, WINDOW));
    SuccessesOk(Calm(cs));
    match Outcome(cs, Needed(|candidates|))
    case Found(found) =>
      forall c | c in found ensures c in FirstOf(candidates, WINDOW) && c in candidates && Completion(c, Usable) in cs {
        assert c in Successes(Calm(cs));
        var i :| 0 <= i < |Calm(cs)| && Calm(cs)[i] == Completion(c, Usable);
        assert cs[i].client in FirstOf(candidates, WINDOW);
      }
    case Escaped => assert cs[..|Calm(cs)|] == Calm(cs);
  }

  /** Where a success stands among the successes. */
  lemma SuccessAt(cs: seq<Completion>, i: nat)
    requires i < |cs| && cs[i].result.Usable?
    ensures var k := |Successes(cs[..i])|; k < |Successes(cs)| && Successes(cs)[k] == cs[i].client
  {
    assert cs[..i + 1][..i] == cs[..i];
    SuccessesPrefix(cs, i + 1);
  }

  lemma {:induction false} SuccessesGrow(cs: seq<Completion>, i: nat, j: nat)
    requires i < j <= |cs| && cs[i].result.Usable?
    ensures |Successes(cs[..i])| < |Successes(cs[..j])|
  {
    SuccessAt(cs[..j], i);
    assert cs[..j][..i] == cs[..i];
  }

  /** First come, first taken: with a success that is taken, every one that completed earlier is. */
  lemma FirstOnesTaken(window: seq<nat>, cs: seq<Completion>, needed: nat, i: nat, j: nat)
    requires RaceOf(window, cs) && Outcome(cs, needed).Found?
    requires i < j < |cs| && cs[i].result.Usable? && cs[j].result.Usable?
    requires cs[j].client in Outcome(cs, needed).clients
    ensures cs[i].client in Outcome(cs, needed).clients
  {
    var found, all := Outcome(cs, needed).clients, Successes(cs);
    assert cs[..|Calm(cs)|] == Calm(cs);
    SuccessesPrefix(cs, |Calm(cs)|);
    assert found <= all;
    SuccessesOk(cs);
    SuccessAt(cs, i);
    SuccessAt(cs, j);
    SuccessesGrow(cs, i, j);
    var k :| 0 <= k < |found| && found[k] == cs[j].client;
    assert all[k] == all[|Successes(cs[..j])|];
    assert found[|Successes(cs[..i])|] == cs[i].client;
  }

  /** An exception escapes exactly if it comes before enough connects have succeeded. */
  lemma EscapesExactly(cs: seq<Completion>, needed: nat)
    ensures Outcome(cs, needed).Escaped?
            <==> exists i :: 0 <= i < |cs| && cs[i].result.Raised? && |Successes(cs[..i])| < needed
  {
    var n := |Calm(cs)|;
    assert cs[..n] == Calm(cs) && forall k :: 0 <= k < n ==> cs[k] == Calm(cs)[k];
    forall i | 0 <= i < |cs| && cs[i].result.Raised? ensures n <= i && |Successes(cs[..n])| <= |Successes(cs[..i])| {
      SuccessesPrefix(cs[..i], n);
      assert cs[..i][..n] == cs[..n];
    }
  }

  // ---- which set is taken ----------------------------------------------------------------------------

  function ResultOf(up: set<nat>, c: nat): Result { if c in up then Usable else Refused }

  /** All connects of the window complete, in some order; exactly those to `up` succeed. */
  ghost predicate FullRace(window: seq<nat>, up: set<nat>, cs: seq<Completion>) {
    && RaceOf(window, cs)
    && (forall i :: 0 <= i < |cs| ==> cs[i].result == ResultOf(up, cs[i].client))
    && (forall c :: c in window ==> Completion(c, ResultOf(up, c)) in cs)
  }

  /** Two peers that reach the same brokers take the same ones, whatever the order. */
  ghost predicate SameSet(window: seq<nat>, up: set<nat>, needed: nat) {
    forall x, y :: FullRace(window, up, x) && FullRace(window, up, y) ==>
                     Outcome(x, needed).Found? && Outcome(y, needed).Found?
                     && SameMembers(Outcome(x, needed).clients, Outcome(y, needed).clients)
  }

  function Up(window: seq<nat>, up: set<nat>): seq<nat> {
    if window == [] then []
    else Up(window[..|window| - 1], up) + if window[|window| - 1] in up then [window[|window| - 1]] else []
  }

  /** The race that completes in the order of the list. */
  function InOrder(order: seq<nat>, up: set<nat>): (cs: seq<Completion>)
    ensures |cs| == |order|
  {
    seq(|order|, i requires 0 <= i < |order| => Completion(order[i], ResultOf(up, order[i])))
  }

  lemma {:induction false} InOrderUp(order: seq<nat>, up: set<nat>)
    ensures Successes(InOrder(order, up)) == Up(order, up) && Calm(InOrder(order, up)) == InOrder(order, up)
  {
    if order != [] {
      InOrderUp(order[..|order| - 1], up);
      assert InOrder(order, up)[..|order| - 1] == InOrder(order[..|order| - 1], up);
    }
  }

  lemma {:induction false} UpMembers(window: seq<nat>, up: set<nat>)
    requires Unique(window)
    ensures Unique(Up(window, up)) && forall c :: c in Up(window, up) <==> c in window && c in up
  {
    if window != [] {
      UpMembers(window[..|window| - 1], up);
      assert window == window[..|window| - 1] + [window[|window| - 1]];
    }
  }

  lemma {:induction false} FirstUp(order: seq<nat>, up: set<nat>)
    requires order != [] && order[0] in up
    ensures Up(order, up) != [] && Up(order, up)[0] == order[0]
  {
    if |order| > 1 { FirstUp(order[..|order| - 1], up); }
  }

  lemma FullRaceUp(window: seq<nat>, up: set<nat>, cs: seq<Completion>)
    requires Unique(window) && FullRace(window, up, cs)
    ensures Calm(cs) == cs && Unique(Successes(cs)) && SameMembers(Successes(cs), Up(window, up))
  {
    SuccessesOk(cs);
    UpMembers(window, up);
  }

  /** A reordering of the window is a full race. */
  lemma OrderIsRace(window: seq<nat>, order: seq<nat>, up: set<nat>)
    requires Unique(order) && SameMembers(window, order)
    ensures FullRace(window, up, InOrder(order, up))
  {
    var cs := InOrder(order, up);
    forall c | c in window ensures Completion(c, ResultOf(up, c)) in cs {
      var i :| 0 <= i < |order| && order[i] == c;
      assert cs[i] == Completion(c, ResultOf(up, c));
    }
  }

  /** The same list with its i-th element in front. */
  lemma ToFront(window: seq<nat>, i: nat) returns (order: seq<nat>)
    requires Unique(window) && i < |window|
    ensures Unique(order) && SameMembers(window, order) && order != [] && order[0] == window[i]
  {
    order := [window[i]] + window[..i] + window[i + 1..];
    forall x | x in window ensures x in order {
      var k :| 0 <= k < |window| && window[k] == x;
      assert order[if k < i then k + 1 else if k == i then 0 else k] == x;
    }
  }

  /** The set taken is the same for every completion order exactly if no more brokers of the
      window can be reached than are wanted. */
  lemma SameSetExactly(window: seq<nat>, up: set<nat>, needed: nat)
    requires Unique(window)
    ensures SameSet(window, up, needed) <==> needed == 0 || |Up(window, up)| <= needed
  {
    hide SameSet, FullRace, Calm, Up;
    if needed == 0 || |Up(window, up)| <= needed {
      FewReached(window, up, needed);
    } else {
      ManyReached(window, up, needed);
    }
  }

  /** With few enough to reach, every race ends with all of them. */
  lemma TakesAll(window: seq<nat>, up: set<nat>, needed: nat, cs: seq<Completion>)
    requires Unique(window) && FullRace(window, up, cs) && (needed == 0 || |Up(window, up)| <= needed)
    ensures Outcome(cs, needed).Found?
    ensures Outcome(cs, needed).clients == if needed == 0 then [] else Successes(cs)
  {
    FullRaceUp(window, up, cs);
    UpMembers(window, up);
    hide FullRace, Up, Unique, SameMembers;
    SameSize(Successes(cs), Up(window, up));
  }

  lemma SameAsBoth(s: seq<nat>, t: seq<nat>, u: seq<nat>)
    requires SameMembers(s, u) && SameMembers(t, u)
    ensures SameMembers(s, t)
  {
  }

  lemma FewReached(window: seq<nat>, up: set<nat>, needed: nat)
    requires Unique(window) && (needed == 0 || |Up(window, up)| <= needed)
    ensures SameSet(window, up, needed)
  {
    hide FullRace, Up, Outcome, Unique, Successes, SameMembers;
    forall x, y | FullRace(window, up, x) && FullRace(window, up, y)
      ensures Outcome(x, needed).Found? && Outcome(y, needed).Found?
              && SameMembers(Outcome(x, needed).clients, Outcome(y, needed).clients)
    {
      TakesAll(window, up, needed, x);
      TakesAll(window, up, needed, y);
      FullRaceUp(window, up, x);
      FullRaceUp(window, up, y);
      SameAsBoth(Successes(x), Successes(y), Up(window, up));
      SameAsBoth([], [], []);
    }
  }

  /** Where the last reachable broker of the window stands. */
  lemma LastUp(window: seq<nat>, up: set<nat>) returns (i: nat)
    requires Unique(window) && Up(window, up) != []
    ensures i < |window| && window[i] in up && window[i] == Up(window, up)[|Up(window, up)| - 1]
  {
    UpMembers(window, up);
    var last := Up(window, up)[|Up(window, up)| - 1];
    assert last in Up(window, up);
    i :| 0 <= i < |window| && window[i] == last;
  }

  lemma ManyReached(window: seq<nat>, up: set<nat>, needed: nat)
    requires Unique(window) && 0 < needed < |Up(window, up)|
    ensures !SameSet(window, up, needed)
  {
    hide *;
    var i := LastUp(window, up);
    var order := ToFront(window, i);
    SelfMembers(window);
    OrderIsRace(window, window, up);
    OrderIsRace(window, order, up);
    InOrderUp(window, up);
    InOrderUp(order, up);
    FirstUp(order, up);
    UpMembers(window, up);
    TakenDiffer(window, order, up, needed, window[i]);
  }

  lemma SelfMembers(s: seq<nat>)
    ensures SameMembers(s, s)
  {
  }

  lemma TakenDiffer(window: seq<nat>, order: seq<nat>, up: set<nat>, needed: nat, last: nat)
    requires FullRace(window, up, InOrder(window, up)) && FullRace(window, up, InOrder(order, up))
    requires var reach := Successes(Calm(InOrder(window, up)));
             Unique(reach) && 0 < needed < |reach| && last == reach[|reach| - 1]
    requires var other := Successes(Calm(InOrder(order, up))); other != [] && other[0] == last
    ensures !SameSet(window, up, needed)
  {
    var x, y := Outcome(InOrder(window, up), needed), Outcome(InOrder(order, up), needed);
    assert x.Found? && last !in x.clients;
    if y.Found? { assert y.clients[0] == last && last in y.clients; }
  }

  /** The promise "two peers pick the same top N", for a walk: if every broker can be reached,
      it holds exactly with fewer than two candidates. */
  lemma SameTopNExactly(cached: seq<Host>, ranked: seq<Host>, clients: map<Host, nat>, up: set<nat>)
    requires forall c :: c in Candidates(cached, ranked, clients) ==> c in up
    ensures var candidates := Candidates(cached, ranked, clients);
            SameSet(FirstOf(candidates, WINDOW), up, Needed(|candidates|)) <==> |candidates| < 2
  {
    var candidates := Candidates(cached, ranked, clients);
    var window := FirstOf(candidates, WINDOW);
    CandidatesExactly(cached, ranked, clients);
    SameSetExactly(window, up, Needed(|candidates|));
    AllUp(window, up);
    NeededExactly(|candidates|);
    assert Pow2(0) == 1 && Pow2(1) == 2 && Pow2(2) == 4;
  }

  lemma {:induction false} AllUp(window: seq<nat>, up: set<nat>)
    requires forall c :: c in window ==> c in up
    ensures Up(window, up) == window
  {
    if window != [] { AllUp(window[..|window| - 1], up); }
  }

  lemma SameSize(s: seq<nat>, t: seq<nat>)
    requires Unique(s) && Unique(t) && SameMembers(s, t)
    ensures |s| == |t|
  {
    UniqueCount(s, AsSet(t));
    UniqueCount(t, AsSet(s));
    SetSize(s);
    SetSize(t);
  }

  ghost function AsSet(s: seq<nat>): (r: set<nat>)
    ensures forall x :: x in r <==> x in s
  {
    if s == [] then {} else AsSet(s[1..]) + {s[0]}
  }

  lemma {:induction false} SetSize(s: seq<nat>)
    ensures |AsSet(s)| <= |s|
  {
    if s != [] {
      SetSize(s[1..]);
    }
  }
}
