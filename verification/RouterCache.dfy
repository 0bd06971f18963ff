/** The router's discovery cache, its protected clients and the idle closer. The clients are those
    of one address family, numbered in the order of its table. The closer is cut at its awaits,
    which are all in the closing of a client: other steps may come between the decision to close
    it, the end of its dispatcher, and the rest. */
module RouterCache {
  import opened Basics

  const IDLE_TIMEOUT: real := 600.0
  const RETRY_AFTER: real := 1200.0

  /** dispatcher_task: none; created, but its first step is still to come; running; or over. */
  datatype Task = NoTask | Fresh | Running | Ended

  /** `lastConnect` is set by failed connects only. */
  datatype Client = Client(task: Task, lastSend: Option<real>, lastConnect: Option<real>) {
    /** What the router's code asks about a client: is there a dispatcher_task? */
    predicate Open() { !task.NoTask? }
  }

  const NEW := Client(NoTask, None, None)

  /** History in an entry: how many idle closes had happened when it was made, and which of
      its clients were open then. */
  datatype Entry = Entry(updated: real, clients: seq<nat>, stored: nat, live: set<nat>)

  /** History of one idle close: when, and the last send over the client before it was decided. */
  datatype Closed = Closed(client: nat, at: real, sent: Option<real>)

  /** What a pass waits for: the doomed client's dispatcher to end, or the rest of its close. */
  datatype Phase = Doomed(client: nat, sent: Option<real>) | Down(client: nat)

  /** `size`: the table's size when the pass began to iterate over it. */
  datatype Closer = Off | Resting | Working(start: real, size: nat, phase: Phase) | Dead

  datatype Router = Router(
    now: real,
    clients: seq<Client>,
    kept: set<nat>,                 // protected_clients
    cache: map<string, Entry>,
    closer: Closer,
    closes: seq<Closed>,            // history, oldest first
    sends: map<nat, real>)          // history: last send over each client, not counting those
                                    // made while the closer was closing it

  const FRESH := Router(0.0, [], {}, map[], Off, [], map[])

  datatype Event =
    | Tick(to: real)
    | EnsureClient
    | TryClient(client: nat, ok: bool)
    | FirstStep(client: nat)  // of a new dispatcher; it ends at once if the client is being closed
    | Fails(client: nat)      // a running dispatcher ends with an exception
    | SendVia(client: nat)
    | Start(own: set<nat>)
    | Store(key: string, clients: seq<nat>)
    | ClosePipe(clients: seq<nat>)
    | PassBegin     // up to the first client to close
    | PassDown      // the doomed client's dispatcher has ended
    | PassClosed    // its close is complete; on to the next client to close

  /** try_client on a client without dispatcher: refused for 1200 s after a failure. */
  function Try(c: Client, now: real, ok: bool): Client {
    if c.Open() then c
    else if c.lastConnect.Some? && now - c.lastConnect.value < RETRY_AFTER then c
    else if ok then c.(task := Fresh)
    else c.(lastConnect := Some(now))
  }

  function Evict(cache: map<string, Entry>, client: nat): map<string, Entry> {
    map k | k in cache && client !in cache[k].clients :: cache[k]
  }

  function EvictAll(cache: map<string, Entry>, clients: seq<nat>): map<string, Entry> {
    if clients == [] then cache else Evict(EvictAll(cache, clients[..|clients| - 1]), clients[|clients| - 1])
  }

  /** The activity the closer measures from: the last send, else the last failed connect (a
      zero counts as none), else now. */
  function LastActive(c: Client, now: real): real {
    match c.lastSend
    case Some(t) => t
    case None => if c.lastConnect.Some? && c.lastConnect.value != 0.0 then c.lastConnect.value else now
  }

  predicate Closes(r: Router, i: nat)
    requires i < |r.clients|
  {
    i !in r.kept && r.clients[i].Open() && r.now - LastActive(r.clients[i], r.now) >= IDLE_TIMEOUT
  }

  function SentOf(r: Router, i: nat): Option<real> { if i in r.sends then Some(r.sends[i]) else None }

  function Seal(r: Router, i: nat): Closed { Closed(i, r.now, SentOf(r, i)) }

  /** The closer at one client, undisturbed. */
  function PassOne(r: Router, i: nat): Router
    requires i < |r.clients|
  {
    var c := r.clients[i];
    if i in r.kept || !c.Open() then r
    else if !Closes(r, i) then r.(clients := r.clients[i := c.(lastSend := Some(LastActive(c, r.now)))])
    else r.(clients := r.clients[i := c.(task := NoTask, lastSend := None)],
            cache := Evict(r.cache, i),
            closes := r.closes + [Seal(r, i)])
  }

  function Pass(r: Router, n: nat): (t: Router)
    requires n <= |r.clients|
    ensures |t.clients| == |r.clients|
  {
    if n == 0 then r else PassOne(Pass(r, n - 1), n - 1)
  }

  /** The iteration from client `i` on, up to the next await. Python refuses to go on iterating
      over a dictionary that has changed its size, and nothing catches that: the closer is gone. */
  function Look(r: Router, start: real, size: nat, i: nat): Router
    decreases |r.clients| - i
  {
    if |r.clients| != size then r.(closer := Dead)
    else if i >= |r.clients| then r.(closer := Resting)
    else
      var c := r.clients[i];
      if i in r.kept || !c.Open() then Look(r, start, size, i + 1)
      else
        var active := LastActive(c, start);
        var t := r.(clients := r.clients[i := c.(lastSend := Some(active))]);
        if start - active >= IDLE_TIMEOUT then t.(closer := Working(start, size, Doomed(i, SentOf(r, i))))
        else Look(t, start, size, i + 1)
  }

  function GoDown(r: Router): Router
    requires r.closer.Working? && r.closer.phase.Doomed?
  {
    var Doomed(i, sent) := r.closer.phase;
    if i >= |r.clients| then r
    else r.(clients := r.clients[i := r.clients[i].(task := NoTask)],
            closes := r.closes + [Closed(i, r.now, sent)],
            closer := r.closer.(phase := Down(i)))
  }

  /** What the turn does to a client once it is closed. */
  function Cleaned(r: Router, i: nat): Router
    requires i < |r.clients|
  {
    r.(clients := r.clients[i := r.clients[i].(lastSend := None)], cache := Evict(r.cache, i), closer := Resting)
  }

  function FinishClose(r: Router): Router
    requires r.closer.Working? && r.closer.phase.Down?
  {
    var i := r.closer.phase.client;
    if i >= |r.clients| then r
    else
      var t := Cleaned(r, i);
      Look(t, r.closer.start, r.closer.size, i + 1)
  }

  /** The closer has decided to close client `i` and is not done with it. */
  predicate InClose(r: Router, i: nat) {
    r.closer.Working? && r.closer.phase.client == i
  }

  function Live(r: Router, cs: seq<nat>): set<nat> { set i | i in cs && i < |r.clients| && r.clients[i].Open() }

  function Step(r: Router, e: Event): Router {
    match e
    case Tick(to) => if to >= r.now then r.(now := to) else r
    case EnsureClient => r.(clients := r.clients + [NEW])
    case TryClient(i, ok) => if i < |r.clients| then r.(clients := r.clients[i := Try(r.clients[i], r.now, ok)]) else r
    case FirstStep(i) =>
      if i < |r.clients| && r.clients[i].task.Fresh?
      then r.(clients := r.clients[i := r.clients[i].(task := if InClose(r, i) then Ended else Running)])
      else r
    case Fails(i) =>
      if i < |r.clients| && r.clients[i].task.Running? then r.(clients := r.clients[i := r.clients[i].(task := Ended)])
      else r
    case SendVia(i) =>
      if i < |r.clients|
      then r.(clients := r.clients[i := r.clients[i].(lastSend := Some(r.now))],
              sends := if InClose(r, i) then r.sends else r.sends[i := r.now])
      else r
    case Start(own) => r.(kept := r.kept + own, closer := if r.closer.Off? || r.closer.Dead? then Resting else r.closer)
    case Store(key, cs) => r.(cache := r.cache[key := Entry(r.now, cs, |r.closes|, Live(r, cs))])
    case ClosePipe(cs) => r.(cache := EvictAll(r.cache, cs))
    case PassBegin => if r.closer.Resting? then Look(r, r.now, |r.clients|, 0) else r
    case PassDown => if r.closer.Working? && r.closer.phase.Doomed? then GoDown(r) else r
    case PassClosed => if r.closer.Working? && r.closer.phase.Down? then FinishClose(r) else r
  }

  function Run(r: Router, events: seq<Event>): Router {
    if events == [] then r else Step(Run(r, events[..|events| - 1]), events[|events| - 1])
  }

  // ---- the limits --------------------------------------------------------------------------------

  /** A client without a dispatcher is tried exactly if its last failed connect is 1200 s ago or
      more, or there is none; it gets a dispatcher exactly if the connect then succeeds. */
  lemma TryExactly(c: Client, now: real, ok: bool)
    ensures var d := Try(c, now, ok);
            var tried := c.task.NoTask? && (c.lastConnect.None? || now - c.lastConnect.value >= 1200.0);
            && d.task == (if tried && ok then Fresh else c.task)
            && d.lastConnect == (if tried && !ok then Some(now) else c.lastConnect)
            && d.lastSend == c.lastSend
  {
  }

  /** When the closer closes a client: its last send, or if it was never sent over its last failed
      connect, is 600 s ago or more. */
  lemma ClosesExactly(r: Router, i: nat)
    requires i < |r.clients|
    ensures Closes(r, i) <==>
              var c := r.clients[i];
              && i !in r.kept && !c.task.NoTask?
              && if c.lastSend.Some? then r.now - c.lastSend.value >= 600.0
                 else c.lastConnect.Some? && c.lastConnect.value != 0.0 && r.now - c.lastConnect.value >= 600.0
  {
  }

  /** For a client that never did anything, the first pass that meets it starts the clock: another
      pass closes it exactly if it comes 600 s later or more. */
  lemma UnusedFromFirstPass(r: Router, later: real, i: nat)
    requires i < |r.clients| && r.clients[i].Open() && i !in r.kept && later >= r.now
    requires r.clients[i].lastSend.None? && (r.clients[i].lastConnect.None? || r.clients[i].lastConnect.value == 0.0)
    ensures var t := Pass(r, |r.clients|);
            && t.clients[i].Open()
            && (Pass(t.(now := later), |t.clients|).clients[i].Open() <==> later - r.now < 600.0)
  {
    var t := Pass(r, |r.clients|);
    PassPointwise(r, |r.clients|, i);
    PassPointwise(t.(now := later), |t.clients|, i);
  }

  // ---- a pass, client by client ----------------------------------------------------------------

  /** A pass treats each client as if it were alone: none of its closes affects another. */
  lemma {:induction false} PassPointwise(r: Router, n: nat, i: nat)
    requires n <= |r.clients| && i < |r.clients|
    ensures var t := Pass(r, n);
            && t.kept == r.kept && t.now == r.now && t.sends == r.sends
            && t.clients[i] == (if i < n then PassOne(r, i).clients[i] else r.clients[i])
  {
    if n > 0 { PassPointwise(r, n - 1, i); }
  }

  lemma {:induction false} PassPointwiseCloser(r: Router, n: nat)
    requires n <= |r.clients|
    ensures Pass(r, n).closer == r.closer && Pass(r, n).kept == r.kept && Pass(r, n).now == r.now
  {
    if n > 0 { PassPointwiseCloser(r, n - 1); }
  }

  /** Exactly which clients a pass closes, and that each is recorded once, in order. */
  lemma {:induction false} PassClosesExactly(r: Router, n: nat)
    requires n <= |r.clients|
    ensures var t := Pass(r, n);
            && r.closes <= t.closes
            && (forall i :: 0 <= i < n && Closes(r, i) ==> !t.clients[i].Open() && Seal(r, i) in t.closes[|r.closes|..])
            && (forall x :: x in t.closes[|r.closes|..] ==>
                  x.client < n && Closes(r, x.client) && x == Seal(r, x.client))
            && (forall i :: 0 <= i < |r.clients| ==>
                  (t.clients[i].Open() <==> r.clients[i].Open() && !(i < n && Closes(r, i))))
  {
    if n > 0 {
      PassClosesExactly(r, n - 1);
      var s := Pass(r, n - 1);
      assert Closes(s, n - 1) == Closes(r, n - 1) && Seal(s, n - 1) == Seal(r, n - 1) by {
        PassPointwise(r, n - 1, n - 1);
      }
      PassOneCloses(s, n - 1);
      hide PassOne, Closes, Seal;
      var t := PassOne(s, n - 1);
      assert t.closes[|r.closes|..] == s.closes[|r.closes|..] + (if Closes(s, n - 1) then [Seal(s, n - 1)] else []);
    }
  }

  lemma PassOneCloses(r: Router, i: nat)
    requires i < |r.clients|
    ensures var t := PassOne(r, i);
            && t.closes == r.closes + (if Closes(r, i) then [Seal(r, i)] else [])
            && |t.clients| == |r.clients|
            && (forall j :: 0 <= j < |r.clients| ==>
                  (t.clients[j].Open() <==> r.clients[j].Open() && !(j == i && Closes(r, i))))
  {
    hide Evict;
  }

  lemma {:induction false} EvictAllExactly(cache: map<string, Entry>, clients: seq<nat>)
    ensures var t := EvictAll(cache, clients);
            forall k :: k in t <==> k in cache && forall c :: c in clients ==> c !in cache[k].clients
    ensures forall k :: k in EvictAll(cache, clients) ==> EvictAll(cache, clients)[k] == cache[k]
  {
    if clients != [] {
      var init, last := clients[..|clients| - 1], clients[|clients| - 1];
      EvictAllExactly(cache, init);
      assert clients == init + [last];
    }
  }

  lemma {:induction false} RunSplit(r: Router, a: seq<Event>, b: seq<Event>)
    ensures Run(r, a + b) == Run(Run(r, a), b)
    decreases |b|
  {
    hide Step;
    if b == [] {
      assert a + b == a;
    } else {
      RunSplit(r, a, b[..|b| - 1]);
      assert (a + b)[..|a + b| - 1] == a + b[..|b| - 1];
    }
  }

  lemma ShortRuns(r: Router, e: Event, f: Event, g: Event)
    ensures Run(r, [e]) == Step(r, e) && Run(r, [e, f]) == Step(Step(r, e), f)
    ensures Run(r, [e, f, g]) == Step(Step(Step(r, e), f), g)
  {
    hide Step;
    var none: seq<Event> := [];
    assert [e][..0] == none && [e, f][..1] == [e] && [e, f, g][..2] == [e, f];
    assert Run(r, none) == r && Run(r, [e]) == Step(r, e) && Run(r, [e, f]) == Step(Step(r, e), f);
  }

  /** The rest of a pass from client `i` on. */
  function PassFrom(r: Router, i: nat): Router
    decreases |r.clients| - i
  {
    if i >= |r.clients| then r else PassFrom(PassOne(r, i), i + 1)
  }

  lemma {:induction false} PassForward(r: Router, i: nat)
    requires i <= |r.clients|
    ensures PassFrom(Pass(r, i), i) == Pass(r, |r.clients|)
    decreases |r.clients| - i
  {
    if i < |r.clients| { PassForward(r, i + 1); }
  }

  function Closings(k: nat): seq<Event> { if k == 0 then [] else [PassDown, PassClosed] + Closings(k - 1) }

  /** What the closer does from client `i` on, if nothing else happens: the rest of the pass, in
      as many closings as there are clients to close. */
  lemma {:induction false} LookThenClose(q: Router, i: nat) returns (k: nat)
    requires q.closer.Resting? && i <= |q.clients|
    ensures Run(Look(q, q.now, |q.clients|, i), Closings(k)) == PassFrom(q, i)
    decreases |q.clients| - i
  {
    if i == |q.clients| {
      k := 0;
    } else if Closes(q, i) {
      var t := Look(q, q.now, |q.clients|, i);
      OneClosing(q, i);
      k := LookThenClose(PassOne(q, i), i + 1);
      ShortRuns(t, PassDown, PassClosed, PassClosed);
      RunSplit(t, [PassDown, PassClosed], Closings(k));
      k := k + 1;
    } else {
      k := LookThenClose(PassOne(q, i), i + 1);
    }
  }

  lemma OneClosing(q: Router, i: nat)
    requires q.closer.Resting? && i < |q.clients| && Closes(q, i)
    ensures Step(Step(Look(q, q.now, |q.clients|, i), PassDown), PassClosed)
            == Look(PassOne(q, i), q.now, |q.clients|, i + 1)
  {
    hide Evict;
    var c, t := q.clients[i], Look(q, q.now, |q.clients|, i);
    assert t.clients == q.clients[i := c.(lastSend := Some(LastActive(c, q.now)))];
    var u := Step(t, PassDown);
    assert u.clients == q.clients[i := c.(task := NoTask, lastSend := Some(LastActive(c, q.now)))];
    assert u.clients[i := u.clients[i].(lastSend := None)] == PassOne(q, i).clients;
  }

  /** The next client an undisturbed pass closes, and the state in which it comes to it. */
  lemma {:induction false} NextDoomed(q: Router, i: nat) returns (t: Router, j: nat)
    requires q.closer.Resting? && i <= |q.clients| && Look(q, q.now, |q.clients|, i).closer.Working?
    ensures t.closer.Resting? && t.now == q.now && |t.clients| == |q.clients| && i <= j < |t.clients| && Closes(t, j)
    ensures PassFrom(t, j) == PassFrom(q, i) && Look(t, q.now, |q.clients|, j) == Look(q, q.now, |q.clients|, i)
    decreases |q.clients| - i
  {
    if Closes(q, i) {
      t, j := q, i;
    } else {
      t, j := NextDoomed(PassOne(q, i), i + 1);
    }
  }

  lemma LookShows(q: Router, i: nat)
    requires q.closer.Resting? && i < |q.clients| && Closes(q, i)
    ensures var t := Look(q, q.now, |q.clients|, i);
            && t.closer.Working? && t.closer.phase.Doomed? && t.closer.phase.client == i < |t.clients|
            && Step(t, PassDown).closer.Working? && Step(t, PassDown).closer.phase == Down(i)
            && |Step(t, PassDown).clients| == |q.clients|
  {
  }

  /** With nothing left to close, looking is all the rest of the pass does. */
  lemma {:induction false} LookEnds(q: Router, i: nat)
    requires q.closer.Resting? && i <= |q.clients| && !Look(q, q.now, |q.clients|, i).closer.Working?
    ensures Look(q, q.now, |q.clients|, i) == PassFrom(q, i)
    decreases |q.clients| - i
  {
    if i < |q.clients| { LookEnds(PassOne(q, i), i + 1); }
  }

  /** A pass that nothing disturbs is the run of its steps. */
  lemma PassIsRun(r: Router) returns (k: nat)
    requires r.closer.Resting?
    ensures Run(r, [PassBegin] + Closings(k)) == Pass(r, |r.clients|)
  {
    k := LookThenClose(r, 0);
    PassForward(r, 0);
    ShortRuns(r, PassBegin, PassBegin, PassBegin);
    RunSplit(r, [PassBegin], Closings(k));
  }

  // ---- what every run keeps --------------------------------------------------------------------

  predicate ClosedSince(r: Router, from: nat, client: nat) {
    exists i :: from <= i < |r.closes| && r.closes[i].client == client
  }

  /** The client that is closed but not yet cleaned up after. */
  predicate GoingDown(r: Router, i: nat) { r.closer.Working? && r.closer.phase == Down(i) }

  /** No client of the entry was idle-closed since it was stored, and those open then still are;
      except for one that is going down at this moment. */
  ghost predicate EntryOk(r: Router, e: Entry) {
    && e.stored <= |r.closes|
    && forall c :: c in e.clients && !GoingDown(r, c) ==>
         && !ClosedSince(r, e.stored, c)
         && (c in e.live ==> c < |r.clients| && r.clients[c].Open())
  }

  predicate ClosedOk(x: Closed) { x.sent.Some? ==> x.at - x.sent.value >= IDLE_TIMEOUT }

  /** The closer's clock for a client runs from its last send, or that is 600 s ago anyway. */
  predicate SendSeen(r: Router, i: nat) {
    i in r.sends ==>
      && i < |r.clients|
      && r.sends[i] <= r.now
      && (|| (r.clients[i].lastSend.Some? && r.clients[i].lastSend.value >= r.sends[i])
          || r.now - r.sends[i] >= IDLE_TIMEOUT)
  }

  predicate CloserOk(r: Router) {
    r.closer.Working? ==>
      && r.closer.start <= r.now
      && match r.closer.phase
         case Doomed(i, sent) =>
           i < |r.clients| && sent == SentOf(r, i) && (sent.Some? ==> r.now - sent.value >= IDLE_TIMEOUT)
         case Down(i) => i < |r.clients| && (i in r.sends ==> r.now - r.sends[i] >= IDLE_TIMEOUT)
  }

  ghost predicate Inv(r: Router) {
    && CloserOk(r)
    && (forall k :: k in r.cache ==> EntryOk(r, r.cache[k]))
    && (forall i :: 0 <= i < |r.closes| ==> ClosedOk(r.closes[i]))
    && (forall i: nat :: SendSeen(r, i))
  }

  /** Steps that close nothing, lose no send and leave no client half closed. */
  lemma QuietKeeps(r: Router, t: Router)
    requires Inv(r) && CloserOk(t) && t.closes == r.closes && |t.clients| >= |r.clients|
    requires forall i :: GoingDown(r, i) ==> GoingDown(t, i)
    requires forall i :: 0 <= i < |r.clients| && r.clients[i].Open() ==> t.clients[i].Open()
    requires forall k :: k in t.cache ==> EntryOk(t, t.cache[k]) || (k in r.cache && t.cache[k] == r.cache[k])
    requires forall i: nat :: SendSeen(r, i) ==> SendSeen(t, i)
    ensures Inv(t)
  {
    forall k | k in t.cache ensures EntryOk(t, t.cache[k]) {
      if k in r.cache && t.cache[k] == r.cache[k] {
        assert EntryOk(r, r.cache[k]);
        forall c | c in t.cache[k].clients && !GoingDown(t, c) ensures !ClosedSince(t, t.cache[k].stored, c) {
          assert !ClosedSince(r, r.cache[k].stored, c);
        }
      }
    }
  }

  lemma {:induction false} LookKeeps(r: Router, start: real, size: nat, i: nat)
    requires Inv(r) && r.closer.Resting? && start <= r.now
    ensures Inv(Look(r, start, size, i))
    decreases |r.clients| - i
  {
    hide EntryOk;
    var t := Look(r, start, size, i);
    if |r.clients| != size || i >= |r.clients| {
      QuietKeeps(r, t);
    } else if i in r.kept || !r.clients[i].Open() {
      LookKeeps(r, start, size, i + 1);
    } else {
      var c := r.clients[i];
      var u := r.(clients := r.clients[i := c.(lastSend := Some(LastActive(c, start)))]);
      assert SendSeen(r, i);
      QuietKeeps(r, u);
      if start - LastActive(c, start) >= IDLE_TIMEOUT { QuietKeeps(u, t); } else { LookKeeps(u, start, size, i + 1); }
    }
  }

  lemma DownKeeps(r: Router)
    requires Inv(r) && r.closer.Working? && r.closer.phase.Doomed?
    ensures Inv(GoDown(r))
  {
    var t, i := GoDown(r), r.closer.phase.client;
    forall k | k in t.cache ensures EntryOk(t, t.cache[k]) {
      assert EntryOk(r, r.cache[k]);
      forall c | c in t.cache[k].clients && c != i ensures !ClosedSince(t, t.cache[k].stored, c) {
        assert !ClosedSince(r, r.cache[k].stored, c);
      }
      assert GoingDown(t, i);
    }
    forall j: nat ensures SendSeen(t, j) {
      assert SendSeen(r, j);
    }
  }

  lemma FinishKeeps(r: Router)
    requires Inv(r) && r.closer.Working? && r.closer.phase.Down?
    ensures Inv(FinishClose(r))
  {
    var i := r.closer.phase.client;
    var t := Cleaned(r, i);
    forall k | k in t.cache ensures EntryOk(t, t.cache[k]) {
      assert EntryOk(r, r.cache[k]) && i !in r.cache[k].clients;
      forall c | c in t.cache[k].clients ensures !ClosedSince(t, t.cache[k].stored, c) {
        assert !GoingDown(r, c) && !ClosedSince(r, r.cache[k].stored, c);
      }
    }
    forall j: nat ensures SendSeen(t, j) {
      assert SendSeen(r, j);
    }
    LookKeeps(t, r.closer.start, r.closer.size, i + 1);
  }

  lemma StepKeeps(r: Router, e: Event)
    requires Inv(r)
    ensures Inv(Step(r, e))
  {
    hide Inv;
    match e
    case PassBegin => PassKeeps(r, e);
    case PassDown => PassKeeps(r, e);
    case PassClosed => PassKeeps(r, e);
    case SendVia(i) => SendKeeps(r, i);
    case TryClient(i, ok) => ClientKeeps(r, e);
    case FirstStep(i) => ClientKeeps(r, e);
    case Fails(i) => ClientKeeps(r, e);
    case EnsureClient => TableKeeps(r, e);
    case Tick(to) => TableKeeps(r, e);
    case Start(own) => TableKeeps(r, e);
    case ClosePipe(cs) => TableKeeps(r, e);
    case Store(key, cs) => TableKeeps(r, e);
  }

  lemma PassKeeps(r: Router, e: Event)
    requires Inv(r) && (e.PassBegin? || e.PassDown? || e.PassClosed?)
    ensures Inv(Step(r, e))
  {
    hide Look, GoDown, FinishClose, EntryOk, SendSeen;
    if e.PassBegin? {
      if r.closer.Resting? { LookKeeps(r, r.now, |r.clients|, 0); }
    } else if e.PassDown? {
      if r.closer.Working? && r.closer.phase.Doomed? { DownKeeps(r); }
    } else {
      if r.closer.Working? && r.closer.phase.Down? { FinishKeeps(r); }
    }
  }

  lemma ClientKeeps(r: Router, e: Event)
    requires Inv(r) && (e.TryClient? || e.FirstStep? || e.Fails?)
    ensures Inv(Step(r, e))
  {
    hide EntryOk;
    QuietKeeps(r, Step(r, e));
  }

  lemma TableKeeps(r: Router, e: Event)
    requires Inv(r) && (e.EnsureClient? || e.Tick? || e.Start? || e.ClosePipe? || e.Store?)
    ensures Inv(Step(r, e))
  {
    var t := Step(r, e);
    match e
    case EnsureClient =>
      hide EntryOk;
      QuietKeeps(r, t);
    case Tick(to) =>
      hide EntryOk;
      QuietKeeps(r, t);
    case Start(own) =>
      hide EntryOk, SendSeen;
      SameSeen(r, t);
      QuietKeeps(r, t);
    case ClosePipe(cs) =>
      EvictAllExactly(r.cache, cs);
      hide EntryOk, SendSeen, EvictAll;
      SameSeen(r, t);
      QuietKeeps(r, t);
    case Store(key, cs) =>
      assert EntryOk(t, t.cache[key]);
      hide EntryOk, SendSeen, Live;
      SameSeen(r, t);
      QuietKeeps(r, t);
  }

  lemma SameSeen(r: Router, t: Router)
    requires t.clients == r.clients && t.sends == r.sends && t.now == r.now
    ensures forall i: nat :: SendSeen(r, i) ==> SendSeen(t, i)
  {
  }

  lemma SendKeeps(r: Router, i: nat)
    requires Inv(r)
    ensures Inv(Step(r, SendVia(i)))
  {
    hide EntryOk;
    var t := Step(r, SendVia(i));
    if i < |r.clients| { QuietKeeps(r, t); }
  }

  lemma {:induction false} RunKeeps(r: Router, events: seq<Event>)
    requires Inv(r)
    ensures Inv(Run(r, events))
  {
    if events != [] {
      RunKeeps(r, events[..|events| - 1]);
      StepKeeps(Run(r, events[..|events| - 1]), events[|events| - 1]);
    }
  }

  // ---- main results ----------------------------------------------------------------------------

  /** pipe(use_cache): the clients of an entry younger than `expiry`. */
  function CachedFor(r: Router, key: string, expiry: real): Option<seq<nat>> {
    if key in r.cache && r.now - r.cache[key].updated < expiry then Some(r.cache[key].clients) else None
  }

  /** In every run, no client handed out from the cache was idle-closed since the entry was
      stored, and it has a dispatcher_task unless it had none when stored; except for a client
      that is being closed at that very moment. */
  lemma CacheNeverStale(events: seq<Event>, key: string, expiry: real)
    ensures var r := Run(FRESH, events);
            CachedFor(r, key, expiry).Some? ==>
              forall c :: c in CachedFor(r, key, expiry).value && !GoingDown(r, c) ==>
                && !ClosedSince(r, r.cache[key].stored, c)
                && (c in r.cache[key].live ==> c < |r.clients| && r.clients[c].Open())
  {
    RunKeeps(FRESH, events);
    var r := Run(FRESH, events);
    if key in r.cache { assert EntryOk(r, r.cache[key]); }
  }

  /** In every run, an idle close comes at least 600 s after the last send over that client that
      was made before the closer decided to close it. */
  lemma ActiveNeverClosed(events: seq<Event>, i: nat)
    ensures var r := Run(FRESH, events);
            i < |r.closes| && r.closes[i].sent.Some? ==> r.closes[i].at - r.closes[i].sent.value >= 600.0
  {
    RunKeeps(FRESH, events);
    var r := Run(FRESH, events);
    if i < |r.closes| { assert ClosedOk(r.closes[i]); }
  }

  /** A send made after that decision does not count: the client is closed all the same, and the
      send is forgotten. */
  lemma SendDuringCloseForgotten(r: Router, i: nat)
    requires i < |r.clients| && r.closer.Working? && r.closer.phase.Doomed? && r.closer.phase.client == i
    ensures var t := Step(Step(Step(r, SendVia(i)), PassDown), PassClosed);
            && t.closes == r.closes + [Closed(i, r.now, r.closer.phase.sent)]
            && i < |t.clients| && !t.clients[i].Open() && t.clients[i].lastSend == None
  {
    var u := Step(Step(r, SendVia(i)), PassDown);
    LookBelow(Cleaned(u, i),
              u.closer.start, u.closer.size, i + 1);
  }

  /** Looking changes the idle clock of open clients further on, and nothing else. */
  lemma {:induction false} LookBelow(r: Router, start: real, size: nat, i: nat)
    ensures var t := Look(r, start, size, i);
            && |t.clients| == |r.clients| && t == r.(clients := t.clients, closer := t.closer)
            && (forall j :: 0 <= j < |r.clients| ==>
                  && t.clients[j].task == r.clients[j].task && t.clients[j].lastConnect == r.clients[j].lastConnect)
            && (forall j :: 0 <= j < |r.clients| && j < i ==> t.clients[j] == r.clients[j])
            && (t.closer.Dead? <==> |r.clients| != size)
            && (t.closer.Dead? || t.closer.Resting?
                || (t.closer.Working? && t.closer.start == start && t.closer.size == size && t.closer.phase.Doomed?
                    && t.closer.phase.client < |r.clients| && t.closer.phase.client !in r.kept))
    decreases |r.clients| - i
  {
    if |r.clients| == size && i < |r.clients| {
      var c := r.clients[i];
      if i in r.kept || !c.Open() {
        LookBelow(r, start, size, i + 1);
      } else if start - LastActive(c, start) < IDLE_TIMEOUT {
        LookBelow(r.(clients := r.clients[i := c.(lastSend := Some(LastActive(c, start)))]), start, size, i + 1);
      }
    }
  }

  /** Once protected, and not about to be closed, never idle-closed again: an open client stays
      open whatever follows. */
  lemma {:induction false} ProtectedForGood(r: Router, events: seq<Event>, i: nat)
    requires i in r.kept && !InClose(r, i)
    ensures var t := Run(r, events);
            && i in t.kept && !InClose(t, i) && r.closes <= t.closes
            && (forall j :: |r.closes| <= j < |t.closes| ==> t.closes[j].client != i)
            && (i < |r.clients| && r.clients[i].Open() ==> i < |t.clients| && t.clients[i].Open())
  {
    if events != [] {
      ProtectedForGood(r, events[..|events| - 1], i);
      hide Step;
      ProtectedStep(Run(r, events[..|events| - 1]), events[|events| - 1], i);
    }
  }

  lemma ProtectedStep(r: Router, e: Event, i: nat)
    requires i in r.kept && !InClose(r, i)
    ensures var t := Step(r, e);
            && i in t.kept && !InClose(t, i)
            && (t.closes == r.closes || exists x: Closed :: x.client != i && t.closes == r.closes + [x])
            && (i < |r.clients| && r.clients[i].Open() ==> i < |t.clients| && t.clients[i].Open())
  {
    hide EvictAll, Evict, Live, Look;
    if e.PassBegin? { LookBelow(r, r.now, |r.clients|, 0); }
    if e.PassClosed? && r.closer.Working? && r.closer.phase.Down? && r.closer.phase.client < |r.clients| {
      var j := r.closer.phase.client;
      LookBelow(Cleaned(r, j),
                r.closer.start, r.closer.size, j + 1);
    }
  }

  /** A pass is under way from here on, to the end of these events and at every point before. */
  predicate AtWork(r: Router, events: seq<Event>) {
    Run(r, events).closer.Working? && (events == [] || AtWork(r, events[..|events| - 1]))
  }

  /** The whole of a pass: it begins, and is over with the last of these events. */
  predicate WholePass(r: Router, events: seq<Event>) {
    var begun := Step(r, PassBegin);
    && r.closer.Resting? && !Run(begun, events).closer.Working?
    && (events == [] || AtWork(begun, events[..|events| - 1]))
  }

  /** What a pass at work keeps of the table. */
  lemma {:induction false} PassSize(r: Router, events: seq<Event>)
    requires r.closer.Resting? && AtWork(Step(r, PassBegin), events)
    ensures var t := Run(Step(r, PassBegin), events);
            && t.closer.Working? && t.closer.size == |r.clients| <= |t.clients|
            && (|t.clients| == |r.clients| <==> EnsureClient !in events)
  {
    if events == [] {
      LookBelow(r, r.now, |r.clients|, 0);
    } else {
      var init, e := events[..|events| - 1], events[|events| - 1];
      hide Step;
      PassSize(r, init);
      StepSize(Run(Step(r, PassBegin), init), e);
      assert events == init + [e];
    }
  }

  lemma StepSize(r: Router, e: Event)
    requires r.closer.Working?
    ensures var t := Step(r, e);
            && |t.clients| == |r.clients| + (if e.EnsureClient? then 1 else 0)
            && (t.closer.Working? ==> t.closer.size == r.closer.size)
            && (!t.closer.Working? ==>
                  e.PassClosed? && t.closer == if |r.clients| == r.closer.size then Resting else Dead)
  {
    hide EvictAll, Evict, Live, Look;
    if e.PassClosed? && r.closer.phase.Down? && r.closer.phase.client < |r.clients| {
      var j := r.closer.phase.client;
      LookBelow(Cleaned(r, j),
                r.closer.start, r.closer.size, j + 1);
    }
  }

  /** A pass kills the closer exactly if a new broker is used while it closes a client. Whatever
      else happens during its closes, it comes to its end. */
  lemma CloserDiesExactly(r: Router, events: seq<Event>)
    requires WholePass(r, events)
    ensures Run(Step(r, PassBegin), events).closer == if EnsureClient in events then Dead else Resting
  {
    if events == [] {
      LookBelow(r, r.now, |r.clients|, 0);
    } else {
      var init, e := events[..|events| - 1], events[|events| - 1];
      hide Step, AtWork;
      PassSize(r, init);
      StepSize(Run(Step(r, PassBegin), init), e);
      assert events == init + [e];
    }
  }

  /** From then on no client is idle-closed, unless the router is started once more. */
  lemma {:induction false} DeadForGood(r: Router, events: seq<Event>)
    requires r.closer.Dead? && forall e :: e in events ==> !e.Start?
    ensures Run(r, events).closer.Dead? && Run(r, events).closes == r.closes
  {
    if events != [] {
      DeadForGood(r, events[..|events| - 1]);
      hide EvictAll, Evict, Live, Look;
    }
  }

  /** One new broker, first used while an idle client is being closed, is enough. */
  lemma NewBrokerEndsCloser(r: Router)
    requires r.closer.Working? && r.closer.phase.Doomed? && r.closer.phase.client < |r.clients| == r.closer.size
    ensures Step(Step(Step(r, EnsureClient), PassDown), PassClosed).closer.Dead?
  {
    hide Evict, EvictAll, Live;
  }

  /** Whoever is in a start's own group is protected from then on. */
  lemma StartProtects(r: Router, own: set<nat>, events: seq<Event>, i: nat)
    requires i in own && !InClose(r, i)
    ensures var t := Run(Step(r, Start(own)), events);
            && i in t.kept && !InClose(t, i)
            && (forall j :: |r.closes| <= j < |t.closes| ==> t.closes[j].client != i)
            && (i < |r.clients| && r.clients[i].Open() ==> i < |t.clients| && t.clients[i].Open())
  {
    ProtectedForGood(Step(r, Start(own)), events, i);
    hide Run;
  }

  // ---- which lists the cache hands out ---------------------------------------------------------------

  /** The step takes the cached list `cs` of the key away: another one is stored, a pipe that uses
      one of its clients is closed, or one of its clients has been idle-closed. */
  predicate DropsList(r: Router, e: Event, key: string, cs: seq<nat>) {
    match e
    case Store(k, _) => k == key
    case ClosePipe(xs) => exists c :: c in xs && c in cs
    case PassClosed =>
      r.closer.Working? && r.closer.phase.Down? && r.closer.phase.client < |r.clients| && r.closer.phase.client in cs
    case _ => false
  }

  lemma CacheStep(r: Router, e: Event, key: string)
    ensures var t := Step(r, e);
            if e.Store? && e.key == key
            then key in t.cache && t.cache[key].updated == r.now && t.cache[key].clients == e.clients
            else
              && (key in t.cache <==> key in r.cache && !DropsList(r, e, key, r.cache[key].clients))
              && (key in t.cache ==> t.cache[key] == r.cache[key])
  {
    match e
    case ClosePipe(xs) =>
      EvictAllExactly(r.cache, xs);
      hide EvictAll, Look;
    case PassBegin =>
      LookBelow(r, r.now, |r.clients|, 0);
      hide Look;
    case PassClosed =>
      if r.closer.Working? && r.closer.phase.Down? && r.closer.phase.client < |r.clients| {
        LookBelow(Cleaned(r, r.closer.phase.client), r.closer.start, r.closer.size, r.closer.phase.client + 1);
      }
      hide Look;
    case _ => hide EvictAll, Evict, Live, Look;
  }

  /** The k-th of these events stored the list, and none since took it away. */
  predicate StoredAt(events: seq<Event>, k: nat, key: string, cs: seq<nat>) {
    && k < |events| && events[k] == Store(key, cs)
    && forall j :: k < j < |events| ==> !DropsList(Run(FRESH, events[..j]), events[j], key, cs)
  }

  lemma StoredStep(events: seq<Event>, k: nat, key: string, cs: seq<nat>)
    requires events != []
    ensures var n := |events| - 1;
            StoredAt(events, k, key, cs)
            <==> || (k == n && events[n] == Store(key, cs))
                 || (StoredAt(events[..n], k, key, cs) && !DropsList(Run(FRESH, events[..n]), events[n], key, cs))
  {
    hide Run, DropsList;
    var n := |events| - 1;
    assert forall j :: 0 <= j < n ==> events[..n][..j] == events[..j] && events[..n][j] == events[j];
  }

  /** What is cached was stored, when its entry says. */
  lemma {:induction false} CachedWasStored(events: seq<Event>, key: string) returns (k: nat)
    requires key in Run(FRESH, events).cache
    ensures var x := Run(FRESH, events).cache[key];
            && StoredAt(events, k, key, x.clients) && k < |events| && x.updated == Run(FRESH, events[..k]).now
  {
    hide Step, DropsList, StoredAt;
    assert events != [];
    var n := |events| - 1;
    CacheStep(Run(FRESH, events[..n]), events[n], key);
    if events[n].Store? && events[n].key == key {
      k := n;
    } else {
      k := CachedWasStored(events[..n], key);
      assert events[..n][..k] == events[..k];
    }
    StoredStep(events, k, key, Run(FRESH, events).cache[key].clients);
  }

  lemma {:induction false} StoredIsCached(events: seq<Event>, k: nat, key: string, cs: seq<nat>)
    requires StoredAt(events, k, key, cs)
    ensures k < |events| && key in Run(FRESH, events).cache
    ensures var x := Run(FRESH, events).cache[key]; x.clients == cs && x.updated == Run(FRESH, events[..k]).now
  {
    InEvents(events, k, key, cs);
    hide Step, DropsList, StoredAt;
    var n := |events| - 1;
    StoredStep(events, k, key, cs);
    CacheStep(Run(FRESH, events[..n]), events[n], key);
    if k < n {
      StoredIsCached(events[..n], k, key, cs);
      StoreDrops(Run(FRESH, events[..n]), events[n], key, cs);
      assert events[..n][..k] == events[..k];
    }
  }

  lemma InEvents(events: seq<Event>, k: nat, key: string, cs: seq<nat>)
    requires StoredAt(events, k, key, cs)
    ensures k < |events| && events[k] == Store(key, cs)
  {
  }

  lemma StoreDrops(r: Router, e: Event, key: string, cs: seq<nat>)
    ensures e.Store? && e.key == key ==> DropsList(r, e, key, cs)
  {
  }

  /** Over runs: a list is handed out from the cache exactly if it was stored under the key less
      than `expiry` ago and nothing has taken it away since. */
  lemma CachedExactly(events: seq<Event>, key: string, expiry: real, cs: seq<nat>)
    ensures CachedFor(Run(FRESH, events), key, expiry) == Some(cs)
            <==> exists k: nat :: StoredAt(events, k, key, cs) && k < |events|
                                  && Run(FRESH, events).now < Run(FRESH, events[..k]).now + expiry
  {
    hide Run, StoredAt;
    var r := Run(FRESH, events);
    if key in r.cache { var k := CachedWasStored(events, key); }
    forall k: nat | StoredAt(events, k, key, cs)
      ensures k < |events| && key in r.cache && r.cache[key].clients == cs
      ensures r.cache[key].updated == Run(FRESH, events[..k]).now
    {
      StoredIsCached(events, k, key, cs);
    }
  }

  // ---- dispatchers ---------------------------------------------------------------------------------

  predicate HasEnded(r: Router, i: nat) { i < |r.clients| && r.clients[i].task.Ended? }

  /** The step ends the client's dispatcher and leaves its task behind: the dispatcher makes its
      first step while the client is being closed, or it fails later. */
  predicate EndsAt(r: Router, e: Event, i: nat) {
    i < |r.clients| &&
    match e
    case FirstStep(j) => j == i && r.clients[i].task.Fresh? && InClose(r, i)
    case Fails(j) => j == i && r.clients[i].task.Running?
    case _ => false
  }

  /** The step takes the task away. */
  predicate TakesTask(r: Router, e: Event, i: nat) {
    e.PassDown? && r.closer.Working? && r.closer.phase.Doomed? && r.closer.phase.client == i
  }

  lemma EndedStep(r: Router, e: Event, i: nat)
    ensures HasEnded(Step(r, e), i) <==> EndsAt(r, e, i) || (HasEnded(r, i) && !TakesTask(r, e, i))
    ensures !(EndsAt(r, e, i) && TakesTask(r, e, i))
  {
    hide EvictAll, Evict, Live, Look;
    if e.PassBegin? { LookBelow(r, r.now, |r.clients|, 0); }
    if e.PassClosed? && r.closer.Working? && r.closer.phase.Down? && r.closer.phase.client < |r.clients| {
      var j := r.closer.phase.client;
      LookBelow(Cleaned(r, j),
                r.closer.start, r.closer.size, j + 1);
    }
  }

  predicate EndedSince(events: seq<Event>, k: nat, i: nat) {
    && k < |events| && EndsAt(Run(FRESH, events[..k]), events[k], i)
    && forall j :: k < j < |events| ==> !TakesTask(Run(FRESH, events[..j]), events[j], i)
  }

  /** A client's task is one of a dispatcher that has ended exactly if that dispatcher made its
      first step during a close of the client, or failed, and no close has come since. */
  lemma {:induction false} EndedExactly(events: seq<Event>, i: nat)
    ensures HasEnded(Run(FRESH, events), i) <==> exists k: nat :: EndedSince(events, k, i)
  {
    hide Step, EndsAt, TakesTask, HasEnded;
    if events == [] {
      NoneEnded(i);
    } else {
      var init, e := events[..|events| - 1], events[|events| - 1];
      EndedExactly(init, i);
      var r := Run(FRESH, init);
      assert Run(FRESH, events) == Step(r, e);
      EndedStep(r, e, i);
      hide Run, EndedSince;
      EndedNow(events, i);
      if EndsAt(r, e, i) {
        assert EndedSince(events, |init|, i);
      } else {
        forall k: nat ensures EndedSince(events, k, i) <==> EndedSince(init, k, i) && !TakesTask(r, e, i) {
          EndedBefore(events, k, i);
        }
        if k: nat :| EndedSince(init, k, i) {
          assert EndedSince(events, k, i) <==> !TakesTask(r, e, i);
        }
      }
    }
  }

  lemma NoneEnded(i: nat)
    ensures Run(FRESH, []) == FRESH && !HasEnded(FRESH, i)
  {
  }

  lemma EndedNow(events: seq<Event>, i: nat)
    requires events != []
    ensures var n := |events| - 1; EndedSince(events, n, i) <==> EndsAt(Run(FRESH, events[..n]), events[n], i)
  {
  }

  lemma EndedBefore(events: seq<Event>, k: nat, i: nat)
    requires events != [] && !EndsAt(Run(FRESH, events[..|events| - 1]), events[|events| - 1], i)
    ensures var n := |events| - 1;
            EndedSince(events, k, i)
            <==> EndedSince(events[..n], k, i) && !TakesTask(Run(FRESH, events[..n]), events[n], i)
  {
    hide Run, EndsAt, TakesTask;
    var n := |events| - 1;
    assert forall j :: 0 <= j < n ==> events[..n][..j] == events[..j] && events[..n][j] == events[j];
  }

  /** So a client handed out from the cache that was open when stored is one whose dispatcher is
      running or about to, exactly unless it made its first step during a close of the client, or
      failed, and was not closed since. */
  lemma CachedClientRuns(events: seq<Event>, key: string, expiry: real, c: nat)
    ensures var r := Run(FRESH, events);
            && CachedFor(r, key, expiry).Some? && c in CachedFor(r, key, expiry).value && c in r.cache[key].live
            && !GoingDown(r, c) ==>
              && c < |r.clients|
              && (r.clients[c].task.Running? || r.clients[c].task.Fresh?
                  <==> !exists k: nat :: EndedSince(events, k, c))
  {
    CacheNeverStale(events, key, expiry);
    EndedExactly(events, c);
    hide Run, EndedSince;
  }

  /** Only the next close of the client ends that state. No connect does: try_client takes the
      client for open. */
  lemma {:induction false} EndedUntilClosed(r: Router, events: seq<Event>, i: nat)
    requires HasEnded(r, i)
    requires forall k :: 0 <= k < |events| ==> !TakesTask(Run(r, events[..k]), events[k], i)
    ensures HasEnded(Run(r, events), i)
  {
    hide Step, TakesTask, HasEnded, EndsAt;
    if events != [] {
      var init, e := events[..|events| - 1], events[|events| - 1];
      assert forall k :: 0 <= k < |init| ==> init[..k] == events[..k] && init[k] == events[k];
      EndedUntilClosed(r, init, i);
      EndedStep(Run(r, init), e, i);
    }
  }

  /** A run that does it: the client is opened again while it goes down, its new dispatcher ends
      at once, and the client is stored and handed out. */
  lemma DeadClientHandedOut()
    ensures var first := [Start({}), EnsureClient, TryClient(0, true)] + [FirstStep(0), SendVia(0), Tick(700.0)];
            var again := [PassBegin, PassDown, TryClient(0, true)] + [FirstStep(0), PassClosed, Store("peer", [0])];
            var r := Run(FRESH, first + again);
            CachedFor(r, "peer", 3600.0) == Some([0]) && 0 in r.cache["peer"].live && !GoingDown(r, 0) && HasEnded(r, 0)
  {
    hide *;
    var a, b := [Start({}), EnsureClient, TryClient(0, true)], [FirstStep(0), SendVia(0), Tick(700.0)];
    var c, d := [PassBegin, PassDown, TryClient(0, true)], [FirstStep(0), PassClosed, Store("peer", [0])];
    RunSplit(FRESH, a + b, c + d);
    RunSplit(FRESH, a, b);
    RunSplit(Run(FRESH, a + b), c, d);
    ShortRuns(FRESH, a[0], a[1], a[2]);
    ShortRuns(Run(FRESH, a), b[0], b[1], b[2]);
    ShortRuns(Run(FRESH, a + b), c[0], c[1], c[2]);
    ShortRuns(Run(Run(FRESH, a + b), c), d[0], d[1], d[2]);
    OpenedSteps();
    ReopenedSteps();
  }

  /** A client used at 0 s and idle since, at 700 s. */
  const AT_700 := FRESH.(now := 700.0, clients := [Client(Running, Some(0.0), None)], closer := Resting,
                         sends := map[0 := 0.0])

  lemma OpenedSteps()
    ensures var r := Step(Step(Step(FRESH, Start({})), EnsureClient), TryClient(0, true));
            Step(Step(Step(r, FirstStep(0)), SendVia(0)), Tick(700.0))
            == AT_700
  {
    hide Evict, EvictAll, Live, Look, Run;
    var r := Step(Step(Step(FRESH, Start({})), EnsureClient), TryClient(0, true));
    assert r.clients == [Client(Fresh, None, None)] && r.kept == {} && r.closer == Resting;
    var t := Step(Step(Step(r, FirstStep(0)), SendVia(0)), Tick(700.0));
    assert t.clients == [Client(Running, Some(0.0), None)];
  }

  lemma ReopenedSteps()
    ensures var s := AT_700;
            var t := Step(Step(Step(s, PassBegin), PassDown), TryClient(0, true));
            var r := Step(Step(Step(t, FirstStep(0)), PassClosed), Store("peer", [0]));
            CachedFor(r, "peer", 3600.0) == Some([0]) && 0 in r.cache["peer"].live && !GoingDown(r, 0) && HasEnded(r, 0)
  {
    hide Evict, EvictAll, Live, Look, CachedFor, Run;
    var s := AT_700;
    ReopenedLook(s);
    var t := Step(Step(Step(s, PassBegin), PassDown), TryClient(0, true));
    assert t.clients == [Client(Fresh, Some(0.0), None)] && t.closer == Working(700.0, 1, Down(0));
    var u := Step(t, FirstStep(0));
    assert u.clients == [Client(Ended, Some(0.0), None)] && u.closer == t.closer && u.now == 700.0;
    ReopenedEnd(u);
  }

  lemma ReopenedLook(s: Router)
    requires s.now == 700.0 && s.clients == [Client(Running, Some(0.0), None)] && s.closer == Resting && s.kept == {}
    requires s.sends == map[0 := 0.0]
    ensures Look(s, 700.0, 1, 0) == s.(closer := Working(700.0, 1, Doomed(0, Some(0.0))))
  {
    assert s.clients[0 := s.clients[0]] == s.clients;
  }

  lemma ReopenedEnd(u: Router)
    requires u.now == 700.0 && u.clients == [Client(Ended, Some(0.0), None)] && u.closer == Working(700.0, 1, Down(0))
    ensures var r := Step(Step(u, PassClosed), Store("peer", [0]));
            CachedFor(r, "peer", 3600.0) == Some([0]) && 0 in r.cache["peer"].live && !GoingDown(r, 0) && HasEnded(r, 0)
  {
    hide Evict, EvictAll, Run;
    var v := Step(u, PassClosed);
    assert v.clients == [Client(Ended, None, None)] && v.closer == Resting;
    assert 0 in Live(v, [0]);
  }

  // ---- the idle window of a fresh client ---------------------------------------------------------

  /** Closed by no pass that runs within 600 s from now, if nothing else happens first. */
  ghost predicate FullWindow(r: Router, i: nat)
    requires i < |r.clients|
  {
    forall t: real :: r.now <= t < r.now + 600.0 ==> !Closes(r.(now := t), i)
  }

  /** A client that try_client has just opened gets a full idle window exactly if it was never
      sent over since its last close and none of its earlier connects failed (or one did at time
      zero), or it was sent over just now: the baseline is the last send, else the last failed
      connect, 1200 s or more ago, not the connect that succeeded. */
  lemma FreshWindowExactly(r: Router, i: nat)
    requires i < |r.clients| && i !in r.kept && !r.clients[i].Open() && Try(r.clients[i], r.now, true).Open()
    ensures var t, c := Step(r, TryClient(i, true)), r.clients[i];
            FullWindow(t, i) <==>
              if c.lastSend.None? then c.lastConnect.None? || c.lastConnect.value == 0.0 else c.lastSend.value >= r.now
  {
    var t, c := Step(r, TryClient(i, true)), r.clients[i];
    if c.lastSend.None? {
      if c.lastConnect.Some? && c.lastConnect.value != 0.0 { assert Closes(t.(now := t.now), i); }
    } else if c.lastSend.value < r.now {
      var late := if c.lastSend.value + IDLE_TIMEOUT <= r.now then r.now else c.lastSend.value + IDLE_TIMEOUT;
      assert Closes(t.(now := late), i);
    }
  }

  /** In particular a client that is opened the first time it is tried, as new brokers are. */
  lemma NewClientFullWindow(r: Router)
    requires |r.clients| !in r.kept
    ensures var t, i := Step(Step(r, EnsureClient), TryClient(|r.clients|, true)), |r.clients|;
            |t.clients| == i + 1 && t.clients[..i] == r.clients && t.clients[i].Open() && FullWindow(t, i)
  {
    FreshWindowExactly(Step(r, EnsureClient), |r.clients|);
    hide FullWindow;
  }

  /** After an old failed connect, or an old send, the first pass closes it, even at the very
      moment it was opened. */
  lemma RetriedClientClosedAtOnce(r: Router, i: nat)
    requires i < |r.clients| && i !in r.kept && !r.clients[i].Open() && Try(r.clients[i], r.now, true).Open()
    requires var c := r.clients[i];
             if c.lastSend.None? then c.lastConnect.Some? && c.lastConnect.value != 0.0
             else r.now - c.lastSend.value >= 600.0
    ensures var t := Step(r, TryClient(i, true));
            t.clients[i].Open() && !Pass(t, |t.clients|).clients[i].Open()
  {
    var t := Step(r, TryClient(i, true));
    PassClosesExactly(t, |t.clients|);
  }

  /** A run that does it: a failure at 5 s, a good connect at 1205 s, a pass. */
  lemma RetriedClientExample()
    ensures var before := [Start({}), EnsureClient, Tick(5.0)]
                          + [TryClient(0, false), Tick(1205.0), TryClient(0, true)];
            Run(FRESH, before + [PassBegin, PassDown]).closes == [Closed(0, 1205.0, None)]
  {
    hide *;
    var first := [Start({}), EnsureClient, Tick(5.0)];
    var next := [TryClient(0, false), Tick(1205.0), TryClient(0, true)];
    ShortRuns(FRESH, Start({}), EnsureClient, Tick(5.0));
    ShortRuns(Run(FRESH, first), TryClient(0, false), Tick(1205.0), TryClient(0, true));
    RunSplit(FRESH, first, next);
    RunSplit(FRESH, first + next, [PassBegin, PassDown]);
    ShortRuns(Run(FRESH, first + next), PassBegin, PassDown, PassDown);
    ExampleSteps();
  }

  lemma ExampleSteps()
    ensures var r := Step(Step(Step(FRESH, Start({})), EnsureClient), Tick(5.0));
            var t := Step(Step(Step(r, TryClient(0, false)), Tick(1205.0)), TryClient(0, true));
            Step(Step(t, PassBegin), PassDown).closes == [Closed(0, 1205.0, None)]
  {
    hide Evict, EvictAll, Live, FinishClose, Run;
    var r := Step(Step(Step(FRESH, Start({})), EnsureClient), Tick(5.0));
    assert r.clients == [NEW] && r.kept == {} && r.closer == Resting && r.now == 5.0;
    assert r.sends == map[] && r.closes == [];
    var t := Step(Step(Step(r, TryClient(0, false)), Tick(1205.0)), TryClient(0, true));
    assert t.clients == [Client(Fresh, None, Some(5.0))];
  }

  /** Another one: a send over the closed client at 0 s, a good connect at 700 s, a pass. */
  lemma StaleSendExample()
    ensures var before := [Start({}), EnsureClient, SendVia(0)];
            Run(FRESH, before + ([Tick(700.0), TryClient(0, true), PassBegin] + [PassDown])).closes
            == [Closed(0, 700.0, Some(0.0))]
  {
    hide *;
    var first, next := [Start({}), EnsureClient, SendVia(0)], [Tick(700.0), TryClient(0, true), PassBegin];
    RunSplit(FRESH, first, next + [PassDown]);
    RunSplit(Run(FRESH, first), next, [PassDown]);
    ShortRuns(FRESH, first[0], first[1], first[2]);
    ShortRuns(Run(FRESH, first), next[0], next[1], next[2]);
    ShortRuns(Run(Run(FRESH, first), next), PassDown, PassDown, PassDown);
    StaleSendSteps();
  }

  lemma StaleSendSteps()
    ensures var r := Step(Step(Step(FRESH, Start({})), EnsureClient), SendVia(0));
            Step(Step(Step(Step(r, Tick(700.0)), TryClient(0, true)), PassBegin), PassDown).closes
            == [Closed(0, 700.0, Some(0.0))]
  {
    hide Evict, EvictAll, Live, FinishClose, Run;
    var r := Step(Step(Step(FRESH, Start({})), EnsureClient), SendVia(0));
    assert r.clients == [Client(NoTask, Some(0.0), None)] && r.kept == {} && r.closer == Resting && r.now == 0.0;
    assert r.sends == map[0 := 0.0] && r.closes == [];
    var t := Step(Step(r, Tick(700.0)), TryClient(0, true));
    assert t.clients == [Client(Fresh, Some(0.0), None)];
  }

  // ---- the code --------------------------------------------------------------------------------

  class Table {
    var clients: seq<Client>
    var kept: set<nat>
    var cache: map<string, Entry>
    var closer: Closer
    var closes: seq<Closed>      // history
    var sends: map<nat, real>    // history

    function View(now: real): Router
      reads this
    {
      Router(now, clients, kept, cache, closer, closes, sends)
    }

    /** The loop of close_idle_clients from client `from` on, up to its next await. */
    method LookOn(start: real, size: nat, from: nat, now: real)
      requires closer.Resting?
      modifies this`clients, this`closer
      ensures View(now) == Look(old(View(now)), start, size, from)
    {
      if |clients| != size {
        closer := Dead;
        return;
      }
      var i := from;
      while i < |clients|
        invariant |clients| == size && closer.Resting?
        invariant Look(old(View(now)), start, size, from) == Look(View(now), start, size, i)
      {
        var c := clients[i];
        if i !in kept && c.Open() {
          var sent := SentOf(View(now), i);
          var lastActive := start;
          if c.lastSend.Some? {
            lastActive := c.lastSend.value;
            assert clients[i := c] == clients && c.(lastSend := Some(lastActive)) == c;
          } else {
            if c.lastConnect.Some? && c.lastConnect.value != 0.0 { lastActive := c.lastConnect.value; }
            clients := clients[i := c.(lastSend := Some(lastActive))];
          }
          if start - lastActive >= IDLE_TIMEOUT {
            closer := Working(start, size, Doomed(i, sent));
            return;
          }
        }
        i := i + 1;
      }
      closer := Resting;
    }

    /** Within client.close(): the dispatcher task has ended. */
    method DispatcherEnds(now: real)
      requires closer.Working? && closer.phase.Doomed? && closer.phase.client < |clients|
      modifies this
      ensures View(now) == Step(old(View(now)), PassDown)
    {
      var i, sent := closer.phase.client, closer.phase.sent;
      clients := clients[i := clients[i].(task := NoTask)];
      closes := closes + [Closed(i, now, sent)];
      closer := closer.(phase := Down(i));
    }

    /** Once client.close() has returned: the rest of the turn, and on to the next await. */
    method AfterClose(now: real)
      requires closer.Working? && closer.phase.Down? && closer.phase.client < |clients|
      modifies this
      ensures View(now) == Step(old(View(now)), PassClosed)
    {
      var i, start, size := closer.phase.client, closer.start, closer.size;
      clients := clients[i := clients[i].(lastSend := None)];
      EvictClientFromCache(i);
      closer := Resting;
      LookOn(start, size, i + 1, now);
    }

    /** close_idle_clients when no other task disturbs it. */
    method CloseIdleClients(now: real)
      requires closer.Resting?
      modifies this
      ensures View(now) == Pass(old(View(now)), |old(clients)|)
    {
      ghost var q, i := View(now), 0;
      PassForward(q, 0);
      LookOn(now, |clients|, 0, now);
      while closer.Working?
        invariant q.closer.Resting? && q.now == now && i <= |q.clients| == |old(clients)|
        invariant PassFrom(q, i) == Pass(old(View(now)), |old(clients)|)
        invariant View(now) == Look(q, now, |q.clients|, i)
        decreases |q.clients| - i
      {
        q, i := NextDoomed(q, i);
        OneClosing(q, i);
        LookShows(q, i);
        DispatcherEnds(now);
        AfterClose(now);
        q, i := PassOne(q, i), i + 1;
      }
      LookEnds(q, i);
    }

    /** try_client, its connect succeeding or not: refused only while a failure is recent. */
    method TryClient(i: nat, ok: bool, now: real) returns (usable: bool)
      requires i < |clients|
      modifies this`clients
      ensures View(now) == Step(old(View(now)), Event.TryClient(i, ok))
      ensures usable <==> clients[i].Open()
    {
      var c := clients[i];
      if !c.Open() {
        if c.lastConnect.Some? {
          if now - c.lastConnect.value < RETRY_AFTER {
            return false;
          }
        }
        if !ok {
          clients := clients[i := c.(lastConnect := Some(now))];
          return false;
        }
        clients := clients[i := c.(task := Fresh)];
      }
      usable := true;
    }

    /** The cache in pipe(use_cache): a young entry is handed out. Otherwise what discovery
        found is, and is stored; but an empty young entry is only looked past, not replaced. */
    method Pipe(key: string, expiry: real, found: seq<nat>, now: real) returns (handed: seq<nat>)
      modifies this`cache
      ensures match old(CachedFor(View(now), key, expiry))
              case Some(cs) => handed == (if cs != [] then cs else found) && cache == old(cache)
              case None => handed == found && View(now) == Step(old(View(now)), Store(key, found))
    {
      var cached: Option<seq<nat>> := None;
      if key in cache {
        if now - cache[key].updated < expiry {
          cached := Some(cache[key].clients);
        }
      }
      handed := if cached.Some? then cached.value else [];
      if handed == [] {
        handed := found;
      }
      if cached == None {
        cache := cache[key := Entry(now, handed, |closes|, Live(View(now), handed))];
      }
    }

    /** evict_client_from_cache: collect the stale keys, then delete them. */
    method EvictClientFromCache(client: nat)
      modifies this`cache
      ensures cache == Evict(old(cache), client)
    {
      var stale: seq<string> := [];
      var left := cache.Keys;
      while left != {}
        invariant left <= cache.Keys && cache == old(cache)
        invariant forall k :: k in stale <==> k in cache && k !in left && client in cache[k].clients
        decreases |left|
      {
        var k :| k in left;
        if client in cache[k].clients { stale := stale + [k]; }
        left := left - {k};
      }
      var j := 0;
      while j < |stale|
        invariant j <= |stale|
        invariant cache == map k | k in old(cache) && k !in stale[..j] :: old(cache)[k]
      {
        cache := cache - {stale[j]};
        j := j + 1;
      }
    }

    /** SmartPipe.close: the borrowed clients stay open, their cache entries go. */
    method ClosePipe(borrowed: seq<nat>, now: real)
      modifies this`cache
      ensures View(now) == Step(old(View(now)), Event.ClosePipe(borrowed))
    {
      var i := 0;
      while i < |borrowed|
        invariant i <= |borrowed|
        invariant cache == EvictAll(old(cache), borrowed[..i])
      {
        EvictClientFromCache(borrowed[i]);
        assert borrowed[..i + 1][..i] == borrowed[..i];
        i := i + 1;
      }
      assert borrowed[..i] == borrowed;
    }
  }
}
