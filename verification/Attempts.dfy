/** What a dispatcher's scans publish, and when, over whole runs of the system. */
module Attempts {
  import opened Basics
  import opened Messages
  import opened ClientOps
  import opened Delivery
  import opened Dispatch
  import opened Scan

  predicate Holds(s: Sys, c: Cid, kind: Kind, id: QueueId, n: nat) {
    c in s.clients && Has(s.clients[c].Of(kind), id, n)
  }

  function EntryAt(s: Sys, c: Cid, kind: Kind, id: QueueId, n: nat): Meta
    requires Holds(s, c, kind, id, n)
  {
    s.clients[c].Of(kind)[id][n]
  }

  /** Some jitter lets a scan that started at `now` publish the entry. */
  predicate Due(cfg: Config, m: Meta, now: real) { Eligible(cfg, m, now) && now >= m.updated }

  /** Jitter is never negative and at most the cap, and only this dispatcher publishes for its
      client. */
  ghost predicate OneDispatcher(x: Scene) {
    && (forall i :: 0.0 <= x.jitter(i) <= Cap(x.cfg))
    && (forall i, e :: e in x.others(i) ==> !(e.Republish? && e.c == x.c))
  }

  /** A publication by the scan's client, in `s`: of an entry that was due when the scan started. */
  ghost predicate MadeByScan(x: Scene, s: Sys, e: Event) {
    e.Republish? && e.c == x.c ==>
      && Holds(s, x.c, e.kind, e.id, e.seqNo) && e.now == x.Now()
      && Due(x.cfg, EntryAt(s, x.c, e.kind, e.id, e.seqNo), x.Now())
      && OutlastsJitter(x, EntryAt(s, x.c, e.kind, e.id, e.seqNo))
  }

  /** The wait since the last attempt outlasts some jitter the scan has drawn. */
  ghost predicate OutlastsJitter(x: Scene, m: Meta) { exists i: nat :: x.Now() - m.updated >= x.jitter(i) }

  ghost predicate ScanMade(x: Scene, events: seq<Event>) {
    forall k :: 0 <= k < |events| ==> MadeByScan(x, Run(x.s0, events[..k]), events[k])
  }

  lemma VisitMade(x: Scene, t: Trace, kind: Kind, id: QueueId, n: nat)
    requires OneDispatcher(x) && ScanMade(x, t.events)
    ensures ScanMade(x, Visit(x, t, kind, id, n).events)
  {
    var qs, v := Table(x, t, kind), Visit(x, t, kind, id, n);
    if v.events != t.events {
      var m := qs[id][n];
      assert x.jitter(t.visits) >= 0.0 && RepublishMeta(x.cfg, m, x.Now(), x.jitter(t.visits)).1;
      assert OutlastsJitter(x, m);
      hide Run, OutlastsJitter;
      var more := x.others(t.visits);
      assert v.events == t.events + [Republish(x.c, kind, id, n, x.Now())] + more;
      forall k | 0 <= k < |v.events| ensures MadeByScan(x, Run(x.s0, v.events[..k]), v.events[k]) {
        if k < |t.events| {
          assert v.events[..k] == t.events[..k] && v.events[k] == t.events[k];
        } else if k == |t.events| {
          assert v.events[..k] == t.events;
        } else {
          assert v.events[k] == more[k - |t.events| - 1] && more[k - |t.events| - 1] in more;
        }
      }
    }
  }

  lemma {:induction false} QueueMade(x: Scene, t: Trace, kind: Kind, id: QueueId, ns: seq<nat>)
    requires OneDispatcher(x) && ScanMade(x, t.events)
    ensures ScanMade(x, VisitQueue(x, t, kind, id, ns).events)
    decreases |ns|
  {
    hide ScanMade, Visit, OneDispatcher;
    if ns != [] && t.end.Going? {
      VisitMade(x, t, kind, id, ns[0]);
      QueueMade(x, Visit(x, t, kind, id, ns[0]), kind, id, ns[1..]);
    }
  }

  lemma {:induction false} TurnsMade(x: Scene, t: Trace, kind: Kind, ids: seq<QueueId>, listed: nat)
    requires OneDispatcher(x) && ScanMade(x, t.events)
    ensures ScanMade(x, Turns(x, t, kind, ids, listed).events)
    decreases |ids|
  {
    hide ScanMade, VisitQueue, OneDispatcher, Run;
    if ids != [] && t.end.Going? {
      var u, qs := t.(lookups := t.lookups + [Lookup(kind, ids[0], listed, |t.events|)]), Table(x, t, kind);
      if ids[0] in qs { QueueMade(x, u, kind, ids[0], Sorted(qs[ids[0]].Keys)); }
      TurnsMade(x, Turn(x, t, kind, ids[0], listed), kind, ids[1..], listed);
    }
  }

  /** All a scan publishes is due when it starts, and is still queued when it is published. */
  lemma {:induction false} ScanPublishesDue(x: Scene, t: Trace, kinds: seq<Kind>)
    requires OneDispatcher(x) && ScanMade(x, t.events)
    ensures ScanMade(x, ScanKinds(x, t, kinds).events)
    decreases |kinds|
  {
    hide ScanMade, Turns, OneDispatcher, Run;
    if kinds != [] && t.end.Going? {
      var ids := x.order(Table(x, t, kinds[0]).Keys);
      TurnsMade(x, t, kinds[0], ids, |t.events|);
      ScanPublishesDue(x, Turns(x, t, kinds[0], ids, |t.events|), kinds[1..]);
    }
  }

  /** Publications of the scan's client among these events: of this queue, in ascending order. */
  ghost predicate Ascending(x: Scene, es: seq<Event>, kind: Kind, id: QueueId, least: nat) {
    && (forall i :: 0 <= i < |es| && es[i].Republish? && es[i].c == x.c ==>
          es[i].kind == kind && es[i].id == id && es[i].seqNo >= least)
    && (forall i, j :: 0 <= i < j < |es| && es[i].Republish? && es[i].c == x.c && es[j].Republish? && es[j].c == x.c ==>
          es[i].seqNo < es[j].seqNo)
  }

  /** At most the first of these events publishes for the scan's client: this entry. */
  ghost predicate OneFirst(x: Scene, es: seq<Event>, kind: Kind, id: QueueId, n: nat) {
    forall i :: 0 <= i < |es| && es[i].Republish? && es[i].c == x.c ==>
                  i == 0 && es[i].kind == kind && es[i].id == id && es[i].seqNo == n
  }

  lemma AscendingJoins(x: Scene, a: seq<Event>, b: seq<Event>, kind: Kind, id: QueueId, n: nat)
    requires OneFirst(x, a, kind, id, n) && Ascending(x, b, kind, id, n + 1)
    ensures Ascending(x, a + b, kind, id, n)
  {
  }

  lemma VisitAdds(x: Scene, t: Trace, kind: Kind, id: QueueId, n: nat) returns (first: seq<Event>)
    requires OneDispatcher(x)
    ensures Visit(x, t, kind, id, n).events == t.events + first && OneFirst(x, first, kind, id, n)
  {
    var others := x.others(t.visits);
    assert forall e :: e in others ==> !(e.Republish? && e.c == x.c);
    hide Run, RepublishMeta, OneDispatcher;
    first := if Visit(x, t, kind, id, n).events == t.events then []
             else [Republish(x.c, kind, id, n, x.Now())] + others;
    assert forall i :: 0 < i < |first| ==> first[i] == others[i - 1] && others[i - 1] in others;
  }

  lemma Sooner(x: Scene, es: seq<Event>, kind: Kind, id: QueueId, least: nat, less: nat)
    requires Ascending(x, es, kind, id, least) && less <= least
    ensures Ascending(x, es, kind, id, less)
  {
  }

  lemma {:induction false} QueueAscends(x: Scene, t: Trace, kind: Kind, id: QueueId, ns: seq<nat>, least: nat)
    returns (more: seq<Event>)
    requires OneDispatcher(x) && (forall i, j :: 0 <= i < j < |ns| ==> ns[i] < ns[j]) && (ns != [] ==> least <= ns[0])
    ensures VisitQueue(x, t, kind, id, ns).events == t.events + more && Ascending(x, more, kind, id, least)
    decreases |ns|
  {
    hide Visit, OneDispatcher, OneFirst;
    more := [];
    if ns != [] && t.end.Going? {
      var first := VisitAdds(x, t, kind, id, ns[0]);
      var u := Visit(x, t, kind, id, ns[0]);
      var rest := QueueAscends(x, u, kind, id, ns[1..], ns[0] + 1);
      AscendingJoins(x, first, rest, kind, id, ns[0]);
      Sooner(x, first + rest, kind, id, ns[0], least);
      hide Ascending;
      more := first + rest;
      assert t.events + first + rest == t.events + more;
    }
  }

  /** What a scan publishes of one queue in its turn, it publishes in the order of the numbers. */
  lemma TurnAscends(x: Scene, t: Trace, kind: Kind, id: QueueId, listed: nat) returns (more: seq<Event>)
    requires OneDispatcher(x)
    ensures Turn(x, t, kind, id, listed).events == t.events + more && Ascending(x, more, kind, id, 0)
  {
    var u, qs := t.(lookups := t.lookups + [Lookup(kind, id, listed, |t.events|)]), Table(x, t, kind);
    more := [];
    if id in qs { more := QueueAscends(x, u, kind, id, Sorted(qs[id].Keys), 0); }
    hide Run, VisitQueue, OneDispatcher;
  }

  /** The clock has reached a moment exactly if some tick has. */
  lemma {:induction false} ClockReaches(s: Sys, events: seq<Event>, y: real)
    requires s.clock < y
    ensures Run(s, events).clock >= y <==> exists j :: 0 <= j < |events| && events[j].Tick? && events[j].now >= y
  {
    if events != [] {
      var init, e := events[..|events| - 1], events[|events| - 1];
      ClockReaches(s, init, y);
      StepClock(Run(s, init), e);
      hide Step;
      assert forall j :: 0 <= j < |init| ==> init[j] == events[j];
    }
  }

  lemma StepClock(s: Sys, e: Event)
    ensures Step(s, e).clock == if e.Tick? && e.now >= s.clock then e.now else s.clock
  {
    hide BeginSend, FinishSend, OrderedSend, Arrive, OnAck, OnProbe, SendProbe, Dequeue, Touch, Fresh;
  }

  /** What a scan publishes is published at or after created + duration exactly if the clock went
      that far while the scan was suspended before: the duration is checked at its start. */
  lemma LateExactly(x: Scene, k: nat)
    requires OneDispatcher(x)
    requires var es := ScanKinds(x, START, KINDS).events; k < |es| && es[k].Republish? && es[k].c == x.c
    ensures var es := ScanKinds(x, START, KINDS).events;
            var s := Run(x.s0, es[..k]);
            && Holds(s, x.c, es[k].kind, es[k].id, es[k].seqNo)
            && var over := EntryAt(s, x.c, es[k].kind, es[k].id, es[k].seqNo).created + x.cfg.duration as real;
               && x.Now() < over
               && (s.clock >= over <==> exists j :: 0 <= j < k && es[j].Tick? && es[j].now >= over)
  {
    var es := ScanKinds(x, START, KINDS).events;
    var s := Run(x.s0, es[..k]);
    ScanPublishesDue(x, START, KINDS);
    hide ScanKinds, Run, OneDispatcher;
    assert MadeByScan(x, s, es[k]);
    var over := EntryAt(s, x.c, es[k].kind, es[k].id, es[k].seqNo).created + x.cfg.duration as real;
    ClockReaches(x.s0, es[..k], over);
    assert forall j :: 0 <= j < k ==> es[..k][j] == es[j];
  }

  // ---- the scans of a run -----------------------------------------------------------------------------

  /** No more than `hold` after the start of the scan, the last of its publications is made. */
  ghost predicate Brief(x: Scene, hold: real) {
    var es := ScanKinds(x, START, KINDS).events;
    forall k :: 0 <= k < |es| && es[k].Republish? && es[k].c == x.c ==> Run(x.s0, es[..k]).clock <= x.Now() + hold
  }

  /** A stretch of a run: a scan with all that happens during it, or what happens between scans. */
  datatype Stretch = Scanning(x: Scene) | Between(events: seq<Event>)

  function EventsOf(p: Stretch): seq<Event> {
    match p
    case Scanning(x) => ScanKinds(x, START, KINDS).events
    case Between(events) => events
  }

  function Flat(parts: seq<Stretch>): seq<Event> {
    if parts == [] then [] else Flat(parts[..|parts| - 1]) + EventsOf(parts[|parts| - 1])
  }

  ghost predicate StretchOk(s: Sys, p: Stretch, c: Cid, cfg: Config, hold: real) {
    match p
    case Scanning(x) => x.s0 == s && x.c == c && x.cfg == cfg && OneDispatcher(x) && Brief(x, hold)
    case Between(events) => forall e :: e in events ==> !(e.Republish? && e.c == c)
  }

  /** The dispatcher of `c` makes its scans one after the other, and only it publishes for `c`. */
  ghost predicate Dispatched(s: Sys, parts: seq<Stretch>, c: Cid, cfg: Config, hold: real) {
    parts != [] ==>
      && Dispatched(s, parts[..|parts| - 1], c, cfg, hold)
      && StretchOk(Run(s, Flat(parts[..|parts| - 1])), parts[|parts| - 1], c, cfg, hold)
  }

  predicate DueAt(s: Sys, e: Event, c: Cid, cfg: Config, hold: real) {
    e.Republish? && e.c == c && c in s.clients && Has(s.clients[c].Of(e.kind), e.id, e.seqNo) ==>
      && Due(cfg, s.clients[c].Of(e.kind)[e.id][e.seqNo], e.now)
      && e.now <= s.clock <= e.now + hold
  }

  /** Client `c` publishes only what its dispatcher lets through, soon after the scan's start. */
  ghost predicate Scheduled(s: Sys, events: seq<Event>, c: Cid, cfg: Config, hold: real) {
    forall k :: 0 <= k < |events| ==> DueAt(Run(s, events[..k]), events[k], c, cfg, hold)
  }

  lemma {:induction false} ClockAscends(s: Sys, events: seq<Event>)
    ensures Run(s, events).clock >= s.clock
  {
    if events != [] {
      ClockAscends(s, events[..|events| - 1]);
      StepClock(Run(s, events[..|events| - 1]), events[|events| - 1]);
      hide Step;
    }
  }

  lemma StretchScheduled(s: Sys, p: Stretch, c: Cid, cfg: Config, hold: real)
    requires StretchOk(s, p, c, cfg, hold)
    ensures Scheduled(s, EventsOf(p), c, cfg, hold)
  {
    hide Run, ScanKinds, OneDispatcher, Due;
    var es := EventsOf(p);
    if p.Scanning? { ScanPublishesDue(p.x, START, KINDS); }
    forall k | 0 <= k < |es| ensures DueAt(Run(s, es[..k]), es[k], c, cfg, hold) {
      ClockAscends(s, es[..k]);
      if p.Scanning? {
        assert MadeByScan(p.x, Run(s, es[..k]), es[k]);
      } else {
        assert es[k] in es;
      }
    }
  }

  lemma JoinAt(a: seq<Event>, b: seq<Event>, k: nat)
    requires k < |a + b|
    ensures k < |a| ==> (a + b)[..k] == a[..k] && (a + b)[k] == a[k]
    ensures k >= |a| ==> (a + b)[..k] == a + b[..k - |a|] && (a + b)[k] == b[k - |a|]
  {
  }

  lemma ScheduledJoins(s: Sys, a: seq<Event>, b: seq<Event>, c: Cid, cfg: Config, hold: real)
    requires Scheduled(s, a, c, cfg, hold) && Scheduled(Run(s, a), b, c, cfg, hold)
    ensures Scheduled(s, a + b, c, cfg, hold)
  {
    hide DueAt, Run;
    var all := a + b;
    forall k | 0 <= k < |all| ensures DueAt(Run(s, all[..k]), all[k], c, cfg, hold) {
      JoinAt(a, b, k);
      if k >= |a| { Reaches(s, a, b[..k - |a|]); }
    }
  }

  /** So the runs of a dispatcher are runs in which its client publishes only entries that are due. */
  lemma {:induction false} DispatchedIsScheduled(s: Sys, parts: seq<Stretch>, c: Cid, cfg: Config, hold: real)
    requires Dispatched(s, parts, c, cfg, hold)
    ensures Scheduled(s, Flat(parts), c, cfg, hold)
  {
    hide Scheduled, StretchOk, EventsOf;
    if parts == [] {
      NothingScheduled(s, c, cfg, hold);
    } else {
      var prior, last := parts[..|parts| - 1], parts[|parts| - 1];
      DispatchedIsScheduled(s, prior, c, cfg, hold);
      StretchScheduled(Run(s, Flat(prior)), last, c, cfg, hold);
      ScheduledJoins(s, Flat(prior), EventsOf(last), c, cfg, hold);
    }
  }

  lemma NothingScheduled(s: Sys, c: Cid, cfg: Config, hold: real)
    ensures Scheduled(s, [], c, cfg, hold)
  {
  }

  /** The labels of the entry's publications: when each of the scans started that made them. */
  function Times(events: seq<Event>, c: Cid, kind: Kind, id: QueueId, n: nat): seq<real> {
    if events == [] then []
    else
      var e := events[|events| - 1];
      Times(events[..|events| - 1], c, kind, id, n)
      + if e.Republish? && e.c == c && e.kind == kind && e.id == id && e.seqNo == n then [e.now] else []
  }

  /** What one step can do to an entry it leaves in place: publish it, or settle its future. */
  predicate EntryMoves(m: Meta, k: Meta, e: Event, c: Cid, kind: Kind, id: QueueId, n: nat) {
    if e.Republish? && e.c == c && e.kind == kind && e.id == id && e.seqNo == n
    then k == if m.oneShot then m else Attempted(m, e.now)
    else k == m.(ack := k.ack) && (m.ack != Pending ==> k == m)
  }

  lemma EntryStep(s: Sys, e: Event, c: Cid, kind: Kind, id: QueueId, n: nat)
    requires ChainInv(s) && Holds(s, c, kind, id, n) && Holds(Step(s, e), c, kind, id, n) && !kind.PROBE?
    ensures EntryMoves(EntryAt(s, c, kind, id, n), EntryAt(Step(s, e), c, kind, id, n), e, c, kind, id, n)
  {
    StepClient(s, e, c);
    hide Step, OrderedSend, BeginSend, FinishSend, NextSeq, Fresh, Arrive, OnAck, OnProbe, SendProbe, Dequeue, Touch,
      ChainInv, ClientAfter;
    match e
    case Deliver(d, w) => EntryDelivered(s, d, w, c, kind, id, n);
    case Resume(i) => EntryResumed(s, i, c, kind, id, n);
    case Send(d, msg, dest, i, at) => EntryQueued(s, e, c, kind, id, n);
    case Probe(d, dest, i) => EntryQueued(s, e, c, kind, id, n);
    case Republish(d, k, i, j, t) => EntryQueued(s, e, c, kind, id, n);
    case Dequeued(d, k, i, which) => EntryQueued(s, e, c, kind, id, n);
    case _ => EntryAlone(s, e, c, kind, id, n);
  }

  lemma EntryDelivered(s: Sys, d: Cid, w: Wire, c: Cid, kind: Kind, id: QueueId, n: nat)
    requires Holds(s, c, kind, id, n) && Has(ClientAfter(s, Deliver(d, w), c).Of(kind), id, n)
    ensures EntryMoves(EntryAt(s, c, kind, id, n), ClientAfter(s, Deliver(d, w), c).Of(kind)[id][n], Deliver(d, w), c,
                       kind, id, n)
  {
    hide Arrive, OnAck, OnProbe, TooOld;
    EntryAck(s.clients[c], w.pkt, kind, id, n);
    EntryQueues(s.clients[c], c.node, s.clock, w.pkt, kind, id, n);
  }

  lemma EntryResumed(s: Sys, i: nat, c: Cid, kind: Kind, id: QueueId, n: nat)
    requires ChainInv(s) && Holds(s, c, kind, id, n) && Has(ClientAfter(s, Resume(i), c).Of(kind), id, n)
    ensures EntryMoves(EntryAt(s, c, kind, id, n), ClientAfter(s, Resume(i), c).Of(kind)[id][n], Resume(i), c,
                       kind, id, n)
  {
    if i < |s.tasks| && (s.tasks[i].Handling? || s.tasks[i].Signing?) {
      TaskIn(s, i);
      hide BeginSend, FinishSend, ChainInv;
      var out := if s.tasks[i].Signing? then s.tasks[i].out else s.tasks[i].pkt;
      EntryTask(s.clients[c], c.node, s.clock, s.tasks[i].pkt, out, kind, id, n);
    }
  }

  lemma EntryQueued(s: Sys, e: Event, c: Cid, kind: Kind, id: QueueId, n: nat)
    requires Holds(s, c, kind, id, n) && Has(ClientAfter(s, e, c).Of(kind), id, n) && !kind.PROBE?
    requires e.Send? || e.Probe? || e.Republish? || e.Dequeued?
    ensures EntryMoves(EntryAt(s, c, kind, id, n), ClientAfter(s, e, c).Of(kind)[id][n], e, c, kind, id, n)
  {
    hide OrderedSend, SendProbe, Dequeue, Touch;
    var client, now := s.clients[c], s.clock;
    match e
    case Send(d, msg, dest, i, at) =>
      if d == c && ValidIds(i, dest) { SendEffect(client, c.node, now, msg, dest, i, at); }
    case Probe(d, dest, i) => EntryOther(client, c.node, now, kind, i, 0, dest, None, kind, id, n);
    case Republish(d, k, i, j, t) => EntryOther(client, c.node, t, k, i, j, c.node, None, kind, id, n);
    case Dequeued(d, k, i, which) => EntryOther(client, c.node, now, k, i, 0, c.node, which, kind, id, n);
  }

  lemma EntryAlone(s: Sys, e: Event, c: Cid, kind: Kind, id: QueueId, n: nat)
    requires Holds(s, c, kind, id, n) && Has(ClientAfter(s, e, c).Of(kind), id, n)
    requires e.Tick? || e.Leftover? || e.Prune? || e.Reset?
    ensures EntryMoves(EntryAt(s, c, kind, id, n), ClientAfter(s, e, c).Of(kind)[id][n], e, c, kind, id, n)
  {
    hide Fresh;
  }

  lemma EntryTask(client: Client, self: Key, now: real, p: Packet, out: Packet, kind: Kind, id: QueueId, n: nat)
    requires Has(client.Of(kind), id, n)
    ensures var b := BeginSend(client, self, now, ACK_TEXT, p.src, p.queueId, MSGACK, Some(p.seqNo));
            ValidIds(p.queueId, p.src) ==>
              b.Queued? && Has(b.client.Of(kind), id, n) && b.client.Of(kind)[id][n] == client.Of(kind)[id][n]
    ensures var f := FinishSend(client, now, p.src, out);
            Has(f.Of(kind), id, n) && f.Of(kind)[id][n] == client.Of(kind)[id][n]
  {
  }

  lemma EntryOther(client: Client, self: Key, now: real, k: Kind, i: QueueId, j: nat, dest: Key, which: Option<nat>,
                   kind: Kind, id: QueueId, n: nat)
    requires Has(client.Of(kind), id, n)
    ensures Has(client.Of(k), i, j) ==>
              var t := Touch(client, k, i, j, now);
              && Has(t.Of(kind), id, n)
              && t.Of(kind)[id][n] == (if k == kind && i == id && j == n then Attempted(client.Of(kind)[id][n], now)
                   else client.Of(kind)[id][n])
    ensures var d := Dequeue(client, k, i, which);
            Has(d.Of(kind), id, n) ==>
              var m, m' := client.Of(kind)[id][n], d.Of(kind)[id][n];
                m' == m.(ack := m'.ack) && (m.ack != Pending ==> m' == m)
    ensures var r := SendProbe(client, self, now, dest, i);
            ValidIds(i, dest) && !kind.PROBE? ==>
              r.Queued? && Has(r.client.Of(kind), id, n) && r.client.Of(kind)[id][n] == client.Of(kind)[id][n]
  {
  }

  lemma EntryAck(client: Client, p: Packet, kind: Kind, id: QueueId, n: nat)
    requires Has(client.Of(kind), id, n)
    ensures Has(OnAck(client, p).Of(kind), id, n) ==>
              var m, k := client.Of(kind)[id][n], OnAck(client, p).Of(kind)[id][n];
              k == m.(ack := k.ack) && (m.ack != Pending ==> k == m)
  {
  }

  lemma EntryQueues(client: Client, self: Key, now: real, p: Packet, kind: Kind, id: QueueId, n: nat)
    requires Has(client.Of(kind), id, n)
    ensures Has(Arrive(client, p).0.Of(kind), id, n) ==> Arrive(client, p).0.Of(kind)[id][n] == client.Of(kind)[id][n]
    ensures var k := OnProbe(client, self, now, p).0;
              Has(k.Of(kind), id, n) && k.Of(kind)[id][n] == client.Of(kind)[id][n]
  {
  }

  ghost predicate Stays(s: Sys, events: seq<Event>, c: Cid, kind: Kind, id: QueueId, n: nat) {
    forall k :: 0 <= k <= |events| ==> Holds(Run(s, events[..k]), c, kind, id, n)
  }

  /** As long as an entry stays, it lives the life that the dispatcher's rule describes. */
  lemma {:induction false} LifeInRun(init: Sys, pre: seq<Event>, s: Sys, events: seq<Event>,
                                     c: Cid, cfg: Config, hold: real, kind: Kind, id: QueueId, n: nat)
    returns (life: seq<LifeEvent>)
    requires Initial(init) && s == Run(init, pre) && !kind.PROBE?
    requires Stays(s, events, c, kind, id, n) && Scheduled(s, events, c, cfg, hold)
    ensures Holds(s, c, kind, id, n) && Holds(Run(s, events), c, kind, id, n)
    ensures LifeAfter(cfg, EntryAt(s, c, kind, id, n), life)
            == Life(EntryAt(Run(s, events), c, kind, id, n), Times(events, c, kind, id, n))
    decreases |events|
  {
    hide *;
    StaysEnds(s, events, c, kind, id, n);
    life := [];
    if events == [] {
      NoLife(s, c, cfg, kind, id, n);
    } else {
      var prior, e := events[..|events| - 1], events[|events| - 1];
      Prefixes(s, events, c, cfg, hold, kind, id, n);
      life := LifeInRun(init, pre, s, prior, c, cfg, hold, kind, id, n);
      Reaches(init, pre, prior);
      RunKeepsChain(init, pre + prior);
      var t := Run(s, prior);
      RunLast(s, events);
      var next := LifeOfStep(t, e, c, cfg, hold, kind, id, n);
      Unfolded(events, cfg, EntryAt(s, c, kind, id, n), life, next, c, kind, id, n);
      LifeSent(cfg, EntryAt(t, c, kind, id, n), Times(prior, c, kind, id, n), next);
      life := life + [next];
    }
  }

  lemma RunLast(s: Sys, events: seq<Event>)
    requires events != []
    ensures Run(s, events) == Step(Run(s, events[..|events| - 1]), events[|events| - 1])
  {
    hide Step;
  }

  lemma NoLife(s: Sys, c: Cid, cfg: Config, kind: Kind, id: QueueId, n: nat)
    requires Holds(s, c, kind, id, n)
    ensures Run(s, []) == s && LifeAfter(cfg, EntryAt(s, c, kind, id, n), []) == Life(EntryAt(s, c, kind, id, n), [])
    ensures Times([], c, kind, id, n) == []
  {
  }

  lemma Unfolded(events: seq<Event>, cfg: Config, m: Meta, life: seq<LifeEvent>, next: LifeEvent,
                 c: Cid, kind: Kind, id: QueueId, n: nat)
    requires events != []
    ensures var prior, e := events[..|events| - 1], events[|events| - 1];
            && Times(events, c, kind, id, n) == Times(prior, c, kind, id, n) + Times([e], c, kind, id, n)
            && LifeAfter(cfg, m, life + [next]) == LifeStep(cfg, LifeAfter(cfg, m, life), next)
  {
    hide Step, LifeStep;
    var e, none: seq<Event> := events[|events| - 1], [];
    assert [e][..0] == none && Times(none, c, kind, id, n) == [];
    assert (life + [next])[..|life|] == life;
  }

  lemma StaysEnds(s: Sys, events: seq<Event>, c: Cid, kind: Kind, id: QueueId, n: nat)
    requires Stays(s, events, c, kind, id, n)
    ensures Holds(s, c, kind, id, n) && Holds(Run(s, events), c, kind, id, n)
  {
    hide Step;
    assert events[..|events|] == events && events[..0] == [];
    assert Holds(Run(s, events[..0]), c, kind, id, n) && Holds(Run(s, events[..|events|]), c, kind, id, n);
  }

  lemma Prefixes(s: Sys, events: seq<Event>, c: Cid, cfg: Config, hold: real, kind: Kind, id: QueueId, n: nat)
    requires events != [] && Stays(s, events, c, kind, id, n) && Scheduled(s, events, c, cfg, hold)
    ensures var prior := events[..|events| - 1];
            && Stays(s, prior, c, kind, id, n) && Scheduled(s, prior, c, cfg, hold)
            && DueAt(Run(s, prior), events[|events| - 1], c, cfg, hold) && Holds(Run(s, prior), c, kind, id, n)
  {
    hide Step, Run, DueAt, Holds;
    var prior := events[..|events| - 1];
    assert forall k :: 0 <= k <= |prior| ==> prior[..k] == events[..k];
    assert forall k :: 0 <= k < |prior| ==> prior[k] == events[k];
  }

  /** One step of the system as a step of the entry's life. */
  lemma LifeOfStep(s: Sys, e: Event, c: Cid, cfg: Config, hold: real, kind: Kind, id: QueueId, n: nat)
    returns (next: LifeEvent)
    requires ChainInv(s) && Holds(s, c, kind, id, n) && Holds(Step(s, e), c, kind, id, n) && !kind.PROBE?
    requires DueAt(s, e, c, cfg, hold)
    ensures LifeStep(cfg, Life(EntryAt(s, c, kind, id, n), []), next)
            == Life(EntryAt(Step(s, e), c, kind, id, n), Times([e], c, kind, id, n))
  {
    EntryStep(s, e, c, kind, id, n);
    hide ChainInv, Step, Cap, Pow2;
    var none: seq<Event> := [];
    assert [e][..0] == none && Times(none, c, kind, id, n) == [];
    next := if e.Republish? && e.c == c && e.kind == kind && e.id == id && e.seqNo == n then Visited(e.now, 0.0)
            else Settled(EntryAt(Step(s, e), c, kind, id, n).ack);
  }

  lemma LifeSent(cfg: Config, m: Meta, sent: seq<real>, next: LifeEvent)
    ensures LifeStep(cfg, Life(m, sent), next)
            == var l := LifeStep(cfg, Life(m, []), next); Life(l.m, sent + l.sent)
  {
    assert sent + [] == sent;
  }

  /** The clock at each of those publications. */
  function Clocks(s: Sys, events: seq<Event>, c: Cid, kind: Kind, id: QueueId, n: nat): seq<real> {
    if events == [] then []
    else
      var prior, e := events[..|events| - 1], events[|events| - 1];
      Clocks(s, prior, c, kind, id, n)
      + if e.Republish? && e.c == c && e.kind == kind && e.id == id && e.seqNo == n then [Run(s, prior).clock] else []
  }

  lemma LabelNear(s: Sys, e: Event, cfg: Config, hold: real)
    requires e.Republish? && Holds(s, e.c, e.kind, e.id, e.seqNo) && DueAt(s, e, e.c, cfg, hold)
    ensures e.now <= s.clock <= e.now + hold
  {
  }

  lemma {:induction false} ClocksFollowTimes(s: Sys, events: seq<Event>, c: Cid, cfg: Config, hold: real,
                                             kind: Kind, id: QueueId, n: nat)
    requires Stays(s, events, c, kind, id, n) && Scheduled(s, events, c, cfg, hold)
    ensures var ts, cs := Times(events, c, kind, id, n), Clocks(s, events, c, kind, id, n);
            |cs| == |ts| && forall i :: 0 <= i < |ts| ==> ts[i] <= cs[i] <= ts[i] + hold
  {
    if events != [] {
      var prior, e := events[..|events| - 1], events[|events| - 1];
      Prefixes(s, events, c, cfg, hold, kind, id, n);
      hide Stays, Scheduled, Run, Due, Holds;
      ClocksFollowTimes(s, prior, c, cfg, hold, kind, id, n);
      if e.Republish? && e.c == c && e.kind == kind && e.id == id && e.seqNo == n {
        LabelNear(Run(s, prior), e, cfg, hold);
      }
    }
  }

  /** In every run in which the dispatcher makes its scans one after the other, each done with
      publishing within `hold` of its start: as long as a message or ack stays queued, every scan
      that publishes it started before created + duration, so it is published before
      created + duration + hold; `attempts` counts how often, `updated` is the last start, and
      the packet never changes. */
  lemma AttemptsInRun(init: Sys, pre: seq<Event>, parts: seq<Stretch>, c: Cid, cfg: Config, hold: real,
                      kind: Kind, id: QueueId, n: nat)
    requires Initial(init) && !kind.PROBE?
    requires Dispatched(Run(init, pre), parts, c, cfg, hold) && Stays(Run(init, pre), Flat(parts), c, kind, id, n)
    ensures var s, es := Run(init, pre), Flat(parts);
            && Holds(s, c, kind, id, n) && Holds(Run(s, es), c, kind, id, n)
            && var m, k := EntryAt(s, c, kind, id, n), EntryAt(Run(s, es), c, kind, id, n);
               var ts, cs := Times(es, c, kind, id, n), Clocks(s, es, c, kind, id, n);
               && |cs| == |ts|
               && (forall i :: 0 <= i < |ts| ==>
                     && ts[i] <= cs[i] <= ts[i] + hold
                     && ts[i] - m.created < cfg.duration as real
                     && cs[i] - m.created < cfg.duration as real + hold)
               && k.attempts == m.attempts + |ts| && k.out == m.out && k.dest == m.dest && k.created == m.created
               && k.updated == (if ts == [] then m.updated else ts[|ts| - 1]) && (m.oneShot ==> ts == [])
               && (cfg.ignoreAcked && m.ack != Pending ==> ts == [])
  {
    var s, es := Run(init, pre), Flat(parts);
    DispatchedIsScheduled(s, parts, c, cfg, hold);
    hide Dispatched, Flat;
    var life := LifeInRun(init, pre, s, es, c, cfg, hold, kind, id, n);
    ClocksFollowTimes(s, es, c, cfg, hold, kind, id, n);
    hide Run, Stays, Scheduled, Times, Clocks;
    RetransmissionDiscipline(cfg, EntryAt(s, c, kind, id, n), life);
  }

  // ---- how late a publication can be ------------------------------------------------------------------

  /** The k-th event of this scan, which a run leads to, publishes an entry created at `created`
      when the clock shows `y`. */
  ghost predicate PublishedAt(init: Sys, pre: seq<Event>, x: Scene, k: nat, cfg: Config, hold: real, created: real,
                              y: real)
  {
    var es := ScanKinds(x, START, KINDS).events;
    && Reachable(init, pre, x) && init.r == cfg.duration && x.cfg == cfg
    && Lists(x) && OneDispatcher(x) && Brief(x, hold)
    && k < |es| && es[k].Republish? && es[k].c == x.c
    && var s := Run(x.s0, es[..k]);
       && s.clock == y && Holds(s, x.c, es[k].kind, es[k].id, es[k].seqNo)
       && EntryAt(s, x.c, es[k].kind, es[k].id, es[k].seqNo).created == created
  }

  /** An entry can be published exactly until created + duration + hold: the duration is checked
      with the time at which the scan started, and the scan may be held up after that. */
  lemma PublicationExactly(cfg: Config, hold: real, created: real, y: real)
    requires cfg.duration > 0 && hold >= 0.0 && 0.0 <= created <= y
    ensures (exists init, pre, x, k :: PublishedAt(init, pre, x, k, cfg, hold, created, y))
            <==> y < created + cfg.duration as real + hold
  {
    forall init, pre, x, k | PublishedAt(init, pre, x, k, cfg, hold, created, y)
      ensures y < created + cfg.duration as real + hold
    {
      PublicationBound(init, pre, x, k, cfg, hold, created, y);
    }
    if y < created + cfg.duration as real + hold {
      var init, pre, x := HeldUp(cfg, hold, created, y);
      hide PublishedAt;
    }
  }

  lemma PublicationBound(init: Sys, pre: seq<Event>, x: Scene, k: nat, cfg: Config, hold: real, created: real, y: real)
    requires PublishedAt(init, pre, x, k, cfg, hold, created, y)
    ensures y < created + cfg.duration as real + hold
  {
    LateExactly(x, k);
    hide ScanKinds, Run, Lists, OneDispatcher, Reachable;
  }

  ghost function Listing(ids: set<QueueId>): (r: seq<QueueId>)
    ensures forall id :: id in r <==> id in ids
    decreases |ids|
  {
    if ids == {} then [] else
    var id :| id in ids;
    [id] + Listing(ids - {id})
  }

  /** An entry as it is queued, not yet published. */
  function Unsent(self: Key, dest: Key, id: QueueId, created: real): Meta {
    Meta(Pending, dest, 0, Packet(self, id, 0, created.Floor, MSG, []), 0.0, created, 0, false)
  }

  function Idle(r: nat, c: Cid): Sys { Sys(r, 0.0, map[c := EMPTY], map[], {}, [], [], {}) }

  /** Two messages queued at `created`, one queue each, when the clock shows `now`. */
  predicate TwoQueued(s: Sys, c: Cid, dest: Key, a: QueueId, b: QueueId, created: real, now: real) {
    && c in s.clients && s.clock == now
    && s.clients[c].msgs == map[a := map[0 := Unsent(c.node, dest, a, created)],
                                b := map[0 := Unsent(c.node, dest, b, created)]]
    && s.clients[c].acks == map[] && s.clients[c].probes == map[]
  }

  lemma QueueTwo(r: nat, c: Cid, dest: Key, a: QueueId, b: QueueId, created: real, now: real)
    returns (pre: seq<Event>)
    requires 0.0 <= created <= now && ValidIds(a, dest) && ValidIds(b, dest) && a != b
    ensures Initial(Idle(r, c)) && TwoQueued(Run(Idle(r, c), pre), c, dest, a, b, created, now)
  {
    var s0 := Idle(r, c);
    var s1 := Step(s0, Tick(created));
    var s2 := Step(s1, Send(c, [], dest, a, Some(0)));
    assert s2.clients[c].msgs == map[a := map[0 := Unsent(c.node, dest, a, created)]];
    var s3 := Step(s2, Send(c, [], dest, b, Some(0)));
    assert TwoQueued(s3, c, dest, a, b, created, created);
    assert TwoQueued(Step(s3, Tick(now)), c, dest, a, b, created, now);
    hide Step;
    pre := [Tick(created)] + [Send(c, [], dest, a, Some(0))] + ([Send(c, [], dest, b, Some(0))] + [Tick(now)]);
    Reaches(s0, [Tick(created)] + [Send(c, [], dest, a, Some(0))], [Send(c, [], dest, b, Some(0))] + [Tick(now)]);
    TwoSteps(s0, Tick(created), Send(c, [], dest, a, Some(0)));
    TwoSteps(s2, Send(c, [], dest, b, Some(0)), Tick(now));
  }

  /** The scan of such a client that is suspended in the first send until `y`. */
  ghost function HeldScan(s0: Sys, c: Cid, cfg: Config, a: QueueId, b: QueueId, y: real): Scene {
    Scene(s0, c, cfg, i => true, i => 0.0, i => if i == 0 then [Tick(y)] else [],
          ids => if ids == {a, b} then [a, b] else Listing(ids))
  }

  lemma HeldScanOk(s0: Sys, c: Cid, cfg: Config, a: QueueId, b: QueueId, y: real)
    ensures var x := HeldScan(s0, c, cfg, a, b, y);
            && x.s0 == s0 && x.c == c && x.cfg == cfg && Lists(x) && OneDispatcher(x)
            && x.order({a, b}) == [a, b] && x.order({}) == []
            && (forall i: nat :: x.alive(i) && x.jitter(i) == 0.0)
            && x.others(0) == [Tick(y)] && x.others(1) == []
  {
  }

  /** What it publishes. */
  lemma HeldTrace(x: Scene, dest: Key, a: QueueId, b: QueueId, created: real, y: real)
    requires x == HeldScan(x.s0, x.c, x.cfg, a, b, y) && a != b
    requires TwoQueued(x.s0, x.c, dest, a, b, created, x.Now()) && 0.0 <= created <= x.Now() <= y
    requires x.Now() < created + x.cfg.duration as real
    ensures var first, second := Republish(x.c, MSG, a, 0, x.Now()), Republish(x.c, MSG, b, 0, x.Now());
            && ScanKinds(x, START, KINDS).events == [first, Tick(y), second]
            && var s := Run(x.s0, [first, Tick(y)]);
               s.clock == y && Holds(s, x.c, MSG, b, 0) && EntryAt(s, x.c, MSG, b, 0).created == created
  {
    hide *;
    var c, first, second := x.c, Republish(x.c, MSG, a, 0, x.Now()), Republish(x.c, MSG, b, 0, x.Now());
    var t := Trace([first] + [Tick(y)], 1, [Lookup(MSG, a, 0, 0)], Going);
    HeldScanOk(x.s0, c, x.cfg, a, b, y);
    FirstTurn(x, dest, a, b, created);
    HeldState(x, t, dest, a, b, created, y);
    UnsentIsSent(x, c.node, dest, b, created);
    LastTurn(x, t, State(x, t), b, Unsent(c.node, dest, b, created), second);
    assert [first] + [Tick(y)] + [second] == [first, Tick(y), second] && [first] + [Tick(y)] == [first, Tick(y)];
  }

  lemma UnsentIsSent(x: Scene, self: Key, dest: Key, id: QueueId, created: real)
    requires 0.0 <= x.Now() < created + x.cfg.duration as real
    ensures RepublishMeta(x.cfg, Unsent(self, dest, id, created), x.Now(), 0.0).1
  {
  }

  lemma FirstTurn(x: Scene, dest: Key, a: QueueId, b: QueueId, created: real)
    requires TwoQueued(x.s0, x.c, dest, a, b, created, x.Now()) && a != b
    requires 0.0 <= x.Now() < created + x.cfg.duration as real
    requires x.order({a, b}) == [a, b] && x.alive(0) && x.jitter(0) == 0.0
    ensures var t := Trace([Republish(x.c, MSG, a, 0, x.Now())] + x.others(0), 1, [Lookup(MSG, a, 0, 0)], Going);
            ScanKinds(x, START, KINDS) == ScanKinds(x, Turn(x, t, MSG, b, 0), [MSGACK, PROBE])
  {
    hide ScanKinds, Turn, Run;
    var qs := x.s0.clients[x.c].msgs;
    assert qs.Keys == {a, b} && qs[a] == map[0 := Unsent(x.c.node, dest, a, created)];
    UnsentIsSent(x, x.c.node, dest, a, created);
    hide TwoQueued, Unsent, RepublishMeta;
    SecondTurn(x, a, b, 0);
  }

  lemma HeldState(x: Scene, t: Trace, dest: Key, a: QueueId, b: QueueId, created: real, y: real)
    requires TwoQueued(x.s0, x.c, dest, a, b, created, x.Now()) && a != b && y >= x.Now()
    requires t.events == [Republish(x.c, MSG, a, 0, x.Now())] + [Tick(y)]
    ensures var s := State(x, t);
            && x.c in s.clients && s.clock == y && s.clients[x.c].acks == map[] && s.clients[x.c].probes == map[]
            && b in s.clients[x.c].msgs && s.clients[x.c].msgs[b] == map[0 := Unsent(x.c.node, dest, b, created)]
            && s == Run(x.s0, t.events) && Holds(s, x.c, MSG, b, 0) && EntryAt(s, x.c, MSG, b, 0).created == created
  {
    FirstSent(x.s0, x.c, dest, a, b, created, y);
    hide Step, TwoQueued;
    TwoSteps(x.s0, Republish(x.c, MSG, a, 0, x.Now()), Tick(y));
  }

  lemma LastTurn(x: Scene, t: Trace, s: Sys, b: QueueId, m: Meta, second: Event)
    requires t.end.Going? && s == State(x, t) && x.c in s.clients && second == Republish(x.c, MSG, b, 0, x.Now())
    requires b in s.clients[x.c].msgs && s.clients[x.c].msgs[b] == map[0 := m]
    requires s.clients[x.c].acks == map[] && s.clients[x.c].probes == map[]
    requires x.alive(t.visits) && RepublishMeta(x.cfg, m, x.Now(), x.jitter(t.visits)).1
    requires x.others(t.visits) == [] && x.order({}) == []
    ensures ScanKinds(x, Turn(x, t, MSG, b, 0), [MSGACK, PROBE]).events == t.events + [second]
  {
    OneEntryTurn(x, t, MSG, b, 0, 0);
    var u := Turn(x, t, MSG, b, 0);
    hide Turn, ScanKinds, Step, RepublishMeta;
    assert u.events == t.events + [second];
    assert Run(x.s0, u.events) == Step(s, second) by { RunAppend(x.s0, t.events, second); }
    hide Run;
    SecondSent(s, second);
    NothingElse(x, u);
  }

  lemma FirstSent(s: Sys, c: Cid, dest: Key, a: QueueId, b: QueueId, created: real, y: real)
    requires TwoQueued(s, c, dest, a, b, created, s.clock) && a != b && y >= s.clock
    ensures var t := Step(Step(s, Republish(c, MSG, a, 0, s.clock)), Tick(y));
            && c in t.clients && t.clock == y && t.clients[c].acks == map[] && t.clients[c].probes == map[]
            && b in t.clients[c].msgs && t.clients[c].msgs[b] == map[0 := Unsent(c.node, dest, b, created)]
  {
  }

  lemma SecondSent(s: Sys, e: Event)
    requires e.Republish? && e.kind.MSG? && e.c in s.clients
    ensures var t := Step(s, e);
            && e.c in t.clients && t.clients[e.c].acks == s.clients[e.c].acks
            && t.clients[e.c].probes == s.clients[e.c].probes
  {
  }

  lemma NothingElse(x: Scene, t: Trace)
    requires t.end.Going? && Table(x, t, MSGACK) == map[] && Table(x, t, PROBE) == map[] && x.order({}) == []
    ensures ScanKinds(x, t, [MSGACK, PROBE]) == t
  {
    hide Table;
    assert Table(x, t, MSGACK).Keys == {} && Table(x, t, PROBE).Keys == {};
    assert [MSGACK, PROBE][1..] == [PROBE] && [PROBE][1..] == [];
    assert Turns(x, t, MSGACK, [], |t.events|) == t && Turns(x, t, PROBE, [], |t.events|) == t;
    assert ScanKinds(x, t, [PROBE]) == t;
  }

  /** The run that publishes the entry at `y`: two messages are queued at `created`, and the scan
      is held up in the first one's send. */
  lemma HeldUp(cfg: Config, hold: real, created: real, y: real) returns (init: Sys, pre: seq<Event>, x: Scene)
    requires cfg.duration > 0 && hold >= 0.0 && 0.0 <= created <= y < created + cfg.duration as real + hold
    ensures PublishedAt(init, pre, x, 2, cfg, hold, created, y)
  {
    var now := if y - hold > created then y - hold else created;
    var c, dest := Cid(seq(66, i => '0'), 0), seq(66, i => '1');
    var a, b := seq(64, i => '0'), seq(64, i => '1');
    assert a[0] != b[0];
    init := Idle(cfg.duration, c);
    pre := QueueTwo(cfg.duration, c, dest, a, b, created, now);
    x := HeldScan(Run(init, pre), c, cfg, a, b, y);
    HeldScanOk(x.s0, c, cfg, a, b, y);
    HeldTrace(x, dest, a, b, created, y);
    hide ScanKinds, Run, Initial, Lists, OneDispatcher, TwoQueued, HeldScan;
    var es := ScanKinds(x, START, KINDS).events;
    assert es[..2] == [es[0], es[1]];
    ClockAscends(x.s0, es[..0]);
    forall k | 0 <= k < |es| && es[k].Republish? ensures Run(x.s0, es[..k]).clock <= x.Now() + hold {
      if k == 0 { NoneRun(x.s0, es[..0]); }
    }
  }

  lemma NoneRun(s: Sys, es: seq<Event>)
    requires es == []
    ensures Run(s, es) == s
  {
  }

  // ---- what a completed scan publishes ------------------------------------------------------------------

  /** The events so far have published the entry. */
  predicate Sent(events: seq<Event>, c: Cid, kind: Kind, id: QueueId, n: nat) { Times(events, c, kind, id, n) != [] }

  lemma {:induction false} SentStays(a: seq<Event>, b: seq<Event>, c: Cid, kind: Kind, id: QueueId, n: nat)
    requires a <= b && Sent(a, c, kind, id, n)
    ensures Sent(b, c, kind, id, n)
    decreases |b|
  {
    if |a| < |b| {
      assert a <= b[..|b| - 1];
      SentStays(a, b[..|b| - 1], c, kind, id, n);
    } else {
      assert a == b;
    }
  }

  /** After these events of the scan the entry has been published, or is there and any visit
      would publish it. */
  ghost predicate ReadyAt(x: Scene, events: seq<Event>, kind: Kind, id: QueueId, n: nat) {
    || Sent(events, x.c, kind, id, n)
    || (var s := Run(x.s0, events);
        Holds(s, x.c, kind, id, n) &&
        forall j :: 0.0 <= j <= Cap(x.cfg) ==> RepublishMeta(x.cfg, EntryAt(s, x.c, kind, id, n), x.Now(), j).1)
  }

  lemma ReadyMeans(x: Scene, events: seq<Event>, kind: Kind, id: QueueId, n: nat, i: nat)
    requires OneDispatcher(x) && ReadyAt(x, events, kind, id, n) && !Sent(events, x.c, kind, id, n)
    ensures Holds(Run(x.s0, events), x.c, kind, id, n)
    ensures RepublishMeta(x.cfg, EntryAt(Run(x.s0, events), x.c, kind, id, n), x.Now(), x.jitter(i)).1
  {
    hide Run, Cap, RepublishMeta, Sent;
  }

  lemma VisitSends(x: Scene, t: Trace, kind: Kind, id: QueueId, n: nat)
    requires OneDispatcher(x) && ReadyAt(x, t.events, kind, id, n) && Visit(x, t, kind, id, n).end.Going?
    ensures Sent(Visit(x, t, kind, id, n).events, x.c, kind, id, n)
  {
    var v := Visit(x, t, kind, id, n);
    if Sent(t.events, x.c, kind, id, n) {
      hide *;
      VisitGrows(x, t, kind, id, n);
      SentStays(t.events, v.events, x.c, kind, id, n);
    } else {
      ReadyMeans(x, t.events, kind, id, n, t.visits);
      hide Run, Cap, RepublishMeta, ReadyAt, OneDispatcher;
      var sent := t.events + [Republish(x.c, kind, id, n, x.Now())];
      assert sent[..|sent| - 1] == t.events && v.events == sent + x.others(t.visits);
      SentStays(sent, v.events, x.c, kind, id, n);
    }
  }

  lemma VisitGrows(x: Scene, t: Trace, kind: Kind, id: QueueId, n: nat)
    ensures t.events <= Visit(x, t, kind, id, n).events
  {
    hide Run, RepublishMeta;
  }

  lemma {:induction false} QueueSends(x: Scene, t: Trace, kind: Kind, id: QueueId, ns: seq<nat>, n: nat,
                                      all: seq<Event>)
    requires OneDispatcher(x) && n in ns && VisitQueue(x, t, kind, id, ns).end.Going?
    requires VisitQueue(x, t, kind, id, ns).events <= all
    requires forall es :: es <= all ==> ReadyAt(x, es, kind, id, n)
    ensures Sent(VisitQueue(x, t, kind, id, ns).events, x.c, kind, id, n)
    decreases |ns|
  {
    hide ReadyAt, Visit, OneDispatcher, Sent;
    var u := Visit(x, t, kind, id, ns[0]);
    QueueGrows(x, t, kind, id, ns);
    QueueGrows(x, u, kind, id, ns[1..]);
    if ns[0] == n {
      assert u.end.Going?;
      assert ReadyAt(x, t.events, kind, id, n);
      VisitSends(x, t, kind, id, n);
      SentStays(u.events, VisitQueue(x, u, kind, id, ns[1..]).events, x.c, kind, id, n);
    } else {
      QueueSends(x, u, kind, id, ns[1..], n, all);
    }
  }

  /** The entry is there throughout. */
  ghost predicate ReadyAll(x: Scene, all: seq<Event>, kind: Kind, id: QueueId, n: nat) {
    forall es :: es <= all ==> Holds(Run(x.s0, es), x.c, kind, id, n) && ReadyAt(x, es, kind, id, n)
  }

  lemma TurnSends(x: Scene, t: Trace, kind: Kind, id: QueueId, n: nat, listed: nat, all: seq<Event>)
    requires OneDispatcher(x) && t.end.Going? && Turn(x, t, kind, id, listed).end.Going?
    requires Turn(x, t, kind, id, listed).events <= all && ReadyAll(x, all, kind, id, n)
    ensures Sent(Turn(x, t, kind, id, listed).events, x.c, kind, id, n)
  {
    var u, qs := t.(lookups := t.lookups + [Lookup(kind, id, listed, |t.events|)]), Table(x, t, kind);
    if id in qs {
      var ns := Sorted(qs[id].Keys);
      QueueGrows(x, u, kind, id, ns);
      assert Holds(Run(x.s0, t.events), x.c, kind, id, n);
      assert n in ns;
      hide Run, ReadyAt, OneDispatcher, VisitQueue;
      QueueSends(x, u, kind, id, ns, n, all);
    }
  }

  lemma {:induction false} TurnsSend(x: Scene, t: Trace, kind: Kind, ids: seq<QueueId>, listed: nat, id: QueueId,
                                     n: nat, all: seq<Event>)
    requires OneDispatcher(x) && id in ids && Turns(x, t, kind, ids, listed).end.Going?
    requires Turns(x, t, kind, ids, listed).events <= all && ReadyAll(x, all, kind, id, n)
    ensures Sent(Turns(x, t, kind, ids, listed).events, x.c, kind, id, n)
    decreases |ids|
  {
    hide Turn, ReadyAll, OneDispatcher, Sent;
    var u := Turn(x, t, kind, ids[0], listed);
    TurnsAll(x, u, kind, ids[1..], listed);
    if ids[0] == id {
      assert u.end.Going?;
      TurnSends(x, t, kind, id, n, listed, all);
      SentStays(u.events, Turns(x, u, kind, ids[1..], listed).events, x.c, kind, id, n);
    } else {
      TurnsSend(x, u, kind, ids[1..], listed, id, n, all);
    }
  }

  lemma {:induction false} KindsSend(x: Scene, t: Trace, kinds: seq<Kind>, kind: Kind, id: QueueId, n: nat,
                                     all: seq<Event>)
    requires Lists(x) && OneDispatcher(x) && kind in kinds && ScanKinds(x, t, kinds).end.Going?
    requires ScanKinds(x, t, kinds).events <= all && ReadyAll(x, all, kind, id, n)
    ensures Sent(ScanKinds(x, t, kinds).events, x.c, kind, id, n)
    decreases |kinds|
  {
    hide Turns, ReadyAll, OneDispatcher, Sent, Run;
    var ids := x.order(Table(x, t, kinds[0]).Keys);
    var u := Turns(x, t, kinds[0], ids, |t.events|);
    TurnsAll(x, t, kinds[0], ids, |t.events|);
    KindsTurned(x, u, kinds[1..]);
    if kinds[0] == kind {
      StaysEnded(x, u, kinds[1..]);
      InTable(x, t, kind, id, n, all);
      TurnsSend(x, t, kind, ids, |t.events|, id, n, all);
      SentStays(u.events, ScanKinds(x, u, kinds[1..]).events, x.c, kind, id, n);
    } else {
      KindsSend(x, u, kinds[1..], kind, id, n, all);
    }
  }

  lemma InTable(x: Scene, t: Trace, kind: Kind, id: QueueId, n: nat, all: seq<Event>)
    requires ReadyAll(x, all, kind, id, n) && t.events <= all
    ensures id in Table(x, t, kind)
  {
    hide ReadyAt, Run;
    assert Holds(Run(x.s0, t.events), x.c, kind, id, n);
  }

  /** The entry is queued at every point of these events, and unanswered if that matters. */
  ghost predicate Waits(x: Scene, events: seq<Event>, kind: Kind, id: QueueId, n: nat) {
    forall es :: es <= events ==> WaitsAt(x, es, kind, id, n)
  }

  predicate WaitsAt(x: Scene, es: seq<Event>, kind: Kind, id: QueueId, n: nat) {
    && Holds(Run(x.s0, es), x.c, kind, id, n)
    && (x.cfg.ignoreAcked ==> EntryAt(Run(x.s0, es), x.c, kind, id, n).ack == Pending)
  }

  /** As long as it is not published, nothing but its future changes. */
  lemma {:induction false} UnsentUnchanged(init: Sys, pre: seq<Event>, x: Scene, events: seq<Event>, kind: Kind,
                                           id: QueueId, n: nat)
    requires Reachable(init, pre, x) && !kind.PROBE?
    requires Waits(x, events, kind, id, n) && !Sent(events, x.c, kind, id, n)
    ensures Holds(x.s0, x.c, kind, id, n) && Holds(Run(x.s0, events), x.c, kind, id, n)
    ensures var k := EntryAt(Run(x.s0, events), x.c, kind, id, n); k == EntryAt(x.s0, x.c, kind, id, n).(ack := k.ack)
  {
    assert WaitsAt(x, events, kind, id, n);
    if events == [] {
      NoneRun(x.s0, events);
    } else {
      var prior, e := events[..|events| - 1], events[|events| - 1];
      assert WaitsAt(x, prior, kind, id, n) && Run(x.s0, events) == Step(Run(x.s0, prior), e);
      hide Run;
      UnsentUnchanged(init, pre, x, prior, kind, id, n);
      Reaches(init, pre, prior);
      RunKeepsChain(init, pre + prior);
      hide Reachable, Waits, Step;
      EntryStep(Run(x.s0, prior), e, x.c, kind, id, n);
    }
  }

  lemma StaysReady(init: Sys, pre: seq<Event>, x: Scene, events: seq<Event>, kind: Kind, id: QueueId, n: nat)
    requires Reachable(init, pre, x) && !kind.PROBE? && Waits(x, events, kind, id, n) && Holds(x.s0, x.c, kind, id, n)
    requires var m := EntryAt(x.s0, x.c, kind, id, n);
             !m.oneShot && x.Now() - m.created < x.cfg.duration as real && x.Now() - m.updated >= Cap(x.cfg)
    ensures ReadyAll(x, events, kind, id, n)
  {
    hide Run, Reachable, Sent;
    forall es | es <= events ensures Holds(Run(x.s0, es), x.c, kind, id, n) && ReadyAt(x, es, kind, id, n) {
      assert WaitsAt(x, es, kind, id, n);
      if !Sent(es, x.c, kind, id, n) { UnsentUnchanged(init, pre, x, es, kind, id, n); }
    }
  }

  lemma {:induction false} SentMeans(events: seq<Event>, c: Cid, kind: Kind, id: QueueId, n: nat) returns (k: nat)
    requires Sent(events, c, kind, id, n)
    ensures k < |events| && events[k].Republish? && events[k].c == c && events[k].kind == kind && events[k].id == id
            && events[k].seqNo == n
  {
    k := |events| - 1;
    var e := events[k];
    if !(e.Republish? && e.c == c && e.kind == kind && e.id == id && e.seqNo == n) {
      k := SentMeans(events[..k], c, kind, id, n);
    }
  }

  /** A scan that completes publishes every message and ack that is queued throughout the scan
      (and unanswered, if the dispatcher skips answered ones), was created less than the duration
      before its start, and was last published at least min(60, duration) before, whatever the
      jitter and whatever happens during the scan. */
  lemma CompletedScanPublishes(init: Sys, pre: seq<Event>, x: Scene, kind: Kind, id: QueueId, n: nat) returns (k: nat)
    requires Reachable(init, pre, x) && Lists(x) && OneDispatcher(x) && !kind.PROBE?
    requires var t := ScanKinds(x, START, KINDS); t.end.Going? && Waits(x, t.events, kind, id, n)
    requires Holds(x.s0, x.c, kind, id, n)
    requires var m := EntryAt(x.s0, x.c, kind, id, n);
             !m.oneShot && x.Now() - m.created < x.cfg.duration as real && x.Now() - m.updated >= Cap(x.cfg)
    ensures var es := ScanKinds(x, START, KINDS).events;
            k < |es| && es[k] == Republish(x.c, kind, id, n, x.Now())
  {
    var es := ScanKinds(x, START, KINDS).events;
    StaysReady(init, pre, x, es, kind, id, n);
    assert kind in KINDS;
    ScanPublishesDue(x, START, KINDS);
    hide ScanKinds, Run, ReadyAll, OneDispatcher, Lists, Reachable, Waits;
    KindsSend(x, START, KINDS, kind, id, n, es);
    k := SentMeans(es, x.c, kind, id, n);
    assert MadeByScan(x, Run(x.s0, es[..k]), es[k]);
  }
}
