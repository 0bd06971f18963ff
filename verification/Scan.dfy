/** One scan of a dispatcher over all queues of its client, as a run of the whole system: its own
    attempts, and whatever other tasks do each time it is suspended in a send. The list of queue
    ids of a message type is taken when the scan comes to that type; each id is looked up later. */
module Scan {
  import opened Basics
  import opened Messages
  import opened ClientOps
  import opened Delivery
  import opened Dispatch

  predicate HasQueue(s: Sys, c: Cid, kind: Kind, id: QueueId) { c in s.clients && id in s.clients[c].Of(kind) }

  // ---- which steps remove a queue, and which create one ------------------------------------------

  /** The ack settles a one-shot entry that is all its queue holds. */
  predicate SettlesLast(client: Client, p: Packet, kind: Kind, id: QueueId) {
    var qs := client.Of(kind);
    && p.queueId == id && !kind.MSGACK? && (kind.PROBE? ==> !Answers(client.msgs, p)) && Answers(qs, p)
    && qs[id][p.seqNo].ack == Pending && qs[id][p.seqNo].oneShot && qs[id].Keys == {p.seqNo}
  }

  /** What a step does to client `c`. */
  function ClientAfter(s: Sys, e: Event, c: Cid): Client
    requires c in s.clients
  {
    var client := s.clients[c];
    match e
    case Send(d, msg, dest, id, at) =>
      if d == c && ValidIds(id, dest) then OrderedSend(client, c.node, s.clock, msg, dest, id, MSG, at).client
        else client
    case Probe(d, dest, id) =>
      if d == c && ValidIds(id, dest) then SendProbe(client, c.node, s.clock, dest, id).client else client
    case Republish(d, kind, id, n, now) =>
      if d == c && Has(client.Of(kind), id, n) && !client.Of(kind)[id][n].oneShot then Touch(client, kind, id, n, now)
        else client
    case Deliver(d, w) =>
      if !(d == c && Arrives(s, c, w)) then client
      else (match w.pkt.kind
            case MSG => if TooOld(s, w.pkt) then client else Arrive(client, w.pkt).0
            case MSGACK => OnAck(client, w.pkt)
            case PROBE => OnProbe(client, c.node, s.clock, w.pkt).0)
    case Resume(i) => if i < |s.tasks| then ClientResumed(s, s.tasks[i], c) else client
    case Prune(d, now) =>
      if d == c && now <= s.clock then client.(sent := Fresh(client.sent, now, 2 * s.r)) else client
    case Dequeued(d, kind, id, which) => if d == c then Dequeue(client, kind, id, which) else client
    case _ => client
  }

  function ClientResumed(s: Sys, k: Task, c: Cid): Client
    requires c in s.clients
  {
    var client := s.clients[c];
    match k
    case Handling(d, p) =>
      if d == c && ValidIds(p.queueId, p.src)
      then BeginSend(client, c.node, s.clock, ACK_TEXT, p.src, p.queueId, MSGACK, Some(p.seqNo)).client else client
    case Signing(d, p, out) => if d == c then FinishSend(client, s.clock, p.src, out) else client
    case _ => client
  }

  lemma StepClient(s: Sys, e: Event, c: Cid)
    requires c in s.clients
    ensures c in Step(s, e).clients && Step(s, e).clients[c] == ClientAfter(s, e, c)
  {
    hide FinishSend, NextSeq, Arrive, OnAck, OnProbe, Put, Dequeue, Touch, Fresh;
    match e
    case Deliver(d, w) => DeliverClient(s, d, w, c);
    case Resume(i) => if i < |s.tasks| { ResumeClient(s, i, c); }
    case _ => hide OnDeliver, OnResume;
  }

  lemma DeliverClient(s: Sys, d: Cid, w: Wire, c: Cid)
    requires c in s.clients
    ensures var e := Deliver(d, w); c in Step(s, e).clients && Step(s, e).clients[c] == ClientAfter(s, e, c)
  {
    hide Arrive, OnAck, OnProbe;
  }

  lemma ResumeClient(s: Sys, i: nat, c: Cid)
    requires c in s.clients && i < |s.tasks|
    ensures c in OnResume(s, i).clients && OnResume(s, i).clients[c] == ClientResumed(s, s.tasks[i], c)
  {
    hide FinishSend, NextSeq;
  }

  predicate Arrives(s: Sys, c: Cid, w: Wire) {
    c in s.clients && w in s.net && w.broker == c.broker && w.topic == c.node
  }

  /** The guards under which a step takes the whole queue away. */
  predicate Removes(s: Sys, e: Event, c: Cid, kind: Kind, id: QueueId) {
    match e
    case Dequeued(d, k, i, which) => d == c && k == kind && i == id && which.None?
    case Deliver(d, w) => d == c && Arrives(s, c, w) && w.pkt.kind.MSGACK? && SettlesLast(s.clients[c], w.pkt, kind, id)
    case _ => false
  }

  /** The guards under which a step makes the queue, or finds it there and keeps it. */
  predicate Creates(s: Sys, e: Event, c: Cid, kind: Kind, id: QueueId) {
    match e
    case Send(d, _, dest, i, _) => d == c && kind.MSG? && i == id && ValidIds(i, dest)
    case Probe(d, dest, i) => d == c && kind.PROBE? && i == id && ValidIds(i, dest)
    case Deliver(d, w) =>
      && d == c && Arrives(s, c, w) && kind.MSGACK? && w.pkt.kind.PROBE? && w.pkt.queueId == id
      && !Has(s.clients[c].acks, id, w.pkt.seqNo)
    case Resume(i) =>
      && i < |s.tasks| && s.tasks[i].Handling? && s.tasks[i].at == c && kind.MSGACK?
      && s.tasks[i].pkt.queueId == id && ValidIds(id, s.tasks[i].pkt.src)
    case _ => false
  }

  lemma AckPresence(client: Client, p: Packet, kind: Kind, id: QueueId)
    ensures id in OnAck(client, p).Of(kind) <==> id in client.Of(kind) && !SettlesLast(client, p, kind, id)
  {
  }

  lemma QueuePresence(client: Client, self: Key, now: real, p: Packet, kind: Kind, id: QueueId)
    ensures id in Arrive(client, p).0.Of(kind) <==> id in client.Of(kind)
    ensures id in OnProbe(client, self, now, p).0.Of(kind) <==>
              id in client.Of(kind) || (kind.MSGACK? && p.queueId == id && !Has(client.acks, id, p.seqNo))
  {
  }

  lemma TaskPresence(client: Client, self: Key, now: real, p: Packet, out: Packet, kind: Kind, id: QueueId)
    ensures var b := BeginSend(client, self, now, ACK_TEXT, p.src, p.queueId, MSGACK, Some(p.seqNo));
            ValidIds(p.queueId, p.src) ==>
              b.Queued? && (id in b.client.Of(kind) <==> id in client.Of(kind) || (kind.MSGACK? && p.queueId == id))
    ensures id in FinishSend(client, now, p.src, out).Of(kind) <==> id in client.Of(kind)
  {
  }

  lemma OtherPresence(client: Client, self: Key, now: real, k: Kind, i: QueueId, n: nat, dest: Key,
                      which: Option<nat>, kind: Kind, id: QueueId)
    ensures Has(client.Of(k), i, n) ==> (id in Touch(client, k, i, n, now).Of(kind) <==> id in client.Of(kind))
    ensures id in Dequeue(client, k, i, which).Of(kind) <==>
              id in client.Of(kind) && !(k == kind && i == id && which.None?)
    ensures var r := SendProbe(client, self, now, dest, i);
            ValidIds(i, dest) ==>
              r.Queued? && (id in r.client.Of(kind) <==> id in client.Of(kind) || (kind.PROBE? && i == id))
  {
  }

  /** Those steps and no others. */
  lemma {:induction false} PresenceStep(s: Sys, e: Event, c: Cid, kind: Kind, id: QueueId)
    requires c in s.clients
    ensures HasQueue(Step(s, e), c, kind, id) <==>
              !Removes(s, e, c, kind, id) && (HasQueue(s, c, kind, id) || Creates(s, e, c, kind, id))
  {
    hide Step, OrderedSend, BeginSend, FinishSend, NextSeq, Fresh, Arrive, OnAck, OnProbe, SendProbe, Dequeue, Touch,
      SettlesLast;
    StepClient(s, e, c);
    var client, now := s.clients[c], s.clock;
    match e
    case Deliver(d, w) =>
      AckPresence(client, w.pkt, kind, id);
      QueuePresence(client, c.node, now, w.pkt, kind, id);
    case Resume(i) =>
      if i < |s.tasks| && (s.tasks[i].Handling? || s.tasks[i].Signing?) {
        var out := if s.tasks[i].Signing? then s.tasks[i].out else s.tasks[i].pkt;
        TaskPresence(client, c.node, now, s.tasks[i].pkt, out, kind, id);
      }
    case Send(d, msg, dest, i, at) =>
      if d == c && ValidIds(i, dest) { SendEffect(client, c.node, now, msg, dest, i, at); }
    case Probe(d, dest, i) => OtherPresence(client, c.node, now, kind, i, 0, dest, None, kind, id);
    case Republish(d, k, i, n, t) => OtherPresence(client, c.node, t, k, i, n, c.node, None, kind, id);
    case Dequeued(d, k, i, which) => OtherPresence(client, c.node, now, k, i, 0, c.node, which, kind, id);
    case _ =>
  }

  /** The queue was removed by the k-th of these events and by no later one made again. */
  predicate GoneSince(s: Sys, events: seq<Event>, k: nat, c: Cid, kind: Kind, id: QueueId) {
    && k < |events| && Removes(Run(s, events[..k]), events[k], c, kind, id)
    && forall j :: k < j < |events| ==> !Creates(Run(s, events[..j]), events[j], c, kind, id)
  }

  /** A queue that was there is gone exactly if one of its removals was not made good. */
  lemma {:induction false} PresenceExactly(s: Sys, events: seq<Event>, c: Cid, kind: Kind, id: QueueId)
    requires HasQueue(s, c, kind, id)
    ensures c in Run(s, events).clients
    ensures !HasQueue(Run(s, events), c, kind, id) <==> exists k: nat :: GoneSince(s, events, k, c, kind, id)
  {
    hide Step, Removes, Creates;
    if events != [] {
      var init, e := events[..|events| - 1], events[|events| - 1];
      PresenceExactly(s, init, c, kind, id);
      StepExtends(Run(s, init), e);
      PresenceStep(Run(s, init), e, c, kind, id);
      RemovalExcludesCreation(Run(s, init), e, c, kind, id);
      hide Run, HasQueue, GoneSince;
      if Removes(Run(s, init), e, c, kind, id) {
        GoneStep(s, events, |init|, c, kind, id);
      } else {
        forall k: nat ensures GoneSince(s, events, k, c, kind, id)
                              <==> GoneSince(s, init, k, c, kind, id) && !Creates(Run(s, init), e, c, kind, id)
        {
          GoneStep(s, events, k, c, kind, id);
        }
        if k: nat :| GoneSince(s, init, k, c, kind, id) {
          assert GoneSince(s, events, k, c, kind, id) <==> !Creates(Run(s, init), e, c, kind, id);
        }
      }
    }
  }

  lemma RemovalExcludesCreation(s: Sys, e: Event, c: Cid, kind: Kind, id: QueueId)
    ensures !(Removes(s, e, c, kind, id) && Creates(s, e, c, kind, id))
  {
    hide SettlesLast;
  }

  lemma GoneStep(s: Sys, events: seq<Event>, k: nat, c: Cid, kind: Kind, id: QueueId)
    requires events != []
    ensures var init, e := events[..|events| - 1], events[|events| - 1];
            GoneSince(s, events, k, c, kind, id) <==>
              || (k == |init| && Removes(Run(s, init), e, c, kind, id))
              || (GoneSince(s, init, k, c, kind, id) && !Creates(Run(s, init), e, c, kind, id))
  {
    hide Run, Removes, Creates;
    var init := events[..|events| - 1];
    assert forall j :: 0 <= j < |init| ==> init[..j] == events[..j] && init[j] == events[j];
  }

  // in reachable states

  ghost predicate OneShots(client: Client) {
    && (forall id, n :: Has(client.msgs, id, n) ==> !client.msgs[id][n].oneShot)
    && (forall id, n :: Has(client.probes, id, n) ==> client.probes[id][n].oneShot)
  }

  ghost predicate OneShotInv(s: Sys) { forall c :: c in s.clients ==> OneShots(s.clients[c]) }

  lemma SendOneShots(client: Client, self: Key, now: real, msg: Bytes, dest: Key, id: QueueId, at: Option<nat>)
    requires OneShots(client)
    ensures var r := OrderedSend(client, self, now, msg, dest, id, MSG, at); r.Queued? ==> OneShots(r.client)
  {
    if ValidIds(id, dest) {
      SendEffect(client, self, now, msg, dest, id, at);
      hide OrderedSend;
    }
  }

  lemma AckOneShots(client: Client, p: Packet)
    requires OneShots(client)
    ensures OneShots(OnAck(client, p))
  {
  }

  lemma OtherOneShots(client: Client, kind: Kind, id: QueueId, which: Option<nat>, n: nat, now: real)
    requires OneShots(client)
    ensures OneShots(Dequeue(client, kind, id, which))
    ensures Has(client.Of(kind), id, n) ==> OneShots(Touch(client, kind, id, n, now))
  {
  }

  lemma ProbeOneShots(client: Client, self: Key, now: real, dest: Key, id: QueueId)
    requires OneShots(client)
    ensures var r := SendProbe(client, self, now, dest, id); r.Queued? ==> OneShots(r.client)
  {
  }

  lemma AckQueueOneShots(client: Client, self: Key, now: real, p: Packet, out: Packet)
    requires OneShots(client)
    ensures OneShots(Arrive(client, p).0) && OneShots(OnProbe(client, self, now, p).0)
    ensures var b := BeginSend(client, self, now, ACK_TEXT, p.src, p.queueId, MSGACK, Some(p.seqNo));
            b.Queued? ==> OneShots(b.client)
    ensures out.kind.MSGACK? ==> OneShots(FinishSend(client, now, p.src, out))
  {
  }

  lemma StepOneShots(s: Sys, e: Event)
    requires ChainInv(s) && OneShotInv(s)
    ensures OneShotInv(Step(s, e))
  {
    hide BeginSend, FinishSend, OrderedSend, Arrive, OnAck, OnProbe, SendProbe, Dequeue, Touch, Fresh, ChainInv,
      OneShots;
    match e
    case Send(c, msg, dest, id, at) =>
      if c in s.clients { SendOneShots(s.clients[c], c.node, s.clock, msg, dest, id, at); }
    case Probe(c, dest, id) => if c in s.clients { ProbeOneShots(s.clients[c], c.node, s.clock, dest, id); }
    case Republish(c, kind, id, n, now) => if c in s.clients { OtherOneShots(s.clients[c], kind, id, None, n, now); }
    case Deliver(c, w) =>
      if c in s.clients {
        AckOneShots(s.clients[c], w.pkt);
        AckQueueOneShots(s.clients[c], c.node, s.clock, w.pkt, w.pkt);
      }
    case Resume(i) =>
      if i < |s.tasks| && !s.tasks[i].Finished? && s.tasks[i].at in s.clients {
        var k := s.tasks[i];
        TaskIn(s, i);
        AckQueueOneShots(s.clients[k.at], k.at.node, s.clock, k.pkt, if k.Signing? then k.out else k.pkt);
      }
    case Prune(c, now) =>
      if c in s.clients { SentOneShots(s.clients[c], Fresh(s.clients[c].sent, now, 2 * s.r)); }
    case Dequeued(c, kind, id, which) => if c in s.clients { OtherOneShots(s.clients[c], kind, id, which, 0, 0.0); }
    case _ =>
  }

  lemma SentOneShots(client: Client, sent: Stamps)
    requires OneShots(client)
    ensures OneShots(client.(sent := sent))
  {
  }

  lemma TaskIn(s: Sys, i: nat)
    requires ChainInv(s) && i < |s.tasks|
    ensures s.tasks[i].Signing? ==> s.tasks[i].out.kind.MSGACK?
  {
    assert TaskOk(s, s.tasks[i]);
  }

  lemma {:induction false} RunOneShots(s: Sys, events: seq<Event>)
    requires Initial(s)
    ensures OneShotInv(Run(s, events))
  {
    if events != [] {
      RunOneShots(s, events[..|events| - 1]);
      RunKeepsChain(s, events[..|events| - 1]);
      StepOneShots(Run(s, events[..|events| - 1]), events[|events| - 1]);
    }
  }

  /** In reachable states a queue goes only by being dequeued as a whole, or, for probes, when
      an ack settles the last one of its queue. */
  lemma {:induction false} OnlyTheseRemove(s: Sys, events: seq<Event>, e: Event, c: Cid, kind: Kind, id: QueueId)
    requires Initial(s)
    ensures var t := Run(s, events);
            HasQueue(t, c, kind, id) && !HasQueue(Step(t, e), c, kind, id) ==>
              || e == Dequeued(c, kind, id, None)
              || (kind.PROBE? && e.Deliver? && e.c == c && e.w.pkt.kind.MSGACK? && Answers(t.clients[c].probes, e.w.pkt)
                  && t.clients[c].probes[id].Keys == {e.w.pkt.seqNo})
  {
    RunOneShots(s, events);
    var t := Run(s, events);
    hide Run, Step;
    if HasQueue(t, c, kind, id) {
      PresenceStep(t, e, c, kind, id);
      assert OneShots(t.clients[c]);
    }
  }

  // ---- the scan -------------------------------------------------------------------------------------

  /** A scan by client `c` that starts in `s0`. Everything it does not decide is an input, by the
      number of entries visited so far: whether the pipe is up, the jitter, and the steps of
      other tasks while it is suspended; and the order in which a table lists its keys. */
  datatype Scene = Scene(s0: Sys, c: Cid, cfg: Config,
                         alive: nat -> bool, jitter: nat -> real, others: nat -> seq<Event>,
                         order: set<QueueId> -> seq<QueueId>)
  {
    /** The scan reads the clock once, when it starts. */
    function Now(): real { s0.clock }
  }

  /** The id was listed when `listed` events of the scan had happened, and looked up after `at`. */
  datatype Lookup = Lookup(kind: Kind, id: QueueId, listed: nat, at: nat)

  datatype End = Going | PipeLost | KeyError

  datatype Trace = Trace(events: seq<Event>, visits: nat, lookups: seq<Lookup>, end: End)

  const START := Trace([], 0, [], Going)

  const KINDS: seq<Kind> := [MSG, MSGACK, PROBE]

  function State(x: Scene, t: Trace): Sys { Run(x.s0, t.events) }

  function Table(x: Scene, t: Trace, kind: Kind): Queues {
    var s := State(x, t);
    if x.c in s.clients then s.clients[x.c].Of(kind) else map[]
  }

  /** The numbers of a queue in ascending order. */
  function Sorted(s: set<nat>): (r: seq<nat>)
    ensures forall n :: n in r <==> n in s
    ensures forall i, j :: 0 <= i < j < |r| ==> r[i] < r[j]
    decreases |s|
  {
    if s == {} then []
    else
      var m := MaxOf(s);
      var init := Sorted(s - {m});
      assert forall i :: 0 <= i < |init| ==> init[i] in s - {m};
      init + [m]
  }

  /** One entry: skipped if it is gone by now; else given up, left, or published with the scan
      suspended in the send. */
  function Visit(x: Scene, t: Trace, kind: Kind, id: QueueId, n: nat): Trace {
    var qs := Table(x, t, kind);
    if !Has(qs, id, n) then t
    else if !x.alive(t.visits) then t.(end := PipeLost)
    else
      var (_, sent) := RepublishMeta(x.cfg, qs[id][n], x.Now(), x.jitter(t.visits));
      t.(visits := t.visits + 1,
         events := if sent then t.events + [Republish(x.c, kind, id, n, x.Now())] + x.others(t.visits) else t.events)
  }

  function VisitQueue(x: Scene, t: Trace, kind: Kind, id: QueueId, ns: seq<nat>): Trace
    decreases |ns|
  {
    if ns == [] || !t.end.Going? then t else VisitQueue(x, Visit(x, t, kind, id, ns[0]), kind, id, ns[1..])
  }

  function Turn(x: Scene, t: Trace, kind: Kind, id: QueueId, listed: nat): Trace {
    var u := t.(lookups := t.lookups + [Lookup(kind, id, listed, |t.events|)]);
    var qs := Table(x, t, kind);
    if id !in qs then u.(end := KeyError) else VisitQueue(x, u, kind, id, Sorted(qs[id].Keys))
  }

  function Turns(x: Scene, t: Trace, kind: Kind, ids: seq<QueueId>, listed: nat): Trace
    decreases |ids|
  {
    if ids == [] || !t.end.Going? then t else Turns(x, Turn(x, t, kind, ids[0], listed), kind, ids[1..], listed)
  }

  function ScanKinds(x: Scene, t: Trace, kinds: seq<Kind>): Trace
    decreases |kinds|
  {
    if kinds == [] || !t.end.Going? then t
    else ScanKinds(x, Turns(x, t, kinds[0], x.order(Table(x, t, kinds[0]).Keys), |t.events|), kinds[1..])
  }

  method ScanAll(x: Scene) returns (t: Trace)
    ensures t == ScanKinds(x, START, KINDS)
  {
    t := START;
    for k := 0 to |KINDS|
      invariant ScanKinds(x, START, KINDS) == ScanKinds(x, t, KINDS[k..])
      invariant t.end.Going?
    {
      assert KINDS[k..][1..] == KINDS[k + 1..];
      var kind, listed := KINDS[k], |t.events|;
      var ids := x.order(Table(x, t, kind).Keys);
      ghost var start := t;
      for i := 0 to |ids|
        invariant Turns(x, start, kind, ids, listed) == Turns(x, t, kind, ids[i..], listed)
        invariant t.end.Going?
      {
        assert ids[i..][1..] == ids[i + 1..];
        var qs := Table(x, t, kind);
        t := t.(lookups := t.lookups + [Lookup(kind, ids[i], listed, |t.events|)]);
        if ids[i] !in qs {
          t := t.(end := KeyError);
          return;
        }
        t := VisitEntries(x, t, kind, ids[i], Sorted(qs[ids[i]].Keys));
        if !t.end.Going? {
          return;
        }
      }
    }
  }

  method VisitEntries(x: Scene, start: Trace, kind: Kind, id: QueueId, ns: seq<nat>) returns (t: Trace)
    requires start.end.Going?
    ensures t == VisitQueue(x, start, kind, id, ns)
  {
    t := start;
    for j := 0 to |ns|
      invariant VisitQueue(x, start, kind, id, ns) == VisitQueue(x, t, kind, id, ns[j..])
      invariant t.end.Going?
    {
      assert ns[j..][1..] == ns[j + 1..];
      var qs := Table(x, t, kind);
      if Has(qs, id, ns[j]) {
        if !x.alive(t.visits) {
          t := t.(end := PipeLost);
          return;
        }
        var (_, sent) := RepublishMeta(x.cfg, qs[id][ns[j]], x.Now(), x.jitter(t.visits));
        if sent {
          t := t.(events := t.events + [Republish(x.c, kind, id, ns[j], x.Now())] + x.others(t.visits));
        }
        t := t.(visits := t.visits + 1);
      }
    }
  }

  // ---- when it fails ------------------------------------------------------------------------------

  ghost predicate Lists(x: Scene) { forall ids: set<QueueId>, id :: id in x.order(ids) <==> id in ids }

  predicate There(x: Scene, events: seq<Event>, n: nat, u: Lookup)
    requires n <= |events|
  {
    HasQueue(Run(x.s0, events[..n]), x.c, u.kind, u.id)
  }

  /** Each id was there when listed; and when looked up, except the one that ends the scan. */
  ghost predicate TraceOk(x: Scene, t: Trace) {
    && (forall i :: 0 <= i < |t.lookups| ==>
          var u := t.lookups[i];
          && u.listed <= u.at <= |t.events|
          && There(x, t.events, u.listed, u)
          && (There(x, t.events, u.at, u) <==> !(t.end.KeyError? && i == |t.lookups| - 1)))
    && (t.end.KeyError? ==> t.lookups != [])
  }

  /** More events do not disturb what the lookups saw. */
  lemma Longer(x: Scene, t: Trace, v: Trace)
    requires TraceOk(x, t) && t.events <= v.events && v.lookups == t.lookups && v.end.KeyError? == t.end.KeyError?
    ensures TraceOk(x, v)
  {
    hide Run;
    forall n: nat | n <= |t.events| ensures v.events[..n] == t.events[..n] { }
  }

  lemma {:induction false} VisitQueueOk(x: Scene, t: Trace, kind: Kind, id: QueueId, ns: seq<nat>)
    requires TraceOk(x, t) && !t.end.KeyError?
    ensures var v := VisitQueue(x, t, kind, id, ns);
            TraceOk(x, v) && !v.end.KeyError? && t.events <= v.events && v.lookups == t.lookups
    decreases |ns|
  {
    hide TraceOk, Run;
    if ns != [] && t.end.Going? {
      var u := Visit(x, t, kind, id, ns[0]);
      assert t.events <= u.events && u.lookups == t.lookups;
      Longer(x, t, u);
      VisitQueueOk(x, u, kind, id, ns[1..]);
    }
  }

  lemma TurnOk(x: Scene, t: Trace, kind: Kind, id: QueueId, listed: nat)
    requires TraceOk(x, t) && t.end.Going? && listed <= |t.events|
    requires HasQueue(Run(x.s0, t.events[..listed]), x.c, kind, id)
    ensures var v := Turn(x, t, kind, id, listed);
            TraceOk(x, v) && t.events <= v.events
  {
    hide Run, VisitQueue;
    var found := id in Table(x, t, kind);
    var u := t.(lookups := t.lookups + [Lookup(kind, id, listed, |t.events|)],
                end := if found then Going else KeyError);
    assert t.events[..|t.events|] == t.events;
    assert TraceOk(x, u);
    if found { VisitQueueOk(x, u, kind, id, Sorted(Table(x, t, kind)[id].Keys)); }
  }

  lemma {:induction false} TurnsOk(x: Scene, t: Trace, kind: Kind, ids: seq<QueueId>, listed: nat)
    requires TraceOk(x, t) && listed <= |t.events|
    requires forall id :: id in ids ==> HasQueue(Run(x.s0, t.events[..listed]), x.c, kind, id)
    ensures var v := Turns(x, t, kind, ids, listed); TraceOk(x, v) && t.events <= v.events
    decreases |ids|
  {
    hide Run, Turn, TraceOk;
    if ids != [] && t.end.Going? {
      TurnOk(x, t, kind, ids[0], listed);
      var u := Turn(x, t, kind, ids[0], listed);
      assert u.events[..listed] == t.events[..listed];
      TurnsOk(x, u, kind, ids[1..], listed);
    }
  }

  lemma {:induction false} ScanKindsOk(x: Scene, t: Trace, kinds: seq<Kind>)
    requires Lists(x) && TraceOk(x, t)
    ensures TraceOk(x, ScanKinds(x, t, kinds))
    decreases |kinds|
  {
    hide Run, Turns, TraceOk;
    if kinds != [] && t.end.Going? {
      var ids := x.order(Table(x, t, kinds[0]).Keys);
      assert t.events[..|t.events|] == t.events;
      TurnsOk(x, t, kinds[0], ids, |t.events|);
      ScanKindsOk(x, Turns(x, t, kinds[0], ids, |t.events|), kinds[1..]);
    }
  }

  lemma {:induction false} RunSplit(s: Sys, events: seq<Event>, n: nat)
    requires n <= |events|
    ensures Run(s, events) == Run(Run(s, events[..n]), events[n..])
    decreases |events|
  {
    if n == |events| {
      assert events[..n] == events;
    } else {
      RunSplit(s, events[..|events| - 1], n);
      assert events[..|events| - 1][..n] == events[..n];
      assert events[n..][..|events[n..]| - 1] == events[..|events| - 1][n..];
    }
  }

  /** Between the listing of the id and its turn, some step removed the queue, by dequeueing it as
      a whole or by settling the last of its probes, and none made it again. */
  ghost predicate Lost(x: Scene, t: Trace, u: Lookup) {
    && u in t.lookups && u.listed <= u.at <= |t.events|
    && exists k: nat :: GoneSince(Run(x.s0, t.events[..u.listed]), t.events[u.listed..u.at], k, x.c, u.kind, u.id)
  }

  /** Exactly then a scan ends with a KeyError. */
  lemma ScanFailsExactly(x: Scene)
    requires Lists(x)
    ensures var t := ScanKinds(x, START, KINDS);
            t.end.KeyError? <==> exists u :: Lost(x, t, u)
  {
    var t := ScanKinds(x, START, KINDS);
    ScanKindsOk(x, START, KINDS);
    hide ScanKinds, Run, GoneSince;
    forall i | 0 <= i < |t.lookups|
      ensures var u := t.lookups[i]; Lost(x, t, u) <==> !There(x, t.events, u.at, u)
    {
      var u := t.lookups[i];
      assert There(x, t.events, u.listed, u);
      assert t.events[..u.at][..u.listed] == t.events[..u.listed] &&
        t.events[..u.at][u.listed..] == t.events[u.listed..u.at];
      RunSplit(x.s0, t.events[..u.at], u.listed);
      PresenceExactly(Run(x.s0, t.events[..u.listed]), t.events[u.listed..u.at], x.c, u.kind, u.id);
    }
    if t.end.KeyError? {
      assert Lost(x, t, t.lookups[|t.lookups| - 1]);
    } else {
      forall u ensures !Lost(x, t, u) {
        assert u in t.lookups ==> exists i :: 0 <= i < |t.lookups| && t.lookups[i] == u;
      }
    }
  }

  // ---- in reachable states ------------------------------------------------------------------------

  lemma {:induction false} Reaches(init: Sys, pre: seq<Event>, more: seq<Event>)
    ensures Run(Run(init, pre), more) == Run(init, pre + more)
  {
    RunSplit(init, pre + more, |pre|);
    assert (pre + more)[..|pre|] == pre && (pre + more)[|pre|..] == more;
  }

  ghost predicate Reachable(init: Sys, pre: seq<Event>, x: Scene) { Initial(init) && x.s0 == Run(init, pre) }

  lemma OneShotsAt(init: Sys, pre: seq<Event>, x: Scene, events: seq<Event>)
    requires Reachable(init, pre, x)
    ensures OneShotInv(Run(x.s0, events))
  {
    Reaches(init, pre, events);
    RunOneShots(init, pre + events);
  }

  /** Probes are one-shot: their queues are listed and looked up without a suspension. */
  lemma {:induction false} ProbesAtOnce(init: Sys, pre: seq<Event>, x: Scene, t: Trace, id: QueueId, ns: seq<nat>)
    requires Reachable(init, pre, x)
    ensures VisitQueue(x, t, PROBE, id, ns).events == t.events
    ensures VisitQueue(x, t, PROBE, id, ns).lookups == t.lookups
    decreases |ns|
  {
    if ns != [] && t.end.Going? {
      OneShotsAt(init, pre, x, t.events);
      var u := Visit(x, t, PROBE, id, ns[0]);
      hide Run;
      assert u.events == t.events by {
        var s := State(x, t);
        if x.c in s.clients { assert OneShots(s.clients[x.c]); }
      }
      ProbesAtOnce(init, pre, x, u, id, ns[1..]);
    }
  }

  predicate ProbeLookups(t: Trace) {
    forall i :: 0 <= i < |t.lookups| && t.lookups[i].kind.PROBE? ==> t.lookups[i].listed == t.lookups[i].at
  }

  lemma {:induction false} SameLookups(x: Scene, t: Trace, kind: Kind, id: QueueId, ns: seq<nat>)
    ensures VisitQueue(x, t, kind, id, ns).lookups == t.lookups
    decreases |ns|
  {
    hide Run;
    if ns != [] && t.end.Going? { SameLookups(x, Visit(x, t, kind, id, ns[0]), kind, id, ns[1..]); }
  }

  lemma {:induction false} TurnsProbes(init: Sys, pre: seq<Event>, x: Scene, t: Trace, kind: Kind, ids: seq<QueueId>,
                                       listed: nat)
    requires Reachable(init, pre, x) && ProbeLookups(t) && (kind.PROBE? ==> listed == |t.events|)
    ensures ProbeLookups(Turns(x, t, kind, ids, listed))
    decreases |ids|
  {
    hide Run, VisitQueue, Reachable;
    if ids != [] && t.end.Going? {
      var u, qs := t.(lookups := t.lookups + [Lookup(kind, ids[0], listed, |t.events|)]), Table(x, t, kind);
      if ids[0] in qs {
        var ns := Sorted(qs[ids[0]].Keys);
        SameLookups(x, u, kind, ids[0], ns);
        if kind.PROBE? { ProbesAtOnce(init, pre, x, u, ids[0], ns); }
      }
      TurnsProbes(init, pre, x, Turn(x, t, kind, ids[0], listed), kind, ids[1..], listed);
    }
  }

  lemma {:induction false} ScanProbes(init: Sys, pre: seq<Event>, x: Scene, t: Trace, kinds: seq<Kind>)
    requires Reachable(init, pre, x) && ProbeLookups(t)
    ensures ProbeLookups(ScanKinds(x, t, kinds))
    decreases |kinds|
  {
    hide Run, Turns, Reachable;
    if kinds != [] && t.end.Going? {
      var ids := x.order(Table(x, t, kinds[0]).Keys);
      TurnsProbes(init, pre, x, t, kinds[0], ids, |t.events|);
      ScanProbes(init, pre, x, Turns(x, t, kinds[0], ids, |t.events|), kinds[1..]);
    }
  }

  /** After its listing and before its turn the queue was dequeued as a whole, by the k-th event,
      and not made again. */
  predicate DequeuedAt(x: Scene, t: Trace, u: Lookup, k: nat) {
    && u in t.lookups && u.listed <= k < u.at <= |t.events|
    && t.events[k] == Dequeued(x.c, u.kind, u.id, None)
    && forall j :: k < j < u.at ==> !Creates(Run(x.s0, t.events[..j]), t.events[j], x.c, u.kind, u.id)
  }

  /** In a reachable system a scan ends with a KeyError exactly if a message or ack queue it had
      listed was dequeued as a whole before its turn and not made again. Acks that settle the
      last probe of a queue remove it too, but never between listing and turn. */
  lemma ScanFailsByDequeue(init: Sys, pre: seq<Event>, x: Scene)
    requires Reachable(init, pre, x) && Lists(x)
    ensures var t := ScanKinds(x, START, KINDS);
            && (t.end.KeyError? <==> exists u, k :: DequeuedAt(x, t, u, k))
            && forall u, k :: DequeuedAt(x, t, u, k) ==> !u.kind.PROBE?
  {
    var t := ScanKinds(x, START, KINDS);
    ScanFailsExactly(x);
    ScanProbes(init, pre, x, START, KINDS);
    hide ScanKinds, Run, Reachable, Lists;
    forall u | Lost(x, t, u) ensures exists k :: DequeuedAt(x, t, u, k) {
      LostByDequeue(init, pre, x, t, u);
    }
    forall u, k | DequeuedAt(x, t, u, k) ensures Lost(x, t, u) && !u.kind.PROBE? {
      DequeueLoses(x, t, u, k);
      assert exists i :: 0 <= i < |t.lookups| && t.lookups[i] == u;
    }
  }

  lemma Segment(x: Scene, t: Trace, a: nat, b: nat, j: nat)
    requires a <= b <= |t.events| && j < b - a
    ensures t.events[a..b][j] == t.events[a + j]
    ensures Run(Run(x.s0, t.events[..a]), t.events[a..b][..j]) == Run(x.s0, t.events[..a + j])
  {
    RunSplit(x.s0, t.events[..a + j], a);
    assert t.events[..a + j][..a] == t.events[..a] && t.events[..a + j][a..] == t.events[a..b][..j];
  }

  lemma NoSettlesLast(s: Sys, e: Event, c: Cid, kind: Kind, id: QueueId)
    requires OneShotInv(s) && !kind.PROBE? && Removes(s, e, c, kind, id)
    ensures e == Dequeued(c, kind, id, None)
  {
    assert c in s.clients ==> OneShots(s.clients[c]);
  }

  lemma LostByDequeue(init: Sys, pre: seq<Event>, x: Scene, t: Trace, u: Lookup)
    requires Reachable(init, pre, x) && Lost(x, t, u) && ProbeLookups(t)
    ensures exists k :: DequeuedAt(x, t, u, k)
  {
    hide Run, Creates, Removes, Reachable, OneShotInv;
    var a, es := u.listed, t.events[u.listed..u.at];
    var start := Run(x.s0, t.events[..a]);
    var k: nat :| GoneSince(start, es, k, x.c, u.kind, u.id);
    var i :| 0 <= i < |t.lookups| && t.lookups[i] == u;
    assert u.kind.PROBE? ==> |es| == 0;
    Segment(x, t, a, u.at, k);
    OneShotsAt(init, pre, x, t.events[..a + k]);
    NoSettlesLast(Run(x.s0, t.events[..a + k]), t.events[a + k], x.c, u.kind, u.id);
    forall j | a + k < j < u.at
      ensures !Creates(Run(x.s0, t.events[..j]), t.events[j], x.c, u.kind, u.id)
    {
      Segment(x, t, a, u.at, j - a);
      assert !Creates(Run(start, es[..j - a]), es[j - a], x.c, u.kind, u.id);
    }
    assert DequeuedAt(x, t, u, a + k);
  }

  lemma DequeueLoses(x: Scene, t: Trace, u: Lookup, k: nat)
    requires DequeuedAt(x, t, u, k)
    ensures Lost(x, t, u)
  {
    hide Run, Creates;
    var a, es := u.listed, t.events[u.listed..u.at];
    var start := Run(x.s0, t.events[..a]);
    Segment(x, t, a, u.at, k - a);
    forall j | k - a < j < |es| ensures !Creates(Run(start, es[..j]), es[j], x.c, u.kind, u.id) {
      Segment(x, t, a, u.at, j);
      assert !Creates(Run(x.s0, t.events[..a + j]), t.events[a + j], x.c, u.kind, u.id);
    }
    assert GoneSince(start, es, k - a, x.c, u.kind, u.id);
  }

  // ---- what a scan does when it succeeds ------------------------------------------------------------

  /** Every queue the client had when some point of the scan was reached has had its turn. */
  ghost predicate AllTurned(x: Scene, t: Trace, kind: Kind) {
    exists listed: nat :: listed <= |t.events| && Turned(x, t, kind, listed)
  }

  ghost predicate Turned(x: Scene, t: Trace, kind: Kind, listed: nat)
    requires listed <= |t.events|
  {
    forall id :: HasQueue(Run(x.s0, t.events[..listed]), x.c, kind, id) ==>
                   exists u :: u in t.lookups && u.kind == kind && u.id == id && u.listed == listed
  }

  lemma {:induction false} TurnsAll(x: Scene, t: Trace, kind: Kind, ids: seq<QueueId>, listed: nat)
    ensures var v := Turns(x, t, kind, ids, listed);
            && t.events <= v.events && t.lookups <= v.lookups
            && (v.end.Going? ==> forall id :: id in ids ==>
                  exists u :: u in v.lookups && u.kind == kind && u.id == id && u.listed == listed)
    decreases |ids|
  {
    hide Run;
    if ids != [] && t.end.Going? {
      var first := Lookup(kind, ids[0], listed, |t.events|);
      var u := Turn(x, t, kind, ids[0], listed);
      TurnGrows(x, t, kind, ids[0], listed);
      hide Turn;
      TurnsAll(x, u, kind, ids[1..], listed);
      var v := Turns(x, u, kind, ids[1..], listed);
      assert v.lookups[|t.lookups|] == u.lookups[|t.lookups|] == first;
      assert first in v.lookups && forall id :: id in ids <==> id == ids[0] || id in ids[1..];
    }
  }

  lemma TurnGrows(x: Scene, t: Trace, kind: Kind, id: QueueId, listed: nat)
    ensures var v := Turn(x, t, kind, id, listed);
            t.events <= v.events && v.lookups == t.lookups + [Lookup(kind, id, listed, |t.events|)]
  {
    var u, qs := t.(lookups := t.lookups + [Lookup(kind, id, listed, |t.events|)]), Table(x, t, kind);
    if id in qs {
      SameLookups(x, u, kind, id, Sorted(qs[id].Keys));
      QueueGrows(x, u, kind, id, Sorted(qs[id].Keys));
    }
    hide Run, VisitQueue;
  }

  lemma {:induction false} QueueGrows(x: Scene, t: Trace, kind: Kind, id: QueueId, ns: seq<nat>)
    ensures t.events <= VisitQueue(x, t, kind, id, ns).events
    decreases |ns|
  {
    hide Run;
    if ns != [] && t.end.Going? { QueueGrows(x, Visit(x, t, kind, id, ns[0]), kind, id, ns[1..]); }
  }

  lemma {:induction false} KindsTurned(x: Scene, t: Trace, kinds: seq<Kind>)
    requires Lists(x)
    ensures var v := ScanKinds(x, t, kinds);
            && t.events <= v.events && t.lookups <= v.lookups
            && (v.end.Going? ==> forall kind :: kind in kinds ==> AllTurned(x, v, kind))
    decreases |kinds|
  {
    hide Run, Turns;
    if kinds != [] && t.end.Going? {
      var ids, listed := x.order(Table(x, t, kinds[0]).Keys), |t.events|;
      var u := Turns(x, t, kinds[0], ids, listed);
      TurnsAll(x, t, kinds[0], ids, listed);
      KindsTurned(x, u, kinds[1..]);
      var v := ScanKinds(x, u, kinds[1..]);
      if v.end.Going? {
        StaysEnded(x, u, kinds[1..]);
        assert v.events[..listed] == t.events;
        forall id | HasQueue(Run(x.s0, t.events), x.c, kinds[0], id)
          ensures exists w :: w in v.lookups && w.kind == kinds[0] && w.id == id && w.listed == listed
        {
          assert id in ids;
          var w :| w in u.lookups && w.kind == kinds[0] && w.id == id && w.listed == listed;
          assert w in v.lookups;
        }
        assert Turned(x, v, kinds[0], listed);
      }
    }
  }

  lemma StaysEnded(x: Scene, t: Trace, kinds: seq<Kind>)
    ensures !t.end.Going? ==> ScanKinds(x, t, kinds) == t
  {
  }

  /** A scan that completes has given a turn, for every message type, to every queue that was
      there when it came to that type. */
  lemma CompletedScanTurnsAll(x: Scene, kind: Kind)
    requires Lists(x)
    ensures var t := ScanKinds(x, START, KINDS);
            t.end.Going? ==> AllTurned(x, t, kind)
  {
    hide ScanKinds, AllTurned;
    KindsTurned(x, START, KINDS);
    assert kind in KINDS;
  }

  lemma SortedOne(s: set<nat>, n: nat)
    requires s == {n}
    ensures Sorted(s) == [n]
  {
    var r := Sorted(s);
    forall i | 0 <= i < |r| ensures r[i] == n {
      assert r[i] in r;
    }
    assert n in r;
  }

  /** The turn of a queue with one entry, which is published. */
  lemma OneEntryTurn(x: Scene, t: Trace, kind: Kind, id: QueueId, n: nat, listed: nat)
    requires t.end.Going? && id in Table(x, t, kind) && Table(x, t, kind)[id].Keys == {n} && x.alive(t.visits)
    requires RepublishMeta(x.cfg, Table(x, t, kind)[id][n], x.Now(), x.jitter(t.visits)).1
    ensures Turn(x, t, kind, id, listed)
            == Trace(t.events + [Republish(x.c, kind, id, n, x.Now())] + x.others(t.visits), t.visits + 1,
                     t.lookups + [Lookup(kind, id, listed, |t.events|)], Going)
  {
    hide Run, RepublishMeta;
    var u := t.(lookups := t.lookups + [Lookup(kind, id, listed, |t.events|)]);
    SortedOne(Table(x, t, kind)[id].Keys, n);
    assert Table(x, u, kind) == Table(x, t, kind) && [n][1..] == [];
    assert VisitQueue(x, u, kind, id, [n]) == Visit(x, u, kind, id, n);
  }

  lemma TwoTurns(x: Scene, t: Trace, kind: Kind, a: QueueId, b: QueueId, listed: nat)
    requires t.end.Going? && Turn(x, t, kind, a, listed).end.Going?
    ensures Turns(x, t, kind, [a, b], listed) == Turn(x, Turn(x, t, kind, a, listed), kind, b, listed)
  {
    hide Turn;
    assert [a, b][1..] == [b] && [b][1..] == [];
    assert Turns(x, Turn(x, t, kind, a, listed), kind, [b], listed)
        == Turn(x, Turn(x, t, kind, a, listed), kind, b, listed);
  }

  /** A scan of a client with two message queues, up to the turn of the second. */
  lemma SecondTurn(x: Scene, a: QueueId, b: QueueId, n: nat)
    requires x.c in x.s0.clients && a != b
    requires var qs := x.s0.clients[x.c].msgs;
             && qs.Keys == {a, b} && qs[a].Keys == {n} && x.order(qs.Keys) == [a, b]
             && x.alive(0) && RepublishMeta(x.cfg, qs[a][n], x.Now(), x.jitter(0)).1
    ensures var t := Trace([Republish(x.c, MSG, a, n, x.Now())] + x.others(0), 1, [Lookup(MSG, a, 0, 0)], Going);
            ScanKinds(x, START, KINDS) == ScanKinds(x, Turn(x, t, MSG, b, 0), [MSGACK, PROBE])
  {
    var none: seq<Event>, sent := [], Republish(x.c, MSG, a, n, x.Now());
    assert Table(x, START, MSG) == x.s0.clients[x.c].msgs;
    hide Run, RepublishMeta, Table;
    OneEntryTurn(x, START, MSG, a, n, 0);
    assert none + [sent] + x.others(0) == [sent] + x.others(0);
    assert START.lookups + [Lookup(MSG, a, 0, 0)] == [Lookup(MSG, a, 0, 0)];
    hide Turn, Turns;
    TwoTurns(x, START, MSG, a, b, 0);
    assert KINDS[0] == MSG && KINDS[1..] == [MSGACK, PROBE];
  }

  /** The cleanup of a send ends a scan: the first of two listed queues is published, and while
      the scan waits the second is dequeued. */
  lemma CleanupEndsScan(x: Scene, a: QueueId, b: QueueId, n: nat)
    requires x.c in x.s0.clients && a != b
    requires var qs := x.s0.clients[x.c].msgs;
             && qs.Keys == {a, b} && qs[a].Keys == {n} && x.order(qs.Keys) == [a, b]
             && x.alive(0) && RepublishMeta(x.cfg, qs[a][n], x.Now(), x.jitter(0)).1 && !qs[a][n].oneShot
    requires x.others(0) == [Dequeued(x.c, MSG, b, None)]
    ensures ScanKinds(x, START, KINDS).end == KeyError
  {
    var sent, gone := Republish(x.c, MSG, a, n, x.Now()), Dequeued(x.c, MSG, b, None);
    SecondTurn(x, a, b, n);
    hide Step, RepublishMeta;
    TwoSteps(x.s0, sent, gone);
    AfterDequeue(Step(x.s0, sent), x.c, MSG, b);
    hide Run, ScanKinds, VisitQueue;
    var t := Trace([sent] + x.others(0), 1, [Lookup(MSG, a, 0, 0)], Going);
    assert b !in Table(x, t, MSG);
    StaysEnded(x, Turn(x, t, MSG, b, 0), [MSGACK, PROBE]);
  }

  lemma AfterDequeue(s: Sys, c: Cid, kind: Kind, id: QueueId)
    ensures var t := Step(s, Dequeued(c, kind, id, None)); c in t.clients ==> id !in t.clients[c].Of(kind)
  {
  }

  lemma TwoSteps(s: Sys, e: Event, f: Event)
    ensures Run(s, [e]) == Step(s, e) && Run(s, [e] + [f]) == Step(Step(s, e), f)
  {
    hide Step;
    var none: seq<Event> := [];
    assert [e][..0] == none && ([e] + [f])[..1] == [e] && Run(s, none) == s;
  }

  // ---- when it stops, and in which order it goes -----------------------------------------------------

  lemma {:induction false} QueueStops(x: Scene, t: Trace, kind: Kind, id: QueueId, ns: seq<nat>, i: nat)
    requires !x.alive(i) && t.visits <= i && (t.end.PipeLost? ==> !x.alive(t.visits))
    ensures var v := VisitQueue(x, t, kind, id, ns); v.visits <= i && (v.end.PipeLost? ==> !x.alive(v.visits))
    decreases |ns|
  {
    hide Run, RepublishMeta;
    if ns != [] && t.end.Going? { QueueStops(x, Visit(x, t, kind, id, ns[0]), kind, id, ns[1..], i); }
  }

  lemma {:induction false} TurnsStop(x: Scene, t: Trace, kind: Kind, ids: seq<QueueId>, listed: nat, i: nat)
    requires !x.alive(i) && t.visits <= i && (t.end.PipeLost? ==> !x.alive(t.visits))
    ensures var v := Turns(x, t, kind, ids, listed); v.visits <= i && (v.end.PipeLost? ==> !x.alive(v.visits))
    decreases |ids|
  {
    hide Run, VisitQueue;
    if ids != [] && t.end.Going? {
      var u, qs := t.(lookups := t.lookups + [Lookup(kind, ids[0], listed, |t.events|)]), Table(x, t, kind);
      if ids[0] in qs { QueueStops(x, u, kind, ids[0], Sorted(qs[ids[0]].Keys), i); }
      TurnsStop(x, Turn(x, t, kind, ids[0], listed), kind, ids[1..], listed, i);
    }
  }

  lemma {:induction false} KindsStop(x: Scene, t: Trace, kinds: seq<Kind>, i: nat)
    requires !x.alive(i) && t.visits <= i && (t.end.PipeLost? ==> !x.alive(t.visits))
    ensures var v := ScanKinds(x, t, kinds); v.visits <= i && (v.end.PipeLost? ==> !x.alive(v.visits))
    decreases |kinds|
  {
    hide Run, Turns;
    if kinds != [] && t.end.Going? {
      var ids := x.order(Table(x, t, kinds[0]).Keys);
      TurnsStop(x, t, kinds[0], ids, |t.events|, i);
      KindsStop(x, Turns(x, t, kinds[0], ids, |t.events|), kinds[1..], i);
    }
  }

  /** A scan visits no entry once it finds the pipe down, and gives up for no other reason. */
  lemma StopsWhenPipeLost(x: Scene, i: nat)
    requires !x.alive(i)
    ensures var t := ScanKinds(x, START, KINDS); t.visits <= i && (t.end.PipeLost? ==> !x.alive(t.visits))
  {
    KindsStop(x, START, KINDS, i);
  }

  /** Messages come before acks, and acks before probes. */
  function Place(kind: Kind): nat { match kind case MSG => 0 case MSGACK => 1 case PROBE => 2 }

  ghost predicate InPlace(us: seq<Lookup>, from: nat) {
    && (forall i, j :: 0 <= i < j < |us| ==> Place(us[i].kind) <= Place(us[j].kind))
    && (forall i :: 0 <= i < |us| ==> Place(us[i].kind) <= from)
  }

  lemma {:induction false} TurnsInPlace(x: Scene, t: Trace, kind: Kind, ids: seq<QueueId>, listed: nat)
    requires InPlace(t.lookups, Place(kind))
    ensures InPlace(Turns(x, t, kind, ids, listed).lookups, Place(kind))
    decreases |ids|
  {
    hide Run, VisitQueue;
    if ids != [] && t.end.Going? {
      TurnGrows(x, t, kind, ids[0], listed);
      hide Turn;
      TurnsInPlace(x, Turn(x, t, kind, ids[0], listed), kind, ids[1..], listed);
    }
  }

  lemma {:induction false} KindsInPlace(x: Scene, t: Trace, kinds: seq<Kind>)
    requires kinds != [] ==> InPlace(t.lookups, Place(kinds[0]))
    requires InPlace(t.lookups, 2)
    requires forall i, j :: 0 <= i < j < |kinds| ==> Place(kinds[i]) <= Place(kinds[j])
    ensures InPlace(ScanKinds(x, t, kinds).lookups, 2)
    decreases |kinds|
  {
    hide Run, Turns;
    if kinds != [] && t.end.Going? {
      var ids := x.order(Table(x, t, kinds[0]).Keys);
      TurnsInPlace(x, t, kinds[0], ids, |t.events|);
      KindsInPlace(x, Turns(x, t, kinds[0], ids, |t.events|), kinds[1..]);
    }
  }

  /** A scan goes through all its message queues before it comes to acks, and through these before
      it comes to probes. */
  lemma ScanInOrder(x: Scene, i: nat, j: nat)
    requires i < j < |ScanKinds(x, START, KINDS).lookups|
    ensures var us := ScanKinds(x, START, KINDS).lookups;
            && (us[j].kind.MSG? ==> us[i].kind.MSG?)
            && (us[j].kind.MSGACK? ==> !us[i].kind.PROBE?)
  {
    KindsInPlace(x, START, KINDS);
  }
}
