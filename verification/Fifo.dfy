/** In-order delivery of one message queue whose caller awaits each ack before queueing the next
    message. Everything else in the system is free: other queues, other senders, the network.

    The dispatcher enforces no order and the network reorders freely; order comes from
    stop-and-wait across the two peers. The clock matters only for repetition. */
module Fifo {
  import opened Basics
  import opened Messages
  import opened ClientOps
  import opened Delivery
  import opened AtMostOnce

  /** One message queue: the client and id it lives under, and the peer it is for. */
  datatype Lane = Lane(owner: Cid, dest: Key, id: QueueId)

  /** The system with the history of one lane: the packets queued in it, how many of its futures
      were resolved by acks, and the contents queued for its peer in any other way. */
  datatype World = World(sys: Sys, pkts: seq<Packet>, acked: nat, others: set<Bytes>)

  predicate InLane(l: Lane, p: Packet) { p.src == l.owner.node && p.queueId == l.id }

  function Contents(pkts: seq<Packet>): (r: seq<Bytes>)
    ensures |r| == |pkts|
  {
    seq(|pkts|, i requires 0 <= i < |pkts| => pkts[i].msg)
  }

  predicate Accepts(s: Sys, e: Event) { e.Send? && e.c in s.clients && ValidIds(e.id, e.dest) }

  predicate Queues(s: Sys, l: Lane, e: Event) { Accepts(s, e) && e.c == l.owner && e.id == l.id }

  /** The caller holds the ack of the latest message of the lane. */
  predicate Awaited(w: World, l: Lane) {
    && l.owner in w.sys.clients && |w.pkts| > 0 && Has(w.sys.clients[l.owner].msgs, l.id, |w.pkts| - 1)
    && w.sys.clients[l.owner].msgs[l.id][|w.pkts| - 1].ack == ByAck
  }

  /** What the lane's own caller keeps to: the queue is for one peer, is numbered by the client,
      is extended only when the latest ack is there, and the sender does not use its id towards
      that peer on another client or for a probe. Every other step is free. */
  predicate OneAtATime(w: World, l: Lane, e: Event) {
    match e
    case Send(c, _, dest, id, at) =>
      c.node == l.owner.node && id == l.id && Accepts(w.sys, e) ==>
        if c == l.owner then dest == l.dest && at.None? && (w.pkts == [] || Awaited(w, l)) else dest != l.dest
    case Probe(c, dest, id) => !(c.node == l.owner.node && id == l.id && dest == l.dest)
    case _ => true
  }

  /** Nothing else is sent to the lane's peer with a content of the lane. */
  predicate FreshContent(w: World, l: Lane, e: Event) {
    e.Send? && e.dest == l.dest ==> e.msg !in Contents(w.pkts) && (Queues(w.sys, l, e) ==> e.msg !in w.others)
  }

  predicate Resolves(s: Sys, t: Sys, l: Lane, n: nat) {
    var c := l.owner;
    && c in s.clients && Has(s.clients[c].msgs, l.id, n) && s.clients[c].msgs[l.id][n].ack == Pending
    && c in t.clients && Has(t.clients[c].msgs, l.id, n) && t.clients[c].msgs[l.id][n].ack == ByAck
  }

  function Queued(s: Sys, l: Lane, e: Event): Packet
    requires Queues(s, l, e)
  {
    var r := OrderedSend(s.clients[l.owner], l.owner.node, s.clock, e.msg, e.dest, l.id, MSG, e.at);
    assert r.Queued?;
    r.out
  }

  function Advance(w: World, l: Lane, e: Event): World {
    var t := Step(w.sys, e);
    if Queues(w.sys, l, e) then w.(sys := t, pkts := w.pkts + [Queued(w.sys, l, e)])
    else if e.Send? && e.dest == l.dest then w.(sys := t, others := w.others + {e.msg})
    else if e.Deliver? && e.c == l.owner && Resolves(w.sys, t, l, e.w.pkt.seqNo) then w.(sys := t, acked := w.acked + 1)
    else w.(sys := t)
  }

  function After(s: Sys, l: Lane, events: seq<Event>): World {
    if events == [] then World(s, [], 0, {}) else Advance(After(s, l, events[..|events| - 1]), l, events[|events| - 1])
  }

  ghost predicate AwaitedRun(s: Sys, l: Lane, events: seq<Event>)
    decreases |events|
  {
    if events == [] then Initial(s)
    else
      && AwaitedRun(s, l, events[..|events| - 1])
      && OneAtATime(After(s, l, events[..|events| - 1]), l, events[|events| - 1])
  }

  ghost predicate FreshRun(s: Sys, l: Lane, events: seq<Event>)
    decreases |events|
  {
    events != [] ==>
      && FreshRun(s, l, events[..|events| - 1])
      && FreshContent(After(s, l, events[..|events| - 1]), l, events[|events| - 1])
  }

  lemma {:induction false} AfterIsRun(s: Sys, l: Lane, events: seq<Event>)
    ensures After(s, l, events).sys == Run(s, events)
  {
    hide Step;
    if events != [] {
      AfterIsRun(s, l, events[..|events| - 1]);
    }
  }

  // ---- the sender's side: no contents, no clock -------------------------------------------------

  predicate OfLane(w: World, p: Packet) { p.kind.MSG? && p.seqNo < |w.pkts| && p == w.pkts[p.seqNo] }

  predicate WireOf(w: World, l: Lane, x: Wire) {
    x.topic == l.dest && InLane(l, x.pkt) && !x.pkt.kind.MSGACK? ==> OfLane(w, x.pkt)
  }

  predicate EntryOf(w: World, l: Lane, k: nat, m: Meta) {
    && k < |w.pkts| && m.out == w.pkts[k] && m.dest == l.dest && !m.oneShot
    && (m.ack == ByAck <==> k < w.acked)
  }

  ghost predicate LaneQueue(w: World, l: Lane, q: Queue) {
    w.pkts != [] && Numbered(q, |w.pkts|) && forall k :: k in q ==> EntryOf(w, l, k, q[k])
  }

  /** The other clients of the sender hold nothing for the lane's peer under the id. */
  ghost predicate ClientOf(w: World, l: Lane, c: Cid, client: Client) {
    c.node == l.owner.node ==>
      && (l.id in client.msgs ==>
            if c == l.owner then LaneQueue(w, l, client.msgs[l.id])
            else forall n :: n in client.msgs[l.id] ==> client.msgs[l.id][n].dest != l.dest)
      && (l.id in client.probes ==> forall n :: n in client.probes[l.id] ==> client.probes[l.id][n].dest != l.dest)
  }

  ghost predicate Shape(w: World, l: Lane) {
    && w.acked <= |w.pkts| <= w.acked + 1
    && (forall k :: 0 <= k < |w.pkts| ==> w.pkts[k].kind.MSG? && InLane(l, w.pkts[k]) && w.pkts[k].seqNo == k)
  }

  ghost predicate Wires(w: World, l: Lane) { forall x :: x in w.sys.net ==> WireOf(w, l, x) }

  ghost predicate Clients(w: World, l: Lane) {
    forall c :: c in w.sys.clients ==> ClientOf(w, l, c, w.sys.clients[c])
  }

  ghost predicate AckedHandled(w: World, l: Lane) {
    w.acked <= |w.pkts| && forall k :: 0 <= k < w.acked ==> Handled(w.sys, l.dest, w.pkts[k].msg)
  }

  ghost predicate SenderInv(w: World, l: Lane) { Shape(w, l) && Wires(w, l) && Clients(w, l) && AckedHandled(w, l) }

  /** One client's queues replaced by sound ones, sound packets published, handlers called. */
  lemma ClientKeeps(w: World, l: Lane, t: Sys, c: Cid, wires: set<Wire>)
    requires SenderInv(w, l) && Extends(w.sys, t)
    requires c in t.clients && t.clients == w.sys.clients[c := t.clients[c]] && ClientOf(w, l, c, t.clients[c])
    requires t.net == w.sys.net + wires && forall x :: x in wires ==> WireOf(w, l, x)
    ensures SenderInv(w.(sys := t), l)
  {
    var v := w.(sys := t);
    assert forall d, k :: ClientOf(w, l, d, k) ==> ClientOf(v, l, d, k) by {
      forall q | LaneQueue(w, l, q) ensures LaneQueue(v, l, q) { }
    }
    ExtendsKeeps(w.sys, t);
    hide ClientOf, Handled, ReceiptOk, TaskOk, ClientOk, WireOk;
  }

  /** A client that keeps its message and probe queues. */
  lemma SameQueues(w: World, l: Lane, c: Cid, before: Client, after: Client)
    requires ClientOf(w, l, c, before) && after.msgs == before.msgs && after.probes == before.probes
    ensures ClientOf(w, l, c, after)
  {
  }

  lemma OtherSend(w: World, l: Lane, c: Cid, client: Client, now: real, msg: Bytes, dest: Key, id: QueueId,
                  at: Option<nat>)
    requires ClientOf(w, l, c, client) && (c.node == l.owner.node && id == l.id ==> c != l.owner && dest != l.dest)
    ensures var r := OrderedSend(client, c.node, now, msg, dest, id, MSG, at);
            r.Queued? ==> ClientOf(w, l, c, r.client)
  {
    if ValidIds(id, dest) {
      SendEffect(client, c.node, now, msg, dest, id, at);
      hide OrderedSend, LaneQueue;
    }
  }

  lemma OtherProbe(w: World, l: Lane, c: Cid, client: Client, now: real, dest: Key, id: QueueId)
    requires ClientOf(w, l, c, client) && !(c.node == l.owner.node && id == l.id && dest == l.dest)
    ensures var r := SendProbe(client, c.node, now, dest, id);
            r.Queued? ==> ClientOf(w, l, c, r.client) && WireOf(w, l, Wire(c.broker, dest, r.out))
  {
  }

  lemma TouchKeeps(w: World, l: Lane, c: Cid, client: Client, kind: Kind, id: QueueId, n: nat, now: real)
    requires ClientOf(w, l, c, client) && Has(client.Of(kind), id, n)
    ensures ClientOf(w, l, c, Touch(client, kind, id, n, now))
  {
  }

  /** What a republished entry sends fits the lane. */
  lemma EntryWire(w: World, l: Lane, c: Cid, client: Client, kind: Kind, id: QueueId, n: nat)
    requires ClientOf(w, l, c, client) && ClientOk(w.sys.receipts, c.node, client) && Has(client.Of(kind), id, n)
    requires Shape(w, l)
    ensures var m := client.Of(kind)[id][n]; WireOf(w, l, Wire(c.broker, m.dest, m.out))
  {
    hide Acked;
    assert EntryOk(w.sys.receipts, c.node, kind, id, n, client.Of(kind)[id][n]);
  }

  lemma DequeueKeeps(w: World, l: Lane, c: Cid, client: Client, kind: Kind, id: QueueId, which: Option<nat>)
    requires ClientOf(w, l, c, client)
    ensures ClientOf(w, l, c, Dequeue(client, kind, id, which))
  {
  }

  // deliveries of messages and probes, and the queueing of acks, only touch the acks

  lemma ArriveTouchesAcks(receipts: set<Receipt>, node: Key, client: Client, p: Packet)
    requires ClientOk(receipts, node, client)
    ensures var (k, again) := Arrive(client, p);
            k.msgs == client.msgs && k.probes == client.probes && (again.Some? ==> again.value.out.kind.MSGACK?)
  {
    ArriveOk(receipts, node, client, p);
    hide Acked;
  }

  lemma ProbeTouchesAcks(node: Key, client: Client, now: real, p: Packet)
    ensures var (k, sent) := OnProbe(client, node, now, p);
            k.msgs == client.msgs && k.probes == client.probes && (sent.Some? ==> sent.value.kind.MSGACK?)
  {
  }

  lemma AckTouchesAcks(node: Key, client: Client, now: real, p: Packet, out: Packet)
    ensures var b := BeginSend(client, node, now, ACK_TEXT, p.src, p.queueId, MSGACK, Some(p.seqNo));
            b.Queued? ==> b.client.msgs == client.msgs && b.client.probes == client.probes
    ensures out.kind.MSGACK? ==>
              var k := FinishSend(client, now, p.src, out); k.msgs == client.msgs && k.probes == client.probes
  {
  }

  /** `t` is `s` with client `c` replaced by one with the same messages and probes. */
  ghost predicate SameButAcks(s: Sys, t: Sys, c: Cid) {
    && c in s.clients && c in t.clients && t.clients == s.clients[c := t.clients[c]]
    && t.clients[c].msgs == s.clients[c].msgs && t.clients[c].probes == s.clients[c].probes
    && Extends(s, t)
  }

  lemma DeliveredMessage(s: Sys, c: Cid, x: Wire)
    requires ChainInv(s) && c in s.clients && x.pkt.kind.MSG?
    ensures var t := OnDeliver(s, c, x);
            SameButAcks(s, t, c) && (forall y :: y in t.net - s.net ==> y.pkt.kind.MSGACK?)
  {
    ChainClient(s, c);
    ArriveTouchesAcks(s.receipts, c.node, s.clients[c], x.pkt);
    hide ChainInv, ClientOk, Arrive, OnProbe, OnAck, TooOld;
    assert s.clients[c := s.clients[c]] == s.clients;
  }

  lemma DeliveredProbe(s: Sys, c: Cid, x: Wire)
    requires c in s.clients && x.pkt.kind.PROBE?
    ensures var t := OnDeliver(s, c, x);
            SameButAcks(s, t, c) && (forall y :: y in t.net - s.net ==> y.pkt.kind.MSGACK?)
  {
    ProbeTouchesAcks(c.node, s.clients[c], s.clock, x.pkt);
    hide Arrive, OnProbe, OnAck, TooOld;
    assert s.clients[c := s.clients[c]] == s.clients;
  }

  lemma DeliveredQueues(s: Sys, c: Cid, x: Wire)
    requires ChainInv(s) && c in s.clients && !x.pkt.kind.MSGACK?
    ensures var t := OnDeliver(s, c, x);
            && SameButAcks(s, t, c)
            && t.net == s.net + (t.net - s.net) && (forall y :: y in t.net - s.net ==> y.pkt.kind.MSGACK?)
  {
    hide OnDeliver, ChainInv;
    if x.pkt.kind.MSG? { DeliveredMessage(s, c, x); } else { DeliveredProbe(s, c, x); }
  }

  lemma ResumedQueues(s: Sys, i: nat)
    requires ChainInv(s) && i < |s.tasks| && !s.tasks[i].Finished? && s.tasks[i].at in s.clients
    ensures SameButAcks(s, OnResume(s, i), s.tasks[i].at) && OnResume(s, i).net == s.net + {}
  {
    var k := s.tasks[i];
    assert TaskOk(s, k);
    hide ChainInv, Handled, Published;
    AckTouchesAcks(k.at.node, s.clients[k.at], s.clock, k.pkt, if k.Signing? then k.out else k.pkt);
    hide TaskOk, BeginSend, FinishSend;
    assert s.clients[k.at := s.clients[k.at]] == s.clients && s.net + {} == s.net;
  }

  lemma DeliverKeeps(w: World, l: Lane, c: Cid, x: Wire)
    requires ChainInv(w.sys) && SenderInv(w, l) && c in w.sys.clients && !x.pkt.kind.MSGACK?
    ensures SenderInv(w.(sys := OnDeliver(w.sys, c, x)), l)
  {
    var s, t := w.sys, OnDeliver(w.sys, c, x);
    DeliveredQueues(s, c, x);
    hide OnDeliver, ChainInv, SenderInv, ClientOf, Extends, AckedHandled;
    ClientIn(w, l, c);
    SameQueues(w, l, c, s.clients[c], t.clients[c]);
    ClientKeeps(w, l, t, c, t.net - s.net);
  }

  lemma ClientIn(w: World, l: Lane, c: Cid)
    requires SenderInv(w, l) && c in w.sys.clients
    ensures ClientOf(w, l, c, w.sys.clients[c])
  {
    hide ClientOf;
  }

  lemma ResumeKeeps(w: World, l: Lane, i: nat)
    requires ChainInv(w.sys) && SenderInv(w, l) && i < |w.sys.tasks|
    ensures SenderInv(w.(sys := OnResume(w.sys, i)), l)
  {
    var s, t := w.sys, OnResume(w.sys, i);
    if s.tasks[i].Finished? || s.tasks[i].at !in s.clients {
      hide ChainInv, SenderInv;
      LogOnly(w, l, t);
    } else {
      var c := s.tasks[i].at;
      ResumedQueues(s, i);
      hide OnResume, ChainInv, SenderInv, ClientOf, Extends;
      ClientIn(w, l, c);
      SameQueues(w, l, c, s.clients[c], t.clients[c]);
      ClientKeeps(w, l, t, c, {});
    }
  }

  /** Clients and network stay; only the histories grow. */
  lemma LogOnly(w: World, l: Lane, t: Sys)
    requires SenderInv(w, l) && Extends(w.sys, t) && t.clients == w.sys.clients && t.net == w.sys.net
    ensures SenderInv(w.(sys := t), l)
  {
    var v := w.(sys := t);
    assert forall d, k :: ClientOf(w, l, d, k) ==> ClientOf(v, l, d, k) by {
      forall q | LaneQueue(w, l, q) ensures LaneQueue(v, l, q) { }
    }
    ExtendsKeeps(w.sys, t);
    hide ClientOf, Handled, ReceiptOk, TaskOk, ClientOk, WireOk;
  }

  // acks

  /** A packet of the lane's sender that reached the peer as a message or probe is the lane's. */
  lemma AckedPacket(w: World, l: Lane, k: nat)
    requires ChainInv(w.sys) && Wires(w, l) && Acked(w.sys.receipts, l.dest, l.owner.node, l.id, k)
    ensures k < |w.pkts| && Handled(w.sys, l.dest, w.pkts[k].msg)
  {
    hide ClientOk, WireOk, TaskOk, Handled;
    var r :| r in w.sys.receipts && r.node == l.dest && r.pkt.src == l.owner.node && r.pkt.queueId == l.id &&
      r.pkt.seqNo == k;
    assert ReceiptOk(w.sys, r);
    var x :| x in w.sys.net && x.topic == l.dest && x.pkt == r.pkt;
    assert WireOf(w, l, x);
  }

  /** An ack that settles nothing of the lane. */
  lemma IdleAck(w: World, l: Lane, c: Cid, client: Client, p: Packet)
    requires ClientOf(w, l, c, client)
    requires c == l.owner ==>
               !(Answers(client.msgs, p) && p.queueId == l.id && client.msgs[l.id][p.seqNo].ack == Pending)
    ensures ClientOf(w, l, c, OnAck(client, p))
  {
  }

  lemma SettlingAck(w: World, l: Lane, client: Client, p: Packet)
    requires ClientOf(w, l, l.owner, client) && w.acked <= |w.pkts| <= w.acked + 1
    requires Answers(client.msgs, p) && p.queueId == l.id && client.msgs[l.id][p.seqNo].ack == Pending
    ensures p.seqNo == w.acked && p.src == l.dest && w.acked < |w.pkts|
    ensures ClientOf(w.(acked := w.acked + 1), l, l.owner, OnAck(client, p))
    ensures Has(OnAck(client, p).msgs, l.id, p.seqNo) && OnAck(client, p).msgs[l.id][p.seqNo].ack == ByAck
  {
    assert EntryOf(w, l, p.seqNo, client.msgs[l.id][p.seqNo]);
  }

  lemma AckKeeps(w: World, l: Lane, c: Cid, x: Wire)
    requires ChainInv(w.sys) && SenderInv(w, l)
    requires c in w.sys.clients && x in w.sys.net && x.broker == c.broker && x.pkt.kind.MSGACK?
    ensures SenderInv(Advance(w, l, Deliver(c, x)), l)
  {
    var client, p := w.sys.clients[c], x.pkt;
    if c == l.owner && x.topic == c.node && Answers(client.msgs, p) && p.queueId == l.id
       && client.msgs[l.id][p.seqNo].ack == Pending {
      LaneAck(w, l, x);
    } else {
      OtherAck(w, l, c, x);
    }
  }

  lemma LaneAck(w: World, l: Lane, x: Wire)
    requires ChainInv(w.sys) && SenderInv(w, l)
    requires l.owner in w.sys.clients && x in w.sys.net && x.broker == l.owner.broker && x.topic == l.owner.node
    requires x.pkt.kind.MSGACK? && x.pkt.queueId == l.id && Answers(w.sys.clients[l.owner].msgs, x.pkt)
    requires w.sys.clients[l.owner].msgs[l.id][x.pkt.seqNo].ack == Pending
    ensures SenderInv(Advance(w, l, Deliver(l.owner, x)), l)
  {
    ClientIn(w, l, l.owner);
    AckBacked(w.sys, x);
    SettlingAck(w, l, w.sys.clients[l.owner], x.pkt);
    AckedPacket(w, l, x.pkt.seqNo);
    hide OnAck, ChainInv, ClientOf, Handled, SenderInv;
    SettleKeeps(w, l, Advance(w, l, Deliver(l.owner, x)), l.owner);
  }

  lemma AckBacked(s: Sys, x: Wire)
    requires ChainInv(s) && x in s.net && x.pkt.kind.MSGACK?
    ensures Acked(s.receipts, x.pkt.src, x.topic, x.pkt.queueId, x.pkt.seqNo)
  {
    assert WireOk(s.receipts, x);
    hide ClientOk, ReceiptOk, TaskOk, Acked;
  }

  lemma OtherAck(w: World, l: Lane, c: Cid, x: Wire)
    requires SenderInv(w, l)
    requires c in w.sys.clients && x in w.sys.net && x.broker == c.broker && x.pkt.kind.MSGACK?
    requires c == l.owner && x.topic == c.node && Answers(w.sys.clients[c].msgs, x.pkt) && x.pkt.queueId == l.id ==>
               w.sys.clients[c].msgs[l.id][x.pkt.seqNo].ack != Pending
    ensures SenderInv(Advance(w, l, Deliver(c, x)), l)
  {
    var s, t := w.sys, Step(w.sys, Deliver(c, x));
    ClientIn(w, l, c);
    NotResolved(s, l, c, x);
    if x.topic == c.node { IdleAck(w, l, c, s.clients[c], x.pkt); }
    assert s.net + {} == s.net && s.clients[c := s.clients[c]] == s.clients;
    hide OnAck, ClientOf, Handled, SenderInv, Resolves;
    ClientKeeps(w, l, t, c, {});
  }

  lemma NotResolved(s: Sys, l: Lane, c: Cid, x: Wire)
    requires c in s.clients && x.pkt.kind.MSGACK?
    requires c == l.owner && x.topic == c.node && Answers(s.clients[c].msgs, x.pkt) && x.pkt.queueId == l.id ==>
               s.clients[c].msgs[l.id][x.pkt.seqNo].ack != Pending
    ensures c == l.owner ==> !Resolves(s, Step(s, Deliver(c, x)), l, x.pkt.seqNo)
  {
  }

  lemma SettleKeeps(w: World, l: Lane, v: World, c: Cid)
    requires SenderInv(w, l) && c == l.owner && c in w.sys.clients && c in v.sys.clients && w.acked < |w.pkts|
    requires v == w.(sys := w.sys.(clients := w.sys.clients[c := v.sys.clients[c]]), acked := w.acked + 1)
    requires ClientOf(w.(acked := w.acked + 1), l, c, v.sys.clients[c])
    requires Handled(w.sys, l.dest, w.pkts[w.acked].msg)
    ensures SenderInv(v, l)
  {
    ExtendsKeeps(w.sys, v.sys);
    hide Handled, ReceiptOk, TaskOk, ClientOk, WireOk, LaneQueue, EntryOf;
    forall d | d in v.sys.clients ensures ClientOf(v, l, d, v.sys.clients[d]) {
      if d != c {
        assert ClientOf(w, l, d, w.sys.clients[d]);
      } else {
        SameLane(w.(acked := w.acked + 1), v, l, c, v.sys.clients[c]);
      }
    }
  }

  /** Only the lane's own history decides which queues fit it. */
  lemma SameLane(w: World, v: World, l: Lane, c: Cid, client: Client)
    requires ClientOf(w, l, c, client) && v.pkts == w.pkts && v.acked == w.acked
    ensures ClientOf(v, l, c, client)
  {
    forall q | LaneQueue(w, l, q) ensures LaneQueue(v, l, q) { }
  }

  // queueing in the lane

  /** The caller may queue: everything before is acknowledged, and the queue is intact. */
  lemma LaneSend(w: World, l: Lane, e: Event)
    requires SenderInv(w, l) && Queues(w.sys, l, e) && OneAtATime(w, l, e)
    ensures var r := OrderedSend(w.sys.clients[l.owner], l.owner.node, w.sys.clock, e.msg, e.dest, l.id, MSG, None);
            var v := Advance(w, l, e);
            && r.Queued? && w.acked == |w.pkts| && r.seqNo == |w.pkts|
            && r.out == Packet(l.owner.node, l.id, |w.pkts|, w.sys.clock.Floor, MSG, e.msg)
            && v == w.(sys := WithClient(w.sys, l.owner, r.client), pkts := w.pkts + [r.out])
            && ClientOf(v, l, l.owner, r.client)
  {
    ClientIn(w, l, l.owner);
    SendEffect(w.sys.clients[l.owner], l.owner.node, w.sys.clock, e.msg, e.dest, l.id, None);
    hide OrderedSend;
    var client := w.sys.clients[l.owner];
    var q: Queue := if l.id in client.msgs then client.msgs[l.id] else map[];
    assert Numbered(q, |w.pkts|);
    assert w.pkts != [] ==> EntryOf(w, l, |w.pkts| - 1, q[|w.pkts| - 1]);
    hide SenderInv;
  }

  lemma SendKeeps(w: World, l: Lane, e: Event)
    requires SenderInv(w, l) && Accepts(w.sys, e) && OneAtATime(w, l, e)
    ensures SenderInv(Advance(w, l, e), l)
  {
    var c := e.c;
    if Queues(w.sys, l, e) {
      LaneSend(w, l, e);
      LongerKeeps(w, Advance(w, l, e), l);
    } else {
      ClientIn(w, l, c);
      OtherSend(w, l, c, w.sys.clients[c], w.sys.clock, e.msg, e.dest, e.id, e.at);
      assert w.sys.net + {} == w.sys.net;
      hide OrderedSend, ClientOf, SenderInv;
      var t := Step(w.sys, e);
      ClientKeeps(w, l, t, c, {});
      OthersDoNotMatter(w.(sys := t), l, w.others + {e.msg});
    }
  }

  lemma OthersDoNotMatter(w: World, l: Lane, others: set<Bytes>)
    requires SenderInv(w, l)
    ensures SenderInv(w.(others := others), l)
  {
    var v := w.(others := others);
    forall d | d in v.sys.clients ensures ClientOf(v, l, d, v.sys.clients[d]) {
      SameLane(w, v, l, d, w.sys.clients[d]);
    }
    hide ClientOf, Handled;
  }

  lemma LongerKeeps(w: World, v: World, l: Lane)
    requires SenderInv(w, l) && l.owner in v.sys.clients && w.acked == |w.pkts|
    requires v == w.(sys := WithClient(w.sys, l.owner, v.sys.clients[l.owner]), pkts := v.pkts)
    requires |v.pkts| == |w.pkts| + 1 && v.pkts[..|w.pkts|] == w.pkts
    requires var p := v.pkts[|w.pkts|]; p.kind.MSG? && InLane(l, p) && p.seqNo == |w.pkts|
    requires ClientOf(v, l, l.owner, v.sys.clients[l.owner])
    ensures SenderInv(v, l)
  {
    ExtendsKeeps(w.sys, v.sys);
    assert forall k :: 0 <= k < |w.pkts| ==> v.pkts[k] == v.pkts[..|w.pkts|][k];
    hide Handled, ReceiptOk, TaskOk, ClientOk, WireOk, LaneQueue;
    forall d | d in v.sys.clients ensures ClientOf(v, l, d, v.sys.clients[d]) {
      assert d != l.owner ==> ClientOf(w, l, d, w.sys.clients[d]);
    }
  }

  lemma StepKeeps(w: World, l: Lane, e: Event)
    requires ChainInv(w.sys) && SenderInv(w, l) && OneAtATime(w, l, e)
    ensures SenderInv(Advance(w, l, e), l)
  {
    hide OnDeliver, OnResume, OrderedSend, SendProbe, Dequeue, Touch, Fresh, ChainInv, SenderInv, ClientOf, Resolves;
    var s, t := w.sys, Step(w.sys, e);
    StepExtends(s, e);
    assert s.net + {} == s.net;
    match e
    case Send(c, msg, dest, id, at) =>
      if Accepts(s, e) {
        SendKeeps(w, l, e);
      } else {
        Refused(s, e);
        OthersDoNotMatter(w, l, w.others + {msg});
      }
    case Probe(c, dest, id) =>
      if c in s.clients && ValidIds(id, dest) {
        ClientIn(w, l, c);
        OtherProbe(w, l, c, s.clients[c], s.clock, dest, id);
        var r := SendProbe(s.clients[c], c.node, s.clock, dest, id);
        if r.Queued? { ClientKeeps(w, l, t, c, {Wire(c.broker, dest, r.out)}); }
      } else {
        Refused(s, e);
      }
    case Republish(c, kind, id, n, now) =>
      if c in s.clients && Has(s.clients[c].Of(kind), id, n) {
        ClientIn(w, l, c);
        ChainClient(s, c);
        TouchKeeps(w, l, c, s.clients[c], kind, id, n, now);
        ShapeIn(w, l);
        EntryWire(w, l, c, s.clients[c], kind, id, n);
        var m := s.clients[c].Of(kind)[id][n];
        if !m.oneShot { ClientKeeps(w, l, t, c, {Wire(c.broker, m.dest, m.out)}); }
      }
    case Leftover(c, kind, id, n) =>
      if c in s.clients && Has(s.clients[c].Of(kind), id, n) {
        ClientIn(w, l, c);
        ChainClient(s, c);
        ShapeIn(w, l);
        EntryWire(w, l, c, s.clients[c], kind, id, n);
        var m := s.clients[c].Of(kind)[id][n];
        assert s.clients[c := s.clients[c]] == s.clients;
        if !m.oneShot { ClientKeeps(w, l, t, c, {Wire(c.broker, m.dest, m.out)}); }
      }
    case Deliver(c, x) =>
      if c in s.clients && x in s.net && x.broker == c.broker {
        if x.pkt.kind.MSGACK? {
          AckKeeps(w, l, c, x);
        } else {
          DeliverKeeps(w, l, c, x);
          OnlyAcksResolve(s, l, c, x);
        }
      } else {
        NothingResolves(s, l, e.w.pkt.seqNo);
      }
    case Resume(i) => if i < |s.tasks| { ResumeKeeps(w, l, i); }
    case Prune(c, now) =>
      if c in s.clients && now <= s.clock {
        ClientIn(w, l, c);
        SameQueues(w, l, c, s.clients[c], t.clients[c]);
        ClientKeeps(w, l, t, c, {});
      }
    case Dequeued(c, kind, id, which) =>
      if c in s.clients {
        ClientIn(w, l, c);
        DequeueKeeps(w, l, c, s.clients[c], kind, id, which);
        ClientKeeps(w, l, t, c, {});
      }
    case Tick(now) => LogOnly(w, l, t);
    case Reset(c) =>
  }

  lemma ShapeIn(w: World, l: Lane)
    requires SenderInv(w, l)
    ensures Shape(w, l)
  {
  }

  lemma Refused(s: Sys, e: Event)
    requires (e.Send? && !Accepts(s, e)) || (e.Probe? && !(e.c in s.clients && ValidIds(e.id, e.dest)))
    ensures Step(s, e) == s
  {
  }

  lemma NothingResolves(s: Sys, l: Lane, n: nat)
    ensures !Resolves(s, s, l, n)
  {
  }

  /** Only an ack can settle a future. */
  lemma OnlyAcksResolve(s: Sys, l: Lane, c: Cid, x: Wire)
    requires ChainInv(s) && c in s.clients && !x.pkt.kind.MSGACK?
    ensures c == l.owner ==> !Resolves(s, OnDeliver(s, c, x), l, x.pkt.seqNo)
  {
    DeliveredQueues(s, c, x);
    hide ChainInv, OnDeliver;
  }

  lemma {:induction false} RunKeeps(s: Sys, l: Lane, events: seq<Event>)
    requires AwaitedRun(s, l, events)
    ensures ChainInv(After(s, l, events).sys) && SenderInv(After(s, l, events), l)
  {
    hide ChainInv, Advance;
    if events == [] {
      RunKeepsChain(s, []);
    } else {
      hide SenderInv;
      var u, e := After(s, l, events[..|events| - 1]), events[|events| - 1];
      RunKeeps(s, l, events[..|events| - 1]);
      StepKeeps(u, l, e);
      StepKeepsChain(u.sys, e);
      AfterIsRun(s, l, events);
      AfterIsRun(s, l, events[..|events| - 1]);
    }
  }

  // ---- forgetting acks ---------------------------------------------------------------------------

  /** Delivering `x` to `c` makes it forget the ack it has queued for (id, n). */
  predicate Drops(s: Sys, c: Cid, x: Wire, id: QueueId, n: nat) {
    && c in s.clients && Has(s.clients[c].acks, id, n)
    && var t := Step(s, Deliver(c, x)); c in t.clients && !Has(t.clients[c].acks, id, n)
  }

  /** The sender's future for number n was resolved by an ack, and still is if it has the queue. */
  predicate Received(v: World, l: Lane, n: nat) {
    && n < v.acked
    && (l.owner in v.sys.clients && l.id in v.sys.clients[l.owner].msgs ==>
          var q := v.sys.clients[l.owner].msgs[l.id]; n in q && q[n].ack == ByAck)
  }

  /** Forgetting is safe, on any clock and for any contents: whenever a message of the lane makes
      its receiver drop a queued ack, the sender already holds that ack. */
  lemma {:induction false} DroppedAcksWereReceived(s: Sys, l: Lane, events: seq<Event>, c: Cid, x: Wire, n: nat)
    requires AwaitedRun(s, l, events)
    ensures var v := After(s, l, events);
            c.node == l.dest && InLane(l, x.pkt) && Drops(v.sys, c, x, l.id, n) ==> Received(v, l, n)
  {
    RunKeeps(s, l, events);
    var v := After(s, l, events);
    hide After, ChainInv, AwaitedRun;
    if c.node == l.dest && InLane(l, x.pkt) && Drops(v.sys, c, x, l.id, n) {
      DropMeans(v.sys, c, x, l.id, n);
      LaterMessage(v, l, x, n);
    }
  }

  lemma DropMeans(s: Sys, c: Cid, x: Wire, id: QueueId, n: nat)
    requires Drops(s, c, x, id, n)
    ensures x in s.net && x.topic == c.node && x.pkt.kind.MSG? && x.pkt.queueId == id && n < x.pkt.seqNo
  {
    DropCases(s.clients[c], c.node, s.clock, x.pkt, id, n);
    hide Arrive, OnAck, OnProbe;
  }

  /** Which of the three kinds of packet can make a client forget an ack. */
  lemma DropCases(client: Client, self: Key, now: real, p: Packet, id: QueueId, n: nat)
    requires Has(client.acks, id, n)
    ensures !Has(Arrive(client, p).0.acks, id, n) ==> p.queueId == id && n < p.seqNo
    ensures Has(OnAck(client, p).acks, id, n) && Has(OnProbe(client, self, now, p).0.acks, id, n)
  {
  }

  lemma LaterMessage(v: World, l: Lane, x: Wire, n: nat)
    requires SenderInv(v, l) && x in v.sys.net && x.topic == l.dest && InLane(l, x.pkt) && x.pkt.kind.MSG?
    requires n < x.pkt.seqNo
    ensures Received(v, l, n)
  {
    assert WireOf(v, l, x);
    if l.owner in v.sys.clients { ClientIn(v, l, l.owner); }
    hide SenderInv;
  }

  /** Nobody but the lane's sender uses its id towards its peer. */
  predicate OnlySender(l: Lane, e: Event) {
    (e.Send? || e.Probe?) && e.id == l.id && e.dest == l.dest ==> e.c.node == l.owner.node
  }

  /** A lane of router `b` under the same id, on a client it does not have. */
  lemma GhostLane(s: Sys, l: Lane, b: Key) returns (g: Lane)
    ensures g.owner.node == b && g.dest == l.dest && g.id == l.id && g.owner !in s.clients
  {
    var brokers := set c | c in s.clients :: c.broker;
    var k := if brokers == {} then 0 else MaxOf(brokers) + 1;
    g := Lane(Cid(b, k), l.dest, l.id);
    assert g.owner in s.clients ==> g.owner.broker in brokers;
  }

  /** Nothing ever happens in it. */
  lemma {:induction false} GhostRun(s: Sys, l: Lane, g: Lane, events: seq<Event>)
    requires Initial(s) && (forall e :: e in events ==> OnlySender(l, e)) && g.owner.node != l.owner.node
    requires g.dest == l.dest && g.id == l.id && g.owner !in s.clients
    ensures AwaitedRun(s, g, events) && After(s, g, events).pkts == []
    ensures After(s, g, events).sys.clients.Keys == s.clients.Keys
  {
    hide Step;
    if events != [] {
      var init, e := events[..|events| - 1], events[|events| - 1];
      GhostRun(s, l, g, init);
      StepExtends(After(s, g, init).sys, e);
      assert OnlySender(l, e);
    }
  }

  /** If the id is private to the sender, every message that makes the peer forget an ack under it
      is one of the lane, so all forgetting is safe. */
  lemma {:induction false} AllDropsSafe(s: Sys, l: Lane, events: seq<Event>, c: Cid, x: Wire, n: nat)
    requires AwaitedRun(s, l, events) && forall e :: e in events ==> OnlySender(l, e)
    ensures var v := After(s, l, events);
            c.node == l.dest && Drops(v.sys, c, x, l.id, n) ==> Received(v, l, n)
  {
    hide AwaitedRun, After, Step, OnlySender, Received;
    DroppedAcksWereReceived(s, l, events, c, x, n);
    var v := After(s, l, events);
    if c.node == l.dest && Drops(v.sys, c, x, l.id, n) {
      DropMeans(v.sys, c, x, l.id, n);
      hide Drops;
      NoForeignWire(s, l, events, x);
    }
  }

  lemma {:induction false} NoForeignWire(s: Sys, l: Lane, events: seq<Event>, x: Wire)
    requires AwaitedRun(s, l, events) && (forall e :: e in events ==> OnlySender(l, e))
    requires x in After(s, l, events).sys.net
    ensures x.topic == l.dest && x.pkt.queueId == l.id && x.pkt.kind.MSG? ==> InLane(l, x.pkt)
  {
    AwaitedStart(s, l, events);
    hide *;
    if x.pkt.src != l.owner.node {
      var g := GhostLane(s, l, x.pkt.src);
      GhostRun(s, l, g, events);
      RunKeeps(s, g, events);
      AfterIsRun(s, l, events);
      AfterIsRun(s, g, events);
      NoGhostWire(After(s, g, events), g, x);
    }
    LaneOf(l, x.pkt);
  }

  lemma LaneOf(l: Lane, p: Packet)
    ensures InLane(l, p) <==> p.src == l.owner.node && p.queueId == l.id
  {
  }

  lemma NoGhostWire(w: World, g: Lane, x: Wire)
    requires SenderInv(w, g) && w.pkts == [] && x in w.sys.net
    ensures !(x.topic == g.dest && x.pkt.src == g.owner.node && x.pkt.queueId == g.id && x.pkt.kind.MSG?)
  {
    assert WireOf(w, g, x);
    hide Clients, AckedHandled;
  }

  // ---- the order ---------------------------------------------------------------------------------

  /** The handler calls of the lane's peer for its messages, in order ... */
  function Calls(log: seq<Fire>, l: Lane): seq<Bytes> {
    if log == [] then []
    else
      var f := log[|log| - 1];
      Calls(log[..|log| - 1], l) + if f.node == l.dest && InLane(l, f.pkt) then [f.pkt.msg] else []
  }

  /** ... and the contents among them as they come up for the first time. */
  function Firsts(log: seq<Fire>, l: Lane): seq<Bytes> {
    if log == [] then []
    else
      var f, before := log[|log| - 1], Firsts(log[..|log| - 1], l);
      before + if f.node == l.dest && InLane(l, f.pkt) && f.pkt.msg !in before then [f.pkt.msg] else []
  }

  lemma {:induction false} FiredFirst(log: seq<Fire>, l: Lane, f: Fire)
    requires f in log && f.node == l.dest && InLane(l, f.pkt)
    ensures f.pkt.msg in Firsts(log, l)
  {
    if f != log[|log| - 1] {
      assert f in log[..|log| - 1];
      FiredFirst(log[..|log| - 1], l, f);
    }
  }

  predicate OtherWire(w: World, l: Lane, x: Wire) {
    x.topic == l.dest && x.pkt.kind.MSG? && !InLane(l, x.pkt) ==> x.pkt.msg in w.others
  }

  ghost predicate OtherEntries(w: World, l: Lane, c: Cid, msgs: Queues) {
    forall id, n :: Has(msgs, id, n) && msgs[id][n].dest == l.dest && !(c == l.owner && id == l.id) ==>
                      msgs[id][n].out.msg in w.others
  }

  ghost predicate Distinct(w: World) {
    && (forall i, j :: 0 <= i < j < |w.pkts| ==> w.pkts[i].msg != w.pkts[j].msg)
    && (forall i :: 0 <= i < |w.pkts| ==> w.pkts[i].msg !in w.others)
  }

  ghost predicate ContentInv(w: World, l: Lane) {
    && Distinct(w)
    && (forall x :: x in w.sys.net ==> OtherWire(w, l, x))
    && (forall c :: c in w.sys.clients ==> OtherEntries(w, l, c, w.sys.clients[c].msgs))
  }

  predicate OrderInv(w: World, l: Lane) {
    Firsts(w.sys.log, l) <= Contents(w.pkts) && w.acked <= |Firsts(w.sys.log, l)|
  }

  // contents

  lemma ContentKeeps(w: World, v: World, l: Lane, c: Cid, wires: set<Wire>)
    requires ContentInv(w, l) && Distinct(v) && w.others <= v.others
    requires c in v.sys.clients && v.sys.clients == w.sys.clients[c := v.sys.clients[c]]
    requires OtherEntries(v, l, c, v.sys.clients[c].msgs)
    requires v.sys.net == w.sys.net + wires && forall x :: x in wires ==> OtherWire(v, l, x)
    ensures ContentInv(v, l)
  {
    assert forall x :: OtherWire(w, l, x) ==> OtherWire(v, l, x);
    forall d, msgs | OtherEntries(w, l, d, msgs) ensures OtherEntries(v, l, d, msgs) { }
    hide OtherEntries, OtherWire, Distinct;
  }

  /** Message entries of one client: new ones are in `others`, the rest keep packet and peer. */
  ghost predicate SameOthers(w: World, l: Lane, c: Cid, before: Queues, after: Queues) {
    forall id, n :: Has(after, id, n) && after[id][n].dest == l.dest && !(c == l.owner && id == l.id) ==>
      || after[id][n].out.msg in w.others
      || (Has(before, id, n) && before[id][n].dest == l.dest && before[id][n].out == after[id][n].out)
  }

  lemma OthersKept(w: World, v: World, l: Lane, c: Cid, before: Queues, after: Queues)
    requires OtherEntries(w, l, c, before) && SameOthers(v, l, c, before, after) && w.others <= v.others
    ensures OtherEntries(v, l, c, after)
  {
  }

  lemma SendOthers(v: World, l: Lane, c: Cid, client: Client, now: real, msg: Bytes, dest: Key, id: QueueId,
                   at: Option<nat>)
    requires (c == l.owner && id == l.id) || dest != l.dest || msg in v.others
    ensures var r := OrderedSend(client, c.node, now, msg, dest, id, MSG, at);
            r.Queued? ==> SameOthers(v, l, c, client.msgs, r.client.msgs)
  {
    if ValidIds(id, dest) {
      SendEffect(client, c.node, now, msg, dest, id, at);
      hide OrderedSend;
    }
  }

  lemma DequeueOthers(v: World, l: Lane, c: Cid, client: Client, kind: Kind, id: QueueId, which: Option<nat>)
    ensures SameOthers(v, l, c, client.msgs, Dequeue(client, kind, id, which).msgs)
  {
  }

  lemma TouchOthers(v: World, l: Lane, c: Cid, client: Client, kind: Kind, id: QueueId, n: nat, now: real)
    requires Has(client.Of(kind), id, n)
    ensures SameOthers(v, l, c, client.msgs, Touch(client, kind, id, n, now).msgs)
  {
  }

  lemma AckOthers(v: World, l: Lane, c: Cid, client: Client, p: Packet)
    ensures SameOthers(v, l, c, client.msgs, OnAck(client, p).msgs)
  {
    if Answers(client.msgs, p) {
      SettleOthers(v, l, c, client.msgs, p);
      hide Settle, SameOthers;
    }
  }

  lemma SettleOthers(v: World, l: Lane, c: Cid, msgs: Queues, p: Packet)
    requires Answers(msgs, p)
    ensures SameOthers(v, l, c, msgs, Settle(msgs, p))
  {
  }

  /** What a republished entry sends is the lane's or of other content. */
  lemma OtherRepublished(w: World, l: Lane, c: Cid, client: Client, kind: Kind, id: QueueId, n: nat)
    requires OtherEntries(w, l, c, client.msgs) && ClientOk(w.sys.receipts, c.node, client)
    requires Has(client.Of(kind), id, n)
    requires ClientOf(w, l, c, client)
    ensures var m := client.Of(kind)[id][n]; OtherWire(w, l, Wire(c.broker, m.dest, m.out))
  {
    hide Acked;
    assert EntryOk(w.sys.receipts, c.node, kind, id, n, client.Of(kind)[id][n]);
  }

  lemma EntriesIn(w: World, l: Lane, c: Cid)
    requires ContentInv(w, l) && c in w.sys.clients
    ensures OtherEntries(w, l, c, w.sys.clients[c].msgs)
  {
    hide OtherEntries;
  }

  lemma SendContents(w: World, l: Lane, e: Event)
    requires SenderInv(w, l) && ContentInv(w, l) && Accepts(w.sys, e) && OneAtATime(w, l, e) && FreshContent(w, l, e)
    ensures ContentInv(Advance(w, l, e), l)
  {
    hide SenderInv, ContentInv, OneAtATime, FreshContent;
    if Queues(w.sys, l, e) { LaneContents(w, l, e); } else { OtherContents(w, l, e); }
  }

  lemma LaneContents(w: World, l: Lane, e: Event)
    requires SenderInv(w, l) && ContentInv(w, l) && Queues(w.sys, l, e) && OneAtATime(w, l, e) && FreshContent(w, l, e)
    ensures ContentInv(Advance(w, l, e), l)
  {
    var v, c := Advance(w, l, e), e.c;
    LaneDistinct(w, l, e);
    LaneOthers(w, l, e);
    EntriesIn(w, l, c);
    hide Advance, SenderInv, ContentInv, OtherEntries, FreshContent, OneAtATime, Distinct, SameOthers;
    OthersKept(w, v, l, c, w.sys.clients[c].msgs, v.sys.clients[c].msgs);
    ContentKeeps(w, v, l, c, {});
  }

  lemma LaneDistinct(w: World, l: Lane, e: Event)
    requires SenderInv(w, l) && ContentInv(w, l) && Queues(w.sys, l, e) && OneAtATime(w, l, e) && FreshContent(w, l, e)
    ensures Distinct(Advance(w, l, e))
  {
    LaneSend(w, l, e);
    DistinctHere(w, l);
    assert e.dest == l.dest;
    hide Advance, SenderInv, ContentInv, ClientOf, OrderedSend, OneAtATime, Distinct, Contents;
    var v := Advance(w, l, e);
    DistinctMore(w, v, v.pkts[|w.pkts|]);
  }

  lemma DistinctMore(w: World, v: World, p: Packet)
    requires Distinct(w) && v.pkts == w.pkts + [p] && v.others == w.others
    requires p.msg !in Contents(w.pkts) && p.msg !in w.others
    ensures Distinct(v)
  {
    assert forall k :: 0 <= k < |w.pkts| ==> Contents(w.pkts)[k] == w.pkts[k].msg;
  }

  lemma LaneOthers(w: World, l: Lane, e: Event)
    requires SenderInv(w, l) && Queues(w.sys, l, e) && OneAtATime(w, l, e)
    ensures var v, c := Advance(w, l, e), e.c;
            && w.others == v.others && c in v.sys.clients && v.sys.clients == w.sys.clients[c := v.sys.clients[c]]
            && SameOthers(v, l, c, w.sys.clients[c].msgs, v.sys.clients[c].msgs) && v.sys.net == w.sys.net + {}
  {
    var v, c := Advance(w, l, e), e.c;
    LaneSend(w, l, e);
    SendOthers(v, l, c, w.sys.clients[c], w.sys.clock, e.msg, e.dest, e.id, None);
    hide Advance, SenderInv, ClientOf, OrderedSend, SameOthers;
    assert w.sys.net + {} == w.sys.net;
  }

  lemma OtherContents(w: World, l: Lane, e: Event)
    requires ContentInv(w, l) && Accepts(w.sys, e) && !Queues(w.sys, l, e) && FreshContent(w, l, e)
    ensures ContentInv(Advance(w, l, e), l)
  {
    var v, c := Advance(w, l, e), e.c;
    SendOthers(v, l, c, w.sys.clients[c], w.sys.clock, e.msg, e.dest, e.id, e.at);
    hide OrderedSend, SameOthers;
    assert Distinct(v) by {
      assert forall k :: 0 <= k < |w.pkts| ==> Contents(w.pkts)[k] == w.pkts[k].msg;
      DistinctHere(w, l);
      hide ContentInv;
    }
    EntriesIn(w, l, c);
    hide ContentInv, OtherEntries, FreshContent, Distinct;
    assert w.sys.net + {} == w.sys.net;
    OthersKept(w, v, l, c, w.sys.clients[c].msgs, v.sys.clients[c].msgs);
    ContentKeeps(w, v, l, c, {});
  }

  lemma StepContents(w: World, l: Lane, e: Event)
    requires ChainInv(w.sys) && SenderInv(w, l) && ContentInv(w, l) && OneAtATime(w, l, e) && FreshContent(w, l, e)
    ensures ContentInv(Advance(w, l, e), l)
  {
    hide OnDeliver, OnResume, OrderedSend, SendProbe, Dequeue, Touch, Fresh, ChainInv, SenderInv, ClientOf, Resolves;
    hide ContentInv, OtherEntries, SameOthers;
    var s, t, v := w.sys, Step(w.sys, e), Advance(w, l, e);
    assert s.net + {} == s.net;
    match e
    case Send(c, msg, dest, id, at) =>
      if Accepts(s, e) {
        SendContents(w, l, e);
      } else {
        Refused(s, e);
        DistinctHere(w, l);
        assert forall k :: 0 <= k < |w.pkts| ==> Contents(w.pkts)[k] == w.pkts[k].msg;
        QuietContents(w, v, l);
      }
    case Probe(c, dest, id) => ProbeContents(w, l, c, dest, id);
    case Republish(c, kind, id, n, now) =>
      if c in s.clients && Has(s.clients[c].Of(kind), id, n) {
        var m := s.clients[c].Of(kind)[id][n];
        EntriesIn(w, l, c);
        ClientIn(w, l, c);
        ChainClient(s, c);
        TouchOthers(v, l, c, s.clients[c], kind, id, n, now);
        OtherRepublished(w, l, c, s.clients[c], kind, id, n);
        OthersKept(w, v, l, c, s.clients[c].msgs, Touch(s.clients[c], kind, id, n, now).msgs);
        DistinctIn(w, v, l);
        if !m.oneShot { ContentKeeps(w, v, l, c, {Wire(c.broker, m.dest, m.out)}); }
      }
    case Leftover(c, kind, id, n) =>
      if c in s.clients && Has(s.clients[c].Of(kind), id, n) {
        var m := s.clients[c].Of(kind)[id][n];
        EntriesIn(w, l, c);
        ClientIn(w, l, c);
        ChainClient(s, c);
        OtherRepublished(w, l, c, s.clients[c], kind, id, n);
        SameEntries(w, v, l, c, s.clients[c].msgs);
        DistinctIn(w, v, l);
        assert s.clients[c := s.clients[c]] == s.clients;
        if !m.oneShot { ContentKeeps(w, v, l, c, {Wire(c.broker, m.dest, m.out)}); }
      }
    case Deliver(c, x) =>
      if c in s.clients && x in s.net && x.broker == c.broker {
        DeliverContents(w, v, l, c, x);
      } else {
        DistinctIn(w, v, l);
        QuietContents(w, v, l);
      }
    case Resume(i) => if i < |s.tasks| { ResumeContents(w, v, l, i); }
    case Prune(c, now) =>
      if c in s.clients && now <= s.clock {
        EntriesIn(w, l, c);
        SameEntries(w, v, l, c, s.clients[c].msgs);
        DistinctIn(w, v, l);
        ContentKeeps(w, v, l, c, {});
      }
    case Dequeued(c, kind, id, which) =>
      if c in s.clients {
        EntriesIn(w, l, c);
        DequeueOthers(v, l, c, s.clients[c], kind, id, which);
        OthersKept(w, v, l, c, s.clients[c].msgs, Dequeue(s.clients[c], kind, id, which).msgs);
        DistinctIn(w, v, l);
        ContentKeeps(w, v, l, c, {});
      }
    case Tick(now) =>
      DistinctIn(w, v, l);
      QuietContents(w, v, l);
    case Reset(c) =>
  }

  lemma SameEntries(w: World, v: World, l: Lane, c: Cid, msgs: Queues)
    requires OtherEntries(w, l, c, msgs) && w.others <= v.others
    ensures OtherEntries(v, l, c, msgs)
  {
  }

  lemma DistinctIn(w: World, v: World, l: Lane)
    requires ContentInv(w, l) && v.pkts == w.pkts && v.others == w.others
    ensures Distinct(v)
  {
  }

  lemma QuietContents(w: World, v: World, l: Lane)
    requires ContentInv(w, l) && v.pkts == w.pkts && w.others <= v.others && v.sys.clients == w.sys.clients
    requires v.sys.net == w.sys.net
    requires Distinct(v)
    ensures ContentInv(v, l)
  {
    forall d, msgs | OtherEntries(w, l, d, msgs) ensures OtherEntries(v, l, d, msgs) { }
    hide OtherEntries;
  }

  lemma ProbeContents(w: World, l: Lane, c: Cid, dest: Key, id: QueueId)
    requires ContentInv(w, l)
    ensures ContentInv(Advance(w, l, Probe(c, dest, id)), l)
  {
    var s := w.sys;
    if c in s.clients && ValidIds(id, dest) {
      var r, v := SendProbe(s.clients[c], c.node, s.clock, dest, id), Advance(w, l, Probe(c, dest, id));
      assert r.client.msgs == s.clients[c].msgs && r.out.kind.PROBE?;
      EntriesIn(w, l, c);
      SameEntries(w, v, l, c, r.client.msgs);
      hide OtherEntries, SendProbe, ContentInv;
      DistinctIn(w, v, l);
      ContentKeeps(w, v, l, c, {Wire(c.broker, dest, r.out)});
    } else {
      Refused(s, Probe(c, dest, id));
    }
  }

  lemma DeliverContents(w: World, v: World, l: Lane, c: Cid, x: Wire)
    requires ChainInv(w.sys) && ContentInv(w, l) && c in w.sys.clients && v.sys == OnDeliver(w.sys, c, x)
    requires v.pkts == w.pkts && v.others == w.others
    ensures ContentInv(v, l)
  {
    var s := w.sys;
    EntriesIn(w, l, c);
    DistinctIn(w, v, l);
    if x.pkt.kind.MSGACK? {
      AckOthers(v, l, c, s.clients[c], x.pkt);
      assert s.clients[c := s.clients[c]] == s.clients && s.net + {} == s.net;
      hide ChainInv, ContentInv, OtherEntries, Arrive, OnAck, OnProbe, SameOthers, Distinct;
      OthersKept(w, v, l, c, s.clients[c].msgs, OnAck(s.clients[c], x.pkt).msgs);
      SameEntries(w, v, l, c, s.clients[c].msgs);
      ContentKeeps(w, v, l, c, {});
    } else {
      DeliveredQueues(s, c, x);
      hide OnDeliver, ChainInv, ContentInv, OtherEntries, Distinct;
      SameEntries(w, v, l, c, s.clients[c].msgs);
      ContentKeeps(w, v, l, c, v.sys.net - s.net);
    }
  }

  lemma ResumeContents(w: World, v: World, l: Lane, i: nat)
    requires ChainInv(w.sys) && ContentInv(w, l) && i < |w.sys.tasks| && v.sys == OnResume(w.sys, i)
    requires v.pkts == w.pkts && v.others == w.others
    ensures ContentInv(v, l)
  {
    var s := w.sys;
    DistinctIn(w, v, l);
    if s.tasks[i].Finished? || s.tasks[i].at !in s.clients {
      hide ChainInv, ContentInv, Distinct;
      QuietContents(w, v, l);
    } else {
      var c := s.tasks[i].at;
      ResumedQueues(s, i);
      EntriesIn(w, l, c);
      hide OnResume, ChainInv, ContentInv, OtherEntries, Distinct;
      SameEntries(w, v, l, c, s.clients[c].msgs);
      ContentKeeps(w, v, l, c, {});
    }
  }

  // order

  /** A content of the lane that the peer has handled came up as one of the lane's. */
  lemma HandledInFirsts(w: World, l: Lane, k: nat)
    requires ChainInv(w.sys) && ContentInv(w, l) && k < |w.pkts| && Handled(w.sys, l.dest, w.pkts[k].msg)
    ensures w.pkts[k].msg in Firsts(w.sys.log, l)
  {
    hide ClientOk, WireOk, ReceiptOk, TaskOk, OtherEntries;
    var f :| f in w.sys.log && f.node == l.dest && f.pkt.msg == w.pkts[k].msg;
    var x :| x in w.sys.net && x.topic == l.dest && x.pkt == f.pkt;
    assert OtherWire(w, l, x);
    FiredFirst(w.sys.log, l, f);
  }

  lemma PrefixIndex(w: World, firsts: seq<Bytes>, k: nat)
    requires Distinct(w) && firsts <= Contents(w.pkts) && k < |w.pkts|
    ensures w.pkts[k].msg in firsts <==> k < |firsts|
  {
    if w.pkts[k].msg in firsts {
      var i :| 0 <= i < |firsts| && firsts[i] == w.pkts[k].msg;
      assert Contents(w.pkts)[i] == firsts[i];
    }
    if k < |firsts| { assert firsts[k] == Contents(w.pkts)[k]; }
  }

  /** A handler call for a message of the lane: a repetition, or the next of the contents. */
  lemma FireKeepsOrder(w: World, v: World, l: Lane, f: Fire)
    requires Shape(w, l) && Distinct(w) && OrderInv(w, l) && (f.node == l.dest && InLane(l, f.pkt) ==> OfLane(w, f.pkt))
    requires v.sys.log == w.sys.log + [f] && v.pkts == w.pkts && v.acked == w.acked
    ensures OrderInv(v, l)
  {
    var before := Firsts(w.sys.log, l);
    assert v.sys.log[..|w.sys.log|] == w.sys.log;
    if f.node == l.dest && InLane(l, f.pkt) && f.pkt.msg !in before {
      PrefixIndex(w, before, f.pkt.seqNo);
      assert Firsts(v.sys.log, l) == before + [f.pkt.msg];
      assert before + [f.pkt.msg] == Contents(w.pkts)[..|before| + 1];
    } else {
      assert Firsts(v.sys.log, l) == before + [] == before;
    }
  }

  lemma StepKeepsOrder(w: World, l: Lane, e: Event)
    requires ChainInv(w.sys) && SenderInv(w, l) && ContentInv(w, l) && OrderInv(w, l)
    requires var v := Advance(w, l, e);
             ChainInv(v.sys) && SenderInv(v, l) && ContentInv(v, l)
    ensures OrderInv(Advance(w, l, e), l)
  {
    var v := Advance(w, l, e);
    AdvanceShape(w, l, e);
    ShapeIn(w, l);
    if v.acked > w.acked {
      AckedIn(v, l, w.acked);
      HandledInFirsts(v, l, w.acked);
      DistinctHere(v, l);
      hide SenderInv, ContentInv, ChainInv, Distinct, Advance, Firsts, Shape;
      PrefixIndex(v, Firsts(v.sys.log, l), w.acked);
    } else if v.sys.log != w.sys.log {
      var i := e.task;
      var f := v.sys.log[|w.sys.log|];
      DistinctHere(w, l);
      FiredOfLane(w, l, i);
      hide SenderInv, ContentInv, ChainInv, Distinct, Advance, Firsts, Shape, OfLane;
      FireKeepsOrder(w, v, l, f);
    } else {
      hide SenderInv, ContentInv, ChainInv, Advance, Firsts, Shape;
      assert Contents(w.pkts) <= Contents(v.pkts);
    }
  }

  lemma DistinctHere(w: World, l: Lane)
    requires ContentInv(w, l)
    ensures Distinct(w)
  {
  }

  lemma AckedIn(w: World, l: Lane, k: nat)
    requires SenderInv(w, l) && k < w.acked
    ensures k < |w.pkts| && Handled(w.sys, l.dest, w.pkts[k].msg)
  {
    hide Handled;
  }

  lemma FiredOfLane(w: World, l: Lane, i: nat)
    requires ChainInv(w.sys) && SenderInv(w, l) && i < |w.sys.tasks| && w.sys.tasks[i].Hashing?
    ensures w.sys.tasks[i].at.node == l.dest && InLane(l, w.sys.tasks[i].pkt) ==> OfLane(w, w.sys.tasks[i].pkt)
  {
    hide ClientOk, WireOk, ReceiptOk, ClientOf, Handled;
    var k := w.sys.tasks[i];
    assert TaskOk(w.sys, k);
    if k.at.node == l.dest && InLane(l, k.pkt) {
      var x :| x in w.sys.net && x.topic == l.dest && x.pkt == k.pkt;
      assert WireOf(w, l, x);
    }
  }

  /** How much of the history one step can change. */
  lemma AdvanceShape(w: World, l: Lane, e: Event)
    ensures var v := Advance(w, l, e);
            && w.pkts <= v.pkts && w.acked <= v.acked <= w.acked + 1
            && (v.acked > w.acked ==> v.pkts == w.pkts && v.sys.log == w.sys.log)
            && (v.sys.log != w.sys.log ==>
                  && v.pkts == w.pkts && e.Resume? && e.task < |w.sys.tasks| && w.sys.tasks[e.task].Hashing?
                  && var k := w.sys.tasks[e.task];
                     v.sys.log == w.sys.log + [Fire(k.at.node, k.pkt, k.checked, w.sys.clock)])
  {
    hide BeginSend, FinishSend, Arrive, OnAck, OnProbe, SendProbe, Dequeue, Touch, Fresh, Resolves;
  }

  lemma {:induction false} OrderedRun(s: Sys, l: Lane, events: seq<Event>)
    requires AwaitedRun(s, l, events) && FreshRun(s, l, events)
    ensures var v := After(s, l, events);
            ChainInv(v.sys) && SenderInv(v, l) && ContentInv(v, l) && OrderInv(v, l)
  {
    RunKeeps(s, l, events);
    hide ChainInv, SenderInv, Advance, Firsts;
    if events != [] {
      hide ContentInv, OrderInv;
      var u, e := After(s, l, events[..|events| - 1]), events[|events| - 1];
      OrderedRun(s, l, events[..|events| - 1]);
      StepContents(u, l, e);
      StepKeepsOrder(u, l, e);
    } else {
      NoFirsts(l);
    }
  }

  lemma NoFirsts(l: Lane)
    ensures Firsts([], l) == []
  {
  }

  /** In order, on any clock and any network: the contents of the lane come up at the peer as a
      prefix of what was queued, never behind the acks and at most one ahead of them. */
  lemma {:induction false} InOrderDelivery(s: Sys, l: Lane, events: seq<Event>)
    requires AwaitedRun(s, l, events) && FreshRun(s, l, events)
    ensures var v := After(s, l, events);
            var firsts := Firsts(v.sys.log, l);
            && firsts <= Contents(v.pkts)
            && v.acked <= |firsts| <= v.acked + 1
            && |v.pkts| <= v.acked + 1
  {
    OrderedRun(s, l, events);
    ShapeIn(After(s, l, events), l);
    hide After, ChainInv, SenderInv, ContentInv, Firsts;
  }

  // ---- repetition --------------------------------------------------------------------------------

  /** No message of the lane reaches the handlers a second time. */
  ghost predicate NoneRepeated(log: seq<Fire>, l: Lane) {
    forall i, j ::
      0 <= i < j < |log| && log[i].node == log[j].node == l.dest && InLane(l, log[i].pkt) && InLane(l, log[j].pkt) ==>
                     log[i].pkt.msg != log[j].pkt.msg
  }

  lemma {:induction false} FirstsAreFired(log: seq<Fire>, l: Lane, m: Bytes) returns (i: nat)
    requires m in Firsts(log, l)
    ensures i < |log| && log[i].node == l.dest && InLane(l, log[i].pkt) && log[i].pkt.msg == m
  {
    var before := Firsts(log[..|log| - 1], l);
    if m in before {
      i := FirstsAreFired(log[..|log| - 1], l, m);
    } else {
      i := |log| - 1;
    }
  }

  lemma {:induction false} FirstsShorter(log: seq<Fire>, l: Lane)
    ensures |Firsts(log, l)| <= |Calls(log, l)|
  {
    if log != [] { FirstsShorter(log[..|log| - 1], l); }
  }

  /** All calls are first ones exactly when no message of the lane is handled twice. */
  lemma {:induction false} CallsAreFirsts(log: seq<Fire>, l: Lane)
    ensures Calls(log, l) == Firsts(log, l) <==> NoneRepeated(log, l)
  {
    if log != [] {
      var init, f := log[..|log| - 1], log[|log| - 1];
      CallsAreFirsts(init, l);
      FirstsShorter(init, l);
      assert forall i :: 0 <= i < |init| ==> log[i] == init[i];
      assert NoneRepeated(log, l) ==> NoneRepeated(init, l);
      if f.node == l.dest && InLane(l, f.pkt) {
        if f.pkt.msg in Firsts(init, l) {
          var i := FirstsAreFired(init, l, f.pkt.msg);
          assert log[i].pkt.msg == log[|log| - 1].pkt.msg && !NoneRepeated(log, l);
        } else {
          forall i | 0 <= i < |init| && init[i].node == l.dest && InLane(l, init[i].pkt)
            ensures log[i].pkt.msg != f.pkt.msg
          {
            FiredFirst(init, l, init[i]);
          }
          var calls, firsts, m := Calls(init, l), Firsts(init, l), f.pkt.msg;
          assert (calls + [m])[..|calls|] == calls && (firsts + [m])[..|firsts|] == firsts;
          assert Calls(log, l) == calls + [m] && Firsts(log, l) == firsts + [m];
        }
      } else {
        assert Calls(log, l) == Calls(init, l) + [] == Calls(init, l);
        assert Firsts(log, l) == Firsts(init, l) + [] == Firsts(init, l);
      }
    }
  }

  /** On a whole-second clock, if no second passes between the age check and the stamp of a
      message of the lane, then every content is handled once: the calls themselves are a
      prefix of what was queued. */
  lemma {:induction false} InOrderOnce(s: Sys, l: Lane, events: seq<Event>)
    requires AwaitedRun(s, l, events) && FreshRun(s, l, events) && WholeTicks(s, events)
    requires forall f :: f in Run(s, events).log && f.node == l.dest && InLane(l, f.pkt) ==> f.at - f.checked < 1.0
    ensures var v := After(s, l, events);
            var calls := Calls(v.sys.log, l);
            && calls <= Contents(v.pkts)
            && v.acked <= |calls| <= v.acked + 1
  {
    OrderedRun(s, l, events);
    InOrderDelivery(s, l, events);
    AfterIsRun(s, l, events);
    AwaitedStart(s, l, events);
    var v := After(s, l, events);
    CallsAreFirsts(v.sys.log, l);
    hide After, Run, ChainInv, SenderInv, Firsts, Calls, WholeTicks, AwaitedRun;
    forall i, j | 0 <= i < j < |v.sys.log| && v.sys.log[i].node == v.sys.log[j].node == l.dest
                  && InLane(l, v.sys.log[i].pkt) && InLane(l, v.sys.log[j].pkt)
      ensures v.sys.log[i].pkt.msg != v.sys.log[j].pkt.msg
    {
      LogOfLane(v, l, i);
      LogOfLane(v, l, j);
      assert v.sys.log[j] in v.sys.log;
      WholeSecondAtMostOnce(s, events, i, j);
    }
  }

  lemma LogOfLane(w: World, l: Lane, i: nat)
    requires ChainInv(w.sys) && SenderInv(w, l) && i < |w.sys.log|
    requires w.sys.log[i].node == l.dest && InLane(l, w.sys.log[i].pkt)
    ensures OfLane(w, w.sys.log[i].pkt)
  {
    hide ClientOk, WireOk, ReceiptOk, TaskOk, ClientOf, Handled;
    var x :| x in w.sys.net && x.topic == l.dest && x.pkt == w.sys.log[i].pkt;
    assert WireOf(w, l, x);
  }

  lemma {:induction false} AwaitedStart(s: Sys, l: Lane, events: seq<Event>)
    requires AwaitedRun(s, l, events)
    ensures Initial(s)
  {
    if events != [] { AwaitedStart(s, l, events[..|events| - 1]); }
  }
}
