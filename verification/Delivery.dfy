/** All routers, all their clients, and the brokers between them, as one step system.

    A router is the set of clients with the same key; they share one table of content stamps.
    A broker keeps everything ever published through it and may deliver any of it to the
    topic's subscriber at any time, any number of times or never: loss, duplication, delay and
    reordering. Receiving a message takes three steps, cut where the source awaits: the gates
    and the ack bookkeeping, then the stamp and the handlers, then the ack's signature. Steps
    of any other task may come in between. */
module Delivery {
  import opened Basics
  import opened Messages
  import opened ClientOps

  datatype Cid = Cid(node: Key, broker: nat)

  datatype Wire = Wire(broker: nat, topic: Key, pkt: Packet)

  /** A message on its way through process_app_msg on one client. */
  datatype Task =
    | Hashing(at: Cid, pkt: Packet, checked: real)  // passed the age gate at `checked`
    | Handling(at: Cid, pkt: Packet)                // stamped; handlers have run
    | Signing(at: Cid, pkt: Packet, out: Packet)    // the ack `out` is being signed
    | Finished

  /** The handlers of `node` were called with the content of `pkt`. */
  datatype Fire = Fire(node: Key, pkt: Packet, checked: real, at: real)

  /** `node` received `pkt` and has queued an ack for it. */
  datatype Receipt = Receipt(node: Key, pkt: Packet)

  datatype Sys = Sys(
    r: nat,                      // republish duration, the same for every client
    clock: real,
    clients: map<Cid, Client>,
    stamps: map<Key, Stamps>,    // recv_msg_ids, one table for all clients of a router
    net: set<Wire>,
    tasks: seq<Task>,
    log: seq<Fire>,              // history: handler calls, oldest first
    receipts: set<Receipt>)      // history

  datatype Event =
    | Tick(now: real)
    | Send(c: Cid, msg: Bytes, dest: Key, id: QueueId, at: Option<nat>)        // queue_msg, `at` its seq_no
    | Probe(c: Cid, dest: Key, id: QueueId)
    | Republish(c: Cid, kind: Kind, id: QueueId, seqNo: nat, now: real)
    | Leftover(c: Cid, kind: Kind, id: QueueId, seqNo: nat)   // see Step
    | Deliver(c: Cid, w: Wire)
    | Resume(task: nat)
    | Prune(c: Cid, now: real)
    | Dequeued(c: Cid, kind: Kind, id: QueueId, which: Option<nat>)
    | Reset(c: Cid)              // a reconnect: packet ids and buffer only, not the queues

  function StampsOf(s: Sys, node: Key): Stamps { if node in s.stamps then s.stamps[node] else map[] }

  function Publish(s: Sys, c: Cid, dest: Key, pkt: Packet): Sys { s.(net := s.net + {Wire(c.broker, dest, pkt)}) }

  function WithClient(s: Sys, c: Cid, client: Client): Sys { s.(clients := s.clients[c := client]) }

  predicate TooOld(s: Sys, p: Packet) { s.clock.Floor - p.timestamp > 2 * s.r }

  /** handle_publish and what follows it up to the first suspension. */
  function OnDeliver(s: Sys, c: Cid, w: Wire): Sys
    requires c in s.clients
  {
    var p := w.pkt;
    if w.topic != c.node then s
    else match p.kind
         case MSG =>
           if TooOld(s, p) then s
           else
             var (client, again) := Arrive(s.clients[c], p);
             var t := WithClient(s, c, client);
             if again.Some? then Publish(t, c, again.value.dest, again.value.out)
             else t.(tasks := t.tasks + [Hashing(c, p, s.clock)])
         case MSGACK => WithClient(s, c, OnAck(s.clients[c], p))
         case PROBE =>
           var (client, out) := OnProbe(s.clients[c], c.node, s.clock, p);
           var t := WithClient(s, c, client);
           if out.None? then t
           else Publish(t, c, p.src, out.value).(receipts := t.receipts + {Receipt(c.node, p)})
  }

  /** A suspended receive goes on to its next suspension. */
  function OnResume(s: Sys, i: nat): Sys
    requires i < |s.tasks|
  {
    match s.tasks[i]
    case Hashing(c, p, checked) =>
      var t := s.(tasks := s.tasks[i := Handling(c, p)]);
      if p.msg in StampsOf(s, c.node) then t
      else t.(stamps := s.stamps[c.node := StampsOf(s, c.node)[p.msg := s.clock]],
              log := s.log + [Fire(c.node, p, checked, s.clock)])
    case Handling(c, p) =>
      if c !in s.clients then s
      else (match BeginSend(s.clients[c], c.node, s.clock, ACK_TEXT, p.src, p.queueId, MSGACK, Some(p.seqNo))
            case BadId => s.(tasks := s.tasks[i := Finished])
            case Queued(client, _, out) => WithClient(s, c, client).(tasks := s.tasks[i := Signing(c, p, out)]))
    case Signing(c, p, out) =>
      if c !in s.clients then s
      else
        var client := FinishSend(s.clients[c], s.clock, p.src, out);
        WithClient(s, c, client).(tasks := s.tasks[i := Finished],
                                  receipts := if client == s.clients[c] then s.receipts
                                              else s.receipts + {Receipt(c.node, p)})
    case Finished => s
  }

  /** One step. An event that is not possible in `s` leaves `s` as it is.

      A scan that is inside a queue goes on publishing its entries after the queue was dequeued.
      `Leftover` makes such a publication in advance, just before the dequeueing: the network is
      free to hold it until the time it is really made. */
  function Step(s: Sys, e: Event): Sys {
    match e
    case Tick(now) => if now >= s.clock then s.(clock := now) else s
    case Send(c, msg, dest, id, at) =>
      if c !in s.clients then s
      else (match OrderedSend(s.clients[c], c.node, s.clock, msg, dest, id, MSG, at)
            case BadId => s
            case Queued(client, _, _) => WithClient(s, c, client))
    case Probe(c, dest, id) =>
      if c !in s.clients then s
      else (match SendProbe(s.clients[c], c.node, s.clock, dest, id)
            case BadId => s
            case Queued(client, _, out) => Publish(WithClient(s, c, client), c, dest, out))
    case Republish(c, kind, id, n, now) =>
      if c !in s.clients || !Has(s.clients[c].Of(kind), id, n) || s.clients[c].Of(kind)[id][n].oneShot then s
      else
        var m := s.clients[c].Of(kind)[id][n];
        Publish(WithClient(s, c, Touch(s.clients[c], kind, id, n, now)), c, m.dest, m.out)
    case Leftover(c, kind, id, n) =>
      if c !in s.clients || !Has(s.clients[c].Of(kind), id, n) || s.clients[c].Of(kind)[id][n].oneShot then s
      else
        var m := s.clients[c].Of(kind)[id][n];
        Publish(s, c, m.dest, m.out)
    case Deliver(c, w) => if c in s.clients && w in s.net && w.broker == c.broker then OnDeliver(s, c, w) else s
    case Resume(i) => if i < |s.tasks| then OnResume(s, i) else s
    case Prune(c, now) =>
      if c !in s.clients || now > s.clock then s
      else
        var client := s.clients[c];
        WithClient(s, c, client.(sent := Fresh(client.sent, now, 2 * s.r)))
          .(stamps := s.stamps[c.node := Fresh(StampsOf(s, c.node), now, 2 * s.r)])
    case Dequeued(c, kind, id, n) =>
      if c in s.clients then WithClient(s, c, Dequeue(s.clients[c], kind, id, n)) else s
    case Reset(c) => s
  }

  ghost predicate Initial(s: Sys) {
    && s.clock >= 0.0
    && (forall c :: c in s.clients ==> s.clients[c] == EMPTY)
    && s.stamps == map[] && s.net == {} && s.tasks == [] && s.log == [] && s.receipts == {}
  }

  function Run(s: Sys, events: seq<Event>): Sys {
    if events == [] then s else Step(Run(s, events[..|events| - 1]), events[|events| - 1])
  }

  lemma RunAppend(s: Sys, events: seq<Event>, e: Event)
    ensures Run(s, events + [e]) == Step(Run(s, events), e)
  {
    assert (events + [e])[..|events|] == events;
  }

  // ---- what a delivery does --------------------------------------------------------------------

  /** A message that reaches its addressee and is not too old makes it forget its acks for
      earlier messages of the queue. If this one is acked already, the queued ack is published
      again and that is all; otherwise a new receive starts. */
  lemma MessageDelivered(s: Sys, c: Cid, w: Wire)
    requires c in s.clients && w in s.net && w.broker == c.broker && w.topic == c.node && w.pkt.kind.MSG?
    ensures var t, p, acks := Step(s, Deliver(c, w)), w.pkt, s.clients[c].acks;
            if s.clock.Floor - p.timestamp > 2 * s.r then t == s
            else
              && c in t.clients
              && t == s.(clients := s.clients[c := s.clients[c].(acks := t.clients[c].acks)],
                         net := t.net, tasks := t.tasks)
              && (forall id, k: nat :: Has(t.clients[c].acks, id, k) <==>
                    Has(acks, id, k) && (id == p.queueId ==> k >= p.seqNo))
              && (forall id, k: nat :: Has(t.clients[c].acks, id, k) ==> t.clients[c].acks[id][k] == acks[id][k])
              && (if Has(acks, p.queueId, p.seqNo)
                  then var m := acks[p.queueId][p.seqNo];
                       t.net == s.net + {Wire(c.broker, m.dest, m.out)} && t.tasks == s.tasks
                  else t.net == s.net && t.tasks == s.tasks + [Hashing(c, p, s.clock)])
  {
    ArriveExactly(s.clients[c], w.pkt);
    hide Arrive;
  }

  /** A probe that is not acked yet is answered at once, to its sender. */
  lemma ProbeDelivered(s: Sys, c: Cid, w: Wire)
    requires c in s.clients && w in s.net && w.broker == c.broker && w.topic == c.node && w.pkt.kind.PROBE?
    ensures var t, p := Step(s, Deliver(c, w)), w.pkt;
            if Has(s.clients[c].acks, p.queueId, p.seqNo) then t == s
            else
              var ack := Packet(c.node, p.queueId, p.seqNo, s.clock.Floor, MSGACK, ACK_TEXT);
              && c in t.clients && Has(t.clients[c].acks, p.queueId, p.seqNo)
              && t.net == s.net + {Wire(c.broker, p.src, ack)}
              && t.tasks == s.tasks && t.log == s.log && t.stamps == s.stamps
  {
    ProbeAnswered(s.clients[c], c.node, s.clock, w.pkt);
    hide OnProbe;
    assert s.clients[c := s.clients[c]] == s.clients;
  }

  /** An ack settles what it answers however old it is, and does nothing else. */
  lemma AckDelivered(s: Sys, c: Cid, w: Wire)
    requires c in s.clients && w in s.net && w.broker == c.broker && w.topic == c.node && w.pkt.kind.MSGACK?
    ensures Step(s, Deliver(c, w)) == s.(clients := s.clients[c := OnAck(s.clients[c], w.pkt)])
  {
    hide OnAck;
  }

  /** Once a message has been stamped and handled, and if nothing comes in between, the client
      queues an ack with the message's own id and number, for the message's sender, unless it has
      one under that number; nobody's handlers are called and nothing is published. */
  lemma AckIsQueued(s: Sys, i: nat)
    requires i < |s.tasks| && s.tasks[i].Handling? && s.tasks[i].at in s.clients
    requires |s.tasks[i].pkt.queueId| == 64 && |s.tasks[i].pkt.src| == 66
    ensures var c, p := s.tasks[i].at, s.tasks[i].pkt;
            var t := Step(Step(s, Resume(i)), Resume(i));
            var ack := Packet(c.node, p.queueId, p.seqNo, s.clock.Floor, MSGACK, [97, 99, 107]);
            && c in t.clients && t.clients == s.clients[c := s.clients[c].(acks := t.clients[c].acks)]
            && AddsOne(s.clients[c].acks, t.clients[c].acks, p.queueId, p.seqNo,
                       Meta(Pending, p.src, p.seqNo, ack, 0.0, s.clock, 0, false))
            && t.tasks == s.tasks[i := Finished] && t.log == s.log && t.net == s.net && t.stamps == s.stamps
  {
    var c, p := s.tasks[i].at, s.tasks[i].pkt;
    BeginsExactly(s.clients[c], c.node, s.clock, ACK_TEXT, p.src, p.queueId, MSGACK, Some(p.seqNo));
    var b := BeginSend(s.clients[c], c.node, s.clock, ACK_TEXT, p.src, p.queueId, MSGACK, Some(p.seqNo));
    hide BeginSend, FinishSend;
    FinishesExactly(b.client, s.clock, p.src, b.out);
    var d := FinishSend(b.client, s.clock, p.src, b.out);
    OnlyAcks(s.clients[c], b.client, d);
    assert s.tasks[i := Signing(c, p, b.out)][i := Finished] == s.tasks[i := Finished];
    assert s.clients[c := b.client][c := d] == s.clients[c := d];
  }

  lemma OnlyAcks(c: Client, b: Client, d: Client)
    requires forall other :: other != MSGACK ==> b.Of(other) == c.Of(other) && d.Of(other) == b.Of(other)
    requires b.sent == c.sent && d.sent == b.sent
    ensures d == c.(acks := d.acks)
  {
    assert d.Of(MSG) == c.Of(MSG) && d.Of(PROBE) == c.Of(PROBE);
  }

  /** What is addressed to somebody else, or was not published here, does nothing. */
  lemma NotDelivered(s: Sys, c: Cid, w: Wire)
    requires !(w in s.net && w.broker == c.broker && w.topic == c.node)
    ensures Step(s, Deliver(c, w)) == s
  {
    hide Arrive, OnAck, OnProbe;
  }

  /** Over runs: right after a message of number n has come in at a client, that client holds no
      ack below n under the message's queue id, whatever happened before. */
  lemma NoOlderAcks(s: Sys, events: seq<Event>, c: Cid, w: Wire, k: nat)
    requires var t := Run(s, events);
             && c in t.clients && w in t.net && w.broker == c.broker && w.topic == c.node && w.pkt.kind.MSG?
             && t.clock.Floor - w.pkt.timestamp <= 2 * t.r && k < w.pkt.seqNo
    ensures var t := Run(s, events + [Deliver(c, w)]);
            c in t.clients && !Has(t.clients[c].acks, w.pkt.queueId, k)
  {
    RunAppend(s, events, Deliver(c, w));
    MessageDelivered(Run(s, events), c, w);
    hide Step, Run;
  }

  // ---- where acks come from --------------------------------------------------------------------

  predicate Published(s: Sys, dest: Key, pkt: Packet) { exists w :: w in s.net && w.topic == dest && w.pkt == pkt }

  predicate Handled(s: Sys, node: Key, msg: Bytes) { exists f :: f in s.log && f.node == node && f.pkt.msg == msg }

  /** `d` has queued an ack for a message or probe of `a` with this queue id and number. */
  predicate Acked(receipts: set<Receipt>, d: Key, a: Key, id: QueueId, n: nat) {
    exists r :: r in receipts && r.node == d && r.pkt.src == a && r.pkt.queueId == id && r.pkt.seqNo == n
  }

  /** A queue entry carries its own key, and is backed by a receipt where it stands for an ack
      sent (its packet) or received (its future). */
  predicate EntryOk(receipts: set<Receipt>, node: Key, kind: Kind, id: QueueId, n: nat, m: Meta) {
    && m.out.src == node && m.out.kind == kind && m.out.queueId == id && m.out.seqNo == n
    && (kind.MSGACK? ==> Acked(receipts, node, m.dest, id, n))
    && (!kind.MSGACK? && m.ack == ByAck ==> Acked(receipts, m.dest, node, id, n))
  }

  ghost predicate QueuesOk(receipts: set<Receipt>, node: Key, kind: Kind, qs: Queues) {
    forall id, n :: id in qs && n in qs[id] ==> EntryOk(receipts, node, kind, id, n, qs[id][n])
  }

  ghost predicate ClientOk(receipts: set<Receipt>, node: Key, c: Client) {
    && QueuesOk(receipts, node, MSG, c.msgs)
    && QueuesOk(receipts, node, MSGACK, c.acks)
    && QueuesOk(receipts, node, PROBE, c.probes)
  }

  predicate WireOk(receipts: set<Receipt>, w: Wire) {
    w.pkt.kind.MSGACK? ==> Acked(receipts, w.pkt.src, w.topic, w.pkt.queueId, w.pkt.seqNo)
  }

  predicate ReceiptOk(s: Sys, r: Receipt) {
    && !r.pkt.kind.MSGACK?
    && Published(s, r.node, r.pkt)
    && (r.pkt.kind.MSG? ==> Handled(s, r.node, r.pkt.msg))
  }

  predicate TaskOk(s: Sys, t: Task) {
    t.Finished? ||
    (&& t.pkt.kind.MSG?
     && Published(s, t.at.node, t.pkt)
     && (!t.Hashing? ==> Handled(s, t.at.node, t.pkt.msg))
     && (t.Signing? ==>
           t.out.src == t.at.node && t.out.kind.MSGACK? && t.out.queueId == t.pkt.queueId &&
           t.out.seqNo == t.pkt.seqNo))
  }

  ghost predicate ChainInv(s: Sys) {
    && (forall c :: c in s.clients ==> ClientOk(s.receipts, c.node, s.clients[c]))
    && (forall w :: w in s.net ==> WireOk(s.receipts, w))
    && (forall r :: r in s.receipts ==> ReceiptOk(s, r))
    && (forall i :: 0 <= i < |s.tasks| ==> TaskOk(s, s.tasks[i]))
    && (forall node, m :: m in StampsOf(s, node) ==> Handled(s, node, m))
    && (forall i :: 0 <= i < |s.log| ==> s.log[i].pkt.kind.MSG? && Published(s, s.log[i].node, s.log[i].pkt))
  }

  /** `t` remembers everything `s` does. */
  ghost predicate Extends(s: Sys, t: Sys) {
    s.net <= t.net && s.receipts <= t.receipts && s.log <= t.log
  }

  lemma ExtendsKeeps(s: Sys, t: Sys)
    requires Extends(s, t)
    ensures forall d, p :: Published(s, d, p) ==> Published(t, d, p)
    ensures forall d, m :: Handled(s, d, m) ==> Handled(t, d, m)
    ensures forall r :: ReceiptOk(s, r) ==> ReceiptOk(t, r)
    ensures forall k :: TaskOk(s, k) ==> TaskOk(t, k)
    ensures forall node, c :: ClientOk(s.receipts, node, c) ==> ClientOk(t.receipts, node, c)
    ensures forall w :: WireOk(s.receipts, w) ==> WireOk(t.receipts, w)
  {
    forall f | f in s.log ensures f in t.log {
      var i :| 0 <= i < |s.log| && s.log[i] == f;
      assert t.log[i] == f;
    }
    forall d, m | Handled(s, d, m) ensures Handled(t, d, m) {
      var f :| f in s.log && f.node == d && f.pkt.msg == m;
      assert f in t.log;
    }
    forall node, c | ClientOk(s.receipts, node, c) ensures ClientOk(t.receipts, node, c) {
      forall kind, id, n, m | EntryOk(s.receipts, node, kind, id, n, m)
        ensures EntryOk(t.receipts, node, kind, id, n, m) {
      }
    }
  }

  lemma StepExtends(s: Sys, e: Event)
    ensures Extends(s, Step(s, e)) && Step(s, e).r == s.r && Step(s, e).clock >= s.clock
    ensures |Step(s, e).tasks| >= |s.tasks|
    ensures Step(s, e).clients.Keys == s.clients.Keys
  {
    hide BeginSend, FinishSend, OrderedSend, Arrive, OnAck, OnProbe, SendProbe, Dequeue, Touch, Fresh;
  }

  // each client operation keeps ClientOk

  lemma PutOk(receipts: set<Receipt>, node: Key, kind: Kind, qs: Queues, id: QueueId, n: nat, m: Meta)
    requires QueuesOk(receipts, node, kind, qs) && EntryOk(receipts, node, kind, id, n, m)
    ensures QueuesOk(receipts, node, kind, Put(qs, id, n, m))
  {
  }

  lemma ArriveOk(receipts: set<Receipt>, node: Key, c: Client, p: Packet)
    requires ClientOk(receipts, node, c)
    ensures ClientOk(receipts, node, Arrive(c, p).0)
    ensures Arrive(c, p).1.Some? ==> EntryOk(receipts, node, MSGACK, p.queueId, p.seqNo, Arrive(c, p).1.value)
  {
  }

  lemma OnAckOk(receipts: set<Receipt>, node: Key, c: Client, p: Packet)
    requires ClientOk(receipts, node, c) && Acked(receipts, p.src, node, p.queueId, p.seqNo)
    ensures ClientOk(receipts, node, OnAck(c, p))
  {
    hide Acked;
    if Answers(c.msgs, p) {
      var m := c.msgs[p.queueId][p.seqNo];
      assert EntryOk(receipts, node, MSG, p.queueId, p.seqNo, m);
      PutOk(receipts, node, MSG, c.msgs, p.queueId, p.seqNo, m.(ack := ByAck));
    } else if Answers(c.probes, p) {
      var m := c.probes[p.queueId][p.seqNo];
      assert EntryOk(receipts, node, PROBE, p.queueId, p.seqNo, m);
      PutOk(receipts, node, PROBE, c.probes, p.queueId, p.seqNo, m.(ack := ByAck));
    }
  }

  lemma BeginSendOk(receipts: set<Receipt>, node: Key, c: Client, now: real, msg: Bytes, dest: Key, id: QueueId,
                    kind: Kind, seqNo: Option<nat>)
    requires ClientOk(receipts, node, c)
    ensures var r := BeginSend(c, node, now, msg, dest, id, kind, seqNo);
            r.Queued? ==> ClientOk(receipts, node, r.client)
  {
    hide Acked;
  }

  lemma FinishSendOk(receipts: set<Receipt>, node: Key, c: Client, now: real, dest: Key, out: Packet)
    requires ClientOk(receipts, node, c) && out.src == node
    requires out.kind.MSGACK? ==> Acked(receipts, node, dest, out.queueId, out.seqNo)
    ensures ClientOk(receipts, node, FinishSend(c, now, dest, out))
  {
    hide Acked;
    PutOk(receipts, node, out.kind, c.Of(out.kind), out.queueId, out.seqNo,
      Meta(Pending, dest, out.seqNo, out, 0.0, now, 0, false));
  }

  lemma DequeueOk(receipts: set<Receipt>, node: Key, c: Client, kind: Kind, id: QueueId, seqNo: Option<nat>)
    requires ClientOk(receipts, node, c)
    ensures ClientOk(receipts, node, Dequeue(c, kind, id, seqNo))
  {
    hide Acked;
    if seqNo.Some? && Has(c.Of(kind), id, seqNo.value) {
      var m := c.Of(kind)[id][seqNo.value];
      PutOk(receipts, node, kind, c.Of(kind), id, seqNo.value, m.(ack := ByDequeue));
    }
  }

  lemma TouchOk(receipts: set<Receipt>, node: Key, c: Client, kind: Kind, id: QueueId, n: nat, now: real)
    requires ClientOk(receipts, node, c) && Has(c.Of(kind), id, n)
    ensures ClientOk(receipts, node, Touch(c, kind, id, n, now))
    ensures EntryOk(receipts, node, kind, id, n, c.Of(kind)[id][n])
  {
    hide Acked;
    var m := c.Of(kind)[id][n];
    PutOk(receipts, node, kind, c.Of(kind), id, n, Attempted(m, now));
  }

  lemma {:induction false} DeliverKeepsChain(s: Sys, c: Cid, w: Wire)
    requires ChainInv(s) && c in s.clients && w in s.net
    ensures ChainInv(OnDeliver(s, c, w))
  {
    hide Arrive, OnAck, OnProbe, Acked;
    var t := OnDeliver(s, c, w);
    ExtendsKeeps(s, t);
    if w.topic == c.node {
      match w.pkt.kind
      case MSG =>
        ArriveOk(s.receipts, c.node, s.clients[c], w.pkt);
      case MSGACK =>
        OnAckOk(s.receipts, c.node, s.clients[c], w.pkt);
      case PROBE =>
        ProbeKeepsChain(s, c, w);
    }
  }

  lemma {:induction false} ProbeKeepsChain(s: Sys, c: Cid, w: Wire)
    requires ChainInv(s) && c in s.clients && w in s.net && w.topic == c.node && w.pkt.kind.PROBE?
    ensures ChainInv(OnDeliver(s, c, w))
  {
    hide ClientOk, Put, Handled, Acked;
    var p, r := w.pkt, Receipt(c.node, w.pkt);
    var (client, out) := OnProbe(s.clients[c], c.node, s.clock, p);
    assert Published(s, c.node, p);
    hide Published;
    if out.Some? {
      AddReceiptKeepsChain(s, r);
      var u := s.(receipts := s.receipts + {r});
      ChainClient(u, c);
      ProbeAckOk(u.receipts, c.node, s.clients[c], s.clock, p);
      hide OnProbe, ChainInv;
      ReplaceKeepsChain(u, c, client, {Wire(c.broker, p.src, out.value)});
    } else {
      assert s.clients[c := client] == s.clients;
    }
  }

  lemma ProbeAckOk(receipts: set<Receipt>, node: Key, c: Client, now: real, p: Packet)
    requires ClientOk(receipts, node, c) && Acked(receipts, node, p.src, p.queueId, p.seqNo)
    ensures ClientOk(receipts, node, OnProbe(c, node, now, p).0)
    ensures OnProbe(c, node, now, p).1.Some? ==>
              forall b: nat :: WireOk(receipts, Wire(b, p.src, OnProbe(c, node, now, p).1.value))
  {
    hide Acked, Put;
    var out := OnProbe(c, node, now, p).1;
    if out.Some? {
      PutOk(receipts, node, MSGACK, c.acks, p.queueId, p.seqNo,
        Meta(Pending, p.src, p.seqNo, out.value, 0.0, now, 0, true));
    }
  }

  lemma {:induction false} ResumeKeepsChain(s: Sys, i: nat)
    requires ChainInv(s) && i < |s.tasks|
    ensures ChainInv(OnResume(s, i))
  {
    hide FinishSend, BeginSend, ChainInv;
    match s.tasks[i]
    case Hashing(c, p, checked) => HashingKeepsChain(s, i);
    case Handling(c, p) => if c in s.clients { HandlingKeepsChain(s, i); }
    case Signing(c, p, out) => if c in s.clients { SigningKeepsChain(s, i); }
    case Finished =>
  }

  lemma HashingKeepsChain(s: Sys, i: nat)
    requires ChainInv(s) && i < |s.tasks| && s.tasks[i].Hashing?
    ensures ChainInv(OnResume(s, i))
  {
    hide Acked, ClientOk, WireOk;
    var t, c, p := OnResume(s, i), s.tasks[i].at, s.tasks[i].pkt;
    ExtendsKeeps(s, t);
    assert TaskOk(s, s.tasks[i]);
    if p.msg !in StampsOf(s, c.node) {
      var f := Fire(c.node, p, s.tasks[i].checked, s.clock);
      assert t.log[|s.log|] == f && f in t.log;
    }
    assert Handled(t, c.node, p.msg);
    hide Handled, Published;
  }

  lemma HandlingKeepsChain(s: Sys, i: nat)
    requires ChainInv(s) && i < |s.tasks| && s.tasks[i].Handling? && s.tasks[i].at in s.clients
    ensures ChainInv(OnResume(s, i))
  {
    var c, p := s.tasks[i].at, s.tasks[i].pkt;
    assert TaskOk(s, s.tasks[i]);
    ChainClient(s, c);
    BeginSendOk(s.receipts, c.node, s.clients[c], s.clock, ACK_TEXT, p.src, p.queueId, MSGACK, Some(p.seqNo));
    BeginSendPacket(s.clients[c], c.node, s.clock, ACK_TEXT, p.src, p.queueId, MSGACK, Some(p.seqNo));
    hide BeginSend, Acked, Handled, Published, ClientOk, WireOk, ReceiptOk;
    ExtendsKeeps(s, OnResume(s, i));
  }

  lemma BeginSendPacket(c: Client, self: Key, now: real, msg: Bytes, dest: Key, id: QueueId, kind: Kind,
                        seqNo: Option<nat>)
    ensures var r := BeginSend(c, self, now, msg, dest, id, kind, seqNo);
            r.Queued? ==>
              r.out == Packet(self, id, r.seqNo, now.Floor, kind, msg) && (seqNo.Some? ==> r.seqNo == seqNo.value)
  {
  }

  lemma SigningKeepsChain(s: Sys, i: nat)
    requires ChainInv(s) && i < |s.tasks| && s.tasks[i].Signing? && s.tasks[i].at in s.clients
    ensures ChainInv(OnResume(s, i))
  {
    hide FinishSend, ClientOk, Published, Handled, Acked;
    var Signing(c, p, out) := s.tasks[i];
    assert TaskOk(s, s.tasks[i]);
    var client, r := FinishSend(s.clients[c], s.clock, p.src, out), Receipt(c.node, p);
    hide ChainInv;
    if client == s.clients[c] {
      assert s.clients[c := client] == s.clients;
      FinishTaskKeepsChain(s, i);
    } else {
      AddReceiptKeepsChain(s, r);
      var u := s.(receipts := s.receipts + {r});
      ChainClient(u, c);
      FinishSendOk(u.receipts, c.node, s.clients[c], s.clock, p.src, out);
      ReplaceKeepsChain(u, c, client, {});
      assert u.net + {} == s.net;
      FinishTaskKeepsChain(WithClient(u, c, client), i);
    }
  }

  lemma FinishTaskKeepsChain(s: Sys, i: nat)
    requires ChainInv(s) && i < |s.tasks|
    ensures ChainInv(s.(tasks := s.tasks[i := Finished]))
  {
    ExtendsKeeps(s, s.(tasks := s.tasks[i := Finished]));
    hide ClientOk, WireOk, Handled, Published;
  }

  lemma AddReceiptKeepsChain(s: Sys, r: Receipt)
    requires ChainInv(s) && ReceiptOk(s, r)
    ensures ChainInv(s.(receipts := s.receipts + {r}))
    ensures Acked(s.receipts + {r}, r.node, r.pkt.src, r.pkt.queueId, r.pkt.seqNo)
  {
    var t := s.(receipts := s.receipts + {r});
    ExtendsKeeps(s, t);
    assert r in t.receipts;
    hide ClientOk, WireOk, Handled, Published;
  }

  /** Replacing one client's queues by sound ones, and publishing a sound packet. */
  lemma ReplaceKeepsChain(s: Sys, c: Cid, client: Client, wires: set<Wire>)
    requires ChainInv(s) && c in s.clients && ClientOk(s.receipts, c.node, client)
    requires forall w :: w in wires ==> WireOk(s.receipts, w)
    ensures ChainInv(WithClient(s, c, client).(net := s.net + wires))
  {
    hide Acked, Handled, Published;
    ExtendsKeeps(s, WithClient(s, c, client).(net := s.net + wires));
  }

  lemma SendKeepsChain(s: Sys, c: Cid, msg: Bytes, dest: Key, id: QueueId, at: Option<nat>)
    requires ChainInv(s) && c in s.clients
    ensures ChainInv(Step(s, Send(c, msg, dest, id, at)))
  {
    hide BeginSend, FinishSend, ClientOk, ChainInv;
    assert ClientOk(s.receipts, c.node, s.clients[c]) by { ChainClient(s, c); }
    BeginSendOk(s.receipts, c.node, s.clients[c], s.clock, msg, dest, id, MSG, at);
    BeginSendPacket(s.clients[c], c.node, s.clock, msg, dest, id, MSG, at);
    var b := BeginSend(s.clients[c], c.node, s.clock, msg, dest, id, MSG, at);
    if b.Queued? {
      FinishSendOk(s.receipts, c.node, b.client, s.clock, dest, b.out);
      ReplaceKeepsChain(s, c, FinishSend(b.client, s.clock, dest, b.out), {});
      assert s.net + {} == s.net;
    }
  }

  lemma ChainClient(s: Sys, c: Cid)
    requires ChainInv(s) && c in s.clients
    ensures ClientOk(s.receipts, c.node, s.clients[c])
  {
    hide ClientOk;
  }

  lemma ProbeSentKeepsChain(s: Sys, c: Cid, dest: Key, id: QueueId)
    requires ChainInv(s) && c in s.clients
    ensures ChainInv(Step(s, Probe(c, dest, id)))
  {
    var r := SendProbe(s.clients[c], c.node, s.clock, dest, id);
    if r.Queued? {
      PutOk(s.receipts, c.node, PROBE, s.clients[c].probes, id, r.seqNo,
        Meta(Pending, dest, r.seqNo, r.out, 0.0, s.clock, 0, true));
      hide Acked, Handled, Published, Put;
      ReplaceKeepsChain(s, c, r.client, {Wire(c.broker, dest, r.out)});
    }
  }

  lemma RepublishKeepsChain(s: Sys, c: Cid, kind: Kind, id: QueueId, n: nat, now: real)
    requires ChainInv(s) && c in s.clients && Has(s.clients[c].Of(kind), id, n)
    ensures ChainInv(Step(s, Republish(c, kind, id, n, now)))
  {
    var m := s.clients[c].Of(kind)[id][n];
    TouchOk(s.receipts, c.node, s.clients[c], kind, id, n, now);
    hide Acked, Handled, Published, Touch;
    ReplaceKeepsChain(s, c, Touch(s.clients[c], kind, id, n, now), {Wire(c.broker, m.dest, m.out)});
  }

  lemma LeftoverKeepsChain(s: Sys, c: Cid, kind: Kind, id: QueueId, n: nat)
    requires ChainInv(s) && c in s.clients && Has(s.clients[c].Of(kind), id, n)
    ensures ChainInv(Step(s, Leftover(c, kind, id, n)))
  {
    var m := s.clients[c].Of(kind)[id][n];
    TouchOk(s.receipts, c.node, s.clients[c], kind, id, n, 0.0);
    assert s.clients[c := s.clients[c]] == s.clients;
    hide Acked, Handled, Published, Touch;
    ReplaceKeepsChain(s, c, s.clients[c], {Wire(c.broker, m.dest, m.out)});
  }

  lemma StepKeepsChain(s: Sys, e: Event)
    requires ChainInv(s)
    ensures ChainInv(Step(s, e))
  {
    hide OnDeliver, OnResume, OrderedSend, SendProbe, Dequeue, Touch, Fresh, Acked, Handled, Published;
    match e
    case Tick(now) => ExtendsKeeps(s, Step(s, e));
    case Send(c, msg, dest, id, at) => if c in s.clients { SendKeepsChain(s, c, msg, dest, id, at); }
    case Probe(c, dest, id) => if c in s.clients { ProbeSentKeepsChain(s, c, dest, id); }
    case Republish(c, kind, id, n, now) =>
      if c in s.clients && Has(s.clients[c].Of(kind), id, n) { RepublishKeepsChain(s, c, kind, id, n, now); }
    case Leftover(c, kind, id, n) =>
      if c in s.clients && Has(s.clients[c].Of(kind), id, n) { LeftoverKeepsChain(s, c, kind, id, n); }
    case Deliver(c, w) => if c in s.clients && w in s.net && w.broker == c.broker { DeliverKeepsChain(s, c, w); }
    case Resume(i) => if i < |s.tasks| { ResumeKeepsChain(s, i); }
    case Prune(c, now) => PruneKeepsChain(s, c, now);
    case Dequeued(c, kind, id, n) =>
      if c in s.clients {
        DequeueOk(s.receipts, c.node, s.clients[c], kind, id, n);
        ReplaceKeepsChain(s, c, Dequeue(s.clients[c], kind, id, n), {});
        assert s.net + {} == s.net;
      }
    case Reset(c) =>
  }

  lemma PruneKeepsChain(s: Sys, c: Cid, now: real)
    requires ChainInv(s)
    ensures ChainInv(Step(s, Prune(c, now)))
  {
    hide Acked;
    ExtendsKeeps(s, Step(s, Prune(c, now)));
    hide Handled, Published;
  }

  lemma {:induction false} RunKeepsChain(s: Sys, events: seq<Event>)
    requires Initial(s)
    ensures ChainInv(Run(s, events))
  {
    if events != [] {
      RunKeepsChain(s, events[..|events| - 1]);
      StepKeepsChain(Run(s, events[..|events| - 1]), events[|events| - 1]);
    }
  }

  /** Ack soundness. In every run, a future resolved by an ack means that the peer the entry
      was addressed to had been sent, had received, and had queued an ack for, a message or
      probe of this very sender with this very queue id and number; and if that was a message,
      the peer's handlers have been called with its content. */
  lemma {:induction false} AckSoundness(s: Sys, events: seq<Event>, c: Cid, kind: Kind, id: QueueId, n: nat)
    requires Initial(s)
    requires var t := Run(s, events);
             c in t.clients && !kind.MSGACK? && Has(t.clients[c].Of(kind), id, n) &&
               t.clients[c].Of(kind)[id][n].ack == ByAck
    ensures var t := Run(s, events);
            var dest := t.clients[c].Of(kind)[id][n].dest;
            exists r :: r in t.receipts && r.node == dest && r.pkt.src == c.node && r.pkt.queueId == id &&
              r.pkt.seqNo == n
                        && !r.pkt.kind.MSGACK? && Published(t, dest, r.pkt)
                        && (r.pkt.kind.MSG? ==> Handled(t, dest, r.pkt.msg))
  {
    RunKeepsChain(s, events);
    var t := Run(s, events);
    hide Run;
    var m := t.clients[c].Of(kind)[id][n];
    assert EntryOk(t.receipts, c.node, kind, id, n, m);
    var r :| r in t.receipts && r.node == m.dest && r.pkt.src == c.node && r.pkt.queueId == id && r.pkt.seqNo == n;
    assert ReceiptOk(t, r);
  }
}
