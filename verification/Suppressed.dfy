/** A receiver tells messages apart by their content only. A send whose content the peer has
    stamped already, for whatever sender, is acknowledged without a call of the handlers. */
module Suppressed {
  import opened Basics
  import opened Messages
  import opened ClientOps
  import opened Delivery
  import SecondCall

  /** Client `a0` sends `m` to the router of client `p0`, over their common broker, and gets its
      ack; task `i` is the one that receives the message. */
  function SendAndAck(a0: Cid, p0: Cid, pkt: Packet, ack: Packet, i: nat, now: real): seq<Event> {
    var id := pkt.queueId;
    [Send(a0, pkt.msg, p0.node, id, None), Republish(a0, MSG, id, 0, now), Deliver(p0, Wire(a0.broker, p0.node, pkt)),
     Resume(i), Resume(i), Resume(i),
     Republish(p0, MSGACK, id, 0, now), Deliver(a0, Wire(a0.broker, a0.node, ack))]
  }

  /** The receiving task from its digest to the queued ack, if the content is stamped. */
  lemma StampedGoesOn(s: Sys, p0: Cid, pkt: Packet, i: nat)
    requires p0 in s.clients && pkt.queueId !in s.clients[p0].acks
    requires i < |s.tasks| && s.tasks[i] == Hashing(p0, pkt, s.clock)
    requires pkt.msg in StampsOf(s, p0.node) && ValidIds(pkt.queueId, pkt.src)
    ensures var t := Step(Step(Step(s, Resume(i)), Resume(i)), Resume(i));
            var ack := Packet(p0.node, pkt.queueId, pkt.seqNo, s.clock.Floor, MSGACK, ACK_TEXT);
            && p0 in t.clients
            && t == s.(clients := s.clients[p0 := t.clients[p0]], tasks := t.tasks,
                       receipts := s.receipts + {Receipt(p0.node, pkt)})
            && t.clients[p0].acks
               == s.clients[p0].acks[pkt.queueId :=
                    map[pkt.seqNo := Meta(Pending, pkt.src, pkt.seqNo, ack, 0.0, s.clock, 0, false)]]
  {
    var client, id, n := s.clients[p0], pkt.queueId, pkt.seqNo;
    var ack := Packet(p0.node, id, n, s.clock.Floor, MSGACK, ACK_TEXT);
    var s1 := Step(s, Resume(i));
    assert s1 == s.(tasks := s.tasks[i := Handling(p0, pkt)]);
    var room := client.(acks := client.acks[id := map[]]);
    assert BeginSend(client, p0.node, s.clock, ACK_TEXT, pkt.src, id, MSGACK, Some(n)) == Queued(room, n, ack);
    var s2 := Step(s1, Resume(i));
    assert s2 == s.(clients := s.clients[p0 := room], tasks := s.tasks[i := Signing(p0, pkt, ack)]);
    var m := Meta(Pending, pkt.src, n, ack, 0.0, s.clock, 0, false);
    assert map[][n := m] == map[n := m];
    var done := FinishSend(room, s.clock, pkt.src, ack);
    assert done.acks == client.acks[id := map[n := m]] && id in done.acks && n in done.acks[id] && done != room;
    hide BeginSend, FinishSend;
    assert Step(s2, Resume(i)).clients == s.clients[p0 := done];
  }

  /** The ack goes out and comes back. */
  lemma AckReturns(s: Sys, a0: Cid, p0: Cid, id: QueueId, ack: Packet)
    requires a0 in s.clients && p0 in s.clients && a0 != p0 && a0.broker == p0.broker && ack.kind.MSGACK?
    requires Has(s.clients[p0].acks, id, 0)
    requires var k := s.clients[p0].acks[id][0]; k.out == ack && k.dest == a0.node && !k.oneShot
    requires Has(s.clients[a0].msgs, id, 0)
    requires var m := s.clients[a0].msgs[id][0]; m.ack == Pending && m.dest == ack.src && !m.oneShot
    requires ack.queueId == id && ack.seqNo == 0
    ensures var t := Step(Step(s, Republish(p0, MSGACK, id, 0, s.clock)), Deliver(a0, Wire(a0.broker, a0.node, ack)));
            && a0 in t.clients && Has(t.clients[a0].msgs, id, 0) && t.clients[a0].msgs[id][0].ack == ByAck
            && t.log == s.log
  {
    var t, m := Step(s, Republish(p0, MSGACK, id, 0, s.clock)), s.clients[a0].msgs[id][0];
    assert Wire(a0.broker, a0.node, ack) in t.net && t.clients[a0] == s.clients[a0] && t.log == s.log;
    hide Touch, Put;
    assert Answers(t.clients[a0].msgs, ack);
    var c := OnAck(t.clients[a0], ack);
    assert c.msgs == Put(t.clients[a0].msgs, id, 0, m.(ack := ByAck));
    PutHas(t.clients[a0].msgs, id, m.(ack := ByAck));
  }

  lemma PutHas(qs: Queues, id: QueueId, m: Meta)
    ensures Has(Put(qs, id, 0, m), id, 0) && Put(qs, id, 0, m)[id][0] == m
  {
  }

  /** For every state in which the peer has a stamp for the content, and neither side has used the
      queue id: the send is acknowledged and no handler is called. */
  lemma AckedWithoutCall(s: Sys, a0: Cid, p0: Cid, id: QueueId, m: Bytes)
    requires a0 in s.clients && p0 in s.clients && a0.node != p0.node && a0.broker == p0.broker
    requires id !in s.clients[a0].msgs && id !in s.clients[p0].acks
    requires ValidIds(id, p0.node) && ValidIds(id, a0.node) && m in StampsOf(s, p0.node)
    ensures var pkt := Packet(a0.node, id, 0, s.clock.Floor, MSG, m);
            var ack := Packet(p0.node, id, 0, s.clock.Floor, MSGACK, ACK_TEXT);
            var t := Run(s, SendAndAck(a0, p0, pkt, ack, |s.tasks|, s.clock));
            && a0 in t.clients && Has(t.clients[a0].msgs, id, 0) && t.clients[a0].msgs[id][0].ack == ByAck
            && t.log == s.log
  {
    var now, i := s.clock, |s.tasks|;
    var pkt := Packet(a0.node, id, 0, now.Floor, MSG, m);
    var ack := Packet(p0.node, id, 0, now.Floor, MSGACK, ACK_TEXT);
    SecondCall.FirstMessage(s, a0, m, p0.node, id);
    var s2 := Step(Step(s, Send(a0, m, p0.node, id, None)), Republish(a0, MSG, id, 0, now));
    assert !TooOld(s2, pkt) && s2.clients[p0] == s.clients[p0];
    hide Step;
    SecondCall.FirstDelivery(s2, p0, Wire(a0.broker, p0.node, pkt));
    var s3 := Step(s2, Deliver(p0, Wire(a0.broker, p0.node, pkt)));
    StampedGoesOn(s3, p0, pkt, i);
    var s6 := Step(Step(Step(s3, Resume(i)), Resume(i)), Resume(i));
    AckReturns(s6, a0, p0, id, ack);
    Unrolled(s, SendAndAck(a0, p0, pkt, ack, i, now));
  }

  lemma Unrolled(s: Sys, es: seq<Event>)
    requires |es| == 8
    ensures var t := Step(Step(Step(Step(s, es[0]), es[1]), es[2]), es[3]);
            Run(s, es) == Step(Step(Step(Step(t, es[4]), es[5]), es[6]), es[7])
  {
    hide Step;
    var none: seq<Event> := [];
    assert es[..0] == none && Run(s, none) == s;
    for k := 0 to 8
      invariant forall i :: 0 <= i < k ==> Run(s, es[..i + 1]) == Step(Run(s, es[..i]), es[i])
    {
      RunAppend(s, es[..k], es[k]);
      assert es[..k] + [es[k]] == es[..k + 1];
    }
    assert es[..8] == es;
  }
}
