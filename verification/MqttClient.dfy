/** The client object: its queues, updated in place, and the table of received contents it
    shares with every other client of its router. Each method does what the corresponding
    function of ClientOps says; a method the source suspends is cut at its awaits. */
module MqttClient {
  import opened Basics
  import opened Messages
  import opened ClientOps
  import opened Delivery

  class StampTable {
    var ids: Stamps

    constructor ()
      ensures ids == map[]
    {
      ids := map[];
    }

    /** The body of prune_msg_ids for one table. */
    method Prune(now: real, maxAge: int)
      modifies this
      ensures ids == Fresh(old(ids), now, maxAge)
    {
      var todo := ids.Keys;
      while todo != {}
        invariant todo <= ids.Keys <= old(ids).Keys
        invariant forall m :: m in ids ==> ids[m] == old(ids)[m]
        invariant forall m :: m in old(ids) && m !in todo ==> (m in ids <==> !(now - old(ids)[m] > maxAge as real))
        decreases todo
      {
        var m :| m in todo;
        todo := todo - {m};
        if now - ids[m] > maxAge as real {
          ids := ids - {m};
        }
      }
    }
  }

  class Mqtt {
    const key: Key
    const recv: StampTable  // shared
    const sent: StampTable
    var msgs: Queues
    var acks: Queues
    var probes: Queues

    constructor (key: Key, recv: StampTable)
      ensures this.key == key && this.recv == recv && fresh(sent) && sent != recv
      ensures State() == EMPTY
    {
      this.key, this.recv := key, recv;
      sent := new StampTable();
      msgs, acks, probes := map[], map[], map[];
    }

    function State(): Client
      reads this, sent
    {
      Client(msgs, acks, probes, sent.ids)
    }

    method SetQueues(kind: Kind, qs: Queues)
      modifies this
      ensures State() == old(State()).With(kind, qs)
    {
      match kind {
        case MSG => msgs := qs;
        case MSGACK => acks := qs;
        case PROBE => probes := qs;
      }
    }

    /** ordered_ack_send: returns the sequence number, or nothing if an id has the wrong length. */
    method OrderedAckSend(now: real, msg: Bytes, dest: Key, id: QueueId, kind: Kind,
                          seqNo: Option<nat>) returns (r: Option<nat>)
      modifies this, sent
      ensures match OrderedSend(old(State()), key, now, msg, dest, id, kind, seqNo)
              case BadId => r == None && State() == old(State())
              case Queued(client, n, _) => r == Some(n) && State() == client
    {
      if |id| != 64 || |dest| != 66 {
        return None;
      }
      if kind.MSG? && msg !in sent.ids {
        sent.ids := sent.ids[msg := now];
      }
      var qs := State().Of(kind);
      if id !in qs {
        qs := qs[id := map[]];
      }
      var n := if seqNo.Some? then seqNo.value else NextSeq(qs[id]);
      var out := Packet(key, id, n, now.Floor, kind, msg);
      if n !in qs[id] {
        qs := qs[id := qs[id][n := Meta(Pending, dest, n, out, 0.0, now, 0, false)]];
      }
      SetQueues(kind, qs);
      return Some(n);
    }

    /** process_app_msg up to its first suspension: the loop over older queued acks, then the
        ack to publish again if there is one. */
    method MessageArrives(p: Packet) returns (again: Option<Meta>)
      modifies this
      ensures (State(), again) == Arrive(old(State()), p)
      ensures forall k: nat :: Has(acks, p.queueId, k) <==> Has(old(acks), p.queueId, k) && k >= p.seqNo
    {
      if p.queueId !in acks {
        return None;
      }
      var queue := acks[p.queueId];
      ghost var all := queue;
      var todo := queue.Keys;
      while todo != {}
        invariant todo <= queue.Keys <= all.Keys
        invariant forall k :: k in queue ==> queue[k] == all[k]
        invariant forall k :: k in all && k !in todo ==> (k in queue <==> k >= p.seqNo)
        decreases todo
      {
        var k :| k in todo;
        todo := todo - {k};
        if k < p.seqNo {
          queue := queue - {k};
        }
      }
      acks := acks[p.queueId := queue];
      assert queue == map k | k in all && k >= p.seqNo :: all[k];
      again := if p.seqNo in queue then Some(queue[p.seqNo]) else None;
    }

    /** The stamp: true exactly once per content while its stamp lasts, whichever of the
        router's clients asks. */
    method FirstSeen(msg: Bytes, now: real) returns (first: bool)
      modifies recv
      ensures first <==> msg !in old(recv.ids)
      ensures recv.ids == if first then old(recv.ids)[msg := now] else old(recv.ids)
    {
      first := msg !in recv.ids;
      if first {
        recv.ids := recv.ids[msg := now];
      }
    }

    method ProcessAppAck(p: Packet)
      modifies this
      ensures State() == OnAck(old(State()), p)
    {
      var kinds := [MSG, PROBE];
      for i := 0 to 2
        invariant State() == old(State())
        invariant i > 0 ==> !Answers(msgs, p)
        invariant i > 1 ==> !Answers(probes, p)
      {
        var qs := if kinds[i].MSG? then msgs else probes;
        if Has(qs, p.queueId, p.seqNo) && qs[p.queueId][p.seqNo].dest == p.src {
          var m := qs[p.queueId][p.seqNo];
          if m.ack != Pending {
            return;
          }
          var queue: Queue := qs[p.queueId][p.seqNo := m.(ack := ByAck)];
          ghost var settled := Settle(qs, p);
          if m.oneShot {
            queue := queue - {p.seqNo};
            assert queue == qs[p.queueId] - {p.seqNo};
            assert queue.Keys == {} <==> qs[p.queueId].Keys == {p.seqNo};
            qs := if queue.Keys == {} then qs - {p.queueId} else qs[p.queueId := queue];
          } else {
            qs := qs[p.queueId := queue];
          }
          assert qs == settled;
          SetQueues(kinds[i], qs);
          return;
        }
      }
    }

    method ProcessAppProbe(p: Packet, now: real) returns (out: Option<Packet>)
      modifies this
      ensures (State(), out) == OnProbe(old(State()), key, now, p)
    {
      if p.queueId in acks && p.seqNo in acks[p.queueId] {
        return None;
      }
      if p.queueId !in acks {
        acks := acks[p.queueId := map[]];
      }
      var ack := Packet(key, p.queueId, p.seqNo, now.Floor, MSGACK, ACK_TEXT);
      var m := Meta(Pending, p.src, p.seqNo, ack, 0.0, now, 0, true);
      var queue: Queue := acks[p.queueId];
      acks := acks[p.queueId := queue[p.seqNo := m]];
      assert acks == Put(old(acks), p.queueId, p.seqNo, m);
      out := Some(ack);
    }

    /** send_probe: the entry is numbered by the size of its queue. */
    method SendOneProbe(now: real, dest: Key, id: QueueId) returns (r: Option<Packet>)
      modifies this
      ensures match SendProbe(old(State()), key, now, dest, id)
              case BadId => r == None && State() == old(State())
              case Queued(client, _, out) => r == Some(out) && State() == client
    {
      if |id| != 64 || |dest| != 66 {
        return None;
      }
      if id !in probes {
        probes := probes[id := map[]];
      }
      var queue: Queue := probes[id];
      var n := |queue|;
      var out := Packet(key, id, n, now.Floor, PROBE, []);
      var m := Meta(Pending, dest, n, out, 0.0, now, 0, true);
      probes := probes[id := queue[n := m]];
      assert probes == Put(old(probes), id, n, m);
      return Some(out);
    }

    /** The object as client `c` of the step system. */
    ghost predicate Plays(s: Sys, c: Cid)
      reads this, sent
    {
      c in s.clients && c.node == key && s.clients[c] == State()
    }

    /** handle_publish after parsing and verification, up to the first suspension: exactly the
        delivery step of the step system. `out` is published; `suspended` starts a digest. */
    method HandlePublish(w: Wire, now: real, republishDuration: nat, ghost s: Sys, ghost c: Cid)
      returns (out: Option<(Key, Packet)>, suspended: bool)
      requires Plays(s, c) && s.clock == now && s.r == republishDuration
      modifies this
      ensures var t := OnDeliver(s, c, w);
              && Plays(t, c) && t.clients == s.clients[c := State()]
              && t.net == s.net + (if out.Some? then {Wire(c.broker, out.value.0, out.value.1)} else {})
              && t.tasks == s.tasks + (if suspended then [Hashing(c, w.pkt, now)] else [])
              && t.stamps == s.stamps && t.log == s.log
    {
      hide Arrive, OnAck, OnProbe;
      out, suspended := None, false;
      assert s.clients[c := s.clients[c]] == s.clients;
      if w.topic != key {
        return;
      }
      match w.pkt.kind {
        case MSG =>
          if now.Floor - w.pkt.timestamp > 2 * republishDuration {
            return;
          }
          var again := MessageArrives(w.pkt);
          if again.Some? {
            out := Some((again.value.dest, again.value.out));
          } else {
            suspended := true;
          }
        case MSGACK =>
          ProcessAppAck(w.pkt);
        case PROBE =>
          var ack := ProcessAppProbe(w.pkt, now);
          if ack.Some? {
            out := Some((w.pkt.src, ack.value));
          }
      }
    }

    /** The digest is there: stamp and handlers, on the table shared by the router's clients. */
    method ResumeMessage(p: Packet, now: real, ghost s: Sys, ghost i: nat) returns (first: bool)
      requires i < |s.tasks| && s.tasks[i].Hashing? && s.tasks[i].at.node == key && s.tasks[i].pkt == p
      requires recv.ids == StampsOf(s, key) && s.clock == now
      modifies recv
      ensures var t := OnResume(s, i);
              && recv.ids == StampsOf(t, key)
              && (forall other :: other != key ==> StampsOf(t, other) == StampsOf(s, other))
              && t.log == s.log + (if first then [Fire(key, p, s.tasks[i].checked, now)] else [])
    {
      first := FirstSeen(p.msg, now);
    }

    /** ordered_ack_send_async up to the signature, as process_app_msg calls it for its ack. */
    method BeginAck(p: Packet, now: real, ghost s: Sys, ghost i: nat, ghost c: Cid) returns (out: Option<Packet>)
      requires Plays(s, c) && i < |s.tasks| && s.tasks[i] == Handling(c, p) && s.clock == now
      modifies this
      ensures var t := OnResume(s, i);
              Plays(t, c) && t.tasks[i] == if out.Some? then Signing(c, p, out.value) else Finished
    {
      if |p.queueId| != 64 || |p.src| != 66 {
        return None;
      }
      if p.queueId !in acks {
        acks := acks[p.queueId := map[]];
      }
      out := Some(Packet(key, p.queueId, p.seqNo, now.Floor, MSGACK, ACK_TEXT));
    }

    /** The signature is there: queue the ack, unless the queue is gone (`lost`) or has one. */
    method FinishAck(p: Packet, out: Packet, now: real, ghost s: Sys, ghost i: nat, ghost c: Cid) returns (lost: bool)
      requires Plays(s, c) && i < |s.tasks| && s.tasks[i] == Signing(c, p, out) && s.clock == now && out.kind.MSGACK?
      modifies this
      ensures var t := OnResume(s, i); Plays(t, c) && t.tasks[i] == Finished
      ensures lost <==> out.queueId !in s.clients[c].acks
      ensures !lost ==> Has(acks, out.queueId, out.seqNo)
    {
      if out.queueId !in acks {
        return true;
      }
      if out.seqNo !in acks[out.queueId] {
        var queue: Queue := acks[out.queueId];
        acks := acks[out.queueId := queue[out.seqNo := Meta(Pending, p.src, out.seqNo, out, 0.0, now, 0, false)]];
      }
      lost := false;
    }

    method DequeueMsg(id: QueueId, seqNo: Option<nat>, kind: Kind)
      modifies this
      ensures State() == Dequeue(old(State()), kind, id, seqNo)
    {
      var qs := State().Of(kind);
      if id !in qs {
        return;
      }
      if seqNo == None {
        SetQueues(kind, qs - {id});
        return;
      }
      var n := seqNo.value;
      if n !in qs[id] || qs[id][n].ack != Pending {
        return;
      }
      SetQueues(kind, qs[id := qs[id][n := qs[id][n].(ack := ByDequeue)]]);
    }

    method PruneMsgIds(now: real, republishDuration: nat)
      requires sent != recv
      modifies sent, recv
      ensures recv.ids == Fresh(old(recv.ids), now, 2 * republishDuration)
      ensures State() == old(State()).(sent := Fresh(old(sent.ids), now, 2 * republishDuration))
    {
      recv.Prune(now, republishDuration * 2);
      sent.Prune(now, republishDuration * 2);
    }
  }

  /** Two clients of one router see the same content: whichever asks second is told no, even
      though it has never seen the message itself. */
  method OneStampForAllClients(a: Mqtt, b: Mqtt, msg: Bytes, now: real, later: real) returns (first: bool, second: bool)
    requires a.recv == b.recv
    modifies a.recv
    ensures !second && (first <==> msg !in old(a.recv.ids))
    ensures a.recv.ids == if first then old(a.recv.ids)[msg := now] else old(a.recv.ids)
  {
    first := a.FirstSeen(msg, now);
    second := b.FirstSeen(msg, later);
  }
}
