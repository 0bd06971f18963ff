/** What each operation does to one client's queues, as functions from state to state. An
    operation the source suspends in the middle of is cut at its awaits. */
module ClientOps {
  import opened Basics
  import opened Messages

  predicate ValidIds(queueId: QueueId, dest: Key) { |queueId| == 64 && |dest| == 66 }

  datatype SendResult = Queued(client: Client, seqNo: nat, out: Packet) | BadId

  /** ordered_ack_send up to the signature: note the content, make room for the queue, choose
      the sequence number, stamp the packet with the whole second. */
  function BeginSend(c: Client, self: Key, now: real, msg: Bytes, dest: Key, id: QueueId, kind: Kind,
                     seqNo: Option<nat>): SendResult
  {
    if !ValidIds(id, dest) then BadId
    else
      var noted := if kind.MSG? && msg !in c.sent then c.(sent := c.sent[msg := now]) else c;
      var qs := noted.Of(kind);
      var room := if id in qs then qs else qs[id := map[]];
      var n := if seqNo.Some? then seqNo.value else NextSeq(room[id]);
      Queued(noted.With(kind, room), n, Packet(self, id, n, now.Floor, kind, msg))
  }

  /** The rest: an entry already under that number is kept. The queue may be gone by now,
      which raises a KeyError and leaves everything as it is. */
  function FinishSend(c: Client, now: real, dest: Key, out: Packet): Client {
    var qs := c.Of(out.kind);
    if out.queueId !in qs || out.seqNo in qs[out.queueId] then c
    else c.With(out.kind, Put(qs, out.queueId, out.seqNo, Meta(Pending, dest, out.seqNo, out, 0.0, now, 0, false)))
  }

  /** ordered_ack_send, which does not suspend. */
  function OrderedSend(c: Client, self: Key, now: real, msg: Bytes, dest: Key, id: QueueId, kind: Kind,
                       seqNo: Option<nat>): SendResult
  {
    match BeginSend(c, self, now, msg, dest, id, kind, seqNo)
    case BadId => BadId
    case Queued(c1, n, out) => Queued(FinishSend(c1, now, dest, out), n, out)
  }

  /** The first part of process_app_msg: forget acks for older messages of the queue; an ack
      already queued for this one is to be published again. */
  function Arrive(c: Client, p: Packet): (Client, Option<Meta>) {
    if p.queueId !in c.acks then (c, None)
    else
      var kept := map k | k in c.acks[p.queueId] && k >= p.seqNo :: c.acks[p.queueId][k];
      (c.(acks := c.acks[p.queueId := kept]), if p.seqNo in kept then Some(kept[p.seqNo]) else None)
  }

  /** The sender queued this number for the peer that now acknowledges it. */
  predicate Answers(qs: Queues, p: Packet) {
    Has(qs, p.queueId, p.seqNo) && qs[p.queueId][p.seqNo].dest == p.src
  }

  function Settle(qs: Queues, p: Packet): Queues
    requires Answers(qs, p)
  {
    var m := qs[p.queueId][p.seqNo];
    if m.ack != Pending then qs
    else if !m.oneShot then Put(qs, p.queueId, p.seqNo, m.(ack := ByAck))
    else if qs[p.queueId].Keys == {p.seqNo} then qs - {p.queueId}
    else qs[p.queueId := qs[p.queueId] - {p.seqNo}]
  }

  /** process_app_ack: the message queues are tried before the probe queues. */
  function OnAck(c: Client, p: Packet): Client {
    if Answers(c.msgs, p) then c.(msgs := Settle(c.msgs, p))
    else if Answers(c.probes, p) then c.(probes := Settle(c.probes, p))
    else c
  }

  /** process_app_probe and send_probe_ack: the ack goes out at once, unless one is queued. */
  function OnProbe(c: Client, self: Key, now: real, p: Packet): (Client, Option<Packet>) {
    if Has(c.acks, p.queueId, p.seqNo) then (c, None)
    else
      var out := Packet(self, p.queueId, p.seqNo, now.Floor, MSGACK, ACK_TEXT);
      (c.(acks := Put(c.acks, p.queueId, p.seqNo, Meta(Pending, p.src, p.seqNo, out, 0.0, now, 0, true))), Some(out))
  }

  const ACK_TEXT: Bytes := [97, 99, 107]

  /** send_probe numbers by the queue's size, not by its highest number. */
  function SendProbe(c: Client, self: Key, now: real, dest: Key, id: QueueId): SendResult {
    if !ValidIds(id, dest) then BadId
    else
      var n := if id in c.probes then |c.probes[id]| else 0;
      var out := Packet(self, id, n, now.Floor, PROBE, []);
      Queued(c.(probes := Put(c.probes, id, n, Meta(Pending, dest, n, out, 0.0, now, 0, true))), n, out)
  }

  function Dequeue(c: Client, kind: Kind, id: QueueId, seqNo: Option<nat>): Client {
    var qs := c.Of(kind);
    if id !in qs then c
    else match seqNo
         case None => c.With(kind, qs - {id})
         case Some(n) =>
           if n !in qs[id] || qs[id][n].ack != Pending then c
           else c.With(kind, Put(qs, id, n, qs[id][n].(ack := ByDequeue)))
  }

  /** An entry after one more attempt to publish it. */
  function Attempted(m: Meta, now: real): Meta { m.(updated := now, attempts := m.attempts + 1) }

  /** The dispatcher publishes an entry once more. */
  function Touch(c: Client, kind: Kind, id: QueueId, seqNo: nat, now: real): Client
    requires Has(c.Of(kind), id, seqNo)
  {
    var m := c.Of(kind)[id][seqNo];
    c.With(kind, Put(c.Of(kind), id, seqNo, Attempted(m, now)))
  }

  /** Drop every record older than `maxAge` at `now`. */
  function Fresh(t: Stamps, now: real, maxAge: int): Stamps {
    map m | m in t && !(now - t[m] > maxAge as real) :: t[m]
  }

  /** What queueing a message does to the client: one new entry, or none if there is one. */
  lemma SendEffect(c: Client, self: Key, now: real, msg: Bytes, dest: Key, id: QueueId, at: Option<nat>)
    requires ValidIds(id, dest)
    ensures var r := OrderedSend(c, self, now, msg, dest, id, MSG, at);
            && r.Queued? && r.client.acks == c.acks && r.client.probes == c.probes
            && r.out == Packet(self, id, r.seqNo, now.Floor, MSG, msg)
            && r.seqNo == (if at.Some? then at.value else NextSeq(if id in c.msgs then c.msgs[id] else map[]))
            && r.client.msgs == (if Has(c.msgs, id, r.seqNo) then c.msgs
                                 else Put(c.msgs, id, r.seqNo, Meta(Pending, dest, r.seqNo, r.out, 0.0, now, 0, false)))
  {
    BeginEffect(c, self, now, msg, dest, id, at);
    var b := BeginSend(c, self, now, msg, dest, id, MSG, at);
    FinishEffect(b.client, now, dest, b.out);
    hide BeginSend, FinishSend, NextSeq;
  }

  lemma BeginEffect(c: Client, self: Key, now: real, msg: Bytes, dest: Key, id: QueueId, at: Option<nat>)
    requires ValidIds(id, dest)
    ensures var b := BeginSend(c, self, now, msg, dest, id, MSG, at);
            var q := if id in c.msgs then c.msgs[id] else map[];
            && b.Queued? && b.client.acks == c.acks && b.client.probes == c.probes && b.client.msgs == c.msgs[id := q]
            && b.seqNo == (if at.Some? then at.value else NextSeq(q))
            && b.out == Packet(self, id, b.seqNo, now.Floor, MSG, msg)
  {
  }

  lemma FinishEffect(c: Client, now: real, dest: Key, out: Packet)
    requires out.kind.MSG? && out.queueId in c.msgs
    ensures var d := FinishSend(c, now, dest, out);
            && d.acks == c.acks && d.probes == c.probes
            && d.msgs == (if Has(c.msgs, out.queueId, out.seqNo) then c.msgs
                          else Put(c.msgs, out.queueId, out.seqNo,
                            Meta(Pending, dest, out.seqNo, out, 0.0, now, 0, false)))
  {
  }

  /** Forgetting acks looks at queue id and number only, not at who sent the message. */
  lemma ForgettingIgnoresSender(c: Client, p: Packet, other: Key)
    ensures Arrive(c, p).0 == Arrive(c, p.(src := other)).0
  {
  }

  // ---- what single operations promise ----------------------------------------------------------

  /** An ack changes at most one entry: the pending one with its queue id and number, sent to
      the peer that signed it. A duplicate, late or foreign ack changes nothing at all. */
  lemma AckSettlesExactly(c: Client, p: Packet)
    ensures var d := OnAck(c, p);
            && d.acks == c.acks && d.sent == c.sent
            && (d.msgs != c.msgs <==> Answers(c.msgs, p) && c.msgs[p.queueId][p.seqNo].ack == Pending)
            && (d.probes != c.probes <==>
                  !Answers(c.msgs, p) && Answers(c.probes, p) && c.probes[p.queueId][p.seqNo].ack == Pending)
            && (forall id, n: nat :: Has(c.msgs, id, n) && (id, n) != (p.queueId, p.seqNo) ==>
                                       Has(d.msgs, id, n) && d.msgs[id][n] == c.msgs[id][n])
            && (forall id, n: nat :: Has(c.probes, id, n) && (id, n) != (p.queueId, p.seqNo) ==>
                                       Has(d.probes, id, n) && d.probes[id][n] == c.probes[id][n])
            && (d.msgs != c.msgs ==> Acknowledged(c.msgs, d.msgs, p.queueId, p.seqNo))
            && (d.probes != c.probes ==> Acknowledged(c.probes, d.probes, p.queueId, p.seqNo))
  {
    if Answers(c.msgs, p) { SettleExactly(c.msgs, p); }
    if Answers(c.probes, p) { SettleExactly(c.probes, p); }
    hide Settle;
  }

  /** The entry is marked as acknowledged, or gone if it was to be sent once only. */
  predicate Acknowledged(before: Queues, after: Queues, id: QueueId, n: nat)
    requires Has(before, id, n)
  {
    if before[id][n].oneShot then !Has(after, id, n)
    else Has(after, id, n) && after[id][n] == before[id][n].(ack := ByAck)
  }

  lemma SettleExactly(qs: Queues, p: Packet)
    requires Answers(qs, p)
    ensures Settle(qs, p) != qs ==> Acknowledged(qs, Settle(qs, p), p.queueId, p.seqNo)
    ensures Settle(qs, p) != qs <==> qs[p.queueId][p.seqNo].ack == Pending
    ensures forall id, n: nat :: Has(qs, id, n) && (id, n) != (p.queueId, p.seqNo) ==>
              Has(Settle(qs, p), id, n) && Settle(qs, p)[id][n] == qs[id][n]
  {
    var t := Settle(qs, p);
    if qs[p.queueId][p.seqNo].ack == Pending {
      assert Has(t, p.queueId, p.seqNo) ==> t[p.queueId][p.seqNo] != qs[p.queueId][p.seqNo];
    }
  }

  /** An answered one-shot probe is forgotten, together with its queue if that was all of it. */
  lemma ProbeForgotten(c: Client, p: Packet)
    requires !Answers(c.msgs, p) && Answers(c.probes, p)
    requires c.probes[p.queueId][p.seqNo].oneShot && c.probes[p.queueId][p.seqNo].ack == Pending
    ensures !Has(OnAck(c, p).probes, p.queueId, p.seqNo)
    ensures p.queueId in OnAck(c, p).probes ==> OnAck(c, p).probes[p.queueId] != map[]
  {
    if c.probes[p.queueId].Keys != {p.seqNo} {
      var other :| other in c.probes[p.queueId] && other != p.seqNo;
      assert other in OnAck(c, p).probes[p.queueId];
    }
  }

  /** A message of number n leaves exactly the acks of its queue that are not below n, whoever
      sent it and whether or not n itself was acked; everything else stays. The ack to publish
      again is the one queued for this very number. */
  lemma ArriveExactly(c: Client, p: Packet)
    ensures var (d, again) := Arrive(c, p);
            && d == c.(acks := d.acks)
            && (forall id :: id in d.acks <==> id in c.acks)
            && (forall id, k: nat :: Has(d.acks, id, k) <==> Has(c.acks, id, k) && (id == p.queueId ==> k >= p.seqNo))
            && (forall id, k: nat :: Has(d.acks, id, k) ==> d.acks[id][k] == c.acks[id][k])
            && again == if Has(c.acks, p.queueId, p.seqNo) then Some(c.acks[p.queueId][p.seqNo]) else None
  {
  }

  /** While an ack for (queue, number) is queued, another delivery of that message publishes
      that very ack again and leaves no older ack of the queue behind. */
  lemma ReAck(c: Client, p: Packet)
    requires Has(c.acks, p.queueId, p.seqNo)
    ensures var (d, again) := Arrive(c, p);
            && again == Some(c.acks[p.queueId][p.seqNo])
            && (forall k: nat :: Has(d.acks, p.queueId, k) <==> k >= p.seqNo && Has(c.acks, p.queueId, k))
            && Arrive(d, p) == (d, again)
            && d.msgs == c.msgs && d.probes == c.probes
  {
    var (d, again) := Arrive(c, p);
    assert Arrive(d, p).0.acks[p.queueId] == d.acks[p.queueId];
    assert Arrive(d, p).0.acks == d.acks;
  }

  /** Without an explicit number a message gets one no entry of its queue has, above all of
      them, so a queue that never loses single entries is numbered 0, 1, 2, ... */
  lemma FreshNumber(c: Client, self: Key, now: real, msg: Bytes, dest: Key, id: QueueId, kind: Kind)
    requires ValidIds(id, dest)
    ensures var r := OrderedSend(c, self, now, msg, dest, id, kind, None);
            && r.Queued? && !Has(c.Of(kind), id, r.seqNo) && Has(r.client.Of(kind), id, r.seqNo)
            && (forall k: nat :: Has(c.Of(kind), id, k) ==>
                  k < r.seqNo && r.client.Of(kind)[id][k] == c.Of(kind)[id][k])
            && r.client.Of(kind)[id][r.seqNo].ack == Pending && r.client.Of(kind)[id][r.seqNo].out == r.out
            && (forall n: nat :: id in c.Of(kind) && Numbered(c.Of(kind)[id], n) ==>
                                   r.seqNo == n && Numbered(r.client.Of(kind)[id], n + 1))
  {
  }

  /** Numbering probes by size loses one: of two pending probes the first is answered, and a
      third takes the number, and the place, of the second. */
  lemma ProbeNumberCollides(self: Key, dest: Key, id: QueueId, ack: Packet)
    requires ValidIds(id, dest) && ack.queueId == id && ack.seqNo == 0 && ack.src == dest
    ensures var one := SendProbe(EMPTY, self, 1.0, dest, id).client;
            var two := SendProbe(one, self, 2.0, dest, id).client;
            var acked := OnAck(two, ack);
            var three := SendProbe(acked, self, 3.0, dest, id);
            && Has(acked.probes, id, 1) && acked.probes[id][1].ack == Pending
            && three.seqNo == 1 && three.client.probes[id].Keys == {1}
            && three.client.probes[id][1].created == 3.0
  {
    var one := SendProbe(EMPTY, self, 1.0, dest, id).client;
    assert one.probes[id].Keys == {0};
    var two := SendProbe(one, self, 2.0, dest, id).client;
    assert |one.probes[id]| == |one.probes[id].Keys| == 1;
    assert two.probes[id].Keys == {0, 1};
    var acked := OnAck(two, ack);
    assert 1 in two.probes[id].Keys && two.probes[id].Keys != {0};
    assert acked.probes[id].Keys == {1};
    assert |acked.probes[id]| == |acked.probes[id].Keys| == 1;
  }

  /** A probe displaces an entry exactly when the queue's size is one of its numbers. */
  lemma ProbeDisplacesExactly(c: Client, self: Key, now: real, dest: Key, id: QueueId)
    requires ValidIds(id, dest) && id in c.probes
    ensures var r := SendProbe(c, self, now, dest, id);
            |c.probes[id]| in c.probes[id] <==> |r.client.probes[id]| == |c.probes[id]|
  {
    var n := |c.probes[id]|;
    var after := SendProbe(c, self, now, dest, id).client.probes[id];
    assert after.Keys == c.probes[id].Keys + {n};
    assert |after| == |after.Keys| && n == |c.probes[id].Keys|;
  }

  // ---- what is queued -----------------------------------------------------------------------------

  /** Only ids of the wrong length are refused. */
  lemma RefusedExactly(c: Client, self: Key, now: real, msg: Bytes, dest: Key, id: QueueId, kind: Kind, at: Option<nat>)
    ensures OrderedSend(c, self, now, msg, dest, id, kind, at).BadId? <==> |id| != 64 || |dest| != 66
    ensures SendProbe(c, self, now, dest, id).BadId? <==> |id| != 64 || |dest| != 66
  {
  }

  /** Queueing adds this message, for this peer, pending and never published yet, and nothing
      else; under a number that is taken it adds nothing. A message's content is noted once. */
  lemma QueuesExactly(c: Client, self: Key, now: real, msg: Bytes, dest: Key, id: QueueId, kind: Kind, at: Option<nat>)
    requires |id| == 64 && |dest| == 66
    ensures var r := OrderedSend(c, self, now, msg, dest, id, kind, at);
            && r.Queued? && (at.Some? ==> r.seqNo == at.value)
            && r.out == Packet(self, id, r.seqNo, now.Floor, kind, msg)
            && (forall other :: other != kind ==> r.client.Of(other) == c.Of(other))
            && AddsOne(c.Of(kind), r.client.Of(kind), id, r.seqNo,
                       Meta(Pending, dest, r.seqNo, r.out, 0.0, now, 0, false))
            && r.client.sent == if kind.MSG? && msg !in c.sent then c.sent[msg := now] else c.sent
  {
    BeginsExactly(c, self, now, msg, dest, id, kind, at);
    var b := BeginSend(c, self, now, msg, dest, id, kind, at);
    hide BeginSend, FinishSend, NextSeq;
    FinishesExactly(b.client, now, dest, b.out);
  }

  lemma BeginsExactly(c: Client, self: Key, now: real, msg: Bytes, dest: Key, id: QueueId, kind: Kind, at: Option<nat>)
    requires |id| == 64 && |dest| == 66
    ensures var b := BeginSend(c, self, now, msg, dest, id, kind, at);
            && b.Queued? && (at.Some? ==> b.seqNo == at.value)
            && b.out == Packet(self, id, b.seqNo, now.Floor, kind, msg)
            && (forall other :: other != kind ==> b.client.Of(other) == c.Of(other))
            && id in b.client.Of(kind)
            && (forall i, k: nat :: Has(b.client.Of(kind), i, k) <==> Has(c.Of(kind), i, k))
            && (forall i, k: nat :: Has(c.Of(kind), i, k) ==> b.client.Of(kind)[i][k] == c.Of(kind)[i][k])
            && b.client.sent == if kind.MSG? && msg !in c.sent then c.sent[msg := now] else c.sent
  {
    hide NextSeq;
  }

  lemma FinishesExactly(c: Client, now: real, dest: Key, out: Packet)
    requires out.queueId in c.Of(out.kind)
    ensures var d := FinishSend(c, now, dest, out);
            && d.sent == c.sent && (forall other :: other != out.kind ==> d.Of(other) == c.Of(other))
            && AddsOne(c.Of(out.kind), d.Of(out.kind), out.queueId, out.seqNo,
                       Meta(Pending, dest, out.seqNo, out, 0.0, now, 0, false))
  {
  }

  /** One more entry, unless the number is taken. */
  ghost predicate AddsOne(before: Queues, after: Queues, id: QueueId, n: nat, m: Meta) {
    && (forall i, k: nat :: Has(after, i, k) <==> Has(before, i, k) || (i == id && k == n))
    && (forall i, k: nat :: Has(before, i, k) ==> after[i][k] == before[i][k])
    && (!Has(before, id, n) ==> after[id][n] == m)
  }

  /** A probe that is not acked yet is answered with an ack for its number, which is queued as one
      that the dispatcher never sends; a probe acked before is ignored. */
  lemma ProbeAnswered(c: Client, self: Key, now: real, p: Packet)
    ensures var (d, out) := OnProbe(c, self, now, p);
            if Has(c.acks, p.queueId, p.seqNo) then out.None? && d == c
            else
              && out == Some(Packet(self, p.queueId, p.seqNo, now.Floor, MSGACK, [97, 99, 107]))  // "ack"
              && d == c.(acks := d.acks)
              && AddsOne(c.acks, d.acks, p.queueId, p.seqNo,
                         Meta(Pending, p.src, p.seqNo, out.value, 0.0, now, 0, true))
  {
  }

  /** A probe is queued, under the size of its queue, as one that the dispatcher never sends. */
  lemma ProbeQueued(c: Client, self: Key, now: real, dest: Key, id: QueueId)
    requires |id| == 64 && |dest| == 66
    ensures var r := SendProbe(c, self, now, dest, id);
            && r.Queued? && r.seqNo == (if id in c.probes then |c.probes[id]| else 0)
            && r.out == Packet(self, id, r.seqNo, now.Floor, PROBE, []) && r.client == c.(probes := r.client.probes)
            && (forall i, k: nat ::
                  Has(r.client.probes, i, k) <==> Has(c.probes, i, k) || (i == id && k == r.seqNo))
            && (forall i, k: nat :: Has(r.client.probes, i, k) ==>
                  r.client.probes[i][k]
                  == if i == id && k == r.seqNo then Meta(Pending, dest, k, r.out, 0.0, now, 0, true)
                     else c.probes[i][k])
  {
  }

  /** Dequeueing without a number removes exactly that queue; with one, it marks that entry as
      done if it is pending, and changes nothing otherwise. */
  lemma DequeueExactly(c: Client, kind: Kind, id: QueueId, which: Option<nat>)
    ensures var d := Dequeue(c, kind, id, which);
            && d.sent == c.sent && (forall other :: other != kind ==> d.Of(other) == c.Of(other))
            && (which.None? ==> d.Of(kind) == c.Of(kind) - {id})
            && (which.Some? ==>
                  && (forall i, k: nat :: Has(d.Of(kind), i, k) <==> Has(c.Of(kind), i, k))
                  && forall i, k: nat :: Has(d.Of(kind), i, k) ==>
                       d.Of(kind)[i][k]
                       == if i == id && k == which.value && c.Of(kind)[i][k].ack == Pending
                          then c.Of(kind)[i][k].(ack := ByDequeue) else c.Of(kind)[i][k])
  {
    if id !in c.Of(kind) { assert c.Of(kind) - {id} == c.Of(kind); }
  }

  /** Pruning keeps exactly the records that are not older than `maxAge`, as they are. */
  lemma FreshExactly(t: Stamps, now: real, maxAge: int, m: Bytes)
    ensures m in Fresh(t, now, maxAge) <==> m in t && t[m] >= now - maxAge as real
    ensures m in Fresh(t, now, maxAge) ==> Fresh(t, now, maxAge)[m] == t[m]
  {
  }
}
