/** Exactly when the handlers of a router can be called twice with the same signed packet: for
    every moment of the window there is a run that does it, and for no other. */
module SecondCall {
  import opened Basics
  import opened Messages
  import opened ClientOps
  import opened Delivery
  import opened AtMostOnce

  /** In this run calls `i` and `j` are for one packet of timestamp `ts`; the second is made at
      `x`, after waiting at most `hold` between its age check and its stamp. */
  predicate TwoCalls(s: Sys, events: seq<Event>, i: nat, j: nat, ts: int, x: real, hold: real) {
    var log := Run(s, events).log;
    && i < j < |log| && log[i].node == log[j].node && log[i].pkt == log[j].pkt
    && log[j].pkt.timestamp == ts && log[j].at == x && log[j].at - log[j].checked <= hold
  }

  ghost predicate Possible(r: nat, ts: int, x: real, hold: real) {
    exists s, events, i, j :: Initial(s) && s.r == r && TwoCalls(s, events, i, j, ts, x, hold)
  }

  ghost predicate PossibleOnWholeSeconds(r: nat, ts: int, x: real, hold: real) {
    exists s, events, i, j ::
      Initial(s) && s.r == r && WholeTicks(s, events) && TwoCalls(s, events, i, j, ts, x, hold)
  }

  // ---- the witness -------------------------------------------------------------------------------

  /** A client queues and publishes the first message under an id. */
  lemma FirstMessage(s: Sys, c: Cid, msg: Bytes, dest: Key, id: QueueId)
    requires c in s.clients && id !in s.clients[c].msgs && ValidIds(id, dest)
    ensures var p := Packet(c.node, id, 0, s.clock.Floor, MSG, msg);
            var t := Step(Step(s, Send(c, msg, dest, id, None)), Republish(c, MSG, id, 0, s.clock));
            && c in t.clients
            && t == s.(clients := s.clients[c := t.clients[c]], net := s.net + {Wire(c.broker, dest, p)})
            && t.clients[c].msgs
               == s.clients[c].msgs[id := map[0 := Meta(Pending, dest, 0, p, s.clock, s.clock, 1, false)]]
            && t.clients[c].acks == s.clients[c].acks
  {
    FirstQueued(s.clients[c], c.node, s.clock, msg, dest, id);
    hide OrderedSend, Touch;
  }

  /** What that does to the client. */
  lemma FirstQueued(client: Client, self: Key, now: real, msg: Bytes, dest: Key, id: QueueId)
    requires id !in client.msgs && ValidIds(id, dest)
    ensures var p := Packet(self, id, 0, now.Floor, MSG, msg);
            var sent := OrderedSend(client, self, now, msg, dest, id, MSG, None);
            && sent.Queued? && Has(sent.client.msgs, id, 0)
            && sent.client.msgs[id][0] == Meta(Pending, dest, 0, p, 0.0, now, 0, false)
            && var t := Touch(sent.client, MSG, id, 0, now);
               && t.msgs == client.msgs[id := map[0 := Meta(Pending, dest, 0, p, now, now, 1, false)]]
               && t.acks == client.acks
  {
    var p := Packet(self, id, 0, now.Floor, MSG, msg);
    SendEffect(client, self, now, msg, dest, id, None);
    var sent := OrderedSend(client, self, now, msg, dest, id, MSG, None);
    var queued, once := Meta(Pending, dest, 0, p, 0.0, now, 0, false), Meta(Pending, dest, 0, p, now, now, 1, false);
    assert sent.client.msgs == client.msgs[id := map[0 := queued]] by { assert map[][0 := queued] == map[0 := queued]; }
    hide OrderedSend;
    assert map[0 := queued][0 := once] == map[0 := once];
  }

  /** A message that is not too old reaches a client with no ack queue of its id. */
  lemma FirstDelivery(s: Sys, c: Cid, w: Wire)
    requires c in s.clients && w.pkt.queueId !in s.clients[c].acks
    requires w in s.net && w.broker == c.broker && w.topic == c.node && w.pkt.kind.MSG? && !TooOld(s, w.pkt)
    ensures Step(s, Deliver(c, w)) == s.(tasks := s.tasks + [Hashing(c, w.pkt, s.clock)])
  {
    assert s.clients[c := s.clients[c]] == s.clients;
  }

  /** From the first copy's digest on: handle it, let the second copy pass the age gate at `y`,
      prune at `x`, and go on with the second copy. */
  lemma Second(s: Sys, b0: Cid, b1: Cid, w1: Wire, p: Packet, y: real, x: real)
    requires b0.node == b1.node && b0 != b1 && b0 in s.clients && b1 in s.clients
    requires s.clients[b0] == s.clients[b1] == EMPTY
    requires s.tasks == [Hashing(b0, p, s.clock)] && s.stamps == map[] && s.log == []
    requires w1 in s.net && w1 == Wire(b1.broker, b1.node, p) && p.kind.MSG?
    requires s.clock <= y <= x && y.Floor - p.timestamp <= 2 * s.r && x - s.clock > (2 * s.r) as real
    ensures var t := Step(Step(Step(s, Resume(0)), Tick(y)), Deliver(b1, w1));
            Step(Step(Step(t, Tick(x)), Prune(b0, x)), Resume(1)).log
            == [Fire(b0.node, p, s.clock, s.clock), Fire(b0.node, p, y, x)]
  {
    var s1 := Step(s, Resume(0));
    var s2 := Step(s1, Tick(y));
    FirstDelivery(s2, b1, w1);
    var s3 := Step(s2, Deliver(b1, w1));
    var s4 := Step(s3, Tick(x));
    var s5 := Step(s4, Prune(b0, x));
    assert StampsOf(s5, b0.node) == map[];
    assert s5.tasks[1] == Hashing(b1, p, y);
  }

  function Start(r: nat, ts: nat, a: Key, b: Key): Sys {
    var clients := map[Cid(a, 0) := EMPTY, Cid(a, 1) := EMPTY, Cid(b, 0) := EMPTY, Cid(b, 1) := EMPTY];
    Sys(r, ts as real, clients, map[], {}, [], [], {})
  }

  /** One message over two brokers; the copies are handled at `ts` and at `x`. */
  function Twice(p: Packet, b: Key, y: real, x: real): seq<Event> {
    var a0, a1, b0, b1, now := Cid(p.src, 0), Cid(p.src, 1), Cid(b, 0), Cid(b, 1), p.timestamp as real;
    [Send(a0, p.msg, b, p.queueId, None), Republish(a0, MSG, p.queueId, 0, now),
     Send(a1, p.msg, b, p.queueId, None), Republish(a1, MSG, p.queueId, 0, now),
     Deliver(b0, Wire(0, b, p)), Resume(0),
     Tick(y), Deliver(b1, Wire(1, b, p)), Tick(x), Prune(b0, x), Resume(1)]
  }

  /** The run works for every age check `y` the gate lets through and every `x` after 2r. */
  lemma HandledTwice(r: nat, p: Packet, b: Key, y: real, x: real)
    requires ValidIds(p.queueId, b) && p.src != b && p.seqNo == 0 && p.kind.MSG? && p.timestamp >= 0
    requires p.timestamp as real <= y <= x && y.Floor - p.timestamp <= 2 * r && x > (p.timestamp + 2 * r) as real
    ensures var s := Start(r, p.timestamp, p.src, b);
            && Initial(s)
            && Run(s, Twice(p, b, y, x)).log
               == [Fire(b, p, p.timestamp as real, p.timestamp as real), Fire(b, p, y, x)]
  {
    var a0, a1, b0, b1 := Cid(p.src, 0), Cid(p.src, 1), Cid(b, 0), Cid(b, 1);
    var w0, w1, now := Wire(0, b, p), Wire(1, b, p), p.timestamp as real;
    var s := Start(r, p.timestamp, p.src, b);
    StartIsInitial(r, p.timestamp, p.src, b);
    BothSent(s, p, b);
    hide Initial, Start;
    var s4 := Step(Step(Step(Step(s, Send(a0, p.msg, b, p.queueId, None)), Republish(a0, MSG, p.queueId, 0, now)),
                        Send(a1, p.msg, b, p.queueId, None)), Republish(a1, MSG, p.queueId, 0, now));
    hide Step, Run, TooOld;
    FromBoth(s4, p, b, y, x);
    var es := Twice(p, b, y, x);
    Unrolled(s, es);
    assert es[4] == Deliver(b0, w0) && es[7] == Deliver(b1, w1);
  }

  lemma FromBoth(s: Sys, p: Packet, b: Key, y: real, x: real)
    requires var b0, b1 := Cid(b, 0), Cid(b, 1);
             b0 in s.clients && b1 in s.clients && s.clients[b0] == s.clients[b1] == EMPTY
    requires s.net == {Wire(0, b, p), Wire(1, b, p)} && s.stamps == map[] && s.tasks == [] && s.log == []
    requires p.kind.MSG? && s.clock == p.timestamp as real
    requires s.clock <= y <= x && y.Floor - p.timestamp <= 2 * s.r && x > (p.timestamp + 2 * s.r) as real
    ensures var b0, b1 := Cid(b, 0), Cid(b, 1);
            var t := Step(Step(Step(s, Deliver(b0, Wire(0, b, p))), Resume(0)), Tick(y));
            Step(Step(Step(Step(t, Deliver(b1, Wire(1, b, p))), Tick(x)), Prune(b0, x)), Resume(1)).log
            == [Fire(b, p, s.clock, s.clock), Fire(b, p, y, x)]
  {
    var b0, b1 := Cid(b, 0), Cid(b, 1);
    assert s.clock.Floor == p.timestamp;
    FirstDelivery(s, b0, Wire(0, b, p));
    assert [] + [Hashing(b0, p, s.clock)] == [Hashing(b0, p, s.clock)];
    hide Step;
    Second(Step(s, Deliver(b0, Wire(0, b, p))), b0, b1, Wire(1, b, p), p, y, x);
  }

  lemma StartIsInitial(r: nat, ts: nat, a: Key, b: Key)
    ensures Initial(Start(r, ts, a, b)) && Start(r, ts, a, b).clock.Floor == ts
    ensures var s := Start(r, ts, a, b);
              s.stamps == map[] && s.tasks == [] && s.log == [] && s.clock == ts as real && s.r == r
  {
  }

  lemma BothSent(s: Sys, p: Packet, b: Key)
    requires p.timestamp >= 0 && s == Start(s.r, p.timestamp, p.src, b)
    requires ValidIds(p.queueId, b) && p.src != b && p.seqNo == 0 && p.kind.MSG?
    ensures var a0, a1, id := Cid(p.src, 0), Cid(p.src, 1), p.queueId;
            var t := Step(Step(Step(Step(s, Send(a0, p.msg, b, id, None)), Republish(a0, MSG, id, 0, s.clock)),
                               Send(a1, p.msg, b, id, None)), Republish(a1, MSG, id, 0, s.clock));
            && t == s.(clients := t.clients, net := {Wire(0, b, p), Wire(1, b, p)})
            && Cid(b, 0) in t.clients && t.clients[Cid(b, 0)] == EMPTY
            && Cid(b, 1) in t.clients && t.clients[Cid(b, 1)] == EMPTY
  {
    hide Step;
    var a0, a1, id := Cid(p.src, 0), Cid(p.src, 1), p.queueId;
    FirstMessage(s, a0, p.msg, b, id);
    FirstMessage(Step(Step(s, Send(a0, p.msg, b, id, None)), Republish(a0, MSG, id, 0, s.clock)), a1, p.msg, b, id);
    assert {} + {Wire(0, b, p)} + {Wire(1, b, p)} == {Wire(0, b, p), Wire(1, b, p)};
  }

  lemma Example(ts: nat) returns (p: Packet, b: Key)
    ensures ValidIds(p.queueId, b) && ValidIds(p.queueId, p.src) && p.src != b
    ensures p.seqNo == 0 && p.kind.MSG? && p.timestamp == ts
  {
    var a := seq(66, i => '0');
    b := seq(66, i => '1');
    p := Packet(a, seq(64, i => '0'), 0, ts, MSG, []);
    assert a[0] != b[0];
  }

  lemma Unrolled(s: Sys, es: seq<Event>)
    requires |es| == 11
    ensures var t := Step(Step(Step(Step(Step(s, es[0]), es[1]), es[2]), es[3]), es[4]);
            Run(s, es) == Step(Step(Step(Step(Step(Step(t, es[5]), es[6]), es[7]), es[8]), es[9]), es[10])
  {
    hide Step;
    var none: seq<Event> := [];
    assert es[..0] == none && Run(s, none) == s;
    for k := 0 to 11
      invariant forall i :: 0 <= i < k ==> Run(s, es[..i + 1]) == Step(Run(s, es[..i]), es[i])
    {
      RunAppend(s, es[..k], es[k]);
      assert es[..k] + [es[k]] == es[..k + 1];
    }
    assert es[..11] == es;
  }

  // ---- the results ----------------------------------------------------------------------------

  /** A second call at `x` is possible exactly strictly inside (ts + 2r, ts + 2r + 1 + hold). */
  lemma SecondCallExactly(r: nat, ts: nat, x: real, hold: real)
    requires hold >= 0.0
    ensures Possible(r, ts, x, hold) <==> (ts + 2 * r) as real < x < (ts + 2 * r + 1) as real + hold
  {
    if (ts + 2 * r) as real < x < (ts + 2 * r + 1) as real + hold {
      var y := if x - hold >= ts as real then x - hold else ts as real;
      var p, b := Example(ts);
      HandledTwice(r, p, b, y, x);
      hide Twice, Run;
      assert TwoCalls(Start(r, ts, p.src, b), Twice(p, b, y, x), 0, 1, ts, x, hold);
    }
    if Possible(r, ts, x, hold) {
      var s, events, i, j :| Initial(s) && s.r == r && TwoCalls(s, events, i, j, ts, x, hold);
      SecondCallWindow(s, events, i, j, hold);
    }
  }

  /** On a whole-second clock: exactly at the whole seconds in (ts + 2r, ts + 2r + hold]. */
  lemma WholeSecondCallExactly(r: nat, ts: nat, x: real, hold: real)
    requires hold >= 0.0
    ensures PossibleOnWholeSeconds(r, ts, x, hold)
            <==> Whole(x) && (ts + 2 * r) as real < x <= (ts + 2 * r) as real + hold
  {
    if Whole(x) && (ts + 2 * r) as real < x <= (ts + 2 * r) as real + hold {
      var y := (ts + 2 * r) as real;
      var p, b := Example(ts);
      HandledTwice(r, p, b, y, x);
      assert WholeTicks(Start(r, ts, p.src, b), Twice(p, b, y, x));
      hide Twice, Run;
      assert TwoCalls(Start(r, ts, p.src, b), Twice(p, b, y, x), 0, 1, ts, x, hold);
    }
    if PossibleOnWholeSeconds(r, ts, x, hold) {
      var s, events, i, j :|
        Initial(s) && s.r == r && WholeTicks(s, events) && TwoCalls(s, events, i, j, ts, x, hold);
      WholeSecondWindow(s, events, i, j, hold);
      RunKeepsWhole(s, events);
    }
  }

  lemma WholeInt(n: int)
    ensures Whole(n as real)
  {
  }

  /** So on a whole-second clock a packet is handled at most once exactly when no message waits
      a full second between its age check and its stamp. */
  lemma AtMostOnceExactly(r: nat, hold: real)
    requires hold >= 0.0
    ensures (forall ts: nat, x: real :: !PossibleOnWholeSeconds(r, ts, x, hold)) <==> hold < 1.0
  {
    hide PossibleOnWholeSeconds, Whole;
    if hold >= 1.0 {
      WholeInt(2 * r + 1);
      WholeSecondCallExactly(r, 0, (2 * r + 1) as real, hold);
      assert PossibleOnWholeSeconds(r, 0, (2 * r + 1) as real, hold);
    } else {
      forall ts: nat, x: real ensures !PossibleOnWholeSeconds(r, ts, x, hold) {
        WholeSecondCallExactly(r, ts, x, hold);
        if Whole(x) && (ts + 2 * r) as real < x { NextSecond(ts + 2 * r, x); }
      }
    }
  }
}
