/** How often the handlers of a router can be called with one content or one signed packet,
    over any number of brokers and any interleaving of deliveries, suspensions and prunes.

    Packets carry whole seconds and age is measured on the floored clock, while stamps and
    pruning use the clock itself. That difference is what decides the answer. */
module AtMostOnce {
  import opened Basics
  import opened Messages
  import opened ClientOps
  import opened Delivery

  predicate EntryInPast(s: Sys, m: Meta) { m.out.timestamp as real <= s.clock }

  ghost predicate QueuesInPast(s: Sys, qs: Queues) {
    forall id, n :: id in qs && n in qs[id] ==> EntryInPast(s, qs[id][n])
  }

  ghost predicate ClientInPast(s: Sys, c: Client) {
    QueuesInPast(s, c.msgs) && QueuesInPast(s, c.acks) && QueuesInPast(s, c.probes)
  }

  /** A packet that passed the age gate when the clock read `checked`. */
  predicate Admitted(s: Sys, p: Packet, checked: real) {
    p.timestamp as real <= checked <= s.clock && checked.Floor - p.timestamp <= 2 * s.r
  }

  predicate FireOk(s: Sys, f: Fire) { Admitted(s, f.pkt, f.checked) && f.checked <= f.at <= s.clock }

  /** A content handled is stamped no earlier, or its stamp has since outlived 2r. */
  predicate Remembered(s: Sys, f: Fire) {
    if f.pkt.msg in StampsOf(s, f.node) then StampsOf(s, f.node)[f.pkt.msg] >= f.at
    else f.at + (2 * s.r) as real < s.clock
  }

  predicate SameContent(f: Fire, g: Fire) { f.node == g.node && f.pkt.msg == g.pkt.msg }

  ghost predicate TimeInv(s: Sys) {
    && (forall c :: c in s.clients ==> ClientInPast(s, s.clients[c]))
    && (forall w :: w in s.net ==> w.pkt.timestamp as real <= s.clock)
    && (forall i :: 0 <= i < |s.tasks| ==> s.tasks[i].Hashing? ==> Admitted(s, s.tasks[i].pkt, s.tasks[i].checked))
    && (forall i :: 0 <= i < |s.tasks| ==> s.tasks[i].Signing? ==> s.tasks[i].out.timestamp as real <= s.clock)
    && (forall i :: 0 <= i < |s.log| ==> FireOk(s, s.log[i]) && Remembered(s, s.log[i]))
    && (forall i, j :: 0 <= i < j < |s.log| && SameContent(s.log[i], s.log[j]) ==>
          s.log[j].at > s.log[i].at + (2 * s.r) as real)
    && (forall node, m :: m in StampsOf(s, node) ==> StampsOf(s, node)[m] <= s.clock)
  }

  lemma {:induction false} ClientStaysInPast(s: Sys, c: Cid, client: Client, wires: set<Wire>)
    requires TimeInv(s) && c in s.clients && ClientInPast(s, client)
    requires forall w :: w in wires ==> w.pkt.timestamp as real <= s.clock
    ensures TimeInv(WithClient(s, c, client).(net := s.net + wires))
  {
    Renamed(s, WithClient(s, c, client).(net := s.net + wires));
    hide ClientInPast, SameContent, Admitted, FireOk, Remembered;
  }

  lemma SendInPast(s: Sys, c: Client, self: Key, msg: Bytes, dest: Key, id: QueueId, kind: Kind, seqNo: Option<nat>)
    requires ClientInPast(s, c)
    ensures var r := BeginSend(c, self, s.clock, msg, dest, id, kind, seqNo);
            r.Queued? ==> ClientInPast(s, r.client) && r.out.timestamp as real <= s.clock
  {
  }

  lemma FinishInPast(s: Sys, c: Client, dest: Key, out: Packet)
    requires ClientInPast(s, c) && out.timestamp as real <= s.clock
    ensures ClientInPast(s, FinishSend(c, s.clock, dest, out))
  {
  }

  lemma OpsInPast(s: Sys, c: Client, self: Key, p: Packet, kind: Kind, id: QueueId, which: Option<nat>)
    requires ClientInPast(s, c)
    ensures ClientInPast(s, Arrive(c, p).0)
    ensures Arrive(c, p).1.Some? ==> EntryInPast(s, Arrive(c, p).1.value)
    ensures ClientInPast(s, OnAck(c, p))
    ensures ClientInPast(s, Dequeue(c, kind, id, which))
  {
    AckInPast(s, c, p);
    DequeueInPast(s, c, kind, id, which);
    hide OnAck, Dequeue;
  }

  lemma AckInPast(s: Sys, c: Client, p: Packet)
    requires ClientInPast(s, c)
    ensures ClientInPast(s, OnAck(c, p))
  {
  }

  lemma DequeueInPast(s: Sys, c: Client, kind: Kind, id: QueueId, which: Option<nat>)
    requires ClientInPast(s, c)
    ensures ClientInPast(s, Dequeue(c, kind, id, which))
  {
  }

  lemma ProbedInPast(s: Sys, c: Client, self: Key, p: Packet)
    requires ClientInPast(s, c)
    ensures var (d, out) := OnProbe(c, self, s.clock, p);
            ClientInPast(s, d) && (out.Some? ==> out.value.timestamp as real <= s.clock)
  {
  }

  lemma ProbeInPast(s: Sys, c: Client, self: Key, dest: Key, id: QueueId)
    requires ClientInPast(s, c)
    ensures var r := SendProbe(c, self, s.clock, dest, id);
            r.Queued? ==> ClientInPast(s, r.client) && r.out.timestamp as real <= s.clock
  {
  }

  lemma TouchInPast(s: Sys, c: Client, kind: Kind, id: QueueId, n: nat, now: real)
    requires ClientInPast(s, c) && Has(c.Of(kind), id, n)
    ensures ClientInPast(s, Touch(c, kind, id, n, now)) && EntryInPast(s, c.Of(kind)[id][n])
  {
    assert QueuesInPast(s, c.Of(kind));
  }

  lemma {:induction false} DeliverKeepsTime(s: Sys, c: Cid, w: Wire)
    requires TimeInv(s) && c in s.clients && w in s.net
    ensures TimeInv(OnDeliver(s, c, w))
  {
    var p := w.pkt;
    OpsInPast(s, s.clients[c], c.node, p, MSG, p.queueId, None);
    ProbedInPast(s, s.clients[c], c.node, p);
    hide Arrive, OnAck, OnProbe, ClientInPast, SameContent;
    assert s.net + {} == s.net;
    if w.topic != c.node || (p.kind.MSG? && TooOld(s, p)) {
      return;
    }
    match p.kind
    case MSG =>
      var (client, again) := Arrive(s.clients[c], p);
      if again.Some? {
        ClientStaysInPast(s, c, client, {Wire(c.broker, again.value.dest, again.value.out)});
      } else {
        ClientStaysInPast(s, c, client, {});
        AddTaskKeepsTime(WithClient(s, c, client), Hashing(c, p, s.clock));
      }
    case MSGACK => ClientStaysInPast(s, c, OnAck(s.clients[c], p), {});
    case PROBE =>
      var (client, out) := OnProbe(s.clients[c], c.node, s.clock, p);
      if out.None? {
        ClientStaysInPast(s, c, client, {});
      } else {
        ClientStaysInPast(s, c, client, {Wire(c.broker, p.src, out.value)});
        ReceiptsDoNotMatter(Publish(WithClient(s, c, client), c, p.src, out.value), s.receipts + {Receipt(c.node, p)});
      }
  }

  lemma {:induction false} AddTaskKeepsTime(s: Sys, task: Task)
    requires TimeInv(s) && task.Hashing?
    requires (!TooOld(s, task.pkt) && task.checked == s.clock && task.pkt.timestamp as real <= s.clock)
    ensures TimeInv(s.(tasks := s.tasks + [task]))
  {
    var t := s.(tasks := s.tasks + [task]);
    Renamed(s, t);
    assert Admitted(t, task.pkt, task.checked);
    hide ClientInPast, SameContent, Admitted, FireOk, Remembered;
  }

  /** The per-item conditions read only r, the clock and the stamps. */
  lemma Renamed(s: Sys, t: Sys)
    requires t.r == s.r && t.clock >= s.clock
    ensures forall c :: ClientInPast(s, c) ==> ClientInPast(t, c)
    ensures forall p, x :: Admitted(s, p, x) ==> Admitted(t, p, x)
    ensures forall f :: FireOk(s, f) ==> FireOk(t, f)
    ensures t.stamps == s.stamps ==> forall node :: StampsOf(t, node) == StampsOf(s, node)
    ensures t.stamps == s.stamps ==> forall f :: Remembered(s, f) ==> Remembered(t, f)
  {
    forall c | ClientInPast(s, c) ensures ClientInPast(t, c) {
      forall qs | QueuesInPast(s, qs) ensures QueuesInPast(t, qs) {
        forall m | EntryInPast(s, m) ensures EntryInPast(t, m) { }
      }
    }
  }

  lemma ReceiptsDoNotMatter(s: Sys, receipts: set<Receipt>)
    requires TimeInv(s)
    ensures TimeInv(s.(receipts := receipts))
  {
    Renamed(s, s.(receipts := receipts));
    hide ClientInPast, SameContent, Admitted, FireOk, Remembered;
  }

  lemma {:induction false} ReplaceTaskKeepsTime(s: Sys, i: nat, task: Task)
    requires TimeInv(s) && i < |s.tasks| && !task.Hashing?
    requires task.Signing? ==> task.out.timestamp as real <= s.clock
    ensures TimeInv(s.(tasks := s.tasks[i := task]))
  {
    Renamed(s, s.(tasks := s.tasks[i := task]));
    hide ClientInPast, SameContent, Admitted, FireOk, Remembered;
  }

  lemma FireKeepsTime(s: Sys, i: nat)
    requires TimeInv(s) && i < |s.tasks| && s.tasks[i].Hashing?
    ensures TimeInv(OnResume(s, i))
  {
    var Hashing(c, p, checked) := s.tasks[i];
    var t := OnResume(s, i);
    ReplaceTaskKeepsTime(s, i, Handling(c, p));
    if p.msg !in StampsOf(s, c.node) {
      StampKeepsTime(s.(tasks := t.tasks), Fire(c.node, p, checked, s.clock));
    }
  }

  lemma StampRemembers(s: Sys, t: Sys, f: Fire)
    requires f.pkt.msg !in StampsOf(s, f.node) && Admitted(s, f.pkt, f.checked) && f.at == s.clock
    requires t == s.(stamps := s.stamps[f.node := StampsOf(s, f.node)[f.pkt.msg := s.clock]], log := s.log + [f])
    ensures forall g :: FireOk(s, g) && Remembered(s, g) ==> Remembered(t, g)
    ensures forall g :: Remembered(s, g) && SameContent(g, f) ==> f.at > g.at + (2 * s.r) as real
    ensures FireOk(t, f) && Remembered(t, f)
    ensures forall node ::
              StampsOf(t, node) == if node == f.node then StampsOf(s, node)[f.pkt.msg := s.clock] else StampsOf(s, node)
  {
  }

  lemma StampKeepsTime(s: Sys, f: Fire)
    requires TimeInv(s) && f.pkt.msg !in StampsOf(s, f.node) && Admitted(s, f.pkt, f.checked) && f.at == s.clock
    ensures TimeInv(s.(stamps := s.stamps[f.node := StampsOf(s, f.node)[f.pkt.msg := s.clock]], log := s.log + [f]))
  {
    var t := s.(stamps := s.stamps[f.node := StampsOf(s, f.node)[f.pkt.msg := s.clock]], log := s.log + [f]);
    Renamed(s, t);
    StampRemembers(s, t, f);
    hide ClientInPast, SameContent, Admitted, FireOk, Remembered, StampsOf;
  }

  lemma ResumeKeepsTime(s: Sys, i: nat)
    requires TimeInv(s) && i < |s.tasks|
    ensures TimeInv(OnResume(s, i))
  {
    match s.tasks[i]
    case Hashing(c, p, checked) => FireKeepsTime(s, i);
    case Handling(c, p) =>
      if c in s.clients {
        SendInPast(s, s.clients[c], c.node, ACK_TEXT, p.src, p.queueId, MSGACK, Some(p.seqNo));
        hide BeginSend, TimeInv, ClientInPast;
        var b := BeginSend(s.clients[c], c.node, s.clock, ACK_TEXT, p.src, p.queueId, MSGACK, Some(p.seqNo));
        if b.Queued? {
          ClientStaysInPast(s, c, b.client, {});
          assert s.net + {} == s.net;
          ReplaceTaskKeepsTime(WithClient(s, c, b.client), i, Signing(c, p, b.out));
        } else {
          ReplaceTaskKeepsTime(s, i, Finished);
        }
      }
    case Signing(c, p, out) =>
      if c in s.clients {
        FinishInPast(s, s.clients[c], p.src, out);
        hide FinishSend, TimeInv, ClientInPast;
        var client := FinishSend(s.clients[c], s.clock, p.src, out);
        ClientStaysInPast(s, c, client, {});
        assert s.net + {} == s.net;
        ReplaceTaskKeepsTime(WithClient(s, c, client), i, Finished);
        ReceiptsDoNotMatter(WithClient(s, c, client).(tasks := s.tasks[i := Finished]), OnResume(s, i).receipts);
      }
    case Finished =>
  }

  lemma PruneKeepsTime(s: Sys, c: Cid, now: real)
    requires TimeInv(s) && c in s.clients && now <= s.clock
    ensures TimeInv(Step(s, Prune(c, now)))
  {
    var client := s.clients[c].(sent := Fresh(s.clients[c].sent, now, 2 * s.r));
    ClientStaysInPast(s, c, client, {});
    assert s.net + {} == s.net;
    ForgetKeepsTime(WithClient(s, c, client), c.node, now);
  }

  lemma ForgetKeepsTime(s: Sys, node: Key, now: real)
    requires TimeInv(s) && now <= s.clock
    ensures TimeInv(s.(stamps := s.stamps[node := Fresh(StampsOf(s, node), now, 2 * s.r)]))
  {
    var t := s.(stamps := s.stamps[node := Fresh(StampsOf(s, node), now, 2 * s.r)]);
    Renamed(s, t);
    assert forall f :: Remembered(s, f) ==> Remembered(t, f);
    assert forall n, m :: m in StampsOf(t, n) ==> m in StampsOf(s, n) && StampsOf(t, n)[m] == StampsOf(s, n)[m];
    hide ClientInPast, SameContent, Admitted, FireOk, Remembered, StampsOf;
  }

  lemma StepKeepsTime(s: Sys, e: Event)
    requires TimeInv(s)
    ensures TimeInv(Step(s, e))
  {
    hide OnDeliver, OnResume, BeginSend, FinishSend, SendProbe, Dequeue, Touch, Fresh, ClientInPast, TimeInv;
    assert s.net + {} == s.net;
    match e
    case Tick(now) => if now >= s.clock { TickKeepsTime(s, now); }
    case Send(c, msg, dest, id, at) =>
      if c in s.clients {
        ClientPast(s, c);
        SendInPast(s, s.clients[c], c.node, msg, dest, id, MSG, at);
        var b := BeginSend(s.clients[c], c.node, s.clock, msg, dest, id, MSG, at);
        if b.Queued? {
          FinishInPast(s, b.client, dest, b.out);
          ClientStaysInPast(s, c, FinishSend(b.client, s.clock, dest, b.out), {});
        }
      }
    case Probe(c, dest, id) =>
      if c in s.clients {
        ClientPast(s, c);
        var r := SendProbe(s.clients[c], c.node, s.clock, dest, id);
        if r.Queued? {
          ProbeInPast(s, s.clients[c], c.node, dest, id);
          ClientStaysInPast(s, c, r.client, {Wire(c.broker, dest, r.out)});
        }
      }
    case Republish(c, kind, id, n, now) =>
      if c in s.clients && Has(s.clients[c].Of(kind), id, n) {
        ClientPast(s, c);
        TouchInPast(s, s.clients[c], kind, id, n, now);
        var m := s.clients[c].Of(kind)[id][n];
        ClientStaysInPast(s, c, Touch(s.clients[c], kind, id, n, now), {Wire(c.broker, m.dest, m.out)});
      }
    case Leftover(c, kind, id, n) =>
      if c in s.clients && Has(s.clients[c].Of(kind), id, n) {
        ClientPast(s, c);
        TouchInPast(s, s.clients[c], kind, id, n, 0.0);
        var m := s.clients[c].Of(kind)[id][n];
        assert s.clients[c := s.clients[c]] == s.clients;
        ClientStaysInPast(s, c, s.clients[c], {Wire(c.broker, m.dest, m.out)});
      }
    case Deliver(c, w) => if c in s.clients && w in s.net && w.broker == c.broker { DeliverKeepsTime(s, c, w); }
    case Resume(i) => if i < |s.tasks| { ResumeKeepsTime(s, i); }
    case Prune(c, now) => if c in s.clients && now <= s.clock { PruneKeepsTime(s, c, now); }
    case Dequeued(c, kind, id, n) =>
      if c in s.clients {
        ClientPast(s, c);
        OpsInPast(s, s.clients[c], c.node, Packet(c.node, id, 0, 0, kind, []), kind, id, n);
        ClientStaysInPast(s, c, Dequeue(s.clients[c], kind, id, n), {});
      }
    case Reset(c) =>
  }

  lemma ClientPast(s: Sys, c: Cid)
    requires TimeInv(s) && c in s.clients
    ensures ClientInPast(s, s.clients[c])
  {
    hide ClientInPast;
  }

  lemma TickKeepsTime(s: Sys, now: real)
    requires TimeInv(s) && now >= s.clock
    ensures TimeInv(s.(clock := now))
  {
    Renamed(s, s.(clock := now));
    hide ClientInPast, SameContent, Admitted, FireOk, Remembered;
  }

  lemma {:induction false} RunKeepsTime(s: Sys, events: seq<Event>)
    requires Initial(s)
    ensures TimeInv(Run(s, events)) && Run(s, events).r == s.r
  {
    if events != [] {
      RunKeepsTime(s, events[..|events| - 1]);
      StepKeepsTime(Run(s, events[..|events| - 1]), events[|events| - 1]);
      StepExtends(Run(s, events[..|events| - 1]), events[|events| - 1]);
    }
  }

  // ---- the results ----------------------------------------------------------------------------

  /** Any two calls of a router's handlers with the same content lie more than 2r apart. */
  lemma EqualContentSpacing(s: Sys, events: seq<Event>, i: nat, j: nat)
    requires Initial(s)
    requires var log := Run(s, events).log; i < j < |log| && SameContent(log[i], log[j])
    ensures var log := Run(s, events).log; log[j].at - log[i].at > (2 * s.r) as real
  {
    RunKeepsTime(s, events);
    hide Run;
  }

  /** The same signed packet can come through twice only late: if no message waits longer than
      `hold` between its age check and its stamp, the second call falls strictly inside
      (timestamp + 2r, timestamp + 2r + 1 + hold). */
  lemma SecondCallWindow(s: Sys, events: seq<Event>, i: nat, j: nat, hold: real)
    requires Initial(s)
    requires var log := Run(s, events).log; i < j < |log| && log[i].node == log[j].node && log[i].pkt == log[j].pkt
    requires var log := Run(s, events).log; log[j].at - log[j].checked <= hold
    ensures var f := Run(s, events).log[j];
            (f.pkt.timestamp + 2 * s.r) as real < f.at < (f.pkt.timestamp + 2 * s.r + 1) as real + hold
  {
    RunKeepsTime(s, events);
    var t := Run(s, events);
    hide Run;
    assert FireOk(t, t.log[i]) && FireOk(t, t.log[j]) && SameContent(t.log[i], t.log[j]);
  }

  /** Never three times, as long as 2r covers the rounding second and the waiting time. */
  lemma NeverThreeTimes(s: Sys, events: seq<Event>, i: nat, j: nat, k: nat, hold: real)
    requires Initial(s) && (2 * s.r) as real >= 1.0 + hold
    requires var log := Run(s, events).log; i < j < k < |log| && log[i].node == log[j].node == log[k].node
    requires var log := Run(s, events).log; log[i].pkt == log[j].pkt && log[k].at - log[k].checked <= hold
    ensures Run(s, events).log[j].pkt != Run(s, events).log[k].pkt
  {
    RunKeepsTime(s, events);
    var t := Run(s, events);
    hide Run;
    assert FireOk(t, t.log[i]) && FireOk(t, t.log[k]) && SameContent(t.log[i], t.log[j]);
    assert t.log[k].at < (t.log[k].pkt.timestamp + 2 * s.r + 1) as real + hold;
    assert SameContent(t.log[j], t.log[k]) ==> t.log[k].at > t.log[j].at + (2 * s.r) as real;
  }

  // ---- a clock that shows whole seconds --------------------------------------------------------

  predicate Whole(x: real) { x == x.Floor as real }

  /** The clock only ever shows whole seconds. */
  predicate WholeTicks(s: Sys, events: seq<Event>) {
    Whole(s.clock) && forall e :: e in events && e.Tick? ==> Whole(e.now)
  }

  ghost predicate WholeInv(s: Sys) {
    && Whole(s.clock)
    && (forall i :: 0 <= i < |s.tasks| ==> s.tasks[i].Hashing? ==> Whole(s.tasks[i].checked))
    && (forall i :: 0 <= i < |s.log| ==> Whole(s.log[i].at) && Whole(s.log[i].checked))
  }

  lemma StepKeepsWhole(s: Sys, e: Event)
    requires WholeInv(s) && (e.Tick? ==> Whole(e.now))
    ensures WholeInv(Step(s, e))
  {
    hide BeginSend, FinishSend, OrderedSend, Arrive, OnAck, OnProbe, SendProbe, Dequeue, Touch, Fresh, Whole;
  }

  lemma {:induction false} RunKeepsWhole(s: Sys, events: seq<Event>)
    requires Initial(s) && WholeTicks(s, events)
    ensures WholeInv(Run(s, events))
  {
    if events != [] {
      RunKeepsWhole(s, events[..|events| - 1]);
      StepKeepsWhole(Run(s, events[..|events| - 1]), events[|events| - 1]);
    }
  }

  /** On such a clock a second call for the same packet comes later than timestamp + 2r, and no
      later than timestamp + 2r + hold. */
  lemma WholeSecondWindow(s: Sys, events: seq<Event>, i: nat, j: nat, hold: real)
    requires Initial(s) && WholeTicks(s, events)
    requires var log := Run(s, events).log; i < j < |log| && log[i].node == log[j].node && log[i].pkt == log[j].pkt
    requires var log := Run(s, events).log; log[j].at - log[j].checked <= hold
    ensures var f := Run(s, events).log[j];
            (f.pkt.timestamp + 2 * s.r) as real < f.at <= (f.pkt.timestamp + 2 * s.r) as real + hold
  {
    RunKeepsTime(s, events);
    RunKeepsWhole(s, events);
    var t := Run(s, events);
    hide Run;
    assert FireOk(t, t.log[i]) && FireOk(t, t.log[j]) && SameContent(t.log[i], t.log[j]);
    assert t.log[j].checked == t.log[j].checked.Floor as real;
  }

  /** So a signed packet reaches the handlers of a router at most once, unless a second passed
      between the age check and the stamp of the later call. */
  lemma WholeSecondAtMostOnce(s: Sys, events: seq<Event>, i: nat, j: nat)
    requires Initial(s) && WholeTicks(s, events)
    requires var log := Run(s, events).log;
             i < j < |log| && log[i].node == log[j].node && log[j].at - log[j].checked < 1.0
    ensures Run(s, events).log[i].pkt != Run(s, events).log[j].pkt
  {
    RunKeepsTime(s, events);
    RunKeepsWhole(s, events);
    var t := Run(s, events);
    if t.log[i].pkt == t.log[j].pkt {
      WholeSecondWindow(s, events, i, j, t.log[j].at - t.log[j].checked);
      hide Run, StampsOf, ClientInPast, SameContent, Remembered;
      assert FireOk(t, t.log[j]);
      if t.log[j].checked < t.log[j].at { NextSecond(t.log[j].checked.Floor, t.log[j].at); }
    }
  }

  /** Between a whole second and the next there is no other. */
  lemma NextSecond(n: int, x: real)
    requires Whole(x) && n as real < x
    ensures (n + 1) as real <= x
  {
    var m := x.Floor;
    assert n < m;
  }
}
