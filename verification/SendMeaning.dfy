/** What a resolved future of a fresh, private queue id tells the sender: SmartPipe.send draws
    such an id, queues one content under it on several clients and waits for any future. */
module SendMeaning {
  import opened Basics
  import opened Messages
  import opened ClientOps
  import opened Delivery
  import SmartPipe

  /** All the client holds under `id` is message `m` for `peer`, and nothing dequeued singly. */
  ghost predicate OnlyIn(c: Client, id: QueueId, peer: Key, m: Bytes) {
    && id !in c.probes
    && (id in c.msgs ==> forall n :: n in c.msgs[id] ==>
         c.msgs[id][n].out.msg == m && c.msgs[id][n].dest == peer && c.msgs[id][n].ack != ByDequeue)
  }

  predicate WireCarries(w: Wire, a: Key, id: QueueId, m: Bytes) {
    w.pkt.src == a && w.pkt.queueId == id ==> !w.pkt.kind.PROBE? && (w.pkt.kind.MSG? ==> w.pkt.msg == m)
  }

  ghost predicate Only(s: Sys, a: Key, id: QueueId, peer: Key, m: Bytes) {
    && (forall w :: w in s.net ==> WireCarries(w, a, id, m))
    && (forall c :: c in s.clients && c.node == a ==> OnlyIn(s.clients[c], id, peer, m))
  }

  /** Node `a` has never used the queue id. */
  ghost predicate Unused(s: Sys, a: Key, id: QueueId) {
    && (forall w :: w in s.net && w.pkt.src == a && w.pkt.queueId == id ==> w.pkt.kind.MSGACK?)
    && (forall c :: c in s.clients && c.node == a ==> id !in s.clients[c].msgs && id !in s.clients[c].probes)
  }

  /** Steps that respect the privacy of the id: node `a` queues only `m` for `peer` under it, never probes
      with it, and drops its queues only as a whole. All other steps are free. */
  predicate Private(e: Event, a: Key, id: QueueId, peer: Key, m: Bytes) {
    match e
    case Send(c, msg, dest, i, at) => c.node == a && i == id ==> msg == m && dest == peer
    case Probe(c, _, i) => !(c.node == a && i == id)
    case Dequeued(c, kind, i, which) => !(c.node == a && kind.MSG? && i == id && which.Some?)
    case _ => true
  }

  lemma {:induction false} StepKeepsOnly(s: Sys, e: Event, a: Key, id: QueueId, peer: Key, m: Bytes)
    requires ChainInv(s) && Only(s, a, id, peer, m) && Private(e, a, id, peer, m)
    ensures Only(Step(s, e), a, id, peer, m)
  {
    hide OnDeliver, OnResume, BeginSend, FinishSend, SendProbe, Dequeue, Touch, Fresh, ChainInv, OnlyIn;
    match e
    case Tick(now) =>
    case Send(c, msg, dest, i, at) =>
      if c in s.clients { SendOnly(s.clients[c], c.node, s.clock, msg, dest, i, at, a, id, peer, m); }
    case Probe(c, dest, i) =>
      if c in s.clients { ProbeOnly(s.clients[c], c, s.clock, dest, i, a, id, peer, m); }
    case Republish(c, kind, i, n, now) =>
      if c in s.clients && Has(s.clients[c].Of(kind), i, n) {
        ChainClient(s, c);
        TouchOnly(s.receipts, c, s.clients[c], kind, i, n, now, a, id, peer, m);
      }
    case Leftover(c, kind, i, n) =>
      if c in s.clients && Has(s.clients[c].Of(kind), i, n) {
        ChainClient(s, c);
        TouchOnly(s.receipts, c, s.clients[c], kind, i, n, 0.0, a, id, peer, m);
      }
    case Deliver(c, w) =>
      if c in s.clients && w in s.net { DeliverOnly(s, c, w, a, id, peer, m); }
    case Resume(i) =>
      if i < |s.tasks| { ResumeOnly(s, i, a, id, peer, m); }
    case Prune(c, now) =>
      if c in s.clients { SentIrrelevant(s.clients[c], Fresh(s.clients[c].sent, now, 2 * s.r), id, peer, m); }
    case Dequeued(c, kind, i, which) =>
      if c in s.clients { DequeueOnly(s.clients[c], kind, i, which, c.node == a, id, peer, m); }
    case Reset(c) =>
  }

  lemma SentIrrelevant(c: Client, sent: Stamps, id: QueueId, peer: Key, m: Bytes)
    ensures OnlyIn(c, id, peer, m) ==> OnlyIn(c.(sent := sent), id, peer, m)
  {
  }

  lemma SendOnly(c: Client, node: Key, now: real, msg: Bytes, dest: Key, i: QueueId, n: Option<nat>, a: Key,
                 id: QueueId, peer: Key, m: Bytes)
    requires node == a ==> OnlyIn(c, id, peer, m) && (i == id ==> msg == m && dest == peer)
    ensures var r := OrderedSend(c, node, now, msg, dest, i, MSG, n);
            r.Queued? && node == a ==> OnlyIn(r.client, id, peer, m)
  {
    if node == a && ValidIds(i, dest) {
      BeginOnly(c, node, now, msg, dest, i, n, id, peer, m);
      var b := BeginSend(c, node, now, msg, dest, i, MSG, n);
      hide OnlyIn, BeginSend;
      FinishOnly(b.client, now, dest, b.out, id, peer, m);
    }
  }

  lemma BeginOnly(c: Client, node: Key, now: real, msg: Bytes, dest: Key, i: QueueId, n: Option<nat>, id: QueueId,
                  peer: Key, m: Bytes)
    requires OnlyIn(c, id, peer, m) && ValidIds(i, dest)
    ensures var b := BeginSend(c, node, now, msg, dest, i, MSG, n);
            b.Queued? && OnlyIn(b.client, id, peer, m) && b.out.kind.MSG? && b.out.queueId == i && b.out.msg == msg
  {
  }

  lemma FinishOnly(c: Client, now: real, dest: Key, out: Packet, id: QueueId, peer: Key, m: Bytes)
    requires OnlyIn(c, id, peer, m) && out.kind.MSG? && (out.queueId == id ==> out.msg == m && dest == peer)
    ensures OnlyIn(FinishSend(c, now, dest, out), id, peer, m)
  {
  }

  lemma ProbeOnly(c: Client, at: Cid, now: real, dest: Key, i: QueueId, a: Key, id: QueueId, peer: Key, m: Bytes)
    requires at.node == a ==> OnlyIn(c, id, peer, m) && i != id
    ensures var r := SendProbe(c, at.node, now, dest, i);
            r.Queued? ==>
              (at.node == a ==> OnlyIn(r.client, id, peer, m)) && WireCarries(Wire(at.broker, dest, r.out), a, id, m)
  {
  }

  lemma TouchOnly(receipts: set<Receipt>, at: Cid, c: Client, kind: Kind, i: QueueId, n: nat, now: real, a: Key,
                  id: QueueId, peer: Key, m: Bytes)
    requires ClientOk(receipts, at.node, c) && Has(c.Of(kind), i, n) && (at.node == a ==> OnlyIn(c, id, peer, m))
    ensures at.node == a ==> OnlyIn(Touch(c, kind, i, n, now), id, peer, m)
    ensures var x := c.Of(kind)[i][n]; WireCarries(Wire(at.broker, x.dest, x.out), a, id, m)
  {
    hide Acked;
    assert EntryOk(receipts, at.node, kind, i, n, c.Of(kind)[i][n]);
  }

  lemma DequeueOnly(c: Client, kind: Kind, i: QueueId, which: Option<nat>, mine: bool, id: QueueId, peer: Key, m: Bytes)
    requires mine ==> OnlyIn(c, id, peer, m) && !(kind.MSG? && i == id && which.Some?)
    ensures mine ==> OnlyIn(Dequeue(c, kind, i, which), id, peer, m)
  {
  }

  lemma {:induction false} AcksOnly(receipts: set<Receipt>, node: Key, c: Client, now: real, p: Packet, id: QueueId,
                                    peer: Key, m: Bytes)
    requires ClientOk(receipts, node, c) && OnlyIn(c, id, peer, m)
    ensures OnlyIn(OnAck(c, p), id, peer, m) && OnlyIn(Arrive(c, p).0, id, peer, m)
    ensures OnlyIn(OnProbe(c, node, now, p).0, id, peer, m)
  {
    hide Acked;
  }

  lemma AcksSent(receipts: set<Receipt>, node: Key, c: Client, now: real, p: Packet)
    requires ClientOk(receipts, node, c)
    ensures var (_, again) := Arrive(c, p); again.Some? ==> again.value.out.kind.MSGACK?
    ensures var (_, out) := OnProbe(c, node, now, p); out.Some? ==> out.value.kind.MSGACK?
  {
    ArriveOk(receipts, node, c, p);
    hide Acked;
  }

  lemma ReplaceOnly(s: Sys, c: Cid, client: Client, wires: set<Wire>, a: Key, id: QueueId, peer: Key, m: Bytes)
    requires Only(s, a, id, peer, m) && c in s.clients && (c.node == a ==> OnlyIn(client, id, peer, m))
    requires forall w :: w in wires ==> w.pkt.kind.MSGACK?
    ensures Only(WithClient(s, c, client).(net := s.net + wires), a, id, peer, m)
  {
    hide OnlyIn;
  }

  lemma OnlyElsewhere(s: Sys, t: Sys, a: Key, id: QueueId, peer: Key, m: Bytes)
    requires Only(s, a, id, peer, m) && t.net == s.net && t.clients == s.clients
    ensures Only(t, a, id, peer, m)
  {
    hide OnlyIn;
  }

  lemma {:induction false} DeliverOnly(s: Sys, c: Cid, w: Wire, a: Key, id: QueueId, peer: Key, m: Bytes)
    requires ChainInv(s) && Only(s, a, id, peer, m) && c in s.clients
    ensures Only(OnDeliver(s, c, w), a, id, peer, m)
  {
    ChainClient(s, c);
    AcksSent(s.receipts, c.node, s.clients[c], s.clock, w.pkt);
    if c.node == a {
      AcksOnly(s.receipts, c.node, s.clients[c], s.clock, w.pkt, id, peer, m);
    }
    hide ChainInv, ClientOk, Arrive, OnAck, OnProbe, OnlyIn, Only, WireCarries;
    var t := OnDeliver(s, c, w);
    assert s.net + {} == s.net && s.clients[c := s.clients[c]] == s.clients;
    if w.topic == c.node && !(w.pkt.kind.MSG? && TooOld(s, w.pkt)) {
      match w.pkt.kind
      case MSG =>
        var (client, again) := Arrive(s.clients[c], w.pkt);
        var wires := if again.Some? then {Wire(c.broker, again.value.dest, again.value.out)} else {};
        ReplaceOnly(s, c, client, wires, a, id, peer, m);
        OnlyElsewhere(t.(tasks := s.tasks), t, a, id, peer, m);
      case MSGACK => ReplaceOnly(s, c, OnAck(s.clients[c], w.pkt), {}, a, id, peer, m);
      case PROBE =>
        var (client, out) := OnProbe(s.clients[c], c.node, s.clock, w.pkt);
        ReplaceOnly(s, c, client, if out.Some? then {Wire(c.broker, w.pkt.src, out.value)} else {}, a, id, peer, m);
        OnlyElsewhere(t.(receipts := s.receipts), t, a, id, peer, m);
    }
  }

  lemma ResumeOnly(s: Sys, i: nat, a: Key, id: QueueId, peer: Key, m: Bytes)
    requires ChainInv(s) && Only(s, a, id, peer, m) && i < |s.tasks|
    ensures Only(OnResume(s, i), a, id, peer, m)
  {
    assert TaskOk(s, s.tasks[i]);
    hide ChainInv, Handled, Published;
    match s.tasks[i]
    case Hashing(c, p, _) =>
    case Handling(c, p) =>
    case Signing(c, p, out) =>
    case Finished =>
  }

  ghost predicate AllPrivate(events: seq<Event>, a: Key, id: QueueId, peer: Key, m: Bytes) {
    forall i :: 0 <= i < |events| ==> Private(events[i], a, id, peer, m)
  }

  lemma {:induction false} RunKeepsOnly(s: Sys, before: seq<Event>, during: seq<Event>, a: Key, id: QueueId,
                                        peer: Key, m: Bytes)
    requires Initial(s) && Unused(Run(s, before), a, id) && AllPrivate(during, a, id, peer, m)
    ensures Only(Run(s, before + during), a, id, peer, m)
    decreases |during|
  {
    hide Step, ChainInv;
    if during == [] {
      assert before + during == before;
    } else {
      var init, last := during[..|during| - 1], during[|during| - 1];
      RunKeepsOnly(s, before, init, a, id, peer, m);
      RunKeepsChain(s, before + init);
      StepKeepsOnly(Run(s, before + init), last, a, id, peer, m);
      assert (before + during)[..|before + during| - 1] == before + init;
    }
  }

  // ---- whose message, and when -------------------------------------------------------------------

  /** The k-th step goes on with message `pkt` at `node`, whose digest is there: it is stamped, and
      handled unless its content has a stamp already. */
  predicate ResumedAt(s: Sys, run: seq<Event>, k: nat, node: Key, pkt: Packet) {
    && k < |run| && run[k].Resume?
    && var t := Run(s, run[..k]);
       && run[k].task < |t.tasks| && t.tasks[run[k].task].Hashing?
       && t.tasks[run[k].task].at.node == node && t.tasks[run[k].task].pkt == pkt
  }

  predicate Unstamped(s: Sys, run: seq<Event>, k: nat, node: Key, msg: Bytes)
    requires k <= |run|
  {
    msg !in StampsOf(Run(s, run[..k]), node)
  }

  /** The handlers of `node` were called for this very packet. */
  predicate OwnCall(s: Sys, node: Key, pkt: Packet) { exists f :: f in s.log && f.node == node && f.pkt == pkt }

  lemma Earlier(s: Sys, run: seq<Event>, n: nat, k: nat, node: Key, pkt: Packet)
    requires k < n <= |run|
    ensures ResumedAt(s, run[..n], k, node, pkt) <==> ResumedAt(s, run, k, node, pkt)
    ensures Unstamped(s, run[..n], k, node, pkt.msg) <==> Unstamped(s, run, k, node, pkt.msg)
  {
    assert run[..n][..k] == run[..k];
  }

  ghost predicate OwnResume(s: Sys, run: seq<Event>, k: nat, node: Key, pkt: Packet) {
    ResumedAt(s, run, k, node, pkt) && Unstamped(s, run, k, node, pkt.msg)
  }

  lemma OneStepCall(t: Sys, e: Event, node: Key, pkt: Packet)
    ensures OwnCall(Step(t, e), node, pkt) <==>
              || OwnCall(t, node, pkt)
              || (e.Resume? && e.task < |t.tasks| && t.tasks[e.task].Hashing? && t.tasks[e.task].at.node == node
                  && t.tasks[e.task].pkt == pkt && pkt.msg !in StampsOf(t, node))
  {
    hide BeginSend, FinishSend, OrderedSend, Arrive, OnAck, OnProbe, SendProbe, Dequeue, Touch, Fresh;
    var u := Step(t, e);
    if u.log != t.log {
      assert u.log == t.log + [u.log[|t.log|]];
      assert u.log[|t.log|] in u.log;
    }
    assert forall f :: f in t.log ==> f in u.log;
  }

  /** The handlers are called for a packet exactly if it was resumed with its content unstamped. */
  lemma {:induction false} OwnCallExactly(s: Sys, run: seq<Event>, node: Key, pkt: Packet)
    requires Initial(s)
    ensures OwnCall(Run(s, run), node, pkt) <==> exists k: nat :: OwnResume(s, run, k, node, pkt)
  {
    hide Step, StampsOf;
    if run != [] {
      var n := |run| - 1;
      OwnCallExactly(s, run[..n], node, pkt);
      OneStepCall(Run(s, run[..n]), run[n], node, pkt);
      forall k: nat | k < n ensures OwnResume(s, run[..n], k, node, pkt) <==> OwnResume(s, run, k, node, pkt) {
        Earlier(s, run, n, k, node, pkt);
      }
      hide Run, OwnCall;
      if k: nat :| OwnResume(s, run[..n], k, node, pkt) { assert OwnResume(s, run, k, node, pkt); }
      if k: nat :| OwnResume(s, run, k, node, pkt) && k < n { assert OwnResume(s, run[..n], k, node, pkt); }
      LastResume(s, run, node, pkt);
    }
  }

  lemma LastResume(s: Sys, run: seq<Event>, node: Key, pkt: Packet)
    requires run != []
    ensures var n := |run| - 1;
            var t, e := Run(s, run[..n]), run[n];
            OwnResume(s, run, n, node, pkt) <==>
              e.Resume? && e.task < |t.tasks| && t.tasks[e.task].Hashing? && t.tasks[e.task].at.node == node
              && t.tasks[e.task].pkt == pkt && pkt.msg !in StampsOf(t, node)
  {
  }

  ghost predicate Resumed(s: Sys, run: seq<Event>, node: Key, pkt: Packet) {
    exists k: nat :: ResumedAt(s, run, k, node, pkt)
  }

  /** Past its digest, and acknowledged, is only what was resumed. */
  ghost predicate ResumedInv(s: Sys, run: seq<Event>) {
    var t := Run(s, run);
    && (forall i :: 0 <= i < |t.tasks| && (t.tasks[i].Handling? || t.tasks[i].Signing?) ==>
          Resumed(s, run, t.tasks[i].at.node, t.tasks[i].pkt))
    && (forall r :: r in t.receipts && r.pkt.kind.MSG? ==> Resumed(s, run, r.node, r.pkt))
  }

  lemma {:induction false} RunKeepsResumed(s: Sys, run: seq<Event>)
    requires Initial(s)
    ensures ResumedInv(s, run)
  {
    if run != [] {
      var n := |run| - 1;
      RunKeepsResumed(s, run[..n]);
      forall node, pkt | Resumed(s, run[..n], node, pkt) ensures Resumed(s, run, node, pkt) {
        var k: nat :| ResumedAt(s, run[..n], k, node, pkt);
        Earlier(s, run, n, k, node, pkt);
      }
      var t, e := Run(s, run[..n]), run[n];
      if e.Resume? && e.task < |t.tasks| && t.tasks[e.task].Hashing? {
        assert ResumedAt(s, run, n, t.tasks[e.task].at.node, t.tasks[e.task].pkt);
      }
      assert Run(s, run) == Step(t, e);
      hide Run, Resumed, ResumedAt;
      StepResumed(t, e);
    }
  }

  /** What one step adds to the tasks past their digest and to the receipts of messages. */
  lemma StepResumed(t: Sys, e: Event)
    ensures var u := Step(t, e);
            && (forall i :: 0 <= i < |u.tasks| && (u.tasks[i].Handling? || u.tasks[i].Signing?) ==>
                  && i < |t.tasks| && !t.tasks[i].Finished?
                  && u.tasks[i].at == t.tasks[i].at && u.tasks[i].pkt == t.tasks[i].pkt
                  && (t.tasks[i].Hashing? ==> e == Resume(i)))
            && (forall r :: r in u.receipts && r.pkt.kind.MSG? ==>
                  || r in t.receipts
                  || exists i ::
                       0 <= i < |t.tasks| && t.tasks[i].Signing? && r == Receipt(t.tasks[i].at.node, t.tasks[i].pkt))
  {
    hide BeginSend, FinishSend, OrderedSend, Arrive, OnAck, OnProbe, SendProbe, Dequeue, Touch, Fresh;
  }

  // ---- what a resolved future says -----------------------------------------------------------------

  /** The client's entry under (id, n) is there and its future is done. */
  predicate Done(s: Sys, c: Cid, id: QueueId, n: nat) {
    c in s.clients && Has(s.clients[c].msgs, id, n) && s.clients[c].msgs[id][n].ack != Pending
  }

  /** The peer went on with a message of `a` with this id and content, at or after step `from`. */
  predicate AcceptedAt(s: Sys, run: seq<Event>, from: nat, k: nat, a: Key, id: QueueId, peer: Key, m: Bytes,
                       pkt: Packet) {
    from <= k && ResumedAt(s, run, k, peer, pkt) && pkt.kind.MSG? && pkt.src == a && pkt.queueId == id && pkt.msg == m
  }

  ghost predicate Accepted(s: Sys, run: seq<Event>, from: nat, a: Key, id: QueueId, peer: Key, m: Bytes) {
    exists k: nat, pkt :: AcceptedAt(s, run, from, k, a, id, peer, m, pkt)
  }

  /** From the moment the id was unused, in every run that keeps it private: once a future under
      it is done, on any of the sender's clients, the peer has, since that moment, accepted a
      message of this sender with this id and exactly this content. */
  lemma {:induction false} DoneMeansAccepted(s: Sys, before: seq<Event>, during: seq<Event>, id: QueueId, peer: Key,
                                             m: Bytes, c: Cid,
                          n: nat)
    requires Initial(s) && Unused(Run(s, before), c.node, id) && AllPrivate(during, c.node, id, peer, m)
    requires Done(Run(s, before + during), c, id, n)
    ensures Accepted(s, before + during, |before|, c.node, id, peer, m)
    ensures Handled(Run(s, before + during), peer, m)
  {
    var run := before + during;
    var t := Run(s, run);
    RunKeepsOnly(s, before, during, c.node, id, peer, m);
    assert OnlyIn(t.clients[c], id, peer, m);
    AckSoundness(s, run, c, MSG, id, n);
    RunKeepsResumed(s, run);
    hide Run, ResumedAt;
    var r :| r in t.receipts && r.node == peer && r.pkt.src == c.node && r.pkt.queueId == id && r.pkt.seqNo == n
             && !r.pkt.kind.MSGACK? && Published(t, peer, r.pkt) && (r.pkt.kind.MSG? ==> Handled(t, peer, r.pkt.msg));
    var w :| w in t.net && w.topic == peer && w.pkt == r.pkt;
    assert WireCarries(w, c.node, id, m);
    assert Resumed(s, run, peer, r.pkt);
    var k: nat :| ResumedAt(s, run, k, peer, r.pkt);
    NotBefore(s, before, during, k, peer, r.pkt, id);
    assert AcceptedAt(s, run, |before|, k, c.node, id, peer, m, r.pkt);
  }

  /** No message under an unused id can have been in the making. */
  lemma NotBefore(s: Sys, before: seq<Event>, during: seq<Event>, k: nat, peer: Key, pkt: Packet, id: QueueId)
    requires Initial(s) && Unused(Run(s, before), pkt.src, id) && pkt.queueId == id && pkt.kind.MSG?
    requires ResumedAt(s, before + during, k, peer, pkt)
    ensures k >= |before|
  {
    if k < |before| {
      assert (before + during)[..k] == before[..k] && (before + during)[k] == before[k];
      ResumedWasSent(s, before, k, peer, pkt);
    }
  }

  lemma ResumedWasSent(s: Sys, run: seq<Event>, k: nat, peer: Key, pkt: Packet)
    requires Initial(s) && ResumedAt(s, run, k, peer, pkt)
    ensures exists w :: w in Run(s, run).net && w.pkt == pkt && w.topic == peer
  {
    var t := Run(s, run[..k]);
    RunKeepsChain(s, run[..k]);
    assert TaskOk(t, t.tasks[run[k].task]);
    NetGrows(s, run, k);
    hide Run, ChainInv;
    var w :| w in t.net && w.topic == peer && w.pkt == pkt;
  }

  lemma {:induction false} NetGrows(s: Sys, run: seq<Event>, n: nat)
    requires n <= |run|
    ensures Run(s, run[..n]).net <= Run(s, run).net
  {
    hide Step;
    if n == |run| {
      assert run[..n] == run;
    } else {
      var last := |run| - 1;
      NetGrows(s, run[..last], n);
      assert run[..last][..n] == run[..n];
      StepExtends(Run(s, run[..last]), run[last]);
    }
  }

  // ---- send ------------------------------------------------------------------------------------------

  /** The queueing loop of a send. */
  function QueueAll(cs: seq<Cid>, id: QueueId, peer: Key, m: Bytes): seq<Event> {
    seq(|cs|, i requires 0 <= i < |cs| => Send(cs[i], m, peer, id, None))
  }

  /** Run as steps of the system, the loop does to each client what `Pipe.QueueAll` does, and
      nothing else: its clients end up as in the `queued` part of a send's trail. */
  lemma {:induction false} QueueAllIsRun(s: Sys, cs: seq<Cid>, id: QueueId, peer: Key, m: Bytes)
    requires forall i, j :: 0 <= i < j < |cs| ==> cs[i] != cs[j]
    requires forall c :: c in cs ==> c in s.clients
    ensures var t := Run(s, QueueAll(cs, id, peer, m));
            && t == s.(clients := t.clients) && t.clients.Keys == s.clients.Keys
            && (forall c :: c in s.clients ==>
                  t.clients[c] == if c in cs then SmartPipe.Queueing(s.clients[c], c.node, s.clock, m, peer, id)
                                  else s.clients[c])
  {
    if cs != [] {
      var init, c := cs[..|cs| - 1], cs[|cs| - 1];
      QueueAllIsRun(s, init, id, peer, m);
      var events := QueueAll(cs, id, peer, m);
      assert events[..|events| - 1] == QueueAll(init, id, peer, m);
      assert c !in init && cs == init + [c] && c in cs;
      SendStep(Run(s, QueueAll(init, id, peer, m)), c, id, peer, m);
      hide Step, SmartPipe.Queueing;
    }
  }

  lemma SendStep(s: Sys, c: Cid, id: QueueId, peer: Key, m: Bytes)
    requires c in s.clients
    ensures Step(s, Send(c, m, peer, id, None))
            == s.(clients := s.clients[c := SmartPipe.Queueing(s.clients[c], c.node, s.clock, m, peer, id)])
  {
    hide OrderedSend;
    assert s.clients[c := s.clients[c]] == s.clients;
  }

  /** Some time after step `from` the future under the id was done on this client. */
  ghost predicate GotAck(s: Sys, run: seq<Event>, from: nat, c: Cid, id: QueueId) {
    exists k: nat, n: nat :: from <= k <= |run| && DoneBy(s, run, k, c, id, n)
  }

  predicate DoneBy(s: Sys, run: seq<Event>, k: nat, c: Cid, id: QueueId, n: nat)
    requires k <= |run|
  {
    Done(Run(s, run[..k]), c, id, n)
  }

  /** How each wait of the send can end in this run: only with an ack if there was one. */
  ghost predicate FatesOf(s: Sys, run: seq<Event>, from: nat, cs: seq<Cid>, id: QueueId, fates: seq<SmartPipe.Fate>) {
    |fates| == |cs| && forall i :: 0 <= i < |cs| ==> fates[i].Acked? ==> GotAck(s, run, from, cs[i], id)
  }

  /** What `Pipe.Send` returns, as its contract says. */
  predicate SendReturns(id: QueueId, peer: Key, m: Bytes, fates: seq<SmartPipe.Fate>, out: SmartPipe.Outcome) {
    out == SmartPipe.Returned(
             if ValidIds(id, peer) && exists i :: 0 <= i < |fates| && fates[i] == SmartPipe.Acked then |m| else 0)
  }

  /** The meaning of a send, as a stretch of a run: a fresh id, the queueing loop, then anything
      that keeps the id private. A nonzero length is the message's own, and says that since the
      call began the destination accepted this sender's message; its handlers have been called
      with the content. Zero says nothing about an empty message. */
  lemma {:induction false} NonzeroMeansAccepted(s: Sys, before: seq<Event>, during: seq<Event>, a: Key, id: QueueId,
                                                peer: Key, m: Bytes,
                             cs: seq<Cid>, fates: seq<SmartPipe.Fate>, out: SmartPipe.Outcome)
    requires Initial(s) && Unused(Run(s, before), a, id) && AllPrivate(during, a, id, peer, m)
    requires forall c :: c in cs ==> c.node == a
    requires FatesOf(s, before + (QueueAll(cs, id, peer, m) + during), |before|, cs, id, fates)
    requires SendReturns(id, peer, m, fates, out)
    ensures var run := before + (QueueAll(cs, id, peer, m) + during);
            out.n != 0 ==> out.n == |m| && Accepted(s, run, |before|, a, id, peer, m) && Handled(Run(s, run), peer, m)
    ensures ValidIds(id, peer) && m != [] && out.n == 0 ==> forall i :: 0 <= i < |fates| ==> fates[i] != SmartPipe.Acked
  {
    hide Run, Accepted, Unused, Handled;
    var rest := QueueAll(cs, id, peer, m) + during;
    var run := before + rest;
    if out.n != 0 {
      var i :| 0 <= i < |fates| && fates[i] == SmartPipe.Acked;
      var k: nat, n: nat :| |before| <= k <= |run| && DoneBy(s, run, k, cs[i], id, n);
      var part := rest[..k - |before|];
      assert run[..k] == before + part && cs[i] in cs;
      DoneMeansAccepted(s, before, part, id, peer, m, cs[i], n);
      StillAccepted(s, run, k, |before|, a, id, peer, m);
      StillHandled(s, run, k, peer, m);
    }
  }

  lemma StillAccepted(s: Sys, run: seq<Event>, n: nat, from: nat, a: Key, id: QueueId, peer: Key, m: Bytes)
    requires n <= |run| && Accepted(s, run[..n], from, a, id, peer, m)
    ensures Accepted(s, run, from, a, id, peer, m)
  {
    hide Run, ResumedAt, Unstamped;
    var k: nat, pkt :| AcceptedAt(s, run[..n], from, k, a, id, peer, m, pkt);
    ResumedIndex(s, run[..n], k, peer, pkt);
    Earlier(s, run, n, k, peer, pkt);
    assert AcceptedAt(s, run, from, k, a, id, peer, m, pkt);
  }

  lemma ResumedIndex(s: Sys, run: seq<Event>, k: nat, node: Key, pkt: Packet)
    requires ResumedAt(s, run, k, node, pkt)
    ensures k < |run|
  {
  }

  lemma {:induction false} StillHandled(s: Sys, run: seq<Event>, n: nat, peer: Key, m: Bytes)
    requires n <= |run| && Handled(Run(s, run[..n]), peer, m)
    ensures Handled(Run(s, run), peer, m)
  {
    hide Step, Handled;
    if n == |run| {
      assert run[..n] == run;
    } else {
      var last := |run| - 1;
      assert run[..last][..n] == run[..n];
      StillHandled(s, run[..last], n, peer, m);
      StepExtends(Run(s, run[..last]), run[last]);
      ExtendsKeeps(Run(s, run[..last]), Step(Run(s, run[..last]), run[last]));
    }
  }
}
