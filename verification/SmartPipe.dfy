/** SmartPipe.send: one message over every client of the pipe, the first ack wins, and the
    message id is withdrawn from every client, unless the withdrawal itself is cancelled. */
module SmartPipe {
  import opened Basics
  import opened Messages
  import opened ClientOps
  import opened MqttClient

  /** How the wait for one client's ack ends: resolved, timed out, failed with an error the loop
      logs, or raised something it does not catch (a cancellation, say). */
  datatype Fate = Acked | TimedOut | Failed | Raised

  datatype Outcome = Returned(n: nat) | Escaped

  /** The waiting loop. Which tasks are found done together, and in which order they are looked
      at, is left open: the result depends on the fates alone unless one of them escapes, or the
      caller is itself cancelled while some tasks are pending (`cancelled`). `listed` is the task
      list as the cleanup finds it; it is empty exactly if the loop has run to its end. */
  method WaitFirst(tasks: set<nat>, fates: seq<Fate>, size: nat, cancelled: set<nat> -> bool)
    returns (out: Outcome, listed: set<nat>)
    requires forall i :: i in tasks ==> i < |fates|
    ensures out.Returned? ==> out.n == if exists i :: i in tasks && fates[i] == Acked then size else 0
    ensures out.Escaped? ==> (exists i :: i in tasks && fates[i] == Raised) || exists w :: w <= tasks && cancelled(w)
    ensures listed <= tasks
    ensures listed == {} <==> out.Returned? && forall i :: i in tasks ==> fates[i] != Acked
    ensures listed == {} ==> forall i :: i in tasks ==> fates[i] == TimedOut || fates[i] == Failed
  {
    listed := tasks;
    while listed != {}
      invariant listed <= tasks
      invariant forall i :: i in tasks - listed ==> fates[i] == TimedOut || fates[i] == Failed
      decreases listed
    {
      if cancelled(listed) {
        return Escaped, listed;
      }
      var done :| done <= listed && done != {};
      var pending := listed - done;
      var rest := done;
      while rest != {}
        invariant rest <= done
        invariant forall i :: i in done - rest ==> fates[i] == TimedOut || fates[i] == Failed
        decreases rest
      {
        var i :| i in rest;
        rest := rest - {i};
        match fates[i] {
          case Acked =>
            if pending != {} && cancelled(pending) {
              return Escaped, listed;
            }
            return Returned(size), listed;
          case Raised => return Escaped, listed;
          case TimedOut =>
          case Failed =>
        }
      }
      listed := pending;
    }
    out := Returned(0);
  }

  /** Some wait ends like this. */
  ghost predicate SomeEnds(fate: Fate, fates: seq<Fate>) { exists i :: 0 <= i < |fates| && fates[i] == fate }

  ghost predicate Ever(cancelled: set<nat> -> bool) { exists w :: cancelled(w) }

  /** The loop over the waits of a send, which are on every client or, without valid ids, on none. */
  method WaitForAcks(tasks: set<nat>, fates: seq<Fate>, size: nat, cancelled: set<nat> -> bool, ghost all: bool)
    returns (out: Outcome, listed: set<nat>)
    requires forall k: nat :: k in tasks <==> k < |fates| && all
    ensures out.Returned? ==> out.n == if all && SomeEnds(Acked, fates) then size else 0
    ensures out.Escaped? ==> SomeEnds(Raised, fates) || Ever(cancelled)
    ensures listed == {} <==> out.Returned? && !(all && SomeEnds(Acked, fates))
  {
    out, listed := WaitFirst(tasks, fates, size, cancelled);
    SomeAcked(tasks, fates, all);
    assert listed == {} <==> out.Returned? && !exists i :: i in tasks && fates[i] == Acked;
  }

  /** How a send went, for each client in turn: its queues after the queueing loop, when the wait
      was over, and when the await in the cleanup was over; and whether that await suspended. */
  datatype Trail = Trail(queued: seq<Client>, waited: seq<Client>, left: seq<Client>, suspended: bool)

  /** queue_msg, as a send calls it. */
  method QueueMsg(c: Mqtt, msg: Bytes, dest: Key, id: QueueId, now: real) returns (queued: bool)
    modifies c, c.sent
    ensures queued <==> ValidIds(id, dest)
    ensures c.State() == Queueing(old(c.State()), c.key, now, msg, dest, id)
  {
    QueueingIs(c.State(), c.key, now, msg, dest, id);
    hide OrderedSend, Queueing;
    var seqNo := c.OrderedAckSend(now, msg, dest, id, MSG, None);
    queued := seqNo.Some?;
  }

  class Pipe {
    const dest: Key
    var clients: seq<Mqtt>  // may name a client twice

    constructor (dest: Key, clients: seq<Mqtt>)
      ensures this.dest == dest && this.clients == clients
    {
      this.dest, this.clients := dest, clients;
    }

    /** The states of the clients, one by one. */
    ghost function States(): seq<Client>
      reads this, clients, set c | c in clients :: c.sent
    {
      seq(|clients|, i requires 0 <= i < |clients| reads this, clients, set c | c in clients :: c.sent =>
        clients[i].State())
    }

    ghost predicate IsStates(s: seq<Client>)
      reads this, clients, set c | c in clients :: c.sent
    {
      |s| == |clients| && forall i :: 0 <= i < |clients| ==> s[i] == clients[i].State()
    }

    /** The queueing loop, which does not suspend. */
    method QueueAll(msg: Bytes, id: QueueId, now: real) returns (tasks: set<nat>, ghost queued: seq<Client>)
      modifies clients, set c | c in clients :: c.sent
      ensures clients == old(clients) && IsStates(queued) && |queued| == |clients|
      ensures forall k: nat :: k in tasks <==> k < |clients| && ValidIds(id, dest)
      ensures GotMessage(clients, old(States()), queued, now, msg, dest, id)
    {
      hide Queueing, Touched, GainedOne;
      Untouched(id, dest, msg);
      tasks := {};
      for i := 0 to |clients|
        invariant clients == old(clients)
        invariant forall k: nat :: k in tasks <==> k < i && ValidIds(id, dest)
        invariant ValidIds(id, dest) ==> forall k :: 0 <= k < i ==> GainedOne(old(clients[k].msgs), clients[k].msgs, id)
        invariant forall c :: c in clients ==> Touched(old(Tables(c)), Tables(c), id, c.key, dest, msg)
        invariant Separate(clients) ==>
                    forall k :: 0 <= k < |clients| ==>
                      var t := old(clients[k].State());
                      clients[k].State() == if k < i then Queueing(t, clients[k].key, now, msg, dest, id) else t
      {
        ghost var before := clients[i].State();
        assert clients[i] in clients;
        TouchedAgain(old(Tables(clients[i])), before, clients[i].key, now, msg, dest, id);
        var ok := QueueMsg(clients[i], msg, dest, id, now);
        if ok {
          tasks := tasks + {i};
        }
      }
      queued := States();
      ghost var first := old(States());
      forall i | 0 <= i < |clients| ensures Touched(first[i], queued[i], id, clients[i].key, dest, msg) {
        assert clients[i] in clients;
        TouchedTables(first[i], queued[i], id, clients[i].key, dest, msg);
      }
    }

    /** The cleanup loop, which does not suspend either. */
    method Cleanup(id: QueueId)
      modifies clients
      ensures clients == old(clients)
      ensures forall c :: c in clients ==>
                c.msgs == old(c.msgs) - {id} && c.acks == old(c.acks) && c.probes == old(c.probes)
    {
      for i := 0 to |clients|
        invariant clients == old(clients)
        invariant forall c :: c in clients ==>
                    c.msgs - {id} == old(c.msgs) - {id} && c.acks == old(c.acks) && c.probes == old(c.probes)
        invariant forall k :: 0 <= k < i ==> id !in clients[k].msgs
      {
        assert clients[i] in clients;
        clients[i].DequeueMsg(id, None, MSG);
      }
      forall c | c in clients ensures c.msgs == old(c.msgs) - {id} {
        var k :| 0 <= k < |clients| && clients[k] == c;
        assert c.msgs == c.msgs - {id};
      }
    }

    /** What other tasks do to the clients' queues during the wait: anything. */
    method OtherTasks(others: (nat, Client) -> Client, ghost before: seq<Client>) returns (ghost after: seq<Client>)
      requires IsStates(before)
      modifies clients
      ensures clients == old(clients) && IsStates(after) && |after| == |clients|
      ensures Distinct(clients) ==>
                forall i :: 0 <= i < |clients| ==> SameQueues(after[i], others(i, before[i]))
    {
      for i := 0 to |clients|
        invariant clients == old(clients)
        invariant Distinct(clients) ==>
                    forall k :: 0 <= k < |clients| ==>
                      if k < i then SameQueues(clients[k].State(), others(k, old(clients[k].State())))
                      else clients[k].State() == old(clients[k].State())
      {
        var t := others(i, clients[i].State());
        clients[i].msgs, clients[i].acks, clients[i].probes := t.msgs, t.acks, t.probes;
      }
      after := States();
    }

    /** The finally block: an await that may suspend and may be cancelled, then the cleanup. */
    method Withdraw(id: QueueId, suspends: bool, meanwhile: (nat, Client) -> Client, interrupted: bool,
                    ghost waited: seq<Client>)
      returns (ghost left: seq<Client>)
      requires IsStates(waited)
      modifies clients
      ensures clients == old(clients) && |left| == |clients|
      ensures (forall c :: c in clients ==> id !in c.msgs)
              <==> !(interrupted && suspends) || forall i :: 0 <= i < |clients| ==> id !in left[i].msgs
      ensures forall i :: 0 <= i < |clients| ==>
                var t := left[i];
                SameQueues(clients[i].State(), if interrupted && suspends then t else t.(msgs := t.msgs - {id}))
      ensures Distinct(clients) ==>
                forall i :: 0 <= i < |clients| ==>
                  SameQueues(left[i], if suspends then meanwhile(i, waited[i]) else waited[i])
    {
      left := waited;
      if suspends {
        left := OtherTasks(meanwhile, waited);
      }
      assert forall i :: 0 <= i < |clients| ==> clients[i] in clients && left[i] == clients[i].State();
      if suspends && interrupted {
        assert forall c :: c in clients ==> exists i :: 0 <= i < |clients| && clients[i] == c;
      } else {
        Cleanup(id);
      }
    }

    /** The finally block awaits the tasks still listed before it withdraws the id; with an empty
        list it does not suspend. If the caller is cancelled at that await (`interrupted`) the
        withdrawal is skipped. So at the end no client holds the message id exactly if that did
        not happen, or other tasks had dropped it everywhere. `others` and `meanwhile` say what
        other tasks do to the queues during the waits and during that await; the call itself
        touches no queue but its own. The result is the message's length exactly when some client
        got its ack; an empty message therefore always looks unsent. */
    method Send(msg: Bytes, id: QueueId, now: real, fates: seq<Fate>, cancelled: set<nat> -> bool,
                others: (nat, Client) -> Client, meanwhile: (nat, Client) -> Client, interrupted: bool)
      returns (out: Outcome, ghost trail: Trail)
      requires |fates| == |clients|
      modifies clients, set c | c in clients :: c.sent
      ensures clients == old(clients) && |trail.queued| == |trail.waited| == |trail.left| == |clients|
      ensures (forall c :: c in clients ==> id !in c.msgs)
              <==> !(interrupted && trail.suspended) || forall i :: 0 <= i < |clients| ==> id !in trail.left[i].msgs
      ensures GotMessage(clients, old(States()), trail.queued, now, msg, dest, id)
      ensures Distinct(clients) ==>
                forall i :: 0 <= i < |clients| ==>
                  var t := trail.waited[i];
                  && SameQueues(t, others(i, trail.queued[i]))
                  && SameQueues(trail.left[i], if trail.suspended then meanwhile(i, t) else t)
      ensures forall i :: 0 <= i < |clients| ==>
                var t := trail.left[i];
                SameQueues(clients[i].State(), if interrupted && trail.suspended then t else t.(msgs := t.msgs - {id}))
      ensures interrupted && trail.suspended ==> out.Escaped?
      ensures out.Returned? ==> out.n == if ValidIds(id, dest) && SomeEnds(Acked, fates) then |msg| else 0
      ensures !trail.suspended <==> out.Returned? && !(ValidIds(id, dest) && SomeEnds(Acked, fates))
      ensures out.Escaped? && !(interrupted && trail.suspended) ==> SomeEnds(Raised, fates) || Ever(cancelled)
    {
      var tasks: set<nat>;
      ghost var queued: seq<Client>;
      tasks, queued := QueueAll(msg, id, now);
      assert forall i :: 0 <= i < |clients| ==> clients[i] in clients;
      hide GotMessage, SameQueues, Distinct, IsStates;
      ghost var waited := OtherTasks(others, queued);
      hide ValidIds, SomeEnds, Ever;
      var listed: set<nat>;
      out, listed := WaitForAcks(tasks, fates, |msg|, cancelled, ValidIds(id, dest));
      ghost var left := Withdraw(id, listed != {}, meanwhile, interrupted, waited);
      trail := Trail(queued, waited, left, listed != {});
      if listed != {} && interrupted {
        out := Escaped;
      }
    }
  }

  /** A cancellation that reaches the call after its ack has come, while it cleans up: the call
      ends and the message stays queued. */
  method InterruptedSendKeepsId(p: Pipe, msg: Bytes, id: QueueId, now: real) returns (out: Outcome)
    requires |p.clients| == 1 && ValidIds(id, p.dest)
    modifies p.clients, set c | c in p.clients :: c.sent
    ensures out == Escaped && p.clients == old(p.clients) && id in p.clients[0].msgs
  {
    ghost var trail;
    var fates := [Acked];
    assert fates[0] == Acked && Distinct(p.clients);
    out, trail := p.Send(msg, id, now, fates, w => false, (i, c) => c, (i, c) => c, true);
    assert p.clients[0] in p.clients;
  }

  /** The waits run over every client or over none. */
  lemma SomeAcked(tasks: set<nat>, fates: seq<Fate>, all: bool)
    requires forall k: nat :: k in tasks <==> k < |fates| && all
    ensures (exists i :: i in tasks && fates[i] == Acked) <==> all && SomeEnds(Acked, fates)
    ensures (exists i :: i in tasks && fates[i] == Raised) ==> SomeEnds(Raised, fates)
  {
    if all && SomeEnds(Acked, fates) {
      var i :| 0 <= i < |fates| && fates[i] == Acked;
      assert i in tasks;
    }
  }

  /** No client twice. */
  ghost predicate Distinct(cs: seq<Mqtt>) { forall i, j :: 0 <= i < j < |cs| ==> cs[i] != cs[j] }

  /** Nor two that share a table of contents they have sent. */
  ghost predicate Separate(cs: seq<Mqtt>) {
    forall i, j :: 0 <= i < j < |cs| ==> cs[i] != cs[j] && cs[i].sent != cs[j].sent
  }

  /** A client after queue_msg. */
  function Queueing(c: Client, self: Key, now: real, msg: Bytes, dest: Key, id: QueueId): Client {
    match OrderedSend(c, self, now, msg, dest, id, MSG, None)
    case BadId => c
    case Queued(client, _, _) => client
  }

  /** The entry is this message for this peer, and waits for its ack. */
  predicate IsMessage(m: Meta, id: QueueId, self: Key, dest: Key, msg: Bytes) {
    && m.ack == Pending && m.dest == dest && !m.oneShot && m.out.kind.MSG?
    && m.out.src == self && m.out.queueId == id && m.out.msg == msg
  }

  /** What the queue has more than before is this message, and what it had is as it was. */
  ghost predicate OnlyMessage(before: Queues, after: Queues, id: QueueId, self: Key, dest: Key, msg: Bytes) {
    && (forall n: nat :: Has(before, id, n) ==> Has(after, id, n) && after[id][n] == before[id][n])
    && (forall n: nat :: Has(after, id, n) && !Has(before, id, n) ==> IsMessage(after[id][n], id, self, dest, msg))
  }

  ghost predicate GainedOne(before: Queues, after: Queues, id: QueueId) {
    exists n: nat :: Has(after, id, n) && !Has(before, id, n)
  }

  /** A client after queue_msg, as the queueing function has it. */
  lemma QueueingIs(c: Client, self: Key, now: real, msg: Bytes, dest: Key, id: QueueId)
    ensures var r := OrderedSend(c, self, now, msg, dest, id, MSG, None);
            && (r.BadId? <==> !ValidIds(id, dest))
            && Queueing(c, self, now, msg, dest, id) == if r.Queued? then r.client else c
  {
    RefusedExactly(c, self, now, msg, dest, id, MSG, None);
    hide OrderedSend;
  }

  lemma NumberUnused(c: Client, self: Key, now: real, msg: Bytes, dest: Key, id: QueueId)
    requires ValidIds(id, dest)
    ensures var r := OrderedSend(c, self, now, msg, dest, id, MSG, None); r.Queued? && !Has(c.msgs, id, r.seqNo)
  {
    FreshNumber(c, self, now, msg, dest, id, MSG);
    hide OrderedSend;
  }

  /** Each client of the pipe has got this message for the peer under the id (if the ids are
      valid), and nothing else has changed; a client named once is as queue_msg leaves it. */
  ghost predicate GotMessage(cs: seq<Mqtt>, first: seq<Client>, queued: seq<Client>, now: real, msg: Bytes, dest: Key,
                             id: QueueId)
  {
    && |first| == |queued| == |cs|
    && (forall i :: 0 <= i < |cs| ==> Touched(first[i], queued[i], id, cs[i].key, dest, msg))
    && (ValidIds(id, dest) ==> forall i :: 0 <= i < |cs| ==> GainedOne(first[i].msgs, queued[i].msgs, id))
    && (Separate(cs) ==> forall i :: 0 <= i < |cs| ==> queued[i] == Queueing(first[i], cs[i].key, now, msg, dest, id))
  }

  lemma TouchedTables(c: Client, d: Client, id: QueueId, self: Key, dest: Key, msg: Bytes)
    ensures Touched(c.(sent := map[]), d.(sent := map[]), id, self, dest, msg) <==> Touched(c, d, id, self, dest, msg)
  {
  }

  /** The queues of a client. */
  function Tables(c: Mqtt): Client
    reads c
  {
    Client(c.msgs, c.acks, c.probes, map[])
  }

  /** Between the two the client has got this message under the id, any number of times, and
      nothing else has changed. */
  ghost predicate Touched(first: Client, after: Client, id: QueueId, self: Key, dest: Key, msg: Bytes) {
    && OnlyMessage(first.msgs, after.msgs, id, self, dest, msg)
    && after.msgs - {id} == first.msgs - {id} && after.acks == first.acks && after.probes == first.probes
  }

  lemma Untouched(id: QueueId, dest: Key, msg: Bytes)
    ensures forall c, self :: Touched(c, c, id, self, dest, msg)
  {
  }

  lemma TouchedAgain(first: Client, c: Client, self: Key, now: real, msg: Bytes, dest: Key, id: QueueId)
    requires Touched(first, c.(sent := map[]), id, self, dest, msg)
    ensures var d := Queueing(c, self, now, msg, dest, id);
            && Touched(first, d.(sent := map[]), id, self, dest, msg)
            && (ValidIds(id, dest) ==> GainedOne(first.msgs, d.msgs, id))
  {
    hide OrderedSend, Queueing, OnlyMessage, GainedOne;
    QueueingIs(c, self, now, msg, dest, id);
    OnlyOneQueue(c, self, now, msg, dest, id);
    MessageAdded(first.msgs, c, self, now, msg, dest, id);
  }

  lemma MessageAdded(first: Queues, c: Client, self: Key, now: real, msg: Bytes, dest: Key, id: QueueId)
    requires OnlyMessage(first, c.msgs, id, self, dest, msg)
    ensures OnlyMessage(first, Queueing(c, self, now, msg, dest, id).msgs, id, self, dest, msg)
    ensures ValidIds(id, dest) ==> GainedOne(first, Queueing(c, self, now, msg, dest, id).msgs, id)
  {
    hide OrderedSend, Queueing;
    QueueingIs(c, self, now, msg, dest, id);
    if ValidIds(id, dest) {
      NumberUnused(c, self, now, msg, dest, id);
      QueuesExactly(c, self, now, msg, dest, id, MSG, None);
      var r := OrderedSend(c, self, now, msg, dest, id, MSG, None);
      Added(first, c.msgs, r.client.msgs, id, r.seqNo, r.client.msgs[id][r.seqNo], self, dest, msg);
    }
  }

  lemma Added(first: Queues, before: Queues, after: Queues, id: QueueId, n: nat, m: Meta, self: Key, dest: Key,
              msg: Bytes)
    requires OnlyMessage(first, before, id, self, dest, msg) && AddsOne(before, after, id, n, m)
    requires !Has(before, id, n) && IsMessage(m, id, self, dest, msg)
    ensures OnlyMessage(first, after, id, self, dest, msg) && GainedOne(first, after, id)
  {
    hide IsMessage;
    assert Has(after, id, n) && !Has(first, id, n);
  }

  predicate SameQueues(c: Client, d: Client) { c.msgs == d.msgs && c.acks == d.acks && c.probes == d.probes }

  lemma OnlyOneQueue(c: Client, self: Key, now: real, msg: Bytes, dest: Key, id: QueueId)
    ensures var r := OrderedSend(c, self, now, msg, dest, id, MSG, None);
            && (r.Queued? <==> ValidIds(id, dest))
            && (r.Queued? ==> id in r.client.msgs)
            && (r.Queued? ==>
                  r.client.msgs - {id} == c.msgs - {id} && r.client.acks == c.acks && r.client.probes == c.probes)
  {
  }
}
