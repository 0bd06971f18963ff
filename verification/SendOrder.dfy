/** Successive sends of one sender to one peer. Each draws a fresh queue id, so the order of one
    queue says nothing about them; what orders them is that each is awaited. */
module SendOrder {
  import opened Basics
  import opened Messages
  import opened ClientOps
  import opened Delivery
  import opened SendMeaning
  import SmartPipe

  /** One call of send, with all that happens until the next one: its id and content, the clients
      it queues on, how its waits end and what it returns. */
  datatype Call = Call(id: QueueId, m: Bytes, cs: seq<Cid>, during: seq<Event>, fates: seq<SmartPipe.Fate>,
                       out: SmartPipe.Outcome)

  function Events(call: Call, peer: Key): seq<Event> { QueueAll(call.cs, call.id, peer, call.m) + call.during }

  function Flat(calls: seq<Call>, peer: Key): seq<Event> {
    if calls == [] then [] else Flat(calls[..|calls| - 1], peer) + Events(calls[|calls| - 1], peer)
  }

  /** Nobody has published the content to the peer. */
  ghost predicate NeverSent(s: Sys, peer: Key, m: Bytes) {
    forall w :: w in s.net && w.topic == peer && w.pkt.kind.MSG? ==> w.pkt.msg != m
  }

  /** The call starts after these events, with a fresh id and a content the peer has not been
      sent; the id stays private, and the result is what the ends of the waits make it. */
  ghost predicate Made(s: Sys, a: Key, peer: Key, before: seq<Event>, call: Call) {
    && Unused(Run(s, before), a, call.id) && NeverSent(Run(s, before), peer, call.m)
    && AllPrivate(call.during, a, call.id, peer, call.m) && (forall c :: c in call.cs ==> c.node == a)
    && FatesOf(s, before + Events(call, peer), |before|, call.cs, call.id, call.fates)
    && SendReturns(call.id, peer, call.m, call.fates, call.out)
  }

  /** The sender makes its calls one after the other. */
  ghost predicate InTurn(s: Sys, a: Key, peer: Key, before: seq<Event>, calls: seq<Call>) {
    forall k :: 0 <= k < |calls| ==> Made(s, a, peer, before + Flat(calls[..k], peer), calls[k])
  }

  lemma {:induction false} RunExtends(s: Sys, run: seq<Event>, more: seq<Event>)
    ensures Extends(Run(s, run), Run(s, run + more))
    decreases |more|
  {
    hide Step;
    if more == [] {
      assert run + more == run;
    } else {
      var init, last := more[..|more| - 1], more[|more| - 1];
      RunExtends(s, run, init);
      StepExtends(Run(s, run + init), last);
      RunAppend(s, run + init, last);
      assert run + more == run + init + [last];
    }
  }

  lemma {:induction false} FlatSplits(calls: seq<Call>, k: nat, peer: Key) returns (more: seq<Event>)
    requires k <= |calls|
    ensures Flat(calls, peer) == Flat(calls[..k], peer) + more
    decreases |calls|
  {
    if k == |calls| {
      assert calls[..k] == calls;
      more := [];
    } else {
      var last := |calls| - 1;
      more := FlatSplits(calls[..last], k, peer);
      assert calls[..last][..k] == calls[..k];
      more := more + Events(calls[last], peer);
    }
  }

  /** A content that was never sent was never handled. */
  lemma NotYetHandled(s: Sys, run: seq<Event>, peer: Key, m: Bytes)
    requires Initial(s) && NeverSent(Run(s, run), peer, m)
    ensures !Handled(Run(s, run), peer, m)
  {
    RunKeepsChain(s, run);
    var t := Run(s, run);
    hide Run;
    forall f | f in t.log ensures !(f.node == peer && f.pkt.msg == m) {
      var i :| 0 <= i < |t.log| && t.log[i] == f;
      var w :| w in t.net && w.topic == f.node && w.pkt == f.pkt;
    }
  }

  lemma MadeMeansHandled(s: Sys, a: Key, peer: Key, start: seq<Event>, call: Call)
    requires Initial(s) && Made(s, a, peer, start, call) && call.out.n != 0
    ensures Handled(Run(s, start + Events(call, peer)), peer, call.m)
  {
    hide Run, Handled, Unused, NeverSent, AllPrivate, FatesOf, SendReturns, Accepted, Initial;
    NonzeroMeansAccepted(s, start, call.during, a, call.id, peer, call.m, call.cs, call.fates, call.out);
  }

  /** A nonzero send has had its content handled by the time the next one starts. */
  lemma HandledByThen(s: Sys, a: Key, peer: Key, before: seq<Event>, calls: seq<Call>, i: nat)
    requires Initial(s) && InTurn(s, a, peer, before, calls) && i < |calls| && calls[i].out.n != 0
    ensures Handled(Run(s, before + Flat(calls[..i + 1], peer)), peer, calls[i].m)
  {
    hide Run, Handled, Made, Events;
    var call, start := calls[i], before + Flat(calls[..i], peer);
    assert Made(s, a, peer, start, call);
    MadeMeansHandled(s, a, peer, start, call);
    assert calls[..i + 1][..i] == calls[..i];
    assert start + Events(call, peer) == before + Flat(calls[..i + 1], peer);
  }

  /** Where handler calls stand in the log of a longer run. */
  lemma LogOrder(s: Sys, t: Sys, peer: Key, m: Bytes, next: Bytes, q: nat)
    requires Extends(s, t) && Handled(s, peer, m) && !Handled(s, peer, next)
    requires q < |t.log| && t.log[q].node == peer && t.log[q].pkt.msg == next
    ensures exists p :: 0 <= p < q && t.log[p].node == peer && t.log[p].pkt.msg == m
  {
    var f :| f in s.log && f.node == peer && f.pkt.msg == m;
    var p :| 0 <= p < |s.log| && s.log[p] == f;
    assert t.log[p] == f;
    assert forall k :: 0 <= k < |s.log| ==> s.log[k] in s.log && t.log[k] == s.log[k];
  }

  /** In every run in which a sender makes its sends to a peer one after the other, with fresh
      contents: each handler call for the content of a later send comes after one for the content
      of every earlier send that returned nonzero. */
  lemma SendsInOrder(s: Sys, a: Key, peer: Key, before: seq<Event>, calls: seq<Call>, after: seq<Event>,
                     i: nat, j: nat, q: nat)
    requires Initial(s) && InTurn(s, a, peer, before, calls) && i < j < |calls| && calls[i].out.n != 0
    requires var log := Run(s, before + Flat(calls, peer) + after).log;
             q < |log| && log[q].node == peer && log[q].pkt.msg == calls[j].m
    ensures var log := Run(s, before + Flat(calls, peer) + after).log;
            exists p :: 0 <= p < q && log[p].node == peer && log[p].pkt.msg == calls[i].m
  {
    hide Run, Flat, Made, Handled, Extends, NeverSent;
    var start := before + Flat(calls[..j], peer);
    var more := FlatSplits(calls, j, peer);
    assert before + Flat(calls, peer) + after == start + (more + after);
    RunExtends(s, start, more + after);
    HandledByThen(s, a, peer, before, calls, i);
    var mid := FlatSplits(calls[..j], i + 1, peer);
    assert calls[..j][..i + 1] == calls[..i + 1];
    assert start == before + Flat(calls[..i + 1], peer) + mid;
    RunExtends(s, before + Flat(calls[..i + 1], peer), mid);
    HandledStays(Run(s, before + Flat(calls[..i + 1], peer)), Run(s, start), peer, calls[i].m);
    StartsFresh(s, a, peer, before, calls, j);
    LogOrder(Run(s, start), Run(s, start + (more + after)), peer, calls[i].m, calls[j].m, q);
  }

  lemma HandledStays(s: Sys, t: Sys, peer: Key, m: Bytes)
    requires Extends(s, t) && Handled(s, peer, m)
    ensures Handled(t, peer, m)
  {
    ExtendsKeeps(s, t);
  }

  lemma StartsFresh(s: Sys, a: Key, peer: Key, before: seq<Event>, calls: seq<Call>, j: nat)
    requires Initial(s) && InTurn(s, a, peer, before, calls) && j < |calls|
    ensures !Handled(Run(s, before + Flat(calls[..j], peer)), peer, calls[j].m)
  {
    hide Run, Handled, NeverSent, Flat;
    assert Made(s, a, peer, before + Flat(calls[..j], peer), calls[j]);
    NotYetHandled(s, before + Flat(calls[..j], peer), peer, calls[j].m);
  }
}
