/** Packet identifiers (MQTT 3.1.1, section 2.3.1) and the tables of futures that wait for
    the broker's PUBACK and SUBACK. Futures are numbered in order of creation; a table maps
    an id to the number of the future registered under it. */
module InFlight {
  import opened Basics

  const IDS: nat := 65535

  datatype AckKind = Puback | Suback

  datatype FutureState = Pending | Resolved(payload: Bytes) | Cancelled

  datatype Future = Future(kind: AckKind, id: Bytes, state: FutureState)

  type Table = map<Bytes, nat>

  datatype Session = Session(counter: nat, puback: Table, suback: Table, futures: seq<Future>) {
    function TableOf(kind: AckKind): Table { if kind.Puback? then puback else suback }

    function WithTable(kind: AckKind, t: Table): Session {
      if kind.Puback? then this.(puback := t) else this.(suback := t)
    }

    predicate InUse(id: Bytes) { id in puback || id in suback }
  }

  const FRESH := Session(0, map[], map[], [])

  function Id(n: nat): (id: Bytes) { BigEndian(n, 2) }

  function Successor(counter: nat): (n: nat)
    ensures 1 <= n <= IDS
  {
    counter % IDS + 1
  }

  /** The id reached after `k` advances of the counter. */
  function Nth(counter: nat, k: nat): (n: nat)
    requires k >= 1
  {
    (counter + k - 1) % IDS + 1
  }

  /** The search loop: the first free id among the next `tries`, else nothing. */
  function FirstFree(s: Session, counter: nat, tries: nat): Option<nat>
    decreases tries, counter
  {
    if tries == 0 then None
    else if !s.InUse(Id(Successor(counter))) then Some(Successor(counter))
    else FirstFree(s, Successor(counter), tries - 1)
  }

  /** `n` is what `k` advances reach, and everything passed on the way is in use. */
  ghost predicate FirstAt(s: Session, counter: nat, tries: nat, n: nat, k: nat) {
    1 <= k <= tries && n == Nth(counter, k) && forall j :: 1 <= j < k ==> s.InUse(Id(Nth(counter, j)))
  }

  lemma {:induction false} FirstFreeExactly(s: Session, counter: nat, tries: nat)
    ensures var r := FirstFree(s, counter, tries);
            && (r == None ==> forall k :: 1 <= k <= tries ==> s.InUse(Id(Nth(counter, k))))
            && (r.Some? ==> !s.InUse(Id(r.value)) && exists k: nat :: FirstAt(s, counter, tries, r.value, k))
    decreases tries
  {
    if tries > 0 {
      var next := Successor(counter);
      assert Nth(counter, 1) == next;
      if s.InUse(Id(next)) {
        FirstFreeExactly(s, next, tries - 1);
        forall k: nat | 2 <= k <= tries ensures Nth(counter, k) == Nth(next, k - 1) {
          NthShift(counter, k);
        }
        var r := FirstFree(s, next, tries - 1);
        if r.Some? {
          var k: nat :| FirstAt(s, next, tries - 1, r.value, k);
          assert Nth(counter, k + 1) == Nth(next, k);
          forall j: nat | 1 <= j < k + 1 ensures s.InUse(Id(Nth(counter, j))) {
            assert j > 1 ==> Nth(counter, j) == Nth(next, j - 1);
          }
          assert FirstAt(s, counter, tries, r.value, k + 1);
        }
      } else {
        assert FirstAt(s, counter, tries, next, 1);
      }
    }
  }

  lemma NthShift(counter: nat, k: nat)
    requires k >= 2
    ensures Nth(counter, k) == Nth(Successor(counter), k - 1)
  {
    var q := counter / IDS;
    assert counter + k - 1 == IDS * q + (counter % IDS + k - 1);
    assert (IDS * q + (counter % IDS + k - 1)) % IDS == (counter % IDS + k - 1) % IDS;
  }

  /** The wrapping counter visits every id of 1..65535 exactly once in 65535 advances. */
  lemma EveryIdOnce(counter: nat, n: nat)
    requires 1 <= n <= IDS
    ensures exists k :: 1 <= k <= IDS && Nth(counter, k) == n
    ensures forall j, k :: 1 <= j < k <= IDS ==> Nth(counter, j) != Nth(counter, k)
  {
    var q, at := counter / IDS, counter % IDS;
    var k := if n - 1 >= at then n - at else n - at + IDS;
    if n - 1 >= at { Remainder(counter + k - 1, q, n - 1); } else { Remainder(counter + k - 1, q + 1, n - 1); }
    assert Nth(counter, k) == n;
    forall j, k | 1 <= j < k <= IDS ensures Nth(counter, j) != Nth(counter, k) {
      NthAt(counter, q, at, j);
      NthAt(counter, q, at, k);
      hide Nth;
    }
  }

  lemma Remainder(x: nat, q: nat, r: nat)
    requires x == IDS * q + r && r < IDS
    ensures x % IDS == r
  {
  }

  /** The wrap comes at most once in a round. */
  lemma NthAt(counter: nat, q: nat, at: nat, k: nat)
    requires counter == IDS * q + at && at < IDS && 1 <= k <= IDS
    ensures Nth(counter, k) == if at + k <= IDS then at + k else at + k - IDS
  {
    if at + k <= IDS {
      Remainder(counter + k - 1, q, at + k - 1);
    } else {
      Remainder(counter + k - 1, q + 1, at + k - 1 - IDS);
    }
  }

  /** Allocation fails only when all 65535 ids are in flight, and otherwise returns the first
      free id in cyclic order, whatever the counter. */
  lemma AllocatorComplete(s: Session)
    ensures var r := FirstFree(s, s.counter, IDS);
            && (r == None <==> forall n :: 1 <= n <= IDS ==> s.InUse(Id(n)))
            && (r.Some? ==>
                  1 <= r.value <= IDS && !s.InUse(Id(r.value)) && exists k: nat ::
                  FirstAt(s, s.counter, IDS, r.value, k))
  {
    FirstFreeExactly(s, s.counter, IDS);
    if FirstFree(s, s.counter, IDS) == None {
      forall n | 1 <= n <= IDS ensures s.InUse(Id(n)) {
        EveryIdOnce(s.counter, n);
        var k :| 1 <= k <= IDS && Nth(s.counter, k) == n;
      }
    }
  }

  // ---- steps of a session -------------------------------------------------------------------

  datatype Event =
    | Register(kind: AckKind)                  // publish or subscribe
    | BrokerAck(kind: AckKind, body: Bytes)
    | CallerCancels(future: nat)               // a timed-out wait cancels the future it waits for
    | Reconnect                                // utils.reset_session_state
    | ResetClient                              // MQTTClient.reset_session_state

  /** packet_ack_future; an exhausted allocator raises and leaves no trace in the tables. */
  function OnRegister(s: Session, kind: AckKind): Session {
    match FirstFree(s, s.counter, IDS)
    case None => s.(counter := Exhausted(s.counter, IDS))
    case Some(n) =>
      s.WithTable(kind, s.TableOf(kind)[Id(n) := |s.futures|]).(counter := n,
        futures := s.futures + [Future(kind, Id(n), Pending)])
  }

  /** Where the counter stands after `tries` failed attempts. */
  function Exhausted(counter: nat, tries: nat): nat
    decreases tries, counter
  {
    if tries == 0 then counter else Exhausted(Successor(counter), tries - 1)
  }

  function AckId(body: Bytes): Bytes { body[..Min(2, |body|)] }

  function AckPayload(kind: AckKind, body: Bytes): Bytes {
    if kind.Suback? then body[Min(2, |body|)..] else []
  }

  predicate Registered(s: Session, kind: AckKind, id: Bytes) {
    id in s.TableOf(kind) && s.TableOf(kind)[id] < |s.futures|
  }

  function OnBrokerAck(s: Session, kind: AckKind, body: Bytes): Session {
    var id := AckId(body);
    if !Registered(s, kind, id) then s
    else
      var f := s.TableOf(kind)[id];
      if !s.futures[f].state.Pending? then s
      else s.WithTable(kind, s.TableOf(kind) - {id})
            .(futures := s.futures[f := s.futures[f].(state := Resolved(AckPayload(kind, body)))])
  }

  function CancelIfPending(f: Future): Future {
    if f.state.Pending? then f.(state := Cancelled) else f
  }

  /** Cancel every pending future some table mentions. */
  function CancelIn(futures: seq<Future>, t: Table): (r: seq<Future>)
    ensures |r| == |futures|
    ensures forall i :: 0 <= i < |futures| ==> r[i] == if i in t.Values then CancelIfPending(futures[i]) else futures[i]
  {
    seq(|futures|, i requires 0 <= i < |futures| => if i in t.Values then CancelIfPending(futures[i]) else futures[i])
  }

  function DropAll(s: Session): Session {
    s.(puback := map[], suback := map[], futures := CancelIn(CancelIn(s.futures, s.suback), s.puback))
  }

  function Step(s: Session, e: Event): Session {
    match e
    case Register(kind) => OnRegister(s, kind)
    case BrokerAck(kind, body) => OnBrokerAck(s, kind, body)
    case CallerCancels(f) => if f < |s.futures| then s.(futures := s.futures[f := CancelIfPending(s.futures[f])]) else s
    case Reconnect => DropAll(s).(counter := 0)
    case ResetClient => DropAll(s)
  }

  function After(s: Session, events: seq<Event>): Session {
    if events == [] then s else Step(After(s, events[..|events| - 1]), events[|events| - 1])
  }

  // ---- what every run keeps ------------------------------------------------------------------

  ghost predicate EntryOk(f: Future, kind: AckKind, id: Bytes) { f.kind == kind && f.id == id && !f.state.Resolved? }

  ghost predicate TableOk(t: Table, futures: seq<Future>, kind: AckKind) {
    forall id :: id in t ==> t[id] < |futures| && EntryOk(futures[t[id]], kind, id)
  }

  /** No id is in two tables; a table entry is an unresolved future of that id and kind; and
      every pending future is in its table, so nothing from before a reset is still pending. */
  ghost predicate Inv(s: Session) {
    && TableOk(s.puback, s.futures, Puback) && TableOk(s.suback, s.futures, Suback)
    && s.puback.Keys !! s.suback.Keys
    && forall i :: 0 <= i < |s.futures| && s.futures[i].state.Pending? ==>
         var f := s.futures[i]; f.id in s.TableOf(f.kind) && s.TableOf(f.kind)[f.id] == i
  }

  lemma InsertKeepsInv(s: Session, kind: AckKind, id: Bytes, counter: nat)
    requires Inv(s) && !s.InUse(id)
    ensures Inv(s.WithTable(kind, s.TableOf(kind)[id := |s.futures|])
                 .(counter := counter, futures := s.futures + [Future(kind, id, Pending)]))
  {
  }

  lemma {:induction false} RegisterKeepsInv(s: Session, kind: AckKind)
    requires Inv(s)
    ensures Inv(OnRegister(s, kind))
  {
    hide FirstFree, Exhausted, Id;
    FirstFreeExactly(s, s.counter, IDS);
    var r := FirstFree(s, s.counter, IDS);
    if r.Some? {
      InsertKeepsInv(s, kind, Id(r.value), r.value);
    }
  }

  lemma BrokerAckKeepsInv(s: Session, kind: AckKind, body: Bytes)
    requires Inv(s)
    ensures Inv(OnBrokerAck(s, kind, body))
  {
    hide AckId, AckPayload;
  }

  lemma {:induction false} StepKeepsInv(s: Session, e: Event)
    requires Inv(s)
    ensures Inv(Step(s, e))
  {
    hide OnRegister, OnBrokerAck;
    match e
    case Register(kind) => RegisterKeepsInv(s, kind);
    case BrokerAck(kind, body) => BrokerAckKeepsInv(s, kind, body);
    case CallerCancels(f) =>
    case Reconnect => AllPendingCancelled(s);
    case ResetClient => AllPendingCancelled(s);
  }

  lemma AllPendingCancelled(s: Session)
    requires Inv(s)
    ensures forall i :: 0 <= i < |s.futures| ==> DropAll(s).futures[i] == CancelIfPending(s.futures[i])
  {
    forall i | 0 <= i < |s.futures| && s.futures[i].state.Pending?
      ensures i in s.puback.Values || i in s.suback.Values
    {
      var f := s.futures[i];
      assert s.TableOf(f.kind)[f.id] == i;
    }
  }

  lemma {:induction false} RunKeepsInv(events: seq<Event>)
    ensures Inv(After(FRESH, events))
  {
    if events != [] {
      RunKeepsInv(events[..|events| - 1]);
      StepKeepsInv(After(FRESH, events[..|events| - 1]), events[|events| - 1]);
    }
  }

  lemma {:induction false} IdsAreTwoBytes(events: seq<Event>)
    ensures var s := After(FRESH, events); forall id :: id in s.puback || id in s.suback ==> |id| == 2
  {
    hide FirstFree, Exhausted, CancelIn;
    if events != [] { IdsAreTwoBytes(events[..|events| - 1]); }
  }

  /** How one step may treat a future that exists already: leave it, or settle it once, by an
      ack of its own kind and id, by its own caller, or by a reset. */
  ghost predicate FairTo(before: Future, i: nat, e: Event, after: Future) {
    || after == before
    || (&& before.state.Pending? && after.kind == before.kind && after.id == before.id
        && match e
           case Register(_) => false
           case BrokerAck(kind, body) =>
             && kind == before.kind && |body| >= 2 && body[..2] == before.id
             && after.state == Resolved(if kind.Suback? then body[2..] else [])
           case CallerCancels(f) => f == i && after.state == Cancelled
           case _ => after.state == Cancelled)
  }

  /** Every future is settled at most once, and only by its own id and kind. */
  lemma {:induction false} EachFutureSettledByItsOwn(events: seq<Event>, e: Event)
    ensures var s := After(FRESH, events);
            var t := Step(s, e);
            && |s.futures| <= |t.futures|
            && (forall i :: 0 <= i < |s.futures| ==> FairTo(s.futures[i], i, e, t.futures[i]))
            && (e.Reconnect? || e.ResetClient? ==> forall i :: 0 <= i < |t.futures| ==> !t.futures[i].state.Pending?)
  {
    hide FirstFree, Exhausted, Id;
    var s := After(FRESH, events);
    RunKeepsInv(events);
    IdsAreTwoBytes(events);
    hide After;
    if e.Reconnect? || e.ResetClient? {
      AllPendingCancelled(s);
    }
  }

  /** A settled future never changes again, whatever acks arrive in later sessions. */
  lemma {:induction false} SettledForGood(events: seq<Event>, more: seq<Event>, i: nat)
    requires i < |After(FRESH, events).futures| && !After(FRESH, events).futures[i].state.Pending?
    ensures |After(FRESH, events + more).futures| > i
    ensures After(FRESH, events + more).futures[i] == After(FRESH, events).futures[i]
    decreases |more|
  {
    hide Step;
    if more == [] {
      assert events + more == events;
    } else {
      var init := more[..|more| - 1];
      SettledForGood(events, init, i);
      assert (events + more)[..|events + more| - 1] == events + init;
      EachFutureSettledByItsOwn(events + init, more[|more| - 1]);
      assert After(FRESH, events + more) == Step(After(FRESH, events + init), more[|more| - 1]);
    }
  }

  // acks of the broker, byte by byte

  /** The id `n` is two bytes on the wire, the more significant one first. */
  lemma IdBytes(n: nat)
    requires n <= IDS
    ensures Id(n) == [n / 256, n % 256]
  {
    TwoBytes(n);
  }

  /** What the broker's ack with this id resolves: the pending future of its kind and id. */
  predicate Awaits(s: Session, kind: AckKind, id: Bytes) {
    id in s.TableOf(kind) && s.TableOf(kind)[id] < |s.futures| && s.futures[s.TableOf(kind)[id]].state.Pending?
  }

  /** In every run an ack starts with the two bytes of the id it is for. If a future waits under
      that id for this kind of ack, it is resolved, with the rest as payload for a SUBACK, and
      its id is free; nothing else changes. Any other ack, also one of a single byte or none,
      changes nothing. */
  lemma BrokerAckExactly(events: seq<Event>, kind: AckKind, id: Bytes, payload: Bytes)
    requires |id| == 2 || payload == []
    ensures var s := After(FRESH, events);
            var t := Step(s, BrokerAck(kind, id + payload));
            if |id| == 2 && Awaits(s, kind, id) then
              var f := s.TableOf(kind)[id];
              && t.TableOf(kind) == s.TableOf(kind) - {id} && !t.InUse(id) && t.counter == s.counter
              && (forall other :: other != kind ==> t.TableOf(other) == s.TableOf(other))
              && |t.futures| == |s.futures|
              && t.futures[f] == Future(kind, id, Resolved(if kind.Suback? then payload else []))
              && (forall i :: 0 <= i < |s.futures| && i != f ==> t.futures[i] == s.futures[i])
            else |id| <= 2 ==> t == s
  {
    RunKeepsInv(events);
    IdsAreTwoBytes(events);
    hide After;
    var body := id + payload;
    if |id| == 2 {
      assert body[..2] == id && body[2..] == payload;
    } else {
      assert body == id;
    }
  }

  /** Register, then the ack of the id that was handed out: the future is resolved, and the
      tables are what they were. */
  lemma AckedIdIsFree(events: seq<Event>, kind: AckKind, payload: Bytes)
    requires FirstFree(After(FRESH, events), After(FRESH, events).counter, IDS).Some?
    ensures var s := After(FRESH, events);
            var n := FirstFree(s, s.counter, IDS).value;
            var id: Bytes := [n / 256 % 256, n % 256];
            var t := Step(Step(s, Register(kind)), BrokerAck(kind, id + payload));
            && !s.InUse(id) && t.puback == s.puback && t.suback == s.suback && t.counter == n
            && t.futures == s.futures + [Future(kind, id, Resolved(if kind.Suback? then payload else []))]
  {
    hide *;
    var s := After(FRESH, events);
    var n := FirstFree(s, s.counter, IDS).value;
    var id: Bytes := [n / 256 % 256, n % 256];
    FreeIsFree(s);
    IdBytes(n);
    assert Id(n) == id;
    Registers(s, kind, n);
    AfterOne(events, Register(kind));
    BrokerAckExactly(events + [Register(kind)], kind, id, payload);
    var u := Step(s, Register(kind));
    Undone(s, u, Step(u, BrokerAck(kind, id + payload)), kind, id, if kind.Suback? then payload else []);
  }

  lemma Undone(s: Session, u: Session, t: Session, kind: AckKind, id: Bytes, payload: Bytes)
    requires id !in s.TableOf(kind) && u.TableOf(kind) == s.TableOf(kind)[id := |s.futures|]
    requires forall other :: other != kind ==> u.TableOf(other) == s.TableOf(other)
    requires u.futures == s.futures + [Future(kind, id, Pending)]
    requires Awaits(u, kind, id) ==>
               && t.TableOf(kind) == u.TableOf(kind) - {id}
               && (forall other :: other != kind ==> t.TableOf(other) == u.TableOf(other))
               && |t.futures| == |u.futures| && t.futures[|s.futures|] == Future(kind, id, Resolved(payload))
               && (forall i :: 0 <= i < |u.futures| && i != |s.futures| ==> t.futures[i] == u.futures[i])
    ensures t.puback == s.puback && t.suback == s.suback
    ensures t.futures == s.futures + [Future(kind, id, Resolved(payload))]
  {
    assert Awaits(u, kind, id);
    assert t.TableOf(kind) == s.TableOf(kind);
    var other := if kind.Puback? then Suback else Puback;
    assert t.TableOf(other) == s.TableOf(other);
  }

  lemma FreeIsFree(s: Session)
    ensures var r := FirstFree(s, s.counter, IDS);
            r.Some? ==>
              && 1 <= r.value <= IDS && !s.InUse(Id(r.value))
              && Id(r.value) !in s.TableOf(Puback) && Id(r.value) !in s.TableOf(Suback)
  {
    AllocatorComplete(s);
  }

  lemma Registers(s: Session, kind: AckKind, n: nat)
    requires FirstFree(s, s.counter, IDS) == Some(n)
    ensures var u := Step(s, Register(kind));
            && u.TableOf(kind) == s.TableOf(kind)[Id(n) := |s.futures|] && u.counter == n
            && (forall other :: other != kind ==> u.TableOf(other) == s.TableOf(other))
            && u.futures == s.futures + [Future(kind, Id(n), Pending)]
  {
    hide FirstFree, Id;
  }

  lemma AfterOne(events: seq<Event>, e: Event)
    ensures After(FRESH, events + [e]) == Step(After(FRESH, events), e)
  {
    assert (events + [e])[..|events|] == events;
  }

  /** After either reset no id is in use and nothing waits; only the reconnect's starts counting
      anew. */
  lemma ResetFreesAll(events: seq<Event>, e: Event)
    requires e.Reconnect? || e.ResetClient?
    ensures var s := After(FRESH, events);
            var t := Step(s, e);
            && (forall id :: !t.InUse(id)) && |t.futures| == |s.futures|
            && (forall i :: 0 <= i < |s.futures| ==>
                  var f := s.futures[i];
                  t.futures[i] == if f.state.Pending? then f.(state := Cancelled) else f)
            && t.counter == if e.Reconnect? then 0 else s.counter
  {
    RunKeepsInv(events);
    AllPendingCancelled(After(FRESH, events));
    hide After;
  }

  /** An ack frees its id exactly when the future under it is still pending; then that entry
      and no other goes. A caller that gave up before the ack leaves the id in use until the
      next reset. */
  lemma AckFreesExactly(events: seq<Event>, kind: AckKind, body: Bytes)
    ensures var s := After(FRESH, events);
            var t := Step(s, BrokerAck(kind, body));
            var id := if |body| < 2 then body else body[..2];
            && (t == s || (t.TableOf(kind) == s.TableOf(kind) - {id} && id in s.TableOf(kind)
                           && forall other :: other != kind ==> t.TableOf(other) == s.TableOf(other)))
            && (t.InUse(id) <==>
                  s.InUse(id) && !(Registered(s, kind, id) && s.futures[s.TableOf(kind)[id]].state.Pending?))
  {
    var s := After(FRESH, events);
    RunKeepsInv(events);
    hide After;
    AckFrees(s, kind, body);
  }

  lemma AckFrees(s: Session, kind: AckKind, body: Bytes)
    requires Inv(s)
    ensures var t, id := OnBrokerAck(s, kind, body), if |body| < 2 then body else body[..2];
            && (t == s || (t.TableOf(kind) == s.TableOf(kind) - {id} && id in s.TableOf(kind)
                           && forall other :: other != kind ==> t.TableOf(other) == s.TableOf(other)))
            && (t.InUse(id) <==>
                  s.InUse(id) && !(Registered(s, kind, id) && s.futures[s.TableOf(kind)[id]].state.Pending?))
  {
    var id := if |body| < 2 then body else body[..2];
    assert AckId(body) == id by { assert body[..|body|] == body; }
    hide AckId, AckPayload;
  }

  /** A run that does it: the caller of the first publish gives up, the ack comes, and the id is
      still in use. */
  lemma AbandonedIdStaysInUse()
    ensures var run := [Register(Puback), CallerCancels(0), BrokerAck(Puback, Id(1))];
            var t := After(FRESH, run);
            t.InUse(Id(1)) && t.futures == [Future(Puback, Id(1), Cancelled)]
  {
    var run := [Register(Puback), CallerCancels(0), BrokerAck(Puback, Id(1))];
    var none: seq<Event> := [];
    assert run[..1][..0] == none && run[..2][..1] == run[..1] && run[..3] == run && run[..3][..2] == run[..2];
    FirstIdFree();
    hide FirstFree, Exhausted;
    assert After(FRESH, none) == FRESH;
    var one := After(FRESH, run[..1]);
    assert one.puback == map[Id(1) := 0] && one.futures == [Future(Puback, Id(1), Pending)];
    var two := After(FRESH, run[..2]);
    assert two == one.(futures := [Future(Puback, Id(1), Cancelled)]);
  }

  lemma FirstIdFree()
    ensures FirstFree(FRESH, FRESH.counter, IDS) == Some(1)
  {
  }

  // ---- the client's fields and methods ---------------------------------------------------------

  class PacketIds {
    var counter: nat
    var puback: Table
    var suback: Table
    var futures: seq<Future>

    function State(): Session
      reads this
    {
      Session(counter, puback, suback, futures)
    }

    constructor ()
      ensures State() == FRESH
    {
      counter, puback, suback, futures := 0, map[], map[], [];
    }

    method GetPacketId() returns (id: Option<Bytes>)
      modifies this`counter
      ensures var r := FirstFree(old(State()), old(counter), IDS);
              if r.Some? then id == Some(Id(r.value)) && counter == r.value
              else id == None && counter == Exhausted(old(counter), IDS)
    {
      ghost var s := State();
      var i := 0;
      while i < IDS
        invariant 0 <= i <= IDS
        invariant FirstFree(s, counter, IDS - i) == FirstFree(s, s.counter, IDS)
        invariant Exhausted(counter, IDS - i) == Exhausted(s.counter, IDS)
      {
        counter := counter % IDS + 1;
        var pid := Id(counter);
        if pid !in puback && pid !in suback {
          return Some(pid);
        }
        i := i + 1;
      }
      id := None;
    }

    method PacketAckFuture(kind: AckKind) returns (id: Option<Bytes>, future: nat)
      modifies this
      ensures State() == OnRegister(old(State()), kind)
      ensures id.Some? ==>
                |futures| == |old(futures)| + 1 && future == |old(futures)| &&
                futures[future] == Future(kind, id.value, Pending)
    {
      future := |futures|;
      id := GetPacketId();
      if id.Some? {
        if kind.Puback? {
          puback := puback[id.value := future];
        } else {
          suback := suback[id.value := future];
        }
        futures := futures + [Future(kind, id.value, Pending)];
      }
    }

    method HandleBrokerAck(kind: AckKind, body: Bytes)
      requires Inv(State())
      modifies this
      ensures State() == OnBrokerAck(old(State()), kind, body)
    {
      var id := body[..Min(2, |body|)];
      var table := if kind.Puback? then puback else suback;
      if id !in table {
        return;
      }
      var f := table[id];
      if !futures[f].state.Pending? {
        return;
      }
      futures := futures[f := futures[f].(state := Resolved(if kind.Suback? then body[Min(2, |body|)..] else []))];
      if kind.Puback? {
        puback := puback - {id};
      } else {
        suback := suback - {id};
      }
    }

    /** The inner loop of both resets. */
    method CancelTable(t: Table)
      requires forall id :: id in t ==> t[id] < |futures|
      modifies this`futures
      ensures futures == CancelIn(old(futures), t)
    {
      var todo := t.Keys;
      ghost var done: set<nat> := {};
      while todo != {}
        invariant todo <= t.Keys && |futures| == |old(futures)|
        invariant done == set id | id in t && id !in todo :: t[id]
        invariant forall i :: 0 <= i < |futures| ==>
                    futures[i] == if i in done then CancelIfPending(old(futures)[i]) else old(futures)[i]
        decreases todo
      {
        var id :| id in todo;
        futures := futures[t[id] := CancelIfPending(futures[t[id]])];
        done := done + {t[id]};
        todo := todo - {id};
      }
      assert done == t.Values;
    }

    method ResetSessionState(newPipe: bool)
      requires Inv(State())
      modifies this
      ensures State() == Step(old(State()), if newPipe then Reconnect else ResetClient)
    {
      CancelTable(suback);
      CancelTable(puback);
      puback, suback := map[], map[];
      if newPipe {
        counter := 0;
      }
    }
  }
}
