/** The application protocol's data: packets, queued messages and a client's queues. */
module Messages {
  import opened Basics

  type Key = string      // a hex public key; also the topic its owner subscribes to
  type QueueId = string  // a hex queue id

  datatype Kind = MSG | MSGACK | PROBE

  datatype Packet = Packet(src: Key, queueId: QueueId, seqNo: nat, timestamp: int, kind: Kind, msg: Bytes)

  /** `ByAck` and `ByDequeue` are both "done"; the difference is who resolved it. */
  datatype Future = Pending | ByAck | ByDequeue

  datatype Meta = Meta(ack: Future, dest: Key, seqNo: nat, out: Packet,
                       updated: real, created: real, attempts: nat, oneShot: bool)

  type Queue = map<nat, Meta>
  type Queues = map<QueueId, Queue>

  /** Content digests with the time they were recorded. SHA-256 is taken to be injective,
      so a content stands for its own digest. */
  type Stamps = map<Bytes, real>

  datatype Client = Client(msgs: Queues, acks: Queues, probes: Queues, sent: Stamps) {
    function Of(kind: Kind): Queues {
      match kind case MSG => msgs case MSGACK => acks case PROBE => probes
    }

    function With(kind: Kind, qs: Queues): (c: Client)
      ensures c.Of(kind) == qs && c.sent == sent
      ensures forall other :: other != kind ==> c.Of(other) == Of(other)
    {
      match kind case MSG => this.(msgs := qs) case MSGACK => this.(acks := qs) case PROBE => this.(probes := qs)
    }
  }

  const EMPTY := Client(map[], map[], map[], map[])

  predicate Has(qs: Queues, id: QueueId, seqNo: nat) { id in qs && seqNo in qs[id] }

  /** `qs` with one entry set; the queue is created if need be. */
  function Put(qs: Queues, id: QueueId, seqNo: nat, m: Meta): Queues {
    qs[id := (if id in qs then qs[id] else map[])[seqNo := m]]
  }

  predicate IsMax(s: set<nat>, m: nat) { m in s && forall k :: k in s ==> k <= m }

  lemma MaxExists(s: set<nat>) returns (m: nat)
    requires s != {}
    ensures IsMax(s, m)
  {
    m :| m in s;
    if s != {m} {
      var other := MaxExists(s - {m});
      assert forall k :: k in s ==> k == m || k in s - {m};
      if other > m {
        m := other;
      }
    }
  }

  function MaxOf(s: set<nat>): (m: nat)
    requires s != {}
    ensures IsMax(s, m)
  {
    assert exists m :: IsMax(s, m) by { var m := MaxExists(s); }
    var m :| IsMax(s, m);
    m
  }

  /** The queue holds exactly the numbers below `n`. */
  ghost predicate Numbered(q: Queue, n: nat) { forall k: nat :: k in q <==> k < n }

  /** One past the highest sequence number in use. */
  function NextSeq(q: Queue): (n: nat)
    ensures n !in q && forall k :: k in q ==> k < n
    ensures forall size: nat :: Numbered(q, size) ==> n == size
  {
    assert forall size: nat :: Numbered(q, size) && size > 0 ==> size - 1 in q;
    if q.Keys == {} then 0 else MaxOf(q.Keys) + 1
  }
}
