/** The dispatcher's rule for one entry: when it is published again, for every jitter and every
    schedule of scans. */
module Dispatch {
  import opened Basics
  import opened Messages
  import opened ClientOps

  /** interval, republish_duration and ignore_acked, fixed for the life of a dispatcher. */
  datatype Config = Config(interval: real, duration: nat, ignoreAcked: bool)

  ghost predicate Sane(cfg: Config) { cfg.interval > 0.0 }

  function Pow2(n: nat): (p: real)
    ensures p >= 1.0
  {
    if n == 0 then 1.0 else 2.0 * Pow2(n - 1)
  }

  function Cap(cfg: Config): real { Min(60, cfg.duration) as real }

  /** interval * 2^attempts, capped. */
  function Backoff(cfg: Config, attempts: nat): real {
    var b := cfg.interval * Pow2(attempts);
    if b <= Cap(cfg) then b else Cap(cfg)
  }

  /** What random.uniform(0, backoff) may return. */
  predicate Jitter(cfg: Config, m: Meta, jitter: real) { 0.0 <= jitter <= Backoff(cfg, m.attempts) }

  /** The entry is one the loop may send at all at scan time `now`. */
  predicate Eligible(cfg: Config, m: Meta, now: real) {
    !m.oneShot && !(cfg.ignoreAcked && m.ack != Pending) && now - m.created < cfg.duration as real
  }

  /** republish_meta: the entry afterwards, and whether it was published. */
  function RepublishMeta(cfg: Config, m: Meta, now: real, jitter: real): (Meta, bool) {
    if m.oneShot then (m, false)
    else if cfg.ignoreAcked && m.ack != Pending then (m, false)
    else if now - m.updated < jitter then (m, false)
    else if now - m.created >= cfg.duration as real then (m, false)
    else (Attempted(m, now), true)
  }

  lemma BackoffPositive(cfg: Config, attempts: nat)
    requires Sane(cfg)
    ensures 0.0 <= Backoff(cfg, attempts) <= Cap(cfg)
  {
    assert cfg.interval * Pow2(attempts) >= 0.0 by {
      assert Pow2(attempts) >= 1.0;
      if cfg.interval * Pow2(attempts) < 0.0 { assert false; }
    }
  }

  /** `x`, doubled `k` times. */
  function Doubled(x: real, k: nat): real
    decreases k
  {
    if k == 0 then x else Doubled(x + x, k - 1)
  }

  lemma {:induction false} DoubledIs(x: real, k: nat)
    ensures Doubled(x, k) == x * Pow2(k)
    decreases k
  {
    if k > 0 {
      DoubledIs(x + x, k - 1);
      assert (x + x) * Pow2(k - 1) == x * (2.0 * Pow2(k - 1));
    }
  }

  /** At most this long an entry waits for its next attempt after `k` attempts: the interval
      doubled that often, but no more than a minute, and no more than its lifetime. */
  predicate LongEnough(cfg: Config, k: nat, wait: real) {
    wait >= Doubled(cfg.interval, k) || wait >= 60.0 || wait >= cfg.duration as real
  }

  lemma BackoffExactly(cfg: Config, k: nat, wait: real)
    ensures LongEnough(cfg, k, wait) <==> wait >= Backoff(cfg, k)
  {
    DoubledIs(cfg.interval, k);
  }

  /** Which entries a visit certainly sends, and which it possibly sends, over the jitter. */
  lemma SentExactly(cfg: Config, m: Meta, now: real)
    requires Sane(cfg)
    ensures (forall j :: Jitter(cfg, m, j) ==> RepublishMeta(cfg, m, now, j).1)
            <==> Eligible(cfg, m, now) && LongEnough(cfg, m.attempts, now - m.updated)
    ensures (exists j :: Jitter(cfg, m, j) && RepublishMeta(cfg, m, now, j).1)
            <==> Eligible(cfg, m, now) && now >= m.updated
    ensures Eligible(cfg, m, now) && now - m.updated >= Cap(cfg) ==> forall j :: Jitter(cfg, m, j) ==>
              RepublishMeta(cfg, m, now, j).1
  {
    BackoffPositive(cfg, m.attempts);
    BackoffExactly(cfg, m.attempts, now - m.updated);
    hide LongEnough;
    assert Jitter(cfg, m, 0.0) && Jitter(cfg, m, Backoff(cfg, m.attempts));
  }

  // ---- an entry over any number of scans -----------------------------------------------------------

  /** What happens to an entry: a scan that started at `now` reaches it, or its future is settled. */
  datatype LifeEvent = Visited(now: real, jitter: real) | Settled(outcome: Future)

  /** The entry, and when the scans started that published it. */
  datatype Life = Life(m: Meta, sent: seq<real>)

  function LifeStep(cfg: Config, l: Life, e: LifeEvent): Life {
    match e
    case Visited(now, jitter) =>
      var (m, published) := RepublishMeta(cfg, l.m, now, jitter);
      Life(m, if published then l.sent + [now] else l.sent)
    case Settled(outcome) => if l.m.ack == Pending then l.(m := l.m.(ack := outcome)) else l
  }

  function LifeAfter(cfg: Config, m: Meta, events: seq<LifeEvent>): Life {
    if events == [] then Life(m, []) else LifeStep(cfg, LifeAfter(cfg, m, events[..|events| - 1]), events[|events| - 1])
  }

  /** Whatever the jitters and the schedule: no scan that started at or after created + duration
      makes an attempt, the attempt counter counts the attempts, `updated` is the start of the
      last scan that made one, a one-shot entry is never touched, and the packet sent is always
      the one queued. */
  lemma {:induction false} RetransmissionDiscipline(cfg: Config, m: Meta, events: seq<LifeEvent>)
    ensures var l := LifeAfter(cfg, m, events);
            && (forall i :: 0 <= i < |l.sent| ==> l.sent[i] - m.created < cfg.duration as real)
            && l.m.attempts == m.attempts + |l.sent|
            && l.m.updated == (if l.sent == [] then m.updated else l.sent[|l.sent| - 1])
            && (m.oneShot ==> l.sent == [])
            && l.m.out == m.out && l.m.dest == m.dest && l.m.created == m.created && l.m.oneShot == m.oneShot
            && (cfg.ignoreAcked && m.ack != Pending ==> l.sent == [])
            && (m.ack != Pending ==> l.m.ack == m.ack)
  {
    if events != [] {
      RetransmissionDiscipline(cfg, m, events[..|events| - 1]);
    }
  }

  /** With full jitter two attempts may be arbitrarily close, but never out of order: the scan
      that makes one never started before the scan that made the previous one. */
  lemma {:induction false} AttemptsAscend(cfg: Config, m: Meta, events: seq<LifeEvent>, i: nat)
    requires forall e :: e in events && e.Visited? ==> e.jitter >= 0.0
    requires i + 1 < |LifeAfter(cfg, m, events).sent|
    ensures LifeAfter(cfg, m, events).sent[i] <= LifeAfter(cfg, m, events).sent[i + 1]
  {
    if events != [] {
      var before := LifeAfter(cfg, m, events[..|events| - 1]);
      if i + 1 < |before.sent| {
        AttemptsAscend(cfg, m, events[..|events| - 1], i);
      } else {
        RetransmissionDiscipline(cfg, m, events[..|events| - 1]);
        assert events[|events| - 1] in events;
      }
    }
  }

  /** Every visit draws its jitter as republish_meta does. */
  ghost predicate Drawn(cfg: Config, m: Meta, events: seq<LifeEvent>) {
    forall i :: 0 <= i < |events| && events[i].Visited? ==>
                  Jitter(cfg, LifeAfter(cfg, m, events[..i]).m, events[i].jitter)
  }

  /** In every life: once the entry has been published, at the latest the next eligible visit
      that comes long enough after the last attempt, for the number of attempts made, is one. */
  lemma NextAttempt(cfg: Config, m: Meta, events: seq<LifeEvent>, now: real, jitter: real)
    requires Sane(cfg) && Drawn(cfg, m, events + [Visited(now, jitter)])
    requires var l := LifeAfter(cfg, m, events);
             && l.sent != [] && Eligible(cfg, l.m, now)
             && LongEnough(cfg, m.attempts + |l.sent|, now - l.sent[|l.sent| - 1])
    ensures LifeAfter(cfg, m, events + [Visited(now, jitter)]).sent == LifeAfter(cfg, m, events).sent + [now]
  {
    hide *;
    var l := LifeAfter(cfg, m, events);
    LastVisit(cfg, m, events, now, jitter);
    RetransmissionDiscipline(cfg, m, events);
    assert l.m.updated == l.sent[|l.sent| - 1] && l.m.attempts == m.attempts + |l.sent|;
    DueVisit(cfg, l, now, jitter);
  }

  lemma DueVisit(cfg: Config, l: Life, now: real, jitter: real)
    requires Sane(cfg) && Eligible(cfg, l.m, now) && LongEnough(cfg, l.m.attempts, now - l.m.updated)
    requires Jitter(cfg, l.m, jitter)
    ensures LifeStep(cfg, l, Visited(now, jitter)).sent == l.sent + [now]
  {
    SentExactly(cfg, l.m, now);
    hide LongEnough, Eligible, RepublishMeta, Jitter;
  }

  lemma LastVisit(cfg: Config, m: Meta, events: seq<LifeEvent>, now: real, jitter: real)
    requires Drawn(cfg, m, events + [Visited(now, jitter)])
    ensures Jitter(cfg, LifeAfter(cfg, m, events).m, jitter)
    ensures LifeAfter(cfg, m, events + [Visited(now, jitter)])
            == LifeStep(cfg, LifeAfter(cfg, m, events), Visited(now, jitter))
  {
    hide Jitter, LifeStep;
    var all := events + [Visited(now, jitter)];
    assert all[..|events|] == events && all[|events|] == Visited(now, jitter);
  }

  /** And it need not come any earlier: visits that all come too soon can all draw a jitter that
      makes them pass. */
  lemma {:induction false} MayPass(cfg: Config, m: Meta, times: seq<real>) returns (events: seq<LifeEvent>)
    requires Sane(cfg) && forall i :: 0 <= i < |times| ==> !LongEnough(cfg, m.attempts, times[i] - m.updated)
    ensures |events| == |times| && Drawn(cfg, m, events) && LifeAfter(cfg, m, events) == Life(m, [])
    ensures forall i :: 0 <= i < |times| ==> events[i].Visited? && events[i].now == times[i]
  {
    if times == [] {
      events := [];
    } else {
      var last := |times| - 1;
      var before := MayPass(cfg, m, times[..last]);
      var jitter := Backoff(cfg, m.attempts);
      BackoffPositive(cfg, m.attempts);
      BackoffExactly(cfg, m.attempts, times[last] - m.updated);
      hide LongEnough, Backoff;
      events := before + [Visited(times[last], jitter)];
      assert events[..last] == before && forall i :: 0 <= i < last ==> events[..i] == before[..i];
    }
  }
}
