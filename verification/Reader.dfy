/** The incremental framing loop: what it takes out of a TCP byte stream, for every way of
    cutting the stream into chunks and for every interleaving of reader tasks. */
module Reader {
  import opened Basics
  import opened Packets
  import Varint

  datatype Drained = Drained(frames: seq<Bytes>, rest: Bytes)

  /** The reference reading: cut complete packets off the front until none is left. */
  function Drain(buf: Bytes): Drained
    decreases |buf|
  {
    match FrameLength(buf)
    case None => Drained([], buf)
    case Some(n) => var d := Drain(buf[n..]); Drained([buf[..n]] + d.frames, d.rest)
  }

  function Concat(parts: seq<Bytes>): Bytes {
    if parts == [] then [] else parts[0] + Concat(parts[1..])
  }

  predicate GoodFrame(frame: Bytes) { ParsePacket(frame).Parsed? }

  // ---- one reader at a time -------------------------------------------------------------

  datatype Outcome = Outcome(packets: seq<Packet>, rest: Bytes, raised: bool)

  /** One call of the reader on a filled buffer. An unknown packet type raises after its
      bytes have left the buffer, and ends the call. */
  function Consume(buf: Bytes): Outcome
    decreases |buf|
  {
    match FrameLength(buf)
    case None => Outcome([], buf, false)
    case Some(n) =>
      match ParsePacket(buf[..n])
      case Parsed(p) => var o := Consume(buf[n..]); o.(packets := [p] + o.packets)
      case _ => Outcome([], buf[n..], true)
  }

  class PacketReader {
    var buf: Bytes
    var handled: seq<Packet>  // the packets passed to the handler, oldest first

    constructor ()
      ensures buf == [] && handled == []
    {
      buf, handled := [], [];
    }

    method Feed(chunk: Bytes) returns (raised: bool)
      modifies this
      ensures chunk == [] ==> buf == old(buf) && handled == old(handled) && !raised
      ensures chunk != [] ==>
                var o := Consume(old(buf) + chunk);
                handled == old(handled) + o.packets && buf == o.rest && raised == o.raised
    {
      hide ParsePacket, Varint.DecodePrefix, Consume;
      if chunk == [] {
        return false;
      }
      buf := buf + chunk;
      ghost var whole := Consume(buf);
      while buf != []
        invariant var o := Consume(buf);
                  handled + o.packets == old(handled) + whole.packets && o.rest == whole.rest &&
                    o.raised == whole.raised
        decreases |buf|
      {
        ConsumeUnfold(buf);
        if |buf| < 2 {
          return false;
        }
        var length := Varint.DecodeVarint(buf, 1);
        if !length.Value? {
          return false;
        }
        var total := 1 + length.consumed + length.value;
        if |buf| < total {
          return false;
        }
        var frame := buf[..total];
        ghost var o := Consume(buf);
        buf := buf[total..];
        var packet := ParsePacket(frame);
        if !packet.Parsed? {
          return true;
        }
        assert o.packets == [packet.value] + Consume(buf).packets;
        handled := handled + [packet.value];
      }
      ConsumeUnfold([]);
      raised := false;
    }
  }

  lemma ConsumeUnfold(buf: Bytes)
    ensures FrameLength(buf).None? ==> Consume(buf) == Outcome([], buf, false)
    ensures FrameLength(buf).Some? ==>
              var n := FrameLength(buf).value;
              var p := ParsePacket(buf[..n]);
              Consume(buf) == if p.Parsed? then var o := Consume(buf[n..]); o.(packets := [p.value] + o.packets)
                              else Outcome([], buf[n..], true)
  {
    hide FrameLength, ParsePacket;
  }

  /** Feeding chunk after chunk, as `Feed` does. */
  function FeedAll(buf: Bytes, chunks: seq<Bytes>): Outcome {
    if chunks == [] then Outcome([], buf, false)
    else
      var before := FeedAll(buf, chunks[..|chunks| - 1]);
      var chunk := chunks[|chunks| - 1];
      if chunk == [] then before
      else var o := Consume(before.rest + chunk); o.(packets := before.packets + o.packets)
  }

  /** The packets of the well-typed frames, in order. */
  function Good(frames: seq<Bytes>): seq<Packet> {
    if frames == [] then []
    else (if GoodFrame(frames[0]) then [ParsePacket(frames[0]).value] else []) + Good(frames[1..])
  }

  /** A complete packet stays complete, and the same, when more bytes arrive. */
  lemma {:induction false} FrameStable(buf: Bytes, more: Bytes)
    requires FrameLength(buf).Some?
    ensures FrameLength(buf + more) == FrameLength(buf)
  {
    assert (buf + more)[1..] == buf[1..] + more;
    Varint.DecodeStable(buf[1..], more, 4);
  }

  /** Draining may be interrupted anywhere and resumed when more bytes are there. */
  lemma {:induction false} DrainSplit(buf: Bytes, more: Bytes)
    ensures var d := Drain(buf);
            var e := Drain(d.rest + more);
            Drain(buf + more) == Drained(d.frames + e.frames, e.rest)
    decreases |buf|
  {
    hide FrameLength;
    var n := FrameLength(buf);
    if n.Some? {
      FrameStable(buf, more);
      DrainSplit(buf[n.value..], more);
      assert (buf + more)[n.value..] == buf[n.value..] + more && (buf + more)[..n.value] == buf[..n.value];
    }
  }

  lemma {:induction false} GoodAppend(a: seq<Bytes>, b: seq<Bytes>)
    ensures Good(a + b) == Good(a) + Good(b)
  {
    hide ParsePacket, GoodFrame;
    if a == [] {
      assert a + b == b;
    } else {
      GoodAppend(a[1..], b);
      assert (a + b)[1..] == a[1..] + b && (a + b)[0] == a[0];
    }
  }

  /** One call drains a prefix of the frames: up to the first ill-typed one if there is one. */
  lemma {:induction false} ConsumeDrains(buf: Bytes) returns (taken: seq<Bytes>)
    ensures var o := Consume(buf);
            && Drain(buf) == Drained(taken + Drain(o.rest).frames, Drain(o.rest).rest)
            && o.packets == Good(taken)
            && (if o.raised then taken != [] && !GoodFrame(taken[|taken| - 1]) else FrameLength(o.rest) == None)
    decreases |buf|
  {
    hide FrameLength, ParsePacket;
    taken := [];
    var n := FrameLength(buf);
    if n.Some? {
      var frame := buf[..n.value];
      if GoodFrame(frame) {
        var tail := ConsumeDrains(buf[n.value..]);
        taken := [frame] + tail;
        assert taken[1..] == tail;
        assert taken + Drain(Consume(buf).rest).frames == [frame] + (tail + Drain(Consume(buf).rest).frames);
      } else {
        taken := [frame];
        assert taken[1..] == [];
      }
    }
  }

  lemma NoFrameInNothing()
    ensures FrameLength([]) == None && Drain([]) == Drained([], [])
  {
  }

  /** Over any chunks: the packets handled are the good ones among the frames taken, and
      frames are left behind in the buffer only right after an ill-typed one. */
  lemma {:induction false} FeedAllDrains(chunks: seq<Bytes>) returns (taken: seq<Bytes>)
    ensures var o := FeedAll([], chunks);
            var d := Drain(o.rest);
            && Drain(Concat(chunks)) == Drained(taken + d.frames, d.rest)
            && o.packets == Good(taken)
            && ((o.raised && taken != [] && !GoodFrame(taken[|taken| - 1])) || FrameLength(o.rest) == None)
  {
    hide FrameLength, ParsePacket, Consume, Drain;
    if chunks == [] {
      taken := [];
      NoFrameInNothing();
    } else {
      var init, chunk := chunks[..|chunks| - 1], chunks[|chunks| - 1];
      taken := FeedAllDrains(init);
      ConcatLast(chunks);
      var before := FeedAll([], init);
      if chunk == [] {
        assert Concat(chunks) == Concat(init);
      } else {
        DrainSplit(Concat(init), chunk);
        DrainSplit(before.rest, chunk);
        var more := ConsumeDrains(before.rest + chunk);
        GoodAppend(taken, more);
        var d := Drain(Consume(before.rest + chunk).rest);
        assert taken + (more + d.frames) == (taken + more) + d.frames;
        assert taken + Drain(before.rest).frames + Drain(Drain(before.rest).rest + chunk).frames
            == taken + Drain(before.rest + chunk).frames;
        taken := taken + more;
      }
    }
  }

  lemma {:induction false} ConcatLast(parts: seq<Bytes>)
    requires parts != []
    ensures Concat(parts) == Concat(parts[..|parts| - 1]) + parts[|parts| - 1]
  {
    if |parts| > 1 {
      ConcatLast(parts[1..]);
      assert parts[1..][..|parts| - 2] == parts[..|parts| - 1][1..];
    } else {
      assert parts[1..] == [];
    }
  }

  ghost predicate NoGoodAfterBad(frames: seq<Bytes>) {
    forall i, j :: 0 <= i < j < |frames| && !GoodFrame(frames[i]) ==> !GoodFrame(frames[j])
  }

  /** Every chunking of the stream hands over every well-typed packet. */
  ghost predicate ChunkingIrrelevant(stream: Bytes) {
    forall chunks :: Concat(chunks) == stream ==> FeedAll([], chunks).packets == Good(Drain(stream).frames)
  }

  lemma {:induction false} GoodCount(frames: seq<Bytes>)
    ensures Good(frames) == [] <==> forall i :: 0 <= i < |frames| ==> !GoodFrame(frames[i])
  {
    hide ParsePacket;
    if frames != [] {
      GoodCount(frames[1..]);
      assert forall i :: 1 <= i < |frames| ==> frames[i] == frames[1..][i - 1];
    }
  }

  lemma {:induction false} ConsumeStopsAtBad(buf: Bytes, i: nat)
    requires i < |Drain(buf).frames| && !GoodFrame(Drain(buf).frames[i])
    ensures exists k ::
              0 <= k <= i && Consume(buf).packets == Good(Drain(buf).frames[..k]) && !GoodFrame(Drain(buf).frames[k])
    decreases |buf|
  {
    hide FrameLength, ParsePacket;
    var n, fs := FrameLength(buf).value, Drain(buf).frames;
    if GoodFrame(fs[0]) {
      ConsumeStopsAtBad(buf[n..], i - 1);
      var k :| 0 <= k <= i - 1 && Consume(buf[n..]).packets == Good(Drain(buf[n..]).frames[..k]) &&
        !GoodFrame(fs[1..][k]);
      assert fs[..k + 1][1..] == fs[1..][..k] && !GoodFrame(fs[k + 1]);
    } else {
      assert fs[..0] == [];
    }
  }

  lemma {:induction false} AnyChunking(chunks: seq<Bytes>)
    requires NoGoodAfterBad(Drain(Concat(chunks)).frames)
    ensures FeedAll([], chunks).packets == Good(Drain(Concat(chunks)).frames)
  {
    hide FrameLength, ParsePacket, Consume, Drain, FeedAll, Good;
    var frames := Drain(Concat(chunks)).frames;
    var taken := FeedAllDrains(chunks);
    var left := Drain(FeedAll([], chunks).rest).frames;
    GoodAppend(taken, left);
    if FrameLength(FeedAll([], chunks).rest) == None {
      NoFrameNothingDrained(FeedAll([], chunks).rest);
    } else {
      assert frames[|taken| - 1] == taken[|taken| - 1];
      forall j | 0 <= j < |left| ensures !GoodFrame(left[j]) {
        assert frames[|taken| + j] == left[j];
      }
    }
    GoodCount(left);
  }

  lemma NoFrameNothingDrained(buf: Bytes)
    requires FrameLength(buf) == None
    ensures Drain(buf).frames == []
  {
    hide FrameLength;
  }

  lemma OneChunk(stream: Bytes, i: nat, j: nat)
    requires i < j < |Drain(stream).frames| && !GoodFrame(Drain(stream).frames[i]) && GoodFrame(Drain(stream).frames[j])
    ensures Concat([stream]) == stream && FeedAll([], [stream]).packets != Good(Drain(stream).frames)
  {
    hide FrameLength, ParsePacket, Consume, FeedAll, Good;
    var frames := Drain(stream).frames;
    ConsumeStopsAtBad(stream, i);
    var k :| 0 <= k <= i && Consume(stream).packets == Good(frames[..k]) && !GoodFrame(frames[k]);
    GoodAppend(frames[..k], frames[k..]);
    assert frames == frames[..k] + frames[k..];
    GoodCount(frames[k..]);
    assert frames[k..][j - k] == frames[j];
    FeedOne(stream);
  }

  /** Chunking is irrelevant for exactly the streams in which no well-typed packet follows
      one of an unknown type. */
  lemma ChunkingExactly(stream: Bytes)
    ensures ChunkingIrrelevant(stream) <==> NoGoodAfterBad(Drain(stream).frames)
  {
    hide FrameLength, ParsePacket, Consume, Drain, FeedAll, Good;
    var frames := Drain(stream).frames;
    if NoGoodAfterBad(frames) {
      forall chunks | Concat(chunks) == stream
        ensures FeedAll([], chunks).packets == Good(frames)
      {
        AnyChunking(chunks);
      }
    } else {
      var i, j :| 0 <= i < j < |frames| && !GoodFrame(frames[i]) && GoodFrame(frames[j]);
      OneChunk(stream, i, j);
    }
  }

  /** An unknown packet type does break it: in one chunk the PINGRESP behind the reserved
      type 15 is never seen, in two chunks it is. */
  lemma UnknownTypeBreaksChunking()
    ensures var bad, good := [0xF0, 0], [0xD0, 0];
            && FeedAll([], [bad + good]).packets == []
            && FeedAll([], [bad, good]).packets == [Packet(13, 0, [])]
  {
    hide FrameLength, ParsePacket, Consume, FeedAll;
    var bad: Bytes, good: Bytes := [0xF0, 0], [0xD0, 0];
    TwoByteFrame(0xF0, good);
    TwoByteFrame(0xF0, []);
    TwoByteFrame(0xD0, []);
    assert bad + [] == bad && good + [] == good && [] + good == good;
    FeedOne(bad + good);
    FeedTwo(bad, good);
  }

  /** A packet without a body: header byte, length zero. */
  lemma TwoByteFrame(first: byte, rest: Bytes)
    ensures Consume([first, 0] + rest) == if ValidKind(first / 16)
                                          then var o := Consume(rest);
                                            o.(packets := [Packet(first / 16, first % 16, [])] + o.packets)
                                          else Outcome([], rest, true)
    ensures Consume([]) == Outcome([], [], false)
  {
    FrameRoundTrip(first, [], rest);
    assert [first] + Varint.Encode(0) + [] == [first, 0];
    assert ([first, 0] + rest)[2..] == rest && ([first, 0] + rest)[..2] == [first, 0];
    NoFrameInNothing();
    hide FrameLength, ParsePacket;
  }

  lemma FeedOne(chunk: Bytes)
    requires chunk != []
    ensures FeedAll([], [chunk]) == Consume(chunk)
    ensures Concat([chunk]) == chunk
  {
    hide FrameLength, ParsePacket, Consume;
    var none: seq<Bytes> := [];
    assert [chunk][..0] == none && [chunk][1..] == none;
    var nothing: Bytes := [];
    assert nothing + chunk == chunk;
  }

  lemma FeedTwo(first: Bytes, second: Bytes)
    requires first != [] && second != []
    ensures var o := Consume(first);
            var p := Consume(o.rest + second);
            FeedAll([], [first, second]) == p.(packets := o.packets + p.packets)
  {
    hide FrameLength, ParsePacket, Consume;
    FeedOne(first);
    assert [first, second][..1] == [first];
  }

  // ---- any number of reader tasks ---------------------------------------------------------

  /** `active` tasks are suspended in a packet handler; each will run the loop again. */
  datatype Session = Session(buf: Bytes, frames: seq<Bytes>, active: nat, received: Bytes)

  datatype Event = Arrive(chunk: Bytes) | Wake | Reset

  const FRESH := Session([], [], 0, [])

  /** One pass of the loop by a running task, up to its next suspension or its end. */
  function LoopPass(s: Session): Session {
    match FrameLength(s.buf)
    case None => s
    case Some(n) =>
      s.(buf := s.buf[n..], frames := s.frames + [s.buf[..n]],
         active := s.active + if GoodFrame(s.buf[..n]) then 1 else 0)
  }

  /** A wake-up with no task suspended does nothing. */
  function Step(s: Session, e: Event): Session {
    match e
    case Arrive(chunk) => if chunk == [] then s else LoopPass(s.(buf := s.buf + chunk, received := s.received + chunk))
    case Wake => if s.active == 0 then s else LoopPass(s.(active := s.active - 1))
    case Reset => s.(buf := [], frames := [], received := [])
  }

  /** The session after a run of events. */
  function After(events: seq<Event>): Session {
    if events == [] then FRESH else Step(After(events[..|events| - 1]), events[|events| - 1])
  }

  ghost predicate AllGood(frames: seq<Bytes>) {
    forall i :: 0 <= i < |frames| ==> GoodFrame(frames[i])
  }

  ghost predicate Inv(s: Session) {
    && Drain(s.received) == Drained(s.frames + Drain(s.buf).frames, Drain(s.buf).rest)
    && Concat(s.frames) + s.buf == s.received
    && (s.active == 0 && AllGood(s.frames) ==> FrameLength(s.buf) == None)
  }

  lemma LoopPassKeepsInv(s: Session)
    requires Drain(s.received) == Drained(s.frames + Drain(s.buf).frames, Drain(s.buf).rest)
    requires Concat(s.frames) + s.buf == s.received
    ensures Inv(LoopPass(s))
  {
    if FrameLength(s.buf).Some? { TakenKeepsInv(s); } else { hide FrameLength, Drain, Concat; }
  }

  /** A pass that takes a frame moves it from the buffer to the frames. */
  lemma TakenKeepsInv(s: Session)
    requires Drain(s.received) == Drained(s.frames + Drain(s.buf).frames, Drain(s.buf).rest)
    requires Concat(s.frames) + s.buf == s.received && FrameLength(s.buf).Some?
    ensures Inv(LoopPass(s))
  {
    hide FrameLength, ParsePacket;
    var n := FrameLength(s.buf).value;
    var t, frame := LoopPass(s), s.buf[..n];
    assert s.buf == frame + t.buf && t.frames == s.frames + [frame];
    assert Drain(t.received) == Drained(t.frames + Drain(t.buf).frames, Drain(t.buf).rest) by {
      assert Drain(s.buf).frames == [frame] + Drain(t.buf).frames && Drain(s.buf).rest == Drain(t.buf).rest;
      assert s.frames + ([frame] + Drain(t.buf).frames) == t.frames + Drain(t.buf).frames;
    }
    assert Concat(t.frames) + t.buf == t.received by {
      ConcatLast(t.frames);
      assert t.frames[..|s.frames|] == s.frames;
      assert Concat(s.frames) + (frame + t.buf) == Concat(s.frames) + frame + t.buf;
    }
    hide Drain, Concat;
    if AllGood(t.frames) { assert GoodFrame(t.frames[|s.frames|]); }
  }

  lemma {:induction false} ArriveKeepsInv(s: Session, chunk: Bytes)
    requires Inv(s)
    ensures Inv(LoopPass(s.(buf := s.buf + chunk, received := s.received + chunk)))
  {
    hide FrameLength, ParsePacket, Drain, LoopPass;
    DrainSplit(s.received, chunk);
    DrainSplit(s.buf, chunk);
    var d := Drain(s.buf);
    assert s.frames + d.frames + Drain(d.rest + chunk).frames == s.frames + (d.frames + Drain(d.rest + chunk).frames);
    assert Concat(s.frames) + (s.buf + chunk) == s.received + chunk;
    LoopPassKeepsInv(s.(buf := s.buf + chunk, received := s.received + chunk));
  }

  lemma {:induction false} RunKeepsInv(events: seq<Event>)
    ensures Inv(After(events))
  {
    hide FrameLength, ParsePacket, Drain, LoopPass;
    if events == [] {
      NoFrameInNothing();
    } else {
      RunKeepsInv(events[..|events| - 1]);
      var s := After(events[..|events| - 1]);
      match events[|events| - 1]
      case Arrive(chunk) => ArriveKeepsInv(s, chunk);
      case Wake => if s.active > 0 { LoopPassKeepsInv(s.(active := s.active - 1)); }
      case Reset => NoFrameInNothing();
    }
  }

  /** Whatever the chunks, the wake-ups and the session resets: the frames taken so far in
      this session and the buffer are exactly the bytes received, the frames are a prefix of
      the reference reading, and once no task is left they are all of it. */
  lemma InterleavedReaders(events: seq<Event>)
    ensures var s := After(events);
            var d := Drain(s.received);
            && Concat(s.frames) + s.buf == s.received
            && s.frames <= d.frames
            && (s.active == 0 && AllGood(d.frames) ==> d == Drained(s.frames, s.buf))
  {
    hide FrameLength, ParsePacket, After;
    var s := After(events);
    RunKeepsInv(events);
    if s.active == 0 && AllGood(Drain(s.received).frames) {
      assert forall i :: 0 <= i < |s.frames| ==> s.frames[i] == Drain(s.received).frames[i];
    }
  }

  /** Every run that ends with no task suspended has handed over every well-typed packet. */
  ghost predicate InterleavingIrrelevant(stream: Bytes) {
    forall events :: After(events).received == stream && After(events).active == 0 ==>
                       Good(After(events).frames) == Good(Drain(stream).frames)
  }

  lemma SettledRun(events: seq<Event>)
    requires After(events).active == 0 && NoGoodAfterBad(Drain(After(events).received).frames)
    ensures Good(After(events).frames) == Good(Drain(After(events).received).frames)
  {
    hide FrameLength, ParsePacket, After, Drain, Good;
    var s := After(events);
    RunKeepsInv(events);
    var frames, left := Drain(s.received).frames, Drain(s.buf).frames;
    assert frames == s.frames + left;
    GoodAppend(s.frames, left);
    if AllGood(s.frames) {
      NoFrameNothingDrained(s.buf);
    } else {
      var i :| 0 <= i < |s.frames| && !GoodFrame(s.frames[i]);
      assert frames[i] == s.frames[i];
      forall j | 0 <= j < |left| ensures !GoodFrame(left[j]) {
        assert frames[|s.frames| + j] == left[j];
      }
    }
    GoodCount(left);
  }

  function Wakes(m: nat): seq<Event> { if m == 0 then [] else Wakes(m - 1) + [Wake] }

  lemma PassTakesFirst(s: Session)
    requires Drain(s.buf).frames != []
    ensures var t, fs := LoopPass(s), Drain(s.buf).frames;
            && t.frames == s.frames + [fs[0]] && Drain(t.buf).frames == fs[1..] && t.received == s.received
            && t.active == s.active + if GoodFrame(fs[0]) then 1 else 0
  {
    hide FrameLength, ParsePacket;
  }

  /** The stream in one chunk, and wake-ups as long as there is a task to wake. */
  lemma {:induction false} WakeRun(stream: Bytes, m: nat)
    requires m < |Drain(stream).frames| && forall i :: 0 <= i < m ==> GoodFrame(Drain(stream).frames[i])
    ensures var s, fs := After([Arrive(stream)] + Wakes(m)), Drain(stream).frames;
            && s.received == stream && s.frames == fs[..m + 1] && Drain(s.buf).frames == fs[m + 1..]
            && s.active == if GoodFrame(fs[m]) then 1 else 0
  {
    hide FrameLength, ParsePacket, LoopPass, Drain;
    var fs, run := Drain(stream).frames, [Arrive(stream)] + Wakes(m);
    if m == 0 {
      var none: seq<Event> := [];
      assert run == [Arrive(stream)] && run[..0] == none && After(none) == FRESH;
      NoFrameInNothing();
      var nothing: Bytes := [];
      assert nothing + stream == stream;
      PassTakesFirst(FRESH.(buf := stream, received := stream));
      var empty: seq<Bytes> := [];
      assert empty + [fs[0]] == fs[..1];
    } else {
      WakeRun(stream, m - 1);
      assert run[..|run| - 1] == [Arrive(stream)] + Wakes(m - 1) && run[|run| - 1] == Wake;
      var s := After(run[..|run| - 1]);
      PassTakesFirst(s.(active := 0));
      assert fs[..m] + [fs[m]] == fs[..m + 1] && fs[m..][0] == fs[m] && fs[m..][1..] == fs[m + 1..];
    }
  }

  /** The first ill-typed frame at or before a given one. */
  lemma {:induction false} FirstBad(frames: seq<Bytes>, i: nat) returns (k: nat)
    requires i < |frames| && !GoodFrame(frames[i])
    ensures k <= i && !GoodFrame(frames[k]) && forall j :: 0 <= j < k ==> GoodFrame(frames[j])
  {
    hide GoodFrame;
    k := i;
    if j :| 0 <= j < i && !GoodFrame(frames[j]) {
      k := FirstBad(frames, j);
    }
  }

  /** However many reader tasks there are and however they interleave: all runs over the stream
      that have come to rest have handed over all its well-typed packets exactly if none of
      them follows one of an unknown type. */
  lemma InterleavingExactly(stream: Bytes)
    ensures InterleavingIrrelevant(stream) <==> NoGoodAfterBad(Drain(stream).frames)
  {
    hide FrameLength, ParsePacket, After, Drain, Good, GoodFrame;
    var fs := Drain(stream).frames;
    if NoGoodAfterBad(fs) {
      forall events | After(events).received == stream && After(events).active == 0
        ensures Good(After(events).frames) == Good(fs)
      {
        SettledRun(events);
      }
    } else {
      var i, j :| 0 <= i < j < |fs| && !GoodFrame(fs[i]) && GoodFrame(fs[j]);
      var k := FirstBad(fs, i);
      WakeRun(stream, k);
      LosesOne(fs, k, j);
    }
  }

  lemma LosesOne(fs: seq<Bytes>, k: nat, j: nat)
    requires k < j < |fs| && GoodFrame(fs[j])
    ensures Good(fs[..k + 1]) != Good(fs)
  {
    hide Good, GoodFrame;
    GoodAppend(fs[..k + 1], fs[k + 1..]);
    assert fs == fs[..k + 1] + fs[k + 1..] && fs[k + 1..][j - k - 1] == fs[j];
    GoodCount(fs[k + 1..]);
  }

  // ---- what is left in the buffer ---------------------------------------------------------

  /** Some further bytes would make the buffer exactly one packet. */
  ghost predicate IncompletePrefix(buf: Bytes) {
    exists more :: more != [] && FrameLength(buf + more) == Some(|buf + more|)
  }

  /** A header byte followed by four continuation bytes. */
  predicate Stuck(buf: Bytes) {
    |buf| >= 5 && buf[1] >= 128 && buf[2] >= 128 && buf[3] >= 128 && buf[4] >= 128
  }

  lemma StuckForever(buf: Bytes, more: Bytes)
    requires Stuck(buf)
    ensures FrameLength(buf + more) == None
  {
    hide Varint.DecodePrefix;
    var b := (buf + more)[1..];
    Varint.DecodeFailures(b, 4);
    assert b[..4] == buf[1..5];
  }

  lemma Completable(buf: Bytes)
    requires FrameLength(buf) == None && !Stuck(buf)
    ensures IncompletePrefix(buf)
  {
    if buf == [] {
      var zeros: Bytes := [0, 0];
      assert FrameLength(buf + zeros) == Some(2) by {
        var zero: Bytes := [0];
        assert (buf + zeros)[1..] == zero;
      }
    } else {
      Varint.DecodeFailures(buf[1..], 4);
      hide Varint.DecodePrefix;
      if Varint.DecodePrefix(buf[1..], 4).Value? { BodyCompletable(buf); } else { PrefixCompletable(buf); }
    }
  }

  lemma BodyCompletable(buf: Bytes)
    requires FrameLength(buf) == None && buf != [] && Varint.DecodePrefix(buf[1..], 4).Value?
    ensures IncompletePrefix(buf)
  {
    hide Varint.DecodePrefix;
    var tail := buf[1..];
    var d := Varint.DecodePrefix(tail, 4);
    var more: Bytes := seq(1 + d.consumed + d.value - |buf|, _ => 0);
    Varint.DecodeStable(tail, more, 4);
    assert (buf + more)[1..] == tail + more;
    assert FrameLength(buf + more) == Some(|buf + more|);
  }

  lemma PrefixCompletable(buf: Bytes)
    requires buf != [] && |buf[1..]| < 4 && Varint.AllContinue(buf[1..])
    ensures IncompletePrefix(buf)
  {
    hide Varint.DecodePrefix, Varint.AllContinue;
    var tail, zero: Bytes := buf[1..], [0];
    var v := LengthCompletable(tail, 4);
    var body: Bytes := seq(v, _ => 0);
    Varint.DecodeStable(tail + zero, body, 4);
    var more := zero + body;
    assert (buf + more)[1..] == tail + zero + body;
    assert FrameLength(buf + more) == Some(|buf + more|);
  }

  lemma {:induction false} LengthCompletable(tail: Bytes, limit: nat) returns (v: nat)
    requires |tail| < limit && Varint.AllContinue(tail)
    ensures Varint.DecodePrefix(tail + [0], limit) == Varint.Value(v, |tail| + 1)
  {
    v := 0;
    if tail != [] {
      var w := LengthCompletable(tail[1..], limit - 1);
      assert (tail + [0])[1..] == tail[1..] + [0];
      v := tail[0] % 128 + 128 * w;
    }
  }

  /** No packet can be taken exactly when the buffer is an incomplete prefix or stuck, never
      both; and a stuck buffer yields nothing whatever else the session receives. */
  lemma LeftoverExactly(buf: Bytes)
    ensures FrameLength(buf) == None <==> IncompletePrefix(buf) || Stuck(buf)
    ensures !(IncompletePrefix(buf) && Stuck(buf))
    ensures Stuck(buf) ==> forall more :: Drain(buf + more).frames == []
  {
    if Stuck(buf) {
      forall more ensures FrameLength(buf + more) == None {
        StuckForever(buf, more);
      }
      assert buf + [] == buf;
    }
    if FrameLength(buf) == None && !Stuck(buf) {
      Completable(buf);
    }
    if IncompletePrefix(buf) && FrameLength(buf).Some? {
      var more :| more != [] && FrameLength(buf + more) == Some(|buf + more|);
      FrameStable(buf, more);
      assert false;
    }
  }

  // ---- resets -----------------------------------------------------------------------------------

  /** The bytes that arrived after the last reset. */
  function SinceReset(events: seq<Event>): Bytes {
    if events == [] then []
    else
      var before := SinceReset(events[..|events| - 1]);
      match events[|events| - 1]
      case Arrive(chunk) => before + chunk
      case Wake => before
      case Reset => []
  }

  /** A reconnect forgets everything read before it: frames and buffer together are exactly what
      arrived since the last one. */
  lemma {:induction false} ResetForgets(events: seq<Event>)
    ensures Concat(After(events).frames) + After(events).buf == SinceReset(events)
  {
    InterleavedReaders(events);
    hide FrameLength, ParsePacket, Concat;
    ReceivedExactly(events);
  }

  lemma {:induction false} ReceivedExactly(events: seq<Event>)
    ensures After(events).received == SinceReset(events)
  {
    hide FrameLength, ParsePacket, GoodFrame;
    if events != [] {
      ReceivedExactly(events[..|events| - 1]);
      match events[|events| - 1]
      case Arrive(chunk) => assert chunk == [] ==> SinceReset(events[..|events| - 1]) + chunk == SinceReset(events);
      case _ =>
    }
  }
}
