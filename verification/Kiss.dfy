/** KISS framing (src/kiss/frame.rs) and reassembly (src/kiss/buffer.rs), after
    the frame format and transparency rules of "The KISS TNC" (Chepponis and
    Karn, 1987). */
module Kiss {
  import opened Common

  const FEND: byte := 0xC0
  const FESC: byte := 0xDB
  const TFEND: byte := 0xDC
  const TFESC: byte := 0xDD

  datatype KissFrame = KissFrame(command: byte, data: seq<byte>)

  datatype Error = EmptyFrame | TruncatedEscape | InvalidEscape(b: byte)

  datatype Decoded = Ok(frame: KissFrame) | Err(error: Error)

  // ── Byte stuffing ───────────────────────────────────────────────────

  function StuffByte(b: byte): seq<byte> {
    if b == FEND then [FESC, TFEND] else if b == FESC then [FESC, TFESC] else [b]
  }

  function Stuffed(data: seq<byte>): seq<byte> {
    if |data| == 0 then [] else StuffByte(data[0]) + Stuffed(data[1..])
  }

  datatype Unstuffing = Bytes(data: seq<byte>) | Broken(error: Error)

  function Prepend(data: seq<byte>, u: Unstuffing): Unstuffing {
    match u
    case Bytes(rest) => Bytes(data + rest)
    case Broken(e) => Broken(e)
  }

  function Unstuffed(raw: seq<byte>): Unstuffing {
    if |raw| == 0 then Bytes([])
    else if raw[0] != FESC then Prepend([raw[0]], Unstuffed(raw[1..]))
    else if |raw| == 1 then Broken(TruncatedEscape)
    else if raw[1] == TFEND then Prepend([FEND], Unstuffed(raw[2..]))
    else if raw[1] == TFESC then Prepend([FESC], Unstuffed(raw[2..]))
    else Broken(InvalidEscape(raw[1]))
  }

  function DecodeSpec(raw: seq<byte>): Decoded {
    if |raw| == 0 then Err(EmptyFrame)
    else
      match Unstuffed(raw[1..])
      case Bytes(data) => Ok(KissFrame(raw[0], data))
      case Broken(e) => Err(e)
  }

  /** What is between the FENDs on the wire. */
  function Inner(f: KissFrame): seq<byte> {
    StuffByte(f.command) + Stuffed(f.data)
  }

  function Wire(f: KissFrame): seq<byte> {
    [FEND] + Inner(f) + [FEND]
  }

  lemma {:induction false} StuffedAppend(data: seq<byte>, b: byte)
    ensures Stuffed(data + [b]) == Stuffed(data) + StuffByte(b)
    decreases |data|
  {
    if |data| == 0 {
      assert Stuffed([b]) == StuffByte(b) + Stuffed([]);
    } else {
      StuffedAppend(data[1..], b);
      assert (data + [b])[1..] == data[1..] + [b];
    }
  }

  lemma PrependTwice(a: seq<byte>, b: seq<byte>, u: Unstuffing)
    ensures Prepend(a, Prepend(b, u)) == Prepend(a + b, u)
  {
    if u.Bytes? { assert a + (b + u.data) == a + b + u.data; }
  }

  method Encode(f: KissFrame) returns (out: seq<byte>)
    ensures out == Wire(f)
  {
    out := [FEND];
    out := Stuff(f.command, out);
    var i := 0;
    assert f.data[..0] == [];
    while i < |f.data|
      invariant i <= |f.data|
      invariant out == [FEND] + StuffByte(f.command) + Stuffed(f.data[..i])
    {
      StuffedAppend(f.data[..i], f.data[i]);
      assert f.data[..i + 1] == f.data[..i] + [f.data[i]];
      out := Stuff(f.data[i], out);
      i := i + 1;
    }
    assert f.data[..i] == f.data;
    out := out + [FEND];
  }

  method Stuff(b: byte, out: seq<byte>) returns (r: seq<byte>)
    ensures r == out + StuffByte(b)
  {
    if b == FEND {
      r := out + [FESC];
      r := r + [TFEND];
    } else if b == FESC {
      r := out + [FESC];
      r := r + [TFESC];
    } else {
      r := out + [b];
    }
  }

  method Decode(raw: seq<byte>) returns (r: Decoded)
    ensures r == DecodeSpec(raw)
  {
    if |raw| == 0 {
      return Err(EmptyFrame);
    }
    var command, data, i := raw[0], [], 1;
    while i < |raw|
      invariant 1 <= i <= |raw|
      invariant Unstuffed(raw[1..]) == Prepend(data, Unstuffed(raw[i..]))
    {
      var next: byte;
      ghost var from := i;
      if raw[i] == FESC {
        i := i + 1;
        if i >= |raw| {
          return Err(TruncatedEscape);
        }
        if raw[i] == TFEND {
          next := FEND;
        } else if raw[i] == TFESC {
          next := FESC;
        } else {
          return Err(InvalidEscape(raw[i]));
        }
        assert raw[from..][2..] == raw[i + 1..];
      } else {
        next := raw[i];
        assert raw[from..][1..] == raw[i + 1..];
      }
      PrependTwice(data, [next], Unstuffed(raw[i + 1..]));
      data := data + [next];
      i := i + 1;
    }
    r := Ok(KissFrame(command, data));
  }

  // ── Round trips ─────────────────────────────────────────────────────

  lemma {:induction false} UnstuffStuffed(data: seq<byte>)
    ensures Unstuffed(Stuffed(data)) == Bytes(data)
    ensures FEND !in Stuffed(data)
    decreases |data|
  {
    if |data| > 0 {
      UnstuffStuffed(data[1..]);
      var rest := Stuffed(data[1..]);
      var s := StuffByte(data[0]) + rest;
      if data[0] == FEND || data[0] == FESC {
        assert s[2..] == rest;
      } else {
        assert s[1..] == rest;
      }
      assert [data[0]] + data[1..] == data;
    }
  }

  /** Decoding what was encoded gives the frame back, exactly when its command
      byte needs no stuffing (the decoder doesn't unstuff the command). */
  lemma DecodeEncoded(f: KissFrame)
    ensures DecodeSpec(Inner(f)) == Ok(f) <==> f.command != FEND && f.command != FESC
  {
    UnstuffStuffed(f.data);
    if f.command != FEND && f.command != FESC {
      assert Inner(f)[1..] == Stuffed(f.data);
    } else {
      assert Inner(f)[0] == FESC;
      if f.command == FESC {
        var raw := Inner(f)[1..];
        assert raw[0] == TFESC && raw[1..] == Stuffed(f.data);
        assert Unstuffed(raw) == Prepend([TFESC], Bytes(f.data));
      }
    }
  }

  lemma {:induction false} StuffUnstuffed(raw: seq<byte>)
    requires Unstuffed(raw).Bytes?
    ensures |Stuffed(Unstuffed(raw).data)| >= |raw|
    ensures FEND !in raw ==> Stuffed(Unstuffed(raw).data) == raw
    decreases |raw|
  {
    if |raw| > 0 {
      var n := if raw[0] == FESC then 2 else 1;
      StuffUnstuffed(raw[n..]);
      var d := Unstuffed(raw).data;
      assert d[1..] == Unstuffed(raw[n..]).data;
      assert raw == raw[..n] + raw[n..];
      if FEND !in raw {
        assert StuffByte(d[0]) == raw[..n];
      }
    }
  }

  /** Encoding what was decoded gives the raw bytes back, exactly when they
      hold no FEND and the command byte is not an escape. */
  lemma EncodeDecoded(raw: seq<byte>)
    requires DecodeSpec(raw).Ok?
    ensures Inner(DecodeSpec(raw).frame) == raw <==> FEND !in raw && raw[0] != FESC
  {
    var f := DecodeSpec(raw).frame;
    StuffUnstuffed(raw[1..]);
    UnstuffStuffed(f.data);
    assert raw == [raw[0]] + raw[1..];
    if FEND !in raw && raw[0] != FESC {
      assert Inner(f) == [raw[0]] + Stuffed(f.data);
    } else if raw[0] == FESC || raw[0] == FEND {
      assert |Inner(f)| == 2 + |Stuffed(f.data)|;
    } else {
      assert FEND !in Inner(f);
    }
  }

  // ── Streams ─────────────────────────────────────────────────────────

  /** Where a reader is in a stream: the frames it has, the bytes since the
      last FEND, and whether there was one. */
  datatype Scan = Scan(frames: seq<seq<byte>>, tail: seq<byte>, began: bool)

  const START := Scan([], [], false)

  function ScanOne(s: Scan, b: byte): Scan {
    if b != FEND then s.(tail := s.tail + [b])
    else if s.began && |s.tail| > 0 then Scan(s.frames + [s.tail], [], true)
    else Scan(s.frames, [], true)
  }

  function ScanFrom(s: Scan, stream: seq<byte>): Scan {
    if |stream| == 0 then s else ScanOne(ScanFrom(s, stream[..|stream| - 1]), stream[|stream| - 1])
  }

  lemma ScanSnoc(s: Scan, stream: seq<byte>, b: byte)
    ensures ScanFrom(s, stream + [b]) == ScanOne(ScanFrom(s, stream), b)
  {
    assert (stream + [b])[..|stream|] == stream;
  }

  lemma ScanNext(s: Scan, stream: seq<byte>, i: nat)
    requires i < |stream|
    ensures ScanFrom(s, stream[..i + 1]) == ScanOne(ScanFrom(s, stream[..i]), stream[i])
  {
    assert stream[..i + 1] == stream[..i] + [stream[i]];
    ScanSnoc(s, stream[..i], stream[i]);
  }

  lemma {:induction false} ScanAppend(s: Scan, a: seq<byte>, b: seq<byte>)
    ensures ScanFrom(s, a + b) == ScanFrom(ScanFrom(s, a), b)
    decreases |b|
  {
    if |b| == 0 {
      assert a + b == a;
    } else {
      var init, last := b[..|b| - 1], b[|b| - 1];
      ScanAppend(s, a, init);
      assert a + b == (a + init) + [last];
      ScanSnoc(s, a + init, last);
    }
  }

  /** Frames found earlier stay, and don't affect what is found later. */
  lemma {:induction false} ScanCarries(s: Scan, stream: seq<byte>)
    ensures var t := ScanFrom(s.(frames := []), stream);
            ScanFrom(s, stream) == t.(frames := s.frames + t.frames)
    decreases |stream|
  {
    if |stream| > 0 {
      ScanCarries(s, stream[..|stream| - 1]);
    }
  }

  lemma {:induction false} ScanPlain(s: Scan, t: seq<byte>)
    requires FEND !in t
    ensures ScanFrom(s, t) == s.(tail := s.tail + t)
    decreases |t|
  {
    if |t| > 0 {
      var init := t[..|t| - 1];
      ScanPlain(s, init);
      assert t == init + [t[|t| - 1]];
    }
  }

  lemma {:induction false} TailPlain(s: Scan, stream: seq<byte>)
    requires FEND !in s.tail
    ensures FEND !in ScanFrom(s, stream).tail
    ensures |ScanFrom(s, stream).tail| <= |s.tail| + |stream|
    decreases |stream|
  {
    if |stream| > 0 { TailPlain(s, stream[..|stream| - 1]); }
  }

  // What a stream's frames are, said without scanning: cut it at every FEND;
  // the frames are the non-empty pieces between the first and the last.

  ghost predicate Plain(pieces: seq<seq<byte>>) {
    forall i :: 0 <= i < |pieces| ==> FEND !in pieces[i]
  }

  function Join(pieces: seq<seq<byte>>): seq<byte>
    requires |pieces| > 0
  {
    if |pieces| == 1 then pieces[0]
    else Join(pieces[..|pieces| - 1]) + [FEND] + pieces[|pieces| - 1]
  }

  function NonEmpty(pieces: seq<seq<byte>>): seq<seq<byte>> {
    if |pieces| == 0 then []
    else
      var init := NonEmpty(pieces[..|pieces| - 1]);
      if |pieces[|pieces| - 1]| > 0 then init + [pieces[|pieces| - 1]] else init
  }

  /** Every stream is cut at its FENDs in some way... */
  lemma {:induction false} Cut(stream: seq<byte>) returns (pieces: seq<seq<byte>>)
    ensures |pieces| > 0 && Plain(pieces) && Join(pieces) == stream
    decreases |stream|
  {
    if |stream| == 0 {
      pieces := [[]];
    } else {
      var init, b := stream[..|stream| - 1], stream[|stream| - 1];
      assert stream == init + [b];
      var p := Cut(init);
      if b == FEND {
        pieces := p + [[]];
        assert pieces[..|p|] == p;
      } else {
        var n := |p| - 1;
        pieces := p[..n] + [p[n] + [b]];
        if n > 0 {
          assert pieces[..n] == p[..n];
          assert Join(p[..n]) + [FEND] + p[n] + [b] == Join(p[..n]) + [FEND] + (p[n] + [b]);
        }
      }
    }
  }

  /** ...and whichever way that is, scanning finds the non-empty inner pieces,
      in order, and is left with the last piece. */
  lemma {:induction false} ScanExact(pieces: seq<seq<byte>>)
    requires |pieces| > 0 && Plain(pieces)
    ensures ScanFrom(START, Join(pieces)) ==
            Scan(if |pieces| == 1 then [] else NonEmpty(pieces[1..|pieces| - 1]), pieces[|pieces| - 1], |pieces| > 1)
    decreases |pieces|
  {
    var n := |pieces| - 1;
    if n == 0 {
      ScanPlain(START, pieces[0]);
      assert [] + pieces[0] == pieces[0];
    } else {
      var init := pieces[..n];
      ScanExact(init);
      ScanPiece(Join(init), pieces[n]);
      InnerPieces(pieces);
    }
  }

  /** One more FEND and piece. */
  lemma ScanPiece(stream: seq<byte>, piece: seq<byte>)
    requires FEND !in piece
    ensures ScanFrom(START, stream + [FEND] + piece) ==
            ScanOne(ScanFrom(START, stream), FEND).(tail := piece)
  {
    ScanAppend(START, stream + [FEND], piece);
    ScanSnoc(START, stream, FEND);
    var s := ScanFrom(START, stream + [FEND]);
    ScanPlain(s, piece);
    assert s.tail + piece == piece;
  }

  lemma InnerPieces(pieces: seq<seq<byte>>)
    requires |pieces| > 1
    ensures var n := |pieces| - 1;
            NonEmpty(pieces[1..n]) ==
            if n == 1 then [] else
              NonEmpty(pieces[..n][1..n - 1]) + (if |pieces[n - 1]| > 0 then [pieces[n - 1]] else [])
  {
    var n := |pieces| - 1;
    if n > 1 {
      var inner := pieces[1..n];
      assert inner[..n - 2] == pieces[..n][1..n - 1];
      assert inner[n - 2] == pieces[n - 1];
    }
  }

  /** Someone who kept only the tail, and whether a frame had begun, finds in
      the tail and what follows exactly the frames that were still to come. */
  lemma ScanResumes(stream: seq<byte>, more: seq<byte>)
    ensures var s := ScanFrom(START, stream);
            var r := ScanFrom(Scan([], [], s.began), s.tail + more);
            ScanFrom(START, stream + more) == Scan(s.frames + r.frames, r.tail, r.began)
  {
    var s := ScanFrom(START, stream);
    TailPlain(START, stream);
    ScanAppend(START, stream, more);
    ScanCarries(s, more);
    ScanAppend(Scan([], [], s.began), s.tail, more);
    ScanPlain(Scan([], [], s.began), s.tail);
    assert [] + s.tail == s.tail;
    assert s.(frames := []) == Scan([], s.tail, s.began);
  }

  function Flatten(chunks: seq<seq<byte>>): seq<byte> {
    if |chunks| == 0 then [] else Flatten(chunks[..|chunks| - 1]) + chunks[|chunks| - 1]
  }

  // Chunks through a buffer of bounded size. A chunk that doesn't fit beside
  // the partial frame is lost with it, and a new stretch begins.

  /** The frames of the stretches that ended, and the bytes of this one. */
  datatype Feeding = Feeding(done: seq<seq<byte>>, stretch: seq<byte>)

  predicate Overflows(f: Feeding, chunk: seq<byte>, maxSize: nat) {
    |ScanFrom(START, f.stretch).tail| + |chunk| > maxSize
  }

  /** All the frames so far. */
  function FramesSoFar(f: Feeding): seq<seq<byte>> {
    f.done + ScanFrom(START, f.stretch).frames
  }

  function FeedOne(f: Feeding, chunk: seq<byte>, maxSize: nat): Feeding {
    if Overflows(f, chunk, maxSize) then Feeding(FramesSoFar(f), []) else Feeding(f.done, f.stretch + chunk)
  }

  function FeedAll(f: Feeding, chunks: seq<seq<byte>>, maxSize: nat): Feeding {
    if |chunks| == 0 then f else FeedOne(FeedAll(f, chunks[..|chunks| - 1], maxSize), chunks[|chunks| - 1], maxSize)
  }

  const NOTHING := Feeding([], [])

  /** Chunk `n` fits beside what is left of the chunks before it. */
  predicate Fits(chunks: seq<seq<byte>>, n: nat, maxSize: nat)
    requires n < |chunks|
  {
    |ScanFrom(START, Flatten(chunks[..n])).tail| + |chunks[n]| <= maxSize
  }

  /** If every chunk fits, the frames depend on the bytes alone, not on how
      they were cut. */
  lemma {:induction false} FeedWhole(chunks: seq<seq<byte>>, maxSize: nat)
    requires forall n :: 0 <= n < |chunks| ==> Fits(chunks, n, maxSize)
    ensures FeedAll(NOTHING, chunks, maxSize) == Feeding([], Flatten(chunks))
  {
    if |chunks| > 0 {
      var init := chunks[..|chunks| - 1];
      forall n | 0 <= n < |init| ensures Fits(init, n, maxSize) {
        assert Fits(chunks, n, maxSize) && init[..n] == chunks[..n];
      }
      FeedWhole(init, maxSize);
      assert Fits(chunks, |chunks| - 1, maxSize);
    }
  }

  lemma {:induction false} FeedSplit(f: Feeding, a: seq<seq<byte>>, b: seq<seq<byte>>, maxSize: nat)
    ensures FeedAll(f, a + b, maxSize) == FeedAll(FeedAll(f, a, maxSize), b, maxSize)
    decreases |b|
  {
    if |b| == 0 {
      assert a + b == a;
    } else {
      FeedSplit(f, a, b[..|b| - 1], maxSize);
      assert (a + b)[..|a + b| - 1] == a + b[..|b| - 1];
    }
  }

  /** Frames already found play no part in what follows. */
  lemma {:induction false} FeedCarries(f: Feeding, chunks: seq<seq<byte>>, maxSize: nat)
    ensures var g := FeedAll(f.(done := []), chunks, maxSize);
            FeedAll(f, chunks, maxSize) == Feeding(f.done + g.done, g.stretch)
  {
    if |chunks| > 0 {
      FeedCarries(f, chunks[..|chunks| - 1], maxSize);
      var g := FeedAll(f.(done := []), chunks[..|chunks| - 1], maxSize);
      assert f.done + g.done + ScanFrom(START, g.stretch).frames == f.done + (g.done + ScanFrom(START, g.stretch).frames);
    }
  }

  /** After an overflow, what follows comes out as from a new buffer. */
  lemma OverflowStartsAfresh(a: seq<seq<byte>>, chunk: seq<byte>, b: seq<seq<byte>>, maxSize: nat)
    requires Overflows(FeedAll(NOTHING, a, maxSize), chunk, maxSize)
    ensures var before, after := FeedAll(NOTHING, a, maxSize), FeedAll(NOTHING, b, maxSize);
            var all := FeedAll(NOTHING, a + [chunk] + b, maxSize);
            all.stretch == after.stretch && FramesSoFar(all) == FramesSoFar(before) + FramesSoFar(after)
  {
    var before := FeedAll(NOTHING, a, maxSize);
    FeedSplit(NOTHING, a + [chunk], b, maxSize);
    FeedSplit(NOTHING, a, [chunk], maxSize);
    assert FeedAll(before, [chunk], maxSize) == FeedOne(before, chunk, maxSize) by { assert [chunk][..0] == []; }
    var reset := Feeding(FramesSoFar(before), []);
    FeedCarries(reset, b, maxSize);
    assert reset.(done := []) == NOTHING;
  }

  // ── The reassembly buffer ───────────────────────────────────────────

  class ReassemblyBuffer {
    var buf: seq<byte>
    const maxSize: nat
    var inFrame: bool

    constructor (maxSize: nat)
      ensures buf == [] && !inFrame && this.maxSize == maxSize
    {
      buf, inFrame := [], false;
      this.maxSize := maxSize;
    }

    predicate Bounded()
      reads this
    {
      |buf| <= maxSize
    }

    /** Take in a chunk. On overflow the buffer is as new. */
    method Push(data: seq<byte>) returns (ok: bool)
      requires Bounded()
      modifies this
      ensures Bounded()
      ensures ok <==> old(|buf|) + |data| <= maxSize
      ensures ok ==> buf == old(buf) + data && inFrame == old(inFrame)
      ensures !ok ==> buf == [] && !inFrame
    {
      if |buf| + |data| > maxSize {
        buf := [];
        inFrame := false;
        return false;
      }
      buf := buf + data;
      return true;
    }

    /** Find the complete frames, and where the partial one starts. */
    static method FindFrames(buf: seq<byte>, inFrame: bool) returns (frames: seq<seq<byte>>, lastConsumed: nat, began: bool)
      ensures lastConsumed <= |buf| && (began <==> lastConsumed > 0 || inFrame)
      ensures Scan(frames, buf[lastConsumed..], began) == ScanFrom(Scan([], [], inFrame), buf)
    {
      frames := [];
      var frameStart: Option<nat> := if inFrame then Some(0) else None;
      lastConsumed := 0;
      ghost var scan := Scan([], [], inFrame);
      var i := 0;
      while i < |buf|
        invariant lastConsumed <= i <= |buf|
        invariant frameStart == if lastConsumed > 0 || inFrame then Some(lastConsumed) else None
        invariant scan == Scan(frames, buf[lastConsumed..i], frameStart.Some?)
        invariant scan == ScanFrom(Scan([], [], inFrame), buf[..i])
      {
        ScanNext(Scan([], [], inFrame), buf, i);
        scan := ScanOne(scan, buf[i]);
        if buf[i] == FEND {
          if frameStart.Some? && i > frameStart.value {
            frames := frames + [buf[frameStart.value..i]];
          }
          frameStart := Some(i + 1);
          lastConsumed := i + 1;
        } else {
          assert buf[lastConsumed..i + 1] == buf[lastConsumed..i] + [buf[i]];
        }
        i := i + 1;
      }
      assert buf[..i] == buf && buf[lastConsumed..i] == buf[lastConsumed..];
      began := frameStart.Some?;
    }

    /** Take out every complete frame, leaving the partial one. */
    method DrainFrames() returns (frames: seq<seq<byte>>)
      requires Bounded()
      modifies this
      ensures Bounded()
      ensures Scan(frames, buf, inFrame) == ScanFrom(Scan([], [], old(inFrame)), old(buf))
    {
      var lastConsumed, began;
      frames, lastConsumed, began := FindFrames(buf, inFrame);
      if lastConsumed > 0 {
        buf := buf[lastConsumed..];
      }
      if lastConsumed > 0 || began {
        inFrame := true;
      }
    }

    /** What the buffer holds is what is left of the stretch. */
    predicate Holds(f: Feeding)
      reads this
    {
      Scan(ScanFrom(START, f.stretch).frames, buf, inFrame) == ScanFrom(START, f.stretch)
    }

    /** Push a chunk and drain, with `f` what came before. */
    method Take(chunk: seq<byte>, ghost f: Feeding) returns (more: seq<seq<byte>>, ok: bool)
      requires Bounded() && Holds(f)
      modifies this
      ensures Bounded() && Holds(FeedOne(f, chunk, maxSize))
      ensures ok <==> !Overflows(f, chunk, maxSize)
      ensures FramesSoFar(FeedOne(f, chunk, maxSize)) == FramesSoFar(f) + more
    {
      more := [];
      ScanResumes(f.stretch, chunk);
      ok := Push(chunk);
      if ok {
        more := DrainFrames();
      }
    }

    /** Push and drain chunk after chunk, going on after an overflow. */
    method Feed(chunks: seq<seq<byte>>) returns (frames: seq<seq<byte>>, overflows: nat)
      requires buf == [] && !inFrame
      modifies this
      ensures var all := FeedAll(NOTHING, chunks, maxSize);
              Bounded() && Holds(all) && frames == FramesSoFar(all)
      ensures overflows == 0 <==> forall n :: 0 <= n < |chunks| ==> Fits(chunks, n, maxSize)
    {
      frames, overflows := [], 0;
      ghost var f := NOTHING;
      for n := 0 to |chunks|
        invariant f == FeedAll(NOTHING, chunks[..n], maxSize)
        invariant Bounded() && Holds(f) && frames == FramesSoFar(f)
        invariant overflows == 0 <==> forall m :: 0 <= m < n ==> Fits(chunks, m, maxSize)
        invariant overflows == 0 ==> f == Feeding([], Flatten(chunks[..n]))
      {
        assert chunks[..n + 1][..n] == chunks[..n];
        var more, ok := Take(chunks[n], f);
        if !ok { overflows := overflows + 1; }
        assert f == Feeding([], Flatten(chunks[..n])) ==> (ok <==> Fits(chunks, n, maxSize));
        frames := frames + more;
        f := FeedOne(f, chunks[n], maxSize);
      }
      assert chunks[..|chunks|] == chunks;
    }
  }

  // ── End to end ──────────────────────────────────────────────────────

  function WireAll(frames: seq<KissFrame>): seq<byte> {
    if |frames| == 0 then [] else WireAll(frames[..|frames| - 1]) + Wire(frames[|frames| - 1])
  }

  function Inners(frames: seq<KissFrame>): (r: seq<seq<byte>>)
    ensures |r| == |frames|
  {
    seq(|frames|, i requires 0 <= i < |frames| => Inner(frames[i]))
  }

  /** One frame's wire bytes, read at a point between frames. */
  lemma ScanWire(s: Scan, f: KissFrame)
    requires s.tail == []
    ensures ScanFrom(s, Wire(f)) == Scan(s.frames + [Inner(f)], [], true)
  {
    UnstuffStuffed(f.data);
    var body := [FEND] + Inner(f);
    ScanSnoc(s, body, FEND);
    ScanAppend(s, [FEND], Inner(f));
    ScanSnoc(s, [], FEND);
    assert [] + [FEND] == [FEND];
    ScanPlain(ScanFrom(s, [FEND]), Inner(f));
    assert [] + Inner(f) == Inner(f);
  }

  lemma InnersSnoc(frames: seq<KissFrame>, f: KissFrame)
    ensures Inners(frames + [f]) == Inners(frames) + [Inner(f)]
  {
  }

  lemma {:induction false} ScanWireAll(frames: seq<KissFrame>)
    ensures ScanFrom(START, WireAll(frames)) == Scan(Inners(frames), [], |frames| > 0)
    decreases |frames|
  {
    if |frames| > 0 {
      var init, f := frames[..|frames| - 1], frames[|frames| - 1];
      ScanWireAll(init);
      ScanAppend(START, WireAll(init), Wire(f));
      ScanWire(Scan(Inners(init), [], |init| > 0), f);
      InnersSnoc(init, f);
      assert init + [f] == frames;
    }
  }

  /** Cut where the sizes say; what is left is the last chunk. */
  function Chop(bytes: seq<byte>, sizes: seq<nat>): seq<seq<byte>>
    decreases |sizes|
  {
    if |sizes| == 0 then [bytes]
    else
      var n := Min(sizes[|sizes| - 1], |bytes|);
      Chop(bytes[..|bytes| - n], sizes[..|sizes| - 1]) + [bytes[|bytes| - n..]]
  }

  lemma {:induction false} ChopWhole(bytes: seq<byte>, sizes: seq<nat>)
    ensures Flatten(Chop(bytes, sizes)) == bytes
    decreases |sizes|
  {
    if |sizes| == 0 {
      assert [bytes][..0] == [] && Flatten([]) + bytes == bytes;
    } else {
      var n := Min(sizes[|sizes| - 1], |bytes|);
      var init := Chop(bytes[..|bytes| - n], sizes[..|sizes| - 1]);
      ChopWhole(bytes[..|bytes| - n], sizes[..|sizes| - 1]);
      assert Chop(bytes, sizes)[..|init|] == init;
    }
  }

  lemma RawFrames(frames: seq<KissFrame>)
    ensures ScanFrom(START, WireAll(frames)).frames == Inners(frames)
    ensures (forall i :: 0 <= i < |frames| ==> DecodeSpec(Inners(frames)[i]) == Ok(frames[i])) <==>
            (forall i :: 0 <= i < |frames| ==> frames[i].command != FEND && frames[i].command != FESC)
  {
    ScanWireAll(frames);
    forall i | 0 <= i < |frames|
      ensures DecodeSpec(Inners(frames)[i]) == Ok(frames[i]) <==> frames[i].command != FEND && frames[i].command != FESC
    {
      DecodeEncoded(frames[i]);
    }
  }

  method EncodeAll(frames: seq<KissFrame>) returns (out: seq<byte>)
    ensures out == WireAll(frames)
  {
    out := [];
    for n := 0 to |frames|
      invariant out == WireAll(frames[..n])
    {
      assert frames[..n + 1][..n] == frames[..n];
      var one := Encode(frames[n]);
      out := out + one;
    }
    assert frames[..|frames|] == frames;
  }

  method DecodeAll(raw: seq<seq<byte>>) returns (out: seq<Decoded>)
    ensures |out| == |raw| && forall i :: 0 <= i < |raw| ==> out[i] == DecodeSpec(raw[i])
  {
    out := [];
    for n := 0 to |raw|
      invariant |out| == n && forall i :: 0 <= i < n ==> out[i] == DecodeSpec(raw[i])
    {
      var one := Decode(raw[n]);
      out := out + [one];
    }
  }

  /** Encode a list of frames, cut the bytes anywhere, push and drain chunk by
      chunk, and decode: if no chunk overflows, one result per frame comes out,
      and they are the frames exactly when no command byte is FEND or FESC. */
  method Transport(frames: seq<KissFrame>, sizes: seq<nat>, maxSize: nat) returns (back: seq<Decoded>)
    requires var chunks := Chop(WireAll(frames), sizes); forall n :: 0 <= n < |chunks| ==> Fits(chunks, n, maxSize)
    ensures |back| == |frames|
    ensures (forall i :: 0 <= i < |frames| ==> back[i] == Ok(frames[i])) <==>
            (forall i :: 0 <= i < |frames| ==> frames[i].command != FEND && frames[i].command != FESC)
  {
    var bytes := EncodeAll(frames);
    var chunks := Chop(bytes, sizes);
    ChopWhole(bytes, sizes);
    FeedWhole(chunks, maxSize);
    var buffer := new ReassemblyBuffer(maxSize);
    var raw, overflows := buffer.Feed(chunks);
    RawFrames(frames);
    assert raw == Inners(frames);
    back := DecodeAll(raw);
  }
}
