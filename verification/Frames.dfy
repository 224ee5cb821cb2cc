/** Frames on the wire: a length, a type, a request id and a body; and their reassembly from a stream of chunks. */
module Frames {
  import opened Bytes

  const HEADER_SIZE := 5
  const MAX_FRAME_LENGTH := 0x10_0000
  const COMPACT_LIMIT := 64 * 1024
  const MSG_ERROR: byte := 0xFF

  datatype Frame = Frame(kind: byte, requestId: uint32, body: bytes) {
    function Length(): nat {
      HEADER_SIZE + |body|
    }

    /** The receiver's limit on the length field. */
    predicate Within(limit: uint32) {
      Length() <= limit
    }
  }

  /** `FrameCodec::encode`. */
  function Encode(f: Frame): (s: bytes)
    ensures |s| == 9 + |f.body|
  {
    U32(f.Length() % 0x1_0000_0000) + [f.kind] + U32(f.requestId) + f.body
  }

  function EncodeAll(fs: seq<Frame>): bytes {
    if fs == [] then [] else Encode(fs[0]) + EncodeAll(fs[1..])
  }

  datatype Extracted = Ready(frame: Frame, used: nat) | NeedMoreData | LengthTooSmall | LengthTooLarge

  /** What the unread bytes begin with. */
  function Next(unread: bytes, limit: uint32): (e: Extracted)
    ensures e.Ready? ==> 9 <= e.used <= |unread|
  {
    if |unread| < 4 then NeedMoreData
    else
      var length := GetU32(unread, 0);
      if length < HEADER_SIZE then LengthTooSmall
      else if length > limit then LengthTooLarge
      else if |unread| < 4 + length then NeedMoreData
      else Ready(Frame(unread[4], GetU32(unread, 5), unread[9..4 + length]), 4 + length)
  }

  datatype Drained = Drained(frames: seq<Frame>, rest: bytes, stop: Extracted)

  /** All frames that can be taken, what is left, and why it is left. */
  function Drain(unread: bytes, limit: uint32): Drained
    decreases |unread|
  {
    match Next(unread, limit)
    case Ready(f, used) =>
      var d := Drain(unread[used..], limit);
      Drained([f] + d.frames, d.rest, d.stop)
    case e => Drained([], unread, e)
  }

  // ---- Decoding inverts encoding ----------------------------------------------------------------

  /** A frame is taken exactly when the unread bytes begin with the encoding of a legal frame, and then it is that
      frame. */
  lemma TakesExactlyEncodings(unread: bytes, f: Frame, used: nat, limit: uint32)
    ensures Next(unread, limit) == Ready(f, used) <==> f.Within(limit) && used == |Encode(f)| && Encode(f) <= unread
  {
    if Next(unread, limit) == Ready(f, used) {
      TakenIsEncoded(unread, f, used, limit);
    }
    if f.Within(limit) && used == |Encode(f)| && Encode(f) <= unread {
      EncodedIsTaken(unread, f, limit);
    }
  }

  lemma TakenIsEncoded(unread: bytes, f: Frame, used: nat, limit: uint32)
    requires Next(unread, limit) == Ready(f, used)
    ensures f.Within(limit) && used == |Encode(f)| && Encode(f) <= unread
  {
    hide GetU32, U32;
    var length: nat := GetU32(unread, 0);
    At32(unread, 0, length);
    At32(unread, 5, f.requestId);
    var n: nat := 4 + length;
    assert f.Length() == length;
    assert unread[..n] == unread[0..4] + [unread[4]] + unread[5..9] + unread[9..n];
    assert unread[..n] == Encode(f);
  }

  lemma EncodedIsTaken(unread: bytes, f: Frame, limit: uint32)
    requires f.Within(limit) && Encode(f) <= unread
    ensures Next(unread, limit) == Ready(f, |Encode(f)|)
  {
    hide GetU32, U32;
    var s, n := Encode(f), |Encode(f)|;
    assert s == unread[..n];
    assert s[0..4] == U32(f.Length()) && s[5..9] == U32(f.requestId) && s[4] == f.kind && s[9..] == f.body;
    assert unread[0..4] == s[0..4] && unread[5..9] == s[5..9] && unread[9..n] == s[9..];
    At32(unread, 0, f.Length());
    At32(unread, 5, f.requestId);
  }

  /** Draining the encoding of legal frames gives back those frames and leaves nothing. */
  lemma {:induction false} DrainEncoded(fs: seq<Frame>, limit: uint32)
    requires forall i :: 0 <= i < |fs| ==> fs[i].Within(limit)
    ensures Drain(EncodeAll(fs), limit) == Drained(fs, [], NeedMoreData)
    decreases |fs|
  {
    if fs != [] {
      var s := EncodeAll(fs);
      var n := |Encode(fs[0])|;
      assert s[..n] == Encode(fs[0]) && s[n..] == EncodeAll(fs[1..]);
      EncodedIsTaken(s, fs[0], limit);
      DrainEncoded(fs[1..], limit);
    }
  }

  // ---- Chunks ------------------------------------------------------------------------------

  /** More bytes change nothing about a frame or a length error that is already there. */
  lemma NextStable(a: bytes, b: bytes, limit: uint32)
    requires Next(a, limit) != NeedMoreData
    ensures Next(a + b, limit) == Next(a, limit)
  {
    assert GetU32(a + b, 0) == GetU32(a, 0);
    if Next(a, limit).Ready? {
      var n := 4 + GetU32(a, 0);
      assert (a + b)[9..n] == a[9..n];
    }
  }

  /** Draining early and going on gives the same as draining late. */
  lemma {:induction false} DrainConcat(a: bytes, b: bytes, limit: uint32)
    ensures var d := Drain(a, limit);
            var e := Drain(d.rest + b, limit);
            Drain(a + b, limit) == Drained(d.frames + e.frames, e.rest, e.stop)
    decreases |a|
  {
    hide Next;
    match Next(a, limit)
    case Ready(f, used) =>
      NextStable(a, b, limit);
      DrainConcat(a[used..], b, limit);
      assert (a + b)[used..] == a[used..] + b;
    case _ =>
  }

  /** A length error stays, whatever is pushed after it. */
  lemma ErrorPersists(unread: bytes, more: bytes, limit: uint32)
    requires Next(unread, limit).LengthTooSmall? || Next(unread, limit).LengthTooLarge?
    ensures Drain(unread + more, limit) == Drained([], unread + more, Next(unread, limit))
  {
    NextStable(unread, more, limit);
  }

  /** Nothing is lost or invented: the frames taken, encoded again, and what is left make up the stream, and what is
      left does not begin with a frame. */
  lemma {:induction false} DrainConserves(unread: bytes, limit: uint32)
    ensures var d := Drain(unread, limit);
            && unread == EncodeAll(d.frames) + d.rest && d.stop == Next(d.rest, limit) && !d.stop.Ready?
            && forall i :: 0 <= i < |d.frames| ==> d.frames[i].Within(limit)
    decreases |unread|
  {
    hide Next, Encode, EncodeAll;
    match Next(unread, limit)
    case Ready(f, used) =>
      DrainConserves(unread[used..], limit);
      TakenIsEncoded(unread, f, used, limit);
      var d := Drain(unread[used..], limit);
      EncodeOneMore(f, d.frames, d.rest);
      assert unread == unread[..used] + unread[used..];
    case _ =>
      EncodeNone(unread);
  }

  lemma EncodeOneMore(f: Frame, fs: seq<Frame>, rest: bytes)
    ensures EncodeAll([f] + fs) + rest == Encode(f) + (EncodeAll(fs) + rest)
  {
    hide Encode;
    assert ([f] + fs)[1..] == fs;
    assert Encode(f) + (EncodeAll(fs) + rest) == (Encode(f) + EncodeAll(fs)) + rest;
  }

  lemma EncodeNone(rest: bytes)
    ensures EncodeAll([]) + rest == rest
  {
  }

  lemma DrainStep(unread: bytes, limit: uint32)
    ensures var e := Next(unread, limit);
            if e.Ready? then
              var d := Drain(unread[e.used..], limit);
              Drain(unread, limit) == Drained([e.frame] + d.frames, d.rest, d.stop)
            else Drain(unread, limit) == Drained([], unread, e)
  {
    hide Next;
  }

  lemma DrainNothing(limit: uint32)
    ensures Drain([], limit) == Drained([], [], NeedMoreData)
  {
  }

  lemma GetSlice(buffer: bytes, from: nat, at: nat)
    requires from + at + 4 <= |buffer|
    ensures GetU32(buffer, from + at) == GetU32(buffer[from..], at)
  {
  }

  function Concat(chunks: seq<bytes>): bytes {
    if chunks == [] then [] else Concat(chunks[..|chunks| - 1]) + chunks[|chunks| - 1]
  }

  /** The chunks pushed one after the other, with a drain after each. */
  function Feed(chunks: seq<bytes>, limit: uint32): Drained {
    if chunks == [] then Drained([], [], NeedMoreData)
    else
      var d := Feed(chunks[..|chunks| - 1], limit);
      var e := Drain(d.rest + chunks[|chunks| - 1], limit);
      Drained(d.frames + e.frames, e.rest, e.stop)
  }

  // ---- The assembler -----------------------------------------------------------------------

  class FrameAssembler {
    var buffer: bytes
    var readOffset: nat

    constructor ()
      ensures Valid() && Unread() == []
    {
      buffer, readOffset := [], 0;
    }

    ghost predicate Valid()
      reads this
    {
      readOffset <= |buffer|
    }

    ghost function Unread(): bytes
      requires Valid()
      reads this
    {
      buffer[readOffset..]
    }

    method PushBytes(data: bytes)
      requires Valid()
      modifies this
      ensures Valid() && Unread() == old(Unread()) + data
    {
      if data == [] {
        return;
      }
      buffer := buffer + data;
    }

    method ExtractNextFrame() returns (e: Extracted)
      requires Valid()
      modifies this
      ensures Valid() && e == Next(old(Unread()), MAX_FRAME_LENGTH)
      ensures Unread() == if e.Ready? then old(Unread())[e.used..] else old(Unread())
    {
      hide GetU32;
      ghost var unread := Unread();
      var available := |buffer| - readOffset;
      if available < 4 {
        return NeedMoreData;
      }
      var length := GetU32(buffer, readOffset);
      GetSlice(buffer, readOffset, 0);
      if length < HEADER_SIZE {
        return LengthTooSmall;
      }
      if length > MAX_FRAME_LENGTH {
        return LengthTooLarge;
      }
      var total := 4 + length;
      if available < total {
        return NeedMoreData;
      }
      var at := readOffset + 4;
      var body := if length > HEADER_SIZE then buffer[at + HEADER_SIZE..at + length] else [];
      e := Ready(Frame(buffer[at], GetU32(buffer, at + 1), body), total);
      GetSlice(buffer, readOffset, 5);
      assert body == unread[9..total];
      readOffset := readOffset + total;
      CompactIfNeeded();
    }

    /** Compaction never changes the unread bytes. */
    method CompactIfNeeded()
      requires Valid()
      modifies this
      ensures Valid() && Unread() == old(Unread())
    {
      if readOffset == |buffer| {
        buffer, readOffset := [], 0;
      } else if readOffset > COMPACT_LIMIT {
        buffer, readOffset := buffer[readOffset..], 0;
      }
    }

    /** The extraction loop of the event loop. */
    method TakeAll() returns (frames: seq<Frame>, stop: Extracted)
      requires Valid()
      modifies this
      ensures Valid() && Drain(old(Unread()), MAX_FRAME_LENGTH) == Drained(frames, Unread(), stop)
    {
      hide Next, Drain;
      ghost var start := Unread();
      DrainStep(start, MAX_FRAME_LENGTH);
      frames := [];
      stop := ExtractNextFrame();
      while stop.Ready?
        invariant Valid()
        invariant stop.Ready? ==>
                    var d := Drain(Unread(), MAX_FRAME_LENGTH);
                    Drain(start, MAX_FRAME_LENGTH) == Drained(frames + ([stop.frame] + d.frames), d.rest, d.stop)
        invariant !stop.Ready? ==> Drain(start, MAX_FRAME_LENGTH) == Drained(frames, Unread(), stop)
        decreases |Unread()|, stop.Ready?
      {
        DrainStep(Unread(), MAX_FRAME_LENGTH);
        ghost var d := Drain(Unread(), MAX_FRAME_LENGTH);
        assert frames + ([stop.frame] + d.frames) == frames + [stop.frame] + d.frames;
        frames := frames + [stop.frame];
        stop := ExtractNextFrame();
        assert frames + [] == frames;
      }
    }

    /** The reads of one connection: after every chunk the assembler is drained. */
    method FeedChunks(chunks: seq<bytes>) returns (frames: seq<Frame>, stop: Extracted)
      requires Valid() && Unread() == []
      modifies this
      ensures Valid() && Feed(chunks, MAX_FRAME_LENGTH) == Drained(frames, Unread(), stop)
    {
      hide Drain;
      frames, stop := [], NeedMoreData;
      for i := 0 to |chunks|
        invariant Valid() && Feed(chunks[..i], MAX_FRAME_LENGTH) == Drained(frames, Unread(), stop)
      {
        assert chunks[..i + 1][..i] == chunks[..i];
        PushBytes(chunks[i]);
        var more, why := TakeAll();
        frames, stop := frames + more, why;
      }
      assert chunks[..|chunks|] == chunks;
    }
  }

  lemma {:induction false} FeedIsDrain(chunks: seq<bytes>, limit: uint32)
    ensures Feed(chunks, limit) == Drain(Concat(chunks), limit)
    decreases |chunks|
  {
    hide Drain;
    if chunks == [] {
      DrainNothing(limit);
    } else {
      var n := |chunks| - 1;
      FeedIsDrain(chunks[..n], limit);
      DrainConcat(Concat(chunks[..n]), chunks[n], limit);
    }
  }

  /** Chunk independence: however the encoding of legal frames is cut into chunks, draining after each chunk yields
      those frames, and nothing is left over. */
  lemma ChunkIndependence(fs: seq<Frame>, chunks: seq<bytes>, limit: uint32)
    requires (forall i :: 0 <= i < |fs| ==> fs[i].Within(limit)) && Concat(chunks) == EncodeAll(fs)
    ensures Feed(chunks, limit) == Drained(fs, [], NeedMoreData)
  {
    FeedIsDrain(chunks, limit);
    DrainEncoded(fs, limit);
  }

  // ---- Error frames ------------------------------------------------------------------------

  function ErrorFrame(requestId: uint32, code: uint16, message: bytes): Frame {
    Frame(MSG_ERROR, requestId, U16(code) + message)
  }

  datatype ErrorInfo = ErrorInfo(code: uint16, message: bytes)

  function ParseError(f: Frame): Option<ErrorInfo> {
    if f.kind != MSG_ERROR || |f.body| < 2 then None else Some(ErrorInfo(GetU16(f.body, 0), f.body[2..]))
  }

  /** An error frame parses to what it was made of, and whatever parses was made so. */
  lemma ErrorFrameRoundTrip(f: Frame, code: uint16, message: bytes)
    ensures ParseError(f) == Some(ErrorInfo(code, message)) <==> f == ErrorFrame(f.requestId, code, message)
  {
    if |f.body| >= 2 {
      At16(f.body, 0, code);
      assert f.body == f.body[0..2] + f.body[2..];
    }
    var g := ErrorFrame(f.requestId, code, message);
    assert g.body[0..2] == U16(code) && g.body[2..] == message;
    At16(g.body, 0, code);
  }
}
