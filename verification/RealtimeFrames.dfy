/** Length-prefixed frames of the realtime stream, and the reader that stays in step with them. */
module RealtimeFrames {
  import opened Results

  newtype Byte = x: int | 0 <= x < 256

  const RT_FRAME_SIZE: nat := 1220
  const RT_MAX_FRAME_SIZE: nat := 8192

  // --- the length prefix ---

  function EncodeLength(n: nat): (b: seq<Byte>)
    requires n < 0x1_0000_0000
    ensures |b| == 4
  {
    [(n / 0x100_0000) as Byte, (n / 0x1_0000 % 0x100) as Byte, (n / 0x100 % 0x100) as Byte, (n % 0x100) as Byte]
  }

  /** Big-endian. */
  function DecodeLength(b: seq<Byte>): nat
    requires |b| == 4
  {
    ((b[0] as nat * 0x100 + b[1] as nat) * 0x100 + b[2] as nat) * 0x100 + b[3] as nat
  }

  lemma DecodeInvertsEncode(n: nat)
    requires n < 0x1_0000_0000
    ensures DecodeLength(EncodeLength(n)) == n
  {
    assert n / 0x1_0000 / 0x100 == n / 0x100_0000 && n / 0x100 / 0x100 == n / 0x1_0000;
  }

  lemma EncodeInvertsDecode(b: seq<Byte>)
    requires |b| == 4
    ensures DecodeLength(b) < 0x1_0000_0000 && EncodeLength(DecodeLength(b)) == b
  {
    var n := DecodeLength(b);
    var high := b[0] as nat * 0x100 + b[1] as nat;
    assert n / 0x100 == high * 0x100 + b[2] as nat && n % 0x100 == b[3] as nat;
    assert n / 0x1_0000 == high;
  }

  // --- reading ---

  datatype FrameError = NoLength | Implausible(length: nat) | NoBody

  /** What one read returns, and what it leaves in the stream. */
  datatype Read = Read(result: Result<Option<seq<Byte>>, FrameError>, rest: seq<Byte>)

  function ReadFrom(s: seq<Byte>): Read {
    if |s| < 4 then Read(Err(NoLength), [])
    else
      var size, rest := DecodeLength(s[..4]), s[4..];
      if size <= 4 || size > RT_MAX_FRAME_SIZE then Read(Err(Implausible(size)), rest)
      else if |rest| < size - 4 then Read(Err(NoBody), [])
      else Read(Ok(if size == RT_FRAME_SIZE then Some(rest[..size - 4]) else None), rest[size - 4..])
  }

  /** A connection, as the bytes that will still arrive before it ends or goes quiet. */
  class Stream {
    var pending: seq<Byte>

    constructor (bytes: seq<Byte>)
      ensures pending == bytes
    {
      pending := bytes;
    }

    /** Fills a buffer of `n` bytes, or fails with whatever was there used up. */
    method ReadExact(n: nat) returns (bytes: Option<seq<Byte>>)
      modifies this
      ensures |old(pending)| >= n ==> bytes == Some(old(pending)[..n]) && pending == old(pending)[n..]
      ensures |old(pending)| < n ==> bytes == None && pending == []
    {
      if |pending| < n {
        pending := [];
        return None;
      }
      bytes := Some(pending[..n]);
      pending := pending[n..];
    }

    method ReadFrame() returns (frame: Result<Option<seq<Byte>>, FrameError>)
      modifies this
      ensures Read(frame, pending) == ReadFrom(old(pending))
    {
      var prefix := ReadExact(4);
      if prefix.None? {
        return Err(NoLength);
      }
      var size := DecodeLength(prefix.value);
      if size <= 4 || size > RT_MAX_FRAME_SIZE {
        return Err(Implausible(size));
      }
      var body := ReadExact(size - 4);
      if body.None? {
        return Err(NoBody);
      }
      frame := Ok(if size == RT_FRAME_SIZE then body else None);
    }

    /** The reader's loop on one connection: everything it understands, until the connection has to be replaced. */
    method ReadAll() returns (bodies: seq<seq<Byte>>, error: FrameError)
      modifies this
      ensures (bodies, error) == Reading(old(pending))
    {
      hide ReadFrom;
      bodies := [];
      ghost var ahead := Reading(pending);
      assert [] + ahead.0 == ahead.0;
      while true
        invariant Reading(old(pending)) == (bodies + ahead.0, ahead.1)
        invariant ahead == Reading(pending)
        decreases |pending|
      {
        Shrinks(pending);
        var frame := ReadFrame();
        ghost var next := Reading(pending);
        match frame {
          case Err(e) =>
            assert bodies + [] == bodies;
            return bodies, e;
          case Ok(None) =>
          case Ok(Some(body)) =>
            assert bodies + ([body] + next.0) == (bodies + [body]) + next.0;
            bodies := bodies + [body];
        }
        ahead := next;
      }
    }
  }

  lemma Shrinks(s: seq<Byte>)
    ensures ReadFrom(s).result.Ok? ==> |ReadFrom(s).rest| < |s|
  {
  }

  function Reading(s: seq<Byte>): (seq<seq<Byte>>, FrameError)
    decreases |s|
  {
    var r := ReadFrom(s);
    match r.result
    case Err(e) => ([], e)
    case Ok(frame) =>
      Shrinks(s);
      var (bodies, error) := Reading(r.rest);
      (if frame.Some? then [frame.value] + bodies else bodies, error)
  }

  // --- staying in step ---

  /** A body the reader can take in one frame. */
  predicate Fits(body: seq<Byte>) { 1 <= |body| <= 8188 }

  function Framed(body: seq<Byte>): seq<Byte>
    requires Fits(body)
  {
    EncodeLength(|body| + 4) + body
  }

  predicate Understood(body: seq<Byte>) { |body| == 1216 }

  /** A whole frame is read, exactly that frame is taken, and its body is returned if it is understood. */
  lemma FrameIsRead(body: seq<Byte>, rest: seq<Byte>)
    requires Fits(body)
    ensures ReadFrom(Framed(body) + rest) == Read(Ok(if Understood(body) then Some(body) else None), rest)
  {
    hide EncodeLength, DecodeLength;
    var s := Framed(body) + rest;
    assert s[..4] == EncodeLength(|body| + 4) && s[4..] == body + rest;
    DecodeInvertsEncode(|body| + 4);
    assert s[4..][..|body|] == body && s[4..][|body|..] == rest;
  }

  /** One read succeeds exactly when a whole frame comes next. */
  lemma OnlyFramesAreRead(s: seq<Byte>)
    ensures ReadFrom(s).result.Ok? <==> exists body :: Fits(body) && s == Framed(body) + ReadFrom(s).rest
  {
    hide EncodeLength, DecodeLength;
    if ReadFrom(s).result.Ok? {
      var n := DecodeLength(s[..4]);
      var body := s[4..][..n - 4];
      EncodeInvertsDecode(s[..4]);
      assert s == s[..4] + (body + s[4..][n - 4..]);
      assert Fits(body) && s == Framed(body) + ReadFrom(s).rest;
    }
    if body :| Fits(body) && s == Framed(body) + ReadFrom(s).rest {
      FrameIsRead(body, ReadFrom(s).rest);
    }
  }

  /** A read fails for want of a length, on a length no frame has, or for want of the body, in this order. */
  lemma FailuresExact(s: seq<Byte>)
    ensures var r := ReadFrom(s).result;
            && (r == Err(NoLength) <==> |s| < 4)
            && (r.Err? && r.error.Implausible? <==> 4 <= |s| && !(5 <= DecodeLength(s[..4]) <= 8192))
            && (r == Err(NoBody) <==> 4 <= |s| < DecodeLength(s[..4]) <= 8192 && 5 <= DecodeLength(s[..4]))
            && (r.Err? && r.error.Implausible? ==> r.error.length == DecodeLength(s[..4]))
  {
    hide DecodeLength;
  }

  function Stretch(bodies: seq<seq<Byte>>): seq<Byte>
    requires forall b :: b in bodies ==> Fits(b)
  {
    if bodies == [] then [] else Framed(bodies[0]) + Stretch(bodies[1..])
  }

  function Kept(bodies: seq<seq<Byte>>): seq<seq<Byte>> {
    if bodies == [] then []
    else if Understood(bodies[0]) then [bodies[0]] + Kept(bodies[1..])
    else Kept(bodies[1..])
  }

  /**
   On any run of frames the reader returns exactly the understood bodies in order, skips the others, and goes
   on with whatever follows them: it never leaves a frame boundary.
   */
  lemma {:induction false} StaysInStep(bodies: seq<seq<Byte>>, tail: seq<Byte>)
    requires forall b :: b in bodies ==> Fits(b)
    ensures Reading(Stretch(bodies) + tail) == (Kept(bodies) + Reading(tail).0, Reading(tail).1)
  {
    hide ReadFrom, Framed, EncodeLength;
    if bodies == [] {
      assert Stretch(bodies) + tail == tail && Kept(bodies) + Reading(tail).0 == Reading(tail).0;
    } else {
      var rest := Stretch(bodies[1..]) + tail;
      assert Stretch(bodies) + tail == Framed(bodies[0]) + rest;
      FrameIsRead(bodies[0], rest);
      StaysInStep(bodies[1..], tail);
      var kept, after := Kept(bodies[1..]), Reading(tail).0;
      assert [bodies[0]] + (kept + after) == ([bodies[0]] + kept) + after;
    }
  }

  /** Frames alone are read to their end and no further. */
  lemma FramesReadBack(bodies: seq<seq<Byte>>)
    requires forall b :: b in bodies ==> Fits(b)
    ensures Reading(Stretch(bodies)) == (Kept(bodies), NoLength)
  {
    hide Framed, EncodeLength, DecodeLength;
    StaysInStep(bodies, []);
    assert Stretch(bodies) + [] == Stretch(bodies);
    assert Reading([]) == ([], NoLength);
    assert Kept(bodies) + [] == Kept(bodies);
  }
}
