/**
 Framing: the streaming reader against a parser of the whole byte stream, and that parser
 against the layout frames are written in.
 */
module Framing {
  import opened Words
  import opened Buffers

  const HEADER_SIZE: nat := 8
  const MAX_INT32: nat := 0x7fff_ffff

  datatype Header = Header(size: uint32, dataOffset: byte, frameType: byte, channel: uint16)

  /** A frame body with the channel it came on. */
  datatype RawFrame = RawFrame(channel: uint16, body: bytes)

  /** What the first bytes of a stream hold. */
  datatype Scan = Starved | Malformed | Found(frame: RawFrame, rest: bytes)

  function HeaderOf(s: bytes): (h: Header)
    requires |s| == HEADER_SIZE
  {
    Pow256Values();
    Header(FromBe(s[..4]), s[4], s[5], FromBe(s[6..8]))
  }

  predicate GoodHeader(h: Header) {
    h.size >= HEADER_SIZE && h.dataOffset >= 2
  }

  /** The first frame with a body, were the whole stream at hand. */
  function NextFrame(s: bytes): (r: Scan)
    decreases |s|, 1
  {
    if |s| < HEADER_SIZE then Starved
    else
      var h := HeaderOf(s[..HEADER_SIZE]);
      if !GoodHeader(h) then Malformed else NextBody(h, s[HEADER_SIZE..])
  }

  /** Likewise, once the header has been taken off the stream. */
  function NextBody(h: Header, s: bytes): (r: Scan)
    requires GoodHeader(h)
    decreases |s|, 2
  {
    var n := h.size - HEADER_SIZE;
    if h.size > MAX_INT32 then Malformed
    else if |s| < n then Starved
    else if n == 0 then NextFrame(s)
    else Found(RawFrame(h.channel, s[..n]), s[n..])
  }

  /** All frames of a stream up to its end or its first malformed header. */
  function AllFrames(s: bytes): (fs: seq<RawFrame>)
    decreases |s|
  {
    match NextFrame(s)
    case Found(f, rest) => RestShorter(s); [f] + AllFrames(rest)
    case _ => []
  }

  lemma {:induction false} RestShorter(s: bytes)
    ensures NextFrame(s).Found? ==> |NextFrame(s).rest| < |s|
    decreases |s|
  {
    if |s| >= HEADER_SIZE {
      RestShorter(s[HEADER_SIZE..]);
    }
  }

  lemma {:induction false} ShortHeader(s: bytes)
    requires |s| < HEADER_SIZE
    ensures NextFrame(s) == Starved
  {
  }

  lemma {:induction false} ShortBody(h: Header, s: bytes)
    requires GoodHeader(h) && h.size <= MAX_INT32 && |s| < h.size - HEADER_SIZE
    ensures NextBody(h, s) == Starved
  {
  }

  lemma {:induction false} LongBody(h: Header, s: bytes)
    requires GoodHeader(h) && h.size > MAX_INT32
    ensures NextBody(h, s) == Malformed
  {
  }

  lemma {:induction false} EmptyBody(h: Header, s: bytes)
    requires GoodHeader(h) && h.size == HEADER_SIZE
    ensures NextBody(h, s) == NextFrame(s)
  {
  }

  // ---- the streaming reader ----------------------------------------------------------

  method ParseHeader(r: Buffer) returns (h: Header, ok: bool)
    requires r.Valid()
    modifies r`i
    ensures r.Valid()
    ensures old(r.Len()) >= HEADER_SIZE ==>
              && ok == GoodHeader(h)
              && h == HeaderOf(old(r.Unread()[..HEADER_SIZE]))
              && r.Unread() == old(r.Unread()[HEADER_SIZE..])
    ensures old(r.Len()) < HEADER_SIZE ==> !ok
  {
    var s, enough := r.Next(HEADER_SIZE);
    if !enough { return Header(0, 0, 0, 0), false; }
    assert s == old(r.Unread()[..HEADER_SIZE]);
    h := HeaderOf(s);
    ok := GoodHeader(h);
  }

  class Conn {
    const rxBuf: Buffer
    const net: Net
    const maxFrameSize: uint32

    constructor (rxBuf: Buffer, net: Net, maxFrameSize: uint32)
      requires rxBuf.Valid()
      ensures this.rxBuf == rxBuf && this.net == net && this.maxFrameSize == maxFrameSize
    {
      this.rxBuf, this.net, this.maxFrameSize := rxBuf, net, maxFrameSize;
    }

    /** Everything still to be read: what is buffered, then what the network will deliver. */
    function Stream(): (s: bytes)
      requires rxBuf.Valid()
      reads rxBuf, net
    {
      rxBuf.Unread() + Concat(net.pending)
    }

    /**
     readFrame finds the frame a parser of the whole stream would find and leaves the rest of
     the stream unread, however the bytes arrive.
     */
    method ReadFrame() returns (frame: RawFrame, ok: bool)
      requires rxBuf.Valid()
      modifies rxBuf, net
      ensures rxBuf.Valid()
      ensures ok == NextFrame(old(Stream())).Found?
      ensures ok ==> NextFrame(old(Stream())) == Found(frame, Stream())
    {
      hide NextFrame, NextBody;
      ghost var s0 := Stream();
      if rxBuf.Len() == 0 {
        rxBuf.Reset();
      } else if rxBuf.i > maxFrameSize {
        rxBuf.Reclaim();
      }
      var currentHeader := Header(0, 0, 0, 0);
      var frameInProgress := false;
      frame := RawFrame(0, []);
      while true
        invariant rxBuf.Valid()
        invariant frameInProgress ==>
                    && GoodHeader(currentHeader) && currentHeader.size <= MAX_INT32
                    && rxBuf.Len() < currentHeader.size - HEADER_SIZE
        invariant NextFrame(s0) == if frameInProgress then NextBody(currentHeader, Stream()) else NextFrame(Stream())
        decreases net.Measure(), rxBuf.Len()
      {
        if frameInProgress || rxBuf.Len() < HEADER_SIZE {
          var more := rxBuf.ReadFromOnce(net);
          if !more {
            assert Stream() == rxBuf.Unread();
            if frameInProgress { ShortBody(currentHeader, Stream()); } else { ShortHeader(Stream()); }
            return frame, false;
          }
        }
        if !frameInProgress {
          if rxBuf.Len() < HEADER_SIZE { continue; }
          var parsed;
          currentHeader, parsed := TakeHeader();
          if !parsed { return frame, false; }
          frameInProgress := true;
        }
        if currentHeader.size > MAX_INT32 {
          LongBody(currentHeader, Stream());
          return frame, false;
        }
        var bodySize := currentHeader.size - HEADER_SIZE;
        if rxBuf.Len() < bodySize { continue; }
        frameInProgress := false;
        if bodySize == 0 {
          EmptyBody(currentHeader, Stream());
          continue;
        }
        var body := TakeBody(currentHeader);
        return RawFrame(currentHeader.channel, body), true;
      }
    }

    /** The header is parsed and taken off the stream. */
    method TakeHeader() returns (h: Header, ok: bool)
      requires rxBuf.Valid() && rxBuf.Len() >= HEADER_SIZE
      modifies rxBuf`i
      ensures rxBuf.Valid() && ok == GoodHeader(h)
      ensures NextFrame(old(Stream())) == if ok then NextBody(h, Stream()) else Malformed
      ensures rxBuf.Len() == old(rxBuf.Len()) - HEADER_SIZE
    {
      ghost var u, c := rxBuf.Unread(), Concat(net.pending);
      assert (u + c)[..HEADER_SIZE] == u[..HEADER_SIZE];
      assert (u + c)[HEADER_SIZE..] == u[HEADER_SIZE..] + c;
      h, ok := ParseHeader(rxBuf);
    }

    /** A complete body is taken off the stream. */
    method TakeBody(h: Header) returns (body: bytes)
      requires rxBuf.Valid() && GoodHeader(h) && HEADER_SIZE < h.size <= MAX_INT32
      requires rxBuf.Len() >= h.size - HEADER_SIZE
      modifies rxBuf`i
      ensures rxBuf.Valid()
      ensures NextBody(h, old(Stream())) == Found(RawFrame(h.channel, body), Stream())
    {
      ghost var n, s := h.size - HEADER_SIZE, Stream();
      var enough;
      body, enough := rxBuf.Next(h.size - HEADER_SIZE);
      assert s == body + Stream();
      assert s[..n] == body && s[n..] == Stream();
    }

    /** The reading half of connReader: frames until the first error. */
    method ReadFrames() returns (fs: seq<RawFrame>)
      requires rxBuf.Valid()
      modifies rxBuf, net
      ensures fs == AllFrames(old(Stream()))
    {
      fs := [];
      ghost var s0 := Stream();
      while true
        invariant rxBuf.Valid() && AllFrames(s0) == fs + AllFrames(Stream())
        decreases |Stream()|
      {
        RestShorter(Stream());
        var f, ok := ReadFrame();
        if !ok { return; }
        fs := fs + [f];
      }
    }
  }

  // ---- layout ------------------------------------------------------------------------

  /** A frame on the wire as frames.Write lays it out; an empty body is a keepalive. */
  ghost function FrameBytes(f: RawFrame): (s: bytes)
    requires Sendable(f)
  {
    Pow256Values();
    Be(|f.body| + HEADER_SIZE, 4) + [2, 0] + Be(f.channel, 2) + f.body
  }

  ghost predicate Sendable(f: RawFrame) {
    |f.body| + HEADER_SIZE <= MAX_INT32
  }

  ghost function Layout(fs: seq<RawFrame>): (s: bytes)
    requires forall k | 0 <= k < |fs| :: Sendable(fs[k])
  {
    if fs == [] then [] else FrameBytes(fs[0]) + Layout(fs[1..])
  }

  function WithBody(fs: seq<RawFrame>): (r: seq<RawFrame>) {
    if fs == [] then []
    else if fs[0].body == [] then WithBody(fs[1..])
    else [fs[0]] + WithBody(fs[1..])
  }

  lemma {:induction false} HeaderOfFrame(f: RawFrame, tail: bytes)
    requires Sendable(f)
    ensures var s := FrameBytes(f) + tail;
            && |s| >= HEADER_SIZE
            && HeaderOf(s[..HEADER_SIZE]) == Header(|f.body| + HEADER_SIZE, 2, 0, f.channel)
            && s[HEADER_SIZE..] == f.body + tail
  {
    Pow256Values();
    var s := FrameBytes(f) + tail;
    var p, q := Be(|f.body| + HEADER_SIZE, 4), Be(f.channel, 2);
    var h := s[..HEADER_SIZE];
    assert h == p + [2, 0] + q;
    assert h[..4] == p && h[6..8] == q && h[4] == 2 && h[5] == 0;
    assert s == h + (f.body + tail);
  }

  lemma {:induction false} NextFrameOfLayout(f: RawFrame, tail: bytes)
    requires Sendable(f)
    ensures NextFrame(FrameBytes(f) + tail) == if f.body == [] then NextFrame(tail) else Found(f, tail)
  {
    HeaderOfFrame(f, tail);
    var s := f.body + tail;
    if f.body == [] {
      assert s == tail;
    } else {
      assert s[..|f.body|] == f.body && s[|f.body|..] == tail;
    }
  }

  /** The parser recovers the frames in order and drops the keepalives. */
  lemma {:induction false} LayoutParsed(fs: seq<RawFrame>)
    requires forall k | 0 <= k < |fs| :: Sendable(fs[k])
    ensures AllFrames(Layout(fs)) == WithBody(fs)
  {
    if fs != [] {
      NextFrameOfLayout(fs[0], Layout(fs[1..]));
      LayoutParsed(fs[1..]);
    }
  }

  /** Framing does not depend on chunking: any division of a layout into reads gives its frames. */
  method ReceiveLayout(ghost fs: seq<RawFrame>, chunks: seq<bytes>, maxFrameSize: uint32)
    returns (got: seq<RawFrame>)
    requires forall k | 0 <= k < |fs| :: Sendable(fs[k])
    requires Concat(chunks) == Layout(fs)
    ensures got == WithBody(fs)
  {
    var rx := new Buffer([]);
    var net := new Net(chunks);
    var c := new Conn(rx, net, maxFrameSize);
    assert c.Stream() == Layout(fs);
    got := c.ReadFrames();
    LayoutParsed(fs);
  }
}
