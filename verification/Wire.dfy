/**
  The bytes between server and client. Board updates are a stream of frames of different sizes,
  connection requests are records of one fixed size. `Receive` says what one call of
  `receive_board_update` makes of a stream; decoding a stream of frames gives back the frames,
  and of a stream cut anywhere exactly the complete ones.
 */
module Wire {
  import opened Maze

  type byte = b: int | 0 <= b < 256

  const OP_CODE_CONNECT: byte := 1
  const OP_CODE_BOARD: byte := 4
  const MAX_BOARD_SIZE := 2048
  const MAX_PIPE_PATH_LENGTH: nat := 40

  // ----- integers of 32 bits, least significant byte first

  type int32 = v: int | -0x8000_0000 <= v < 0x8000_0000

  /** Two's complement wrap-around of a product of two ints. */
  function Wrap32(v: int): int32 {
    var u := v % 0x1_0000_0000;
    if u < 0x8000_0000 then u else u - 0x1_0000_0000
  }

  function EncodeInt(v: int32): (bs: seq<byte>)
    ensures |bs| == 4
  {
    var u := v % 0x1_0000_0000;
    [u % 0x100, u / 0x100 % 0x100, u / 0x1_0000 % 0x100, u / 0x100_0000]
  }

  function DecodeInt(bs: seq<byte>): int32
    requires |bs| == 4
  {
    var b0: int, b1: int, b2: int, b3: int := bs[0], bs[1], bs[2], bs[3];
    Wrap32(b0 + 0x100 * b1 + 0x1_0000 * b2 + 0x100_0000 * b3)
  }

  lemma IntRoundTrip(v: int32)
    ensures DecodeInt(EncodeInt(v)) == v
  {
    FourBytes(v % 0x1_0000_0000);
  }

  lemma FourBytes(u: nat)
    ensures u == u % 0x100 + 0x100 * (u / 0x100 % 0x100) + 0x1_0000 * (u / 0x1_0000 % 0x100)
                 + 0x100_0000 * (u / 0x100_0000)
  {
    var q := u / 0x100;
    var r := q / 0x100;
    assert u == 0x100 * q + u % 0x100;
    assert q == 0x100 * r + q % 0x100;
    assert r == u / 0x1_0000;
    assert r == 0x100 * (r / 0x100) + r % 0x100;
    assert r / 0x100 == u / 0x100_0000;
  }

  // ----- frames

  datatype Frame = Frame(width: int32, height: int32, tempo: int32, victory: int32, gameOver: int32,
                         points: int32, data: seq<byte>)

  function Header(f: Frame): (bs: seq<byte>)
    ensures |bs| == 24
  {
    EncodeInt(f.width) + EncodeInt(f.height) + EncodeInt(f.tempo) +
    EncodeInt(f.victory) + EncodeInt(f.gameOver) + EncodeInt(f.points)
  }

  /** What `send_board_update` writes. */
  function EncodeFrame(f: Frame): (bs: seq<byte>)
    ensures |bs| == 25 + |f.data|
  {
    [OP_CODE_BOARD] + Header(f) + f.data
  }

  datatype Reply = Board(f: Frame) | EndOfStream | ReadError | BadOpcode | BadArguments | BadSize | BadData

  /** One call of `receive_board_update`: its answer, and the bytes left in the pipe. */
  datatype Received = Received(reply: Reply, rest: seq<byte>)

  function Receive(bs: seq<byte>): (r: Received)
    ensures |r.rest| <= |bs| && (r.reply.Board? ==> |r.rest| < |bs|)
  {
    if bs == [] then Received(EndOfStream, [])
    else if bs[0] != OP_CODE_BOARD then Received(BadOpcode, bs[1..])
    else if |bs| < 25 then Received(BadArguments, [])
    else
      var width: int, height: int := DecodeInt(bs[1..5]), DecodeInt(bs[5..9]);
      var total := Wrap32(width * height);
      if total > MAX_BOARD_SIZE || total <= 0 then Received(BadSize, bs[25..])
      else if |bs| < 25 + total then Received(BadData, [])
      else
        Received(Board(Frame(width, height, DecodeInt(bs[9..13]), DecodeInt(bs[13..17]), DecodeInt(bs[17..21]),
                             DecodeInt(bs[21..25]), bs[25..25 + total])),
                 bs[25 + total..])
  }

  /** A frame as the server builds it: the data fills the announced area. */
  predicate Built(f: Frame) {
    var w: int, h: int := f.width, f.height;
    Wrap32(w * h) == |f.data|
  }

  predicate Fits(f: Frame) {
    Built(f) && 0 < |f.data| <= MAX_BOARD_SIZE
  }

  lemma SixFields(a: seq<byte>, b: seq<byte>, c: seq<byte>, d: seq<byte>, e: seq<byte>, f: seq<byte>, bs: seq<byte>)
    requires |a| == |b| == |c| == |d| == |e| == |f| == 4
    requires |bs| >= 25 && bs[1..25] == a + b + c + d + e + f
    ensures bs[1..5] == a && bs[5..9] == b && bs[9..13] == c && bs[13..17] == d && bs[17..21] == e && bs[21..25] == f
  {
    var h := a + b + c + d + e + f;
    assert h[0..4] == a && h[4..8] == b && h[8..12] == c && h[12..16] == d && h[16..20] == e && h[20..24] == f;
    Shifted(bs, 0, 4);
    Shifted(bs, 4, 8);
    Shifted(bs, 8, 12);
    Shifted(bs, 12, 16);
    Shifted(bs, 16, 20);
    Shifted(bs, 20, 24);
  }

  lemma Shifted(bs: seq<byte>, i: nat, j: nat)
    requires |bs| >= 25 && i <= j <= 24
    ensures bs[1 + i..1 + j] == bs[1..25][i..j]
  {
    assert forall k :: 0 <= k < j - i ==> bs[1 + i..1 + j][k] == bs[1 + i + k] == bs[1..25][i..j][k];
  }

  /** A frame piece by piece, as it is written. */
  lemma FramePieces(f: Frame)
    ensures var bs := EncodeFrame(f);
            && bs[0..1] == [OP_CODE_BOARD] && bs[1..5] == EncodeInt(f.width) && bs[5..9] == EncodeInt(f.height)
            && bs[9..13] == EncodeInt(f.tempo) && bs[13..17] == EncodeInt(f.victory)
            && bs[17..21] == EncodeInt(f.gameOver) && bs[21..25] == EncodeInt(f.points)
            && bs[25..25 + |f.data|] == f.data
  {
    var bs := EncodeFrame(f);
    assert bs[1..25] == Header(f);
    SixFields(EncodeInt(f.width), EncodeInt(f.height), EncodeInt(f.tempo),
              EncodeInt(f.victory), EncodeInt(f.gameOver), EncodeInt(f.points), bs);
  }

  /** Four bytes at a place, least significant first, hold a 32-bit int. */
  predicate HoldsInt(bs: seq<byte>, at: nat, v: int32) {
    && at + 4 <= |bs|
    && var b0: int, b1: int, b2: int, b3: int := bs[at], bs[at + 1], bs[at + 2], bs[at + 3];
       b0 + 256 * b1 + 65536 * b2 + 16777216 * b3 == v % 4294967296
  }

  lemma EncodedHolds(v: int32)
    ensures HoldsInt(EncodeInt(v), 0, v)
  {
    FourBytes(v % 0x1_0000_0000);
  }

  lemma PieceHolds(bs: seq<byte>, at: nat, v: int32)
    requires at + 4 <= |bs| && bs[at..at + 4] == EncodeInt(v)
    ensures HoldsInt(bs, at, v)
  {
    EncodedHolds(v);
    var piece := bs[at..at + 4];
    assert piece[0] == bs[at] && piece[1] == bs[at + 1] && piece[2] == bs[at + 2] && piece[3] == bs[at + 3];
  }

  /** A frame byte by byte: the opcode 4, six ints in this order, the data. */
  lemma FrameLayout(f: Frame)
    ensures var bs := EncodeFrame(f);
            && |bs| == 25 + |f.data| && bs[0] == 4 && bs[25..] == f.data
            && HoldsInt(bs, 1, f.width) && HoldsInt(bs, 5, f.height) && HoldsInt(bs, 9, f.tempo)
            && HoldsInt(bs, 13, f.victory) && HoldsInt(bs, 17, f.gameOver) && HoldsInt(bs, 21, f.points)
  {
    var bs := EncodeFrame(f);
    FramePieces(f);
    assert bs[25..] == bs[25..25 + |f.data|];
    PieceHolds(bs, 1, f.width);
    PieceHolds(bs, 5, f.height);
    PieceHolds(bs, 9, f.tempo);
    PieceHolds(bs, 13, f.victory);
    PieceHolds(bs, 17, f.gameOver);
    PieceHolds(bs, 21, f.points);
  }

  lemma HeaderFields(f: Frame, bs: seq<byte>)
    requires |bs| >= 25 && bs[1..25] == Header(f)
    ensures DecodeInt(bs[1..5]) == f.width && DecodeInt(bs[5..9]) == f.height && DecodeInt(bs[9..13]) == f.tempo
    ensures DecodeInt(bs[13..17]) == f.victory && DecodeInt(bs[17..21]) == f.gameOver
    ensures DecodeInt(bs[21..25]) == f.points
  {
    SixFields(EncodeInt(f.width), EncodeInt(f.height), EncodeInt(f.tempo),
              EncodeInt(f.victory), EncodeInt(f.gameOver), EncodeInt(f.points), bs);
    IntRoundTrip(f.width);
    IntRoundTrip(f.height);
    IntRoundTrip(f.tempo);
    IntRoundTrip(f.victory);
    IntRoundTrip(f.gameOver);
    IntRoundTrip(f.points);
  }

  /** One frame at the front of a stream is received whole, and the rest stays, exactly when its size fits. */
  lemma FrameRoundTrip(f: Frame, rest: seq<byte>)
    requires Built(f)
    ensures Receive(EncodeFrame(f) + rest) == Received(Board(f), rest) <==> Fits(f)
    ensures !Fits(f) ==> Receive(EncodeFrame(f) + rest).reply == BadSize
  {
    var bs := EncodeFrame(f) + rest;
    assert bs[1..25] == Header(f);
    HeaderFields(f, bs);
    assert bs[25..25 + |f.data|] == f.data;
    assert bs[25 + |f.data|..] == rest;
  }

  /** Reading an int is finding the one that the four bytes hold. */
  lemma HeldIsDecoded(bs: seq<byte>, at: nat, v: int32)
    requires HoldsInt(bs, at, v)
    ensures DecodeInt(bs[at..at + 4]) == v
  {
    var piece := bs[at..at + 4];
    assert piece[0] == bs[at] && piece[1] == bs[at + 1] && piece[2] == bs[at + 2] && piece[3] == bs[at + 3];
  }

  /** What is made of bytes that are no frame, and how much of them is used up. */
  lemma NoFrame(bs: seq<byte>)
    ensures bs == [] ==> Receive(bs) == Received(EndOfStream, [])
    ensures bs != [] && bs[0] != 4 ==> Receive(bs) == Received(BadOpcode, bs[1..])
    ensures 0 < |bs| < 25 && bs[0] == 4 ==> Receive(bs) == Received(BadArguments, [])
  {
  }

  /** A whole header: the fields are what its bytes hold, and the area it announces decides the rest. */
  lemma HeaderDecides(f: Frame, bs: seq<byte>, area: int32)
    requires |bs| >= 25 && bs[0] == 4
    requires HoldsInt(bs, 1, f.width) && HoldsInt(bs, 5, f.height) && HoldsInt(bs, 9, f.tempo)
    requires HoldsInt(bs, 13, f.victory) && HoldsInt(bs, 17, f.gameOver) && HoldsInt(bs, 21, f.points)
    requires var w: int, h: int, a: int := f.width, f.height, area; (w * h - a) % 4294967296 == 0
    ensures Receive(bs) ==
            if area < 1 || area > 2048 then Received(BadSize, bs[25..])
            else if |bs| - 25 < area then Received(BadData, [])
            else Received(Board(f.(data := bs[25..25 + area])), bs[25 + area..])
  {
    HeldIsDecoded(bs, 1, f.width);
    HeldIsDecoded(bs, 5, f.height);
    HeldIsDecoded(bs, 9, f.tempo);
    HeldIsDecoded(bs, 13, f.victory);
    HeldIsDecoded(bs, 17, f.gameOver);
    HeldIsDecoded(bs, 21, f.points);
    var w: int, h: int := f.width, f.height;
    WrapsTo(w * h, area);
  }

  lemma WrapsTo(v: int, a: int32)
    requires var i: int := a; (v - i) % 4294967296 == 0
    ensures Wrap32(v) == a
  {
    var i: int := a;
    var k := (v - i) / 4294967296;
    assert v == i + 4294967296 * k;
  }

  lemma MissingData(f: Frame, bs: seq<byte>)
    requires Fits(f) && 25 <= |bs| < 25 + |f.data| && bs[0] == OP_CODE_BOARD && bs[1..25] == Header(f)
    ensures Receive(bs) == Received(BadData, [])
  {
    HeaderFields(f, bs);
  }

  /** A frame cut short is refused, and nothing is left in the pipe. */
  lemma CutFrameRefused(f: Frame, n: nat)
    requires Fits(f) && n < |EncodeFrame(f)|
    ensures var r := Receive(EncodeFrame(f)[..n]); !r.reply.Board? && r.rest == []
  {
    var bs := EncodeFrame(f)[..n];
    if n >= 25 {
      assert bs[1..25] == Header(f);
      MissingData(f, bs);
    }
  }

  // ----- streams

  predicate AllFit(fs: seq<Frame>) {
    forall i :: 0 <= i < |fs| ==> Fits(fs[i])
  }

  function EncodeAll(fs: seq<Frame>): seq<byte> {
    if fs == [] then [] else EncodeFrame(fs[0]) + EncodeAll(fs[1..])
  }

  /** The boards that repeated calls return, up to the first call that returns none. */
  function DecodeStream(bs: seq<byte>): seq<Frame>
    decreases |bs|
  {
    var r := Receive(bs);
    if r.reply.Board? then [r.reply.f] + DecodeStream(r.rest) else []
  }

  /** The frames of fs that lie completely within the first n bytes of their encoding. */
  function Complete(fs: seq<Frame>, n: nat): (k: nat)
    ensures k <= |fs|
  {
    if fs == [] || n < |EncodeFrame(fs[0])| then 0
    else 1 + Complete(fs[1..], n - |EncodeFrame(fs[0])|)
  }

  lemma DecodeFirst(f: Frame, rest: seq<byte>)
    requires Fits(f)
    ensures DecodeStream(EncodeFrame(f) + rest) == [f] + DecodeStream(rest)
  {
    FrameRoundTrip(f, rest);
  }

  /** A stream cut anywhere gives exactly its complete frames, and then no board. */
  lemma {:induction false} TruncatedStream(fs: seq<Frame>, n: nat)
    requires AllFit(fs) && n <= |EncodeAll(fs)|
    ensures DecodeStream(EncodeAll(fs)[..n]) == fs[..Complete(fs, n)]
    decreases |fs|
  {
    if fs != [] {
      SplitStream(fs, n);
      var first := EncodeFrame(fs[0]);
      if n < |first| {
        CutDecodes(fs[0], n);
      } else {
        TruncatedStream(fs[1..], n - |first|);
        DecodeFirst(fs[0], EncodeAll(fs[1..])[..n - |first|]);
        SplitFrames(fs, Complete(fs[1..], n - |first|));
      }
    }
  }

  lemma CutDecodes(f: Frame, n: nat)
    requires Fits(f) && n < |EncodeFrame(f)|
    ensures DecodeStream(EncodeFrame(f)[..n]) == []
  {
    CutFrameRefused(f, n);
  }

  lemma SplitFrames(fs: seq<Frame>, k: nat)
    requires k < |fs|
    ensures fs[..k + 1] == [fs[0]] + fs[1..][..k]
  {
  }

  lemma SplitStream(fs: seq<Frame>, n: nat)
    requires fs != [] && n <= |EncodeAll(fs)|
    ensures var first := EncodeFrame(fs[0]);
            if n < |first| then EncodeAll(fs)[..n] == first[..n]
            else n - |first| <= |EncodeAll(fs[1..])|
                 && EncodeAll(fs)[..n] == first + EncodeAll(fs[1..])[..n - |first|]
  {
  }

  /** What repeated calls leave in the pipe after the first one that returns no board. */
  function StreamRest(bs: seq<byte>): seq<byte>
    decreases |bs|
  {
    var r := Receive(bs);
    if r.reply.Board? then StreamRest(r.rest) else r.rest
  }

  /** After a stream of frames cut anywhere nothing is left, so every further call finds the end of the stream. */
  lemma {:induction false} TruncatedStreamDrained(fs: seq<Frame>, n: nat)
    requires AllFit(fs) && n <= |EncodeAll(fs)|
    ensures StreamRest(EncodeAll(fs)[..n]) == []
    decreases |fs|
  {
    if fs != [] {
      SplitStream(fs, n);
      var first := EncodeFrame(fs[0]);
      if n < |first| {
        CutFrameRefused(fs[0], n);
      } else {
        TruncatedStreamDrained(fs[1..], n - |first|);
        FrameRoundTrip(fs[0], EncodeAll(fs[1..])[..n - |first|]);
      }
    }
  }

  lemma {:induction false} AllComplete(fs: seq<Frame>)
    ensures Complete(fs, |EncodeAll(fs)|) == |fs|
  {
    if fs != [] {
      AllComplete(fs[1..]);
    }
  }

  /** The whole stream gives back every frame, in order. */
  lemma StreamRoundTrip(fs: seq<Frame>)
    requires AllFit(fs)
    ensures DecodeStream(EncodeAll(fs)) == fs
  {
    var n := |EncodeAll(fs)|;
    TruncatedStream(fs, n);
    AllComplete(fs);
    assert EncodeAll(fs)[..n] == EncodeAll(fs);
    assert fs[..|fs|] == fs;
  }

  // ----- the picture inside a frame

  function Code(c: char): byte {
    c as int % 256
  }

  /** What the client is shown of a cell: an agent or wall first, then a dot, then the portal. */
  function Glyph(c: Cell): char {
    if c.content != ' ' then c.content
    else if c.hasDot then '.'
    else if c.hasPortal then 'O'
    else ' '
  }

  /** The byte of a cell: its content, or for a blank cell '.' with a dot, else 'O' for the portal, else ' '. */
  lemma GlyphExactly(c: Cell)
    ensures c.content != ' ' ==> Code(Glyph(c)) == c.content as int % 256
    ensures c.content == ' ' && c.hasDot ==> Code(Glyph(c)) == 46
    ensures c.content == ' ' && !c.hasDot && c.hasPortal ==> Code(Glyph(c)) == 79
    ensures c.content == ' ' && !c.hasDot && !c.hasPortal ==> Code(Glyph(c)) == 32
  {
  }

  /** The picture determines the contents of every plain cell. */
  lemma GlyphShowsContent(c: Cell, d: Cell)
    requires c.content in {' ', 'W', 'M', 'P'} && d.content in {' ', 'W', 'M', 'P'}
    requires Code(Glyph(c)) == Code(Glyph(d))
    ensures c.content == d.content
    ensures c.content == ' ' ==> c.hasDot == d.hasDot && (c.hasDot || c.hasPortal == d.hasPortal)
  {
  }

  // ----- connection requests

  predicate NoZero(s: seq<byte>) {
    forall i :: 0 <= i < |s| ==> s[i] != 0
  }

  function Zeros(n: nat): (z: seq<byte>)
    ensures |z| == n && forall i :: 0 <= i < n ==> z[i] == 0
  {
    seq(n, i => 0)
  }

  /** What `strncpy` leaves in a field of 40 bytes. */
  function Field(s: seq<byte>): (bs: seq<byte>)
    ensures |bs| == MAX_PIPE_PATH_LENGTH
  {
    if |s| >= MAX_PIPE_PATH_LENGTH then s[..MAX_PIPE_PATH_LENGTH] else s + Zeros(MAX_PIPE_PATH_LENGTH - |s|)
  }

  /** A field read back as a string ends at its first zero byte, or at its end. */
  function Text(bs: seq<byte>): seq<byte> {
    if bs == [] || bs[0] == 0 then [] else [bs[0]] + Text(bs[1..])
  }

  function ConnectMessage(req: seq<byte>, notif: seq<byte>): (m: seq<byte>)
    ensures |m| == 81
  {
    [OP_CODE_CONNECT] + Field(req) + Field(notif)
  }

  datatype Connect = Accepted(req: seq<byte>, notif: seq<byte>) | Ignored

  /** What `accept_new_client` makes of one read of its pipe. */
  function ParseConnect(m: seq<byte>): Connect {
    if |m| != 81 || m[0] != OP_CODE_CONNECT then Ignored
    else Accepted(Text(m[1..41]), Text(m[41..81]))
  }

  lemma {:induction false} TextOfField(s: seq<byte>, n: nat)
    requires NoZero(s)
    ensures Text(s + Zeros(n)) == s
    decreases |s|
  {
    if s == [] {
      assert s + Zeros(n) == Zeros(n);
    } else {
      assert (s + Zeros(n))[1..] == s[1..] + Zeros(n);
      TextOfField(s[1..], n);
    }
  }

  lemma FieldRoundTrip(s: seq<byte>)
    requires NoZero(s)
    ensures Text(Field(s)) == if |s| <= MAX_PIPE_PATH_LENGTH then s else s[..MAX_PIPE_PATH_LENGTH]
  {
    if |s| >= MAX_PIPE_PATH_LENGTH {
      var t := s[..MAX_PIPE_PATH_LENGTH];
      TextOfField(t, 0);
      assert t + Zeros(0) == t;
      assert |s| == MAX_PIPE_PATH_LENGTH ==> t == s;
    } else {
      TextOfField(s, MAX_PIPE_PATH_LENGTH - |s|);
    }
  }

  /** A connection record byte by byte: the opcode 1, and each name in a field of 40 bytes filled up with zeros. */
  lemma ConnectLayout(req: seq<byte>, notif: seq<byte>, i: nat)
    requires i < 40
    ensures var m := ConnectMessage(req, notif);
            && |m| == 81 && m[0] == 1
            && m[1 + i] == (if i < |req| then req[i] else 0)
            && m[41 + i] == (if i < |notif| then notif[i] else 0)
  {
  }

  /** Only a record of 81 bytes that starts with the opcode is taken for a connection request. */
  lemma OthersIgnored(m: seq<byte>)
    ensures ParseConnect(m) == Ignored <==> |m| != 81 || m[0] != 1
  {
  }

  /** The server gets both pipe names back exactly when each has at most 40 bytes. */
  lemma ConnectRoundTrip(req: seq<byte>, notif: seq<byte>)
    requires NoZero(req) && NoZero(notif)
    ensures ParseConnect(ConnectMessage(req, notif)) == Accepted(req, notif)
            <==> |req| <= MAX_PIPE_PATH_LENGTH && |notif| <= MAX_PIPE_PATH_LENGTH
  {
    var m := ConnectMessage(req, notif);
    assert m[1..41] == Field(req) && m[41..81] == Field(notif);
    FieldRoundTrip(req);
    FieldRoundTrip(notif);
  }
}
