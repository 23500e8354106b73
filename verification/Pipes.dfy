/**
  The two ends of a pipe as the programs drive them: the client's `read_all` loop over reads that
  may return any number of bytes, `receive_board_update` on top of it, the server's `serialize_board`
  and `send_board_update`, and the in-place building of the connection record.
 */
module Pipes {
  import opened Maze
  import opened Wire

  /** The reading end: what will still arrive before the writer closes, and how many reads have failed so far. */
  class Pipe {
    var bytes: seq<byte>
    ghost var faults: nat

    constructor (bytes: seq<byte>)
      ensures this.bytes == bytes && faults == 0
    {
      this.bytes := bytes;
      faults := 0;
    }

    /** `read`: -1 on an error, 0 at the end of the stream, otherwise any positive number of bytes up to n. */
    method Read(n: nat) returns (k: int, chunk: seq<byte>)
      requires n > 0
      modifies this
      ensures k == -1 ==> faults == old(faults) + 1 && bytes == old(bytes) && chunk == []
      ensures k != -1 ==> faults == old(faults) && k == |chunk| <= n && chunk + bytes == old(bytes)
      ensures k == 0 <==> k != -1 && old(bytes) == []
    {
      var fail: bool := *;
      if fail {
        faults := faults + 1;
        return -1, [];
      }
      var most := if |bytes| < n then |bytes| else n;
      var m: nat :| m <= most && (m == 0 <==> most == 0);
      chunk := bytes[..m];
      bytes := bytes[m..];
      k := m;
    }

    /** `read_all`: all of the bytes asked for however the reads split them, 0 with the pipe drained, or -1. */
    method ReadAll(size: nat) returns (n: int, buffer: seq<byte>)
      modifies this
      ensures faults == old(faults) || (faults == old(faults) + 1 && n == -1 && size > 0)
      ensures |bytes| <= |old(bytes)|
      ensures faults == old(faults) && |old(bytes)| >= size ==>
                n == size && buffer == old(bytes)[..size] && bytes == old(bytes)[size..]
      ensures faults == old(faults) && |old(bytes)| < size ==> n == 0 && bytes == []
    {
      buffer := [];
      var remaining := size;
      while remaining > 0
        invariant remaining >= 0 && |buffer| + remaining == size
        invariant buffer + bytes == old(bytes) && faults == old(faults)
      {
        var k, chunk := Read(remaining);
        if k <= 0 {
          return k, buffer;
        }
        remaining := remaining - k;
        buffer := buffer + chunk;
      }
      n := size;
      SplitAt(buffer, bytes, old(bytes));
    }

    /** One int of the header, which starts `at` bytes into what was to be read. */
    method ReadInt(ghost h: seq<byte>, ghost at: nat) returns (ok: bool, v: int32)
      requires at <= |h| && bytes == h[at..]
      modifies this
      ensures |bytes| <= |old(bytes)| && (faults == old(faults) || (faults > old(faults) && !ok))
      ensures faults == old(faults) ==>
                && (ok <==> |h| >= at + 4)
                && (ok ==> v == DecodeInt(h[at..at + 4]) && bytes == h[at + 4..])
                && (!ok ==> bytes == [])
    {
      var n, buffer := ReadAll(4);
      ok := n == 4;
      v := if ok then DecodeInt(buffer) else 0;
    }

    /**
      `receive_board_update` against its specification, under every way of splitting the reads; a
      read that fails leaves the client without a board.
     */
    method ReceiveBoardUpdate() returns (reply: Reply)
      modifies this
      ensures faults >= old(faults) && |bytes| <= |old(bytes)|
      ensures faults == old(faults) ==> Received(reply, bytes) == Receive(old(bytes))
      ensures faults > old(faults) ==> !reply.Board?
    {
      ghost var all := bytes;
      var n, op := ReadAll(1);
      if n == 0 {
        return EndOfStream;
      }
      if n == -1 {
        return ReadError;
      }
      if op[0] != OP_CODE_BOARD {
        return BadOpcode;
      }
      assert bytes == all[1..];
      var ok, width, height, tempo, victory, gameOver, points := ReadHeader();
      if !ok {
        return BadArguments;
      }
      assert bytes == all[25..];
      HeaderAsRead(all);
      var w: int, h: int := width, height;
      var total := Wrap32(w * h);
      if total > MAX_BOARD_SIZE || total <= 0 {
        return BadSize;
      }
      var m, data := ReadAll(total);
      if m != total {
        return BadData;
      }
      assert data == all[25..25 + total] && bytes == all[25 + total..];
      reply := Board(Frame(width, height, tempo, victory, gameOver, points, data));
    }

    method ReadHeader() returns (ok: bool, width: int32, height: int32, tempo: int32, victory: int32,
                                 gameOver: int32, points: int32)
      modifies this
      ensures |bytes| <= |old(bytes)| && (faults == old(faults) || (faults > old(faults) && !ok))
      ensures faults == old(faults) ==> (ok <==> |old(bytes)| >= 24)
      ensures ok ==>
                var h := old(bytes);
                && |h| >= 24
                && width == DecodeInt(h[0..4]) && height == DecodeInt(h[4..8]) && tempo == DecodeInt(h[8..12])
                && victory == DecodeInt(h[12..16]) && gameOver == DecodeInt(h[16..20])
                && points == DecodeInt(h[20..24]) && bytes == h[24..]
      ensures faults == old(faults) && !ok ==> bytes == []
    {
      ghost var h := bytes;
      height, tempo, victory, gameOver, points := 0, 0, 0, 0, 0;
      ok, width := ReadInt(h, 0);
      if !ok { return; }
      ok, height := ReadInt(h, 4);
      if !ok { return; }
      ok, tempo := ReadInt(h, 8);
      if !ok { return; }
      ok, victory := ReadInt(h, 12);
      if !ok { return; }
      ok, gameOver := ReadInt(h, 16);
      if !ok { return; }
      ok, points := ReadInt(h, 20);
    }

    /** Call after call until one returns no board: exactly the boards of the stream, or the first of them. */
    method ReceiveAll() returns (frames: seq<Frame>)
      modifies this
      ensures faults >= old(faults) && frames <= DecodeStream(old(bytes))
      ensures faults == old(faults) ==> frames == DecodeStream(old(bytes)) && bytes == StreamRest(old(bytes))
    {
      hide Receive;
      frames := [];
      ghost var before := bytes;
      var reply := ReceiveBoardUpdate();
      while reply.Board?
        invariant faults >= old(faults) && (reply.Board? ==> faults == old(faults))
        invariant faults == old(faults) ==> Received(reply, bytes) == Receive(before)
        invariant frames + DecodeStream(before) == DecodeStream(old(bytes))
        invariant StreamRest(before) == StreamRest(old(bytes))
        decreases |bytes| + if reply.Board? then 1 else 0
      {
        assert DecodeStream(before) == [reply.f] + DecodeStream(bytes) && StreamRest(before) == StreamRest(bytes);
        frames := frames + [reply.f];
        before := bytes;
        reply := ReceiveBoardUpdate();
      }
    }

    /**
      The client at the end of a stream of frames that was cut anywhere: it gets exactly the frames
      that are complete, the next call returns no board, and a failing read only makes them fewer.
     */
    method ReceiveCutStream(ghost fs: seq<Frame>, ghost n: nat) returns (frames: seq<Frame>, next: Reply)
      requires AllFit(fs) && n <= |EncodeAll(fs)| && bytes == EncodeAll(fs)[..n]
      modifies this
      ensures frames <= fs[..Complete(fs, n)]
      ensures faults == old(faults) ==> frames == fs[..Complete(fs, n)] && next == EndOfStream
    {
      TruncatedStream(fs, n);
      TruncatedStreamDrained(fs, n);
      frames := ReceiveAll();
      next := ReceiveBoardUpdate();
    }
  }

  /** The writing end. */
  class Sink {
    var bytes: seq<byte>

    constructor ()
      ensures bytes == []
    {
      bytes := [];
    }

    /** `write`: -1 on an error, otherwise any number of bytes up to all of them. */
    method Write(bs: seq<byte>) returns (n: int)
      modifies this
      ensures n == -1 ==> bytes == old(bytes)
      ensures n != -1 ==> 0 <= n <= |bs| && bytes == old(bytes) + bs[..n]
    {
      var fail: bool := *;
      if fail {
        return -1;
      }
      var k: nat :| k <= |bs|;
      bytes := bytes + bs[..k];
      n := k;
    }

    /** One write of a larger message, of which `at` bytes have been written. */
    method WritePiece(bs: seq<byte>, ghost base: seq<byte>, ghost whole: seq<byte>, ghost at: nat)
      returns (ok: bool, ghost k: nat)
      requires 0 < |bs| && at + |bs| <= |whole| && whole[at..at + |bs|] == bs && bytes == base + whole[..at]
      modifies this
      ensures k <= |whole| && bytes == base + whole[..k]
      ensures if ok then k == at + |bs| else k < at + |bs|
    {
      var n := Write(bs);
      ok := n == |bs|;
      k := if n == -1 then at else at + n;
      assert n != -1 ==> whole[..at] + bs[..n] == whole[..at + n];
    }
  }

  lemma SplitAt(a: seq<byte>, b: seq<byte>, c: seq<byte>)
    requires a + b == c
    ensures c[..|a|] == a && c[|a|..] == b
  {
  }

  lemma WrapSmall(v: int)
    requires 0 <= v < 0x8000_0000
    ensures Wrap32(v) == v
  {
  }

  /** The client's header fields are those of the whole stream. */
  lemma HeaderAsRead(all: seq<byte>)
    requires |all| >= 25
    ensures var h := all[1..];
            && h[0..4] == all[1..5] && h[4..8] == all[5..9] && h[8..12] == all[9..13]
            && h[12..16] == all[13..17] && h[16..20] == all[17..21] && h[20..24] == all[21..25]
  {
  }

  /** What a cell looks like on the wire. */
  predicate ShownAs(c: Cell, b: byte) {
    b == if c.content != ' ' then c.content as int % 256
         else if c.hasDot then 46
         else if c.hasPortal then 79
         else 32
  }

  /** `serialize_board`: row by row into the buffer, cell (x,y) at its row-major index. */
  method SerializeBoard(s: State, out: array<byte>)
    requires WellFormed(s) && out.Length == |s.cells|
    modifies out
    ensures forall i :: 0 <= i < |s.cells| ==> out[i] == Code(Glyph(s.cells[i]))
    ensures forall i :: 0 <= i < |s.cells| ==> ShownAs(s.cells[i], out[i])
  {
    forall c: Cell ensures ShownAs(c, Code(Glyph(c))) {
      GlyphExactly(c);
    }
    var y := 0;
    while y < s.height
      invariant 0 <= y <= s.height
      invariant 0 <= y * s.width <= out.Length
      invariant forall i :: 0 <= i < y * s.width ==> out[i] == Code(Glyph(s.cells[i]))
    {
      var x := 0;
      RowFits(s.width, s.height, y);
      while x < s.width
        invariant 0 <= x <= s.width
        invariant forall i :: 0 <= i < y * s.width + x ==> out[i] == Code(Glyph(s.cells[i]))
      {
        var i := Index(s.width, s.height, x, y);
        var p := s.cells[i];
        if p.content != ' ' {
          out[i] := Code(p.content);
        } else if p.hasDot {
          out[i] := Code('.');
        } else if p.hasPortal {
          out[i] := Code('O');
        } else {
          out[i] := Code(' ');
        }
        x := x + 1;
      }
      y := y + 1;
    }
  }

  lemma RowFits(width: int, height: int, y: int)
    requires 0 <= y < height && 0 <= width
    ensures 0 <= y * width && (y + 1) * width == y * width + width <= width * height
  {
    assert width * height == y * width + width + (height - y - 1) * width;
    assert (height - y - 1) * width >= 0;
    assert y * width >= 0;
  }

  /** The frame shows the level: its dimensions, and in the data the glyph of every cell. */
  ghost predicate Shows(f: Frame, s: State) {
    && f.width == s.width && f.height == s.height && |f.data| == |s.cells|
    && forall i :: 0 <= i < |s.cells| ==> f.data[i] == Code(Glyph(s.cells[i]))
  }

  /** The frame that shows the level. */
  method FrameOf(s: State, tempo: int32, victory: int32, gameOver: int32, points: int32) returns (f: Frame)
    requires WellFormed(s) && s.width < 0x8000_0000 && s.height < 0x8000_0000 && |s.cells| < 0x8000_0000
    ensures Shows(f, s) && Built(f)
    ensures f.tempo == tempo && f.victory == victory && f.gameOver == gameOver && f.points == points
  {
    var buffer := new byte[|s.cells|](i => 0);
    SerializeBoard(s, buffer);
    f := Frame(s.width, s.height, tempo, victory, gameOver, points, buffer[..]);
    WrapSmall(|s.cells|);
  }

  /**
    `send_board_update`: write by write, giving up at the first that fails or falls short. What has
    reached the pipe is the encoding of a frame that shows the level, whole exactly on success.
   */
  method SendBoardUpdate(s: State, tempo: int32, victory: int32, gameOver: int32, points: int32, out: Sink)
    returns (code: int, ghost f: Frame, ghost k: nat)
    requires WellFormed(s) && s.width < 0x8000_0000 && s.height < 0x8000_0000 && |s.cells| < 0x8000_0000
    modifies out
    ensures Shows(f, s) && Built(f)
    ensures f.tempo == tempo && f.victory == victory && f.gameOver == gameOver && f.points == points
    ensures k <= |EncodeFrame(f)| && out.bytes == old(out.bytes) + EncodeFrame(f)[..k]
    ensures code == if k == |EncodeFrame(f)| then 0 else -1
  {
    var frame := FrameOf(s, tempo, victory, gameOver, points);
    f := frame;
    ghost var base, whole := out.bytes, EncodeFrame(f);
    FramePieces(f);
    assert whole[..0] == [];
    code := -1;
    var ok;
    ok, k := out.WritePiece([OP_CODE_BOARD], base, whole, 0);
    if !ok { return; }
    ok, k := out.WritePiece(EncodeInt(frame.width), base, whole, 1);
    if !ok { return; }
    ok, k := out.WritePiece(EncodeInt(frame.height), base, whole, 5);
    if !ok { return; }
    ok, k := out.WritePiece(EncodeInt(frame.tempo), base, whole, 9);
    if !ok { return; }
    ok, k := out.WritePiece(EncodeInt(frame.victory), base, whole, 13);
    if !ok { return; }
    ok, k := out.WritePiece(EncodeInt(frame.gameOver), base, whole, 17);
    if !ok { return; }
    ok, k := out.WritePiece(EncodeInt(frame.points), base, whole, 21);
    if !ok { return; }
    IndexBound(s.width, s.height, s.pac.x, s.pac.y);
    ok, k := out.WritePiece(frame.data, base, whole, 25);
    if !ok { return; }
    code := 0;
  }

  /**
    What was sent of a board whose area fits arrives, each cell at its own row-major index; of a
    board that was sent in part nothing arrives.
   */
  method SendThenReceive(s: State, tempo: int32, victory: int32, gameOver: int32, points: int32)
    returns (code: int, reply: Reply, ghost faulty: bool)
    requires WellFormed(s) && |s.cells| <= MAX_BOARD_SIZE && s.width < 0x8000_0000 && s.height < 0x8000_0000
    ensures reply.Board? <==> code == 0 && !faulty
    ensures reply.Board? ==>
              && reply.f.width == s.width && reply.f.height == s.height
              && reply.f.tempo == tempo && reply.f.victory == victory && reply.f.gameOver == gameOver
              && reply.f.points == points && |reply.f.data| == |s.cells|
              && forall x, y :: IsValidPosition(s, x, y) ==>
                   ShownAs(At(s, x, y), reply.f.data[Index(s.width, s.height, x, y)])
  {
    hide Receive, EncodeFrame, Built;
    forall c: Cell ensures ShownAs(c, Code(Glyph(c))) {
      GlyphExactly(c);
    }
    var out := new Sink();
    ghost var f, k;
    code, f, k := SendBoardUpdate(s, tempo, victory, gameOver, points, out);
    var pipe := new Pipe(out.bytes);
    IndexBound(s.width, s.height, s.pac.x, s.pac.y);
    assert Fits(f);
    assert [] + EncodeFrame(f)[..k] == EncodeFrame(f)[..k];
    ReplyToPart(f, k);
    reply := pipe.ReceiveBoardUpdate();
    faulty := pipe.faults > 0;
  }

  lemma ReplyToPart(f: Frame, k: nat)
    requires Fits(f) && k <= |EncodeFrame(f)|
    ensures var reply := Receive(EncodeFrame(f)[..k]).reply;
            if k == |EncodeFrame(f)| then reply == Board(f) else !reply.Board?
  {
    if k < |EncodeFrame(f)| {
      CutFrameRefused(f, k);
    } else {
      FrameRoundTrip(f, []);
      assert EncodeFrame(f) + [] == EncodeFrame(f)[..k];
    }
  }

  /** `strncpy` into a field of a zeroed message. */
  method CopyField(msg: array<byte>, at: nat, src: seq<byte>)
    requires at + MAX_PIPE_PATH_LENGTH <= msg.Length
    modifies msg
    ensures msg[at..at + MAX_PIPE_PATH_LENGTH] == Field(src)
    ensures msg[..at] == old(msg[..at]) && msg[at + MAX_PIPE_PATH_LENGTH..] == old(msg[at + MAX_PIPE_PATH_LENGTH..])
  {
    var i := 0;
    while i < MAX_PIPE_PATH_LENGTH
      invariant i <= MAX_PIPE_PATH_LENGTH
      invariant forall k :: 0 <= k < i ==> msg[at + k] == Field(src)[k]
      invariant forall k :: 0 <= k < msg.Length && !(at <= k < at + i) ==> msg[k] == old(msg[k])
    {
      msg[at + i] := if i < |src| then src[i] else 0;
      i := i + 1;
    }
  }

  method BuildConnect(req: seq<byte>, notif: seq<byte>) returns (msg: array<byte>)
    ensures msg[..] == ConnectMessage(req, notif) && fresh(msg)
  {
    msg := new byte[1 + 2 * MAX_PIPE_PATH_LENGTH](i => 0);
    msg[0] := OP_CODE_CONNECT;
    CopyField(msg, 1, req);
    CopyField(msg, 1 + MAX_PIPE_PATH_LENGTH, notif);
    assert msg[1..41] == Field(req) by {
      assert msg[1..41] == msg[..41][1..];
    }
    assert msg[..] == msg[..1] + msg[1..41] + msg[41..81];
  }
}
