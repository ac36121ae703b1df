/**
 Docker's multiplexed log stream (executor/docker/exec_async.go, dockerStdCopy): a run of frames,
 each an 8-byte header (stream id, three reserved bytes, big-endian 32-bit length) and a payload.
 */
module LogDemux {
  import opened Prelude

  datatype Frame = Frame(stream: Byte, reserved: seq<Byte>, payload: seq<Byte>)

  const LengthLimit := 0x1_0000_0000

  predicate Framable(f: Frame) {
    |f.reserved| == 3 && |f.payload| < LengthLimit
  }

  /** The bytes delivered to each writer. */
  datatype Streams = Streams(stdout: seq<Byte>, stderr: seq<Byte>) {
    function Then(next: Streams): Streams {
      Streams(stdout + next.stdout, stderr + next.stderr)
    }
    ghost predicate PrefixOf(other: Streams) {
      stdout <= other.stdout && stderr <= other.stderr
    }
  }

  const Nothing := Streams([], [])

  lemma ThenAssociative(a: Streams, b: Streams, c: Streams)
    ensures a.Then(b).Then(c) == a.Then(b.Then(c))
  {
    assert a.stdout + b.stdout + c.stdout == a.stdout + (b.stdout + c.stdout);
    assert a.stderr + b.stderr + c.stderr == a.stderr + (b.stderr + c.stderr);
  }

  // ---------------------------------------------------------------------------------------
  // The wire format, as a writer sees it
  // ---------------------------------------------------------------------------------------

  function PutUint32(n: nat): (b: seq<Byte>)
    requires n < LengthLimit
    ensures |b| == 4
  {
    [n / 256 / 256 / 256, n / 256 / 256 % 256, n / 256 % 256, n % 256]
  }

  function Uint32(b: seq<Byte>): (n: nat)
    requires |b| == 4
    ensures n < LengthLimit
  {
    ((b[0] as int * 256 + b[1]) * 256 + b[2]) * 256 + b[3]
  }

  lemma Uint32RoundTrip(n: nat)
    requires n < LengthLimit
    ensures Uint32(PutUint32(n)) == n
  {
  }

  function EncodeFrame(f: Frame): seq<Byte>
    requires Framable(f)
  {
    [f.stream] + f.reserved + PutUint32(|f.payload|) + f.payload
  }

  function Encode(frames: seq<Frame>): seq<Byte>
    requires forall i :: 0 <= i < |frames| ==> Framable(frames[i])
  {
    if frames == [] then [] else EncodeFrame(frames[0]) + Encode(frames[1..])
  }

  /** The length is big-endian. */
  lemma BigEndian(b: seq<Byte>)
    requires |b| == 4
    ensures Uint32(b) == b[0] as int * 0x100_0000 + b[1] as int * 0x1_0000 + b[2] as int * 0x100 + b[3] as int
  {
  }

  /** A frame is the stream, three bytes, four of length, and the payload. */
  lemma FrameLayout(f: Frame)
    requires Framable(f)
    ensures var b := EncodeFrame(f);
            && |b| == 8 + |f.payload| && b[0] == f.stream && b[1..4] == f.reserved && b[8..] == f.payload
            && |f.payload| == b[4] as int * 0x100_0000 + b[5] as int * 0x1_0000 + b[6] as int * 0x100 + b[7] as int
  {
    var b := EncodeFrame(f);
    assert b[4..8] == PutUint32(|f.payload|);
    Uint32RoundTrip(|f.payload|);
    BigEndian(b[4..8]);
  }

  /** The payload bytes of one stream, in order. */
  function PayloadsOf(frames: seq<Frame>, stream: Byte): seq<Byte> {
    if frames == [] then []
    else (if frames[0].stream == stream then frames[0].payload else []) + PayloadsOf(frames[1..], stream)
  }

  // ---------------------------------------------------------------------------------------
  // The demultiplexer
  // ---------------------------------------------------------------------------------------

  function Route(stream: Byte, data: seq<Byte>): Streams {
    if stream == 1 then Streams(data, [])
    else if stream == 2 then Streams([], data)
    else Nothing
  }

  /** What the two writers receive from a source that delivers `src` and then ends. */
  function Demux(src: seq<Byte>): Streams
    decreases |src|
  {
    if |src| < 8 then Nothing
    else
      var size := Uint32(src[4..8]);
      var body := src[8..];
      if |body| < size then Route(src[0], body)
      else Route(src[0], body[..size]).Then(Demux(body[size..]))
  }

  datatype SourceEnd = Eof | ReadError

  /** One header and as much of its payload as the source still has. */
  lemma DemuxChunk(src: seq<Byte>, n: nat)
    requires |src| >= 8
    requires n == if |src| - 8 < Uint32(src[4..8]) then |src| - 8 else Uint32(src[4..8])
    ensures Demux(src) ==
            if n < Uint32(src[4..8]) then Route(src[0], src[8..][..n])
            else Route(src[0], src[8..][..n]).Then(Demux(src[8..][n..]))
  {
    if n < Uint32(src[4..8]) { assert src[8..][..n] == src[8..]; }
  }

  lemma RouteNothing(stream: Byte, next: Streams)
    ensures Route(stream, []).Then(next) == next
  {
    assert [] + next.stdout == next.stdout && [] + next.stderr == next.stderr;
  }

  lemma NothingThen(s: Streams)
    ensures s.Then(Nothing) == s && Nothing.Then(s) == s
  {
    assert s.stdout + [] == s.stdout && s.stderr + [] == s.stderr;
    assert [] + s.stdout == s.stdout && [] + s.stderr == s.stderr;
  }

  /** A writer that takes everything, or takes limit bytes and then fails, perhaps with an end-of-file error. */
  datatype Writer = Unfailing | FailsAfter(limit: nat, likeEof: bool) {
    predicate Takes(n: nat) {
      Unfailing? || n <= limit
    }
    /** How much of n more bytes it takes after the first `written`. */
    function Accepted(written: nat, n: nat): (m: nat)
      ensures m <= n && (Takes(written + n) ==> m == n)
      ensures Takes(written) && !Takes(written + n) ==> m < n && written + m == limit
    {
      if Takes(written + n) then n else if written <= limit then limit - written else 0
    }
  }

  /** The writer stopped exactly at its limit, short of what it was due. */
  predicate Stopped(w: Writer, got: seq<Byte>, due: seq<Byte>) {
    w.FailsAfter? && |got| == w.limit < |due|
  }

  /**
   The copy loop. With writers that take everything due to them both get all of it, and the only
   error is the source's. Otherwise one of them has taken exactly its limit, the other a prefix of
   what it was due, and the writer's error is reported unless it looks like an end of file.
   */
  method StdCopy(src: seq<Byte>, end: SourceEnd, out: Writer, err: Writer)
    returns (stdout: seq<Byte>, stderr: seq<Byte>, failed: bool)
    ensures Streams(stdout, stderr).PrefixOf(Demux(src))
    ensures out.Takes(|stdout|) && err.Takes(|stderr|)
    ensures if out.Takes(|Demux(src).stdout|) && err.Takes(|Demux(src).stderr|)
            then Streams(stdout, stderr) == Demux(src) && (failed <==> end.ReadError?)
            else (Stopped(out, stdout, Demux(src).stdout) && failed == !out.likeEof)
                 || (Stopped(err, stderr, Demux(src).stderr) && failed == !err.likeEof)
  {
    stdout, stderr := [], [];
    var rest := src;
    NothingThen(Demux(src));
    while |rest| >= 8
      invariant Streams(stdout, stderr).Then(Demux(rest)) == Demux(src)
      invariant out.Takes(|stdout|) && err.Takes(|stderr|)
      decreases |rest|
    {
      var size := Uint32(rest[4..8]);
      var n := if |rest| - 8 < size then |rest| - 8 else size;
      DemuxChunk(rest, n);
      var stream, body := rest[0], rest[8..];
      if size == 0 {
        RouteNothing(stream, Demux(body[0..]));
        rest := body[0..];
        continue;
      }
      ghost var before, later := Streams(stdout, stderr), if n < size then Nothing else Demux(body[n..]);
      var chunk := body[..n];
      NothingThen(Route(stream, chunk));
      ThenAssociative(before, Route(stream, chunk), later);
      AppendIsThen(before, stream, chunk);
      assert before.Then(Route(stream, chunk)).Then(later) == Demux(src);
      var ok: bool;
      ok, failed, stdout, stderr := CopyChunk(stream, chunk, out, err, stdout, stderr);
      if !ok { return; }
      if n < size {
        NothingThen(Streams(stdout, stderr));
        return stdout, stderr, end.ReadError?;
      }
      rest := body[n..];
    }
    NothingThen(Streams(stdout, stderr));
    return stdout, stderr, end.ReadError?;
  }

  /** One payload to its writer; a stream that is neither stdout nor stderr is discarded. */
  method CopyChunk(stream: Byte, chunk: seq<Byte>, out: Writer, err: Writer, stdout: seq<Byte>, stderr: seq<Byte>)
    returns (ok: bool, failed: bool, stdout': seq<Byte>, stderr': seq<Byte>)
    requires out.Takes(|stdout|) && err.Takes(|stderr|)
    ensures out.Takes(|stdout'|) && err.Takes(|stderr'|)
    ensures ok ==> Streams(stdout', stderr') == Streams(stdout, stderr).Then(Route(stream, chunk))
    ensures !ok ==> Streams(stdout', stderr').PrefixOf(Streams(stdout, stderr).Then(Route(stream, chunk)))
    ensures !ok ==>
              (Stopped(out, stdout', Streams(stdout, stderr).Then(Route(stream, chunk)).stdout) && failed == !out.likeEof)
              || (Stopped(err, stderr', Streams(stdout, stderr).Then(Route(stream, chunk)).stderr) && failed == !err.likeEof)
  {
    ok, failed, stdout', stderr' := true, false, stdout, stderr;
    AppendIsThen(Streams(stdout, stderr), stream, chunk);
    match stream {
      case 1 =>
        var m := out.Accepted(|stdout|, |chunk|);
        stdout' := stdout + chunk[..m];
        if m < |chunk| { ok, failed := false, !out.likeEof; }
      case 2 =>
        var m := err.Accepted(|stderr|, |chunk|);
        stderr' := stderr + chunk[..m];
        if m < |chunk| { ok, failed := false, !err.likeEof; }
      case _ =>
    }
  }

  lemma AppendIsThen(acc: Streams, stream: Byte, chunk: seq<Byte>)
    ensures acc.Then(Route(stream, chunk)) ==
            if stream == 1 then Streams(acc.stdout + chunk, acc.stderr)
            else if stream == 2 then Streams(acc.stdout, acc.stderr + chunk)
            else acc
  {
    assert acc.stdout + [] == acc.stdout && acc.stderr + [] == acc.stderr;
  }

  // ---------------------------------------------------------------------------------------
  // Framing is inverted
  // ---------------------------------------------------------------------------------------

  lemma DemuxFrame(f: Frame, rest: seq<Byte>)
    requires Framable(f)
    ensures Demux(EncodeFrame(f) + rest) == Route(f.stream, f.payload).Then(Demux(rest))
  {
    var src := EncodeFrame(f) + rest;
    assert src[0] == f.stream;
    assert src[4..8] == PutUint32(|f.payload|);
    Uint32RoundTrip(|f.payload|);
    assert src[8..] == f.payload + rest;
    assert src[8..][..|f.payload|] == f.payload;
    assert src[8..][|f.payload|..] == rest;
  }

  /** Whatever follows, a run of whole frames is delivered first, each payload to its own stream. */
  lemma {:induction false} DemuxEncodeThen(frames: seq<Frame>, rest: seq<Byte>)
    requires forall i :: 0 <= i < |frames| ==> Framable(frames[i])
    ensures Demux(Encode(frames) + rest) ==
            Streams(PayloadsOf(frames, 1), PayloadsOf(frames, 2)).Then(Demux(rest))
  {
    if frames == [] {
      assert Encode(frames) + rest == rest;
    } else {
      var f, fs := frames[0], frames[1..];
      assert Encode(frames) + rest == EncodeFrame(f) + (Encode(fs) + rest);
      DemuxFrame(f, Encode(fs) + rest);
      DemuxEncodeThen(fs, rest);
      ThenAssociative(Route(f.stream, f.payload), Streams(PayloadsOf(fs, 1), PayloadsOf(fs, 2)), Demux(rest));
    }
  }

  /** Demultiplexing inverts framing. */
  lemma DemuxEncode(frames: seq<Frame>)
    requires forall i :: 0 <= i < |frames| ==> Framable(frames[i])
    ensures Demux(Encode(frames)) == Streams(PayloadsOf(frames, 1), PayloadsOf(frames, 2))
  {
    DemuxEncodeThen(frames, []);
    assert Encode(frames) + [] == Encode(frames);
  }

  /** Cutting any byte source short only shortens the outputs: no byte is reordered or misrouted. */
  lemma {:induction false} DemuxTruncated(src: seq<Byte>, k: nat)
    requires k <= |src|
    ensures Demux(src[..k]).PrefixOf(Demux(src))
    decreases |src|
  {
    var cut := src[..k];
    if k >= 8 {
      assert cut[4..8] == src[4..8];
      var size := Uint32(src[4..8]);
      var body := src[8..];
      assert cut[8..] == body[..k - 8];
      if k - 8 >= size {
        DemuxTruncated(body[size..], k - 8 - size);
        assert cut[8..][size..] == body[size..][..k - 8 - size];
        assert cut[8..][..size] == body[..size];
      } else if |body| >= size {
        assert body[..k - 8] <= body[..size];
      }
    }
  }

  /** A truncated frame stream yields prefixes of exactly the payloads that were sent. */
  lemma TruncatedFrames(frames: seq<Frame>, k: nat)
    requires forall i :: 0 <= i < |frames| ==> Framable(frames[i])
    requires k <= |Encode(frames)|
    ensures Demux(Encode(frames)[..k]).stdout <= PayloadsOf(frames, 1)
    ensures Demux(Encode(frames)[..k]).stderr <= PayloadsOf(frames, 2)
  {
    DemuxEncode(frames);
    DemuxTruncated(Encode(frames), k);
  }
}
