/**
 The Opus adapter without libopus: PCM16 bytes to samples and back, and the accumulator that cuts
 an arbitrarily chunked stream into frames of 480 samples.
 */
module OpusFraming {
  import opened Common

  const FRAME_SIZE := 480

  /** The bits of an int16. */
  type Sample = bv16

  type Frame = s: seq<Sample> | |s| == FRAME_SIZE witness seq(FRAME_SIZE, _ => 0)

  type Packet = seq<Byte>

  // ---------------------------------------------------------------------------
  // PCM16, little endian
  // ---------------------------------------------------------------------------

  /** The signed shift of an int16. */
  function ShiftRight8(s: Sample): Sample {
    if s & 0x8000 != 0 then (s >> 8) | 0xFF00 else s >> 8
  }

  function Low(s: Sample): Byte {
    (s & 0xFF) as Byte
  }

  function High(s: Sample): Byte {
    (ShiftRight8(s) & 0xFF) as Byte
  }

  function Join(low: Byte, high: Byte): Sample {
    (low as Sample) | ((high as Sample) << 8)
  }

  function Marshal(samples: seq<Sample>): (pcm: seq<Byte>) {
    seq(2 * |samples|, i requires 0 <= i < 2 * |samples| => if i % 2 == 0 then Low(samples[i / 2]) else High(samples[i / 2]))
  }

  function Unmarshal(pcm: seq<Byte>): (samples: seq<Sample>) {
    seq(|pcm| / 2, i requires 0 <= i < |pcm| / 2 => Join(pcm[2 * i], pcm[2 * i + 1]))
  }

  lemma JoinSplits(low: Byte, high: Byte)
    ensures Low(Join(low, high)) == low && High(Join(low, high)) == high
  {
  }

  lemma SplitJoins(s: Sample)
    ensures Join(Low(s), High(s)) == s
  {
  }

  /** The low byte counts ones and the high byte counts 256s. */
  lemma BytesOfSample(s: Sample)
    ensures s == (Low(s) as Sample) + 256 * (High(s) as Sample)
  {
  }

  /** Little endian: sample `i` is stored low byte first, and read back so. */
  lemma LittleEndian(samples: seq<Sample>, pcm: seq<Byte>, i: nat)
    ensures i < |samples| ==>
      |Marshal(samples)| == 2 * |samples| && samples[i] == (Marshal(samples)[2 * i] as Sample) + 256 * (Marshal(samples)[2 * i + 1] as Sample)
    ensures i < |pcm| / 2 ==>
      |Unmarshal(pcm)| == |pcm| / 2 && Unmarshal(pcm)[i] == (pcm[2 * i] as Sample) + 256 * (pcm[2 * i + 1] as Sample)
  {
    if i < |samples| {
      BytesOfSample(samples[i]);
    }
    if i < |pcm| / 2 {
      BytesOfSample(Unmarshal(pcm)[i]);
      JoinSplits(pcm[2 * i], pcm[2 * i + 1]);
    }
  }

  lemma UnmarshalMarshal(samples: seq<Sample>)
    ensures Unmarshal(Marshal(samples)) == samples
  {
    var back := Unmarshal(Marshal(samples));
    forall i | 0 <= i < |samples| ensures back[i] == samples[i] {
      SplitJoins(samples[i]);
    }
  }

  lemma MarshalUnmarshal(pcm: seq<Byte>)
    requires |pcm| % 2 == 0
    ensures Marshal(Unmarshal(pcm)) == pcm
  {
    var back := Marshal(Unmarshal(pcm));
    forall i | 0 <= i < |pcm| ensures back[i] == pcm[i] {
      var k := i / 2;
      JoinSplits(pcm[2 * k], pcm[2 * k + 1]);
    }
  }

  lemma UnmarshalAppend(a: seq<Byte>, b: seq<Byte>)
    requires |a| % 2 == 0
    ensures Unmarshal(a + b) == Unmarshal(a) + Unmarshal(b)
  {
  }

  /** The decoder's output conversion. */
  method MarshalSamples(samples: array<Sample>, n: nat) returns (pcm: array<Byte>)
    requires n <= samples.Length
    ensures fresh(pcm) && pcm[..] == Marshal(samples[..n])
  {
    pcm := new Byte[2 * n];
    for i := 0 to n
      invariant forall k :: 0 <= k < 2 * i ==> pcm[k] == if k % 2 == 0 then Low(samples[k / 2]) else High(samples[k / 2])
    {
      pcm[i * 2] := Low(samples[i]);
      pcm[i * 2 + 1] := High(samples[i]);
    }
  }

  // ---------------------------------------------------------------------------
  // What the encoder should be fed
  // ---------------------------------------------------------------------------

  /** Chunks of odd length act as absent. */
  function Stream(chunks: seq<seq<Byte>>): seq<Sample> {
    if chunks == [] then []
    else
      var last := chunks[|chunks| - 1];
      Stream(chunks[..|chunks| - 1]) + if |last| % 2 != 0 then [] else Unmarshal(last)
  }

  function EvenBytes(chunks: seq<seq<Byte>>): (r: seq<Byte>)
    ensures |r| % 2 == 0
  {
    if chunks == [] then []
    else
      var last := chunks[|chunks| - 1];
      EvenBytes(chunks[..|chunks| - 1]) + if |last| % 2 != 0 then [] else last
  }

  /** Chunk by chunk: an odd one contributes nothing, an even one its samples. */
  lemma {:induction false} StreamAdds(a: seq<seq<Byte>>, b: seq<seq<Byte>>, chunk: seq<Byte>)
    ensures Stream(a + b) == Stream(a) + Stream(b)
    ensures Stream([chunk]) == (if |chunk| % 2 == 0 then Unmarshal(chunk) else [])
    decreases |b|
  {
    hide Unmarshal;
    if b == [] {
      assert a + b == a;
    } else {
      var n := |b| - 1;
      assert (a + b)[..|a + b| - 1] == a + b[..n];
      StreamAdds(a, b[..n], chunk);
    }
  }

  lemma {:induction false} StreamIsUnmarshalled(chunks: seq<seq<Byte>>)
    ensures Stream(chunks) == Unmarshal(EvenBytes(chunks))
  {
    if chunks != [] {
      var n := |chunks| - 1;
      StreamIsUnmarshalled(chunks[..n]);
      UnmarshalAppend(EvenBytes(chunks[..n]), chunks[n]);
    }
  }

  function Block(s: seq<Sample>, k: nat): Frame
    requires (k + 1) * FRAME_SIZE <= |s|
  {
    s[k * FRAME_SIZE..(k + 1) * FRAME_SIZE]
  }

  /** The complete consecutive blocks of a stream. */
  function Blocks(s: seq<Sample>): seq<Frame> {
    seq(|s| / FRAME_SIZE, k requires 0 <= k < |s| / FRAME_SIZE => Block(s, k))
  }

  /** Sample `j` of block `k` is sample `480 k + j` of the stream. */
  lemma BlocksAreConsecutive(s: seq<Sample>, k: nat, j: nat)
    requires k < |s| / 480 && j < 480
    ensures |Blocks(s)| == |s| / 480 && Blocks(s)[k][j] == s[480 * k + j]
  {
  }

  function Rest(s: seq<Sample>): seq<Sample> {
    s[|s| / FRAME_SIZE * FRAME_SIZE..]
  }

  function Concat(frames: seq<seq<Sample>>): seq<Sample> {
    if frames == [] then [] else Concat(frames[..|frames| - 1]) + frames[|frames| - 1]
  }

  lemma DropThenSlice(s: seq<Sample>, n: nat, i: nat, j: nat)
    requires i <= j && n + j <= |s|
    ensures s[n..][i..j] == s[n + i..n + j]
  {
  }

  lemma BlocksOfFull(s: seq<Sample>)
    requires |s| >= FRAME_SIZE
    ensures Blocks(s) == [s[..FRAME_SIZE]] + Blocks(s[FRAME_SIZE..])
    ensures Rest(s) == Rest(s[FRAME_SIZE..])
  {
    var t := s[FRAME_SIZE..];
    forall k | 0 <= k < |t| / FRAME_SIZE ensures Blocks(s)[k + 1] == Blocks(t)[k] {
      DropThenSlice(s, FRAME_SIZE, k * FRAME_SIZE, (k + 1) * FRAME_SIZE);
      assert Block(s, k + 1) == Block(t, k);
    }
  }

  /** Cutting can stop at any point and resume on what was left over. */
  lemma {:induction false} CuttingResumes(s: seq<Sample>, t: seq<Sample>)
    ensures Blocks(s + t) == Blocks(s) + Blocks(Rest(s) + t)
    ensures Rest(s + t) == Rest(Rest(s) + t)
    decreases |s|
  {
    if |s| >= FRAME_SIZE {
      CuttingResumes(s[FRAME_SIZE..], t);
      BlocksOfFull(s);
      BlocksOfFull(s + t);
      assert (s + t)[FRAME_SIZE..] == s[FRAME_SIZE..] + t;
      assert (s + t)[..FRAME_SIZE] == s[..FRAME_SIZE];
      var later := Blocks(Rest(s) + t);
      assert [s[..FRAME_SIZE]] + (Blocks(s[FRAME_SIZE..]) + later) == Blocks(s) + later;
    } else {
      assert Rest(s) == s && Blocks(s) == [];
    }
  }

  /** No sample is lost, repeated or reordered, and less than a frame is left waiting. */
  lemma {:induction false} BlocksAndRestAreTheStream(s: seq<Sample>)
    ensures Concat(Blocks(s)) + Rest(s) == s && |Rest(s)| < FRAME_SIZE
    decreases |s|
  {
    var q := |s| / FRAME_SIZE;
    if q > 0 {
      var p := s[..(q - 1) * FRAME_SIZE];
      BlocksAndRestAreTheStream(p);
      forall k | 0 <= k < q - 1 ensures Blocks(s)[k] == Blocks(p)[k] {
        assert Block(s, k) == Block(p, k);
      }
      assert Blocks(s)[..q - 1] == Blocks(p);
      assert Rest(p) == [] && Concat(Blocks(p)) == p;
      var last := Block(s, q - 1);
      assert Blocks(s)[q - 1] == last;
      assert Concat(Blocks(s)) == p + last;
      assert p + last == s[..q * FRAME_SIZE];
    }
  }

  /** Two even chunkings of the same bytes feed the same frames and leave the same samples waiting. */
  lemma ChunkingDoesNotMatter(xs: seq<seq<Byte>>, ys: seq<seq<Byte>>)
    requires EvenBytes(xs) == EvenBytes(ys)
    ensures Blocks(Stream(xs)) == Blocks(Stream(ys)) && Rest(Stream(xs)) == Rest(Stream(ys))
  {
    StreamIsUnmarshalled(xs);
    StreamIsUnmarshalled(ys);
  }

  function Marshalled(frames: seq<seq<Sample>>): seq<seq<Byte>> {
    seq(|frames|, i requires 0 <= i < |frames| => Marshal(frames[i]))
  }

  /** A round trip over a whole stream: samples marshalled chunk by chunk are read back as their concatenation. */
  lemma {:induction false} MarshalledStreamRoundTrip(frames: seq<seq<Sample>>)
    ensures Stream(Marshalled(frames)) == Concat(frames)
  {
    if frames != [] {
      var n := |frames| - 1;
      MarshalledStreamRoundTrip(frames[..n]);
      assert Marshalled(frames)[..n] == Marshalled(frames[..n]);
      UnmarshalMarshal(frames[n]);
    }
  }

  // ---------------------------------------------------------------------------
  // What comes out
  // ---------------------------------------------------------------------------

  /** The codec's answer to its latest frame may depend on all frames before; none means an error. */
  type Codec = seq<Frame> -> Option<Packet>

  function Packets(codec: Codec, fed: seq<Frame>): seq<Packet> {
    if fed == [] then []
    else
      Packets(codec, fed[..|fed| - 1]) +
      match codec(fed) case None => [] case Some(packet) => [packet]
  }

  /** Frame by frame: an answer is sent as the next packet, an error sends nothing. */
  lemma {:induction false} PacketsAreAnswers(codec: Codec, fed: seq<Frame>, k: nat)
    requires k < |fed|
    ensures Packets(codec, []) == []
    ensures var n := |Packets(codec, fed[..k])|;
      match codec(fed[..k + 1])
      case None => |Packets(codec, fed[..k + 1])| == n
      case Some(packet) => |Packets(codec, fed[..k + 1])| == n + 1 && n < |Packets(codec, fed)| && Packets(codec, fed)[n] == packet
  {
    assert fed[..k + 1][..k] == fed[..k];
    PacketsGrow(codec, fed[..k + 1], fed[k + 1..]);
    assert fed[..k + 1] + fed[k + 1..] == fed;
  }

  predicate Prefix<T(==)>(a: seq<T>, b: seq<T>) {
    |a| <= |b| && a == b[..|a|]
  }

  lemma {:induction false} PacketsGrow(codec: Codec, fed: seq<Frame>, more: seq<Frame>)
    ensures Prefix(Packets(codec, fed), Packets(codec, fed + more))
  {
    if more == [] {
      assert fed + more == fed;
    } else {
      var n := |more| - 1;
      PacketsGrow(codec, fed, more[..n]);
      assert (fed + more)[..|fed + more| - 1] == fed + more[..n];
    }
  }

  class FrameEncoder {
    const codec: Codec
    /** Everything the codec has been given. */
    var fed: seq<Frame>
    var accumBuf: seq<Sample>
    var out: seq<Packet>

    constructor (codec: Codec)
      ensures this.codec == codec && accumBuf == [] && fed == [] && out == []
    {
      this.codec := codec;
      accumBuf, fed, out := [], [], [];
    }

    /** Encodes the complete frames. The receiver takes packets up to number `accepts`, then the context ends. */
    method EncodeFull(accepts: nat) returns (ok: bool)
      requires out == Packets(codec, fed) && |out| <= accepts
      modifies this
      ensures ok ==> fed == old(fed) + Blocks(old(accumBuf)) && accumBuf == Rest(old(accumBuf)) && out == Packets(codec, fed)
      ensures ok <==> |Packets(codec, old(fed) + Blocks(old(accumBuf)))| <= accepts
      ensures var packets := Packets(codec, old(fed) + Blocks(old(accumBuf)));
        out == if accepts < |packets| then packets[..accepts] else packets
    {
      ghost var all := old(fed) + Blocks(old(accumBuf));
      while |accumBuf| >= FRAME_SIZE
        invariant fed + Blocks(accumBuf) == all && Rest(accumBuf) == Rest(old(accumBuf))
        invariant out == Packets(codec, fed) && |out| <= accepts
        decreases |accumBuf|
      {
        var frame: Frame := accumBuf[..FRAME_SIZE];
        BlocksOfFull(accumBuf);
        ghost var before, later := fed, Blocks(accumBuf[FRAME_SIZE..]);
        assert before + [frame] + later == all;
        fed := fed + [frame];
        assert fed[..|fed| - 1] == before;
        PacketsGrow(codec, fed, later);
        match codec(fed) {
          case None =>
          case Some(packet) =>
            if |out| == accepts {
              return false;
            }
            out := out + [packet];
        }
        accumBuf := accumBuf[FRAME_SIZE..];
      }
      assert fed + [] == fed;
      ok := true;
    }

    /** The encoding goroutine on the chunks that arrive before the input or the context ends. */
    method Encode(chunks: seq<seq<Byte>>, accepts: nat) returns (ok: bool)
      requires accumBuf == [] && fed == [] && out == []
      modifies this
      ensures var packets := Packets(codec, Blocks(Stream(chunks)));
        out == if accepts < |packets| then packets[..accepts] else packets
      ensures ok <==> |Packets(codec, Blocks(Stream(chunks)))| <= accepts
      ensures ok ==> fed == Blocks(Stream(chunks)) && accumBuf == Rest(Stream(chunks)) && |accumBuf| < FRAME_SIZE
    {
      var n := 0;
      while n < |chunks|
        invariant 0 <= n <= |chunks|
        invariant fed == Blocks(Stream(chunks[..n])) && accumBuf == Rest(Stream(chunks[..n]))
        invariant out == Packets(codec, fed) && |out| <= accepts
      {
        var pcm := chunks[n];
        ghost var seen := Stream(chunks[..n]);
        assert chunks[..n + 1][..n] == chunks[..n];
        n := n + 1;
        if |pcm| % 2 != 0 {
          assert Stream(chunks[..n]) == seen;
          continue;
        }
        accumBuf := Append(accumBuf, pcm);
        CuttingResumes(seen, Unmarshal(pcm));
        assert Stream(chunks[..n]) == seen + Unmarshal(pcm);
        ok := EncodeFull(accepts);
        if !ok {
          StopIsFinal(codec, chunks, n, accepts);
          return;
        }
      }
      assert chunks[..n] == chunks;
      ok := true;
    }
  }

  /** Reads the samples of a chunk one by one behind the waiting ones. */
  method Append(accumBuf: seq<Sample>, pcm: seq<Byte>) returns (r: seq<Sample>)
    ensures r == accumBuf + Unmarshal(pcm)
  {
    r := accumBuf;
    for i := 0 to |pcm| / 2
      invariant r == accumBuf + Unmarshal(pcm)[..i]
    {
      r := r + [Join(pcm[i * 2], pcm[i * 2 + 1])];
    }
  }

  /** What is fed after some of the chunks stays the beginning of what is fed after all. */
  lemma {:induction false} FedIsPrefix(chunks: seq<seq<Byte>>, n: nat)
    requires n <= |chunks|
    ensures Prefix(Blocks(Stream(chunks[..n])), Blocks(Stream(chunks)))
    decreases |chunks|
  {
    if n == |chunks| {
      assert chunks[..n] == chunks;
    } else {
      var last := |chunks| - 1;
      FedIsPrefix(chunks[..last], n);
      assert chunks[..last][..n] == chunks[..n];
      if |chunks[last]| % 2 == 0 {
        CuttingResumes(Stream(chunks[..last]), Unmarshal(chunks[last]));
      } else {
        assert Stream(chunks) == Stream(chunks[..last]);
      }
    }
  }

  /** Once the packets of the chunks so far exceed what the receiver takes, later chunks change nothing. */
  lemma StopIsFinal(codec: Codec, chunks: seq<seq<Byte>>, n: nat, accepts: nat)
    requires n <= |chunks| && |Packets(codec, Blocks(Stream(chunks[..n])))| > accepts
    ensures var all := Packets(codec, Blocks(Stream(chunks)));
      |all| > accepts && all[..accepts] == Packets(codec, Blocks(Stream(chunks[..n])))[..accepts]
  {
    FedIsPrefix(chunks, n);
    var fed, all := Blocks(Stream(chunks[..n])), Blocks(Stream(chunks));
    assert fed + all[|fed|..] == all;
    PacketsGrow(codec, fed, all[|fed|..]);
  }
}
