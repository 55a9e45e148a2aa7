/** The two audio containers: little-endian framing that parses exactly what it prints. */
module Containers {
  import opened Basics

  const U32: nat := 0x1_0000_0000

  type Word = n: nat | n < 0x1_0000_0000
  type HalfWord = n: nat | n < 0x1_0000

  // ---------------------------------------------------------------- integers

  function Le32(n: Word): (b: Bytes)
    ensures |b| == 4
  {
    var x: int := n;
    [(x % 256) as Byte, (x / 256 % 256) as Byte, (x / 65536 % 256) as Byte, (x / 16777216) as Byte]
  }

  function Read32(b: Bytes): (n: Word)
    requires |b| >= 4
  {
    var w: int, x: int, y: int, z: int := b[0], b[1], b[2], b[3];
    w + 256 * x + 65536 * y + 16777216 * z
  }

  function Le16(n: HalfWord): (b: Bytes)
    ensures |b| == 2
  {
    var x: int := n;
    [(x % 256) as Byte, (x / 256) as Byte]
  }

  function Read16(b: Bytes): (n: HalfWord)
    requires |b| >= 2
  {
    var w: int, x: int := b[0], b[1];
    w + 256 * x
  }

  lemma Word32(n: Word, rest: Bytes)
    ensures Read32(Le32(n) + rest) == n && (Le32(n) + rest)[4..] == rest
  {
    DigitOf(n, 256);
    DigitOf(n, 65536);
    assert (Le32(n) + rest)[4..] == rest;
  }

  /** A base-256 digit is what the next one leaves over. */
  lemma DigitOf(n: nat, unit: nat)
    requires unit == 256 || unit == 65536
    ensures n / unit % 256 == n / unit - 256 * (n / (256 * unit))
  {
  }

  lemma Bytes32(b: Bytes)
    requires |b| >= 4
    ensures Le32(Read32(b)) + b[4..] == b
  {
    var n: int := Read32(b);
    var x: int, y: int, z: int := b[1], b[2], b[3];
    assert n / 256 == x + 256 * y + 65536 * z;
    assert n / 65536 == y + 256 * z;
    assert n / 16777216 == z;
    assert Le32(n) == b[..4];
  }

  lemma Half16(n: HalfWord, rest: Bytes)
    ensures Read16(Le16(n) + rest) == n && (Le16(n) + rest)[2..] == rest
  {
  }

  lemma Bytes16(b: Bytes)
    requires |b| >= 2
    ensures Le16(Read16(b)) + b[2..] == b
  {
    var n: int := Read16(b);
    assert n / 256 == b[1];
    assert Le16(Read16(b)) == b[..2];
  }

  // ---------------------------------------------------------------- length-prefixed packets

  predicate Framable(packets: seq<Bytes>) {
    forall p :: p in packets ==> |p| < U32
  }

  function Framed(packets: seq<Bytes>): Bytes
    requires Framable(packets)
  {
    if packets == [] then [] else Le32(|packets[0]|) + packets[0] + Framed(packets[1..])
  }

  /** The first `n` packets and what is left, if they are all there. */
  function Unframed(b: Bytes, n: nat): Option<(seq<Bytes>, Bytes)> {
    if n == 0 then Some(([], b))
    else if |b| < 4 || 4 + Read32(b) > |b| then None
    else
      var end := 4 + Read32(b);
      Prepended(b[4..end], Unframed(b[end..], n - 1))
  }

  function Prepended(packet: Bytes, tail: Option<(seq<Bytes>, Bytes)>): Option<(seq<Bytes>, Bytes)> {
    if tail.None? then None else Some(([packet] + tail.value.0, tail.value.1))
  }

  lemma PacketHead(p: Bytes, tail: Bytes)
    requires |p| < U32
    ensures var b := Le32(|p|) + p + tail;
            |b| >= 4 + |p| && Read32(b) == |p| && b[4..4 + |p|] == p && b[4 + |p|..] == tail
  {
    assert Le32(|p|) + p + tail == Le32(|p|) + (p + tail);
    Word32(|p|, p + tail);
  }

  lemma {:induction false} UnframeFramed(packets: seq<Bytes>, rest: Bytes)
    requires Framable(packets)
    ensures Unframed(Framed(packets) + rest, |packets|) == Some((packets, rest))
  {
    if packets == [] {
      assert Framed(packets) + rest == rest;
    } else {
      var p, tail := packets[0], Framed(packets[1..]) + rest;
      Associate(Le32(|p|) + p, Framed(packets[1..]), rest);
      PacketHead(p, tail);
      UnframeFramed(packets[1..], rest);
      assert [p] + packets[1..] == packets;
    }
  }

  lemma Glued(b: Bytes, end: nat, body: Bytes, rest: Bytes)
    requires 4 <= end <= |b| && body + rest == b[end..]
    ensures b[..4] + b[4..end] + body + rest == b
  {
    assert b[..4] + b[4..end] + body + rest == b[..4] + b[4..end] + (body + rest);
  }

  lemma {:induction false} FramedUnframe(b: Bytes, n: nat)
    requires Unframed(b, n).Some?
    ensures var (packets, rest) := Unframed(b, n).value;
            |packets| == n && Framable(packets) && Framed(packets) + rest == b
  {
    if n == 0 {
      assert Framed([]) + b == b;
    } else {
      var end := 4 + Read32(b);
      FramedUnframe(b[end..], n - 1);
      var (tail, rest) := Unframed(b[end..], n - 1).value;
      assert ([b[4..end]] + tail)[1..] == tail;
      assert Le32(Read32(b)) == b[..4] by { Bytes32(b); }
      Glued(b, end, Framed(tail), rest);
    }
  }

  // ---------------------------------------------------------------- IDOPUS1

  const OPUS_MAGIC: Bytes := [0x49, 0x44, 0x4F, 0x50, 0x55, 0x53, 0x31]

  datatype Parsed = Parsed(durationMs: Word, sampleCount: Word, packets: seq<Bytes>)

  predicate Printable(p: Parsed) { |p.packets| < U32 && Framable(p.packets) }

  function Print(p: Parsed): Bytes
    requires Printable(p)
  {
    OPUS_MAGIC + (Le32(p.durationMs) + (Le32(p.sampleCount) + (Le32(|p.packets|) + Framed(p.packets))))
  }

  function Parse(b: Bytes): Option<Parsed> {
    if |b| < 19 || b[..7] != OPUS_MAGIC then None
    else
      var body := Unframed(b[19..], Read32(b[15..]));
      if body.None? || body.value.1 != [] then None
      else Some(Parsed(Read32(b[7..]), Read32(b[11..]), body.value.0))
  }

  /** `parse_payload`: a cursor over the payload. */
  method ParsePayload(payload: Bytes) returns (parsed: Option<Parsed>)
    ensures parsed == Parse(payload)
  {
    if |payload| < 19 || payload[..7] != OPUS_MAGIC { return None; }
    var duration, samples, count := Read32(payload[7..]), Read32(payload[11..]), Read32(payload[15..]);
    var cursor, packets, i := 19, [], 0;
    ghost var whole := Unframed(payload[19..], count);
    AfterNone(whole);
    while i < count
      invariant 0 <= i <= count && 19 <= cursor <= |payload|
      invariant whole == After(packets, Unframed(payload[cursor..], count - i))
    {
      if cursor + 4 > |payload| { return None; }
      var length := Read32(payload[cursor..]);
      var end := cursor + 4 + length;
      if end > |payload| { return None; }
      assert payload[cursor..][4..4 + length] == payload[cursor + 4..end] &&
             payload[cursor..][4 + length..] == payload[end..];
      AfterOne(packets, payload[cursor + 4..end], Unframed(payload[end..], count - i - 1));
      packets := packets + [payload[cursor + 4..end]];
      cursor := end;
      i := i + 1;
    }
    assert packets + [] == packets;
    if cursor != |payload| { return None; }
    return Some(Parsed(duration, samples, packets));
  }

  function After(packets: seq<Bytes>, tail: Option<(seq<Bytes>, Bytes)>): Option<(seq<Bytes>, Bytes)> {
    if tail.None? then None else Some((packets + tail.value.0, tail.value.1))
  }

  lemma AfterNone(tail: Option<(seq<Bytes>, Bytes)>)
    ensures After([], tail) == tail
  {
    if tail.Some? { assert [] + tail.value.0 == tail.value.0; }
  }

  lemma AfterOne(packets: seq<Bytes>, packet: Bytes, tail: Option<(seq<Bytes>, Bytes)>)
    ensures After(packets, Prepended(packet, tail)) == After(packets + [packet], tail)
  {
    if tail.Some? { assert packets + ([packet] + tail.value.0) == packets + [packet] + tail.value.0; }
  }

  lemma HeaderOf(p: Parsed, rest: Bytes)
    requires Printable(p)
    ensures var b := Print(p) + rest;
            && |b| >= 19 && b[..7] == OPUS_MAGIC && Read32(b[7..]) == p.durationMs && Read32(b[11..]) == p.sampleCount
            && Read32(b[15..]) == |p.packets| && b[19..] == Framed(p.packets) + rest
  {
    var b := Print(p) + rest;
    var tail3 := Framed(p.packets) + rest;
    var tail2 := Le32(|p.packets|) + tail3;
    var tail1 := Le32(p.sampleCount) + tail2;
    assert b[7..] == Le32(p.durationMs) + tail1;
    Word32(p.durationMs, tail1);
    assert b[11..] == b[7..][4..];
    Word32(p.sampleCount, tail2);
    assert b[15..] == b[11..][4..];
    Word32(|p.packets|, tail3);
    assert b[19..] == b[15..][4..];
  }

  /** The four bytes spell the number, the least first. */
  predicate Little(b: Bytes, n: nat) {
    |b| == 4 &&
    var w: int, x: int, y: int, z: int := b[0], b[1], b[2], b[3];
    n == w + 0x100 * x + 0x1_0000 * y + 0x100_0000 * z
  }

  lemma LittleIs(n: Word)
    ensures Little(Le32(n), n)
  {
    Word32(n, []);
    assert Le32(n) + [] == Le32(n);
  }

  /** The header as it lies in the file: "IDOPUS1", the duration, the sample count and the number of packets, and then
      the packets. */
  lemma OpusLayout(p: Parsed)
    requires Printable(p)
    ensures var b := Print(p);
            && |b| >= 19 && b[..7] == [0x49, 0x44, 0x4F, 0x50, 0x55, 0x53, 0x31]
            && Little(b[7..11], p.durationMs) && Little(b[11..15], p.sampleCount) && Little(b[15..19], |p.packets|)
            && b[19..] == Framed(p.packets)
  {
    var b := Print(p);
    LittleIs(p.durationMs);
    LittleIs(p.sampleCount);
    LittleIs(|p.packets|);
    assert b[7..11] == Le32(p.durationMs) && b[11..15] == Le32(p.sampleCount) && b[15..19] == Le32(|p.packets|);
  }

  /** Every packet follows its length. */
  lemma FramedLayout(packets: seq<Bytes>)
    requires Framable(packets) && packets != []
    ensures var b, n := Framed(packets), |packets[0]|;
            |b| >= 4 + n && Little(b[..4], n) && b[4..4 + n] == packets[0] && b[4 + n..] == Framed(packets[1..])
  {
    LittleIs(|packets[0]|);
    PacketHead(packets[0], Framed(packets[1..]));
    assert Framed(packets)[..4] == Le32(|packets[0]|);
  }

  /** Parsing a printed value returns it, and only the exact payload parses: any extension is rejected. */
  lemma ParsePrint(p: Parsed, rest: Bytes)
    requires Printable(p)
    ensures Parse(Print(p) + rest) == if rest == [] then Some(p) else None
  {
    HeaderOf(p, rest);
    UnframeFramed(p.packets, rest);
  }

  /** Printing any accepted payload returns the same bytes. */
  lemma PrintParse(b: Bytes)
    requires Parse(b).Some?
    ensures Printable(Parse(b).value) && Print(Parse(b).value) == b
  {
    FramedUnframe(b[19..], Read32(b[15..]));
    Bytes32(b[7..]);
    Bytes32(b[11..]);
    Bytes32(b[15..]);
    assert b[7..][4..] == b[11..] && b[11..][4..] == b[15..] && b[15..][4..] == b[19..];
    assert b == b[..7] + b[7..];
  }

  /** Every proper prefix of an accepted payload is rejected. */
  lemma TruncationIsRejected(b: Bytes, k: nat)
    requires Parse(b).Some? && k < |b|
    ensures Parse(b[..k]).None?
  {
    if Parse(b[..k]).Some? {
      PrintParse(b[..k]);
      assert b == Print(Parse(b[..k]).value) + b[k..];
      ParsePrint(Parse(b[..k]).value, b[k..]);
    }
  }

  // ---------------------------------------------------------------- packets of 320 samples

  const FRAME := 320

  /** A sample is only copied. */
  type Sample = int

  function PacketCount(samples: nat): nat { (samples + FRAME - 1) / FRAME }

  /** The `i`-th frame, padded with silence to 320 samples. */
  function FrameAt(samples: seq<Sample>, silence: Sample, i: nat): (frame: seq<Sample>)
    requires i < PacketCount(|samples|)
    ensures |frame| == 320
    ensures forall k :: 0 <= k < 320 ==>
              frame[k] == if 320 * i + k < |samples| then samples[320 * i + k] else silence
  {
    var from := i * FRAME;
    if from + FRAME <= |samples| then samples[from..from + FRAME]
    else samples[from..] + seq(FRAME - (|samples| - from), _ => silence)
  }

  function Packets(samples: seq<Sample>, silence: Sample, pack: seq<Sample> -> Bytes): (packets: seq<Bytes>)
    ensures |packets| == PacketCount(|samples|) <= |samples|
  {
    seq(PacketCount(|samples|), i requires 0 <= i < PacketCount(|samples|) => pack(FrameAt(samples, silence, i)))
  }

  lemma PacketsFramable(samples: seq<Sample>, silence: Sample, pack: seq<Sample> -> Bytes)
    requires forall frame :: |pack(frame)| < U32
    ensures Framable(Packets(samples, silence, pack))
  {
    var packets := Packets(samples, silence, pack);
    forall p | p in packets ensures |p| < U32 {
      var i :| 0 <= i < |packets| && packets[i] == p;
      assert packets[i] == pack(FrameAt(samples, silence, i));
    }
  }

  /** `encode`, with the Opus encoder as a function of the frame. */
  method Encode(durationMs: Word, samples: seq<Sample>, silence: Sample, pack: seq<Sample> -> Bytes)
    returns (payload: Option<Bytes>)
    requires forall frame :: |pack(frame)| < U32
    ensures Framable(Packets(samples, silence, pack))
    ensures payload == if |samples| >= U32 then None
                       else Some(Print(Parsed(durationMs, |samples|, Packets(samples, silence, pack))))
  {
    PacketsFramable(samples, silence, pack);
    if |samples| >= U32 { return None; }
    var count := PacketCount(|samples|);
    var body, i := [], 0;
    ghost var packets := Packets(samples, silence, pack);
    while i < count
      invariant 0 <= i <= count && body == Framed(packets[..i])
    {
      var packet := pack(FrameAt(samples, silence, i));
      FramedSnoc(packets[..i], packet);
      assert packets[..i + 1] == packets[..i] + [packet];
      body := body + Le32(|packet|) + packet;
      i := i + 1;
    }
    assert packets[..i] == packets;
    return Some(OPUS_MAGIC + (Le32(durationMs) + (Le32(|samples|) + (Le32(count) + body))));
  }

  lemma {:induction false} FramedSnoc(packets: seq<Bytes>, packet: Bytes)
    requires Framable(packets) && |packet| < U32
    ensures Framable(packets + [packet]) && Framed(packets + [packet]) == Framed(packets) + Le32(|packet|) + packet
  {
    if packets == [] {
      assert packets + [packet] == [packet] && [packet][1..] == [];
      assert Framed(packets) + Le32(|packet|) == Le32(|packet|);
      assert Le32(|packet|) + packet + [] == Le32(|packet|) + packet;
    } else {
      var head, rest := Le32(|packets[0]|) + packets[0], Framed(packets[1..]);
      FramedSnoc(packets[1..], packet);
      FrontStays(packets, packet);
      Associate(head, rest + Le32(|packet|), packet);
      Associate(head, rest, Le32(|packet|));
    }
  }

  lemma FrontStays<T>(items: seq<T>, item: T)
    requires items != []
    ensures (items + [item])[0] == items[0] && (items + [item])[1..] == items[1..] + [item]
  {
  }

  function Joined(frames: seq<seq<Sample>>): seq<Sample> {
    if frames == [] then [] else Joined(frames[..|frames| - 1]) + frames[|frames| - 1]
  }

  /** `decode`, with the Opus decoder as the frames it produced: all of them, cut to the recorded count. */
  method Decode(payload: Bytes, unpack: Bytes -> seq<Sample>) returns (audio: Option<(Word, seq<Sample>)>)
    ensures audio.Some? <==> Parse(payload).Some? &&
                             |Joined(Frames(Parse(payload).value.packets, unpack))| >= Parse(payload).value.sampleCount
    ensures audio.Some? ==>
              var p := Parse(payload).value;
              audio.value == (p.durationMs, Joined(Frames(p.packets, unpack))[..p.sampleCount])
  {
    var parsed := ParsePayload(payload);
    if parsed.None? { return None; }
    var p, samples := parsed.value, [];
    for i := 0 to |p.packets|
      invariant samples == Joined(Frames(p.packets[..i], unpack))
    {
      assert Frames(p.packets[..i + 1], unpack)[..i] == Frames(p.packets[..i], unpack);
      samples := samples + unpack(p.packets[i]);
    }
    assert p.packets[..|p.packets|] == p.packets;
    if |samples| < p.sampleCount { return None; }
    return Some((p.durationMs, samples[..p.sampleCount]));
  }

  function Frames(packets: seq<Bytes>, unpack: Bytes -> seq<Sample>): seq<seq<Sample>> {
    seq(|packets|, i requires 0 <= i < |packets| => unpack(packets[i]))
  }

  lemma {:induction false} JoinedLength(frames: seq<seq<Sample>>)
    requires forall f :: f in frames ==> |f| == FRAME
    ensures |Joined(frames)| == FRAME * |frames|
  {
    if frames != [] { JoinedLength(frames[..|frames| - 1]); }
  }

  /** With a decoder that gives 320 samples a packet, decoding an encoded recording gives back its sample count and
      duration. */
  lemma DecodeKeepsCount(durationMs: Word, samples: seq<Sample>, silence: Sample, pack: seq<Sample> -> Bytes,
                         unpack: Bytes -> seq<Sample>)
    requires |samples| < U32 && (forall frame :: |pack(frame)| < U32) && forall packet :: |unpack(packet)| == FRAME
    ensures var p := Parsed(durationMs, |samples|, Packets(samples, silence, pack));
            && Printable(p) && Parse(Print(p)) == Some(p)
            && |Joined(Frames(p.packets, unpack))| >= p.sampleCount
            && |Joined(Frames(p.packets, unpack))[..p.sampleCount]| == |samples|
  {
    var p := Parsed(durationMs, |samples|, Packets(samples, silence, pack));
    PacketsFramable(samples, silence, pack);
    ParsePrint(p, []);
    assert Print(p) + [] == Print(p);
    JoinedLength(Frames(p.packets, unpack));
    assert FRAME * PacketCount(|samples|) >= |samples|;
  }

  function FramesOf(samples: seq<Sample>, silence: Sample, n: nat): (frames: seq<seq<Sample>>)
    requires n <= PacketCount(|samples|)
    ensures |frames| == n && forall i :: 0 <= i < n ==> |frames[i]| == 320
  {
    seq(n, i requires 0 <= i < n => FrameAt(samples, silence, i))
  }

  lemma {:induction false} JoinedFrames(samples: seq<Sample>, silence: Sample, n: nat)
    requires n <= PacketCount(|samples|)
    ensures var joined := Joined(FramesOf(samples, silence, n));
            && |joined| == 320 * n
            && forall k :: 0 <= k < 320 * n ==> joined[k] == if k < |samples| then samples[k] else silence
  {
    if n > 0 {
      JoinedFrames(samples, silence, n - 1);
      assert FramesOf(samples, silence, n)[..n - 1] == FramesOf(samples, silence, n - 1);
      var front, frame := Joined(FramesOf(samples, silence, n - 1)), FrameAt(samples, silence, n - 1);
      assert Joined(FramesOf(samples, silence, n)) == front + frame;
      forall k | 0 <= k < 320 * n
        ensures (front + frame)[k] == if k < |samples| then samples[k] else silence
      {
        if k >= 320 * (n - 1) { assert (front + frame)[k] == frame[k - 320 * (n - 1)]; }
      }
    }
  }

  /** The framing itself loses nothing: under a codec that gives each frame back, decoding an encoded recording gives
      back its duration and every sample. */
  lemma FramingIsLossless(durationMs: Word, samples: seq<Sample>, silence: Sample, pack: seq<Sample> -> Bytes,
                          unpack: Bytes -> seq<Sample>)
    requires |samples| < U32 && forall frame :: |pack(frame)| < U32
    requires forall frame :: |frame| == 320 ==> unpack(pack(frame)) == frame
    ensures var p := Parsed(durationMs, |samples|, Packets(samples, silence, pack));
            && Printable(p) && Parse(Print(p)) == Some(p)
            && |Joined(Frames(p.packets, unpack))| >= p.sampleCount
            && Joined(Frames(p.packets, unpack))[..p.sampleCount] == samples
  {
    var p := Parsed(durationMs, |samples|, Packets(samples, silence, pack));
    PacketsFramable(samples, silence, pack);
    ParsePrint(p, []);
    assert Print(p) + [] == Print(p);
    var count := PacketCount(|samples|);
    assert Frames(p.packets, unpack) == FramesOf(samples, silence, count);
    JoinedFrames(samples, silence, count);
    assert 320 * count >= |samples|;
  }

  // ---------------------------------------------------------------- IDFX1

  const FIXTURE_MAGIC: Bytes := [0x49, 0x44, 0x46, 0x58, 0x31]

  /** Samples as their 32 bits: the codec copies them without looking. */
  datatype Fixture = Fixture(sampleRate: Word, channels: HalfWord, durationMs: Word, samples: seq<Word>)

  function Words(samples: seq<Word>): (b: Bytes)
    ensures |b| == 4 * |samples|
  {
    if samples == [] then [] else Words(samples[..|samples| - 1]) + Le32(samples[|samples| - 1])
  }

  function PrintFixture(f: Fixture): Bytes
    requires |f.samples| < U32
  {
    FIXTURE_MAGIC +
    (Le32(f.sampleRate) + (Le16(f.channels) + (Le32(f.durationMs) + (Le32(|f.samples|) + Words(f.samples)))))
  }

  method EncodeFixture(f: Fixture) returns (payload: Option<Bytes>)
    ensures payload == if |f.samples| < U32 then Some(PrintFixture(f)) else None
  {
    if |f.samples| >= U32 { return None; }
    var body := [];
    for i := 0 to |f.samples|
      invariant body == Words(f.samples[..i])
    {
      assert f.samples[..i + 1][..i] == f.samples[..i];
      body := body + Le32(f.samples[i]);
    }
    assert f.samples[..|f.samples|] == f.samples;
    return Some(FIXTURE_MAGIC +
                (Le32(f.sampleRate) + (Le16(f.channels) + (Le32(f.durationMs) + (Le32(|f.samples|) + body)))));
  }

  /** Accepts a payload exactly when it is the print of some recording, and returns that one. */
  method DecodeFixture(payload: Bytes) returns (f: Option<Fixture>)
    ensures f.Some? ==> |f.value.samples| < U32 && PrintFixture(f.value) == payload
    ensures f.None? ==> forall g: Fixture :: |g.samples| < U32 ==> PrintFixture(g) != payload
  {
    if |payload| < 19 || payload[..5] != FIXTURE_MAGIC {
      forall g: Fixture | |g.samples| < U32 ensures PrintFixture(g) != payload { FixtureHeader(g); }
      return None;
    }
    var rate, channels, duration := Read32(payload[5..]), Read16(payload[9..]), Read32(payload[11..]);
    var count: int := Read32(payload[15..]);
    if |payload| != 19 + 4 * count {
      forall g: Fixture | |g.samples| < U32 ensures PrintFixture(g) != payload { FixtureHeader(g); }
      return None;
    }
    var samples: seq<Word>, cursor: int, i: int := [], 19, 0;
    while i < count
      invariant 0 <= i <= count && cursor == 19 + 4 * i && |samples| == i && payload[19..cursor] == Words(samples)
    {
      Bytes32(payload[cursor..]);
      assert payload[cursor..cursor + 4] == Le32(Read32(payload[cursor..]));
      assert payload[19..cursor + 4] == payload[19..cursor] + payload[cursor..cursor + 4];
      assert (samples + [Read32(payload[cursor..])])[..i] == samples;
      samples := samples + [Read32(payload[cursor..])];
      cursor := cursor + 4;
      i := i + 1;
    }
    assert payload[19..] == payload[19..cursor];
    f := Some(Fixture(rate, channels, duration, samples));
    FixtureBytes(payload, f.value);
  }

  lemma FixtureHeader(f: Fixture)
    requires |f.samples| < U32
    ensures var b := PrintFixture(f);
            && |b| == 19 + 4 * |f.samples| && b[..5] == FIXTURE_MAGIC && Read32(b[5..]) == f.sampleRate
            && Read16(b[9..]) == f.channels && Read32(b[11..]) == f.durationMs && Read32(b[15..]) == |f.samples|
            && b[19..] == Words(f.samples)
  {
    var b, words := PrintFixture(f), Words(f.samples);
    var tail3 := Le32(|f.samples|) + words;
    var tail2 := Le32(f.durationMs) + tail3;
    var tail1 := Le16(f.channels) + tail2;
    assert b[5..] == Le32(f.sampleRate) + tail1;
    Word32(f.sampleRate, tail1);
    assert b[9..] == b[5..][4..];
    Half16(f.channels, tail2);
    assert b[11..] == b[9..][2..];
    Word32(f.durationMs, tail3);
    assert b[15..] == b[11..][4..];
    Word32(|f.samples|, words);
    assert b[19..] == b[15..][4..];
  }

  /** The fixture as it lies in the file: "IDFX1", the sample rate, the channels, the duration, the sample count and
      then the samples' words. */
  lemma FixtureLayout(f: Fixture, i: nat)
    requires |f.samples| < U32
    ensures var b := PrintFixture(f);
            && |b| == 19 + 4 * |f.samples| && b[..5] == [0x49, 0x44, 0x46, 0x58, 0x31]
            && Little(b[5..9], f.sampleRate) && (var x: int, y: int := b[9], b[10]; f.channels == x + 0x100 * y)
            && Little(b[11..15], f.durationMs) && Little(b[15..19], |f.samples|)
            && (i < |f.samples| ==> Little(b[19 + 4 * i..23 + 4 * i], f.samples[i]))
  {
    FixtureHeader(f);
    var b := PrintFixture(f);
    LittleIs(f.sampleRate);
    LittleIs(f.durationMs);
    LittleIs(|f.samples|);
    Half16(f.channels, []);
    assert Le16(f.channels) + [] == Le16(f.channels);
    assert b[5..9] == Le32(f.sampleRate) && b[9..11] == Le16(f.channels);
    assert b[11..15] == Le32(f.durationMs) && b[15..19] == Le32(|f.samples|);
    if i < |f.samples| {
      LittleIs(f.samples[i]);
      WordAt(f.samples, i);
      assert b[19 + 4 * i..23 + 4 * i] == b[19..][4 * i..4 * i + 4];
    }
  }

  lemma {:induction false} WordAt(samples: seq<Word>, i: nat)
    requires i < |samples|
    ensures Words(samples)[4 * i..4 * i + 4] == Le32(samples[i])
  {
    if i < |samples| - 1 { WordAt(samples[..|samples| - 1], i); }
  }

  lemma FixtureBytes(b: Bytes, f: Fixture)
    requires |b| == 19 + 4 * |f.samples| && |f.samples| < U32 && b[..5] == FIXTURE_MAGIC
    requires Read32(b[5..]) == f.sampleRate && Read16(b[9..]) == f.channels && Read32(b[11..]) == f.durationMs
    requires Read32(b[15..]) == |f.samples| && b[19..] == Words(f.samples)
    ensures PrintFixture(f) == b
  {
    Bytes32(b[5..]);
    Bytes16(b[9..]);
    Bytes32(b[11..]);
    Bytes32(b[15..]);
    assert b[5..][4..] == b[9..] && b[9..][2..] == b[11..] && b[11..][4..] == b[15..] && b[15..][4..] == b[19..];
    assert b == b[..5] + b[5..];
  }

  lemma {:induction false} WordsInjective(a: seq<Word>, b: seq<Word>)
    requires Words(a) == Words(b)
    ensures a == b
  {
    if a != [] && b != [] {
      var x, y := Words(a), Words(b);
      var n := |x| - 4;
      assert x[..n] == Words(a[..|a| - 1]) && y[..n] == Words(b[..|b| - 1]);
      assert x[n..] == Le32(a[|a| - 1]) && y[n..] == Le32(b[|b| - 1]);
      Word32(a[|a| - 1], []);
      Word32(b[|b| - 1], []);
      assert Le32(a[|a| - 1]) + [] == Le32(b[|b| - 1]) + [];
      WordsInjective(a[..|a| - 1], b[..|b| - 1]);
      assert a == a[..|a| - 1] + [a[|a| - 1]] && b == b[..|b| - 1] + [b[|b| - 1]];
    }
  }

  /** So a decoded recording is the one that was encoded, and no payload is a proper prefix of another. */
  lemma FixturesPrefixFree(f: Fixture, g: Fixture, rest: Bytes)
    requires |f.samples| < U32 && |g.samples| < U32 && PrintFixture(f) + rest == PrintFixture(g)
    ensures f == g && rest == []
  {
    FixtureHeader(f);
    FixtureHeader(g);
    var a, b := PrintFixture(f), PrintFixture(g);
    assert a[..5] == b[..5] && forall i :: 5 <= i < 19 ==> a[i] == b[i];
    assert |f.samples| == |g.samples|;
    assert a == b;
    WordsInjective(f.samples, g.samples);
  }
}
