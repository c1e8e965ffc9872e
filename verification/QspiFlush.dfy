/**
 Arduino_ESP32QSPI::writePixels, as upstream ships it and as the build patches
 it. The patched form packs chunk N+1 into one DMA buffer while chunk N is
 still being read from the other, and packs two pixels per word when the
 source is word aligned. Both must put the same traffic on the wire.

 The SPI engine may read any byte of a transfer's buffer at any time between
 the start of the transfer and its end.
 */
module QspiFlush {
  import opened Sequences

  type Octet = bv8

  // ------------------------------------------------------------ pixel packing

  function Low(p: bv16): Octet { (p & 0xFF) as Octet }

  function High(p: bv16): Octet { (p >> 8) as Octet }

  /** MSB_16_SET: most significant byte first. */
  function Packed(p: bv16): seq<Octet> { [High(p), Low(p)] }

  /** The byte stream of a run of pixels. */
  function Stream(pixels: seq<bv16>): (r: seq<Octet>)
    ensures |r| == 2 * |pixels|
  {
    if pixels == [] then [] else Stream(pixels[..|pixels| - 1]) + Packed(pixels[|pixels| - 1])
  }

  /** Two neighbouring pixels as one little-endian word load. */
  function Word(p1: bv16, p2: bv16): bv32 {
    (p1 as bv32) | ((p2 as bv32) << 16)
  }

  /** The patched word path: swap the bytes inside both halves at once. */
  function SwapHalves(v: bv32): bv32 {
    ((v & 0x00FF00FF) << 8) | ((v >> 8) & 0x00FF00FF)
  }

  /** A little-endian word store. */
  function StoredWord(v: bv32): seq<Octet> {
    [(v & 0xFF) as Octet, ((v >> 8) & 0xFF) as Octet, ((v >> 16) & 0xFF) as Octet, ((v >> 24) & 0xFF) as Octet]
  }

  /** The word path stores exactly the bytes of the two-pixel path. */
  lemma WordPathMatches(p1: bv16, p2: bv16)
    ensures StoredWord(SwapHalves(Word(p1, p2))) == Packed(p1) + Packed(p2)
  {}

  lemma {:induction false} StreamConcat(a: seq<bv16>, b: seq<bv16>)
    ensures Stream(a + b) == Stream(a) + Stream(b)
    decreases |b|
  {
    if b == [] {
      assert a + b == a;
    } else {
      hide Packed;
      var n := |b| - 1;
      StreamConcat(a, b[..n]);
      assert (a + b)[..|a + b| - 1] == a + b[..n] && (a + b)[|a + b| - 1] == b[n];
      Associative(Stream(a), Stream(b[..n]), Packed(b[n]));
    }
  }

  lemma StreamOne(pixels: seq<bv16>, i: nat)
    requires i < |pixels|
    ensures Stream(pixels[..i + 1]) == Stream(pixels[..i]) + Packed(pixels[i])
  {
    assert pixels[..i + 1][..i] == pixels[..i];
  }

  lemma StreamTwo(pixels: seq<bv16>, i: nat)
    requires i + 1 < |pixels|
    ensures Stream(pixels[..i + 2]) == Stream(pixels[..i]) + (Packed(pixels[i]) + Packed(pixels[i + 1]))
  {
    StreamOne(pixels, i);
    StreamOne(pixels, i + 1);
  }

  // ------------------------------------------------------------ wire traffic

  /** The first chunk carries command 0x32 and address 0x003C00; the others carry neither. */
  datatype Header = Command(cmd: nat, addr: nat) | Continuation

  datatype Event =
    | CsLow
    | Start(header: Header, bits: nat)
    | End(payload: seq<Octet>)
    | CsHigh

  function HeaderOf(first: bool): Header {
    if first then Command(0x32, 0x003C00) else Continuation
  }

  function ChunkLength(len: nat, max: nat): nat {
    if len > max then max else len
  }

  function Traffic(pixels: seq<bv16>, max: nat, first: bool): seq<Event>
    requires max > 0
    decreases |pixels|
  {
    if pixels == [] then []
    else
      var l := ChunkLength(|pixels|, max);
      [Start(HeaderOf(first), 16 * l), End(Stream(pixels[..l]))] + Traffic(pixels[l..], max, false)
  }

  /** The simple description of one call: chunk after chunk, each sent and finished in turn. */
  function Flush(pixels: seq<bv16>, max: nat): seq<Event>
    requires max > 0
  {
    [CsLow] + Traffic(pixels, max, true) + [CsHigh]
  }

  /** All payload bytes of a log, in order. */
  function Payload(log: seq<Event>): seq<Octet> {
    if log == [] then []
    else (if log[0].End? then log[0].payload else []) + Payload(log[1..])
  }

  lemma {:induction false} PayloadConcat(a: seq<Event>, b: seq<Event>)
    ensures Payload(a + b) == Payload(a) + Payload(b)
    decreases |a|
  {
    if a == [] {
      assert a + b == b;
    } else {
      PayloadConcat(a[1..], b);
      assert (a + b)[1..] == a[1..] + b && (a + b)[0] == a[0];
      Associative(if a[0].End? then a[0].payload else [], Payload(a[1..]), Payload(b));
    }
  }

  /** Chunking loses, repeats and reorders nothing. */
  lemma {:induction false} TrafficCarriesStream(pixels: seq<bv16>, max: nat, first: bool)
    requires max > 0
    ensures Payload(Traffic(pixels, max, first)) == Stream(pixels)
    decreases |pixels|
  {
    if pixels != [] {
      var l := ChunkLength(|pixels|, max);
      var head := [Start(HeaderOf(first), 16 * l), End(Stream(pixels[..l]))];
      TrafficCarriesStream(pixels[l..], max, false);
      PayloadConcat(head, Traffic(pixels[l..], max, false));
      assert head[1..] == [End(Stream(pixels[..l]))] && head[1..][1..] == [];
      StreamConcat(pixels[..l], pixels[l..]);
      assert pixels[..l] + pixels[l..] == pixels;
    }
  }

  /**
   Every start is answered by its end before the next start; the first start, and
   only that, carries the write command and address; all chunks but the last are full.
   */
  lemma {:induction false} TrafficShape(pixels: seq<bv16>, max: nat, first: bool, i: nat)
    requires max > 0 && i < |Traffic(pixels, max, first)| && i % 2 == 0
    ensures var t := Traffic(pixels, max, first);
            && i + 1 < |t| && t[i].Start? && t[i + 1].End?
            && t[i].header == (if first && i == 0 then Command(0x32, 0x003C00) else Continuation)
            && 0 < t[i].bits == 8 * |t[i + 1].payload| <= 16 * max
            && (i + 2 < |t| ==> t[i].bits == 16 * max)
    decreases |pixels|
  {
    var l := ChunkLength(|pixels|, max);
    if i > 0 {
      TrafficShape(pixels[l..], max, false, i - 2);
    }
  }

  lemma {:induction false} TrafficIsEven(pixels: seq<bv16>, max: nat, first: bool)
    requires max > 0
    ensures |Traffic(pixels, max, first)| % 2 == 0 && (Traffic(pixels, max, first) == [] <==> pixels == [])
    decreases |pixels|
  {
    if pixels != [] { TrafficIsEven(pixels[ChunkLength(|pixels|, max)..], max, false); }
  }

  /**
   What one call must put on the wire, said without the functions above: chip select
   first and release last, start and end in turn between them, command 0x32 and
   address 0x003C00 with the first start and neither with the others, and full
   chunks but for the last.
   */
  ghost predicate WellFramed(log: seq<Event>, max: nat) {
    && |log| >= 2 && |log| % 2 == 0 && log[0] == CsLow && log[|log| - 1] == CsHigh
    && forall i :: 0 < i < |log| - 1 ==> FramedAt(log, max, i)
  }

  predicate FramedAt(log: seq<Event>, max: nat, i: nat)
    requires 0 < i < |log| - 1
  {
    if i % 2 == 1 then
      && log[i].Start? && 0 < log[i].bits <= 16 * max
      && log[i].header == (if i == 1 then Command(0x32, 0x003C00) else Continuation)
      && (i + 3 < |log| ==> log[i].bits == 16 * max)
    else
      log[i].End? && log[i - 1].Start? && log[i - 1].bits == 8 * |log[i].payload|
  }

  lemma FlushFramedAt(pixels: seq<bv16>, max: nat, i: nat)
    requires max > 0 && 0 < i < |Flush(pixels, max)| - 1
    ensures FramedAt(Flush(pixels, max), max, i)
  {
    hide Traffic;
    var t, log := Traffic(pixels, max, true), Flush(pixels, max);
    TrafficIsEven(pixels, max, true);
    assert |log| == |t| + 2 && log[i] == t[i - 1];
    if i % 2 == 1 {
      TrafficShape(pixels, max, true, i - 1);
    } else {
      assert log[i - 1] == t[i - 2];
      TrafficShape(pixels, max, true, i - 2);
    }
  }

  lemma FlushPayload(pixels: seq<bv16>, max: nat)
    requires max > 0
    ensures Payload(Flush(pixels, max)) == Stream(pixels)
  {
    var t := Traffic(pixels, max, true);
    TrafficCarriesStream(pixels, max, true);
    assert Payload([CsLow]) == [] && Payload([CsHigh]) == [];
    hide Traffic, Stream, Payload;
    PayloadConcat([CsLow] + t, [CsHigh]);
    PayloadConcat([CsLow], t);
  }

  /** A flush is well framed, and its payloads are the pixels. */
  lemma FlushWellFramed(pixels: seq<bv16>, max: nat)
    requires max > 0
    ensures WellFramed(Flush(pixels, max), max) && Payload(Flush(pixels, max)) == Stream(pixels)
  {
    hide Traffic, Stream, Payload, FramedAt;
    TrafficIsEven(pixels, max, true);
    FlushPayload(pixels, max);
    forall i | 0 < i < |Flush(pixels, max)| - 1 ensures FramedAt(Flush(pixels, max), max, i) {
      FlushFramedAt(pixels, max, i);
    }
  }

  /** Each pixel is its high byte and then its low byte. */
  lemma {:induction false} StreamAt(pixels: seq<bv16>, k: nat)
    requires k < |pixels|
    ensures ((Stream(pixels)[2 * k] as bv16) << 8) | (Stream(pixels)[2 * k + 1] as bv16) == pixels[k]
    decreases |pixels|
  {
    if k < |pixels| - 1 {
      hide Packed;
      StreamAt(pixels[..|pixels| - 1], k);
    } else {
      PackedIsPixel(pixels[k]);
    }
  }

  lemma PackedIsPixel(p: bv16)
    ensures |Packed(p)| == 2 && ((Packed(p)[0] as bv16) << 8) | (Packed(p)[1] as bv16) == p
  {
  }

  // ------------------------------------------------------------ the SPI engine

  class Spi {
    var log: seq<Event>
    var active: bool
    var buffer: array<Octet>          // tx_buffer of the transfer in flight
    var length: nat                   // its length in bytes
    var fetched: map<nat, Octet>      // bytes the engine has read so far
    ghost var intended: seq<Octet>    // what the buffer held when the transfer started

    ghost predicate Valid()
      reads this, buffer
    {
      active ==>
        && length <= buffer.Length && |intended| == length
        && buffer[..length] == intended
        && forall k :: k in fetched ==> k < length && fetched[k] == intended[k]
    }

    method ChipSelect(low: bool)
      modifies this`log
      ensures log == old(log) + [if low then CsLow else CsHigh]
    {
      log := log + [if low then CsLow else CsHigh];
    }

    /** spi_device_polling_start: only one polling transfer may be in flight. */
    method PollingStart(header: Header, source: array<Octet>, bits: nat)
      requires !active && bits % 8 == 0 && bits / 8 <= source.Length
      modifies this
      ensures Valid() && active && buffer == source && length == bits / 8
      ensures intended == source[..bits / 8] && log == old(log) + [Start(header, bits)]
    {
      active, buffer, length, fetched := true, source, bits / 8, map[];
      intended := source[..bits / 8];
      log := log + [Start(header, bits)];
    }

    /** The engine reads whichever bytes it likes, whenever it likes. */
    method Fetch()
      requires Valid()
      modifies this`fetched
      ensures Valid()
    {
      if active {
        var chosen: set<nat> := *;
        var bytes := buffer[..length];
        fetched := fetched + map k: nat | k in chosen && k < |bytes| :: bytes[k];
      }
    }

    /** spi_device_polling_end: whatever is still missing is read now. */
    method PollingEnd()
      requires Valid() && active
      modifies this
      ensures !active && Valid() && log == old(log) + [End(old(intended))]
    {
      var payload := seq(length, k requires 0 <= k < length reads this, buffer
                                   requires length <= buffer.Length
                                   => if k in fetched then fetched[k] else buffer[k]);
      assert payload == intended;
      active := false;
      log := log + [End(payload)];
    }
  }

  // ------------------------------------------------------------ packing loops

  /** Store a few bytes at an offset of a DMA buffer. */
  method StoreBytes(dst: array<Octet>, at: nat, bytes: seq<Octet>)
    requires at + |bytes| <= dst.Length
    modifies dst
    ensures dst[..at + |bytes|] == old(dst[..at]) + bytes
  {
    var i := 0;
    while i < |bytes|
      invariant 0 <= i <= |bytes|
      invariant dst[..at + i] == old(dst[..at]) + bytes[..i]
    {
      dst[at + i] := bytes[i];
      assert dst[..at + (i + 1)] == dst[..at + i] + [bytes[i]];
      assert bytes[..i + 1] == bytes[..i] + [bytes[i]];
      i := i + 1;
    }
    assert bytes[..i] == bytes;
  }

  /** The original loop: two 16-bit loads and MSB_32_16_16_SET per word. */
  method PackPairs(spi: Spi, dst: array<Octet>, chunk: seq<bv16>)
    requires spi.Valid() && (spi.active ==> spi.buffer != dst) && 2 * |chunk| <= dst.Length
    modifies dst, spi`fetched
    ensures spi.Valid()
    ensures dst[..4 * (|chunk| / 2)] == Stream(chunk[..2 * (|chunk| / 2)])
  {
    hide Packed, Stream;
    var l2 := |chunk| / 2;
    var i := 0;
    while i < l2
      invariant 0 <= i <= l2
      invariant spi.Valid()
      invariant dst[..4 * i] == Stream(chunk[..2 * i])
    {
      var p1, p2 := chunk[2 * i], chunk[2 * i + 1];
      StreamTwo(chunk, 2 * i);
      StoreBytes(dst, 4 * i, PackedPair(p1, p2));
      spi.Fetch();
      i := i + 1;
    }
  }

  function PackedPair(p1: bv16, p2: bv16): (r: seq<Octet>)
    ensures |r| == 4 && r == Packed(p1) + Packed(p2)
  {
    Packed(p1) + Packed(p2)
  }

  function PackedWord(p1: bv16, p2: bv16): (r: seq<Octet>)
    ensures |r| == 4 && r == Packed(p1) + Packed(p2)
  {
    WordPathMatches(p1, p2);
    StoredWord(SwapHalves(Word(p1, p2)))
  }

  /** The patched loop for word-aligned sources: one 32-bit load and store per pair. */
  method PackWords(spi: Spi, dst: array<Octet>, chunk: seq<bv16>)
    requires spi.Valid() && (spi.active ==> spi.buffer != dst) && 2 * |chunk| <= dst.Length
    modifies dst, spi`fetched
    ensures spi.Valid()
    ensures dst[..4 * (|chunk| / 2)] == Stream(chunk[..2 * (|chunk| / 2)])
  {
    hide Packed, Stream, PackedWord;
    var l2 := |chunk| / 2;
    var i := 0;
    while i < l2
      invariant 0 <= i <= l2
      invariant spi.Valid()
      invariant dst[..4 * i] == Stream(chunk[..2 * i])
    {
      StreamTwo(chunk, 2 * i);
      StoreBytes(dst, 4 * i, PackedWord(chunk[2 * i], chunk[2 * i + 1]));
      spi.Fetch();
      i := i + 1;
    }
  }

  /** The odd pixel at the end of a chunk. */
  method PackTail(spi: Spi, dst: array<Octet>, chunk: seq<bv16>)
    requires spi.Valid() && (spi.active ==> spi.buffer != dst) && 2 * |chunk| <= dst.Length
    requires dst[..4 * (|chunk| / 2)] == Stream(chunk[..2 * (|chunk| / 2)])
    modifies dst, spi`fetched
    ensures spi.Valid()
    ensures dst[..2 * |chunk|] == Stream(chunk)
  {
    var l := |chunk|;
    if l % 2 == 1 {
      StreamOne(chunk, l - 1);
      assert chunk[..l] == chunk;
      StoreBytes(dst, 2 * (l - 1), Packed(chunk[l - 1]));
      spi.Fetch();
    } else {
      assert chunk[..2 * (l / 2)] == chunk;
    }
  }

  // ------------------------------------------------------------ writePixels

  /** What is on the wire, what the transfer in flight still owes, and what is yet to be packed. */
  ghost predicate OnTrack(log: seq<Event>, owed: seq<Event>, pixels: seq<bv16>, pos: nat, max: nat, first: bool,
                          before: seq<Event>)
    requires max > 0 && pos <= |pixels|
  {
    log + owed + Traffic(pixels[pos..], max, first) == before + [CsLow] + Traffic(pixels, max, true)
  }

  lemma OnTrackStarts(pixels: seq<bv16>, max: nat, before: seq<Event>)
    requires max > 0
    ensures OnTrack(before + [CsLow], [], pixels, 0, max, true, before)
  {
    assert pixels[0..] == pixels;
  }

  /** The owed end and the next start move from owed to logged; the next end is owed. */
  lemma OnTrackSends(log: seq<Event>, owed: seq<Event>, pixels: seq<bv16>, pos: nat, max: nat, first: bool,
                     before: seq<Event>)
    requires max > 0 && pos < |pixels| && OnTrack(log, owed, pixels, pos, max, first, before)
    ensures var l := ChunkLength(|pixels| - pos, max);
            OnTrack(log + owed + [Start(HeaderOf(first), 16 * l)], [End(Stream(pixels[pos..pos + l]))],
                    pixels, pos + l, max, false, before)
  {
    var l := ChunkLength(|pixels| - pos, max);
    assert pixels[pos..][..l] == pixels[pos..pos + l];
    assert pixels[pos..][l..] == pixels[pos + l..];
    var start, end := [Start(HeaderOf(first), 16 * l)], [End(Stream(pixels[pos..pos + l]))];
    var rest := Traffic(pixels[pos + l..], max, false);
    assert Traffic(pixels[pos..], max, first) == start + end + rest;
    hide Traffic, Stream;
    Regroup(log + owed, start, end, rest);
  }

  lemma Regroup(a: seq<Event>, b: seq<Event>, c: seq<Event>, d: seq<Event>)
    ensures a + b + c + d == a + (b + c + d)
  {
  }

  lemma OnTrackEnds(log: seq<Event>, owed: seq<Event>, pixels: seq<bv16>, max: nat, first: bool, before: seq<Event>)
    requires max > 0 && OnTrack(log, owed, pixels, |pixels|, max, first, before)
    ensures log + owed + [CsHigh] == before + Flush(pixels, max)
  {
    assert Traffic(pixels[|pixels|..], max, first) == [];
    hide Traffic;
    assert log + owed + [] == log + owed;
    assert before + [CsLow] + Traffic(pixels, max, true) + [CsHigh] == before + Flush(pixels, max);
  }

  /** Pack a chunk, start it and wait for its end. */
  method SendChunk(spi: Spi, buffer: array<Octet>, chunk: seq<bv16>, header: Header)
    requires spi.Valid() && !spi.active && 2 * |chunk| <= buffer.Length
    modifies spi, buffer
    ensures spi.Valid() && !spi.active
    ensures spi.log == old(spi.log) + [Start(header, 16 * |chunk|)] + [End(Stream(chunk))]
  {
    hide Stream;
    PackPairs(spi, buffer, chunk);
    PackTail(spi, buffer, chunk);
    spi.PollingStart(header, buffer, 16 * |chunk|);
    spi.PollingEnd();
  }

  /** Upstream: pack one chunk, send it, wait for it, then pack the next. */
  method WritePixelsUpstream(spi: Spi, pixels: seq<bv16>, max: nat, buffer: array<Octet>)
    requires spi.Valid() && !spi.active && max > 0 && 2 * max <= buffer.Length
    modifies spi, buffer
    ensures !spi.active && spi.log == old(spi.log) + Flush(pixels, max)
    ensures old(spi.log) <= spi.log && WellFramed(spi.log[|old(spi.log)|..], max)
    ensures Payload(spi.log[|old(spi.log)|..]) == Stream(pixels)
  {
    hide OnTrack, Stream, Flush, WellFramed, Payload;
    ghost var before := spi.log;
    spi.ChipSelect(true);
    var pos, first := 0, true;
    OnTrackStarts(pixels, max, before);
    while pos < |pixels|
      invariant 0 <= pos <= |pixels|
      invariant spi.Valid() && !spi.active
      invariant OnTrack(spi.log, [], pixels, pos, max, first, before)
    {
      var l := ChunkLength(|pixels| - pos, max);
      var chunk := pixels[pos..pos + l];
      OnTrackSends(spi.log, [], pixels, pos, max, first, before);
      OnTrackSettles(spi.log + [] + [Start(HeaderOf(first), 16 * l)], Stream(chunk), pixels, pos + l, max, before);
      assert spi.log + [] == spi.log;
      SendChunk(spi, buffer, chunk, HeaderOf(first));
      first := false;
      pos := pos + l;
    }
    OnTrackEnds(spi.log, [], pixels, max, first, before);
    assert spi.log + [] == spi.log;
    spi.ChipSelect(false);
    FlushWellFramed(pixels, max);
    assert spi.log[|before|..] == Flush(pixels, max);
  }

  lemma OnTrackSettles(log: seq<Event>, payload: seq<Octet>, pixels: seq<bv16>, pos: nat, max: nat, before: seq<Event>)
    requires max > 0 && pos <= |pixels| && OnTrack(log, [End(payload)], pixels, pos, max, false, before)
    ensures OnTrack(log + [End(payload)], [], pixels, pos, max, false, before)
  {
    assert log + [End(payload)] + [] == log + [End(payload)];
  }

  /** Pack a chunk beside the transfer in flight; the source address decides how. */
  method PackChunk(spi: Spi, dst: array<Octet>, chunk: seq<bv16>, address: nat)
    requires spi.Valid() && (spi.active ==> spi.buffer != dst) && 2 * |chunk| <= dst.Length
    modifies dst, spi`fetched
    ensures spi.Valid() && dst[..2 * |chunk|] == Stream(chunk)
  {
    if address % 4 == 0 {
      PackWords(spi, dst, chunk);
    } else {
      PackPairs(spi, dst, chunk);
    }
    PackTail(spi, dst, chunk);
  }

  /**
   Patched: chunk N+1 is packed into the other buffer while chunk N is in
   flight, then chunk N is ended and chunk N+1 started. The source address
   decides per chunk between the word loop and the pair loop.
   */
  method WritePixelsPatched(spi: Spi, pixels: seq<bv16>, address: nat, max: nat,
                            buffer0: array<Octet>, buffer1: array<Octet>)
    requires spi.Valid() && !spi.active && max > 0 && 2 * max <= buffer0.Length && 2 * max <= buffer1.Length
    requires buffer0 != buffer1
    modifies spi, buffer0, buffer1
    ensures !spi.active && spi.log == old(spi.log) + Flush(pixels, max)
    ensures old(spi.log) <= spi.log && WellFramed(spi.log[|old(spi.log)|..], max)
    ensures Payload(spi.log[|old(spi.log)|..]) == Stream(pixels)
  {
    hide OnTrack, Stream, Flush, WellFramed, Payload;
    ghost var before := spi.log;
    spi.ChipSelect(true);
    var pos, first, slot, inFlight := 0, true, 0, false;
    OnTrackStarts(pixels, max, before);
    while pos < |pixels|
      invariant 0 <= pos <= |pixels| && (slot == 0 || slot == 1)
      invariant spi.Valid() && spi.active == inFlight
      invariant inFlight ==> spi.buffer == (if slot == 0 then buffer1 else buffer0)
      invariant OnTrack(spi.log, Owed(inFlight, spi.intended), pixels, pos, max, first, before)
    {
      var l := ChunkLength(|pixels| - pos, max);
      var chunk := pixels[pos..pos + l];
      var dst := if slot == 0 then buffer0 else buffer1;
      PackChunk(spi, dst, chunk, address + 2 * pos);
      OnTrackSends(spi.log, Owed(inFlight, spi.intended), pixels, pos, max, first, before);
      assert spi.log + [] == spi.log;
      if inFlight {
        spi.PollingEnd();
        inFlight := false;
      }
      spi.PollingStart(HeaderOf(first), dst, 16 * l);
      inFlight, first := true, false;
      pos, slot := pos + l, 1 - slot;
    }
    OnTrackEnds(spi.log, Owed(inFlight, spi.intended), pixels, max, first, before);
    assert spi.log + [] == spi.log;
    if inFlight {
      spi.PollingEnd();
    }
    spi.ChipSelect(false);
    FlushWellFramed(pixels, max);
    assert spi.log[|before|..] == Flush(pixels, max);
  }

  /** The end of the transfer in flight is still to come. */
  function Owed(inFlight: bool, intended: seq<Octet>): seq<Event> {
    if inFlight then [End(intended)] else []
  }
}
