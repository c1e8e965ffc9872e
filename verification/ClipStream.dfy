/**
 The PCM that one job submits: the clip loop of sd_audio_playback_task with
 its two chunk buffers, against the stereo expansion of the clips.
 The decode table is arbitrary; the firmware uses ITU-T G.711 mu-law.
 */
module ClipStream {
  import opened Bytes
  import opened Sequences
  import AudioProtocol

  /** A path either yields a regular, non-empty file or is skipped. */
  datatype Clip = Skipped | Present(data: seq<byte>)

  /** Each mono sample, decoded and duplicated to both channels. */
  function Stereo(table: seq<int>, data: seq<byte>): (samples: seq<int>)
    requires |table| == 256
    ensures |samples| == 2 * |data|
  {
    if data == [] then []
    else Stereo(table, data[..|data| - 1]) + [table[data[|data| - 1]], table[data[|data| - 1]]]
  }

  /** The whole announcement: every present clip, in list order. */
  function Announcement(table: seq<int>, clips: seq<Clip>): seq<int>
    requires |table| == 256
  {
    if clips == [] then []
    else Announcement(table, clips[..|clips| - 1]) + Contribution(table, clips[|clips| - 1])
  }

  function Contribution(table: seq<int>, clip: Clip): seq<int>
    requires |table| == 256
  {
    if clip.Present? then Stereo(table, clip.data) else []
  }

  lemma {:induction false} StereoConcat(table: seq<int>, a: seq<byte>, b: seq<byte>)
    requires |table| == 256
    ensures Stereo(table, a + b) == Stereo(table, a) + Stereo(table, b)
    decreases |b|
  {
    if b == [] {
      assert a + b == a;
    } else {
      var m := |b| - 1;
      StereoConcat(table, a, b[..m]);
      assert (a + b)[..|a + b| - 1] == a + b[..m] && (a + b)[|a + b| - 1] == b[m];
      Associative(Stereo(table, a), Stereo(table, b[..m]), [table[b[m]], table[b[m]]]);
    }
  }

  /** Sample k of a channel pair depends on byte k alone, so chunk borders leave no trace. */
  lemma {:induction false} StereoAt(table: seq<int>, data: seq<byte>, k: nat)
    requires |table| == 256 && k < |data|
    ensures Stereo(table, data)[2 * k] == Stereo(table, data)[2 * k + 1] == table[data[k]]
    decreases |data|
  {
    if k < |data| - 1 {
      StereoAt(table, data[..|data| - 1], k);
    }
  }

  lemma {:induction false} AnnouncementPrefix(table: seq<int>, clips: seq<Clip>, i: nat)
    requires |table| == 256 && i < |clips|
    ensures Announcement(table, clips[..i]) + Contribution(table, clips[i]) <= Announcement(table, clips)
    decreases |clips|
  {
    if i == |clips| - 1 {
    } else {
      var front := clips[..|clips| - 1];
      AnnouncementPrefix(table, front, i);
      assert front[..i] == clips[..i];
    }
  }

  /** One more clip: the announcement so far and what the clip contributes. */
  lemma AnnouncementNext(table: seq<int>, clips: seq<Clip>, i: nat)
    requires |table| == 256 && i < |clips|
    ensures Announcement(table, clips[..i + 1]) == Announcement(table, clips[..i]) + Contribution(table, clips[i])
    ensures Announcement(table, clips[..i]) <= Announcement(table, clips[..i + 1]) <= Announcement(table, clips)
  {
    assert clips[..i + 1][..i] == clips[..i];
    hide Stereo;
    AnnouncementPrefix(table, clips, i);
  }

  lemma StereoPrefix(table: seq<int>, data: seq<byte>, n: nat)
    requires |table| == 256 && n <= |data|
    ensures Stereo(table, data[..n]) <= Stereo(table, data)
  {
    hide Stereo;
    StereoConcat(table, data[..n], data[n..]);
    assert data[..n] + data[n..] == data;
  }

  /** A chunk being played is still inside the announcement. */
  lemma PartialIsPrefix(table: seq<int>, clips: seq<Clip>, i: nat, n: nat)
    requires |table| == 256 && i < |clips| && clips[i].Present? && n <= |clips[i].data|
    ensures Announcement(table, clips[..i]) + Stereo(table, clips[i].data[..n]) <= Announcement(table, clips)
  {
    AnnouncementPrefix(table, clips, i);
    StereoPrefix(table, clips[i].data, n);
  }

  /** Decode n buffered bytes into the stereo buffer, in place. */
  method DecodeChunk(table: seq<int>, mulaw: array<byte>, stereo: array<int>, n: nat)
    requires |table| == 256 && n <= mulaw.Length && 2 * n <= stereo.Length
    modifies stereo
    ensures stereo[..2 * n] == Stereo(table, mulaw[..n])
  {
    for j := 0 to n
      invariant stereo[..2 * j] == Stereo(table, mulaw[..j])
    {
      var sample := table[mulaw[j]];
      stereo[2 * j] := sample;
      stereo[2 * j + 1] := sample;
      assert mulaw[..j + 1][..j] == mulaw[..j];
      assert stereo[..2 * (j + 1)] == stereo[..2 * j] + [sample, sample];
    }
  }

  // ----------------------------------------------- what the loop asks, in order

  /** A question to the outside; a write carries the samples it submits. */
  datatype Question =
    | Cancelled
    | Metadata(clip: nat)
    | Open(clip: nat)
    | Read(bytes: nat)
    | Volume
    | Claim
    | Write(samples: seq<int>)

  /** For each chunk of at most 1024 bytes: cancellation, read, volume, the claim of the first PCM, write. */
  function ChunkScript(table: seq<int>, data: seq<byte>): seq<Question>
    requires |table| == 256
    decreases |data|
  {
    if data == [] then []
    else
      var n := Min(|data|, 1024);
      [Cancelled, Read(n), Volume, Claim, Write(Stereo(table, data[..n]))] + ChunkScript(table, data[n..])
  }

  /** For each clip: cancellation and metadata, and for one that is there, its file and its chunks. */
  function ClipScript(table: seq<int>, clips: seq<Clip>, i: nat): seq<Question>
    requires |table| == 256 && i < |clips|
  {
    [Cancelled, Metadata(i)] +
    match clips[i]
    case Skipped => []
    case Present(data) => [Open(i)] + ChunkScript(table, data)
  }

  /** Everything asked from clip i on, if every answer is good. */
  function Script(table: seq<int>, clips: seq<Clip>, i: nat): seq<Question>
    requires |table| == 256 && i <= |clips|
    decreases |clips| - i
  {
    if i == |clips| then [] else ClipScript(table, clips, i) + Script(table, clips, i + 1)
  }

  /** The samples of all writes. */
  function Samples(asked: seq<Question>): seq<int> {
    if asked == [] then []
    else Samples(asked[..|asked| - 1]) + if asked[|asked| - 1].Write? then asked[|asked| - 1].samples else []
  }

  lemma SamplesStep(asked: seq<Question>, q: Question)
    ensures Samples(asked + [q]) == Samples(asked) + if q.Write? then q.samples else []
  {
    assert (asked + [q])[..|asked|] == asked;
  }

  lemma {:induction false} SamplesConcat(a: seq<Question>, b: seq<Question>)
    ensures Samples(a + b) == Samples(a) + Samples(b)
    decreases |b|
  {
    if b == [] {
      assert a + b == a;
    } else {
      var n := |b| - 1;
      SamplesConcat(a, b[..n]);
      assert (a + b)[..|a + b| - 1] == a + b[..n] && (a + b)[|a + b| - 1] == b[n];
      Associative(Samples(a), Samples(b[..n]), if b[n].Write? then b[n].samples else []);
    }
  }

  lemma {:induction false} NoWriteNoSamples(asked: seq<Question>)
    requires forall i :: 0 <= i < |asked| ==> !asked[i].Write?
    ensures Samples(asked) == []
    decreases |asked|
  {
    if asked != [] { NoWriteNoSamples(asked[..|asked| - 1]); }
  }

  lemma SamplesOfChunk(n: nat, samples: seq<int>)
    ensures Samples([Cancelled, Read(n), Volume, Claim, Write(samples)]) == samples
  {
    var ahead := [Cancelled, Read(n), Volume, Claim];
    NoWriteNoSamples(ahead);
    SamplesStep(ahead, Write(samples));
    assert ahead + [Write(samples)] == [Cancelled, Read(n), Volume, Claim, Write(samples)];
  }

  /** The chunks of a clip carry its expansion. */
  lemma {:induction false} ChunksCarryClip(table: seq<int>, data: seq<byte>)
    requires |table| == 256
    ensures Samples(ChunkScript(table, data)) == Stereo(table, data)
    decreases |data|
  {
    if data != [] {
      var n := Min(|data|, 1024);
      var head := [Cancelled, Read(n), Volume, Claim, Write(Stereo(table, data[..n]))];
      ChunksCarryClip(table, data[n..]);
      SamplesOfChunk(n, Stereo(table, data[..n]));
      SamplesConcat(head, ChunkScript(table, data[n..]));
      StereoConcat(table, data[..n], data[n..]);
      assert data[..n] + data[n..] == data;
    }
  }

  lemma ClipCarriesContribution(table: seq<int>, clips: seq<Clip>, i: nat)
    requires |table| == 256 && i < |clips|
    ensures Samples(ClipScript(table, clips, i)) ==
            match clips[i] case Skipped => [] case Present(data) => Stereo(table, data)
  {
    var head := [Cancelled, Metadata(i)];
    assert head[..1] == [Cancelled] && Samples([Cancelled]) == [] && Samples(head) == [];
    if clips[i].Present? {
      var data := clips[i].data;
      assert Samples([Open(i)]) == [];
      ChunksCarryClip(table, data);
      SamplesConcat([Open(i)], ChunkScript(table, data));
      SamplesConcat(head, [Open(i)] + ChunkScript(table, data));
    } else {
      assert head + [] == head;
    }
  }

  /** The whole script carries the announcement: chunk borders and skipped clips leave no trace. */
  lemma {:induction false} ScriptCarriesAnnouncement(table: seq<int>, clips: seq<Clip>, i: nat)
    requires |table| == 256 && i <= |clips|
    ensures Announcement(table, clips[..i]) + Samples(Script(table, clips, i)) == Announcement(table, clips)
    decreases |clips| - i
  {
    if i == |clips| {
      assert clips[..i] == clips;
    } else {
      ScriptCarriesAnnouncement(table, clips, i + 1);
      AnnouncementNext(table, clips, i);
      ClipCarriesContribution(table, clips, i);
      SamplesConcat(ClipScript(table, clips, i), Script(table, clips, i + 1));
      Associative(Announcement(table, clips[..i]), Contribution(table, clips[i]), Samples(Script(table, clips, i + 1)));
    }
  }

  /** What was asked so far begins the script; so its samples begin the announcement. */
  lemma AskedIsPrefix(table: seq<int>, clips: seq<Clip>, asked: seq<Question>, rest: seq<Question>)
    requires |table| == 256 && asked + rest == Script(table, clips, 0)
    ensures asked <= Script(table, clips, 0) && Samples(asked) <= Announcement(table, clips)
    ensures rest == [] ==> asked == Script(table, clips, 0) && Samples(asked) == Announcement(table, clips)
  {
    ScriptCarriesAnnouncement(table, clips, 0);
    SamplesConcat(asked, rest);
    assert Announcement(table, clips[..0]) == [];
    assert asked + [] == asked;
  }

  // ---------------------------------------------------------------- the loops

  /** Every question to the outside so far was answered well. */
  ghost predicate NoFaultBefore(fault: nat -> bool, asked: nat) {
    forall q :: 0 <= q < asked ==> !fault(q)
  }

  /** Where a run stands: what it asked, and whether it stopped at the first bad answer. */
  ghost predicate Stands(asked: seq<Question>, aborted: bool, fault: nat -> bool) {
    if aborted then asked != [] && fault(|asked| - 1) && NoFaultBefore(fault, |asked| - 1)
    else NoFaultBefore(fault, |asked|)
  }

  /** Ask the next question of the script. */
  method Ask(q: Question, fault: nat -> bool, asked0: seq<Question>, ghost rest0: seq<Question>)
    returns (bad: bool, asked: seq<Question>, ghost rest: seq<Question>)
    requires Stands(asked0, false, fault) && rest0 != [] && rest0[0] == q
    ensures asked == asked0 + [q] && rest == rest0[1..] && asked + rest == asked0 + rest0
    ensures Stands(asked, bad, fault)
    ensures Samples(asked) == Samples(asked0) + if q.Write? then q.samples else []
  {
    bad, asked, rest := fault(|asked0|), asked0 + [q], rest0[1..];
    SamplesStep(asked0, q);
    assert [rest0[0]] + rest0[1..] == rest0;
  }

  /**
   The clip loop. The answers are arbitrary: fault tells which go wrong. It asks the
   questions of the script in order and stops at the first bad answer, the samples
   submitted being those of the writes asked for. So they are a prefix of the
   announcement, and all of it exactly when no answer went wrong.
   */
  method PlayClips(table: seq<int>, clips: seq<Clip>, fault: nat -> bool, mulaw: array<byte>, stereo: array<int>)
    returns (submitted: seq<int>, aborted: bool, asked: seq<Question>)
    requires |table| == 256 && mulaw.Length == AudioProtocol.CHUNK && stereo.Length == 2 * AudioProtocol.CHUNK
    modifies mulaw, stereo
    ensures submitted == Samples(asked) && Stands(asked, aborted, fault)
    ensures asked <= Script(table, clips, 0) && (!aborted ==> asked == Script(table, clips, 0))
    ensures submitted <= Announcement(table, clips)
    ensures !aborted ==> submitted == Announcement(table, clips)
  {
    hide Announcement, Stereo, Script, Samples, ChunkScript, Stands;
    submitted, aborted, asked := [], false, [];
    ghost var rest := Script(table, clips, 0);
    var i := 0;
    NothingAsked(fault);
    while i < |clips|
      invariant 0 <= i <= |clips| && !aborted
      invariant submitted == Samples(asked) && Stands(asked, aborted, fault)
      invariant asked + rest == Script(table, clips, 0) && rest == Script(table, clips, i)
    {
      submitted, aborted, asked, rest := PlayNext(table, clips, i, fault, asked, rest, submitted, mulaw, stereo);
      if aborted {
        AskedIsPrefix(table, clips, asked, rest);
        return;
      }
      i := i + 1;
    }
    ScriptEnds(table, clips);
    AskedIsPrefix(table, clips, asked, rest);
  }

  lemma NothingAsked(fault: nat -> bool)
    ensures Samples([]) == [] && Stands([], false, fault)
  {
  }

  lemma ScriptEnds(table: seq<int>, clips: seq<Clip>)
    requires |table| == 256
    ensures Script(table, clips, |clips|) == []
  {
  }

  /** One pass of the clip loop: a skipped clip adds nothing. */
  method PlayNext(table: seq<int>, clips: seq<Clip>, i: nat, fault: nat -> bool, asked0: seq<Question>,
                  ghost rest0: seq<Question>, submitted0: seq<int>, mulaw: array<byte>, stereo: array<int>)
    returns (submitted: seq<int>, aborted: bool, asked: seq<Question>, ghost rest: seq<Question>)
    requires |table| == 256 && mulaw.Length == AudioProtocol.CHUNK && stereo.Length == 2 * AudioProtocol.CHUNK
    requires i < |clips| && rest0 == Script(table, clips, i)
    requires submitted0 == Samples(asked0) && Stands(asked0, false, fault)
    modifies mulaw, stereo
    ensures submitted == Samples(asked) && Stands(asked, aborted, fault) && asked + rest == asked0 + rest0
    ensures !aborted ==> rest == Script(table, clips, i + 1)
  {
    hide Announcement, Stereo, Samples, ChunkScript, Stands;
    submitted := submitted0;
    ghost var after := Script(table, clips, i + 1);
    assert rest0 == ClipScript(table, clips, i) + after;
    aborted, asked, rest := Ask(Cancelled, fault, asked0, rest0);
    if aborted { return; }
    aborted, asked, rest := Ask(Metadata(i), fault, asked, rest);
    if aborted { return; }
    match clips[i] {
      case Skipped =>
        assert rest == after;
      case Present(data) =>
        assert rest == [Open(i)] + (ChunkScript(table, data) + after);
        aborted, asked, rest := Ask(Open(i), fault, asked, rest);
        if aborted { return; }
        submitted, aborted, asked, rest := PlayClip(table, data, fault, asked, rest, after, submitted, mulaw, stereo);
    }
  }

  /** One present clip: read, decode, check volume and submit chunk by chunk. */
  method PlayClip(table: seq<int>, data: seq<byte>, fault: nat -> bool, asked0: seq<Question>,
                  ghost rest0: seq<Question>, ghost after: seq<Question>, submitted0: seq<int>,
                  mulaw: array<byte>, stereo: array<int>)
    returns (submitted: seq<int>, aborted: bool, asked: seq<Question>, ghost rest: seq<Question>)
    requires |table| == 256 && mulaw.Length == AudioProtocol.CHUNK && stereo.Length == 2 * AudioProtocol.CHUNK
    requires rest0 == ChunkScript(table, data) + after
    requires submitted0 == Samples(asked0) && Stands(asked0, false, fault)
    modifies mulaw, stereo
    ensures submitted == Samples(asked) && Stands(asked, aborted, fault) && asked + rest == asked0 + rest0
    ensures !aborted ==> rest == after
  {
    hide Stereo, Samples, ChunkScript, Stands;
    var left := data;
    submitted, aborted, asked, rest := submitted0, false, asked0, rest0;
    while left != []
      invariant !aborted && submitted == Samples(asked) && Stands(asked, false, fault)
      invariant rest == ChunkScript(table, left) + after && asked + rest == asked0 + rest0
      decreases |left|
    {
      submitted, aborted, asked, rest, left :=
        PlayChunk(table, left, fault, asked, rest, after, submitted, mulaw, stereo);
      if aborted { return; }
    }
    NoChunks(table, after);
  }

  lemma NoChunks(table: seq<int>, after: seq<Question>)
    requires |table| == 256
    ensures ChunkScript(table, []) + after == after
  {
  }

  lemma NextChunk(table: seq<int>, left: seq<byte>, after: seq<Question>)
    requires |table| == 256 && left != []
    ensures var n := Min(|left|, 1024);
            ChunkScript(table, left) + after ==
            [Cancelled, Read(n), Volume, Claim, Write(Stereo(table, left[..n]))]
            + (ChunkScript(table, left[n..]) + after)
  {
    var n := Min(|left|, 1024);
    var head := [Cancelled, Read(n), Volume, Claim, Write(Stereo(table, left[..n]))];
    var tail := ChunkScript(table, left[n..]);
    assert ChunkScript(table, left) == head + tail;
    hide Stereo, ChunkScript;
    Associative(head, tail, after);
  }

  /** One chunk. A submitted write may have emitted PCM even if it reports an error. */
  method PlayChunk(table: seq<int>, left0: seq<byte>, fault: nat -> bool, asked0: seq<Question>,
                   ghost rest0: seq<Question>, ghost after: seq<Question>, submitted0: seq<int>,
                   mulaw: array<byte>, stereo: array<int>)
    returns (submitted: seq<int>, aborted: bool, asked: seq<Question>, ghost rest: seq<Question>, left: seq<byte>)
    requires |table| == 256 && mulaw.Length == AudioProtocol.CHUNK && stereo.Length == 2 * AudioProtocol.CHUNK
    requires left0 != [] && rest0 == ChunkScript(table, left0) + after
    requires submitted0 == Samples(asked0) && Stands(asked0, false, fault)
    modifies mulaw, stereo
    ensures submitted == Samples(asked) && Stands(asked, aborted, fault) && asked + rest == asked0 + rest0
    ensures |left| < |left0| && (!aborted ==> rest == ChunkScript(table, left) + after)
  {
    hide Stereo, Samples, ChunkScript, Stands;
    NextChunk(table, left0, after);
    var n := if |left0| < AudioProtocol.CHUNK then |left0| else AudioProtocol.CHUNK;
    submitted, left := submitted0, left0[n..];
    aborted, asked, rest := Ask(Cancelled, fault, asked0, rest0);
    if aborted { return; }
    aborted, asked, rest := Ask(Read(n), fault, asked, rest);     // a short read is an incomplete clip
    if aborted { return; }
    FillAndDecode(table, left0[..n], mulaw, stereo);
    aborted, asked, rest := Ask(Volume, fault, asked, rest);
    if aborted { return; }
    aborted, asked, rest := Ask(Claim, fault, asked, rest);
    if aborted { return; }
    var samples := stereo[..2 * n];
    submitted := submitted + samples;
    aborted, asked, rest := Ask(Write(samples), fault, asked, rest);
  }

  /** fread into the mu-law buffer, then decode it into the stereo buffer. */
  method FillAndDecode(table: seq<int>, chunk: seq<byte>, mulaw: array<byte>, stereo: array<int>)
    requires |table| == 256 && |chunk| <= mulaw.Length && 2 * |chunk| <= stereo.Length
    modifies mulaw, stereo
    ensures stereo[..2 * |chunk|] == Stereo(table, chunk)
  {
    forall j | 0 <= j < |chunk| { mulaw[j] := chunk[j]; }
    assert mulaw[..|chunk|] == chunk;
    DecodeChunk(table, mulaw, stereo, |chunk|);
  }
}
