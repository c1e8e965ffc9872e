/**
 What the worker asks of the outside during a job, and what follows for the job:
 every job's questions come in one order, each only after a good answer to the one
 before it and with a look at its receipt in between; only a cancellation, three
 failed starts or a bad answer keep a job from playing all its clips; and one that
 breaks off after it may have switched the amplifier on asks for it to be switched
 off.
 */
module AudioConversation {
  import opened Wrappers
  import opened AudioReceipt
  import opened AudioI2c
  import opened AudioProtocol
  import opened AudioInvariants
  import opened AudioTheorems

  // --------------------------------------------------- the order of questions

  /** A failed answer to one of these ends an attempt to start. */
  predicate Startup(q: Question) {
    q == AskCodec || q == AskVolume || q == AskAmp
  }

  /** A failed answer to one of these breaks a job off while it plays. */
  predicate Playback(q: Question) {
    q == AskStat || q == AskRead || q == AskChunkVolume || q == AskWrite
  }

  /**
   What the answers say of one job: the last, its failed starts, and whether the
   assets were missing, playing broke off, a clip had content, PCM was written, the
   amplifier may have been reached, and it was told to switch off.
   */
  datatype Tale = Tale(last: Option<Answer>, misses: nat, bare: bool, broke: bool, sounding: bool, wrote: bool,
                       touched: bool, switched: bool)

  const UNTOLD := Tale(None, 0, false, false, false, false, false, false)

  function Hear(t: Tale, a: Answer): Tale {
    Tale(Some(a),
         if Startup(a.question) && !a.good then t.misses + 1 else t.misses,
         t.bare || (a.question == AskAssets && !a.good),
         t.broke || (Playback(a.question) && !a.good),
         t.sounding || (a.question == AskStat && a.good && a.size > 0),
         t.wrote || a.question == AskWrite,
         t.touched || (a.question == AskAmp && a.size > 0),
         t.switched || a.question == AskDisable)
  }

  function TaleOf(answers: seq<Answer>, j: JobId): Tale {
    if answers == [] then UNTOLD
    else
      var front, a := TaleOf(answers[..|answers| - 1], j), answers[|answers| - 1];
      if a.job == j then Hear(front, a) else front
  }

  predicate Good(t: Tale, q: Question) {
    t.last.Some? && t.last.value.question == q && t.last.value.good
  }

  predicate Bad(t: Tale) {
    t.last.Some? && !t.last.value.good && t.last.value.question != AskDisable
  }

  /** The receipt was looked at, on a retry also after the delay. */
  predicate Ready(t: Tale) {
    Good(t, Poll(AtCheck(if t.misses == 0 then Top else AfterDelay)))
  }

  /** Which question may come, given what the job has been told. */
  predicate MayCome(t: Tale, a: Answer) {
    match a.question
    case Poll(AtCheck(Top)) => t.last.None? || (t.misses < 3 && Bad(t) && Startup(t.last.value.question))
    case Poll(AtCheck(AfterDelay)) => t.misses > 0 && Good(t, Poll(AtCheck(Top)))
    case AskI2s => Ready(t)
    case Poll(AtCheck(AfterI2s)) => t.last.Some? && t.last.value.question == AskI2s
    case AskCodec => Ready(t) || Good(t, Poll(AtCheck(AfterI2s)))
    case Poll(AtCheck(AfterCodec)) => Good(t, AskCodec)
    case AskVolume => Good(t, Poll(AtCheck(AfterCodec)))
    case Poll(AtCheck(BeforeAmp)) => Good(t, AskVolume)
    case AskAmp => Good(t, Poll(AtCheck(BeforeAmp)))
    case Poll(AtCheck(AfterAmp)) => Good(t, AskAmp)
    case AskAssets => Good(t, Poll(AtCheck(AfterAmp)))
    case Poll(AtClip) => Good(t, AskAssets) || ((Good(t, AskStat) || Good(t, AskWrite)) && t.last.value.size == 0)
    case AskStat => Good(t, Poll(AtClip))
    case Poll(AtChunk) => (Good(t, AskStat) || Good(t, AskWrite)) && a.size == t.last.value.size > 0
    case AskRead => Good(t, Poll(AtChunk)) && a.size == t.last.value.size
    case AskChunkVolume =>
      Good(t, AskRead) && a.size == if t.last.value.size < 1024 then 0 else t.last.value.size - 1024
    case AskClaim => Good(t, AskChunkVolume) && a.size == t.last.value.size
    case AskWrite => Good(t, AskClaim) && a.size == t.last.value.size
    case Poll(AtFailure) => Bad(t) && t.touched
    case Poll(AtAbort) => Bad(t)
    case AskDisable => t.last.Some?
  }

  /** Every answer came when it might. */
  predicate Conversation(answers: seq<Answer>) {
    answers == [] ||
    (var front, a := answers[..|answers| - 1], answers[|answers| - 1];
     Conversation(front) && MayCome(TaleOf(front, a.job), a))
  }

  lemma TaleStep(answers: seq<Answer>, a: Answer, j: JobId)
    ensures TaleOf(answers + [a], j) == if a.job == j then Hear(TaleOf(answers, j), a) else TaleOf(answers, j)
    ensures Conversation(answers) && MayCome(TaleOf(answers, a.job), a) ==> Conversation(answers + [a])
  {
    assert (answers + [a])[..|answers|] == answers;
  }

  lemma {:induction false} UnheardJob(answers: seq<Answer>, j: JobId)
    requires forall k :: 0 <= k < |answers| ==> answers[k].job != j
    ensures TaleOf(answers, j) == UNTOLD
    decreases |answers|
  {
    if answers != [] { UnheardJob(answers[..|answers| - 1], j); }
  }

  // ------------------------------------------------------------ clips opened

  /** The indices of the clips a job opened, in order. */
  function Reads(clipReads: seq<ClipRead>, j: JobId): seq<nat> {
    if clipReads == [] then []
    else
      var front, c := Reads(clipReads[..|clipReads| - 1], j), clipReads[|clipReads| - 1];
      if c.job == j then front + [c.index] else front
  }

  lemma ReadsStep(clipReads: seq<ClipRead>, c: ClipRead, j: JobId)
    ensures Reads(clipReads + [c], j) == if c.job == j then Reads(clipReads, j) + [c.index] else Reads(clipReads, j)
  {
    assert (clipReads + [c])[..|clipReads|] == clipReads;
  }

  lemma {:induction false} UnreadJob(clipReads: seq<ClipRead>, j: JobId)
    requires forall k :: 0 <= k < |clipReads| ==> clipReads[k].job != j
    ensures Reads(clipReads, j) == []
    decreases |clipReads|
  {
    if clipReads != [] { UnreadJob(clipReads[..|clipReads| - 1], j); }
  }

  /** 0, 1, .., n - 1 */
  function Upto(n: nat): (r: seq<nat>)
    ensures |r| == n && forall i :: 0 <= i < n ==> r[i] == i
  {
    seq(n, i => i)
  }

  lemma UptoStep(n: nat)
    ensures Upto(n) + [n] == Upto(n + 1)
  {
  }

  // -------------------------------------------------------- one job's standing

  datatype Standing = Standing(tale: Tale, clips: seq<nat>, pcm: bool, cancelled: bool, stopped: bool, want: nat)

  /** The job's receipt ended as cancelled. */
  predicate Stopped(log: History, j: JobId) {
    j in log.final && log.final[j] == CancelledBeforeStart
  }

  function StandingOf(log: History, j: JobId): Standing
    requires j < |log.accepted|
  {
    Standing(TaleOf(log.answers, j), Reads(log.clipReads, j), j in log.pcm, j in log.cancelled, Stopped(log, j),
             |log.accepted[j].want|)
  }

  /** Reasons for a job not to play to the end. */
  predicate Excused(x: Standing) {
    x.cancelled || x.tale.misses >= 3 || x.tale.bare || x.tale.broke
  }

  /** All clips opened, in order, and heard exactly if one of them held anything. */
  predicate Complete(x: Standing) {
    x.clips == Upto(x.want) && (x.pcm <==> x.tale.sounding)
  }

  /** A job that may have reached the amplifier and then failed, broke off or was cancelled told it to switch off. */
  predicate Parted(x: Standing) {
    x.tale.touched && (x.tale.misses >= 3 || x.tale.broke || x.stopped) ==> x.tale.switched
  }

  predicate Told(x: Standing) {
    (Excused(x) || Complete(x)) && Parted(x)
  }

  /** At any time: clips are opened in order from the first, and PCM is what was written, of a clip with content. */
  predicate Sane(x: Standing) {
    x.clips == Upto(|x.clips|) && |x.clips| <= x.want && (x.pcm <==> x.tale.wrote) && (x.pcm ==> x.tale.sounding)
  }

  predicate Unplayed(x: Standing) {
    x.clips == [] && !x.tale.bare && !x.tale.broke && !x.tale.sounding && !x.tale.wrote && !x.pcm
  }

  /** No clip yet and this many failed starts. */
  predicate Underway(x: Standing, attempt: nat) {
    Unplayed(x) && x.tale.misses == attempt < 3
  }

  predicate Untroubled(x: Standing) {
    x.tale.misses < 3 && !x.tale.bare && !x.tale.broke
  }

  predicate BetweenClips(x: Standing, i: nat) {
    Untroubled(x) && |x.clips| == i && (x.pcm <==> x.tale.sounding)
  }

  predicate InClip(x: Standing, i: nat) {
    Untroubled(x) && |x.clips| == i + 1 && x.tale.sounding
  }

  predicate SizeIs(x: Standing, n: nat) {
    x.tale.last.Some? && x.tale.last.value.size == n
  }

  /** What has been asked and done when the worker stands here. */
  predicate Telling(w: WorkerPc, x: Standing) {
    match w
    case Idle => true
    case Check(at, a, _) =>
      Underway(x, a) &&
      (match at
       case Top => if a == 0 then x.tale.last.None? else Bad(x.tale) && Startup(x.tale.last.value.question)
       case AfterDelay => a > 0 && Good(x.tale, Poll(AtCheck(Top)))
       case AfterI2s => x.tale.last.Some? && x.tale.last.value.question == AskI2s
       case AfterCodec => Good(x.tale, AskCodec)
       case BeforeAmp => Good(x.tale, AskVolume)
       case AfterAmp => Good(x.tale, AskAmp))
    case BringUpI2s(a, _) => Underway(x, a) && Ready(x.tale)
    case BringUpCodec(a, _) => Underway(x, a) && (Ready(x.tale) || Good(x.tale, Poll(AtCheck(AfterI2s))))
    case StartVolume(a, _) => Underway(x, a) && Good(x.tale, Poll(AtCheck(AfterCodec)))
    case EnableAmp(a, _) => Underway(x, a) && Good(x.tale, Poll(AtCheck(BeforeAmp)))
    case MarkWarm => Unplayed(x) && x.tale.misses < 3 && Good(x.tale, Poll(AtCheck(AfterAmp)))
    case CheckAssets => Unplayed(x) && x.tale.misses < 3 && Good(x.tale, Poll(AtCheck(AfterAmp)))
    case StartupFailed(may) => Excused(x) && Bad(x.tale) && (may ==> x.tale.touched)
    case KeepWarm => Excused(x) && x.tale.last.Some?
    case NextClip(i) =>
      && BetweenClips(x, i)
      && (Good(x.tale, AskAssets) || ((Good(x.tale, AskStat) || Good(x.tale, AskWrite)) && SizeIs(x, 0)))
    case StatClip(i) => BetweenClips(x, i) && Good(x.tale, Poll(AtClip))
    case NextChunk(i, left) =>
      && InClip(x, i) && (Good(x.tale, AskStat) || Good(x.tale, AskWrite)) && SizeIs(x, left) && (x.pcm || left > 0)
    case ReadChunk(i, left) => InClip(x, i) && Good(x.tale, Poll(AtChunk)) && SizeIs(x, left) && left > 0
    case ChunkVolume(i, left) =>
      && InClip(x, i) && Good(x.tale, AskRead)
      && left == if x.tale.last.value.size < 1024 then 0 else x.tale.last.value.size - 1024
    case ClaimPcm(i, left) => InClip(x, i) && Good(x.tale, AskChunkVolume) && SizeIs(x, left)
    case Detach(i, left) => InClip(x, i) && Good(x.tale, AskClaim) && SizeIs(x, left)
    case Submit(i, left) => InClip(x, i) && Good(x.tale, AskClaim) && SizeIs(x, left)
    case Aborted(_) => Excused(x) && Bad(x.tale)
    case _ => (Excused(x) || Complete(x)) && x.tale.last.Some?
  }

  /** What is known of the amplifier there: the flag the attempts carry, then amp_is_warm, then that it was told off. */
  predicate Minding(w: WorkerPc, x: Standing, warm: bool) {
    match w
    case Idle => true
    case Check(_, _, may) => x.tale.touched <==> may
    case BringUpI2s(_, may) => x.tale.touched <==> may
    case BringUpCodec(_, may) => x.tale.touched <==> may
    case StartVolume(_, may) => x.tale.touched <==> may
    case EnableAmp(_, may) => x.tale.touched <==> may
    case StartupFailed(may) => x.tale.touched <==> may
    case MarkWarm => true
    case KeepWarm => x.cancelled
    case Disable(_) => true
    case Disabled(_, _) => x.tale.switched
    case TakeSlot(_) => Leaving(x, warm)
    case Settle(_, _) => Leaving(x, warm)
    case CancelCleanup(_) => x.tale.touched ==> warm || x.tale.switched
    case StoreCancelled(_) => x.tale.touched ==> x.tale.switched
    case ClearHandle => Parted(x)
    case ReleaseClaim => Parted(x)
    case _ => warm
  }

  predicate Leaving(x: Standing, warm: bool) {
    && (x.tale.touched ==> warm || x.tale.switched)
    && (x.tale.touched && (x.tale.misses >= 3 || x.tale.broke) ==> x.tale.switched || x.cancelled)
  }

  // ------------------------------------------------------------- worker steps

  /** The standing after a worker step of the job. */
  function NextStanding(x: Standing, e: Effect, a: Option<Answer>): Standing {
    x.(tale := if a.Some? then Hear(x.tale, a.value) else x.tale,
       clips := if e.OpenClip? then x.clips + [e.index] else x.clips,
       pcm := x.pcm || e.SubmitPcm?,
       stopped := x.stopped || (e.StoreReceipt? && e.value == CancelledBeforeStart))
  }

  /** The story goes on from before the step to after it. */
  predicate GoesOn(x: Standing, m: Move, a: Option<Answer>) {
    var x' := NextStanding(x, m.effect, a);
    Telling(m.pc, x') && Sane(x') && (a.Some? ==> MayCome(x.tale, a.value))
  }

  predicate MindsOn(x: Standing, m: Move, a: Option<Answer>, warm: bool) {
    Minding(m.pc, NextStanding(x, m.effect, a), if m.effect.SetWarm? then m.effect.hot else warm)
  }

  predicate Polls(w: WorkerPc) {
    w.Check? || w.StartupFailed? || w.NextClip? || w.NextChunk? || w.Aborted? || w.ClaimPcm?
  }

  /** What a receipt shows of a cancellation is what was granted. */
  predicate CancelKnown(s: State, x: Standing) {
    && (s.slot.Some? && Polls(s.worker) ==>
          && (Peek(s, s.slot.value) == CancelRequested ==> x.cancelled)
          && (s.worker.ClaimPcm? ==> Owned(Peek(s, s.slot.value))))
    && (s.worker.Settle? && x.cancelled ==>
          s.worker.taken.Some? && Peek(s, s.worker.taken.value) == CancelRequested)
    && (s.worker.Settle? ==> !x.stopped)
  }

  lemma CheckTells(s: State, o: Oracle, x: Standing)
    requires s.worker.Check?
    requires Telling(s.worker, x) && Sane(x) && CancelKnown(s, x) && Minding(s.worker, x, s.warm)
    ensures GoesOn(x, PrepareMove(s, o), Asked(s, o))
  {
  }

  lemma FailureTells(s: State, o: Oracle, x: Standing)
    requires s.worker.StartupFailed?
    requires Telling(s.worker, x) && Sane(x) && CancelKnown(s, x) && Minding(s.worker, x, s.warm)
    ensures GoesOn(x, PrepareMove(s, o), Asked(s, o))
  {
  }

  lemma WarmTells(s: State, o: Oracle, x: Standing)
    requires s.worker.KeepWarm? || s.worker.MarkWarm?
    requires Telling(s.worker, x) && Sane(x) && CancelKnown(s, x) && Minding(s.worker, x, s.warm)
    ensures GoesOn(x, PrepareMove(s, o), Asked(s, o))
  {
  }

  lemma I2sTells(s: State, o: Oracle, x: Standing)
    requires s.worker.BringUpI2s?
    requires Telling(s.worker, x) && Sane(x) && CancelKnown(s, x) && Minding(s.worker, x, s.warm)
    ensures GoesOn(x, PrepareMove(s, o), Asked(s, o))
  {
  }

  lemma CodecTells(s: State, o: Oracle, x: Standing)
    requires s.worker.BringUpCodec?
    requires Telling(s.worker, x) && Sane(x) && CancelKnown(s, x) && Minding(s.worker, x, s.warm)
    ensures GoesOn(x, PrepareMove(s, o), Asked(s, o))
  {
  }

  lemma VolumeTells(s: State, o: Oracle, x: Standing)
    requires s.worker.StartVolume?
    requires Telling(s.worker, x) && Sane(x) && CancelKnown(s, x) && Minding(s.worker, x, s.warm)
    ensures GoesOn(x, PrepareMove(s, o), Asked(s, o))
  {
  }

  lemma EnableTells(s: State, o: Oracle, x: Standing)
    requires s.worker.EnableAmp?
    requires Telling(s.worker, x) && Sane(x) && CancelKnown(s, x) && Minding(s.worker, x, s.warm)
    ensures GoesOn(x, PrepareMove(s, o), Asked(s, o))
  {
  }

  lemma AssetsTells(s: State, o: Oracle, x: Standing)
    requires s.worker.CheckAssets?
    requires Telling(s.worker, x) && Sane(x) && CancelKnown(s, x)
    ensures GoesOn(x, PlayMove(s, o), Asked(s, o))
  {
  }

  lemma ClipTells(s: State, o: Oracle, x: Standing)
    requires s.worker.NextClip?
    requires Telling(s.worker, x) && Sane(x) && CancelKnown(s, x) && x.want == s.count
    ensures GoesOn(x, PlayMove(s, o), Asked(s, o))
  {
    if s.worker.clip < s.count { MoreClipsTell(s, o, x); }
  }

  lemma MoreClipsTell(s: State, o: Oracle, x: Standing)
    requires s.worker.NextClip? && s.worker.clip < s.count
    requires Telling(s.worker, x) && Sane(x) && CancelKnown(s, x)
    ensures GoesOn(x, PlayMove(s, o), Asked(s, o))
  {
  }

  lemma ChunkTells(s: State, o: Oracle, x: Standing)
    requires s.worker.NextChunk?
    requires Telling(s.worker, x) && Sane(x) && CancelKnown(s, x)
    ensures GoesOn(x, PlayMove(s, o), Asked(s, o))
  {
  }

  lemma ReadTells(s: State, o: Oracle, x: Standing)
    requires s.worker.ReadChunk?
    requires Telling(s.worker, x) && Sane(x) && CancelKnown(s, x)
    ensures GoesOn(x, PlayMove(s, o), Asked(s, o))
  {
  }

  lemma ChunkVolumeTells(s: State, o: Oracle, x: Standing)
    requires s.worker.ChunkVolume?
    requires Telling(s.worker, x) && Sane(x) && CancelKnown(s, x)
    ensures GoesOn(x, PlayMove(s, o), Asked(s, o))
  {
  }

  lemma ClaimTells(s: State, o: Oracle, x: Standing)
    requires s.worker.ClaimPcm?
    requires Telling(s.worker, x) && Sane(x) && CancelKnown(s, x)
    ensures GoesOn(x, PlayMove(s, o), Asked(s, o))
  {
  }

  lemma SubmitTells(s: State, o: Oracle, x: Standing)
    requires s.worker.Detach? || s.worker.Submit?
    requires Telling(s.worker, x) && Sane(x) && CancelKnown(s, x)
    ensures GoesOn(x, PlayMove(s, o), Asked(s, o))
  {
  }

  lemma AbortTells(s: State, o: Oracle, x: Standing)
    requires s.worker.Aborted?
    requires Telling(s.worker, x) && Sane(x) && CancelKnown(s, x)
    ensures GoesOn(x, PlayMove(s, o), Asked(s, o))
  {
  }

  lemma StatTells(s: State, o: Oracle, x: Standing)
    requires s.worker.StatClip? && s.worker.clip < s.count == x.want && Telling(s.worker, x) && Sane(x)
    ensures GoesOn(x, PlayMove(s, o), Asked(s, o))
  {
    UptoStep(s.worker.clip);
  }

  lemma SwitchTells(s: State, o: Oracle, x: Standing)
    requires s.worker.Disable? || s.worker.Disabled?
    requires Telling(s.worker, x) && Sane(x) && CancelKnown(s, x)
    ensures GoesOn(x, FinishMove(s, o), Asked(s, o))
  {
  }

  lemma SettleTells(s: State, o: Oracle, x: Standing)
    requires s.worker.TakeSlot? || s.worker.Settle? || s.worker.CancelCleanup?
    requires Telling(s.worker, x) && Sane(x) && CancelKnown(s, x)
    ensures GoesOn(x, FinishMove(s, o), Asked(s, o))
  {
  }

  lemma CloseTells(s: State, o: Oracle, x: Standing)
    requires s.worker.StoreCancelled? || s.worker.ClearHandle? || s.worker.ReleaseClaim?
    requires Telling(s.worker, x) && Sane(x) && CancelKnown(s, x)
    ensures GoesOn(x, FinishMove(s, o), Asked(s, o))
  {
  }

  // and what it knows of the amplifier

  lemma CheckMinds(s: State, o: Oracle, x: Standing)
    requires s.worker.Check? || s.worker.StartupFailed?
    requires Telling(s.worker, x) && Minding(s.worker, x, s.warm) && CancelKnown(s, x)
    ensures MindsOn(x, PrepareMove(s, o), Asked(s, o), s.warm)
  {
  }

  lemma StartMinds(s: State, o: Oracle, x: Standing)
    requires Preparing(s.worker) && !s.worker.Check? && !s.worker.StartupFailed?
    requires Telling(s.worker, x) && Minding(s.worker, x, s.warm) && CancelKnown(s, x)
    ensures MindsOn(x, PrepareMove(s, o), Asked(s, o), s.warm)
  {
  }

  lemma ClipMinds(s: State, o: Oracle, x: Standing)
    requires s.worker.CheckAssets? || s.worker.NextClip? || s.worker.StatClip? || s.worker.NextChunk? ||
             s.worker.ReadChunk?
    requires Telling(s.worker, x) && Minding(s.worker, x, s.warm) && CancelKnown(s, x)
    ensures MindsOn(x, PlayMove(s, o), Asked(s, o), s.warm)
  {
  }

  lemma WriteMinds(s: State, o: Oracle, x: Standing)
    requires s.worker.ChunkVolume? || s.worker.ClaimPcm? || s.worker.Detach? || s.worker.Submit? || s.worker.Aborted?
    requires Telling(s.worker, x) && Minding(s.worker, x, s.warm) && CancelKnown(s, x)
    ensures MindsOn(x, PlayMove(s, o), Asked(s, o), s.warm)
  {
  }

  lemma FinishMinds(s: State, o: Oracle, x: Standing)
    requires s.worker != Idle && !Preparing(s.worker) && !Playing(s.worker)
    requires Telling(s.worker, x) && Minding(s.worker, x, s.warm) && CancelKnown(s, x)
    ensures MindsOn(x, FinishMove(s, o), Asked(s, o), s.warm)
  {
  }

  lemma WorkerMinds(s: State, o: Oracle, x: Standing)
    requires s.worker != Idle && Telling(s.worker, x) && Minding(s.worker, x, s.warm) && CancelKnown(s, x)
    ensures MindsOn(x, WorkerMove(s, o), Asked(s, o), s.warm)
  {
    hide Telling, Minding, CancelKnown, MindsOn, PrepareMove, PlayMove, FinishMove, Asked;
    if Preparing(s.worker) {
      if s.worker.Check? || s.worker.StartupFailed? { CheckMinds(s, o, x); } else { StartMinds(s, o, x); }
    } else if Playing(s.worker) {
      if s.worker.ChunkVolume? || s.worker.ClaimPcm? || s.worker.Detach? || s.worker.Submit? || s.worker.Aborted? {
        WriteMinds(s, o, x);
      } else {
        ClipMinds(s, o, x);
      }
    } else {
      FinishMinds(s, o, x);
    }
  }

  lemma PrepareTells(s: State, o: Oracle, x: Standing)
    requires Preparing(s.worker) && Telling(s.worker, x) && Sane(x) && CancelKnown(s, x) && Minding(s.worker, x, s.warm)
    ensures GoesOn(x, PrepareMove(s, o), Asked(s, o))
  {
    hide Telling, Minding, Sane, CancelKnown, GoesOn, PrepareMove, Asked;
    if s.worker.Check? { CheckTells(s, o, x); }
    else if s.worker.BringUpI2s? { I2sTells(s, o, x); }
    else if s.worker.BringUpCodec? { CodecTells(s, o, x); }
    else if s.worker.StartVolume? { VolumeTells(s, o, x); }
    else if s.worker.EnableAmp? { EnableTells(s, o, x); }
    else if s.worker.StartupFailed? { FailureTells(s, o, x); }
    else { WarmTells(s, o, x); }
  }

  lemma PlayTells(s: State, o: Oracle, x: Standing)
    requires Playing(s.worker) && Telling(s.worker, x) && Sane(x) && CancelKnown(s, x) && x.want == s.count
    requires s.worker.StatClip? ==> s.worker.clip < s.count
    ensures GoesOn(x, PlayMove(s, o), Asked(s, o))
  {
    hide Telling, Minding, Sane, CancelKnown, GoesOn, PlayMove, Asked;
    if s.worker.CheckAssets? { AssetsTells(s, o, x); }
    else if s.worker.NextClip? { ClipTells(s, o, x); }
    else if s.worker.StatClip? { StatTells(s, o, x); }
    else if s.worker.NextChunk? { ChunkTells(s, o, x); }
    else if s.worker.ReadChunk? { ReadTells(s, o, x); }
    else if s.worker.ChunkVolume? { ChunkVolumeTells(s, o, x); }
    else if s.worker.ClaimPcm? { ClaimTells(s, o, x); }
    else if s.worker.Aborted? { AbortTells(s, o, x); }
    else { SubmitTells(s, o, x); }
  }

  lemma FinishTells(s: State, o: Oracle, x: Standing)
    requires InJob(s) && !Preparing(s.worker) && !Playing(s.worker)
    requires Telling(s.worker, x) && Sane(x) && CancelKnown(s, x)
    ensures GoesOn(x, FinishMove(s, o), Asked(s, o))
  {
    hide Telling, Minding, Sane, CancelKnown, GoesOn, FinishMove, Asked;
    if s.worker.Disable? || s.worker.Disabled? { SwitchTells(s, o, x); }
    else if s.worker.TakeSlot? || s.worker.Settle? || s.worker.CancelCleanup? { SettleTells(s, o, x); }
    else { CloseTells(s, o, x); }
  }

  lemma WorkerTells(s: State, o: Oracle, x: Standing)
    requires InJob(s) && Telling(s.worker, x) && Sane(x) && CancelKnown(s, x) && x.want == s.count
    requires Minding(s.worker, x, s.warm) && (s.worker.StatClip? ==> s.worker.clip < s.count)
    ensures GoesOn(x, WorkerMove(s, o), Asked(s, o))
  {
    hide Telling, Minding, Sane, CancelKnown, GoesOn, PrepareMove, PlayMove, FinishMove, Asked;
    if Preparing(s.worker) { PrepareTells(s, o, x); }
    else if Playing(s.worker) { PlayTells(s, o, x); }
    else { FinishTells(s, o, x); }
  }

  // ------------------------------------------------------------- the invariant

  predicate Numbered(s: State) {
    |s.log.done| <= |s.log.runs| <= |s.log.accepted| && (InJob(s) ==> s.job < |s.log.runs|)
  }

  /** The answers are a conversation of jobs that were run, */
  predicate Kept(answers: seq<Answer>, clipReads: seq<ClipRead>, runs: nat) {
    && Conversation(answers)
    && (forall k :: 0 <= k < |answers| ==> answers[k].job < runs)
    && (forall k :: 0 <= k < |clipReads| ==> clipReads[k].job < runs)
  }

  /** every job's standing is sane and the finished ones are told, */
  predicate AllTold(log: History)
    requires |log.done| <= |log.runs| <= |log.accepted|
  {
    && (forall j :: 0 <= j < |log.runs| ==> Sane(StandingOf(log, j)))
    && (forall j :: 0 <= j < |log.done| ==> Told(StandingOf(log, j)))
  }

  /** and the worker stands where its job has got to. */
  predicate InvTalk(s: State)
    requires Numbered(s)
  {
    && Kept(s.log.answers, s.log.clipReads, |s.log.runs|) && AllTold(s.log)
    && (InJob(s) ==> Tells(s.worker, StandingOf(s.log, s.job), s.warm))
  }

  predicate Tells(w: WorkerPc, x: Standing, warm: bool) {
    Telling(w, x) && Minding(w, x, warm)
  }

  lemma SafeNumbered(s: State)
    requires Safe(s)
    ensures Numbered(s) && (InJob(s) ==> s.job == |s.log.done| == |s.log.runs| - 1)
    ensures !InJob(s) ==> |s.log.done| == |s.log.runs|
    ensures InJob(s) ==> s.count == |s.log.accepted[s.job].want|
    ensures s.worker.StatClip? ==> s.worker.clip < s.count
  {
    hide TableOk, OutcomeOk, AccessesOk, SettlesLogged, FinalOk, ClipReadsOk;
  }

  /** A receipt that shows a cancellation belongs to a job that was granted it. */
  lemma CancelIsKnown(s: State)
    requires Safe(s) && InJob(s) && Numbered(s)
    ensures CancelKnown(s, StandingOf(s.log, s.job))
  {
    hide AccessesOk, SettlesLogged, FinalOk, ParamsOk, ClipReadsOk, TaleOf, Reads;
  }

  // --------------------------------------------------- steps of the worker

  /** How the history grows by a step of job j with this effect and answer. */
  ghost predicate Grown(log: History, log': History, j: JobId, e: Effect, a: Option<Answer>) {
    && log'.accepted == log.accepted && log'.cancelled == log.cancelled && log'.runs == log.runs
    && log'.answers == log.answers + (if a.Some? then [a.value] else [])
    && (a.Some? ==> a.value.job == j)
    && log'.pcm == log.pcm + (if e.SubmitPcm? then {j} else {})
    && log'.done == log.done + (if e.ReleasePlaying? then [j] else [])
    && (forall k :: Stopped(log', k) <==>
          Stopped(log, k) || (k == j && e.StoreReceipt? && e.value == CancelledBeforeStart))
    && (if e.OpenClip? then
          exists path :: log'.clipReads == log.clipReads + [ClipRead(j, e.index, path)]
        else log'.clipReads == log.clipReads)
  }

  lemma StandingGrows(log: History, log': History, j: JobId, e: Effect, a: Option<Answer>, k: JobId)
    requires Grown(log, log', j, e, a) && k < |log.accepted|
    ensures StandingOf(log', k) == if k == j then NextStanding(StandingOf(log, k), e, a) else StandingOf(log, k)
  {
    hide TaleOf, Reads, Hear;
    if a.Some? { TaleStep(log.answers, a.value, k); } else { assert log'.answers == log.answers; }
    if e.OpenClip? {
      var path :| log'.clipReads == log.clipReads + [ClipRead(j, e.index, path)];
      ReadsStep(log.clipReads, ClipRead(j, e.index, path), k);
    }
  }

  lemma KeptGrows(log: History, log': History, j: JobId, e: Effect, a: Option<Answer>)
    requires Grown(log, log', j, e, a) && Kept(log.answers, log.clipReads, |log.runs|) && j < |log.runs|
    requires a.Some? ==> MayCome(TaleOf(log.answers, j), a.value)
    ensures Kept(log'.answers, log'.clipReads, |log'.runs|)
  {
    hide TaleOf, MayCome, Conversation;
    if a.Some? { TaleStep(log.answers, a.value, j); } else { assert log'.answers == log.answers; }
  }

  lemma ToldGrows(log: History, log': History, j: JobId, e: Effect, a: Option<Answer>)
    requires Grown(log, log', j, e, a) && j == |log.done| < |log.runs| <= |log.accepted| && AllTold(log)
    requires Sane(NextStanding(StandingOf(log, j), e, a))
    requires e.ReleasePlaying? ==> Told(NextStanding(StandingOf(log, j), e, a))
    ensures AllTold(log') && StandingOf(log', j) == NextStanding(StandingOf(log, j), e, a)
  {
    forall k | 0 <= k < |log.runs|
      ensures StandingOf(log', k) == if k == j then NextStanding(StandingOf(log, k), e, a) else StandingOf(log, k)
    {
      StandingGrows(log, log', j, e, a, k);
    }
    hide StandingOf, NextStanding, Sane, Told;
  }

  lemma LogGrows(s: State, o: Oracle)
    requires Safe(s) && Enabled(s, WorkerStep(o)) && InJob(s)
    ensures Grown(s.log, Next(s, WorkerStep(o)).log, s.job, WorkerMove(s, o).effect, Asked(s, o))
  {
    ReceiptInHand(s, o);
    hide Safe;
    LogAfterStep(s, o);
    NotTakeJob(s, o);
    AskedOfJob(s, o);
    HeardAnswers(s, o);
    hide WorkerMove, Asked, Next, Enabled, HistoryAfter;
    EffectGrows(s, WorkerMove(s, o).effect);
    HeardGrows(s.log, HistoryAfter(s, WorkerMove(s, o).effect), Next(s, WorkerStep(o)).log, s.job,
               WorkerMove(s, o).effect, Asked(s, o));
  }

  lemma HeardGrows(log: History, mid: History, log': History, j: JobId, e: Effect, a: Option<Answer>)
    requires Grown(log, mid, j, e, None) && log' == mid.(answers := log'.answers)
    requires log'.answers == log.answers + (if a.Some? then [a.value] else []) && (a.Some? ==> a.value.job == j)
    ensures Grown(log, log', j, e, a)
  {
    forall k ensures Stopped(log', k) <==> Stopped(mid, k) {}
  }

  /** A receipt that the worker is about to touch is owned and its job not settled. */
  lemma ReceiptInHand(s: State, o: Oracle)
    requires Safe(s) && Enabled(s, WorkerStep(o)) && InJob(s)
    ensures var e := WorkerMove(s, o).effect;
            && (ReceiptEffect(e) ==> e.r in s.receipts && Owned(s.receipts[e.r]) && s.job !in s.log.final)
            && (e.SwapReceipt? ==> e.desired != CancelledBeforeStart)
            && (e.StoreReceipt? ==> e.value == CancelledBeforeStart)
  {
    HeldIsOwned(s);
    if Held(s).Some? { HeldIsUnsettled(s); }
    EffectValues(s, o);
    hide Safe;
    if ReceiptEffect(WorkerMove(s, o).effect) {
      TouchesOnlyHeld(s, o);
    }
    hide WorkerMove, Held;
  }

  lemma HeldIsUnsettled(s: State)
    requires Safe(s) && InJob(s) && Held(s).Some?
    ensures s.job !in s.log.final
  {
    hide TableOk, OutcomeOk, AccessesOk, SettlesLogged, FinalOk, ParamsOk, ClipReadsOk;
  }

  lemma EffectGrows(s: State, e: Effect)
    requires !e.TakeJob?
    requires ReceiptEffect(e) ==> e.r in s.receipts && Owned(s.receipts[e.r]) && s.job !in s.log.final
    requires e.SwapReceipt? ==> e.desired != CancelledBeforeStart
    requires e.StoreReceipt? ==> e.value == CancelledBeforeStart
    ensures Grown(s.log, HistoryAfter(s, e), s.job, e, None)
  {
    if e.OpenClip? {
      var path := if e.index < |s.paths| then s.paths[e.index] else "";
      assert HistoryAfter(s, e).clipReads == s.log.clipReads + [ClipRead(s.job, e.index, path)];
    }
  }

  lemma HeardAnswers(s: State, o: Oracle)
    requires Enabled(s, WorkerStep(o))
    ensures var a := Asked(s, o);
            Next(s, WorkerStep(o)).log.answers == s.log.answers + (if a.Some? then [a.value] else [])
  {
    AnswersKept(s, WorkerMove(s, o).effect);
    hide WorkerMove, Asked, HistoryAfter;
  }

  lemma NotTakeJob(s: State, o: Oracle)
    requires InJob(s)
    ensures !WorkerMove(s, o).effect.TakeJob?
    ensures WorkerMove(s, o).effect.ReleasePlaying? <==> s.worker.ReleaseClaim?
    ensures WorkerMove(s, o).pc == Idle <==> s.worker.ReleaseClaim?
  {
  }

  lemma EffectValues(s: State, o: Oracle)
    requires InJob(s) && ResultsOk(s.worker)
    ensures var e := WorkerMove(s, o).effect;
            && (e.SwapReceipt? ==> e.desired != CancelledBeforeStart)
            && (e.StoreReceipt? ==> e.value == CancelledBeforeStart)
  {
  }

  lemma AskedOfJob(s: State, o: Oracle)
    ensures Asked(s, o).Some? ==> Asked(s, o).value.job == s.job
  {
  }

  /** Where the worker is after its step, and what was told of its job if it released the claim. */
  lemma JobStays(s: State, o: Oracle)
    requires Enabled(s, WorkerStep(o)) && InJob(s)
    ensures var t := Next(s, WorkerStep(o)); t.worker == WorkerMove(s, o).pc && t.job == s.job
  {
    NotTakeJob(s, o);
    hide WorkerMove, Asked, HistoryAfter;
  }

  lemma ReleasedIsTold(s: State, o: Oracle, x: Standing)
    requires s.worker.ReleaseClaim? && Tells(s.worker, x, s.warm)
    ensures Told(NextStanding(x, WorkerMove(s, o).effect, Asked(s, o)))
  {
  }

  lemma WarmAfter(s: State, o: Oracle)
    requires Enabled(s, WorkerStep(o))
    ensures var e := WorkerMove(s, o).effect;
            Next(s, WorkerStep(o)).warm == if e.SetWarm? then e.hot else s.warm
  {
    hide WorkerMove, Asked, HistoryAfter;
  }

  lemma WorkerTalks(s: State, o: Oracle)
    requires Safe(s) && InJob(s) && Numbered(s) && InvTalk(s) && Enabled(s, WorkerStep(o))
    requires Numbered(Next(s, WorkerStep(o)))
    ensures InvTalk(Next(s, WorkerStep(o)))
  {
    SafeNumbered(s);
    CancelIsKnown(s);
    hide Safe, WorkerMove, Asked, Next, Enabled, Telling, Minding, Sane, Told, CancelKnown, NextStanding, TaleOf, Reads,
         Kept, AllTold, Grown;
    var t, x := Next(s, WorkerStep(o)), StandingOf(s.log, s.job);
    var e, a := WorkerMove(s, o).effect, Asked(s, o);
    WorkerTells(s, o, x);
    WorkerMinds(s, o, x);
    WarmAfter(s, o);
    LogGrows(s, o);
    NotTakeJob(s, o);
    JobStays(s, o);
    if s.worker.ReleaseClaim? { ReleasedIsTold(s, o, x); }
    KeptGrows(s.log, t.log, s.job, e, a);
    ToldGrows(s.log, t.log, s.job, e, a);
  }

  // ------------------------------------------------------------ all the others

  /** A new job starts with nothing told. */
  lemma NewJobTold(log: History, log': History)
    requires |log.done| <= |log.runs| < |log.accepted| && Kept(log.answers, log.clipReads, |log.runs|) && AllTold(log)
    requires log' == log.(runs := log'.runs) && |log'.runs| == |log.runs| + 1 && |log.runs| !in log.pcm
    ensures Kept(log'.answers, log'.clipReads, |log'.runs|) && AllTold(log')
    ensures forall warm :: Tells(Check(Top, 0, false), StandingOf(log', |log.runs|), warm)
  {
    var j := |log.runs|;
    UnheardJob(log.answers, j);
    UnreadJob(log.clipReads, j);
    hide TaleOf, Reads, Conversation;
    forall k | 0 <= k < j ensures StandingOf(log', k) == StandingOf(log, k) {}
    assert Sane(StandingOf(log', j));
    hide Sane, Told;
  }

  lemma TakeJobTalks(s: State, o: Oracle)
    requires Safe(s) && s.worker == Idle && Numbered(s) && InvTalk(s) && Enabled(s, WorkerStep(o))
    requires Numbered(Next(s, WorkerStep(o)))
    ensures InvTalk(Next(s, WorkerStep(o)))
  {
    TakeJobParts(s, o);
    NeverPlayed(s, |s.log.runs|);
    hide Safe, Next, Enabled, Kept, AllTold, Tells, StandingOf;
    NewJobTold(s.log, Next(s, WorkerStep(o)).log);
  }

  lemma NeverPlayed(s: State, j: JobId)
    requires Safe(s) && j >= |s.log.runs|
    ensures j !in s.log.pcm
  {
    hide TableOk, AccessesOk, SettlesLogged, FinalOk, ParamsOk, ClipReadsOk;
  }

  lemma TakeJobParts(s: State, o: Oracle)
    requires Safe(s) && s.worker == Idle && Enabled(s, WorkerStep(o))
    ensures var t := Next(s, WorkerStep(o));
            && t.worker == Check(Top, 0, false) && t.job == |s.log.runs| && |t.log.runs| == |s.log.runs| + 1
            && t.log == s.log.(runs := t.log.runs)
  {
    hide TableOk, OutcomeOk, AccessesOk, SettlesLogged, FinalOk, ParamsOk, ClipReadsOk;
  }

  /** Nobody else touches what a job's standing is made of, but for granting its cancellation. */
  predicate LeavesJob(s: State, t: State) {
    && t.worker == s.worker && t.job == s.job
    && t.log == s.log.(accepted := t.log.accepted, cancelled := t.log.cancelled)
    && s.log.accepted <= t.log.accepted && s.log.cancelled <= t.log.cancelled
    && (InJob(s) ==> t.warm == s.warm)
  }

  lemma OthersParts(s: State, a: Action)
    requires Safe(s) && Enabled(s, a) && !a.WorkerStep?
    ensures LeavesJob(s, Next(s, a))
  {
    match a {
      case MainStep(o) => MainParts(s, o);
      case Cancel(r) =>
        CancelKeepsJob(s, r);
        hide CancelStep;
      case _ =>
    }
  }

  lemma MainParts(s: State, o: Oracle)
    requires Safe(s) && Enabled(s, MainStep(o))
    ensures LeavesJob(s, Next(s, MainStep(o)))
  {
    assert InvClaim(s);
    hide Safe, AmpOutcome, StartStep;
    if s.main.Starting? {
      StartKeepsJob(s, o);
      hide InvClaim;
    } else {
      ServiceParts(s, o);
      hide MainNext;
    }
  }

  lemma ServiceParts(s: State, o: Oracle)
    requires InvClaim(s) && !s.main.Starting?
    ensures var t := MainNext(s, o);
            t.worker == s.worker && t.job == s.job && t.log == s.log && (InJob(s) ==> t.warm == s.warm)
  {
  }

  lemma StartKeepsJob(s: State, o: Oracle)
    requires s.main.Starting?
    ensures var t := StartStep(s, o);
            && t.worker == s.worker && t.job == s.job
            && t.log == s.log.(accepted := t.log.accepted) && s.log.accepted <= t.log.accepted && t.warm == s.warm
  {
    if Filling(s.main.stage) { FillLeavesAmp(s, o); } else { HandOverLeavesAmp(s); }
    hide FillSlot, HandOver;
    if Filling(s.main.stage) { FillKeepsJob(s, o); } else { HandOverKeepsJob(s); }
  }

  lemma FillKeepsJob(s: State, o: Oracle)
    requires s.main.Starting? && Filling(s.main.stage)
    ensures var t := FillSlot(s, o); t.worker == s.worker && t.job == s.job && t.log == s.log
  {
    match s.main.stage
    case SetCount =>
    case Copy(_) =>
    case Spawn =>
  }

  lemma HandOverKeepsJob(s: State)
    requires s.main.Starting? && !Filling(s.main.stage)
    ensures HandOver(s).worker == s.worker && HandOver(s).job == s.job
    ensures HandOver(s).log == s.log.(accepted := HandOver(s).log.accepted)
    ensures s.log.accepted <= HandOver(s).log.accepted
  {
    if s.main.stage.Arm? { ArmProgress(s); }
  }

  lemma CancelKeepsJob(s: State, r: ReceiptId)
    requires r in s.receipts
    ensures var t := CancelStep(s, r);
            && t.worker == s.worker && t.job == s.job
            && t.log == s.log.(cancelled := t.log.cancelled) && s.log.cancelled <= t.log.cancelled && t.warm == s.warm
  {
  }

  /** A cancellation more contradicts nothing told. */
  lemma CancelledTold(x: Standing, x': Standing)
    requires x' == x.(cancelled := x'.cancelled) && (x.cancelled ==> x'.cancelled)
    ensures Sane(x) ==> Sane(x')
    ensures Told(x) ==> Told(x')
  {
  }

  lemma CancelledTelling(w: WorkerPc, x: Standing, x': Standing)
    requires x' == x.(cancelled := x'.cancelled) && (x.cancelled ==> x'.cancelled) && Telling(w, x)
    ensures Telling(w, x')
  {
  }

  lemma CancelledMinding(w: WorkerPc, x: Standing, x': Standing, warm: bool)
    requires x' == x.(cancelled := x'.cancelled) && (x.cancelled ==> x'.cancelled) && Minding(w, x, warm)
    ensures Minding(w, x', warm)
  {
  }

  /** Nor does another job accepted. */
  lemma OthersTold(log: History, log': History, w: WorkerPc, j: JobId, warm: bool)
    requires |log.done| <= |log.runs| <= |log.accepted| && AllTold(log)
    requires log' == log.(accepted := log'.accepted, cancelled := log'.cancelled)
    requires log.accepted <= log'.accepted && log.cancelled <= log'.cancelled
    ensures AllTold(log')
    ensures j < |log.runs| && Tells(w, StandingOf(log, j), warm) ==> Tells(w, StandingOf(log', j), warm)
  {
    hide TaleOf, Reads, Telling, Minding, Sane, Told;
    forall k | 0 <= k < |log.runs|
      ensures Sane(StandingOf(log', k)) && (Told(StandingOf(log, k)) ==> Told(StandingOf(log', k)))
    {
      CancelledTold(StandingOf(log, k), StandingOf(log', k));
    }
    if j < |log.runs| && Tells(w, StandingOf(log, j), warm) {
      CancelledTelling(w, StandingOf(log, j), StandingOf(log', j));
      CancelledMinding(w, StandingOf(log, j), StandingOf(log', j), warm);
    }
  }

  lemma OthersTalk(s: State, a: Action)
    requires Safe(s) && Numbered(s) && InvTalk(s) && Enabled(s, a) && !a.WorkerStep? && Numbered(Next(s, a))
    ensures InvTalk(Next(s, a))
  {
    OthersParts(s, a);
    hide Safe, Next, Enabled, Kept, AllTold, Tells, StandingOf;
    OthersTold(s.log, Next(s, a).log, s.worker, s.job, s.warm);
  }

  lemma StepTalks(s: State, a: Action)
    requires Safe(s) && Numbered(s) && InvTalk(s) && Enabled(s, a) && Numbered(Next(s, a))
    ensures InvTalk(Next(s, a))
  {
    hide Safe, Numbered, InvTalk, Next, Enabled;
    if a.WorkerStep? {
      if InJob(s) { WorkerTalks(s, a.o); } else { TakeJobTalks(s, a.o); }
    } else {
      OthersTalk(s, a);
    }
  }

  // --------------------------------------------------------------- theorems

  lemma {:induction false} RunTalks(s: State, actions: seq<Action>, t: State)
    requires Safe(s) && Numbered(s) && InvTalk(s) && Run(s, actions, t)
    ensures Safe(t) && Numbered(t) && InvTalk(t)
    decreases |actions|
  {
    hide Safe, Numbered, InvTalk, Next, Enabled;
    if actions != [] {
      StepSafe(s, actions[0]);
      SafeNumbered(Next(s, actions[0]));
      StepTalks(s, actions[0]);
      RunTalks(Next(s, actions[0]), actions[1..], t);
    }
  }

  lemma ReachableTalks(t: State)
    requires Reachable(t)
    ensures Safe(t) && Numbered(t) && InvTalk(t)
  {
    hide Safe, Run, InvTalk, Numbered, Init;
    var s, actions :| Init(s) && Run(s, actions, t);
    InitInv(s);
    InitTalks(s);
    RunTalks(s, actions, t);
  }

  lemma InitTalks(s: State)
    requires Init(s)
    ensures Numbered(s) && InvTalk(s)
  {}

  /**
   The questions of every job come in the one order of MayCome, each only after a
   good answer: up to three starts of receipt, I2S, codec, receipt, volume, receipt,
   amplifier and receipt; then the assets; each clip's chunks looked after, read,
   cleared for volume, claimed and written one after the other until nothing is
   left; and nothing but the way out after a bad answer.
   */
  lemma QuestionsInOrder(t: State, k: nat)
    requires Reachable(t) && k < |t.log.answers|
    ensures MayCome(TaleOf(t.log.answers[..k], t.log.answers[k].job), t.log.answers[k])
  {
    ReachableTalks(t);
    ConversationAt(t.log.answers, k);
  }

  lemma {:induction false} ConversationAt(answers: seq<Answer>, k: nat)
    requires Conversation(answers) && k < |answers|
    ensures MayCome(TaleOf(answers[..k], answers[k].job), answers[k])
    decreases |answers|
  {
    var front := answers[..|answers| - 1];
    if k < |front| {
      ConversationAt(front, k);
      assert front[..k] == answers[..k];
    }
  }

  // what a tale counts, said of the answers themselves

  predicate ContentAt(answers: seq<Answer>, k: nat, j: JobId)
    requires k < |answers|
  {
    answers[k].job == j && answers[k].question == AskStat && answers[k].good && answers[k].size > 0
  }

  /** A bad answer, other than that a cancellation was seen and than to the way out. */
  predicate BadAt(answers: seq<Answer>, k: nat, j: JobId)
    requires k < |answers|
  {
    && answers[k].job == j && !answers[k].good
    && (Startup(answers[k].question) || answers[k].question == AskAssets || Playback(answers[k].question))
  }

  predicate BrokeAt(answers: seq<Answer>, k: nat, j: JobId)
    requires k < |answers|
  {
    answers[k].job == j && !answers[k].good && Playback(answers[k].question)
  }

  predicate ReachedAmpAt(answers: seq<Answer>, k: nat, j: JobId)
    requires k < |answers|
  {
    answers[k].job == j && answers[k].question == AskAmp && answers[k].size > 0
  }

  predicate DisableAt(answers: seq<Answer>, k: nat, j: JobId)
    requires k < |answers|
  {
    answers[k].job == j && answers[k].question == AskDisable
  }

  /** Some clip of the job was found with content. */
  ghost predicate FoundContent(t: State, j: JobId) {
    exists k :: 0 <= k < |t.log.answers| && ContentAt(t.log.answers, k, j)
  }

  lemma {:induction false} TaleOfContent(answers: seq<Answer>, j: JobId)
    ensures TaleOf(answers, j).sounding <==> exists k :: 0 <= k < |answers| && ContentAt(answers, k, j)
    decreases |answers|
  {
    if answers != [] {
      var n := |answers| - 1;
      var front := answers[..n];
      TaleOfContent(front, j);
      forall k | 0 <= k < n ensures ContentAt(answers, k, j) <==> ContentAt(front, k, j) {}
      assert ContentAt(answers, n, j) || !ContentAt(answers, n, j);
    }
  }

  lemma {:induction false} TaleOfTrouble(answers: seq<Answer>, j: JobId)
    ensures TaleOf(answers, j).misses > 0 || TaleOf(answers, j).bare || TaleOf(answers, j).broke <==>
              exists k :: 0 <= k < |answers| && BadAt(answers, k, j)
    decreases |answers|
  {
    if answers != [] {
      var n := |answers| - 1;
      var front := answers[..n];
      TaleOfTrouble(front, j);
      forall k | 0 <= k < n ensures BadAt(answers, k, j) <==> BadAt(front, k, j) {}
      assert BadAt(answers, n, j) || !BadAt(answers, n, j);
    }
  }

  lemma {:induction false} TaleOfBreak(answers: seq<Answer>, j: JobId)
    ensures TaleOf(answers, j).broke <==> exists k :: 0 <= k < |answers| && BrokeAt(answers, k, j)
    decreases |answers|
  {
    if answers != [] {
      var n := |answers| - 1;
      var front := answers[..n];
      TaleOfBreak(front, j);
      forall k | 0 <= k < n ensures BrokeAt(answers, k, j) <==> BrokeAt(front, k, j) {}
      assert BrokeAt(answers, n, j) || !BrokeAt(answers, n, j);
    }
  }

  lemma {:induction false} TaleOfAmp(answers: seq<Answer>, j: JobId)
    ensures TaleOf(answers, j).touched <==> exists k :: 0 <= k < |answers| && ReachedAmpAt(answers, k, j)
    ensures TaleOf(answers, j).switched <==> exists k :: 0 <= k < |answers| && DisableAt(answers, k, j)
    decreases |answers|
  {
    if answers != [] {
      var n := |answers| - 1;
      var front := answers[..n];
      TaleOfAmp(front, j);
      forall k | 0 <= k < n
        ensures ReachedAmpAt(answers, k, j) <==> ReachedAmpAt(front, k, j)
        ensures DisableAt(answers, k, j) <==> DisableAt(front, k, j)
      {}
      assert ReachedAmpAt(answers, n, j) || !ReachedAmpAt(answers, n, j);
      assert DisableAt(answers, n, j) || !DisableAt(answers, n, j);
    }
  }

  // and what follows for every run

  /** At any time a job has opened its first clips, in order; and it was heard only if one of them held anything. */
  lemma ClipsOpenInOrder(t: State, j: JobId)
    requires Reachable(t) && j < |t.log.runs|
    ensures |t.log.runs| <= |t.log.accepted|
    ensures var read := Reads(t.log.clipReads, j);
            |read| <= |t.log.accepted[j].want| && forall i :: 0 <= i < |read| ==> read[i] == i
    ensures j in t.log.pcm ==> FoundContent(t, j)
  {
    ReachableTalks(t);
    assert Sane(StandingOf(t.log, j));
    TaleOfContent(t.log.answers, j);
    hide Safe, TaleOf, Reads, Conversation;
  }

  /**
   A finished job that nobody cancelled, that did not fail to start three times, had
   its assets and did not break off has opened all its clips, in order, and was heard
   exactly if one of them held anything.
   */
  lemma FinishedJobsPlayInFull(t: State, j: JobId)
    requires Reachable(t) && j < |t.log.done|
    ensures |t.log.done| <= |t.log.accepted|
    ensures var tale := TaleOf(t.log.answers, j);
            j !in t.log.cancelled && tale.misses < 3 && !tale.bare && !tale.broke ==>
              && Reads(t.log.clipReads, j) == Upto(|t.log.accepted[j].want|)
              && (j in t.log.pcm <==> FoundContent(t, j))
  {
    ReachableTalks(t);
    assert Told(StandingOf(t.log, j));
    TaleOfContent(t.log.answers, j);
    hide Safe, TaleOf, Reads, Conversation;
  }

  /** So a job that met only good answers and no cancellation plays in full, and its receipt says so. */
  lemma UntroubledJobsPlayInFull(t: State, j: JobId)
    requires Reachable(t) && j < |t.log.done| && j !in t.log.cancelled
    requires forall k :: 0 <= k < |t.log.answers| ==> !BadAt(t.log.answers, k, j)
    ensures |t.log.done| <= |t.log.accepted|
    ensures var read, want := Reads(t.log.clipReads, j), |t.log.accepted[j].want|;
            |read| == want && forall i :: 0 <= i < want ==> read[i] == i
    ensures j in t.log.pcm <==> FoundContent(t, j)
    ensures t.log.accepted[j].receipt.Some? ==>
              j in t.log.final && (t.log.final[j] == Started <==> FoundContent(t, j))
  {
    TaleOfTrouble(t.log.answers, j);
    FinishedJobsPlayInFull(t, j);
    CancellationOrPcm(t, j);
    hide Reachable, TaleOf, Reads;
  }

  /**
   A finished job whose attempt to switch the amplifier on may have reached it, and
   that then was cancelled before it was heard, failed to start or broke off, asked
   for it to be switched off.
   */
  lemma TroubledJobsSwitchOff(t: State, j: JobId)
    requires Reachable(t) && j < |t.log.done|
    requires exists k :: 0 <= k < |t.log.answers| && ReachedAmpAt(t.log.answers, k, j)
    requires Stopped(t.log, j) || TaleOf(t.log.answers, j).misses >= 3 ||
             exists k :: 0 <= k < |t.log.answers| && BrokeAt(t.log.answers, k, j)
    ensures exists k :: 0 <= k < |t.log.answers| && DisableAt(t.log.answers, k, j)
  {
    ReachableTalks(t);
    assert Told(StandingOf(t.log, j));
    TaleOfBreak(t.log.answers, j);
    TaleOfAmp(t.log.answers, j);
    hide Safe, TaleOf, Reads, Conversation;
  }
}
