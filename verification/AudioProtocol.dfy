/**
 The audio job protocol: a main-loop task and one worker task sharing a claim
 flag, a job slot, a caller-owned receipt and the speaker amplifier.

 Every worker step makes at most one access to state that the other task can
 see, and the steps of both tasks interleave freely. Storage, I2C and I2S
 outcomes come from an oracle carried by the step.
 */
module AudioProtocol {
  import opened Bytes
  import opened Wrappers
  import opened AudioReceipt
  import opened AudioI2c

  type ReceiptId = nat
  type JobId = nat

  const MAX_CLIPS: nat := 12
  const MAX_ATTEMPTS: nat := 3
  const CHUNK: nat := 1024

  // ----------------------------------------------------------------- state

  /** A request as start_sd_audio_task receives it. */
  datatype Job = Job(want: seq<string>, receipt: Option<ReceiptId>)

  datatype StartStage = SetCount | Copy(copied: nat) | Spawn | Install | Arm | Hand | Notify

  datatype MainPc =
    | Free
    | Starting(stage: StartStage, job: Job)
    | SawWarm                              // idle service read amp_is_warm == true
    | OwnsAmp                              // ... and then audio_playing == false
    | TriedDisable(outcome: I2cResult)

  /** The six places where prepare_sd_audio_output polls for cancellation. */
  datatype CheckPoint = Top | AfterDelay | AfterI2s | AfterCodec | BeforeAmp | AfterAmp

  /** Where disable_speaker_amp returns to. */
  datatype Continuation = ToFinish(result: ReceiptState) | ToCancelled(receipt: ReceiptId)

  datatype WorkerPc =
    | Idle
    // prepare_sd_audio_output: attempt number and ampEnableMayHaveChanged
    | Check(at: CheckPoint, attempt: nat, may: bool)
    | BringUpI2s(attempt: nat, may: bool)
    | BringUpCodec(attempt: nat, may: bool)
    | StartVolume(attempt: nat, may: bool)
    | EnableAmp(attempt: nat, may: bool)
    | MarkWarm
    | StartupFailed(may: bool)
    | KeepWarm
    // the clip loop of sd_audio_playback_task
    | CheckAssets
    | NextClip(clip: nat)
    | StatClip(clip: nat)
    | NextChunk(clip: nat, left: nat)
    | ReadChunk(clip: nat, left: nat)
    | ChunkVolume(clip: nat, left: nat)
    | ClaimPcm(clip: nat, left: nat)
    | Detach(clip: nat, left: nat)
    | Submit(clip: nat, left: nat)
    | Aborted(result: ReceiptState)
    // disable_speaker_amp
    | Disable(next: Continuation)
    | Disabled(next: Continuation, outcome: I2cResult)
    // finish_sd_audio_job and audioResetTaskState
    | TakeSlot(result: ReceiptState)
    | Settle(result: ReceiptState, taken: Option<ReceiptId>)
    | CancelCleanup(receipt: ReceiptId)
    | StoreCancelled(receipt: ReceiptId)
    | ClearHandle
    | ReleaseClaim

  /** One worker access to caller-owned receipt memory. */
  datatype Access = Access(job: JobId, receipt: ReceiptId, live: bool, before: ReceiptState, after: ReceiptState)

  /** Where the worker looks for a cancellation. */
  datatype PollPoint = AtCheck(check: CheckPoint) | AtFailure | AtClip | AtChunk | AtAbort

  /** What the worker asks of its receipt, codec, bus, storage and I2S. */
  datatype Question =
    | Poll(at: PollPoint)
    | AskI2s
    | AskCodec
    | AskVolume
    | AskAmp
    | AskAssets
    | AskStat
    | AskRead
    | AskChunkVolume
    | AskClaim
    | AskWrite
    | AskDisable

  /**
   An answer. Its size is the length that a stat found, the bytes left of the clip
   for the rest of the loop, and for the amplifier 1 if the bus was reached.
   */
  datatype Answer = Answer(job: JobId, question: Question, good: bool, size: nat)

  datatype ClipRead = ClipRead(job: JobId, index: nat, path: string)

  /** Append-only history; no step reads it. */
  datatype History = History(
    accepted: seq<Job>,
    runs: seq<JobId>,                           // jobs taken by the worker
    done: seq<JobId>,                           // jobs that released the claim
    accesses: seq<Access>,
    final: map<JobId, ReceiptState>,            // the store by which a receipt left the owned states
    cancelled: set<JobId>,                      // requestCancellation returned true
    pcm: set<JobId>,                            // an i2s write was submitted
    clipReads: seq<ClipRead>,
    answers: seq<Answer>                        // everything the worker asked, and what it was told
  )

  datatype State = State(
    playing: bool,
    handle: Option<JobId>,                      // audioTaskHandle, tagged with the job that installed it
    warm: bool,
    slot: Option<ReceiptId>,                    // sdAudioReceipt
    count: nat,
    paths: seq<string>,                         // g_sdAudioTaskParams
    receipts: map<ReceiptId, ReceiptState>,     // live receipts; freed ones are absent
    owner: map<ReceiptId, JobId>,               // the last job each receipt was armed for
    notified: nat,
    spawned: bool,
    i2sUp: bool,
    amp: AmpPort,
    main: MainPc,
    worker: WorkerPc,
    slotJob: JobId,                             // which request the slot holds
    job: JobId,                                 // which request the worker took
    log: History
  )

  /** The outcome of everything outside the two tasks during one step. */
  datatype Oracle = Oracle(ok: bool, i2c: I2cResult, amp: AmpPort, size: nat)

  datatype Action =
    | NewReceipt(r: ReceiptId)
    | FreeReceipt(r: ReceiptId)
    | Cancel(r: ReceiptId)
    | Start(job: Job)
    | MainStep(o: Oracle)
    | ServiceAmp
    | WorkerStep(o: Oracle)

  predicate Init(s: State) {
    && !s.playing && s.handle.None? && !s.warm && s.slot.None? && |s.paths| == MAX_CLIPS
    && s.receipts == map[] && s.owner == map[] && s.notified == 0 && !s.spawned && !s.i2sUp
    && !s.amp.Asserted() && s.main == Free && s.worker == Idle
    && s.log == History([], [], [], [], map[], {}, {}, [], [])
  }

  // ---------------------------------------------------------- worker steps

  /** The single shared access of a worker step. */
  datatype Effect =
    | NoEffect
    | LoadReceipt(r: ReceiptId)
    | SwapReceipt(r: ReceiptId, desired: ReceiptState)
    | StoreReceipt(r: ReceiptId, value: ReceiptState)
    | DropSlot
    | SetWarm(hot: bool)
    | DriveAmp(port: AmpPort)
    | SetI2s(up: bool)
    | OpenClip(index: nat)
    | SubmitPcm
    | ClearTaskHandle
    | ReleasePlaying
    | TakeJob

  /** What the worker finds in receipt memory; freed memory may hold anything. */
  function Peek(s: State, r: ReceiptId): ReceiptState {
    if r in s.receipts then s.receipts[r] else Started
  }

  function Logged(s: State, r: ReceiptId, after: ReceiptState): History {
    s.log.(accesses := s.log.accesses + [Access(s.job, r, r in s.receipts, Peek(s, r), after)],
           final := if Owned(after) then s.log.final else s.log.final[s.job := after])
  }

  /** The value an effect leaves in receipt r; a losing compare-exchange is a load. */
  function ReceiptAfter(s: State, e: Effect): ReceiptState
    requires e.LoadReceipt? || e.SwapReceipt? || e.StoreReceipt?
  {
    match e
    case LoadReceipt(r) => Peek(s, r)
    case SwapReceipt(r, desired) => SwapPending(Peek(s, r), desired)
    case StoreReceipt(_, value) => value
  }

  predicate Writes(s: State, e: Effect) {
    e.StoreReceipt? || (e.SwapReceipt? && Peek(s, e.r) == Pending)
  }

  function HistoryAfter(s: State, e: Effect): History {
    match e
    case LoadReceipt(r) => Logged(s, r, ReceiptAfter(s, e))
    case SwapReceipt(r, _) => Logged(s, r, ReceiptAfter(s, e))
    case StoreReceipt(r, _) => Logged(s, r, ReceiptAfter(s, e))
    case OpenClip(i) =>
      var path := if i < |s.paths| then s.paths[i] else "";
      s.log.(clipReads := s.log.clipReads + [ClipRead(s.job, i, path)])
    case SubmitPcm => s.log.(pcm := s.log.pcm + {s.job})
    case ReleasePlaying => s.log.(done := s.log.done + [s.job])
    case TakeJob => s.log.(runs := s.log.runs + [s.slotJob])
    case _ => s.log
  }

  /** Field by field: which effect writes which variable. */
  function Perform(s: State, e: Effect): State {
    s.(playing := s.playing && !e.ReleasePlaying?,
       handle := if e.ClearTaskHandle? then None else s.handle,
       warm := if e.SetWarm? then e.hot else s.warm,
       slot := if e.DropSlot? then None else s.slot,
       receipts := if Writes(s, e) && e.r in s.receipts then s.receipts[e.r := ReceiptAfter(s, e)] else s.receipts,
       notified := if e.TakeJob? then 0 else s.notified,
       i2sUp := if e.SetI2s? then e.up else s.i2sUp,
       amp := if e.DriveAmp? then e.port else s.amp,
       job := if e.TakeJob? then s.slotJob else s.job,
       log := HistoryAfter(s, e))
  }

  datatype Move = Move(pc: WorkerPc, effect: Effect)

  function Go(pc: WorkerPc): Move { Move(pc, NoEffect) }

  /** sd_audio_cancel_requested and the branch taken on it. */
  function CheckCancel(s: State, ifCancelled: WorkerPc, otherwise: WorkerPc): Move {
    match s.slot
    case None => Go(otherwise)
    case Some(r) => Move(if Peek(s, r) == CancelRequested then ifCancelled else otherwise, LoadReceipt(r))
  }

  function Retry(attempt: nat, may: bool): WorkerPc {
    if attempt + 1 < MAX_ATTEMPTS then Check(Top, attempt + 1, may) else StartupFailed(may)
  }

  function AfterCheck(at: CheckPoint, attempt: nat, may: bool): WorkerPc {
    match at
    case Top => if attempt > 0 then Check(AfterDelay, attempt, may) else BringUpI2s(attempt, may)
    case AfterDelay => BringUpI2s(attempt, may)
    case AfterI2s => BringUpCodec(attempt, may)
    case AfterCodec => StartVolume(attempt, may)
    case BeforeAmp => EnableAmp(attempt, may)
    case AfterAmp => MarkWarm
  }

  /** prepare_sd_audio_output */
  function PrepareMove(s: State, o: Oracle): Move {
    match s.worker
    case Check(at, attempt, may) => CheckCancel(s, StartupFailed(may), AfterCheck(at, attempt, may))
    case BringUpI2s(attempt, may) =>
      if s.i2sUp then Go(BringUpCodec(attempt, may))
      else Move(Check(AfterI2s, attempt, may), SetI2s(o.ok))
    case BringUpCodec(attempt, may) =>
      Go(if s.i2sUp && o.ok then Check(AfterCodec, attempt, may) else Retry(attempt, may))
    case StartVolume(attempt, may) =>
      Go(if o.i2c == Ok then Check(BeforeAmp, attempt, may) else Retry(attempt, may))
    case EnableAmp(attempt, may) =>
      var may' := may || o.i2c != Busy;
      Move(if o.i2c == Ok then Check(AfterAmp, attempt, may') else Retry(attempt, may'), DriveAmp(o.amp))
    case MarkWarm => Move(CheckAssets, SetWarm(true))
    case StartupFailed(may) =>
      if may then CheckCancel(s, KeepWarm, Disable(ToFinish(FailedBeforeStart)))
      else Go(TakeSlot(FailedBeforeStart))
    case KeepWarm => Move(TakeSlot(FailedBeforeStart), SetWarm(true))
    case _ => Go(s.worker)
  }

  /** The clip loop of sd_audio_playback_task, with start_sd_audio_pcm. */
  function PlayMove(s: State, o: Oracle): Move {
    match s.worker
    case CheckAssets => Go(if o.ok then NextClip(0) else TakeSlot(Unavailable))
    case NextClip(i) =>
      if i >= s.count then Go(TakeSlot(Unavailable)) else CheckCancel(s, Aborted(Unavailable), StatClip(i))
    case StatClip(i) =>
      var pc := if !o.ok then Aborted(FailedBeforeStart)      // metadata or open failed
                else if o.size == 0 then NextClip(i + 1)      // missing, irregular or empty
                else NextChunk(i, o.size);
      Move(pc, OpenClip(i))
    case NextChunk(i, left) =>
      if left == 0 then Go(NextClip(i + 1)) else CheckCancel(s, Aborted(Unavailable), ReadChunk(i, left))
    case ReadChunk(i, left) =>
      Go(if o.ok then ChunkVolume(i, left - Min(left, CHUNK)) else Aborted(FailedBeforeStart))
    case ChunkVolume(i, left) =>
      Go(if o.i2c == Ok then ClaimPcm(i, left) else Aborted(FailedBeforeStart))
    case ClaimPcm(i, left) =>
      (match s.slot
       case None => Go(Submit(i, left))
       case Some(r) =>
         Move(if Peek(s, r) == Pending then Detach(i, left) else Aborted(Unavailable), SwapReceipt(r, Started)))
    case Detach(i, left) => Move(Submit(i, left), DropSlot)
    case Submit(i, left) => Move(if o.ok then NextChunk(i, left) else Aborted(Unavailable), SubmitPcm)
    case Aborted(result) => CheckCancel(s, TakeSlot(result), Disable(ToFinish(result)))
    case _ => Go(s.worker)
  }

  /** disable_speaker_amp, finish_sd_audio_job and audioResetTaskState. */
  function FinishMove(s: State, o: Oracle): Move {
    match s.worker
    case Disable(next) => Move(Disabled(next, o.i2c), DriveAmp(o.amp))
    case Disabled(next, outcome) =>
      Move(if next.ToFinish? then TakeSlot(next.result) else StoreCancelled(next.receipt), SetWarm(outcome != Ok))
    case TakeSlot(result) => Move(Settle(result, s.slot), DropSlot)
    case Settle(result, taken) =>
      (match taken
       case None => Go(ClearHandle)
       case Some(r) =>
         Move(if Peek(s, r) == CancelRequested then CancelCleanup(r) else ClearHandle, SwapReceipt(r, result)))
    case CancelCleanup(r) => Go(if s.warm then Disable(ToCancelled(r)) else StoreCancelled(r))
    case StoreCancelled(r) => Move(ClearHandle, StoreReceipt(r, CancelledBeforeStart))
    case ClearHandle => Move(ReleaseClaim, ClearTaskHandle)
    case ReleaseClaim => Move(Idle, ReleasePlaying)
    case _ => Go(s.worker)
  }

  predicate Preparing(w: WorkerPc) {
    w.Check? || w.BringUpI2s? || w.BringUpCodec? || w.StartVolume? || w.EnableAmp? || w.MarkWarm?
    || w.StartupFailed? || w.KeepWarm?
  }

  predicate Playing(w: WorkerPc) {
    w.CheckAssets? || w.NextClip? || w.StatClip? || w.NextChunk? || w.ReadChunk? || w.ChunkVolume?
    || w.ClaimPcm? || w.Detach? || w.Submit? || w.Aborted?
  }

  function WorkerMove(s: State, o: Oracle): Move {
    if s.worker == Idle then Move(Check(Top, 0, false), TakeJob)
    else if Preparing(s.worker) then PrepareMove(s, o)
    else if Playing(s.worker) then PlayMove(s, o)
    else FinishMove(s, o)
  }

  function Enact(s: State, m: Move): State {
    Perform(s, m.effect).(worker := m.pc)
  }

  /** No cancellation shows on the receipt in the slot, if there is one. */
  predicate Uncancelled(s: State) {
    s.slot.None? || Peek(s, s.slot.value) != CancelRequested
  }

  /** The answer that a worker step takes from the outside, if any. */
  function Asked(s: State, o: Oracle): Option<Answer> {
    match s.worker
    case Check(at, _, _) => Some(Answer(s.job, Poll(AtCheck(at)), Uncancelled(s), 0))
    case BringUpI2s(_, _) => if s.i2sUp then None else Some(Answer(s.job, AskI2s, o.ok, 0))
    case BringUpCodec(_, _) => Some(Answer(s.job, AskCodec, s.i2sUp && o.ok, 0))
    case StartVolume(_, _) => Some(Answer(s.job, AskVolume, o.i2c == Ok, 0))
    case EnableAmp(_, _) => Some(Answer(s.job, AskAmp, o.i2c == Ok, if o.i2c == Busy then 0 else 1))
    case StartupFailed(may) => if may then Some(Answer(s.job, Poll(AtFailure), Uncancelled(s), 0)) else None
    case CheckAssets => Some(Answer(s.job, AskAssets, o.ok, 0))
    case NextClip(i) => if i < s.count then Some(Answer(s.job, Poll(AtClip), Uncancelled(s), 0)) else None
    case StatClip(_) => Some(Answer(s.job, AskStat, o.ok, o.size))
    case NextChunk(_, left) => if left > 0 then Some(Answer(s.job, Poll(AtChunk), Uncancelled(s), left)) else None
    case ReadChunk(_, left) => Some(Answer(s.job, AskRead, o.ok, left))
    case ChunkVolume(_, left) => Some(Answer(s.job, AskChunkVolume, o.i2c == Ok, left))
    case ClaimPcm(_, left) =>
      Some(Answer(s.job, AskClaim, s.slot.None? || Peek(s, s.slot.value) == Pending, left))
    case Submit(_, left) => Some(Answer(s.job, AskWrite, o.ok, left))
    case Aborted(_) => Some(Answer(s.job, Poll(AtAbort), Uncancelled(s), 0))
    case Disable(_) => Some(Answer(s.job, AskDisable, o.i2c == Ok, 0))
    case _ => None
  }

  function Heard(s: State, a: Option<Answer>): State {
    if a.Some? then s.(log := s.log.(answers := s.log.answers + [a.value])) else s
  }

  // ------------------------------------------------------------ main steps

  /** strncpy into a 48-byte path buffer. */
  function Stored(path: string): string {
    if |path| > 47 then path[..47] else path
  }

  predicate Filling(stage: StartStage) {
    stage.SetCount? || stage.Copy? || stage.Spawn?
  }

  /** start_sd_audio_task, once audio_playing.exchange has won the claim. */
  function StartStep(s: State, o: Oracle): State
    requires s.main.Starting?
  {
    if Filling(s.main.stage) then FillSlot(s, o) else HandOver(s)
  }

  /** Copy the parameters and make sure that there is a worker. */
  function FillSlot(s: State, o: Oracle): State
    requires s.main.Starting? && Filling(s.main.stage)
  {
    var job := s.main.job;
    match s.main.stage
    case SetCount => s.(count := |job.want|, main := Starting(Copy(0), job))
    case Copy(i) =>
      if i < |job.want| && i < |s.paths| then
        s.(paths := s.paths[i := Stored(job.want[i])], main := Starting(Copy(i + 1), job))
      else s.(main := Starting(Spawn, job))
    case Spawn =>
      if s.spawned || o.ok then s.(spawned := true, main := Starting(Install, job))
      else s.(playing := false, main := Free)
  }

  /** Install and arm the receipt, publish the handle and notify. */
  function HandOver(s: State): State
    requires s.main.Starting? && !Filling(s.main.stage)
  {
    var job := s.main.job;
    match s.main.stage
    case Install => s.(slot := job.receipt, slotJob := |s.log.accepted|, main := Starting(Arm, job))
    case Arm =>
      (match job.receipt
       case None => s.(main := Starting(Hand, job))
       case Some(r) =>
         s.(receipts := s.receipts[r := Pending], owner := s.owner[r := s.slotJob], main := Starting(Hand, job)))
    case Hand => s.(handle := Some(s.slotJob), main := Starting(Notify, job))
    case Notify =>
      s.(notified := s.notified + 1, log := s.log.(accepted := s.log.accepted + [job]), main := Free)
  }

  /** audio_process_amp_timeout, once it has seen a warm amplifier, and the start sequence. */
  function MainNext(s: State, o: Oracle): State {
    match s.main
    case Free => s
    case Starting(_, _) => StartStep(s, o)
    case SawWarm => s.(main := if s.playing then Free else OwnsAmp)
    case OwnsAmp =>  // not yet due, or one attempt to switch the amplifier off
      if !o.ok then s.(main := Free) else s.(amp := o.amp, main := TriedDisable(o.i2c))
    case TriedDisable(outcome) => s.(warm := outcome != Ok, main := Free)
  }

  /** requestCancellation, from any task at any time. */
  function CancelStep(s: State, r: ReceiptId): State
    requires r in s.receipts
  {
    if s.receipts[r] != Pending then s
    else
      var log := if r in s.owner then s.log.(cancelled := s.log.cancelled + {s.owner[r]}) else s.log;
      s.(receipts := s.receipts[r := CancelRequested], log := log)
  }

  predicate Enabled(s: State, a: Action) {
    match a
    case NewReceipt(r) => s.main == Free && r !in s.receipts
    case FreeReceipt(r) => s.main == Free && r in s.receipts && !Owned(s.receipts[r])
    case Cancel(r) => r in s.receipts
    case Start(job) =>
      s.main == Free && |job.want| <= MAX_CLIPS && (job.receipt.Some? ==> job.receipt.value in s.receipts)
    case MainStep(o) => s.main == OwnsAmp && o.ok ==> AmpOutcome(s.amp, false, o.i2c, o.amp)
    case ServiceAmp => s.main == Free
    case WorkerStep(o) =>
      && (s.worker == Idle ==> s.notified > 0)
      && (s.worker.EnableAmp? ==> AmpOutcome(s.amp, true, o.i2c, o.amp))
      && (s.worker.Disable? ==> AmpOutcome(s.amp, false, o.i2c, o.amp))
  }

  function Next(s: State, a: Action): State
    requires Enabled(s, a)
  {
    match a
    case NewReceipt(r) => s.(receipts := s.receipts[r := Unavailable])
    case FreeReceipt(r) => s.(receipts := s.receipts - {r})
    case Cancel(r) => CancelStep(s, r)
    case Start(job) => if s.playing then s else s.(playing := true, main := Starting(SetCount, job))
    case MainStep(o) => MainNext(s, o)
    case ServiceAmp => if s.warm then s.(main := SawWarm) else s
    case WorkerStep(o) => Heard(Enact(s, WorkerMove(s, o)), Asked(s, o))
  }

  /** t is reached from s by exactly these steps. */
  ghost predicate Run(s: State, actions: seq<Action>, t: State)
    decreases |actions|
  {
    if actions == [] then s == t
    else Enabled(s, actions[0]) && Run(Next(s, actions[0]), actions[1..], t)
  }

  ghost predicate Reachable(t: State) {
    exists s, actions :: Init(s) && Run(s, actions, t)
  }
}
