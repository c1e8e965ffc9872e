/**
 What every step of the audio job protocol keeps, and what follows for every
 interleaving.

 Each invariant is stated over the fields it reads, so that a step leaving
 those fields alone keeps it without further argument.
 */
module AudioInvariants {
  import opened Wrappers
  import opened AudioReceipt
  import opened AudioI2c
  import opened AudioProtocol

  predicate InJob(s: State) { s.worker != Idle }

  /** Between making the receipt Pending and notifying the worker. */
  predicate Armed(main: MainPc) {
    main.Starting? && (main.stage == Hand || main.stage == Notify)
  }

  /** One claim at a time: the starting caller, the notification or the worker holds it. */
  predicate InvClaim(s: State) {
    && s.notified <= 1
    && (s.playing <==> s.main.Starting? || s.notified == 1 || InJob(s))
    && !(s.main.Starting? && s.notified == 1)
    && !(s.main.Starting? && InJob(s))
    && !(s.notified == 1 && InJob(s))
    && (s.main.OwnsAmp? || s.main.TriedDisable? ==> !s.playing)
  }

  predicate Counts(log: seq<JobId>) {
    forall i :: 0 <= i < |log| ==> log[i] == i
  }

  /** The handle each phase shows. */
  function ExpectedHandle(s: State): Option<JobId> {
    if s.notified == 1 then Some(s.slotJob)
    else if InJob(s) then (if s.worker == ReleaseClaim then None else Some(s.job))
    else if s.main.Starting? && s.main.stage == Notify then Some(s.slotJob)
    else None
  }

  predicate InvJobs(s: State) {
    && Counts(s.log.runs) && Counts(s.log.done)
    && |s.log.accepted| == |s.log.runs| + s.notified
    && |s.log.runs| == |s.log.done| + (if InJob(s) then 1 else 0)
    && (InJob(s) ==> s.job == s.slotJob == |s.log.runs| - 1)
    && (s.notified == 1 ==> s.slotJob == |s.log.runs|)
    && ((s.main.Starting? && s.main.stage.Arm?) || Armed(s.main) ==> s.slotJob == |s.log.accepted|)
    && s.handle == ExpectedHandle(s)
  }

  predicate ParamsOk(count: nat, paths: seq<string>, want: seq<string>, copied: nat) {
    && |paths| == MAX_CLIPS && |want| <= MAX_CLIPS && count == |want| && copied <= |want|
    && forall i :: 0 <= i < copied ==> paths[i] == Stored(want[i])
  }

  predicate ClipReadsOk(clipReads: seq<ClipRead>, runs: nat, accepted: seq<Job>) {
    && runs <= |accepted|
    && forall c :: c in clipReads ==>
         && c.job < runs && c.index < |accepted[c.job].want|
         && c.path == Stored(accepted[c.job].want[c.index])
  }

  predicate StartParamsOk(s: State) {
    s.main.Starting? ==>
      && |s.main.job.want| <= MAX_CLIPS
      && (s.main.stage.Copy? ==> ParamsOk(s.count, s.paths, s.main.job.want, s.main.stage.copied))
      && (!s.main.stage.SetCount? && !s.main.stage.Copy? ==>
            ParamsOk(s.count, s.paths, s.main.job.want, |s.main.job.want|))
  }

  predicate InvParams(s: State)
    requires InvJobs(s)
  {
    && |s.paths| == MAX_CLIPS
    && (s.notified == 1 || InJob(s) ==>
          ParamsOk(s.count, s.paths, s.log.accepted[s.slotJob].want, |s.log.accepted[s.slotJob].want|))
    && StartParamsOk(s)
    && (s.worker.StatClip? ==> s.worker.clip < s.count)
    && (s.worker.ReadChunk? ==> s.worker.left > 0)
    && ClipReadsOk(s.log.clipReads, |s.log.runs|, s.log.accepted)
  }

  /** The receipt pointer the worker may still follow. */
  function WorkerPointer(worker: WorkerPc, slot: Option<ReceiptId>): Option<ReceiptId> {
    match worker
    case Idle => None
    case Detach(_, _) => None
    case Settle(_, taken) => taken
    case CancelCleanup(r) => Some(r)
    case StoreCancelled(r) => Some(r)
    case Disable(next) => if next.ToCancelled? then Some(next.receipt) else slot
    case Disabled(next, _) => if next.ToCancelled? then Some(next.receipt) else slot
    case _ => slot
  }

  /** The one receipt the protocol currently holds. */
  function Held(s: State): Option<ReceiptId> {
    if InJob(s) then WorkerPointer(s.worker, s.slot)
    else if s.notified == 1 then s.slot
    else if Armed(s.main) then s.main.job.receipt
    else None
  }

  predicate Cleaning(w: WorkerPc) {
    || w.CancelCleanup? || w.StoreCancelled?
    || (w.Disable? && w.next.ToCancelled?) || (w.Disabled? && w.next.ToCancelled?)
  }

  predicate Closing(w: WorkerPc) {
    w.ClearHandle? || w.ReleaseClaim?
  }

  predicate Unheard(result: ReceiptState) {
    result == FailedBeforeStart || result == Unavailable
  }

  predicate ResultsOk(w: WorkerPc) {
    && (w.Aborted? || w.TakeSlot? || w.Settle? ==> Unheard(w.result))
    && ((w.Disable? || w.Disabled?) && w.next.ToFinish? ==> Unheard(w.next.result))
  }

  /** Exactly the held receipt is owned, by the job in the slot. */
  predicate TableOk(receipts: map<ReceiptId, ReceiptState>, owner: map<ReceiptId, JobId>,
                    held: Option<ReceiptId>, slotJob: JobId) {
    && (held.Some? ==>
          && held.value in receipts && Owned(receipts[held.value])
          && held.value in owner && owner[held.value] == slotJob)
    && forall r :: r in receipts && Owned(receipts[r]) ==> held == Some(r)
  }

  predicate FinalOk(final: map<JobId, ReceiptState>, accepted: seq<Job>, runs: nat, done: nat) {
    && done <= runs <= |accepted|
    && (forall j :: j in final ==> j < runs && !Owned(final[j]))
    && (forall j :: 0 <= j < done && accepted[j].receipt.Some? ==> j in final)
  }

  /** What the job in the worker's hands knows about its own receipt. */
  predicate WorkerReceiptOk(s: State)
    requires InJob(s) ==> s.job < |s.log.accepted|
  {
    InJob(s) ==>
      var mine, held, settled := s.log.accepted[s.job].receipt, Held(s), s.job in s.log.final;
      && (held.Some? ==> !settled && mine == held)
      && (Cleaning(s.worker) ==> Peek(s, held.value) == CancelRequested)
      // a job loses its receipt only by settling it, and plays on only if it settled as Started
      && (held.None? && mine.Some? ==> settled)
      && (settled && !Closing(s.worker) ==> s.log.final[s.job] == Started)
      && (s.worker.Submit? || s.worker.Settle? || Cleaning(s.worker) || Closing(s.worker) ==> s.slot.None?)
  }

  predicate InvReceipts(s: State)
    requires InvJobs(s)
  {
    && ResultsOk(s.worker)
    && TableOk(s.receipts, s.owner, Held(s), s.slotJob)
    && FinalOk(s.log.final, s.log.accepted, |s.log.runs|, |s.log.done|)
    && WorkerReceiptOk(s)
    && (s.notified == 1 ==> s.slot == s.log.accepted[s.slotJob].receipt)
    && (s.main.Starting? && s.main.job.receipt.Some? ==> s.main.job.receipt.value in s.receipts)
    && (Armed(s.main) || (s.main.Starting? && s.main.stage.Arm?) ==> s.slot == s.main.job.receipt)
  }

  /** The held receipt's job, once a cancellation of it has won. */
  function CancelPending(s: State): Option<JobId> {
    if Held(s).Some? && Peek(s, Held(s).value) == CancelRequested then Some(s.slotJob) else None
  }

  /** The job between winning the start and submitting its first PCM. */
  function PcmDue(s: State): Option<JobId> {
    if s.worker.Detach? || s.worker.Submit? then Some(s.job) else None
  }

  /** Cancellation and PCM exclude each other, and the final state tells which won. */
  predicate OutcomeOk(cancelled: set<JobId>, pcm: set<JobId>, final: map<JobId, ReceiptState>,
                      accepted: seq<Job>, runs: nat, pending: Option<JobId>, due: Option<JobId>) {
    && runs <= |accepted|
    && (forall j :: j in cancelled ==> (j in final && final[j] == CancelledBeforeStart) || pending == Some(j))
    && (pending.Some? ==> pending.value in cancelled && pending.value !in final)
    && (forall j :: j in final && final[j] == CancelledBeforeStart ==> j in cancelled)
    && (forall j :: j in pcm ==> j < runs)
    && (forall j :: j in pcm && accepted[j].receipt.Some? ==> j in final && final[j] == Started)
    && (forall j :: j in final && final[j] == Started ==> j in pcm || due == Some(j))
  }

  /** The log shows live, owned memory of the accessing job's own receipt, and none after it settled. */
  predicate AccessesOk(accesses: seq<Access>, final: map<JobId, ReceiptState>, accepted: seq<Job>, runs: nat) {
    && runs <= |accepted|
    && (forall i :: 0 <= i < |accesses| ==>
          && accesses[i].live && Owned(accesses[i].before)
          && accesses[i].job < runs && accepted[accesses[i].job].receipt == Some(accesses[i].receipt))
    && (forall i :: 0 <= i < |accesses| && !Owned(accesses[i].after) ==>
          accesses[i].job in final && final[accesses[i].job] == accesses[i].after)
    && (forall i, k :: 0 <= i < k < |accesses| && accesses[i].job == accesses[k].job ==>
          Owned(accesses[i].after))
  }

  predicate Settles(a: Access, j: JobId, value: ReceiptState) {
    a.job == j && a.after == value
  }

  /** Every final state was stored by an access in the log. */
  predicate SettlesLogged(accesses: seq<Access>, final: map<JobId, ReceiptState>) {
    forall j :: j in final ==> exists i :: 0 <= i < |accesses| && Settles(accesses[i], j, final[j])
  }

  predicate InvHistory(s: State) {
    && OutcomeOk(s.log.cancelled, s.log.pcm, s.log.final, s.log.accepted, |s.log.runs|, CancelPending(s), PcmDue(s))
    && AccessesOk(s.log.accesses, s.log.final, s.log.accepted, |s.log.runs|)
    && SettlesLogged(s.log.accesses, s.log.final)
  }

  /** Where the amplifier may be asserted beyond what amp_is_warm admits. */
  predicate MayBeOn(w: WorkerPc) {
    match w
    case Check(_, _, may) => may
    case BringUpI2s(_, may) => may
    case BringUpCodec(_, may) => may
    case StartVolume(_, may) => may
    case EnableAmp(_, may) => may
    case MarkWarm => true
    case StartupFailed(may) => may
    case KeepWarm => true
    case Disable(_) => true
    case Disabled(_, outcome) => outcome != Ok
    case _ => false
  }

  predicate InvAmp(s: State) {
    && (s.amp.Asserted() ==> s.warm || MayBeOn(s.worker))
    && (s.worker.Disabled? && s.worker.outcome == Ok ==> !s.amp.Asserted())
    && (s.main.TriedDisable? && s.main.outcome == Ok ==> !s.amp.Asserted())
  }

  /** Claim, job and parameter discipline. */
  predicate Orderly(s: State) {
    InvClaim(s) && InvJobs(s) && InvParams(s)
  }

  /** Receipt discipline. */
  predicate Tracked(s: State)
    requires Orderly(s)
  {
    InvReceipts(s) && InvHistory(s)
  }

  /** Everything but the amplifier. */
  predicate Safe(s: State) {
    Orderly(s) && Tracked(s)
  }

  lemma InitInv(s: State)
    requires Init(s)
    ensures Safe(s) && InvAmp(s)
  {}

  // ------------------------------------------------------ worker step cases

  predicate CancelSeen(s: State, pointer: Option<ReceiptId>) {
    pointer.Some? && Peek(s, pointer.value) == CancelRequested
  }

  /** Two program points that the receipt and job invariants cannot tell apart. */
  predicate SameRole(w: WorkerPc, w': WorkerPc, s: State) {
    && w != Idle && w' != Idle && ResultsOk(w')
    && WorkerPointer(w', s.slot) == WorkerPointer(w, s.slot)
    && (Cleaning(w') ==> Cleaning(w) || CancelSeen(s, WorkerPointer(w, s.slot))) && !Closing(w) && !Closing(w')
    && !w.Detach? && !w.Submit? && !w'.Detach? && !w'.Submit?
    && (w'.Settle? || Cleaning(w') ==> s.slot.None?)
    && (w'.StatClip? ==> w'.clip < s.count) && (w'.ReadChunk? ==> w'.left > 0)
  }

  predicate QuietEffect(e: Effect) {
    e.NoEffect? || e.SetWarm? || e.DriveAmp? || e.SetI2s?
  }

  /** A step that changes nothing these invariants read. */
  lemma QuietFrame(s: State, t: State)
    requires Safe(s) && SameRole(s.worker, t.worker, s)
    requires t == s.(worker := t.worker, warm := t.warm, amp := t.amp, i2sUp := t.i2sUp)
    ensures Safe(t)
  {}

  lemma QuietStep(s: State, m: Move)
    requires Safe(s) && SameRole(s.worker, m.pc, s) && QuietEffect(m.effect)
    ensures Safe(Enact(s, m))
  {
    hide Safe, SameRole;
    QuietFrame(s, Enact(s, m));
  }

  /** A worker step inside a job that leaves the job slot and the claim alone. */
  lemma OrderlyFrame(s: State, t: State)
    requires Orderly(s) && InJob(s) && InJob(t) && s.worker != ReleaseClaim && t.worker != ReleaseClaim
    requires t == s.(worker := t.worker, slot := t.slot, receipts := t.receipts, log := t.log)
    requires t.log == s.log.(accesses := t.log.accesses, final := t.log.final, pcm := t.log.pcm)
    requires !t.worker.StatClip? && !t.worker.ReadChunk?
    ensures Orderly(t)
  {}

  function Settled(final: map<JobId, ReceiptState>, a: Access): map<JobId, ReceiptState> {
    if Owned(a.after) then final else final[a.job := a.after]
  }

  lemma AppendSettles(accesses: seq<Access>, final: map<JobId, ReceiptState>, a: Access)
    requires SettlesLogged(accesses, final)
    ensures SettlesLogged(accesses + [a], Settled(final, a))
  {
    var accesses', final' := accesses + [a], Settled(final, a);
    forall j | j in final'
      ensures exists i :: 0 <= i < |accesses'| && Settles(accesses'[i], j, final'[j])
    {
      if j in final && final'[j] == final[j] {
        var i :| 0 <= i < |accesses| && Settles(accesses[i], j, final[j]);
        assert Settles(accesses'[i], j, final'[j]);
      } else {
        assert Settles(accesses'[|accesses|], j, final'[j]);
      }
    }
  }

  /** The log stays well formed while the accessing job has not settled. */
  lemma AppendAccess(accesses: seq<Access>, final: map<JobId, ReceiptState>, accepted: seq<Job>, runs: nat, a: Access)
    requires AccessesOk(accesses, final, accepted, runs)
    requires a.live && Owned(a.before) && a.job < runs && a.job !in final
    requires accepted[a.job].receipt == Some(a.receipt)
    ensures AccessesOk(accesses + [a], Settled(final, a), accepted, runs)
  {}

  lemma LogAccess(log: History, a: Access)
    requires AccessesOk(log.accesses, log.final, log.accepted, |log.runs|) && SettlesLogged(log.accesses, log.final)
    requires a.live && Owned(a.before) && a.job < |log.runs| && a.job !in log.final
    requires log.accepted[a.job].receipt == Some(a.receipt)
    ensures AccessesOk(log.accesses + [a], Settled(log.final, a), log.accepted, |log.runs|)
    ensures SettlesLogged(log.accesses + [a], Settled(log.final, a))
  {
    AppendAccess(log.accesses, log.final, log.accepted, |log.runs|, a);
    AppendSettles(log.accesses, log.final, a);
  }

  lemma LoadStep(s: State, r: ReceiptId, m: Move)
    requires Safe(s) && InJob(s) && Held(s) == Some(r) && SameRole(s.worker, m.pc, s)
    requires m.effect == LoadReceipt(r) || (m.effect.SwapReceipt? && m.effect.r == r && Peek(s, r) != Pending)
    ensures Safe(Enact(s, m))
  {
    LogAccess(s.log, Access(s.job, r, true, Peek(s, r), Peek(s, r)));
    hide TableOk, OutcomeOk, AccessesOk, SettlesLogged, FinalOk, ParamsOk, ClipReadsOk;
    assert Enact(s, m) == s.(worker := m.pc, log := Logged(s, r, Peek(s, r)));
  }

  /** Settling the pending job decides between cancellation and the start, once. */
  lemma SettleOutcome(cancelled: set<JobId>, pcm: set<JobId>, final: map<JobId, ReceiptState>, accepted: seq<Job>,
                      runs: nat, done: nat, pending: Option<JobId>, j: JobId, value: ReceiptState)
    requires OutcomeOk(cancelled, pcm, final, accepted, runs, pending, None) && FinalOk(final, accepted, runs, done)
    requires j < runs && j !in final && accepted[j].receipt.Some? && !Owned(value)
    requires pending.Some? ==> pending == Some(j)
    requires value == CancelledBeforeStart <==> pending == Some(j)
    ensures OutcomeOk(cancelled, pcm, final[j := value], accepted, runs, None,
                      if value == Started then Some(j) else None)
    ensures FinalOk(final[j := value], accepted, runs, done)
  {}

  lemma SettleTable(s: State, r: ReceiptId, value: ReceiptState)
    requires TableOk(s.receipts, s.owner, Some(r), s.slotJob) && !Owned(value)
    ensures TableOk(s.receipts[r := value], s.owner, None, s.slotJob)
  {}

  /** The worker replaced the value of a live receipt. */
  function Rewritten(s: State, r: ReceiptId, value: ReceiptState): State {
    s.(receipts := s.receipts[r := value], log := Logged(s, r, value))
  }

  /** tryStart wins: the receipt settles as Started while the slot still names it. */
  lemma WinStartStep(s: State, r: ReceiptId, t: State)
    requires Safe(s) && s.worker.ClaimPcm? && s.slot == Some(r) && Peek(s, r) == Pending
    requires t.worker.Detach? && t == Rewritten(s, r, Started).(worker := t.worker)
    ensures Safe(t)
  {
    hide TableOk, OutcomeOk, AccessesOk, SettlesLogged, FinalOk, ParamsOk, ClipReadsOk;
    OrderlyFrame(s, t);
    LogAccess(s.log, Access(s.job, r, true, Pending, Started));
    SettleTable(s, r, Started);
    SettleOutcome(s.log.cancelled, s.log.pcm, s.log.final, s.log.accepted, |s.log.runs|, |s.log.done|,
                  None, s.job, Started);
  }

  /** finish_sd_audio_job settles the receipt it took from the slot. */
  lemma SettleStep(s: State, r: ReceiptId, value: ReceiptState, t: State)
    requires Safe(s) && (s.worker.Settle? || s.worker.StoreCancelled?) && Held(s) == Some(r)
    requires !Owned(value) && value != Started
    requires value == CancelledBeforeStart <==> Peek(s, r) == CancelRequested
    requires t == Rewritten(s, r, value).(worker := ClearHandle)
    ensures Safe(t)
  {
    hide OutcomeOk, AccessesOk, SettlesLogged, FinalOk, ParamsOk, ClipReadsOk;
    OrderlyFrame(s, t);
    LogAccess(s.log, Access(s.job, r, true, Peek(s, r), value));
    SettleTable(s, r, value);
    SettleOutcome(s.log.cancelled, s.log.pcm, s.log.final, s.log.accepted, |s.log.runs|, |s.log.done|,
                  CancelPending(s), s.job, value);
  }

  /** A move these invariants do not notice, or that only polls the held receipt. */
  predicate Unnoticed(s: State, m: Move) {
    && SameRole(s.worker, m.pc, s)
    && (QuietEffect(m.effect) || (s.slot.Some? && Held(s) == s.slot && m.effect == LoadReceipt(s.slot.value)))
  }

  lemma UnnoticedStep(s: State, m: Move)
    requires Safe(s) && Unnoticed(s, m)
    ensures Safe(Enact(s, m))
  {
    hide Safe, WorkerPointer, Held, Enact;
    if m.effect.LoadReceipt? {
      LoadStep(s, s.slot.value, m);
    } else {
      QuietStep(s, m);
    }
  }

  lemma PrepareUnnoticed(s: State, o: Oracle)
    requires Preparing(s.worker) && ResultsOk(s.worker)
    ensures Unnoticed(s, PrepareMove(s, o))
  {
    hide Unnoticed, PrepareMove;
    if s.worker.Check? || s.worker.StartupFailed? { PollUnnoticed(s, o); } else { BringUpUnnoticed(s, o); }
  }

  lemma PollUnnoticed(s: State, o: Oracle)
    requires s.worker.Check? || s.worker.StartupFailed?
    ensures Unnoticed(s, PrepareMove(s, o))
  {}

  lemma BringUpUnnoticed(s: State, o: Oracle)
    requires Preparing(s.worker) && !s.worker.Check? && !s.worker.StartupFailed?
    ensures Unnoticed(s, PrepareMove(s, o))
  {}

  predicate PollsOrReads(w: WorkerPc) {
    w.CheckAssets? || w.NextClip? || w.NextChunk? || w.ReadChunk? || w.ChunkVolume? || w.Aborted?
  }

  lemma PlayUnnoticed(s: State, o: Oracle)
    requires PollsOrReads(s.worker) && ResultsOk(s.worker)
    ensures Unnoticed(s, PlayMove(s, o))
  {}

  lemma DisableUnnoticed(s: State, o: Oracle)
    requires (s.worker.Disable? || s.worker.Disabled? || s.worker.CancelCleanup?) && ResultsOk(s.worker)
    requires Cleaning(s.worker) ==> s.slot.None?
    ensures Unnoticed(s, FinishMove(s, o))
  {}

  // the remaining worker steps, one by one

  lemma TakeJobOrderly(s: State, t: State)
    requires Orderly(s) && s.worker == Idle && s.notified == 1
    requires ClipReadsOk(s.log.clipReads, |s.log.runs| + 1, s.log.accepted)
    requires t == s.(worker := Check(Top, 0, false), notified := 0, job := s.slotJob,
                     log := s.log.(runs := s.log.runs + [s.slotJob]))
    ensures Orderly(t)
  {
    hide ParamsOk, ClipReadsOk;
  }

  lemma TakeJobTracked(s: State, t: State)
    requires Orderly(s) && Orderly(t) && Tracked(s) && s.worker == Idle && s.notified == 1
    requires !s.main.Starting? && s.slotJob == |s.log.runs| < |s.log.accepted| && s.slotJob !in s.log.final
    requires t == s.(worker := Check(Top, 0, false), notified := 0, job := s.slotJob,
                     log := s.log.(runs := s.log.runs + [s.slotJob]))
    requires FinalOk(s.log.final, s.log.accepted, |s.log.runs| + 1, |s.log.done|)
    requires AccessesOk(s.log.accesses, s.log.final, s.log.accepted, |s.log.runs| + 1)
    requires OutcomeOk(s.log.cancelled, s.log.pcm, s.log.final, s.log.accepted, |s.log.runs| + 1,
                       CancelPending(s), None)
    ensures Tracked(t)
  {
    hide TableOk, OutcomeOk, AccessesOk, SettlesLogged, FinalOk, Orderly;
    assert Held(s) == s.slot == Held(t) && CancelPending(s) == CancelPending(t) && PcmDue(t).None?;
  }

  lemma TakeJobFrame(s: State, t: State)
    requires Safe(s) && s.worker == Idle && s.notified == 1
    requires t == s.(worker := Check(Top, 0, false), notified := 0, job := s.slotJob,
                     log := s.log.(runs := s.log.runs + [s.slotJob]))
    ensures Safe(t)
  {
    hide TableOk, OutcomeOk, AccessesOk, SettlesLogged, FinalOk, ParamsOk, ClipReadsOk, WorkerReceiptOk;
    assert PcmDue(s).None? && !s.main.Starting? && s.slotJob == |s.log.runs| < |s.log.accepted|;
    RunsGrow(s.log, CancelPending(s));
    TakeJobOrderly(s, t);
    hide Orderly, Tracked;
    TakeJobTracked(s, t);
  }

  lemma TakeJobStep(s: State)
    requires Safe(s) && s.worker == Idle && s.notified > 0
    ensures Safe(Enact(s, Move(Check(Top, 0, false), TakeJob)))
  {
    assert s.notified == 1;
    hide Safe;
    TakeJobFrame(s, Enact(s, Move(Check(Top, 0, false), TakeJob)));
  }

  /** Counting one more accepted job as taken disturbs nothing said about earlier ones. */
  lemma RunsGrow(log: History, pending: Option<JobId>)
    requires |log.runs| < |log.accepted| && ClipReadsOk(log.clipReads, |log.runs|, log.accepted)
    requires FinalOk(log.final, log.accepted, |log.runs|, |log.done|)
    requires AccessesOk(log.accesses, log.final, log.accepted, |log.runs|)
    requires OutcomeOk(log.cancelled, log.pcm, log.final, log.accepted, |log.runs|, pending, None)
    ensures ClipReadsOk(log.clipReads, |log.runs| + 1, log.accepted)
    ensures FinalOk(log.final, log.accepted, |log.runs| + 1, |log.done|)
    ensures AccessesOk(log.accesses, log.final, log.accepted, |log.runs| + 1)
    ensures OutcomeOk(log.cancelled, log.pcm, log.final, log.accepted, |log.runs| + 1, pending, None)
    ensures |log.runs| !in log.final
  {}

  lemma OpenClipFrame(s: State, t: State)
    requires Safe(s) && s.worker.StatClip? && SameRole(s.worker, t.worker, s)
    requires t == s.(worker := t.worker, log := HistoryAfter(s, OpenClip(s.worker.clip)))
    ensures Safe(t)
  {
    hide TableOk, OutcomeOk, AccessesOk, SettlesLogged, FinalOk;
  }

  lemma OpenClipStep(s: State, o: Oracle)
    requires Safe(s) && s.worker.StatClip?
    ensures Safe(Enact(s, PlayMove(s, o)))
  {
    assert s.worker.clip < s.count;
    hide Safe;
    OpenClipFrame(s, Enact(s, PlayMove(s, o)));
  }

  lemma GoMoves(s: State, pc: WorkerPc)
    ensures Enact(s, Go(pc)) == s.(worker := pc)
  {}

  /** Without a receipt there is nothing to win before the first PCM. */
  lemma UnreceiptedFrame(s: State, pc: WorkerPc)
    requires Safe(s) && s.worker.ClaimPcm? && s.slot.None? && pc.Submit?
    ensures Safe(s.(worker := pc))
  {}

  lemma UnreceiptedPcmStep(s: State, o: Oracle)
    requires Safe(s) && s.worker.ClaimPcm? && s.slot.None?
    ensures Safe(Enact(s, PlayMove(s, o)))
  {
    hide Safe, Enact;
    var pc := Submit(s.worker.clip, s.worker.left);
    GoMoves(s, pc);
    UnreceiptedFrame(s, pc);
  }

  lemma WonStart(s: State, o: Oracle)
    requires Safe(s) && s.worker.ClaimPcm? && s.slot.Some? && Peek(s, s.slot.value) == Pending
    ensures Safe(Enact(s, PlayMove(s, o)))
  {
    hide Safe;
    WinStartStep(s, s.slot.value, Enact(s, PlayMove(s, o)));
  }

  lemma LostStartStep(s: State, o: Oracle)
    requires Safe(s) && s.worker.ClaimPcm? && s.slot.Some? && Peek(s, s.slot.value) != Pending
    ensures Safe(Enact(s, PlayMove(s, o)))
  {
    LoadStep(s, s.slot.value, PlayMove(s, o));
  }

  lemma DetachStep(s: State, o: Oracle)
    requires Safe(s) && s.worker.Detach?
    ensures Safe(Enact(s, PlayMove(s, o)))
  {
    hide TableOk, OutcomeOk, AccessesOk, SettlesLogged, FinalOk, ParamsOk, ClipReadsOk;
    OrderlyFrame(s, Enact(s, PlayMove(s, o)));
  }

  lemma SubmitFrame(s: State, t: State)
    requires Safe(s) && s.worker.Submit? && (t.worker.NextChunk? || t.worker == Aborted(Unavailable))
    requires t == s.(worker := t.worker, log := s.log.(pcm := s.log.pcm + {s.job}))
    ensures Safe(t)
  {
    hide TableOk, OutcomeOk, AccessesOk, SettlesLogged, FinalOk, ParamsOk, ClipReadsOk;
    assert Held(s).None? && Held(t).None? && CancelPending(s).None? && CancelPending(t).None?;
    SubmitOutcome(s.log, s.job);
    OrderlyFrame(s, t);
    hide Orderly;
  }

  /** The first PCM of a job that has no receipt left to settle. */
  lemma SubmitOutcome(log: History, j: JobId)
    requires OutcomeOk(log.cancelled, log.pcm, log.final, log.accepted, |log.runs|, None, Some(j)) && j < |log.runs|
    requires log.accepted[j].receipt.Some? ==> j in log.final && log.final[j] == Started
    ensures OutcomeOk(log.cancelled, log.pcm + {j}, log.final, log.accepted, |log.runs|, None, None)
  {}

  lemma SubmitStep(s: State, o: Oracle)
    requires Safe(s) && s.worker.Submit?
    ensures Safe(Enact(s, PlayMove(s, o)))
  {
    hide Safe;
    SubmitFrame(s, Enact(s, PlayMove(s, o)));
  }

  lemma TakeSlotFrame(s: State, t: State)
    requires Safe(s) && s.worker.TakeSlot? && t == s.(worker := Settle(s.worker.result, s.slot), slot := None)
    ensures Safe(t)
  {
    hide TableOk, OutcomeOk, AccessesOk, SettlesLogged, FinalOk, ParamsOk, ClipReadsOk;
    OrderlyFrame(s, t);
  }

  lemma TakeSlotStep(s: State, o: Oracle)
    requires Safe(s) && s.worker.TakeSlot?
    ensures Safe(Enact(s, FinishMove(s, o)))
  {
    hide Safe;
    TakeSlotFrame(s, Enact(s, FinishMove(s, o)));
  }

  lemma NothingToSettleFrame(s: State)
    requires Safe(s) && s.worker.Settle? && s.worker.taken.None?
    ensures Safe(s.(worker := ClearHandle))
  {
    hide TableOk, OutcomeOk, AccessesOk, SettlesLogged, FinalOk, ParamsOk, ClipReadsOk;
  }

  lemma NothingToSettleStep(s: State, o: Oracle)
    requires Safe(s) && s.worker.Settle? && s.worker.taken.None?
    ensures Safe(Enact(s, FinishMove(s, o)))
  {
    hide Safe, Enact;
    GoMoves(s, ClearHandle);
    NothingToSettleFrame(s);
  }

  lemma TakenSettleStep(s: State, o: Oracle)
    requires Safe(s) && s.worker.Settle? && s.worker.taken.Some?
    ensures Safe(Enact(s, FinishMove(s, o)))
  {
    var r := s.worker.taken.value;
    assert r in s.receipts && Owned(s.receipts[r]) && Unheard(s.worker.result) && s.slot.None?;
    hide Safe;
    if Peek(s, r) == Pending {
      SettleStep(s, r, s.worker.result, Enact(s, FinishMove(s, o)));
    } else {
      LoadStep(s, r, FinishMove(s, o));
    }
  }

  lemma StoreCancelledStep(s: State, o: Oracle)
    requires Safe(s) && s.worker.StoreCancelled?
    ensures Safe(Enact(s, FinishMove(s, o)))
  {
    var r := s.worker.receipt;
    assert r in s.receipts && Peek(s, r) == CancelRequested;
    hide Safe;
    SettleStep(s, r, CancelledBeforeStart, Enact(s, FinishMove(s, o)));
  }

  lemma ClearHandleStep(s: State, o: Oracle)
    requires Safe(s) && s.worker.ClearHandle?
    ensures Safe(Enact(s, FinishMove(s, o)))
  {
    hide TableOk, OutcomeOk, AccessesOk, SettlesLogged, FinalOk, ParamsOk, ClipReadsOk;
  }

  lemma ReleaseStep(s: State, t: State)
    requires Safe(s) && s.worker.ReleaseClaim?
    requires t == s.(playing := false, worker := Idle, log := s.log.(done := s.log.done + [s.job]))
    ensures Safe(t)
  {
    assert Held(s).None? && Held(t).None? && t.notified == 0 && !t.main.Starting?;
    assert s.log.accepted[s.job].receipt.Some? ==> s.job in s.log.final;
    assert FinalOk(t.log.final, t.log.accepted, |t.log.runs|, |t.log.done|);
  }

  lemma Released(s: State, o: Oracle)
    requires Safe(s) && s.worker.ReleaseClaim?
    ensures Safe(Enact(s, FinishMove(s, o)))
  {
    hide Safe;
    ReleaseStep(s, Enact(s, FinishMove(s, o)));
  }

  lemma PlaySafe(s: State, o: Oracle)
    requires Safe(s) && Playing(s.worker)
    ensures Safe(Enact(s, PlayMove(s, o)))
  {
    assert ResultsOk(s.worker);
    hide Safe, Enact, PlayMove, Unnoticed;
    if PollsOrReads(s.worker) {
      PlayUnnoticed(s, o);
      UnnoticedStep(s, PlayMove(s, o));
    } else if s.worker.StatClip? {
      OpenClipStep(s, o);
    } else if s.worker.Submit? {
      SubmitStep(s, o);
    } else if s.worker.Detach? {
      DetachStep(s, o);
    } else if s.slot.None? {
      UnreceiptedPcmStep(s, o);
    } else if Peek(s, s.slot.value) == Pending {
      WonStart(s, o);
    } else {
      LostStartStep(s, o);
    }
  }

  lemma FinishSafe(s: State, o: Oracle)
    requires Safe(s) && InJob(s) && !Preparing(s.worker) && !Playing(s.worker)
    ensures Safe(Enact(s, FinishMove(s, o)))
  {
    assert ResultsOk(s.worker) && (Cleaning(s.worker) ==> s.slot.None?);
    hide Safe, Enact, FinishMove, Unnoticed;
    match s.worker {
      case TakeSlot(_) => TakeSlotStep(s, o);
      case Settle(_, taken) =>
        if taken.None? { NothingToSettleStep(s, o); } else { TakenSettleStep(s, o); }
      case StoreCancelled(r) => StoreCancelledStep(s, o);
      case ClearHandle => ClearHandleStep(s, o);
      case ReleaseClaim => Released(s, o);
      case _ =>
        DisableUnnoticed(s, o);
        UnnoticedStep(s, FinishMove(s, o));
    }
  }

  /** None of these invariants reads the log of answers. */
  lemma HeardSafe(s: State, a: Option<Answer>)
    requires Safe(s)
    ensures Safe(Heard(s, a))
  {
    hide TableOk, OutcomeOk, AccessesOk, SettlesLogged, FinalOk, ParamsOk, ClipReadsOk;
  }

  lemma WorkerSafe(s: State, o: Oracle)
    requires Safe(s) && Enabled(s, WorkerStep(o))
    ensures Safe(Next(s, WorkerStep(o)))
  {
    hide Safe, Enact, WorkerMove, Heard, Asked;
    EnactSafe(s, o);
    HeardSafe(Enact(s, WorkerMove(s, o)), Asked(s, o));
  }

  lemma EnactSafe(s: State, o: Oracle)
    requires Safe(s) && Enabled(s, WorkerStep(o))
    ensures Safe(Enact(s, WorkerMove(s, o)))
  {
    assert ResultsOk(s.worker);
    hide Safe, Enact, PrepareMove, PlayMove, FinishMove, Unnoticed;
    if s.worker == Idle {
      TakeJobStep(s);
    } else if Preparing(s.worker) {
      PrepareUnnoticed(s, o);
      UnnoticedStep(s, PrepareMove(s, o));
    } else if Playing(s.worker) {
      PlaySafe(s, o);
    } else {
      FinishSafe(s, o);
    }
  }

  // -------------------------------------------------------- main step cases

  /** The idle service and a refused start. */
  lemma IdleServiceSafe(s: State, t: State)
    requires Safe(s) && !s.main.Starting? && !t.main.Starting?
    requires t == s.(main := t.main, warm := t.warm, amp := t.amp)
    requires t.main.OwnsAmp? || t.main.TriedDisable? ==> !s.playing
    ensures Safe(t)
  {}

  lemma NewReceiptSafe(s: State, r: ReceiptId)
    requires Safe(s) && s.main == Free && r !in s.receipts
    ensures Safe(s.(receipts := s.receipts[r := Unavailable]))
  {}

  lemma FreeReceiptSafe(s: State, r: ReceiptId)
    requires Safe(s) && s.main == Free && r in s.receipts && !Owned(s.receipts[r])
    ensures Safe(s.(receipts := s.receipts - {r}))
  {
    assert TableOk(s.receipts - {r}, s.owner, Held(s), s.slotJob) && Held(s) != Some(r);
    hide TableOk, OutcomeOk, AccessesOk, SettlesLogged, FinalOk, ParamsOk, ClipReadsOk;
  }

  lemma CancelSafe(s: State, r: ReceiptId)
    requires Safe(s) && r in s.receipts
    ensures Safe(CancelStep(s, r))
  {
    if s.receipts[r] == Pending {
      OwnedIsHeld(s, r);
      var t := CancelStep(s, r);
      CancelOutcome(s.log, s.slotJob, PcmDue(s));
      CancelTable(s, r);
      hide TableOk, OutcomeOk, AccessesOk, SettlesLogged, FinalOk, ParamsOk, ClipReadsOk;
      assert t.log == s.log.(cancelled := s.log.cancelled + {s.slotJob});
      assert Held(t) == Held(s) == Some(r) && CancelPending(s).None? && CancelPending(t) == Some(s.slotJob);
    }
  }

  /** An owned receipt is the held one, and its job is not settled. */
  lemma OwnedIsHeld(s: State, r: ReceiptId)
    requires Safe(s) && r in s.receipts && Owned(s.receipts[r])
    ensures Held(s) == Some(r) && r in s.owner && s.owner[r] == s.slotJob && s.slotJob !in s.log.final
  {
    hide OutcomeOk, AccessesOk, SettlesLogged, ParamsOk, ClipReadsOk;
  }

  lemma CancelOutcome(log: History, j: JobId, due: Option<JobId>)
    requires OutcomeOk(log.cancelled, log.pcm, log.final, log.accepted, |log.runs|, None, due) && j !in log.final
    ensures OutcomeOk(log.cancelled + {j}, log.pcm, log.final, log.accepted, |log.runs|, Some(j), due)
  {}

  lemma CancelTable(s: State, r: ReceiptId)
    requires TableOk(s.receipts, s.owner, Some(r), s.slotJob)
    ensures TableOk(s.receipts[r := CancelRequested], s.owner, Some(r), s.slotJob)
  {}

  lemma ClaimSafe(s: State, job: Job)
    requires Safe(s) && Enabled(s, Start(job)) && !s.playing
    ensures Safe(Next(s, Start(job)))
  {}

  lemma CountFrame(s: State, t: State)
    requires Safe(s) && s.main.Starting? && s.main.stage.SetCount?
    requires t == s.(count := |s.main.job.want|, main := Starting(Copy(0), s.main.job))
    ensures Safe(t)
  {
    hide TableOk, OutcomeOk, AccessesOk, SettlesLogged, FinalOk, ClipReadsOk;
  }

  lemma CountSafe(s: State, o: Oracle)
    requires Safe(s) && s.main.Starting? && s.main.stage.SetCount?
    ensures Safe(StartStep(s, o))
  {
    hide Safe;
    CountFrame(s, StartStep(s, o));
  }

  lemma CopyFrame(s: State, t: State)
    requires Safe(s) && s.main.Starting? && s.main.stage.Copy?
    requires t == s.(paths := t.paths, main := t.main) && StartParamsOk(t) && |t.paths| == MAX_CLIPS
    requires t.main.Starting? && t.main.job == s.main.job && (t.main.stage.Copy? || t.main.stage.Spawn?)
    ensures Safe(t)
  {
    hide TableOk, OutcomeOk, AccessesOk, SettlesLogged, FinalOk, ClipReadsOk;
  }

  lemma CopyMoreOk(s: State)
    requires StartParamsOk(s) && s.main.Starting? && s.main.stage.Copy?
    requires s.main.stage.copied < |s.main.job.want| && s.main.stage.copied < |s.paths|
    ensures var i := s.main.stage.copied;
            StartParamsOk(s.(paths := s.paths[i := Stored(s.main.job.want[i])],
                             main := Starting(Copy(i + 1), s.main.job)))
  {}

  lemma CopySafe(s: State, o: Oracle)
    requires Safe(s) && s.main.Starting? && s.main.stage.Copy?
    ensures Safe(StartStep(s, o))
  {
    assert StartParamsOk(s) && |s.paths| == MAX_CLIPS;
    hide Safe;
    if s.main.stage.copied < |s.main.job.want| { CopyMoreOk(s); }
    CopyFrame(s, StartStep(s, o));
  }

  lemma SpawnSafe(s: State, o: Oracle)
    requires Safe(s) && s.main.Starting? && s.main.stage.Spawn?
    ensures Safe(StartStep(s, o))
  {}

  lemma InstallSafe(s: State, o: Oracle)
    requires Safe(s) && s.main.Starting? && (s.main.stage.Install? || s.main.stage.Hand?)
    ensures Safe(StartStep(s, o))
  {}

  /** Arming makes the receipt in the slot the one that is held. */
  lemma ArmTable(s: State, r: ReceiptId)
    requires TableOk(s.receipts, s.owner, None, s.slotJob)
    ensures TableOk(s.receipts[r := Pending], s.owner[r := s.slotJob], Some(r), s.slotJob)
  {}

  lemma ArmFrame(s: State, r: ReceiptId, t: State)
    requires Safe(s) && s.main.Starting? && s.main.stage.Arm? && s.main.job.receipt == Some(r)
    requires t == s.(receipts := s.receipts[r := Pending], owner := s.owner[r := s.slotJob],
                     main := Starting(Hand, s.main.job))
    ensures Safe(t)
  {
    hide TableOk, OutcomeOk, AccessesOk, SettlesLogged, FinalOk, ParamsOk, ClipReadsOk;
    ArmTable(s, r);
    assert Held(s).None? && Held(t) == Some(r) && CancelPending(s).None? && CancelPending(t).None?;
  }

  lemma ArmNothingFrame(s: State, t: State)
    requires Safe(s) && s.main.Starting? && s.main.stage.Arm? && s.main.job.receipt.None?
    requires t == s.(main := Starting(Hand, s.main.job))
    ensures Safe(t)
  {
    hide TableOk, OutcomeOk, AccessesOk, SettlesLogged, FinalOk, ParamsOk, ClipReadsOk;
  }

  lemma ArmSafe(s: State, o: Oracle)
    requires Safe(s) && s.main.Starting? && s.main.stage.Arm?
    ensures Safe(StartStep(s, o))
  {
    hide Safe;
    match s.main.job.receipt
    case None => ArmNothingFrame(s, StartStep(s, o));
    case Some(r) => ArmFrame(s, r, StartStep(s, o));
  }

  /** Appending an accepted job disturbs nothing said about earlier ones. */
  lemma AcceptedGrows(log: History, job: Job, pending: Option<JobId>)
    requires ClipReadsOk(log.clipReads, |log.runs|, log.accepted)
    requires FinalOk(log.final, log.accepted, |log.runs|, |log.done|)
    requires AccessesOk(log.accesses, log.final, log.accepted, |log.runs|)
    requires OutcomeOk(log.cancelled, log.pcm, log.final, log.accepted, |log.runs|, pending, None)
    ensures ClipReadsOk(log.clipReads, |log.runs|, log.accepted + [job])
    ensures FinalOk(log.final, log.accepted + [job], |log.runs|, |log.done|)
    ensures AccessesOk(log.accesses, log.final, log.accepted + [job], |log.runs|)
    ensures OutcomeOk(log.cancelled, log.pcm, log.final, log.accepted + [job], |log.runs|, pending, None)
  {}

  lemma NotifyFrame(s: State, t: State)
    requires Safe(s) && s.main.Starting? && s.main.stage.Notify?
    requires t == s.(notified := s.notified + 1, main := Free,
                     log := s.log.(accepted := s.log.accepted + [s.main.job]))
    ensures Safe(t)
  {
    AcceptedGrows(s.log, s.main.job, CancelPending(s));
    hide TableOk, OutcomeOk, AccessesOk, SettlesLogged, FinalOk, ParamsOk, ClipReadsOk;
    assert (s.log.accepted + [s.main.job])[s.slotJob] == s.main.job;
  }

  lemma NotifySafe(s: State, o: Oracle)
    requires Safe(s) && s.main.Starting? && s.main.stage.Notify?
    ensures Safe(StartStep(s, o))
  {
    hide Safe;
    NotifyFrame(s, StartStep(s, o));
  }

  lemma StartSafe(s: State, o: Oracle)
    requires Safe(s) && s.main.Starting?
    ensures Safe(StartStep(s, o))
  {
    hide Safe, StartStep;
    match s.main.stage {
      case SetCount => CountSafe(s, o);
      case Copy(_) => CopySafe(s, o);
      case Spawn => SpawnSafe(s, o);
      case Install => InstallSafe(s, o);
      case Arm => ArmSafe(s, o);
      case Hand => InstallSafe(s, o);
      case Notify => NotifySafe(s, o);
    }
  }

  lemma ServiceSafe(s: State, o: Oracle)
    requires Safe(s) && !s.main.Starting?
    ensures Safe(MainNext(s, o))
  {
    assert s.main.OwnsAmp? ==> !s.playing;
    hide Safe, StartStep;
    match s.main {
      case SawWarm => IdleServiceSafe(s, s.(main := if s.playing then Free else OwnsAmp));
      case OwnsAmp =>
        IdleServiceSafe(s, if o.ok then s.(amp := o.amp, main := TriedDisable(o.i2c)) else s.(main := Free));
      case TriedDisable(outcome) => IdleServiceSafe(s, s.(warm := outcome != Ok, main := Free));
      case _ =>
    }
  }

  lemma StepSafe(s: State, a: Action)
    requires Safe(s) && Enabled(s, a)
    ensures Safe(Next(s, a))
  {
    hide Safe, Enact, WorkerMove, StartStep, CancelStep;
    match a {
      case NewReceipt(r) => NewReceiptSafe(s, r);
      case FreeReceipt(r) => FreeReceiptSafe(s, r);
      case Cancel(r) => CancelSafe(s, r);
      case Start(job) => if !s.playing { ClaimSafe(s, job); }
      case MainStep(o) => if s.main.Starting? { StartSafe(s, o); } else { ServiceSafe(s, o); }
      case ServiceAmp => if s.warm { IdleServiceSafe(s, Next(s, a)); }
      case WorkerStep(o) => WorkerSafe(s, o);
    }
  }

  // ------------------------------------------------------------- amplifier

  lemma PrepareAmp(s: State, o: Oracle)
    requires InvClaim(s) && InvAmp(s) && Preparing(s.worker) && Enabled(s, WorkerStep(o))
    ensures InvAmp(Enact(s, PrepareMove(s, o)))
  {}

  lemma DisableAmp(s: State, o: Oracle)
    requires InvClaim(s) && InvAmp(s) && (s.worker.Disable? || s.worker.Disabled?) && Enabled(s, WorkerStep(o))
    ensures InvAmp(Enact(s, FinishMove(s, o)))
  {}

  predicate AmpSame(s: State, t: State) {
    t.amp == s.amp && t.warm == s.warm && t.main == s.main
  }

  /** No worker effect but these two reaches the amplifier, its warm flag or the main task. */
  lemma AmpUntouched(s: State, m: Move)
    requires !m.effect.SetWarm? && !m.effect.DriveAmp?
    ensures AmpSame(s, Enact(s, m)) && Enact(s, m).worker == m.pc
  {}

  lemma OtherMoves(s: State, o: Oracle)
    requires !Preparing(s.worker) && !s.worker.Disable? && !s.worker.Disabled?
    ensures var m := WorkerMove(s, o);
            !m.effect.SetWarm? && !m.effect.DriveAmp? && !m.pc.Disabled? && !MayBeOn(s.worker)
  {}

  lemma WorkerAmp(s: State, o: Oracle)
    requires InvClaim(s) && InvAmp(s) && Enabled(s, WorkerStep(o))
    ensures InvAmp(Next(s, WorkerStep(o)))
  {
    EnactAmp(s, o);
    hide Enact, WorkerMove, Asked;
  }

  lemma EnactAmp(s: State, o: Oracle)
    requires InvClaim(s) && InvAmp(s) && Enabled(s, WorkerStep(o))
    ensures InvAmp(Enact(s, WorkerMove(s, o)))
  {
    if Preparing(s.worker) {
      hide InvAmp, Enact, PrepareMove;
      PrepareAmp(s, o);
    } else if s.worker.Disable? || s.worker.Disabled? {
      hide InvAmp, Enact, FinishMove;
      DisableAmp(s, o);
    } else {
      hide Enact, WorkerMove;
      OtherMoves(s, o);
      AmpUntouched(s, WorkerMove(s, o));
    }
  }

  lemma MainAmp(s: State, o: Oracle)
    requires InvClaim(s) && InvAmp(s) && Enabled(s, MainStep(o)) && !s.main.Starting?
    ensures InvAmp(MainNext(s, o))
  {}

  /** Starting a job touches neither the amplifier nor the worker. */
  lemma FillLeavesAmp(s: State, o: Oracle)
    requires s.main.Starting? && Filling(s.main.stage)
    ensures var t := FillSlot(s, o);
            t.amp == s.amp && t.warm == s.warm && t.worker == s.worker && !t.main.TriedDisable?
  {
    match s.main.stage
    case SetCount =>
    case Copy(_) =>
    case Spawn =>
  }

  lemma HandOverLeavesAmp(s: State)
    requires s.main.Starting? && !Filling(s.main.stage)
    ensures var t := HandOver(s);
            t.amp == s.amp && t.warm == s.warm && t.worker == s.worker && !t.main.TriedDisable?
  {
    match s.main.stage
    case Install =>
    case Arm =>
    case Hand =>
    case Notify =>
  }

  lemma StartAmp(s: State, o: Oracle)
    requires InvAmp(s) && s.main.Starting?
    ensures InvAmp(StartStep(s, o))
  {
    hide FillSlot, HandOver;
    if Filling(s.main.stage) { FillLeavesAmp(s, o); } else { HandOverLeavesAmp(s); }
  }

  lemma StepAmp(s: State, a: Action)
    requires InvClaim(s) && InvAmp(s) && Enabled(s, a)
    ensures InvAmp(Next(s, a))
  {
    match a {
      case WorkerStep(o) => WorkerAmp(s, o);
      case MainStep(o) => if s.main.Starting? { StartAmp(s, o); } else { MainAmp(s, o); }
      case Cancel(r) => CancelAmp(s, r);
      case _ =>
    }
  }

  lemma CancelAmp(s: State, r: ReceiptId)
    requires InvAmp(s) && r in s.receipts
    ensures InvAmp(CancelStep(s, r))
  {}
}
