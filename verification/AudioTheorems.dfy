/**
 What holds in every reachable state of the audio job protocol, on every
 interleaving of the main loop, the worker and cancelling callers.
 */
module AudioTheorems {
  import opened Wrappers
  import opened AudioReceipt
  import opened AudioI2c
  import opened AudioProtocol
  import opened AudioInvariants

  lemma {:induction false} RunKeepsInvariants(s: State, actions: seq<Action>, t: State)
    requires Safe(s) && InvAmp(s) && Run(s, actions, t)
    ensures Safe(t) && InvAmp(t)
    decreases |actions|
  {
    if actions != [] {
      StepSafe(s, actions[0]);
      StepAmp(s, actions[0]);
      RunKeepsInvariants(Next(s, actions[0]), actions[1..], t);
    }
  }

  lemma ReachableIsSafe(t: State)
    requires Reachable(t)
    ensures Safe(t) && InvAmp(t)
  {
    var s, actions :| Init(s) && Run(s, actions, t);
    InitInv(s);
    RunKeepsInvariants(s, actions, t);
  }

  /** The log entry by which job j's receipt left the owned states. */
  predicate SettlesJob(t: State, i: int, j: JobId) {
    0 <= i < |t.log.accesses| && t.log.accesses[i].job == j && !Owned(t.log.accesses[i].after)
  }

  /**
   The worker follows only its own job's live receipt, while it is owned; the
   store that ends ownership is the job's last access; every finished job with
   a receipt has exactly one such store.
   */
  lemma ReceiptLifetime(t: State)
    requires Reachable(t)
    ensures forall i :: 0 <= i < |t.log.accesses| ==>
              var a := t.log.accesses[i];
              && a.live && Owned(a.before) && a.job < |t.log.accepted|
              && t.log.accepted[a.job].receipt == Some(a.receipt)
    ensures forall i, k, j :: SettlesJob(t, i, j) && i < k < |t.log.accesses| ==> t.log.accesses[k].job != j
    ensures |t.log.done| <= |t.log.accepted|
    ensures forall j :: 0 <= j < |t.log.done| && t.log.accepted[j].receipt.Some? ==>
              exists i {:trigger SettlesJob(t, i, j)} :: SettlesJob(t, i, j)
  {
    ReachableIsSafe(t);
    forall j | 0 <= j < |t.log.done| && t.log.accepted[j].receipt.Some?
      ensures exists i {:trigger SettlesJob(t, i, j)} :: SettlesJob(t, i, j)
    {
      var i :| 0 <= i < |t.log.accesses| && Settles(t.log.accesses[i], j, t.log.final[j]);
      assert SettlesJob(t, i, j);
    }
  }

  predicate ReceiptEffect(e: Effect) {
    e.LoadReceipt? || e.SwapReceipt? || e.StoreReceipt?
  }

  /** Whatever receipt the worker is about to touch is the one it holds. */
  lemma TouchesOnlyHeld(s: State, o: Oracle)
    requires Enabled(s, WorkerStep(o)) && ReceiptEffect(WorkerMove(s, o).effect)
    requires s.worker.Submit? || s.worker.Settle? || Cleaning(s.worker) || Closing(s.worker) ==> s.slot.None?
    ensures InJob(s) && Held(s) == Some(WorkerMove(s, o).effect.r)
  {}

  /**
   As soon as isOwned is false the caller may free or reuse the receipt: no
   worker step from here touches it.
   */
  lemma SettledReceiptIsFree(t: State, r: ReceiptId, o: Oracle)
    requires Reachable(t) && r in t.receipts && !Owned(t.receipts[r])
    requires Enabled(t, WorkerStep(o))
    ensures var accesses := Next(t, WorkerStep(o)).log.accesses;
            forall i :: |t.log.accesses| <= i < |accesses| ==> accesses[i].receipt != r
  {
    ReachableIsSafe(t);
    HeldIsOwned(t);
    LogAfterStep(t, o);
    hide Reachable, WorkerMove, Held, HistoryAfter, Next;
    var effect := WorkerMove(t, o).effect;
    AccessesAfter(t, effect);
    if ReceiptEffect(effect) { TouchesOnlyHeld(t, o); }
  }

  lemma HeldIsOwned(s: State)
    requires Safe(s)
    ensures Held(s).Some? ==> Held(s).value in s.receipts && Owned(s.receipts[Held(s).value])
    ensures s.worker.Submit? || s.worker.Settle? || Cleaning(s.worker) || Closing(s.worker) ==> s.slot.None?
  {
    hide OutcomeOk, AccessesOk, SettlesLogged, FinalOk, ParamsOk, ClipReadsOk;
  }

  /** Only a receipt effect adds to the log of accesses, and only an access to its receipt. */
  lemma AccessesAfter(s: State, e: Effect)
    ensures ReceiptEffect(e) ==>
              exists a: Access :: a.receipt == e.r && HistoryAfter(s, e).accesses == s.log.accesses + [a]
    ensures !ReceiptEffect(e) ==> HistoryAfter(s, e).accesses == s.log.accesses
  {
    if ReceiptEffect(e) {
      var a := Access(s.job, e.r, e.r in s.receipts, Peek(s, e.r), ReceiptAfter(s, e));
      assert HistoryAfter(s, e).accesses == s.log.accesses + [a];
    }
  }

  lemma LogAfterStep(s: State, o: Oracle)
    requires Enabled(s, WorkerStep(o))
    ensures var log := Next(s, WorkerStep(o)).log;
            && s.log.answers <= log.answers
            && log == HistoryAfter(s, WorkerMove(s, o).effect).(answers := log.answers)
  {
    AnswersKept(s, WorkerMove(s, o).effect);
    hide WorkerMove, HistoryAfter, Asked;
  }

  lemma AnswersKept(s: State, e: Effect)
    ensures HistoryAfter(s, e).answers == s.log.answers
  {}

  /**
   A cancellation that was granted means silence for good, and a finished
   job's final state tells exactly whether it was heard or cancelled.
   */
  lemma CancellationOrPcm(t: State, j: JobId)
    requires Reachable(t)
    ensures j in t.log.cancelled ==>
              && j !in t.log.pcm
              && (j in t.log.final ==> t.log.final[j] == CancelledBeforeStart)
    ensures |t.log.done| <= |t.log.accepted|
    ensures j < |t.log.done| && t.log.accepted[j].receipt.Some? ==>
              && j in t.log.final
              && (t.log.final[j] == Started <==> j in t.log.pcm)
              && (t.log.final[j] == CancelledBeforeStart <==> j in t.log.cancelled)
  {
    ReachableIsSafe(t);
    if j in t.log.cancelled && j < |t.log.runs| {
      CancelledHasReceipt(t, j);
    }
  }

  lemma CancelledHasReceipt(t: State, j: JobId)
    requires Safe(t) && j in t.log.cancelled && j < |t.log.runs|
    ensures t.log.accepted[j].receipt.Some?
  {
    if j in t.log.final {
      var i :| 0 <= i < |t.log.accesses| && Settles(t.log.accesses[i], j, t.log.final[j]);
    } else {
      assert CancelPending(t) == Some(j);
      assert InJob(t);
    }
  }

  /** Granted cancellations, PCM and final states are never taken back. */
  predicate Extends(log: History, log': History) {
    && log.cancelled <= log'.cancelled && log.pcm <= log'.pcm
    && log.accesses <= log'.accesses && log.accepted <= log'.accepted && log.done <= log'.done
    && log.answers <= log'.answers
    && forall j :: j in log.final ==> j in log'.final && log'.final[j] == log.final[j]
  }

  lemma EffectExtends(s: State, e: Effect)
    requires ReceiptEffect(e) ==> s.job !in s.log.final
    ensures Extends(s.log, HistoryAfter(s, e))
  {}

  lemma HistoryOnlyGrows(s: State, a: Action)
    requires Safe(s) && Enabled(s, a)
    ensures Extends(s.log, Next(s, a).log)
  {
    match a {
      case WorkerStep(o) =>
        var e := WorkerMove(s, o).effect;
        if ReceiptEffect(e) {
          TouchesOnlyHeld(s, o);
        }
        EffectExtends(s, e);
        LogAfterStep(s, o);
      case _ =>
        OthersExtend(s, a);
    }
  }

  lemma OthersExtend(s: State, a: Action)
    requires Enabled(s, a) && !a.WorkerStep?
    ensures Extends(s.log, Next(s, a).log)
  {
    AcceptExtends(s.log, Job([], None));
    hide Extends, AmpOutcome, MainNext;
    match a {
      case MainStep(o) => MainExtends(s, o);
      case Cancel(r) => CancelExtends(s, r);
      case _ =>
    }
  }

  lemma MainExtends(s: State, o: Oracle)
    ensures Extends(s.log, MainNext(s, o).log)
  {
    hide Extends, StartStep;
    if s.main.Starting? { StartLog(s, o); }
    AcceptExtends(s.log, if s.main.Starting? then s.main.job else Job([], None));
  }

  lemma StartLog(s: State, o: Oracle)
    requires s.main.Starting?
    ensures !s.main.stage.Notify? ==> StartStep(s, o).log == s.log
    ensures s.main.stage.Notify? ==> StartStep(s, o).log.accepted == s.log.accepted + [s.main.job]
    ensures s.main.stage.Notify? ==> StartStep(s, o).log == s.log.(accepted := StartStep(s, o).log.accepted)
  {
  }

  lemma CancelExtends(s: State, r: ReceiptId)
    requires r in s.receipts
    ensures Extends(s.log, CancelStep(s, r).log)
  {
    AcceptExtends(s.log, Job([], None));
    CancelledExtends(s.log, if r in s.owner then s.owner[r] else 0);
    hide Extends;
  }

  lemma CancelledExtends(log: History, j: JobId)
    ensures Extends(log, log.(cancelled := log.cancelled + {j}))
  {}

  lemma AcceptExtends(log: History, job: Job)
    ensures Extends(log, log) && Extends(log, log.(accepted := log.accepted + [job]))
  {}

  /** Whenever no job plays, an output that may be asserted is still owned by the idle service. */
  lemma IdleServiceOwnsAmplifier(t: State)
    requires Reachable(t)
    ensures !t.playing && t.amp.Asserted() ==> t.warm
  {
    ReachableIsSafe(t);
  }

  /**
   The slot, the parameters and the buffers belong to one job at a time; every
   accepted job runs exactly once, in order, on its own parameters; and a
   finishing worker clears only the handle its own job installed.
   */
  lemma OneJobAtATime(t: State)
    requires Reachable(t)
    ensures !(t.main.Starting? && InJob(t))
    ensures t.main.OwnsAmp? || t.main.TriedDisable? ==> !InJob(t) && !t.main.Starting? && t.notified == 0
    ensures forall i :: 0 <= i < |t.log.runs| ==> t.log.runs[i] == i
    ensures forall i :: 0 <= i < |t.log.done| ==> t.log.done[i] == i
    ensures |t.log.done| <= |t.log.runs| <= |t.log.accepted| <= |t.log.done| + 1
    ensures forall c :: c in t.log.clipReads ==>
              && c.job < |t.log.accepted| && c.index < |t.log.accepted[c.job].want|
              && var asked := t.log.accepted[c.job].want[c.index];
                 c.path == if |asked| <= 47 then asked else asked[..47]
    ensures t.worker == ClearHandle ==> t.handle == Some(t.job)
    ensures t.notified == 1 ==> t.handle == Some(|t.log.accepted| - 1)
    ensures !t.playing ==> |t.log.done| == |t.log.accepted| && t.handle == None
  {
    ReachableIsSafe(t);
  }

  // -------------------------------------------------- bounded completion

  /** Worker steps that remain, when no clip is longer than `longest`. */
  function StepsLeft(w: WorkerPc, count: nat, longest: nat): nat {
    match w
    case Idle => 0
    case ReleaseClaim => 1
    case ClearHandle => 2
    case StoreCancelled(_) => 3
    case Disabled(next, _) => if next.ToCancelled? then 4 else 9
    case Disable(next) => if next.ToCancelled? then 5 else 10
    case CancelCleanup(_) => 6
    case Settle(_, _) => 7
    case TakeSlot(_) => 8
    case KeepWarm => 9
    case Aborted(_) => 11
    case StartupFailed(_) => 11
    case NextChunk(i, left) => ClipSteps(i + 1, count, longest) + 7 * left + 1
    case ReadChunk(i, left) => ClipSteps(i + 1, count, longest) + 7 * left
    case ChunkVolume(i, left) => ClipSteps(i + 1, count, longest) + 7 * left + 5
    case ClaimPcm(i, left) => ClipSteps(i + 1, count, longest) + 7 * left + 4
    case Detach(i, left) => ClipSteps(i + 1, count, longest) + 7 * left + 3
    case Submit(i, left) => ClipSteps(i + 1, count, longest) + 7 * left + 2
    case NextClip(i) => ClipSteps(i, count, longest)
    case StatClip(i) => ClipSteps(i + 1, count, longest) + 7 * longest + 2
    case CheckAssets => ClipSteps(0, count, longest) + 1
    case MarkWarm => ClipSteps(0, count, longest) + 2
    case EnableAmp(a, _) => AttemptSteps(a, count, longest) + 3
    case StartVolume(a, _) => AttemptSteps(a, count, longest) + 5
    case BringUpCodec(a, _) => AttemptSteps(a, count, longest) + 7
    case BringUpI2s(a, _) => AttemptSteps(a, count, longest) + 9
    case Check(at, a, _) => AttemptSteps(a, count, longest) + CheckRank(at)
  }

  function CheckRank(at: CheckPoint): nat {
    match at
    case Top => 11 case AfterDelay => 10 case AfterI2s => 8 case AfterCodec => 6 case BeforeAmp => 4 case AfterAmp => 2
  }

  function ClipSteps(i: nat, count: nat, longest: nat): (n: nat)
    ensures n >= 12
  {
    12 + (if i < count then count - i else 0) * (7 * longest + 3)
  }

  function AttemptSteps(attempt: nat, count: nat, longest: nat): nat {
    ClipSteps(0, count, longest) + 2 + (if attempt < MAX_ATTEMPTS then MAX_ATTEMPTS - 1 - attempt else 0) * 12
  }

  lemma ClipStepsNext(i: nat, count: nat, longest: nat)
    requires i < count
    ensures ClipSteps(i, count, longest) == ClipSteps(i + 1, count, longest) + 7 * longest + 3
  {
    assert (count - i) * (7 * longest + 3) == (count - (i + 1)) * (7 * longest + 3) + (7 * longest + 3);
  }

  lemma PrepareProgress(s: State, o: Oracle, longest: nat)
    requires Preparing(s.worker)
    ensures StepsLeft(PrepareMove(s, o).pc, s.count, longest) < StepsLeft(s.worker, s.count, longest)
  {}

  /** From clip to clip, */
  lemma ClipProgress(s: State, o: Oracle, longest: nat)
    requires (s.worker.CheckAssets? || s.worker.NextClip? || s.worker.Aborted?)
    ensures StepsLeft(PlayMove(s, o).pc, s.count, longest) < StepsLeft(s.worker, s.count, longest)
  {
    if s.worker.NextClip? && s.worker.clip < s.count { ClipStepsNext(s.worker.clip, s.count, longest); }
    hide ClipSteps, Peek;
  }

  lemma StatProgress(s: State, o: Oracle, longest: nat)
    requires s.worker.StatClip? && o.size <= longest
    ensures StepsLeft(PlayMove(s, o).pc, s.count, longest) < StepsLeft(s.worker, s.count, longest)
  {
    hide ClipSteps;
  }

  /** from chunk to chunk, */
  lemma ReadProgress(s: State, o: Oracle, longest: nat)
    requires s.worker.NextChunk? || s.worker.ChunkVolume? || (s.worker.ReadChunk? && s.worker.left > 0)
    ensures StepsLeft(PlayMove(s, o).pc, s.count, longest) < StepsLeft(s.worker, s.count, longest)
  {
    hide ClipSteps, Peek;
  }

  /** and from the claim to the write. */
  lemma SubmitProgress(s: State, o: Oracle, longest: nat)
    requires s.worker.ClaimPcm? || s.worker.Detach? || s.worker.Submit?
    ensures StepsLeft(PlayMove(s, o).pc, s.count, longest) < StepsLeft(s.worker, s.count, longest)
  {
    hide ClipSteps, Peek;
  }

  lemma PlayProgress(s: State, o: Oracle, longest: nat)
    requires Playing(s.worker) && o.size <= longest && (s.worker.ReadChunk? ==> s.worker.left > 0)
    ensures StepsLeft(PlayMove(s, o).pc, s.count, longest) < StepsLeft(s.worker, s.count, longest)
  {
    hide PlayMove, StepsLeft;
    if s.worker.StatClip? { StatProgress(s, o, longest); }
    else if s.worker.ClaimPcm? || s.worker.Detach? || s.worker.Submit? { SubmitProgress(s, o, longest); }
    else if s.worker.NextChunk? || s.worker.ChunkVolume? || s.worker.ReadChunk? { ReadProgress(s, o, longest); }
    else { ClipProgress(s, o, longest); }
  }

  lemma FinishProgress(s: State, o: Oracle, longest: nat)
    requires InJob(s) && !Preparing(s.worker) && !Playing(s.worker)
    ensures StepsLeft(FinishMove(s, o).pc, s.count, longest) < StepsLeft(s.worker, s.count, longest)
  {}

  /** Every worker step of a job strictly approaches its end. */
  lemma WorkerProgress(s: State, o: Oracle, longest: nat)
    requires InJob(s) && (s.worker.ReadChunk? ==> s.worker.left > 0)
    requires o.size <= longest
    ensures StepsLeft(WorkerMove(s, o).pc, s.count, longest) < StepsLeft(s.worker, s.count, longest)
  {
    hide StepsLeft, PrepareMove, PlayMove, FinishMove;
    if Preparing(s.worker) { PrepareProgress(s, o, longest); }
    else if Playing(s.worker) { PlayProgress(s, o, longest); }
    else { FinishProgress(s, o, longest); }
  }

  function WorkerSteps(actions: seq<Action>): nat {
    if actions == [] then 0 else (if actions[0].WorkerStep? then 1 else 0) + WorkerSteps(actions[1..])
  }

  predicate ClipsWithin(actions: seq<Action>, longest: nat) {
    forall i :: 0 <= i < |actions| && actions[i].WorkerStep? ==> actions[i].o.size <= longest
  }

  lemma OthersLeaveJobAlone(s: State, a: Action)
    requires Safe(s) && InJob(s) && Enabled(s, a) && !a.WorkerStep?
    ensures Next(s, a).worker == s.worker && Next(s, a).count == s.count && Next(s, a).log.done == s.log.done
  {
    assert InvClaim(s);
    hide Safe, InvClaim, AmpOutcome;
  }

  lemma WorkerKeepsCount(s: State, o: Oracle)
    requires InJob(s) && Enabled(s, WorkerStep(o))
    ensures var t := Next(s, WorkerStep(o));
            t.count == s.count && t.worker == WorkerMove(s, o).pc && |t.log.done| >= |s.log.done|
    ensures Next(s, WorkerStep(o)).worker == Idle ==> |Next(s, WorkerStep(o)).log.done| > |s.log.done|
  {
    OnlyReleaseEnds(s, o);
    DoneAfter(s, WorkerMove(s, o).effect);
    hide WorkerMove, AmpOutcome, Asked, HistoryAfter;
  }

  lemma DoneAfter(s: State, e: Effect)
    ensures |HistoryAfter(s, e).done| == |s.log.done| + if e.ReleasePlaying? then 1 else 0
  {}

  lemma OnlyReleaseEnds(s: State, o: Oracle)
    requires InJob(s)
    ensures WorkerMove(s, o).pc == Idle ==> WorkerMove(s, o).effect == ReleasePlaying
  {}

  lemma {:induction false} DoneNeverShrinks(s: State, actions: seq<Action>, t: State)
    requires Safe(s) && Run(s, actions, t)
    ensures |s.log.done| <= |t.log.done|
    decreases |actions|
  {
    if actions != [] {
      StepSafe(s, actions[0]);
      HistoryOnlyGrows(s, actions[0]);
      DoneNeverShrinks(Next(s, actions[0]), actions[1..], t);
    }
  }

  /**
   A job cannot outlive its step budget, whatever the other task does in
   between: once the worker has taken that many steps, the job is done.
   */
  lemma {:induction false} JobFinishesWithinBudget(s: State, actions: seq<Action>, t: State, longest: nat)
    requires Safe(s) && InJob(s) && Run(s, actions, t) && ClipsWithin(actions, longest)
    ensures |t.log.done| > |s.log.done| ||
            WorkerSteps(actions) + StepsLeft(t.worker, t.count, longest) <= StepsLeft(s.worker, s.count, longest)
    decreases |actions|
  {
    if actions != [] {
      var a, s' := actions[0], Next(s, actions[0]);
      StepSafe(s, a);
      if a.WorkerStep? {
        WorkerProgress(s, a.o, longest);
        WorkerKeepsCount(s, a.o);
      } else {
        OthersLeaveJobAlone(s, a);
      }
      assert ClipsWithin(actions[1..], longest);
      if s'.worker == Idle {
        DoneNeverShrinks(s', actions[1..], t);
      } else {
        JobFinishesWithinBudget(s', actions[1..], t, longest);
      }
    }
  }

  // ----------------------------------------- what the main loop gets done

  /** Main steps that remain until a started request is handed over. */
  function StartLeft(stage: StartStage, want: nat): nat {
    match stage
    case SetCount => want + 7
    case Copy(i) => 6 + if i < want then want - i else 0
    case Spawn => 5
    case Install => 4
    case Arm => 3
    case Hand => 2
    case Notify => 1
  }

  const WORKING := Oracle(true, Ok, AmpPort(false, true), 0)

  /** With a worker to be had, each step brings a started request closer to being accepted. */
  lemma StartProgress(s: State)
    requires s.main.Starting?
    ensures var t := StartStep(s, WORKING);
            if s.main.stage.Notify? then
              && t.main == Free && t.log.accepted == s.log.accepted + [s.main.job]
              && t.notified == s.notified + 1 && t.worker == s.worker
            else
              && t.main.Starting? && t.main.job == s.main.job && t.log == s.log && t.notified == s.notified
              && t.worker == s.worker
              && StartLeft(t.main.stage, |s.main.job.want|) < StartLeft(s.main.stage, |s.main.job.want|)
  {
    hide FillSlot, HandOver;
    if Filling(s.main.stage) { FillProgress(s); } else { HandOverProgress(s); }
  }

  lemma FillProgress(s: State)
    requires s.main.Starting? && Filling(s.main.stage)
    ensures var t := FillSlot(s, WORKING);
            && t.main.Starting? && t.main.job == s.main.job && t.log == s.log && t.notified == s.notified
            && t.worker == s.worker
            && StartLeft(t.main.stage, |s.main.job.want|) < StartLeft(s.main.stage, |s.main.job.want|)
  {
    match s.main.stage
    case SetCount =>
    case Copy(_) =>
    case Spawn =>
  }

  lemma HandOverProgress(s: State)
    requires s.main.Starting? && !Filling(s.main.stage)
    ensures HandOver(s).worker == s.worker
    ensures s.main.stage.Notify? ==>
              && HandOver(s).main == Free && HandOver(s).notified == s.notified + 1
              && HandOver(s).log.accepted == s.log.accepted + [s.main.job]
    ensures !s.main.stage.Notify? ==>
              && HandOver(s).main == Starting(NextStage(s.main.stage), s.main.job)
              && HandOver(s).log == s.log && HandOver(s).notified == s.notified
    ensures !s.main.stage.Notify? ==>
              StartLeft(NextStage(s.main.stage), |s.main.job.want|) < StartLeft(s.main.stage, |s.main.job.want|)
  {
    if s.main.stage.Notify? { NotifyProgress(s); }
    else if s.main.stage.Arm? { ArmProgress(s); }
    else if s.main.stage.Install? { InstallProgress(s); }
    else { HandProgress(s); }
    hide HandOver;
  }

  lemma NotifyProgress(s: State)
    requires s.main.Starting? && s.main.stage.Notify?
    ensures var t := HandOver(s);
            && t.worker == s.worker && t.main == Free && t.notified == s.notified + 1
            && t.log.accepted == s.log.accepted + [s.main.job]
  {}

  lemma InstallProgress(s: State)
    requires s.main.Starting? && s.main.stage.Install?
    ensures var t := HandOver(s);
            && t.worker == s.worker && t.log == s.log && t.notified == s.notified
            && t.main == Starting(Arm, s.main.job)
  {}

  lemma HandProgress(s: State)
    requires s.main.Starting? && s.main.stage.Hand?
    ensures var t := HandOver(s);
            && t.worker == s.worker && t.log == s.log && t.notified == s.notified
            && t.main == Starting(Notify, s.main.job)
  {}

  function NextStage(stage: StartStage): StartStage {
    if stage == Install then Arm else if stage == Arm then Hand else Notify
  }

  lemma ArmProgress(s: State)
    requires s.main.Starting? && s.main.stage.Arm?
    ensures var t := HandOver(s);
            && t.worker == s.worker && t.job == s.job && t.log == s.log && t.notified == s.notified
            && t.main == Starting(Hand, s.main.job)
  {
    match s.main.job.receipt
    case None =>
    case Some(_) =>
  }

  /** So a request that won the claim is accepted, with the worker notified, by main steps alone. */
  lemma {:induction false} StartCompletes(s: State) returns (actions: seq<Action>, t: State)
    requires s.main.Starting?
    ensures Run(s, actions, t) && t.main == Free && t.log.accepted == s.log.accepted + [s.main.job]
    ensures t.notified == s.notified + 1 && t.worker == s.worker
    decreases StartLeft(s.main.stage, |s.main.job.want|)
  {
    StartProgress(s);
    hide StartStep, StartLeft;
    var next := StartStep(s, WORKING);
    assert Enabled(s, MainStep(WORKING)) && Next(s, MainStep(WORKING)) == next;
    if s.main.stage.Notify? {
      actions, t := [MainStep(WORKING)], next;
      assert Run(next, [], t);
      assert actions[1..] == [];
    } else {
      var rest;
      rest, t := StartCompletes(next);
      actions := [MainStep(WORKING)] + rest;
      assert actions[1..] == rest;
    }
  }

  /** A start is refused exactly while a job has the claim, and otherwise can always be brought to acceptance. */
  lemma StartIsDecided(s: State, job: Job) returns (actions: seq<Action>, t: State)
    requires Reachable(s) && Enabled(s, Start(job))
    ensures s.playing ==> Next(s, Start(job)) == s
    ensures !s.playing ==> Run(Next(s, Start(job)), actions, t) && t.log.accepted == s.log.accepted + [job]
    ensures !s.playing ==> t.notified == 1 && t.worker == Idle && t.main == Free
  {
    actions, t := [], s;
    if !s.playing {
      ReachableIsSafe(s);
      assert s.notified == 0 && s.worker == Idle;
      hide Safe, Run;
      actions, t := StartCompletes(Next(s, Start(job)));
    }
  }

  /** Idle service that finds a warm amplifier, no job and a working bus switches it off and no longer owns it. */
  lemma IdleServiceSwitchesOff(s: State, off: AmpPort) returns (t: State)
    requires s.main == Free && s.warm && !s.playing && AmpOutcome(s.amp, false, Ok, off)
    ensures var due := MainStep(Oracle(true, Ok, off, 0)); Run(s, [ServiceAmp, due, due, due], t)
    ensures !t.warm && !t.amp.Asserted() && t.main == Free && t.log == s.log
  {
    hide StartStep, Enact, WorkerMove;
    var due := MainStep(Oracle(true, Ok, off, 0));
    var s1 := s.(main := SawWarm);
    var s2, s3 := s.(main := OwnsAmp), s.(amp := off, main := TriedDisable(Ok));
    t := s.(amp := off, warm := false, main := Free);
    assert Enabled(s3, due) && Next(s3, due) == t;
    assert Enabled(s2, due) && Next(s2, due) == s3;
    assert Enabled(s1, due) && Next(s1, due) == s2;
    assert Enabled(s, ServiceAmp) && Next(s, ServiceAmp) == s1;
    hide Enabled, Next;
    assert Run(t, [], t);
    assert [due][1..] == [] && [due, due][1..] == [due] && [due, due, due][1..] == [due, due];
    assert Run(s3, [due], t);
    assert Run(s2, [due, due], t);
    assert Run(s1, [due, due, due], t);
    assert [ServiceAmp, due, due, due][1..] == [due, due, due];
  }
}
