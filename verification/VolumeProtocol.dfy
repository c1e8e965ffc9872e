/**
 The codec volume: a request that may change at any moment, applied by two
 tasks that share the I2C lock. Register 0x32 is written only by
 audio_apply_pending_volume once the codec is initialised; an initialisation
 attempt may reset it. A failed write leaves the register unchanged.
 */
module VolumeProtocol {
  import opened Wrappers

  datatype Task = Worker | Main

  /** audio_apply_pending_volume, one shared access per point. */
  datatype Pc =
    | Outside
    | LoadApplied
    | CompareRequest(seen: int)      // applied was read; the request is read next
    | WantLock
    | SampleRequest                  // the lock is held from here on
    | CompareApplied(request: nat)   // index of the sampled request
    | WriteRegister(request: nat)
    | StoreApplied(request: nat)
    | Recheck(request: nat)

  predicate InLock(pc: Pc) {
    pc.SampleRequest? || pc.CompareApplied? || pc.WriteRegister? || pc.StoreApplied? || pc.Recheck?
  }

  /** es8311_init, run by the worker only. */
  datatype Codec = Down | Resetting | Cleared | VolumeSet | Up

  datatype State = State(
    requests: seq<nat>,        // current_volume_percent is the last one
    applied: int,              // applied_volume_percent
    register: nat,             // ES8311 register 0x32
    codec: Codec,
    holder: Option<Task>,      // the I2C lock
    worker: Pc,
    main: Pc,
    writes: seq<nat>,          // requests whose level reached the register, oldest write first
    returned: Option<Outcome>  // how the latest call ended
  )

  datatype Outcome = Outcome(task: Task, ok: bool, fast: bool)

  datatype Action =
    | Request(level: nat)                  // the store in audio_set_volume
    | Call(task: Task)
    | Step(task: Task, ok: bool)           // ok: lock taken, or write acknowledged
    | BeginInit
    | ResetRegister(value: nat)            // an initialisation write disturbs the register
    | ClearApplied
    | FailInit
    | FinishInit

  const FULL: nat := 100

  predicate Init(s: State) {
    && s.requests == [75] && s.applied == -1 && s.codec == Down && s.holder == None
    && s.worker == Outside && s.main == Outside && s.writes == [] && s.returned == None
  }

  /** 0% mutes; 1..100% use the audible range 0x90..0xBF. */
  function Encode(level: nat): nat {
    if level == 0 then 0 else 0x90 + ((level - 1) * (0xBF - 0x90)) / 99
  }

  /** current_volume_percent */
  function Current(s: State): nat {
    if s.requests == [] then 0 else s.requests[|s.requests| - 1]
  }

  function PcOf(s: State, t: Task): Pc {
    if t == Worker then s.worker else s.main
  }

  function At(s: State, t: Task, pc: Pc): State {
    if t == Worker then s.(worker := pc) else s.(main := pc)
  }

  /** The worker's call from es8311_init decides whether initialisation goes on. */
  function Return(s: State, t: Task, ok: bool, fast: bool): State {
    var codec := if s.codec == Cleared then (if ok then VolumeSet else Down) else s.codec;
    At(s.(codec := codec, returned := Some(Outcome(t, ok, fast)),
          holder := if s.holder == Some(t) then None else s.holder), t, Outside)
  }

  function Advance(s: State, t: Task, ok: bool): State {
    match PcOf(s, t)
    case Outside => s
    case LoadApplied => At(s, t, CompareRequest(s.applied))
    case CompareRequest(seen) => if seen == Current(s) then Return(s, t, true, true) else At(s, t, WantLock)
    case WantLock =>
      if ok && s.holder.None? then At(s.(holder := Some(t)), t, SampleRequest) else Return(s, t, false, false)
    case SampleRequest => At(s, t, CompareApplied(if s.requests == [] then 0 else |s.requests| - 1))
    case CompareApplied(k) =>
      At(s, t, if k < |s.requests| && s.applied == s.requests[k] then Recheck(k) else WriteRegister(k))
    case WriteRegister(k) =>
      if ok && k < |s.requests|
      then At(s.(register := Encode(s.requests[k]), writes := s.writes + [k]), t, StoreApplied(k))
      else Return(s, t, false, false)
    case StoreApplied(k) => At(if k < |s.requests| then s.(applied := s.requests[k]) else s, t, Recheck(k))
    case Recheck(k) => Return(s, t, k < |s.requests| && Current(s) == s.requests[k], false)
  }

  predicate Enabled(s: State, a: Action) {
    && s.requests != []
    && match a
       case Request(_) => true
       case Call(t) => PcOf(s, t) == Outside && (s.codec == Up || (s.codec == Cleared && t == Worker))
       case Step(t, _) => PcOf(s, t) != Outside
       case BeginInit => s.codec == Down && s.worker == Outside
       case ResetRegister(_) => s.codec == Resetting
       case ClearApplied => s.codec == Resetting
       case FailInit => (s.codec == Resetting || s.codec == VolumeSet) && s.worker == Outside
       case FinishInit => s.codec == VolumeSet
  }

  function Next(s: State, a: Action): State
    requires Enabled(s, a)
  {
    match a
    case Request(level) => s.(requests := s.requests + [if level > FULL then FULL else level])
    case Call(t) => At(s, t, LoadApplied)
    case Step(t, ok) => Advance(s, t, ok)
    case BeginInit => s.(codec := Resetting)
    case ResetRegister(value) => s.(register := value)
    case ClearApplied => s.(applied := -1, codec := Cleared)
    case FailInit => s.(codec := Down)
    case FinishInit => s.(codec := Up)
  }

  ghost predicate Run(s: State, actions: seq<Action>, t: State)
    decreases |actions|
  {
    if actions == [] then s == t
    else Enabled(s, actions[0]) && Run(Next(s, actions[0]), actions[1..], t)
  }

  ghost predicate Reachable(t: State) {
    exists s, actions :: Init(s) && Run(s, actions, t)
  }

  // ------------------------------------------------------------ invariants

  predicate Live(codec: Codec) { codec == Cleared || codec == VolumeSet || codec == Up }

  /** The request whose level is in the register but not yet in applied_volume_percent. */
  function Unstored(s: State): Option<nat> {
    if s.worker.StoreApplied? then Some(s.worker.request)
    else if s.main.StoreApplied? then Some(s.main.request)
    else None
  }

  /** The sampled request of a task inside the lock. */
  predicate SampleOk(s: State, pc: Pc) {
    && (pc.CompareApplied? || pc.WriteRegister? || pc.StoreApplied? || pc.Recheck? ==>
          pc.request < |s.requests| && forall i :: 0 <= i < |s.writes| ==> s.writes[i] <= pc.request)
    && (pc.Recheck? ==> s.applied == s.requests[pc.request])
  }

  predicate Sorted(writes: seq<nat>) {
    forall i, j :: 0 <= i < j < |writes| ==> writes[i] <= writes[j]
  }

  /** A write has landed since applied_volume_percent was cleared. */
  predicate Written(s: State) {
    s.codec == VolumeSet || s.codec == Up || (s.codec == Cleared && (s.applied >= 0 || s.worker.StoreApplied?))
  }

  /** The request whose write landed last. */
  function LastWrite(s: State): nat {
    if s.writes == [] then 0 else s.writes[|s.writes| - 1]
  }

  /** The register holds what landed last, stored in applied_volume_percent or not. */
  predicate RegisterOk(s: State) {
    Written(s) ==>
      s.writes != [] && LastWrite(s) < |s.requests| && s.register == Encode(s.requests[LastWrite(s)])
  }

  predicate Inv(s: State) {
    && RegisterOk(s)
    && s.requests != [] && (forall i :: 0 <= i < |s.requests| ==> s.requests[i] <= FULL)
    && (s.holder == Some(Worker) <==> InLock(s.worker)) && (s.holder == Some(Main) <==> InLock(s.main))
    && (s.main != Outside ==> s.codec == Up)
    && (s.worker != Outside ==> s.codec == Cleared || s.codec == Up)
    && (s.codec == Cleared && s.worker.CompareRequest? ==> s.worker.seen == s.applied)
    && (s.codec == VolumeSet || s.codec == Up ==> s.applied >= 0)
    && SampleOk(s, s.worker) && SampleOk(s, s.main)
    && Sorted(s.writes) && (forall i :: 0 <= i < |s.writes| ==> s.writes[i] < |s.requests|)
    && (Live(s.codec) && Unstored(s).None? && s.applied >= 0 ==> s.register == Encode(s.applied))
    && (Live(s.codec) && Unstored(s).Some? && Unstored(s).value < |s.requests| ==>
          s.register == Encode(s.requests[Unstored(s).value]))
  }

  lemma ReturnKeeps(s: State, t: Task, ok: bool, fast: bool)
    requires Inv(s) && PcOf(s, t) != Outside && !PcOf(s, t).StoreApplied? && (ok ==> s.applied >= 0 || s.codec == Up)
    ensures Inv(Return(s, t, ok, fast))
  {
    hide Encode, Sorted;
  }

  /** The accesses outside the lock, */
  lemma UnlockedKeeps(s: State, t: Task, ok: bool)
    requires Inv(s) && (PcOf(s, t).LoadApplied? || PcOf(s, t).CompareRequest?)
    ensures Inv(Advance(s, t, ok))
  {
    hide Encode, Sorted;
    if PcOf(s, t).CompareRequest? && PcOf(s, t).seen == Current(s) { ReturnKeeps(s, t, true, true); }
  }

  /** and taking it. */
  lemma LockKeeps(s: State, t: Task, ok: bool)
    requires Inv(s) && PcOf(s, t).WantLock?
    ensures Inv(Advance(s, t, ok))
  {
    hide Encode, Sorted;
    ReturnKeeps(s, t, false, false);
  }

  lemma SampleKeeps(s: State, t: Task, ok: bool)
    requires Inv(s) && (PcOf(s, t).SampleRequest? || PcOf(s, t).CompareApplied?)
    ensures Inv(Advance(s, t, ok))
  {
    hide Encode, Sorted;
  }

  lemma RecheckKeeps(s: State, t: Task, ok: bool)
    requires Inv(s) && PcOf(s, t).Recheck?
    ensures Inv(Advance(s, t, ok))
  {
    hide Encode, Sorted;
    ReturnKeeps(s, t, true, false);
    ReturnKeeps(s, t, false, false);
  }

  lemma WriteKeeps(s: State, t: Task, ok: bool)
    requires Inv(s) && PcOf(s, t).WriteRegister?
    ensures Inv(Advance(s, t, ok))
  {
    ReturnKeeps(s, t, false, false);
  }

  lemma StoreKeeps(s: State, t: Task, ok: bool)
    requires Inv(s) && PcOf(s, t).StoreApplied?
    ensures Inv(Advance(s, t, ok))
  {
    hide Encode, Sorted;
  }

  lemma AdvanceKeeps(s: State, t: Task, ok: bool)
    requires Inv(s) && PcOf(s, t) != Outside
    ensures Inv(Advance(s, t, ok))
  {
    hide Inv, Advance;
    match PcOf(s, t) {
      case WriteRegister(_) => WriteKeeps(s, t, ok);
      case StoreApplied(_) => StoreKeeps(s, t, ok);
      case SampleRequest => SampleKeeps(s, t, ok);
      case CompareApplied(_) => SampleKeeps(s, t, ok);
      case Recheck(_) => RecheckKeeps(s, t, ok);
      case WantLock => LockKeeps(s, t, ok);
      case _ => UnlockedKeeps(s, t, ok);
    }
  }

  lemma StepKeeps(s: State, a: Action)
    requires Inv(s) && Enabled(s, a)
    ensures Inv(Next(s, a))
  {
    if a.Step? { AdvanceKeeps(s, a.task, a.ok); }
  }

  lemma {:induction false} RunKeeps(s: State, actions: seq<Action>, t: State)
    requires Inv(s) && Run(s, actions, t)
    ensures Inv(t)
    decreases |actions|
  {
    if actions != [] {
      StepKeeps(s, actions[0]);
      RunKeeps(Next(s, actions[0]), actions[1..], t);
    }
  }

  lemma ReachableInv(t: State)
    requires Reachable(t)
    ensures Inv(t)
  {
    var s, actions :| Init(s) && Run(s, actions, t);
    RunKeeps(s, actions, t);
  }

  // -------------------------------------------------------------- theorems

  /** On every interleaving the register receives requests in the order they were made. */
  lemma WritesNeverGoBack(t: State)
    requires Reachable(t)
    ensures forall i, j :: 0 <= i < j < |t.writes| ==> t.writes[i] <= t.writes[j] < |t.requests|
  {
    ReachableInv(t);
  }

  /** Once the codec is up, every change of the register is one of those logged writes. */
  lemma RegisterChangesAreWrites(s: State, a: Action)
    requires Reachable(s) && s.codec == Up && Enabled(s, a)
    ensures var t := Next(s, a);
            || (t.register == s.register && t.writes == s.writes)
            || exists k: nat :: k < |s.requests| && t.writes == s.writes + [k] && t.register == Encode(s.requests[k])
  {
    ReachableInv(s);
    if a.Step? && PcOf(s, a.task).WriteRegister? && a.ok {
      var k := PcOf(s, a.task).request;
      assert Next(s, a).writes == s.writes + [k] && Next(s, a).register == Encode(s.requests[k]);
    }
  }

  /** With the codec up and the bus lock free, applied_volume_percent tells the register's level. */
  lemma RegisterEncodesApplied(t: State)
    requires Reachable(t) && t.codec == Up && t.holder == None
    ensures t.applied >= 0 && t.register == Encode(t.applied)
  {
    ReachableInv(t);
  }

  /** A call that took the lock reports Ok only while the register holds the current request. */
  lemma LockedOkIsCurrent(s: State, t: Task, ok: bool)
    requires Reachable(s) && PcOf(s, t).Recheck?
    requires Advance(s, t, ok).returned == Some(Outcome(t, true, false))
    ensures s.applied == Current(s) && s.register == Encode(Current(s))
  {
    ReachableInv(s);
  }

  /** No action of task t itself. */
  predicate OthersOnly(actions: seq<Action>, t: Task) {
    forall i :: 0 <= i < |actions| ==> !(actions[i].Step? && actions[i].task == t)
  }

  /** Between the two unlocked reads of task t anything may happen to the rest. */
  lemma {:induction false} Interference(s: State, t: Task, seen: int, actions: seq<Action>, s': State)
    requires Inv(s) && s.codec == Up && PcOf(s, t) == CompareRequest(seen)
    requires Run(s, actions, s') && OthersOnly(actions, t)
    ensures Inv(s') && s'.codec == Up && PcOf(s', t) == CompareRequest(seen)
    ensures s.requests <= s'.requests && s.writes <= s'.writes
    ensures s'.writes == s.writes ==> s'.register == s.register
    decreases |actions|
  {
    hide Inv;
    if actions != [] {
      var m := Next(s, actions[0]);
      StepKeeps(s, actions[0]);
      InterferenceStep(s, t, actions[0]);
      assert OthersOnly(actions[1..], t);
      Interference(m, t, seen, actions[1..], s');
    }
  }

  lemma InterferenceStep(s: State, t: Task, a: Action)
    requires Enabled(s, a) && s.codec == Up && PcOf(s, t).CompareRequest? && !(a.Step? && a.task == t)
    ensures var m := Next(s, a);
            && m.codec == Up && PcOf(m, t) == PcOf(s, t) && s.requests <= m.requests && s.writes <= m.writes
            && (m.writes == s.writes ==> m.register == s.register)
  {}

  /**
   Exactly when the unlocked Ok is right. Task t reads applied_volume_percent in
   state s and finds it equal to the request in a later state s', with any
   interference in between. The answer is right exactly if the last write to land
   in between encodes like the level seen; with none in between, if a write that
   had landed but was not yet stored at the first read does.
   */
  lemma UnlockedOkExactly(s: State, t: Task, ok: bool, actions: seq<Action>, s': State)
    requires Reachable(s) && s.codec == Up && PcOf(s, t).LoadApplied?
    requires Run(Advance(s, t, ok), actions, s') && OthersOnly(actions, t)
    requires s.applied == Current(s')
    ensures Advance(s', t, true).returned == Some(Outcome(t, true, true))
    ensures s.writes <= s'.writes && LastWrite(s') < |s'.requests|
    ensures Unstored(s).Some? ==> Unstored(s).value < |s'.requests|
    ensures s'.register == Encode(Current(s')) <==>
              if s'.writes != s.writes then Encode(s'.requests[LastWrite(s')]) == Encode(s.applied)
              else Unstored(s).Some? ==> Encode(s'.requests[Unstored(s).value]) == Encode(s.applied)
  {
    ReachableInv(s);
    var m := Advance(s, t, ok);
    AdvanceKeeps(s, t, ok);
    Interference(m, t, s.applied, actions, s');
    assert RegisterOk(s');
  }

  /** So it is right whenever no write lands in between and none was unstored at the first read. */
  lemma UndisturbedOkIsCurrent(s: State, t: Task, ok: bool, actions: seq<Action>, s': State)
    requires Reachable(s) && s.codec == Up && PcOf(s, t).LoadApplied? && Unstored(s).None?
    requires Run(Advance(s, t, ok), actions, s') && OthersOnly(actions, t)
    requires s'.writes == s.writes && s.applied == Current(s')
    ensures Advance(s', t, true).returned == Some(Outcome(t, true, true)) && s'.register == Encode(Current(s'))
  {
    UnlockedOkExactly(s, t, ok, actions, s');
  }

  lemma {:induction false} RunAppend(s: State, actions: seq<Action>, m: State, a: Action)
    requires Run(s, actions, m) && Enabled(m, a)
    ensures Run(s, actions + [a], Next(m, a))
    decreases |actions|
  {
    if actions == [] {
      assert ([] + [a])[0] == a && ([] + [a])[1..] == [];
    } else {
      RunAppend(Next(s, actions[0]), actions[1..], m, a);
      assert (actions + [a])[1..] == actions[1..] + [a];
    }
  }

  lemma ReachStep(m: State, a: Action)
    requires Reachable(m) && Enabled(m, a)
    ensures Reachable(Next(m, a))
  {
    var s, actions :| Init(s) && Run(s, actions, m);
    RunAppend(s, actions, m, a);
  }

  /** A call that finds an unapplied request and takes the lock for it. */
  lemma CallLocks(s: State, t: Task) returns (s': State)
    requires Reachable(s) && s.requests != [] && s.holder == None && PcOf(s, t) == Outside
    requires s.codec == Up || (s.codec == Cleared && t == Worker)
    requires s.applied != Current(s)
    ensures Reachable(s') && s' == At(s.(holder := Some(t)), t, CompareApplied(|s.requests| - 1))
  {
    ReachStep(s, Call(t));
    var s1 := At(s, t, LoadApplied);
    ReachStep(s1, Step(t, true));
    var s2 := At(s, t, CompareRequest(s.applied));
    ReachStep(s2, Step(t, true));
    var s3 := At(s, t, WantLock);
    ReachStep(s3, Step(t, true));
    var s4 := At(s.(holder := Some(t)), t, SampleRequest);
    ReachStep(s4, Step(t, true));
    s' := At(s.(holder := Some(t)), t, CompareApplied(|s.requests| - 1));
  }

  /** The same call, up to the acknowledged write. */
  lemma CallReachesStore(s: State, t: Task, w: State) returns (s': State)
    requires Reachable(s) && s.requests != [] && s.holder == None && PcOf(s, t) == Outside
    requires s.codec == Up || (s.codec == Cleared && t == Worker)
    requires s.applied != Current(s)
    requires w == s.(holder := Some(t), register := Encode(Current(s)), writes := s.writes + [|s.requests| - 1])
    ensures Reachable(s') && s' == At(w, t, StoreApplied(|s.requests| - 1))
  {
    hide Reachable;
    var k := |s.requests| - 1;
    var s5 := CallLocks(s, t);
    ReachStep(s5, Step(t, true));
    var s6 := At(s.(holder := Some(t)), t, WriteRegister(k));
    ReachStep(s6, Step(t, true));
    s' := At(w, t, StoreApplied(k));
  }

  /** The same call, carried through to its return. */
  lemma CallWrites(s: State, t: Task) returns (s': State)
    requires Reachable(s) && s.requests != [] && s.holder == None && PcOf(s, t) == Outside
    requires s.codec == Up || (s.codec == Cleared && t == Worker)
    requires s.applied != Current(s)
    ensures Reachable(s')
    ensures s' == Return(s.(applied := Current(s), register := Encode(Current(s)), holder := Some(t),
                            writes := s.writes + [|s.requests| - 1]), t, true, false)
  {
    hide Reachable;
    var k := |s.requests| - 1;
    var w := s.(holder := Some(t), register := Encode(Current(s)), writes := s.writes + [k]);
    var s7 := CallReachesStore(s, t, w);
    ReachStep(s7, Step(t, true));
    var s8 := At(w.(applied := Current(s)), t, Recheck(k));
    ReachStep(s8, Step(t, true));
    s' := Next(s8, Step(t, true));
  }

  /** A freshly initialised codec at the default level. */
  lemma CodecComesUp() returns (s: State)
    ensures Reachable(s) && s.codec == Up && s.holder == None && s.worker == Outside && s.main == Outside
    ensures s.requests == [75] && s.applied == 75 && s.register == Encode(75)
  {
    var s0 := State([75], -1, 0, Down, None, Outside, Outside, [], None);
    assert Run(s0, [], s0);
    ReachStep(s0, BeginInit);
    var s1 := s0.(codec := Resetting);
    ReachStep(s1, ClearApplied);
    var s2 := s0.(codec := Cleared);
    var s3 := CallWrites(s2, Worker);
    ReachStep(s3, FinishInit);
    s := Next(s3, FinishInit);
  }

  /**
   The unlocked comparison can report Ok over a stale register: the worker
   sees 75 applied, the main loop applies 50 and then asks for 75 again, and
   the worker's second read matches.
   */
  lemma UnlockedOkCanBeStale() returns (s: State)
    ensures Reachable(s) && s.codec == Up && s.holder == None
    ensures s.worker == CompareRequest(75) && Current(s) == 75
    ensures s.register == Encode(50) != Encode(Current(s))
  {
    var s0 := CodecComesUp();
    ReachStep(s0, Call(Worker));
    var s1 := s0.(worker := LoadApplied);
    ReachStep(s1, Step(Worker, true));
    var s2 := s0.(worker := CompareRequest(75));
    ReachStep(s2, Request(50));
    var s3 := s2.(requests := s2.requests + [50]);
    var s4 := CallWrites(s3, Main);
    ReachStep(s4, Request(75));
    s := Next(s4, Request(75));
  }

  /**
   It can also be stale with the two reads back to back: the worker has written
   50 and not yet stored it when the main loop is asked for 75 again, which is
   what applied_volume_percent still says.
   */
  lemma BackToBackOkCanBeStale() returns (s: State, s': State)
    ensures Reachable(s) && s.codec == Up && s.main == LoadApplied
    ensures s' == Advance(s, Main, true) && Advance(s', Main, true).returned == Some(Outcome(Main, true, true))
    ensures s'.applied == Current(s') == 75 && s'.register == Encode(50) != Encode(Current(s'))
  {
    hide Reachable;
    var s0 := CodecComesUp();
    ReachStep(s0, Request(50));
    var s1 := s0.(requests := s0.requests + [50]);
    var w := s1.(holder := Some(Worker), register := Encode(50), writes := s1.writes + [1]);
    var s2 := CallReachesStore(s1, Worker, w);
    ReachStep(s2, Request(75));
    var s3 := s2.(requests := s2.requests + [75]);
    ReachStep(s3, Call(Main));
    s := s3.(main := LoadApplied);
    s' := Advance(s, Main, true);
  }

  /** A request is taken at once, cut to 100, and waits for nobody. */
  lemma RequestIsCurrent(s: State, level: nat)
    requires Enabled(s, Request(level))
    ensures var t := Next(s, Request(level));
            && Current(t) == (if level > 100 then 100 else level)
            && t == s.(requests := t.requests) && s.requests <= t.requests
  {}

  /** Louder requests never encode lower; 0 mutes and 1..100 span 0x90..0xBF. */
  lemma EncodeMonotone(a: nat, b: nat)
    requires a <= b <= FULL
    ensures Encode(a) <= Encode(b) <= 0xBF
    ensures 0 < a ==> Encode(a) >= 0x90
    ensures Encode(0) == 0 && Encode(1) == 0x90 && Encode(FULL) == 0xBF
  {}
}
