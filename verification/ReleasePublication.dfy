/**
 decide_publication, and publish_release as steps of competing runs over a shared
 remote: atomic pushes whose replies may be lost, git commands that may fail, and
 a main branch that moves on.
 */
module ReleasePublication {
  import opened Wrappers

  // ------------------------------------------------------------------ git

  /** A commit is determined by its content, its ancestors included. */
  datatype Commit = Commit(id: nat, parents: seq<Commit>)

  predicate Ancestor(a: Commit, c: Commit)
    decreases c
  {
    a == c || exists i :: 0 <= i < |c.parents| && Ancestor(a, c.parents[i])
  }

  lemma {:induction false} AncestorTransitive(a: Commit, b: Commit, c: Commit)
    requires Ancestor(a, b) && Ancestor(b, c)
    ensures Ancestor(a, c)
    decreases c
  {
    if b != c {
      var i :| 0 <= i < |c.parents| && Ancestor(b, c.parents[i]);
      AncestorTransitive(a, b, c.parents[i]);
    }
  }

  type TagName = string

  /** An annotated tag and the run ID in its message. */
  datatype Tag = Tag(target: Commit, runId: nat)

  type Tags = map<TagName, Tag>

  datatype Remote = Remote(main: Commit, tags: Tags)

  // -------------------------------------------------------- the pure decision

  datatype Action = AttemptPublish | Published | Reuse | Recover | SkipMainAdvanced | Fail

  datatype Decision = Decision(action: Action, published: bool)

  datatype Facts = Facts(
    release: Commit, base: Commit, head: Commit, dirty: bool, remoteMain: Commit,
    existingTag: Option<Commit>, existingMarker: bool,
    pushAttempted: bool, pushSucceeded: bool,
    updatedMain: Option<Commit>, updatedTag: Option<Commit>,
    releaseOnMain: bool, updatedMarker: bool)

  function Decide(f: Facts): Decision {
    if f.head != f.release then Decision(Fail, false)
    else if f.dirty then Decision(Fail, false)
    else if f.existingTag.Some? then
      if f.existingTag.value != f.release then Decision(Fail, false)
      else if !f.existingMarker then Decision(Fail, false)
      else Decision(Reuse, true)
    else if f.remoteMain != f.base then Decision(SkipMainAdvanced, false)
    else if !f.pushAttempted then Decision(AttemptPublish, false)
    else if f.pushSucceeded then Decision(Published, true)
    else if f.updatedTag == Some(f.release) && f.releaseOnMain then
      if !f.updatedMarker then Decision(Fail, false) else Decision(Recover, true)
    else if f.updatedMain != Some(f.base) then Decision(SkipMainAdvanced, false)
    else Decision(Fail, false)
  }

  /** A snapshot shows the release out under this run's marker. */
  predicate ShowsPublished(f: Facts) {
    || (f.existingTag == Some(f.release) && f.existingMarker)
    || (f.existingTag.None? && f.remoteMain == f.base && f.pushAttempted
        && (f.pushSucceeded || (f.updatedTag == Some(f.release) && f.releaseOnMain && f.updatedMarker)))
  }

  /** A checkout from which a release may go out, with no tag for it yet and main where it was. */
  predicate MayPublish(f: Facts) {
    f.head == f.release && !f.dirty && f.existingTag.None? && f.remoteMain == f.base
  }

  /** After a failed push, the tag has reached the release commit on main. */
  predicate Arrived(f: Facts) {
    f.updatedTag == Some(f.release) && f.releaseOnMain
  }

  /**
   Each action, exactly: published reports on clean checkouts whose facts show it;
   an attempt when nothing stands in its way; a skip when main has moved on, before
   the push or during it; and a failure in every case left.
   */
  lemma DecidePublishedExactly(f: Facts)
    ensures Decide(f).published <==> f.head == f.release && !f.dirty && ShowsPublished(f)
    ensures Decide(f).published <==> Decide(f).action in {Published, Reuse, Recover}
    ensures Decide(f).action == Reuse <==>
              f.head == f.release && !f.dirty && f.existingTag == Some(f.release) && f.existingMarker
    ensures Decide(f).action == AttemptPublish <==> MayPublish(f) && !f.pushAttempted
    ensures Decide(f).action == Published <==> MayPublish(f) && f.pushAttempted && f.pushSucceeded
    ensures Decide(f).action == Recover <==>
              MayPublish(f) && f.pushAttempted && !f.pushSucceeded && Arrived(f) && f.updatedMarker
    ensures Decide(f).action == SkipMainAdvanced <==>
              && f.head == f.release && !f.dirty && f.existingTag.None?
              && (f.remoteMain != f.base ||
                  (f.pushAttempted && !f.pushSucceeded && !Arrived(f) && f.updatedMain != Some(f.base)))
    ensures Decide(f).action == Fail <==>
              || f.head != f.release || f.dirty
              || (f.existingTag.Some? && !(f.existingTag == Some(f.release) && f.existingMarker))
              || (MayPublish(f) && f.pushAttempted && !f.pushSucceeded &&
                  if Arrived(f) then !f.updatedMarker else f.updatedMain == Some(f.base))
  {
  }

  // ------------------------------------------------------------ runs as steps

  datatype Job = Job(release: Commit, base: Commit, tag: TagName, runId: nat, head: Commit, dirty: bool)

  /**
   Where a run is. Reported: it wrote its outputs. Refused: the decision failed it.
   Broken: a git command failed and nothing was reported.
   */
  datatype Phase = Start | FetchMain | FetchTags | Choose | MakeTag | Push
                 | RefetchMain | RefetchTags | Lookup | Judge(updatedTag: Option<Commit>)
                 | Reported(published: bool) | Refused | Broken

  datatype Run = Run(job: Job, phase: Phase, originMain: Commit, tags: Tags, pushes: nat)

  /** split: the refetch and the tag lookup after a push are separate observations. */
  datatype World = World(remote: Remote, runs: seq<Run>, split: bool)

  datatype Choice = Choice(breaks: bool, followed: Tags, arrives: bool, replied: bool, atOnce: bool)

  datatype Event = External(remote: Remote) | Act(i: nat, choice: Choice)

  function OwnTag(j: Job): Tag { Tag(j.release, j.runId) }

  predicate Owns(remote: Remote, j: Job) {
    j.tag in remote.tags && remote.tags[j.tag] == OwnTag(j)
  }

  function Target(tags: Tags, name: TagName): Option<Commit> {
    if name in tags then Some(tags[name].target) else None
  }

  /** marker_matches looks at the local tag. */
  predicate MarkerMatches(r: Run) {
    r.job.tag in r.tags && r.tags[r.job.tag].runId == r.job.runId
  }

  function PreFacts(r: Run): Facts {
    var j := r.job;
    Facts(j.release, j.base, j.head, j.dirty, r.originMain, Target(r.tags, j.tag), MarkerMatches(r),
          false, false, None, None, false, false)
  }

  function ReplyFacts(r: Run): Facts {
    var j := r.job;
    Facts(j.release, j.base, j.head, j.dirty, j.base, None, false, true, true, None, None, false, false)
  }

  function PostFacts(r: Run, updatedTag: Option<Commit>): Facts {
    var j := r.job;
    Facts(j.release, j.base, j.head, j.dirty, j.base, None, false, true, false,
          Some(r.originMain), updatedTag, Ancestor(j.release, r.originMain), updatedTag.Some? && MarkerMatches(r))
  }

  function Conclude(d: Decision): Phase {
    match d.action
    case AttemptPublish => MakeTag
    case Fail => Refused
    case _ => Reported(d.published)
  }

  /** The remote takes both refs of the atomic push or neither. */
  predicate Accepts(remote: Remote, j: Job) {
    Ancestor(remote.main, j.head) && (j.tag in remote.tags ==> remote.tags[j.tag] == OwnTag(j))
  }

  function PushedTo(remote: Remote, j: Job): Remote {
    Remote(j.head, remote.tags[j.tag := OwnTag(j)])
  }

  predicate Lands(remote: Remote, r: Run, c: Choice) {
    r.phase.Push? && !c.breaks && c.arrives && Accepts(remote, r.job)
  }

  function NextRun(remote: Remote, split: bool, r: Run, c: Choice): Run {
    if c.breaks then r.(phase := Broken)
    else match r.phase
      case Start =>
        if r.job.head != r.job.release || r.job.dirty then r.(phase := Conclude(Decide(PreFacts(r))))
        else r.(phase := FetchMain)
      case FetchMain => r.(phase := FetchTags, originMain := remote.main, tags := r.tags + c.followed)
      case FetchTags => r.(phase := Choose, tags := r.tags + remote.tags)
      case Choose => r.(phase := Conclude(Decide(PreFacts(r))))
      case MakeTag => r.(phase := Push, tags := r.tags[r.job.tag := OwnTag(r.job)])
      case Push =>
        r.(pushes := r.pushes + 1,
           phase := if Lands(remote, r, c) && c.replied then Conclude(Decide(ReplyFacts(r))) else RefetchMain)
      case RefetchMain =>
        if split && !c.atOnce then r.(phase := RefetchTags, originMain := remote.main, tags := r.tags + c.followed)
        else r.(phase := Judge(Target(remote.tags, r.job.tag)), originMain := remote.main, tags := r.tags + remote.tags)
      case RefetchTags => r.(phase := Lookup, tags := r.tags + remote.tags)
      case Lookup => r.(phase := Judge(Target(remote.tags, r.job.tag)))
      case Judge(updatedTag) => r.(phase := Conclude(Decide(PostFacts(r, updatedTag))))
      case _ => r
  }

  predicate Active(p: Phase) {
    !p.Reported? && !p.Refused? && !p.Broken?
  }

  /** Map inclusion: no tag is deleted or moved. */
  predicate Keeps(before: Tags, after: Tags) {
    forall t :: t in before ==> t in after && after[t] == before[t]
  }

  /** Others fast-forward main and add tags that carry none of these runs' IDs. */
  predicate Tolerable(w: World, after: Remote) {
    && Ancestor(w.remote.main, after.main) && Keeps(w.remote.tags, after.tags)
    && (forall i, t :: 0 <= i < |w.runs| && t in after.tags && after.tags[t].runId == w.runs[i].job.runId ==>
          t in w.remote.tags)
  }

  predicate Enabled(w: World, e: Event) {
    match e
    case External(after) => Tolerable(w, after)
    case Act(i, c) => i < |w.runs| && Active(w.runs[i].phase) && Keeps(c.followed, w.remote.tags)
  }

  function Next(w: World, e: Event): World
    requires Enabled(w, e)
  {
    match e
    case External(after) => w.(remote := after)
    case Act(i, c) =>
      w.(remote := if Lands(w.remote, w.runs[i], c) then PushedTo(w.remote, w.runs[i].job) else w.remote,
         runs := w.runs[i := NextRun(w.remote, w.split, w.runs[i], c)])
  }

  datatype Trace = Nil | Cons(first: Event, rest: Trace)

  predicate Legal(w: World, trace: Trace)
    decreases trace
  {
    trace.Cons? ==> Enabled(w, trace.first) && Legal(Next(w, trace.first), trace.rest)
  }

  function Final(w: World, trace: Trace): World
    requires Legal(w, trace)
    decreases trace
  {
    if trace.Nil? then w else Final(Next(w, trace.first), trace.rest)
  }

  // ---------------------------------------------------------- the invariant

  predicate BeforePush(p: Phase) {
    p.Start? || p.FetchMain? || p.FetchTags? || p.Choose? || p.MakeTag? || p.Push?
  }

  predicate BeforeTag(p: Phase) {
    p.Start? || p.FetchMain? || p.FetchTags? || p.Choose? || p.MakeTag?
  }

  predicate Clean(j: Job) { j.head == j.release && !j.dirty }

  /** Local tags come from the remote, save the one this run made. */
  predicate Derived(remote: Remote, r: Run) {
    forall t :: t in r.tags ==>
      || (t in remote.tags && remote.tags[t] == r.tags[t])
      || (!BeforeTag(r.phase) && t == r.job.tag && r.tags[t] == OwnTag(r.job))
  }

  /** The local copy of the release tag is the remote's. */
  predicate Copied(remote: Remote, r: Run) {
    r.job.tag in remote.tags && r.job.tag in r.tags && r.tags[r.job.tag] == remote.tags[r.job.tag]
  }

  /**
   What each phase knows of the remote. What only holds if the separate
   observations after a push can be trusted is stated under `sound`.
   */
  predicate PhaseOk(remote: Remote, r: Run, sound: bool) {
    var j := r.job;
    match r.phase
    case Start => true
    case FetchMain => Clean(j)
    case FetchTags => Clean(j) && Ancestor(r.originMain, remote.main)
    case Choose => Clean(j) && Ancestor(r.originMain, remote.main) && (Owns(remote, j) ==> j.tag in r.tags)
    case MakeTag => Clean(j) && Ancestor(j.base, remote.main) && !Owns(remote, j)
    case Push => Clean(j) && Ancestor(j.base, remote.main) && !Owns(remote, j) && j.tag in r.tags
    case RefetchMain =>
      Clean(j) && j.tag in r.tags && r.pushes == 1 && (Owns(remote, j) ==> Ancestor(j.release, remote.main))
    case RefetchTags =>
      && Clean(j) && j.tag in r.tags && r.pushes == 1 && (Owns(remote, j) ==> Ancestor(j.release, r.originMain))
      && (sound && Ancestor(j.release, r.originMain) ==> j.tag in remote.tags)
    case Lookup =>
      && Clean(j) && j.tag in r.tags && r.pushes == 1 && (Owns(remote, j) ==> Ancestor(j.release, r.originMain))
      && (sound && Ancestor(j.release, r.originMain) ==> Copied(remote, r))
    case Judge(updatedTag) =>
      && Clean(j) && j.tag in r.tags && r.pushes == 1 && (updatedTag.Some? ==> j.tag in remote.tags)
      && (Owns(remote, j) ==> updatedTag == Some(j.release) && Ancestor(j.release, r.originMain))
      && (sound && updatedTag == Some(j.release) && Ancestor(j.release, r.originMain) ==>
            Copied(remote, r) && remote.tags[j.tag].target == j.release)
    case Reported(published) =>
      && (!published ==> !Owns(remote, j) && r.originMain != j.base)
      && (sound && published ==> Owns(remote, j))
    case Refused => Clean(j) ==> !Owns(remote, j) && (j.tag in remote.tags || (r.pushes == 1 && r.originMain == j.base))
    case Broken => true
  }

  predicate RunOk(remote: Remote, r: Run, sound: bool) {
    && r.pushes <= 1 && (BeforePush(r.phase) ==> r.pushes == 0)
    && Derived(remote, r) && PhaseOk(remote, r, sound)
  }

  /** Runs have their own IDs. */
  predicate DistinctIds(w: World) {
    forall i, k :: 0 <= i < k < |w.runs| ==> w.runs[i].job.runId != w.runs[k].job.runId
  }

  /** The invariant, for one run among its rivals. */
  predicate Inv(w: World, i: nat, sound: bool) {
    DistinctIds(w) && i < |w.runs| && RunOk(w.remote, w.runs[i], sound)
  }

  /** A run that has only checked out: its tags, if any, are the remote's. */
  predicate Fresh(remote: Remote, r: Run) {
    r.phase.Start? && r.pushes == 0 && Keeps(r.tags, remote.tags)
  }

  predicate Begins(w: World, i: nat) {
    DistinctIds(w) && i < |w.runs| && Fresh(w.remote, w.runs[i])
  }

  lemma BeginsInv(w: World, i: nat, sound: bool)
    requires Begins(w, i)
    ensures Inv(w, i, sound)
  {
  }

  // ---------------------------------------------------- every step keeps it

  lemma AncestorSelf(c: Commit)
    ensures Ancestor(c, c)
  {
  }

  /** A run at rest is not disturbed by what others do to the remote. */
  lemma Undisturbed(before: Remote, after: Remote, r: Run, sound: bool)
    requires RunOk(before, r, sound) && Ancestor(before.main, after.main) && Keeps(before.tags, after.tags)
    requires Owns(after, r.job) ==> Owns(before, r.job)
    ensures RunOk(after, r, sound)
  {
    hide Ancestor;
    forall a | Ancestor(a, before.main) ensures Ancestor(a, after.main) {
      AncestorTransitive(a, before.main, after.main);
    }
  }

  /** The release commit is on main only together with its tag. */
  predicate Together(remote: Remote, j: Job) {
    Ancestor(j.release, remote.main) ==> j.tag in remote.tags
  }

  /** A step that leaves the remote alone, up to the push */
  lemma EarlyStep(remote: Remote, split: bool, r: Run, c: Choice, sound: bool)
    requires RunOk(remote, r, sound) && BeforePush(r.phase) && !Lands(remote, r, c) && Keeps(c.followed, remote.tags)
    ensures RunOk(remote, NextRun(remote, split, r, c), sound)
  {
    hide Ancestor;
    AncestorSelf(remote.main);
  }

  /** and after it. */
  lemma LateStep(remote: Remote, split: bool, r: Run, c: Choice, sound: bool)
    requires RunOk(remote, r, sound) && Active(r.phase) && !BeforePush(r.phase) && Keeps(c.followed, remote.tags)
    requires sound && split && r.phase.RefetchMain? ==> Together(remote, r.job)
    ensures RunOk(remote, NextRun(remote, split, r, c), sound)
  {
    hide Ancestor;
  }

  /** A push that lands leaves the run's own tag on the remote, main at its commit. */
  lemma LandingStep(remote: Remote, split: bool, r: Run, c: Choice, sound: bool)
    requires RunOk(remote, r, sound) && Lands(remote, r, c)
    ensures RunOk(PushedTo(remote, r.job), NextRun(remote, split, r, c), sound)
  {
    hide Ancestor;
    AncestorSelf(r.job.head);
  }

  /** Every event fast-forwards main and keeps the tags, and only a run itself adds a tag with its ID. */
  lemma RemoteStep(w: World, e: Event, i: nat)
    requires Enabled(w, e) && i < |w.runs| && DistinctIds(w)
    ensures Ancestor(w.remote.main, Next(w, e).remote.main) && Keeps(w.remote.tags, Next(w, e).remote.tags)
    ensures (e.Act? ==> e.i != i) ==> Owns(Next(w, e).remote, w.runs[i].job) ==> Owns(w.remote, w.runs[i].job)
  {
    hide Ancestor, NextRun;
    AncestorSelf(w.remote.main);
    if e.Act? && e.i != i { assert w.runs[e.i].job.runId != w.runs[i].job.runId; }
  }

  lemma SameJob(remote: Remote, split: bool, r: Run, c: Choice)
    ensures NextRun(remote, split, r, c).job == r.job
  {
  }

  lemma JobsStep(w: World, e: Event)
    requires Enabled(w, e)
    ensures |Next(w, e).runs| == |w.runs| && Next(w, e).split == w.split
    ensures forall i :: 0 <= i < |w.runs| ==> Next(w, e).runs[i].job == w.runs[i].job
    ensures DistinctIds(w) ==> DistinctIds(Next(w, e))
  {
    hide NextRun, Lands;
    if e.Act? { SameJob(w.remote, w.split, w.runs[e.i], e.choice); }
  }

  /** Every event of the run, of a rival or of an outsider keeps the invariant. */
  lemma StepKeepsInv(w: World, e: Event, i: nat, sound: bool)
    requires Inv(w, i, sound) && Enabled(w, e)
    requires sound && w.split && w.runs[i].phase.RefetchMain? ==> Together(w.remote, w.runs[i].job)
    ensures Inv(Next(w, e), i, sound)
  {
    hide RunOk, NextRun, Ancestor, Together, Keeps, Owns, DistinctIds;
    JobsStep(w, e);
    RemoteStep(w, e, i);
    var r := w.runs[i];
    if e.Act? && e.i == i {
      if Lands(w.remote, r, e.choice) {
        LandingStep(w.remote, w.split, r, e.choice, sound);
      } else if BeforePush(r.phase) {
        EarlyStep(w.remote, w.split, r, e.choice, sound);
      } else {
        LateStep(w.remote, w.split, r, e.choice, sound);
      }
    } else {
      Undisturbed(w.remote, Next(w, e).remote, r, sound);
    }
  }

  // ------------------------------------------- when the lookup can be trusted

  /** This event does not put run i's release commit on main without its tag. */
  predicate Polite(w: World, e: Event, i: nat)
    requires Enabled(w, e) && i < |w.runs|
  {
    Together(w.remote, w.runs[i].job) ==> Together(Next(w, e).remote, w.runs[i].job)
  }

  predicate Considerate(w: World, trace: Trace, i: nat)
    requires Legal(w, trace) && i < |w.runs|
    decreases trace
  {
    trace.Cons? ==>
      Polite(w, trace.first, i) &&
      (JobsStep(w, trace.first); Considerate(Next(w, trace.first), trace.rest, i))
  }

  predicate Settling(p: Phase) {
    p.Start? || p.FetchMain? || p.FetchTags? || p.Choose? || p.Reported? || p.Refused? || p.Broken?
  }

  /** Main has left the run's base behind: it can only reuse, skip or refuse. */
  predicate Stuck(w: World, i: nat) {
    && i < |w.runs| && Settling(w.runs[i].phase) && !Ancestor(w.remote.main, w.runs[i].job.base)
    && (w.runs[i].phase.FetchTags? || w.runs[i].phase.Choose? ==> w.runs[i].originMain != w.runs[i].job.base)
  }

  /** Grounds on which run i's report along the trace can be trusted. */
  predicate Trusted(w: World, trace: Trace, i: nat)
    requires Legal(w, trace) && i < |w.runs|
  {
    !w.split || Stuck(w, i) || (Together(w.remote, w.runs[i].job) && Considerate(w, trace, i))
  }

  /** A stuck run stays stuck. */
  lemma StuckStep(w: World, e: Event, i: nat)
    requires Stuck(w, i) && Enabled(w, e) && DistinctIds(w)
    ensures Stuck(Next(w, e), i)
  {
    hide Ancestor;
    RemoteStep(w, e, i);
    JobsStep(w, e);
    var base := w.runs[i].job.base;
    AncestorSelf(base);
    if Ancestor(Next(w, e).remote.main, base) {
      AncestorTransitive(w.remote.main, Next(w, e).remote.main, base);
    }
    if e.Act? && e.i == i { StuckRun(w.remote, w.split, w.runs[i], e.choice); }
  }

  lemma StuckRun(remote: Remote, split: bool, r: Run, c: Choice)
    requires Settling(r.phase) && Active(r.phase) && remote.main != r.job.base
    requires r.phase.FetchTags? || r.phase.Choose? ==> r.originMain != r.job.base
    ensures var after := NextRun(remote, split, r, c);
            && Settling(after.phase)
            && (after.phase.FetchTags? || after.phase.Choose? ==> after.originMain != r.job.base)
  {
  }

  /** Along every trace the invariant holds, in its sound form if the report can be trusted. */
  lemma {:induction false} TraceKeepsInv(w: World, trace: Trace, i: nat, sound: bool)
    requires Inv(w, i, sound) && Legal(w, trace) && (sound ==> Trusted(w, trace, i))
    ensures Inv(Final(w, trace), i, sound) && Final(w, trace).runs[i].job == w.runs[i].job
    decreases trace
  {
    hide RunOk, DistinctIds, Enabled, Next, Ancestor, Together;
    if trace.Cons? {
      var e := trace.first;
      StepKeepsInv(w, e, i, sound);
      JobsStep(w, e);
      if Stuck(w, i) { StuckStep(w, e, i); }
      TraceKeepsInv(Next(w, e), trace.rest, i, sound);
    }
  }

  /** With the tag on the remote, nothing can put the commit on main without it. */
  lemma {:induction false} TaggedIsConsiderate(w: World, trace: Trace, i: nat)
    requires Legal(w, trace) && i < |w.runs| && DistinctIds(w) && w.runs[i].job.tag in w.remote.tags
    ensures Considerate(w, trace, i)
    decreases trace
  {
    hide Enabled, Next, Ancestor, DistinctIds;
    if trace.Cons? {
      RemoteStep(w, trace.first, i);
      JobsStep(w, trace.first);
      TaggedIsConsiderate(Next(w, trace.first), trace.rest, i);
    }
  }

  /** Externals do not put run i's release commit on main without its tag. */
  predicate PoliteOutsiders(w: World, trace: Trace, i: nat)
    requires Legal(w, trace) && i < |w.runs|
    decreases trace
  {
    trace.Cons? ==>
      (trace.first.External? ==> Polite(w, trace.first, i)) &&
      (JobsStep(w, trace.first); PoliteOutsiders(Next(w, trace.first), trace.rest, i))
  }

  /** A release that another one contains is that one, under one tag, or below its base. */
  predicate Stacked(j: Job, k: Job) {
    Ancestor(j.release, k.release) ==> j.tag == k.tag || Ancestor(j.release, k.base)
  }

  /** An atomic push of a run stacked on run i's release brings the tag along or finds it there. */
  lemma PushKeepsTogether(remote: Remote, r: Run, c: Choice, j: Job)
    requires RunOk(remote, r, false) && Lands(remote, r, c) && Stacked(j, r.job) && Together(remote, j)
    ensures Together(PushedTo(remote, r.job), j)
  {
    hide Ancestor, Derived;
    if Ancestor(j.release, r.job.release) && j.tag != r.job.tag {
      AncestorTransitive(j.release, r.job.base, remote.main);
    }
  }

  /** So well stacked rivals are considerate. */
  lemma {:induction false} StackedRivalsAreConsiderate(w: World, trace: Trace, i: nat)
    requires Legal(w, trace) && i < |w.runs| && DistinctIds(w) && PoliteOutsiders(w, trace, i)
    requires forall k :: 0 <= k < |w.runs| ==>
               RunOk(w.remote, w.runs[k], false) && Stacked(w.runs[i].job, w.runs[k].job)
    ensures Considerate(w, trace, i)
    decreases trace
  {
    hide RunOk, Ancestor, NextRun, Together, Stacked, Tolerable, DistinctIds;
    if trace.Cons? {
      var e := trace.first;
      JobsStep(w, e);
      forall k | 0 <= k < |w.runs| ensures RunOk(Next(w, e).remote, Next(w, e).runs[k], false) {
        StepKeepsInv(w, e, k, false);
      }
      if e.Act? && Lands(w.remote, w.runs[e.i], e.choice) && Together(w.remote, w.runs[i].job) {
        PushKeepsTogether(w.remote, w.runs[e.i], e.choice, w.runs[i].job);
      }
      StackedRivalsAreConsiderate(Next(w, e), trace.rest, i);
    }
  }

  // -------------------------------------------------------------- theorems

  /** A run has reported published although the remote tag is not its own. */
  predicate Misreports(w: World, i: nat) {
    i < |w.runs| && w.runs[i].phase == Reported(true) && !Owns(w.remote, w.runs[i].job)
  }

  /**
   On every execution a run pushes at most once, and one from a clean checkout that
   reports or refuses without publishing has no tag of its own on the remote. If
   the lookup can be trusted, it reports published exactly when the remote tag is at
   its commit with its own run ID.
   */
  lemma PublishedExactly(w: World, trace: Trace, i: nat)
    requires Begins(w, i) && Legal(w, trace) && Clean(w.runs[i].job)
    ensures |Final(w, trace).runs| == |w.runs| && Final(w, trace).runs[i].job == w.runs[i].job
    ensures var r := Final(w, trace).runs[i];
            && r.pushes <= 1
            && (r.phase == Reported(false) || r.phase == Refused ==> !Owns(Final(w, trace).remote, r.job))
            && (r.phase == Reported(true) && Trusted(w, trace, i) ==> Owns(Final(w, trace).remote, r.job))
            // it skips only having seen main elsewhere, and is refused only over a tag or with main still at its base
            && (r.phase == Reported(false) ==> r.originMain != r.job.base)
            && (r.phase == Refused ==>
                  r.job.tag in Final(w, trace).remote.tags || (r.pushes == 1 && r.originMain == r.job.base))
  {
    hide Ancestor, Derived, Trusted;
    BeginsInv(w, i, false);
    TraceKeepsInv(w, trace, i, false);
    RunsStay(w, trace);
    if Trusted(w, trace, i) {
      BeginsInv(w, i, true);
      TraceKeepsInv(w, trace, i, true);
    }
  }

  lemma {:induction false} RunsStay(w: World, trace: Trace)
    requires Legal(w, trace)
    ensures |Final(w, trace).runs| == |w.runs|
    decreases trace
  {
    hide Enabled, Next;
    if trace.Cons? {
      JobsStep(w, trace.first);
      RunsStay(Next(w, trace.first), trace.rest);
    }
  }

  /** On every execution main only moves forward and no tag is moved or deleted. */
  lemma {:induction false} RemoteOnlyGrows(w: World, trace: Trace)
    requires Legal(w, trace)
    ensures Ancestor(w.remote.main, Final(w, trace).remote.main)
    ensures Keeps(w.remote.tags, Final(w, trace).remote.tags)
    decreases trace
  {
    hide Ancestor, NextRun;
    AncestorSelf(w.remote.main);
    if trace.Cons? {
      var next := Next(w, trace.first);
      RemoteOnlyGrows(next, trace.rest);
      AncestorTransitive(w.remote.main, next.remote.main, Final(w, trace).remote.main);
    }
  }

  // ------------------------------------------------- exactly when it misreports

  /** The trace to it is considerate of run i, if that is asked. */
  ghost predicate Reaches(w: World, after: World, i: nat, polite: bool) {
    exists trace :: Leads(w, trace, after, i, polite)
  }

  ghost predicate Leads(w: World, trace: Trace, after: World, i: nat, polite: bool) {
    && i < |w.runs| && Legal(w, trace) && Final(w, trace) == after
    && (polite ==> Considerate(w, trace, i))
  }

  lemma {:induction false} Extend(w: World, trace: Trace, mid: World, e: Event, i: nat, polite: bool)
    returns (longer: Trace)
    requires Leads(w, trace, mid, i, polite) && Enabled(mid, e) && i < |mid.runs| && (polite ==> Polite(mid, e, i))
    ensures Leads(w, longer, Next(mid, e), i, polite)
    decreases trace
  {
    hide Enabled, Next, Polite;
    if trace.Nil? {
      longer := Cons(e, Nil);
      JobsStep(w, e);
      assert Legal(Next(w, e), Nil) && Final(Next(w, e), Nil) == Next(w, e);
      assert Considerate(Next(w, e), Nil, i);
    } else {
      JobsStep(w, trace.first);
      var rest := Extend(Next(w, trace.first), trace.rest, mid, e, i, polite);
      longer := Cons(trace.first, rest);
    }
  }

  lemma ReachMore(w: World, mid: World, e: Event, i: nat, polite: bool)
    requires Reaches(w, mid, i, polite) && Enabled(mid, e) && i < |mid.runs| && (polite ==> Polite(mid, e, i))
    ensures Reaches(w, Next(mid, e), i, polite)
  {
    hide Enabled, Next, Leads, Polite;
    var trace :| Leads(w, trace, mid, i, polite);
    var longer := Extend(w, trace, mid, e, i, polite);
  }

  /** The world with another remote and another state of run i. */
  function With(w: World, i: nat, remote: Remote, r: Run): World
    requires i < |w.runs|
  {
    w.(remote := remote, runs := w.runs[i := r])
  }

  /** Run i takes a step that leaves the remote as it is. */
  lemma ReachLocal(w: World, i: nat, remote: Remote, r: Run, c: Choice, r': Run, polite: bool)
    requires i < |w.runs| && Reaches(w, With(w, i, remote, r), i, polite)
    requires Active(r.phase) && c.followed == map[] && !Lands(remote, r, c) && r' == NextRun(remote, w.split, r, c)
    ensures Reaches(w, With(w, i, remote, r'), i, polite)
  {
    hide Reaches, Lands, NextRun, Together;
    var mid := With(w, i, remote, r);
    assert Enabled(mid, Act(i, c));
    SameJob(remote, w.split, r, c);
    assert Next(mid, Act(i, c)) == With(w, i, remote, r');
    ReachMore(w, mid, Act(i, c), i, polite);
  }

  /** Somebody else changes the remote. */
  lemma ReachExternal(w: World, i: nat, remote: Remote, r: Run, after: Remote, polite: bool)
    requires i < |w.runs| && Reaches(w, With(w, i, remote, r), i, polite)
    requires Tolerable(With(w, i, remote, r), after)
    requires polite && Together(remote, r.job) ==> Together(after, r.job)
    ensures Reaches(w, With(w, i, after, r), i, polite)
  {
    hide Reaches, Together, Tolerable;
    var mid := With(w, i, remote, r);
    assert Next(mid, External(after)) == With(w, i, after, r);
    ReachMore(w, mid, External(after), i, polite);
  }

  const PLAIN := Choice(false, map[], true, true, false)
  const DROPPED := Choice(false, map[], false, false, false)

  /** With main at the base and no such tag, a run gets as far as a push that is lost. */
  lemma ReachLostPush(w: World, i: nat, remote: Remote, polite: bool)
    requires i < |w.runs| && Fresh(remote, w.runs[i]) && Clean(w.runs[i].job)
    requires remote.main == w.runs[i].job.base && w.runs[i].job.tag !in remote.tags
    requires Reaches(w, With(w, i, remote, w.runs[i]), i, polite)
    ensures var j := w.runs[i].job;
            Reaches(w, With(w, i, remote, Run(j, RefetchMain, j.base, remote.tags[j.tag := OwnTag(j)], 1)), i, polite)
  {
    hide Reaches, Ancestor;
    var r := w.runs[i];
    var j := r.job;
    var r1 := r.(phase := FetchMain);
    var r2 := r1.(phase := FetchTags, originMain := j.base);
    var r3 := r2.(phase := Choose, tags := remote.tags);
    var r4 := r3.(phase := MakeTag);
    var r5 := r4.(phase := Push, tags := remote.tags[j.tag := OwnTag(j)]);
    var r6 := r5.(phase := RefetchMain, pushes := 1);
    assert r.tags + map[] == r.tags && r.tags + remote.tags == remote.tags;
    ReachLocal(w, i, remote, r, PLAIN, r1, polite);
    ReachLocal(w, i, remote, r1, PLAIN, r2, polite);
    ReachLocal(w, i, remote, r2, PLAIN, r3, polite);
    ReachLocal(w, i, remote, r3, PLAIN, r4, polite);
    ReachLocal(w, i, remote, r4, PLAIN, r5, polite);
    ReachLocal(w, i, remote, r5, DROPPED, r6, polite);
  }

  /** An ID that none of these runs has. */
  function UnusedId(runs: seq<Run>): (n: nat)
    ensures forall k :: 0 <= k < |runs| ==> runs[k].job.runId < n
  {
    if runs == [] then 0
    else
      var n, last := UnusedId(runs[..|runs| - 1]), runs[|runs| - 1].job.runId;
      if last < n then n else last + 1
  }

  /** From a lost push with the release on main, a tag that appears late is taken for the run's own. */
  lemma ReachMisreport(w: World, i: nat, remote: Remote, r: Run, polite: bool) returns (after: World)
    requires i < |w.runs| && w.split && Reaches(w, With(w, i, remote, r), i, polite)
    requires r.job == w.runs[i].job && Clean(r.job) && r.phase.RefetchMain?
    requires r.tags == remote.tags[r.job.tag := OwnTag(r.job)]
    requires Ancestor(r.job.release, remote.main) && r.job.tag !in remote.tags
    ensures Reaches(w, after, i, polite) && Misreports(after, i)
  {
    AncestorSelf(remote.main);
    hide Reaches, Ancestor;
    var j, id := r.job, UnusedId(w.runs);
    var rival := Remote(remote.main, remote.tags[j.tag := Tag(j.release, id)]);
    var r1 := r.(phase := RefetchTags, originMain := remote.main);
    var r2 := r1.(phase := Lookup);
    var r3 := r2.(phase := Judge(Some(j.release)));
    var r4 := r3.(phase := Reported(true));
    assert r.tags + map[] == r.tags && r.tags + remote.tags == r.tags;
    ReachLocal(w, i, remote, r, PLAIN, r1, polite);
    ReachLocal(w, i, remote, r1, PLAIN, r2, polite);
    ReachExternal(w, i, remote, r2, rival, polite);
    ReachLocal(w, i, rival, r2, PLAIN, r3, polite);
    ReachLocal(w, i, rival, r3, PLAIN, r4, polite);
    after := With(w, i, rival, r4);
  }

  /** What a run needs to be misled: split observations, no tag yet, and main not past its base. */
  predicate Exposed(w: World, i: nat)
    requires i < |w.runs|
  {
    w.split && w.runs[i].job.tag !in w.remote.tags && Ancestor(w.remote.main, w.runs[i].job.base)
  }

  /** The release commit is on main already. */
  predicate OnMain(w: World, i: nat)
    requires i < |w.runs|
  {
    Ancestor(w.runs[i].job.release, w.remote.main)
  }

  /** A commit that contains both; the base itself if it contains the release. */
  function Merge(base: Commit, release: Commit): (m: Commit)
    ensures Ancestor(base, m) && Ancestor(release, m)
    ensures Ancestor(release, base) ==> m == base
  {
    if Ancestor(release, base) then base
    else
      var m := Commit(0, [base, release]);
      assert m.parents[0] == base && m.parents[1] == release;
      assert Ancestor(base, m.parents[0]) && Ancestor(release, m.parents[1]);
      m
  }

  /**
   Split observations can misreport: every exposed run can be made to take a tag for
   its own that appears between the refetch and the lookup, its marker being read from
   the local tag. If the release is on main already, nobody even has to put it there.
   */
  lemma SplitObservationMisreports(w: World, i: nat, polite: bool) returns (after: World)
    requires Begins(w, i) && Clean(w.runs[i].job) && Exposed(w, i) && (polite ==> OnMain(w, i))
    ensures Reaches(w, after, i, polite) && Misreports(after, i)
  {
    var r := w.runs[i];
    var j, tags := r.job, w.remote.tags;
    var m := Merge(j.base, j.release);
    if polite { AncestorTransitive(j.release, w.remote.main, j.base); }
    AncestorSelf(j.base);
    assert Leads(w, Nil, w, i, polite);
    hide Ancestor, Reaches;
    var atBase, merged := Remote(j.base, tags), Remote(m, tags);
    assert With(w, i, w.remote, r) == w;
    ReachExternal(w, i, w.remote, r, atBase, polite);
    ReachLostPush(w, i, atBase, polite);
    var lost := Run(j, RefetchMain, j.base, tags[j.tag := OwnTag(j)], 1);
    ReachExternal(w, i, atBase, lost, merged, polite);
    after := ReachMisreport(w, i, merged, lost, polite);
  }

  /** A run with no way to be misled reports correctly on every trace. */
  lemma UnexposedIsTrusted(w: World, trace: Trace, i: nat)
    requires Begins(w, i) && Legal(w, trace) && Clean(w.runs[i].job)
    requires !Exposed(w, i) || (!OnMain(w, i) && Considerate(w, trace, i))
    ensures Trusted(w, trace, i)
  {
    if w.runs[i].job.tag in w.remote.tags { TaggedIsConsiderate(w, trace, i); }
  }

  lemma NoMisreport(w: World, trace: Trace, i: nat)
    requires Begins(w, i) && Legal(w, trace) && Clean(w.runs[i].job)
    requires !Exposed(w, i) || (!OnMain(w, i) && Considerate(w, trace, i))
    ensures !Misreports(Final(w, trace), i)
  {
    hide Ancestor, Trusted, Exposed, OnMain, Begins, Legal;
    UnexposedIsTrusted(w, trace, i);
    PublishedExactly(w, trace, i);
  }

  /**
   Exactly when a run can misreport, whatever others do: the observations are
   separate, its tag is not there at the start, and main has not left its base behind.
   */
  lemma MisreportExactly(w: World, i: nat)
    requires Begins(w, i) && Clean(w.runs[i].job)
    ensures (exists after :: Reaches(w, after, i, false) && Misreports(after, i)) <==> Exposed(w, i)
  {
    if Exposed(w, i) { var after := SplitObservationMisreports(w, i, false); }
    else {
      forall after | Reaches(w, after, i, false) ensures !Misreports(after, i) {
        var trace :| Leads(w, trace, after, i, false);
        NoMisreport(w, trace, i);
      }
    }
  }

  /** And if others are considerate of it: the release commit is on main at the start as well. */
  lemma ConsiderateMisreportExactly(w: World, i: nat)
    requires Begins(w, i) && Clean(w.runs[i].job)
    ensures (exists after :: Reaches(w, after, i, true) && Misreports(after, i)) <==> Exposed(w, i) && OnMain(w, i)
  {
    if Exposed(w, i) && OnMain(w, i) { var after := SplitObservationMisreports(w, i, true); }
    else {
      forall after | Reaches(w, after, i, true) ensures !Misreports(after, i) {
        var trace :| Leads(w, trace, after, i, true);
        NoMisreport(w, trace, i);
      }
    }
  }

  // ------------------------------------------------- what runs do undisturbed

  /** A clean run that fetched no tag of that name and a main other than its base reports a skip. */
  lemma MovedMainIsSkipped(remote: Remote, split: bool, r: Run, c: Choice)
    requires r.phase.Choose? && Clean(r.job) && r.job.tag !in r.tags && r.originMain != r.job.base && !c.breaks
    ensures NextRun(remote, split, r, c).phase == Reported(false)
  {
  }

  /** Run i, from its fetch to its decision with nothing happening in between. */
  lemma ReachChoice(w: World, i: nat)
    requires Begins(w, i) && Clean(w.runs[i].job)
    ensures var r := w.runs[i];
            Reaches(w, With(w, i, w.remote, Run(r.job, Choose, w.remote.main, w.remote.tags, 0)), i, false)
  {
    var r := w.runs[i];
    assert Leads(w, Nil, w, i, false);
    assert With(w, i, w.remote, r) == w;
    hide Reaches, Ancestor;
    var r1 := r.(phase := FetchMain);
    var r2 := r1.(phase := FetchTags, originMain := w.remote.main);
    var r3 := r2.(phase := Choose, tags := w.remote.tags);
    assert r.tags + map[] == r.tags && r.tags + w.remote.tags == w.remote.tags;
    ReachLocal(w, i, w.remote, r, PLAIN, r1, false);
    ReachLocal(w, i, w.remote, r1, PLAIN, r2, false);
    ReachLocal(w, i, w.remote, r2, PLAIN, r3, false);
  }

  /** A retry of a run that has published reuses its tag without a push. */
  lemma RetryReuses(w: World, i: nat)
    requires Begins(w, i) && Clean(w.runs[i].job) && Owns(w.remote, w.runs[i].job)
    ensures var r := w.runs[i];
            Reaches(w, With(w, i, w.remote, Run(r.job, Reported(true), w.remote.main, w.remote.tags, 0)), i, false)
  {
    ReachChoice(w, i);
    hide Reaches, Ancestor;
    var r := Run(w.runs[i].job, Choose, w.remote.main, w.remote.tags, 0);
    ReachLocal(w, i, w.remote, r, PLAIN, r.(phase := Reported(true)), false);
  }

  /** A run that finds main moved past its base and no tag skips, and touches nothing. */
  lemma MovedMainSkips(w: World, i: nat)
    requires Begins(w, i) && Clean(w.runs[i].job)
    requires w.runs[i].job.tag !in w.remote.tags && w.remote.main != w.runs[i].job.base
    ensures var r := w.runs[i];
            Reaches(w, With(w, i, w.remote, Run(r.job, Reported(false), w.remote.main, w.remote.tags, 0)), i, false)
  {
    ReachChoice(w, i);
    hide Reaches, Ancestor;
    var r := Run(w.runs[i].job, Choose, w.remote.main, w.remote.tags, 0);
    MovedMainIsSkipped(w.remote, w.split, r, PLAIN);
    ReachLocal(w, i, w.remote, r, PLAIN, r.(phase := Reported(false)), false);
  }

  const LOST := Choice(false, map[], true, false, true)

  /** A run whose push lands, whether the reply arrives or is lost. */
  lemma ReachLanding(w: World, i: nat, replied: bool)
    requires Begins(w, i) && Clean(w.runs[i].job) && w.runs[i].job.tag !in w.remote.tags
    requires w.remote.main == w.runs[i].job.base && Ancestor(w.runs[i].job.base, w.runs[i].job.release)
    ensures var j := w.runs[i].job;
            var tags := w.remote.tags[j.tag := OwnTag(j)];
            Reaches(w, With(w, i, PushedTo(w.remote, j),
                            Run(j, if replied then Reported(true) else RefetchMain, j.base, tags, 1)), i, false)
  {
    ReachChoice(w, i);
    hide Reaches, Ancestor;
    var j := w.runs[i].job;
    var tags := w.remote.tags[j.tag := OwnTag(j)];
    var r := Run(j, Choose, j.base, w.remote.tags, 0);
    var r1 := r.(phase := MakeTag);
    var r2 := r1.(phase := Push, tags := tags);
    ReachLocal(w, i, w.remote, r, PLAIN, r1, false);
    ReachLocal(w, i, w.remote, r1, PLAIN, r2, false);
    var c := if replied then PLAIN else LOST;
    var mid := With(w, i, w.remote, r2);
    var r3 := Run(j, if replied then Reported(true) else RefetchMain, j.base, tags, 1);
    assert Lands(w.remote, r2, c) && NextRun(w.remote, w.split, r2, c) == r3;
    assert Next(mid, Act(i, c)) == With(w, i, PushedTo(w.remote, j), r3);
    ReachMore(w, mid, Act(i, c), i, false);
  }

  /** Undisturbed, with main at its base and its tag free, a run publishes with one push, lost reply or not. */
  lemma PublishesUndisturbed(w: World, i: nat, replied: bool) returns (after: World)
    requires Begins(w, i) && Clean(w.runs[i].job) && w.runs[i].job.tag !in w.remote.tags
    requires w.remote.main == w.runs[i].job.base && Ancestor(w.runs[i].job.base, w.runs[i].job.release)
    ensures Reaches(w, after, i, false) && |after.runs| == |w.runs|
    ensures after.runs[i].phase == Reported(true) && after.runs[i].pushes == 1
    ensures after.remote.main == w.runs[i].job.release
    ensures after.remote.tags == w.remote.tags[w.runs[i].job.tag := Tag(w.runs[i].job.release, w.runs[i].job.runId)]
  {
    ReachLanding(w, i, replied);
    AncestorSelf(w.runs[i].job.release);
    hide Reaches, Ancestor;
    var j := w.runs[i].job;
    var remote := PushedTo(w.remote, j);
    if replied {
      after := With(w, i, remote, Run(j, Reported(true), j.base, remote.tags, 1));
    } else {
      var r := Run(j, RefetchMain, j.base, remote.tags, 1);
      var r1 := r.(phase := Judge(Some(j.release)), originMain := j.release);
      var r2 := r1.(phase := Reported(true));
      assert remote.tags + remote.tags == remote.tags;
      ReachLocal(w, i, remote, r, LOST, r1, false);
      ReachLocal(w, i, remote, r1, LOST, r2, false);
      after := With(w, i, remote, r2);
    }
  }
}
