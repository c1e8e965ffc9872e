/**
 cleanup: removing old camera videos of one bench run and recording each removal
 in a marker file. A run can stop at any point, the directory can change under
 it, and it can be run again any number of times.
 */
module CameraCleanup {
  import opened Wrappers

  type Name = string

  /** identity(): device, inode, size and modification time. */
  datatype Identity = Identity(device: int, inode: int, size: nat, mtime: int)

  datatype Entry = Regular(id: Identity) | Other(id: Identity)

  datatype Marker = Marker(removed: seq<Name>, bytes: nat, pending: seq<Name>)

  /** Unsafe: not a regular file. Malformed: not a record of the expected form. */
  datatype MarkerFile = Absent | Unsafe | Malformed | Recorded(marker: Marker)

  /** One unlink: the identity that was checked, and what was really there. */
  datatype Removal = Removal(name: Name, checked: Identity, actual: Entry)

  datatype Outcome = Skipped | Preview | Raised | Interrupted | Done(files: nat, bytes: nat)

  // ------------------------------------------------------- lists of names

  predicate Distinct(s: seq<Name>) {
    forall i, j :: 0 <= i < j < |s| ==> s[i] != s[j]
  }

  /** list(dict.fromkeys(s)): the first occurrence of each name. */
  function Deduped(s: seq<Name>): seq<Name> {
    if s == [] then []
    else
      var front, last := Deduped(s[..|s| - 1]), s[|s| - 1];
      if last in front then front else front + [last]
  }

  lemma {:induction false} DedupedKeepsNames(s: seq<Name>)
    ensures Distinct(Deduped(s)) && forall x :: x in Deduped(s) <==> x in s
    decreases |s|
  {
    if s != [] {
      var front, last := s[..|s| - 1], s[|s| - 1];
      DedupedKeepsNames(front);
      assert s == front + [last];
    }
  }

  /** list.remove: the first occurrence goes; ValueError when there is none. */
  function RemoveFirst(s: seq<Name>, x: Name): Option<seq<Name>> {
    if s == [] then None
    else if s[0] == x then Some(s[1..])
    else match RemoveFirst(s[1..], x)
      case None => None
      case Some(rest) => Some([s[0]] + rest)
  }

  function Without(s: seq<Name>, gone: set<Name>): seq<Name> {
    if s == [] then []
    else if s[0] in gone then Without(s[1..], gone)
    else [s[0]] + Without(s[1..], gone)
  }

  lemma {:induction false} WithoutMembers(s: seq<Name>, gone: set<Name>)
    ensures forall x :: x in Without(s, gone) <==> x in s && x !in gone
    decreases |s|
  {
    if s != [] { WithoutMembers(s[1..], gone); }
  }

  lemma {:induction false} WithoutNothing(s: seq<Name>)
    ensures Without(s, {}) == s
    decreases |s|
  {
    if s != [] { WithoutNothing(s[1..]); }
  }

  lemma {:induction false} WithoutAbsent(s: seq<Name>, gone: set<Name>, x: Name)
    requires x !in s
    ensures Without(s, gone + {x}) == Without(s, gone)
    decreases |s|
  {
    if s != [] { WithoutAbsent(s[1..], gone, x); }
  }

  /** Removing a name from a list that holds it once is leaving it out: never an error. */
  lemma {:induction false} RemoveFirstWithout(s: seq<Name>, gone: set<Name>, x: Name)
    requires Distinct(s) && x in s && x !in gone
    ensures RemoveFirst(Without(s, gone), x) == Some(Without(s, gone + {x}))
    decreases |s|
  {
    var rest := s[1..];
    if s[0] == x {
      WithoutAbsent(rest, gone, x);
    } else {
      assert x in rest;
      RemoveFirstWithout(rest, gone, x);
    }
  }

  function SetOf(s: seq<Name>): set<Name> {
    set x | x in s
  }

  /** Once the first i videos are off the list, the next can be taken off it. */
  lemma PendingStep(names: seq<Name>, videos: seq<Name>, i: nat)
    requires Distinct(names) && Distinct(videos) && i < |videos| && videos[i] in names
    ensures videos[..i + 1] == videos[..i] + [videos[i]]
    ensures videos[i] in Without(names, SetOf(videos[..i]))
    ensures RemoveFirst(Without(names, SetOf(videos[..i])), videos[i]) == Some(Without(names, SetOf(videos[..i + 1])))
  {
    var gone := SetOf(videos[..i]);
    assert videos[i] !in gone && gone + {videos[i]} == SetOf(videos[..i + 1]);
    RemoveFirstWithout(names, gone, videos[i]);
    WithoutMembers(names, gone);
  }

  // ------------------------------------------------------------ removals

  function NamesOf(removals: seq<Removal>): seq<Name> {
    seq(|removals|, i requires 0 <= i < |removals| => removals[i].name)
  }

  function Sizes(removals: seq<Removal>): nat {
    if removals == [] then 0 else Sizes(removals[..|removals| - 1]) + removals[|removals| - 1].checked.size
  }

  lemma SizesStep(removals: seq<Removal>, r: Removal)
    ensures Sizes(removals + [r]) == Sizes(removals) + r.checked.size
    ensures NamesOf(removals + [r]) == NamesOf(removals) + [r.name]
  {
    assert (removals + [r])[..|removals|] == removals;
  }

  lemma NoRemovals()
    ensures NamesOf([]) == [] && Sizes([]) == 0
  {
  }

  /** The marker a finished run leaves: every video moved from pending to removed. */
  function Finished(previous: Marker, videos: seq<Name>, size: nat): Marker {
    Marker(previous.removed + videos, previous.bytes + size,
           Without(Deduped(previous.pending + videos), SetOf(videos)))
  }

  /** What an earlier interrupted run left pending stays pending unless removed now. */
  lemma FinishedPending(previous: Marker, videos: seq<Name>, size: nat)
    ensures forall x :: x in Finished(previous, videos, size).pending <==> x in previous.pending && x !in videos
  {
    DedupedKeepsNames(previous.pending + videos);
    WithoutMembers(Deduped(previous.pending + videos), SetOf(videos));
  }

  function Before(file: MarkerFile): Marker {
    if file.Recorded? then file.marker else Marker([], 0, [])
  }

  /**
   A marker accounts for the unlinks done: each is named as removed or pending;
   what it adds to the removed names of `base` was really unlinked, as often as
   it is listed; and its bytes grew by the sizes of those very files.
   */
  ghost predicate Accounts(m: Marker, base: Marker, unlinked: seq<Removal>, recorded: seq<Removal>, quiet: bool) {
    && (forall i :: 0 <= i < |unlinked| ==> unlinked[i].name in m.removed || unlinked[i].name in m.pending)
    && m.removed == base.removed + NamesOf(recorded)
    && m.bytes == base.bytes + Sizes(recorded)
    && multiset(recorded) <= multiset(unlinked)
    && (quiet ==> forall i :: 0 <= i < |unlinked| ==> unlinked[i].actual == Regular(unlinked[i].checked))
  }

  /** Listing the videos as pending loses nothing an earlier run left there. */
  lemma StartAccounted(previous: Marker, base: Marker, unlinked: seq<Removal>, recorded: seq<Removal>, quiet: bool,
                       videos: seq<Name>, file: MarkerFile)
    requires previous == Before(file)
    requires if file.Recorded? then Accounts(previous, base, unlinked, recorded, quiet)
             else unlinked == [] && recorded == [] && base == Marker([], 0, [])
    ensures Accounts(Marker(previous.removed, previous.bytes, Deduped(previous.pending + videos)),
                     base, unlinked, recorded, quiet)
  {
    DedupedKeepsNames(previous.pending + videos);
    assert base.removed + NamesOf([]) == base.removed;
  }

  /** The unlink of a pending name is accounted for before it is recorded, */
  lemma UnlinkAccounted(m: Marker, base: Marker, unlinked: seq<Removal>, recorded: seq<Removal>, quiet: bool,
                        r: Removal)
    requires Accounts(m, base, unlinked, recorded, quiet) && r.name in m.pending
    requires quiet ==> r.actual == Regular(r.checked)
    ensures Accounts(m, base, unlinked + [r], recorded, quiet)
    ensures multiset(recorded + [r]) <= multiset(unlinked + [r])
  {
    assert multiset(unlinked + [r]) == multiset(unlinked) + multiset{r};
  }

  /** and recording it moves it from pending to removed. */
  lemma RecordAccounted(m: Marker, base: Marker, unlinked: seq<Removal>, recorded: seq<Removal>, quiet: bool,
                        r: Removal)
    requires Accounts(m, base, unlinked, recorded, quiet)
    requires multiset(recorded + [r]) <= multiset(unlinked) && RemoveFirst(m.pending, r.name).Some?
    ensures Accounts(Moved(m, r.name, r.checked.size), base, unlinked, recorded + [r], quiet)
  {
    SizesStep(recorded, r);
    RemoveFirstMembers(m.pending, r.name);
  }

  lemma {:induction false} RemoveFirstMembers(s: seq<Name>, x: Name)
    requires RemoveFirst(s, x).Some?
    ensures forall y :: y in s ==> y == x || y in RemoveFirst(s, x).value
    decreases |s|
  {
    if s[0] != x { RemoveFirstMembers(s[1..], x); }
  }

  /** The marker after one more removal. */
  function Moved(m: Marker, name: Name, size: nat): Marker
    requires RemoveFirst(m.pending, name).Some?
  {
    Marker(m.removed + [name], m.bytes + size, RemoveFirst(m.pending, name).value)
  }

  // ------------------------------------------------------- the removal loop

  /** The videos from the i-th on are as they were found. */
  ghost predicate AllStill(entries: map<Name, Entry>, videos: seq<Name>, snapshots: map<Name, Identity>, i: nat) {
    forall j :: i <= j < |videos| ==>
      && videos[j] in snapshots && videos[j] in entries && entries[videos[j]] == Regular(snapshots[videos[j]])
  }

  lemma NextIsStill(entries: map<Name, Entry>, videos: seq<Name>, snapshots: map<Name, Identity>, i: nat)
    requires Distinct(videos) && i < |videos| && AllStill(entries, videos, snapshots, i)
    ensures videos[i] in snapshots && videos[i] in entries && entries[videos[i]] == Regular(snapshots[videos[i]])
    ensures AllStill(entries - {videos[i]}, videos, snapshots, i + 1)
  {
  }

  /** Removals of these videos, each with the identity that was checked. */
  ghost predicate OfVideos(done: seq<Removal>, videos: seq<Name>, snapshots: map<Name, Identity>) {
    forall j :: 0 <= j < |done| ==>
      && done[j].name in videos && done[j].name in snapshots && done[j].checked == snapshots[done[j].name]
  }

  lemma MoreOfVideos(done: seq<Removal>, videos: seq<Name>, snapshots: map<Name, Identity>, r: Removal, i: nat)
    requires OfVideos(done, videos, snapshots) && i < |videos| && videos[i] in snapshots
    ensures r.name == videos[i] && r.checked == snapshots[videos[i]] ==> OfVideos(done + [r], videos, snapshots)
  {
  }

  /** After the first i videos: what was removed, and the marker that says so. */
  ghost predicate Progressed(previous: Marker, videos: seq<Name>, i: nat,
                             done: seq<Removal>, bytes: nat, m: Marker) {
    && i <= |videos| && Distinct(videos) && NamesOf(done) == videos[..i] && bytes == Sizes(done)
    && m == Marker(previous.removed + videos[..i], previous.bytes + bytes,
                   Without(Deduped(previous.pending + videos), SetOf(videos[..i])))
  }

  lemma NothingRemoved(previous: Marker, videos: seq<Name>, snapshots: map<Name, Identity>)
    requires Distinct(videos)
    ensures OfVideos([], videos, snapshots)
    ensures Progressed(previous, videos, 0, [], 0,
                       Marker(previous.removed, previous.bytes, Deduped(previous.pending + videos)))
  {
    assert SetOf(videos[..0]) == {};
    WithoutNothing(Deduped(previous.pending + videos));
  }

  lemma NextIsPending(previous: Marker, videos: seq<Name>, i: nat,
                      done: seq<Removal>, bytes: nat, m: Marker)
    requires Progressed(previous, videos, i, done, bytes, m) && i < |videos|
    ensures videos[i] in m.pending && RemoveFirst(m.pending, videos[i]).Some?
    ensures RemoveFirst(m.pending, videos[i]).value ==
            Without(Deduped(previous.pending + videos), SetOf(videos[..i + 1]))
  {
    var names := Deduped(previous.pending + videos);
    DedupedKeepsNames(previous.pending + videos);
    hide Deduped, Without, RemoveFirst, NamesOf, Sizes;
    PendingStep(names, videos, i);
  }

  lemma ProgressStep(previous: Marker, videos: seq<Name>, snapshots: map<Name, Identity>, i: nat,
                     done: seq<Removal>, bytes: nat, m: Marker, r: Removal, after: Marker)
    requires Progressed(previous, videos, i, done, bytes, m) && i < |videos| && videos[i] in snapshots
    requires r.name == videos[i] && r.checked == snapshots[videos[i]]
    requires RemoveFirst(m.pending, videos[i]).Some? && after == Moved(m, videos[i], snapshots[videos[i]].size)
    ensures Progressed(previous, videos, i + 1, done + [r], bytes + snapshots[videos[i]].size, after)
  {
    NextIsPending(previous, videos, i, done, bytes, m);
    hide Deduped, Without, RemoveFirst, NamesOf, Sizes, Distinct, SetOf;
    SizesStep(done, r);
    assert videos[..i + 1] == videos[..i] + [videos[i]];
    assert previous.removed + videos[..i + 1] == previous.removed + videos[..i] + [videos[i]];
  }

  lemma ProgressEnds(previous: Marker, videos: seq<Name>, done: seq<Removal>, bytes: nat, m: Marker)
    requires Progressed(previous, videos, |videos|, done, bytes, m)
    ensures NamesOf(done) == videos && bytes == Sizes(done) && m == Finished(previous, videos, bytes)
  {
    assert videos[..|videos|] == videos;
  }

  /** What a stop leaves is what was there before and removals of the videos. */
  lemma RemovedSoFar(before: seq<Removal>, more: seq<Removal>, videos: seq<Name>, snapshots: map<Name, Identity>)
    requires OfVideos(more, videos, snapshots)
    ensures var unlinked := before + more;
            before <= unlinked &&
            forall i :: |before| <= i < |unlinked| ==>
              && unlinked[i].name in videos && unlinked[i].name in snapshots
              && unlinked[i].checked == snapshots[unlinked[i].name]
  {
  }

  // ----------------------------------------------------- one run directory

  class RunDirectory {
    var entries: map<Name, Entry>
    var file: MarkerFile
    ghost var unlinked: seq<Removal>    // every unlink the tool has done here
    ghost var recorded: seq<Removal>    // those the marker on disk has taken in
    ghost const base: Marker            // what the marker held before the first run
    const quiet: bool                   // nobody writes between a check and its unlink
    const still: bool                   // nobody writes during a pass
    ghost var failures: nat             // marker writes and unlinks that did not report success

    /** What holds on disk at every moment, whatever stops the tool there. */
    ghost predicate Consistent()
      reads this`file, this`unlinked, this`recorded
    {
      if file.Recorded? then Accounts(file.marker, base, unlinked, recorded, quiet)
      else unlinked == [] && recorded == [] && base == Marker([], 0, [])
    }

    constructor (entries: map<Name, Entry>, file: MarkerFile, quiet: bool, still: bool)
      ensures Consistent() && unlinked == [] && recorded == []
      ensures this.entries == entries && this.file == file && base == Before(file)
    {
      this.entries, this.file := entries, file;
      unlinked, recorded := [], [];
      base, this.quiet, this.still, failures := Before(file), quiet, still, 0;
      new;
      assert NamesOf([]) == [];
    }

    /** Other programs may change anything but the marker. */
    method Interfere()
      modifies this`entries
    {
      entries := *;
    }

    /** write_marker: the record is replaced atomically, or not at all. */
    method WriteMarker(m: Marker, ghost taken: seq<Removal>) returns (ok: bool)
      modifies this`file, this`recorded, this`failures
      ensures failures == old(failures) + if ok then 0 else 1
      ensures ok ==> file == Recorded(m)
      ensures (file == old(file) && recorded == old(recorded)) || (file == Recorded(m) && recorded == taken)
      ensures ok ==> recorded == taken
      ensures old(file).Unsafe? ==> file == old(file)
    {
      var replaced: bool, reported: bool := *, *;
      ok := !file.Unsafe? && replaced && reported;
      if !ok { failures := failures + 1; }
      if !file.Unsafe? && replaced { file, recorded := Recorded(m), taken; }
    }

    /** path.unlink(): it may fail, and the process may stop right after it. */
    method Unlink(name: Name, ghost checked: Identity) returns (ok: bool, ghost landed: bool, ghost r: Removal)
      modifies this`entries, this`unlinked, this`failures
      ensures ok ==> landed
      ensures failures == old(failures) + if ok then 0 else 1
      ensures entries == if landed then old(entries) - {name} else old(entries)
      ensures landed ==> name in old(entries) && r == Removal(name, checked, old(entries)[name])
      ensures unlinked == if landed then old(unlinked) + [r] else old(unlinked)
    {
      var lands: bool := *;
      landed, r := false, Removal(name, checked, Regular(checked));
      if !lands || name !in entries {
        failures := failures + 1;
        return false, landed, r;
      }
      landed, r := true, Removal(name, checked, entries[name]);
      unlinked := unlinked + [r];
      entries := entries - {name};
      ok := *;
      if !ok { failures := failures + 1; }
    }

    predicate Unchanged(name: Name, id: Identity)
      reads this`entries
    {
      name in entries && entries[name] == Regular(id)
    }

    /** identity() of every video; lstat raises for one that is gone. */
    method Snapshot(videos: seq<Name>) returns (snapshots: Option<map<Name, Identity>>)
      ensures snapshots.Some? <==> forall x :: x in videos ==> x in entries
      ensures snapshots.Some? ==> snapshots.value.Keys == SetOf(videos)
      ensures snapshots.Some? ==> forall x :: x in videos ==> snapshots.value[x] == entries[x].id
    {
      var found: map<Name, Identity> := map[];
      for i := 0 to |videos|
        invariant found.Keys == SetOf(videos[..i])
        invariant forall x :: x in videos[..i] ==> x in entries && found[x] == entries[x].id
      {
        if videos[i] !in entries { return None; }
        found := found[videos[i] := entries[videos[i]].id];
      }
      assert videos[..|videos|] == videos;
      return Some(found);
    }

    method AllUnchanged(videos: seq<Name>, snapshots: map<Name, Identity>) returns (same: bool)
      requires snapshots.Keys == SetOf(videos)
      ensures same <==> forall i :: 0 <= i < |videos| ==> Unchanged(videos[i], snapshots[videos[i]])
    {
      for i := 0 to |videos|
        invariant forall j :: 0 <= j < i ==> Unchanged(videos[j], snapshots[videos[j]])
      {
        if !Unchanged(videos[i], snapshots[videos[i]]) { return false; }
      }
      return true;
    }

    /** The videos of a listing: by name, regular and older than the cutoff. */
    method Select(listing: seq<Name>, isVideo: Name -> bool, cutoff: int) returns (videos: seq<Name>)
      requires Distinct(listing)
      ensures Distinct(videos)
      ensures forall x :: x in videos <==>
                x in listing && isVideo(x) && x in entries && entries[x].Regular? && entries[x].id.mtime < cutoff
    {
      videos := [];
      for i := 0 to |listing|
        invariant Distinct(videos)
        invariant forall x :: x in videos <==>
                    && x in listing[..i] && isVideo(x)
                    && x in entries && entries[x].Regular? && entries[x].id.mtime < cutoff
      {
        var x := listing[i];
        if isVideo(x) && x in entries && entries[x].Regular? && entries[x].id.mtime < cutoff {
          assert x !in listing[..i];
          videos := videos + [x];
        }
      }
      assert listing[..|listing|] == listing;
    }

    /** Check, unlink and record one video that the marker on disk has as pending. */
    method RemoveVideo(m: Marker, name: Name, id: Identity) returns (outcome: Outcome, after: Marker, ghost r: Removal)
      requires Consistent() && file == Recorded(m)
      requires name in m.pending && RemoveFirst(m.pending, name).Some?
      modifies this
      ensures Consistent()
      ensures outcome.Done? || outcome.Raised? || outcome.Interrupted?
      ensures failures >= old(failures) && (outcome.Interrupted? <==> failures > old(failures))
      ensures outcome.Raised? <==> !old(Unchanged(name, id))
      ensures still && outcome.Done? ==> entries == old(entries) - {name}
      ensures unlinked == old(unlinked) || (r.name == name && r.checked == id && unlinked == old(unlinked) + [r])
      ensures outcome.Done? ==>
                && after == Moved(m, name, id.size) && file == Recorded(after)
                && unlinked == old(unlinked) + [r] && recorded == old(recorded) + [r]
    {
      hide NamesOf, Sizes, RemoveFirst, Accounts;
      after, r := m, Removal(name, id, Regular(id));
      if !Unchanged(name, id) { return Raised, after, r; }
      if !quiet && !still { Interfere(); }
      var ok; ghost var landed;
      ok, landed, r := Unlink(name, id);
      if landed { UnlinkAccounted(m, base, old(unlinked), recorded, quiet, r); }
      if !ok { return Interrupted, after, r; }
      RecordAccounted(m, base, unlinked, recorded, quiet, r);
      after := Moved(m, name, id.size);
      var written := WriteMarker(after, recorded + [r]);
      if !written { return Interrupted, after, r; }
      return Done(1, id.size), after, r;
    }

    /** The marker first lists every video as pending. */
    method Announce(videos: seq<Name>) returns (written: bool, m: Marker)
      requires Consistent() && (file.Absent? || file.Recorded?)
      modifies this`file, this`recorded, this`failures
      ensures Consistent() && recorded == old(recorded)
      ensures failures == old(failures) + if written then 0 else 1
      ensures var previous := old(Before(file));
              m == Marker(previous.removed, previous.bytes, Deduped(previous.pending + videos))
      ensures written ==> file == Recorded(m)
    {
      hide Accounts, Deduped;
      var previous := Before(file);
      m := Marker(previous.removed, previous.bytes, Deduped(previous.pending + videos));
      StartAccounted(previous, base, unlinked, recorded, quiet, videos, file);
      written := WriteMarker(m, recorded);
    }

    /** The marker and unlink loop over the videos. */
    method RemoveVideos(videos: seq<Name>, snapshots: map<Name, Identity>) returns (outcome: Outcome)
      requires Consistent() && Distinct(videos) && snapshots.Keys == SetOf(videos)
      modifies this
      ensures Consistent()
      ensures old(unlinked) <= unlinked
      ensures forall i :: |old(unlinked)| <= i < |unlinked| ==>
                unlinked[i].name in videos && unlinked[i].checked == snapshots[unlinked[i].name]
      ensures old(file).Unsafe? || old(file).Malformed? ==>
                outcome == Raised && file == old(file) && unlinked == old(unlinked)
      ensures outcome.Done? || outcome.Raised? || outcome.Interrupted?
      ensures outcome.Interrupted? <==> failures > old(failures)
      ensures still && AllStill(old(entries), videos, snapshots, 0) && (old(file).Absent? || old(file).Recorded?) ==>
                !outcome.Raised?
      ensures outcome.Done? ==>
                && NamesOf(unlinked[|old(unlinked)|..]) == videos
                && recorded == old(recorded) + unlinked[|old(unlinked)|..]
                && outcome.files == |videos| && outcome.bytes == Sizes(unlinked[|old(unlinked)|..])
                && file == Recorded(Finished(old(Before(file)), videos, outcome.bytes))
    {
      hide Consistent, Moved, Progressed, OfVideos, NamesOf, Sizes, Finished, Distinct, Deduped, RemoveFirst, AllStill;
      if file.Unsafe? || file.Malformed? { return Raised; }
      ghost var previous, taken := Before(file), recorded;
      var written, m := Announce(videos);
      if !written {
        NothingRemoved(previous, videos, snapshots);
        return Interrupted;
      }
      var bytes: nat := 0;
      ghost var done: seq<Removal> := [];
      NothingRemoved(previous, videos, snapshots);
      for i := 0 to |videos|
        invariant Consistent() && file == Recorded(m)
        invariant unlinked == old(unlinked) + done && recorded == taken + done
        invariant Progressed(previous, videos, i, done, bytes, m)
        invariant OfVideos(done, videos, snapshots) && failures == old(failures)
        invariant still && AllStill(old(entries), videos, snapshots, 0) ==> AllStill(entries, videos, snapshots, i)
      {
        var name := videos[i];
        NextIsPending(previous, videos, i, done, bytes, m);
        if AllStill(entries, videos, snapshots, i) { NextIsStill(entries, videos, snapshots, i); }
        var step, after; ghost var r;
        step, after, r := RemoveVideo(m, name, snapshots[name]);
        MoreOfVideos(done, videos, snapshots, r, i);
        if !step.Done? {
          ghost var more := if unlinked == old(unlinked) + done then done else done + [r];
          assert unlinked == old(unlinked) + more;
          RemovedSoFar(old(unlinked), more, videos, snapshots);
          return step;
        }
        ProgressStep(previous, videos, snapshots, i, done, bytes, m, r, after);
        done := done + [r];
        m, bytes := after, bytes + snapshots[name].size;
      }
      RemovedSoFar(old(unlinked), done, videos, snapshots);
      ProgressEnds(previous, videos, done, bytes, m);
      assert unlinked[|old(unlinked)|..] == done;
      return Done(|videos|, bytes);
    }

    /**
     One pass over this run: selection, the terminal-result and open-file checks,
     a last look for changes, then the removals.
     */
    method Cleanup(listing: seq<Name>, isVideo: Name -> bool, cutoff: int, terminal: bool, apply: bool,
                   probe: Option<bool>)
      returns (outcome: Outcome, videos: seq<Name>)
      requires Consistent() && Distinct(listing)
      modifies this
      ensures Consistent()
      ensures old(unlinked) <= unlinked
      ensures forall i :: |old(unlinked)| <= i < |unlinked| ==> isVideo(unlinked[i].name) && unlinked[i].name in listing
      ensures unlinked != old(unlinked) ==> apply && terminal && probe == Some(true)
      ensures old(file).Unsafe? || old(file).Malformed? || !apply || !terminal ==>
                file == old(file) && unlinked == old(unlinked)
      ensures outcome.Done? ==>
                && NamesOf(unlinked[|old(unlinked)|..]) == videos
                && outcome.files == |videos| && outcome.bytes == Sizes(unlinked[|old(unlinked)|..])
                && file == Recorded(Finished(old(Before(file)), videos, outcome.bytes))
      // which videos, and with nobody else at work, what becomes of them
      ensures forall x :: x in videos <==> old(Eligible(x, listing, isVideo, cutoff))
      ensures outcome.Interrupted? <==> failures > old(failures)
      ensures videos == [] || !terminal ==> outcome == Skipped
      ensures still && videos != [] && terminal ==>
                if !apply then outcome == Preview
                else if probe.None? then outcome == Raised
                else if !probe.value then outcome == Skipped
                else if old(file).Unsafe? || old(file).Malformed? then outcome == Raised
                else outcome.Done? || outcome.Interrupted?
    {
      hide Finished, NamesOf, Sizes, Consistent;
      videos := Select(listing, isVideo, cutoff);
      if videos == [] || !terminal { return Skipped, videos; }
      if !still { Interfere(); }
      var snapshots := Snapshot(videos);
      if snapshots.None? { return Raised, videos; }
      if !apply { return Preview, videos; }
      if probe.None? { return Raised, videos; }              // lsof failed
      if !probe.value { return Skipped, videos; }            // or found one open
      if !still { Interfere(); }
      var same := AllUnchanged(videos, snapshots.value);
      if !same { return Skipped, videos; }
      assert AllStill(entries, videos, snapshots.value, 0);
      outcome := RemoveVideos(videos, snapshots.value);
    }

    /** A regular video file of the listing, older than the cutoff. */
    predicate Eligible(x: Name, listing: seq<Name>, isVideo: Name -> bool, cutoff: int)
      reads this`entries
    {
      x in listing && isVideo(x) && x in entries && entries[x].Regular? && entries[x].id.mtime < cutoff
    }

    /** Any number of passes, with anything happening in between. */
    method Passes(listings: seq<seq<Name>>, isVideo: Name -> bool, cutoffs: seq<int>)
      requires Consistent() && |cutoffs| == |listings|
      requires forall i :: 0 <= i < |listings| ==> Distinct(listings[i])
      modifies this
      ensures Consistent() && old(unlinked) <= unlinked
      ensures forall i :: |old(unlinked)| <= i < |unlinked| ==> isVideo(unlinked[i].name)
    {
      hide Consistent;
      for k := 0 to |listings|
        invariant Consistent() && old(unlinked) <= unlinked
        invariant forall i :: |old(unlinked)| <= i < |unlinked| ==> isVideo(unlinked[i].name)
      {
        Interfere();
        var terminal: bool, apply: bool, probed: bool, closed: bool := *, *, *, *;
        var probe := if probed then Some(closed) else None;
        var _, _ := Cleanup(listings[k], isVideo, cutoffs[k], terminal, apply, probe);
      }
    }
  }
}
