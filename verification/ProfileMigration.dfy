/**
 migrate_bundle on version-1 bundles. A version-1 slot refers to a profile and
 adds its own mode, display and volume; a version-5 slot only names a profile that
 holds everything. The loop therefore rewrites, shares and adds profiles.
 */
module ProfileMigration {
  import opened Bytes
  import opened Wrappers
  import opened Utf8
  import opened ProfileNames

  const MAX_PROFILE_COUNT: nat := 10
  const MAX_DESCRIPTION_BYTES: nat := 4096

  // ------------------------------------------------------------- bundles

  datatype OldProfile = OldProfile(name: Text, description: Text, raw: seq<byte>,
                                   displayOn: bool, mainVolume: nat, mutedVolume: nat)

  datatype OldSlot = OldSlot(name: Text, profile: Text, mode: nat, color: nat,
                             volumeConfigured: bool, volume: nat, muteVolume: nat,
                             darkMode: bool, muteToZero: bool, alertPersist: nat, priorityArrowOnly: bool)

  datatype OldBundle = OldBundle(autoPush: bool, activeSlot: nat, slots: seq<OldSlot>, profiles: seq<OldProfile>)

  datatype Policy = Unchanged | Value
  datatype Mode = ModeUnchanged | ModeValue(mode: nat)
  datatype Switch = Keep | Off | On
  datatype Feedback = NoFeedback | ChangedOnly | Always
  datatype Volume = VolumeUnchanged
                  | VolumeSet(saved: bool, main: nat, muted: nat, feedback: Feedback, restoreSaved: bool)

  /** customFrequencies is only ever "unchanged" in a migrated profile. */
  datatype Detector = Detector(userSettings: Policy, mode: Mode, display: Switch, volume: Volume, bluetoothLed: Switch)

  /** What a profile does to the detector. */
  datatype Application = Application(raw: seq<byte>, detector: Detector)

  datatype Profile = Profile(name: Text, description: Text, application: Application)

  datatype Modifiers = Modifiers(volumeOverride: bool, volume: nat, muteVolume: nat,
                                 darkModeOverride: bool, darkMode: bool)

  datatype Slot = Slot(name: Text, profile: Text, color: nat, alertPersist: nat, priorityArrowOnly: bool,
                       modifiers: Modifiers)

  datatype Bundle = Bundle(autoPush: bool, activeSlot: nat, slots: seq<Slot>, profiles: seq<Profile>)

  const NO_MODIFIERS := Modifiers(false, 255, 255, false, false)

  function DefaultDetector(userSettings: Policy): Detector {
    Detector(userSettings, ModeUnchanged, Keep, VolumeUnchanged, Keep)
  }

  // ----------------------------------------------------------- validation

  predicate ValidSlotName(name: Text) {
    TextWithin(name, 20) && forall i :: 0 <= i < |name| ==> !(97 <= name[i] < 123)
  }

  predicate Level(v: nat) { v <= 9 }

  predicate ValidOldProfile(p: OldProfile) {
    && CanonicalName(p.name) && TextWithin(p.description, MAX_DESCRIPTION_BYTES) && |p.raw| == 6
    && (Level(p.mainVolume) || p.mainVolume == 255) && (Level(p.mutedVolume) || p.mutedVolume == 255)
  }

  predicate ValidOldSlot(s: OldSlot, b: OldBundle) {
    && ValidSlotName(s.name)
    && (s.profile == [] || exists k :: 0 <= k < |b.profiles| && b.profiles[k].name == s.profile)
    && s.color <= 65535 && s.alertPersist <= 5 && s.mode <= 3
    && Level(s.volume) && Level(s.muteVolume)
    && (s.volumeConfigured || s.volume == s.muteVolume == 0)
  }

  /** The ranges a version-1 slot and profile are held to, value by value. */
  lemma OldRanges(s: OldSlot, p: OldProfile, b: OldBundle)
    ensures ValidOldSlot(s, b) ==>
              && s.mode in {0, 1, 2, 3} && s.alertPersist in {0, 1, 2, 3, 4, 5} && s.color < 0x1_0000
              && s.volume in {0, 1, 2, 3, 4, 5, 6, 7, 8, 9} && s.muteVolume in {0, 1, 2, 3, 4, 5, 6, 7, 8, 9}
              && (!s.volumeConfigured ==> s.volume == 0 && s.muteVolume == 0)
    ensures (&& ValidSlotName(s.name) && s.profile == [] && s.mode in {0, 1, 2, 3}
             && s.alertPersist in {0, 1, 2, 3, 4, 5} && s.color < 0x1_0000 && s.volumeConfigured
             && s.volume in {0, 1, 2, 3, 4, 5, 6, 7, 8, 9} && s.muteVolume in {0, 1, 2, 3, 4, 5, 6, 7, 8, 9}) ==>
              ValidOldSlot(s, b)
    ensures ValidOldProfile(p) <==>
              && CanonicalName(p.name) && TextWithin(p.description, 4096) && |p.raw| == 6
              && p.mainVolume in {0, 1, 2, 3, 4, 5, 6, 7, 8, 9, 255}
              && p.mutedVolume in {0, 1, 2, 3, 4, 5, 6, 7, 8, 9, 255}
  {
    hide CanonicalName, TextWithin;
  }

  /** validate_bundle on version 1. */
  predicate ValidOld(b: OldBundle) {
    && b.activeSlot <= 2 && |b.slots| == 3 && |b.profiles| <= MAX_PROFILE_COUNT
    && (forall k :: 0 <= k < |b.profiles| ==> ValidOldProfile(b.profiles[k]))
    && (forall k, l :: 0 <= k < l < |b.profiles| ==> Fold(b.profiles[k].name) != Fold(b.profiles[l].name))
    && (forall i :: 0 <= i < |b.slots| ==> ValidOldSlot(b.slots[i], b))
  }

  predicate ValidDetector(d: Detector) {
    && (d.mode.ModeValue? ==> 1 <= d.mode.mode <= 3)
    && (d.volume.VolumeSet? ==>
          Level(d.volume.main) && Level(d.volume.muted) && (d.volume.saved ==> d.volume.restoreSaved))
  }

  predicate ValidProfile(p: Profile) {
    && CanonicalName(p.name) && TextWithin(p.description, MAX_DESCRIPTION_BYTES)
    && |p.application.raw| == 6 && ValidDetector(p.application.detector)
  }

  predicate DistinctNames(catalog: seq<Profile>) {
    forall k, l :: 0 <= k < l < |catalog| ==> Fold(catalog[k].name) != Fold(catalog[l].name)
  }

  predicate ValidModifiers(m: Modifiers) {
    && (if m.volumeOverride then Level(m.volume) && Level(m.muteVolume) else m.volume == m.muteVolume == 255)
    && (m.darkModeOverride || !m.darkMode)
  }

  predicate ValidSlot(s: Slot, catalog: seq<Profile>) {
    && ValidSlotName(s.name)
    && (s.profile == [] || exists k :: 0 <= k < |catalog| && catalog[k].name == s.profile)
    && 1 <= s.color <= 65535 && s.alertPersist <= 5 && ValidModifiers(s.modifiers)
  }

  /** validate_bundle on version 5. */
  predicate Valid(b: Bundle) {
    && b.activeSlot <= 2 && |b.slots| == 3 && |b.profiles| <= MAX_PROFILE_COUNT
    && (forall k :: 0 <= k < |b.profiles| ==> ValidProfile(b.profiles[k]))
    && DistinctNames(b.profiles)
    && (forall i :: 0 <= i < |b.slots| ==> ValidSlot(b.slots[i], b.profiles))
  }

  // ------------------------------------------------ what a slot applies

  /** Byte 0 with bit 0x10 set or cleared. */
  function Forced(b: byte, on: bool): byte {
    b - b / 16 % 2 * 16 + if on then 16 else 0
  }

  /** Forcing fixes the bit, leaves the others, and overrides an earlier forcing. */
  lemma ForcedBit(b: byte, on: bool, again: bool)
    ensures Forced(b, on) / 16 % 2 == (if on then 1 else 0)
    ensures Forced(b, on) % 16 == b % 16 && Forced(b, on) / 32 == b / 32
    ensures Forced(Forced(b, on), again) == Forced(b, again)
  {
  }

  function ForcedRaw(raw: seq<byte>, on: bool): seq<byte>
    requires raw != []
  {
    raw[0 := Forced(raw[0], on)]
  }

  ghost function Index(b: OldBundle, name: Text): (k: nat)
    requires exists k :: 0 <= k < |b.profiles| && b.profiles[k].name == name
    ensures k < |b.profiles| && b.profiles[k].name == name
  {
    var k :| 0 <= k < |b.profiles| && b.profiles[k].name == name;
    k
  }

  /** The detector side of a version-1 slot. */
  function SlotDetector(s: OldSlot): Detector {
    Detector(
      if s.profile == [] then Unchanged else Value,
      if s.mode == 0 then ModeUnchanged else ModeValue(s.mode),
      if s.darkMode then Off else On,
      if s.volumeConfigured then VolumeSet(false, s.volume, s.muteVolume, NoFeedback, true) else VolumeUnchanged,
      if s.darkMode then Off else Keep)
  }

  /** What version-1 slot i applies: its profile's bytes as given, and its own settings. */
  ghost function Applied(b: OldBundle, i: nat): Application
    requires ValidOld(b) && i < 3
  {
    var s := b.slots[i];
    Application(
      if s.profile == [] then [255, 255, 255, 255, 255, 255]
      else ForcedRaw(b.profiles[Index(b, s.profile)].raw, !s.muteToZero),
      SlotDetector(s))
  }

  /** The profile a version-5 slot selects. */
  function Lookup(catalog: seq<Profile>, name: Text): Option<Profile> {
    if catalog == [] then None
    else if catalog[0].name == name then Some(catalog[0])
    else Lookup(catalog[1..], name)
  }

  lemma {:induction false} LookupFinds(catalog: seq<Profile>, k: nat)
    requires k < |catalog| && DistinctNames(catalog)
    ensures Lookup(catalog, catalog[k].name) == Some(catalog[k])
    decreases |catalog|
  {
    if k > 0 {
      assert Fold(catalog[0].name) != Fold(catalog[k].name);
      LookupFinds(catalog[1..], k - 1);
    }
  }

  // ------------------------------------------------- exactly when it works

  /** Slot i applies the same as an earlier slot with the same profile. */
  ghost predicate Shares(b: OldBundle, i: nat)
    requires ValidOld(b) && i < 3
  {
    exists j :: 0 <= j < i && b.slots[j].profile == b.slots[i].profile && Applied(b, j) == Applied(b, i)
  }

  predicate Repeats(b: OldBundle, i: nat)
    requires i < |b.slots|
  {
    exists j :: 0 <= j < i && b.slots[j].profile == b.slots[i].profile
  }

  /** Slot i needs a profile of its own in addition to those listed. */
  ghost predicate NeedsExtra(b: OldBundle, i: nat)
    requires ValidOld(b) && i < 3
  {
    !Shares(b, i) && (b.slots[i].profile == [] || Repeats(b, i))
  }

  ghost function Extras(b: OldBundle, n: nat): (r: nat)
    requires ValidOld(b) && n <= 3
    ensures r <= n
  {
    if n == 0 then 0 else Extras(b, n - 1) + if NeedsExtra(b, n - 1) then 1 else 0
  }

  function SlotStem(s: OldSlot): Text {
    if s.profile == [] then FromString("Auto-Push") else s.profile
  }

  /** The description of the entry that slot i selects: its profile's, or a fixed one without a profile. */
  ghost function SlotDescription(b: OldBundle, i: nat): Text
    requires ValidOld(b) && i < 3
  {
    if b.slots[i].profile == [] then MigratedDescription() else b.profiles[Index(b, b.slots[i].profile)].description
  }

  /** A name made up for slot k: a candidate with the slot's number. */
  ghost predicate MadeUp(slot: OldSlot, k: nat, name: Text) {
    HasCandidate(if slot.profile == [] then FromString("Auto-Push") else slot.profile,
                 SlotSuffix(slot.profile != [], k + 1), name)
  }

  /** The slot's number follows " - Slot " after a profile's name and " Slot " otherwise. */
  lemma SlotSuffixText(slot: nat)
    requires 1 <= slot <= 3
    ensures SlotSuffix(true, slot) == FromString(" - Slot ") + [48 + slot]
    ensures SlotSuffix(false, slot) == FromString(" Slot ") + [48 + slot]
  {
    assert Decimal(slot) == [48 + slot];
  }

  /** A name the entry made for slot k may have: a candidate for that slot, or its profile's own. */
  ghost predicate MadeFor(b: OldBundle, k: nat, name: Text)
    requires ValidOld(b) && k < 3
  {
    if NeedsExtra(b, k) then MadeUp(b.slots[k], k, name)
    else !Shares(b, k) && name == b.slots[k].profile
  }

  ghost predicate SameUse(b: OldBundle, k: nat, i: nat)
    requires ValidOld(b) && k < 3 && i < 3
  {
    b.slots[k].profile == b.slots[i].profile && Applied(b, k) == Applied(b, i)
  }

  /** Slots that apply the same of the same profile share the entry made for the first of them. */
  ghost predicate NameFits(b: OldBundle, i: nat, name: Text)
    requires ValidOld(b) && i < 3
  {
    exists k :: 0 <= k <= i && SameUse(b, k, i) && MadeFor(b, k, name)
  }

  /** Migration can name the profile that slot i needs. */
  ghost predicate Nameable(b: OldBundle, i: nat)
    requires ValidOld(b) && i < 3
  {
    NeedsExtra(b, i) ==> !Hides(Stem(SlotStem(b.slots[i])))
  }

  ghost predicate Migratable(b: OldBundle)
    requires ValidOld(b)
  {
    && |b.profiles| + Extras(b, 3) <= 10
    && forall i :: 0 <= i < 3 ==> Nameable(b, i) && b.slots[i].color != 0
  }

  // ------------------------------------------------------------- the loop

  function Base(p: OldProfile): Profile {
    Profile(p.name, p.description, Application(p.raw, DefaultDetector(Value)))
  }

  datatype Variant = Variant(source: Text, name: Text, profile: Profile)

  datatype Progress = Progress(catalog: seq<Profile>, byName: map<Text, Profile>, variants: seq<Variant>,
                               chosen: seq<Text>, seen: set<Text>)

  /** A copy of the source profile (or a blank one) with the slot's settings written over it. */
  function Effective(source: Option<Profile>, slot: OldSlot): Profile
    requires source.Some? ==> source.value.application.raw != []
  {
    var start := match source
      case Some(p) =>
        p.(application := Application(ForcedRaw(p.application.raw, !slot.muteToZero), DefaultDetector(Value)))
      case None =>
        Profile(FromString("Default"), [], Application([255, 255, 255, 255, 255, 255], DefaultDetector(Unchanged)));
    var d0 := start.application.detector;
    var d1 := if slot.mode != 0 then d0.(mode := ModeValue(slot.mode)) else d0;
    var d2 := d1.(display := if slot.darkMode then Off else On);
    var d3 := if slot.darkMode then d2.(bluetoothLed := Off) else d2;
    var d4 := if slot.volumeConfigured
              then d3.(volume := VolumeSet(false, slot.volume, slot.muteVolume, NoFeedback, true)) else d3;
    start.(application := start.application.(detector := d4))
  }

  /** The bytes of an entry: as listed, or with the bit forced by an earlier slot. */
  predicate SameBytes(raw: seq<byte>, original: seq<byte>) {
    |original| == 6 && (raw == original || raw == ForcedRaw(original, true) || raw == ForcedRaw(original, false))
  }

  /** Rewritten or not, the source gives the slot what the listed profile would have. */
  lemma EffectiveApplies(b: OldBundle, i: nat, source: Option<Profile>)
    requires ValidOld(b) && i < 3
    requires source.Some? <==> b.slots[i].profile != []
    requires source.Some? ==> SameBytes(source.value.application.raw, b.profiles[Index(b, b.slots[i].profile)].raw)
    ensures Effective(source, b.slots[i]).application == Applied(b, i)
    ensures ValidDetector(Applied(b, i).detector) && |Applied(b, i).raw| == 6
  {
    var s := b.slots[i];
    assert ValidOldSlot(s, b);
    if source.Some? {
      var original := b.profiles[Index(b, s.profile)].raw;
      ForcedBit(original[0], true, !s.muteToZero);
      ForcedBit(original[0], false, !s.muteToZero);
    }
  }

  // ----------------------------------------------------- the loop's invariant

  /** No slot before i has this profile. */
  predicate Unused(b: OldBundle, i: nat, name: Text)
    requires i <= |b.slots|
  {
    forall j :: 0 <= j < i ==> b.slots[j].profile != name
  }

  /** Listed profiles keep their place, name and description; unused ones are untouched. */
  ghost predicate CatalogOk(b: OldBundle, i: nat, catalog: seq<Profile>)
    requires ValidOld(b) && i <= 3
  {
    && |catalog| == |b.profiles| + Extras(b, i)
    && (forall c :: 0 <= c < |catalog| ==> ValidProfile(catalog[c]))
    && DistinctNames(catalog)
    && (forall k :: 0 <= k < |b.profiles| ==>
          && catalog[k].name == b.profiles[k].name && catalog[k].description == b.profiles[k].description
          && SameBytes(catalog[k].application.raw, b.profiles[k].raw)
          && (Unused(b, i, b.profiles[k].name) ==> catalog[k] == Base(b.profiles[k])))
  }

  ghost predicate ByNameOk(b: OldBundle, st: Progress) {
    && |st.catalog| >= |b.profiles|
    && (forall name :: name in st.byName ==> exists k :: 0 <= k < |b.profiles| && b.profiles[k].name == name)
    && (forall k :: 0 <= k < |b.profiles| ==>
          b.profiles[k].name in st.byName && st.byName[b.profiles[k].name] == st.catalog[k])
  }

  /** Slot j selects the catalog entry place[j], which applies what the old slot did. */
  ghost predicate PlacesOk(b: OldBundle, i: nat, catalog: seq<Profile>, chosen: seq<Text>, place: seq<nat>)
    requires ValidOld(b) && i <= 3
  {
    && |chosen| == |place| == i
    && (forall j :: 0 <= j < i ==>
          && place[j] < |catalog| && catalog[place[j]].name == chosen[j]
          && catalog[place[j]].application == Applied(b, j)
          && catalog[place[j]].description == SlotDescription(b, j) && NameFits(b, j, chosen[j])
          && (place[j] < |b.profiles| ==> b.profiles[place[j]].name == b.slots[j].profile))
  }

  /** Variant v was made for slot origin[v], and every slot has its variant. */
  ghost predicate VariantsOk(b: OldBundle, i: nat, st: Progress, origin: seq<nat>)
    requires ValidOld(b) && i <= 3 && |st.chosen| == i
  {
    && |origin| == |st.variants|
    && (forall v :: 0 <= v < |origin| ==>
          && origin[v] < i && st.variants[v].source == b.slots[origin[v]].profile
          && st.variants[v].name == st.chosen[origin[v]]
          && st.variants[v].profile.application == Applied(b, origin[v]))
    && (forall j :: 0 <= j < i ==> HasVariant(b, j, st.variants))
  }

  ghost predicate HasVariant(b: OldBundle, j: nat, variants: seq<Variant>)
    requires ValidOld(b) && j < 3
  {
    exists v :: 0 <= v < |variants| && Matches(variants[v], b.slots[j].profile, Applied(b, j))
  }

  predicate Matches(v: Variant, source: Text, application: Application) {
    v.source == source && v.profile.application == application
  }

  ghost predicate SeenOk(b: OldBundle, i: nat, seen: set<Text>)
    requires ValidOld(b) && i <= 3
  {
    forall x :: x in seen <==> !Unused(b, i, x)
  }

  ghost predicate Inv(b: OldBundle, i: nat, st: Progress, place: seq<nat>, origin: seq<nat>)
    requires ValidOld(b) && i <= 3
  {
    && CatalogOk(b, i, st.catalog) && ByNameOk(b, st) && PlacesOk(b, i, st.catalog, st.chosen, place)
    && VariantsOk(b, i, st, origin) && SeenOk(b, i, st.seen)
  }

  // ----------------------------------------------------- what each branch keeps

  lemma UnusedStep(b: OldBundle, i: nat, x: Text)
    requires i < |b.slots|
    ensures Unused(b, i + 1, x) <==> Unused(b, i, x) && b.slots[i].profile != x
  {
  }

  lemma SeenStep(b: OldBundle, i: nat, seen: set<Text>, more: set<Text>)
    requires ValidOld(b) && i < 3 && SeenOk(b, i, seen)
    requires more == seen + {b.slots[i].profile}
    ensures SeenOk(b, i + 1, more)
  {
    hide ValidOldProfile, ValidOldSlot;
    forall x ensures x in more <==> !Unused(b, i + 1, x) { UnusedStep(b, i, x); }
  }

  /** Another slot with a profile already in use, and no new entry. */
  lemma CatalogShared(b: OldBundle, i: nat, catalog: seq<Profile>)
    requires ValidOld(b) && i < 3 && CatalogOk(b, i, catalog) && !NeedsExtra(b, i)
    ensures CatalogOk(b, i + 1, catalog)
  {
    hide ValidOldProfile, ValidOldSlot, ValidProfile, SameBytes, NeedsExtra, DistinctNames;
    forall k | 0 <= k < |b.profiles| && Unused(b, i + 1, b.profiles[k].name) ensures Unused(b, i, b.profiles[k].name) {
      UnusedStep(b, i, b.profiles[k].name);
    }
  }

  /** The first slot with profile k rewrites its entry in place. */
  lemma CatalogRewritten(b: OldBundle, i: nat, catalog: seq<Profile>, k: nat, p: Profile)
    requires ValidOld(b) && i < 3 && CatalogOk(b, i, catalog) && !NeedsExtra(b, i)
    requires k < |b.profiles| && b.slots[i].profile == b.profiles[k].name
    requires p.name == catalog[k].name && p.description == catalog[k].description
    requires p.application == Applied(b, i)
    ensures CatalogOk(b, i + 1, catalog[k := p])
  {
    hide ValidOldProfile, ValidOldSlot, CanonicalName, NeedsExtra, TextWithin, SlotDetector, Forced;
    var after := catalog[k := p];
    AppliedShape(b, i, k);
    assert ValidProfile(catalog[k]);
    forall l | 0 <= l < |b.profiles| && Unused(b, i + 1, b.profiles[l].name)
      ensures l != k && Unused(b, i, b.profiles[l].name)
    {
      UnusedStep(b, i, b.profiles[l].name);
    }
  }

  /** A slot that needs one gets an entry of its own at the end. */
  lemma CatalogAppended(b: OldBundle, i: nat, catalog: seq<Profile>, p: Profile)
    requires ValidOld(b) && i < 3 && CatalogOk(b, i, catalog) && NeedsExtra(b, i)
    requires ValidProfile(p) && !Taken(p.name, NamesIn(catalog))
    ensures CatalogOk(b, i + 1, catalog + [p])
  {
    hide ValidOldProfile, ValidOldSlot, ValidProfile, SameBytes, NeedsExtra;
    forall c | 0 <= c < |catalog| ensures Fold(catalog[c].name) != Fold(p.name) {
      assert NamesIn(catalog)[c] == catalog[c].name;
    }
    forall k | 0 <= k < |b.profiles| && Unused(b, i + 1, b.profiles[k].name) ensures Unused(b, i, b.profiles[k].name) {
      UnusedStep(b, i, b.profiles[k].name);
    }
  }

  function NamesIn(catalog: seq<Profile>): (r: seq<Text>)
    ensures |r| == |catalog| && forall c :: 0 <= c < |catalog| ==> r[c] == catalog[c].name
  {
    seq(|catalog|, c requires 0 <= c < |catalog| => catalog[c].name)
  }

  lemma NamesAreDistinct(b: OldBundle, k: nat, l: nat)
    requires ValidOld(b) && k < |b.profiles| && l < |b.profiles| && b.profiles[k].name == b.profiles[l].name
    ensures k == l
  {
  }

  lemma AppliedShape(b: OldBundle, i: nat, k: nat)
    requires ValidOld(b) && i < 3 && k < |b.profiles| && b.slots[i].profile == b.profiles[k].name
    ensures SameBytes(Applied(b, i).raw, b.profiles[k].raw)
    ensures |Applied(b, i).raw| == 6 && ValidDetector(Applied(b, i).detector)
  {
    var s := b.slots[i];
    assert ValidOldSlot(s, b) && ValidOldProfile(b.profiles[k]);
    assert s.profile != [] by { assert CanonicalName(s.profile); }
    NamesAreDistinct(b, k, Index(b, s.profile));
  }

  /** A slot placed at entry c, when no entry an earlier slot selects has changed. */
  lemma PlacesStep(b: OldBundle, i: nat, before: seq<Profile>, after: seq<Profile>, chosen: seq<Text>,
                   place: seq<nat>, c: nat)
    requires ValidOld(b) && i < 3 && PlacesOk(b, i, before, chosen, place)
    requires |before| <= |after| && forall j :: 0 <= j < i ==> after[place[j]] == before[place[j]]
    requires c < |after| && after[c].application == Applied(b, i)
    requires after[c].description == SlotDescription(b, i) && NameFits(b, i, after[c].name)
    requires c < |b.profiles| ==> b.profiles[c].name == b.slots[i].profile
    ensures PlacesOk(b, i + 1, after, chosen + [after[c].name], place + [c])
  {
    hide ValidOldProfile, ValidOldSlot, Applied, SlotDescription, NameFits;
  }

  lemma VariantsStep(b: OldBundle, i: nat, st: Progress, origin: seq<nat>, after: Progress, p: Profile)
    requires ValidOld(b) && i < 3 && |st.chosen| == i && VariantsOk(b, i, st, origin)
    requires after.chosen == st.chosen + [p.name] && p.application == Applied(b, i)
    requires after.variants == st.variants + [Variant(b.slots[i].profile, p.name, p)]
    ensures VariantsOk(b, i + 1, after, origin + [i])
  {
    hide ValidOldProfile, ValidOldSlot, Applied;
    var n := |st.variants|;
    forall j | 0 <= j < i + 1 ensures HasVariant(b, j, after.variants) {
      if j == i {
        assert Matches(after.variants[n], b.slots[i].profile, Applied(b, i));
      } else {
        assert HasVariant(b, j, st.variants);
        var v :| 0 <= v < n && Matches(st.variants[v], b.slots[j].profile, Applied(b, j));
        assert after.variants[v] == st.variants[v];
      }
    }
  }

  /** The slot takes the entry of the variant it matches. */
  lemma ReuseKeeps(b: OldBundle, i: nat, st: Progress, place: seq<nat>, origin: seq<nat>, v: nat, after: Progress)
    requires ValidOld(b) && i < 3 && Inv(b, i, st, place, origin)
    requires v < |st.variants| && Matches(st.variants[v], b.slots[i].profile, Applied(b, i))
    requires after == st.(chosen := st.chosen + [st.variants[v].name])
    ensures Shares(b, i)
    ensures Inv(b, i + 1, after, place + [place[origin[v]]], origin)
  {
    hide ValidOldProfile, ValidOldSlot, Applied, CatalogOk, Unused, NameFits;
    var j := origin[v];
    SharedFits(b, j, i, st.chosen[j]);
    assert b.slots[j].profile == b.slots[i].profile && Applied(b, j) == Applied(b, i);
    CatalogShared(b, i, st.catalog);
    PlacesStep(b, i, st.catalog, st.catalog, st.chosen, place, place[j]);
    assert st.seen == st.seen + {b.slots[i].profile} by {
      UsedBy(b, i, j);
    }
    SeenStep(b, i, st.seen, st.seen);
    assert HasVariant(b, i, st.variants);
  }

  /** What fits a slot fits a later one that shares its entry. */
  lemma SharedFits(b: OldBundle, j: nat, i: nat, name: Text)
    requires ValidOld(b) && j < i < 3 && NameFits(b, j, name)
    requires b.slots[j].profile == b.slots[i].profile && Applied(b, j) == Applied(b, i)
    ensures NameFits(b, i, name) && SlotDescription(b, j) == SlotDescription(b, i)
  {
    hide ValidOldProfile, ValidOldSlot, Applied, MadeFor;
    var k :| 0 <= k <= j && SameUse(b, k, j) && MadeFor(b, k, name);
    assert SameUse(b, k, i);
  }

  /** The first user of a profile keeps its name. */
  lemma OwnNameFits(b: OldBundle, i: nat, name: Text)
    requires ValidOld(b) && i < 3 && !Shares(b, i) && !NeedsExtra(b, i) && name == b.slots[i].profile
    ensures NameFits(b, i, name)
  {
    hide ValidOldProfile, ValidOldSlot, Applied, Shares, NeedsExtra;
    assert MadeFor(b, i, name) && SameUse(b, i, i);
  }

  lemma MadeNameFits(b: OldBundle, i: nat, name: Text)
    requires ValidOld(b) && i < 3 && MadeFor(b, i, name)
    ensures NameFits(b, i, name)
  {
    hide ValidOldProfile, ValidOldSlot, Applied, MadeFor;
    assert SameUse(b, i, i);
  }

  lemma UsedBy(b: OldBundle, i: nat, j: nat)
    requires j < i <= |b.slots|
    ensures !Unused(b, i, b.slots[j].profile)
  {
  }

  lemma NotShared(b: OldBundle, i: nat, st: Progress, origin: seq<nat>)
    requires ValidOld(b) && i < 3 && |st.chosen| == i && VariantsOk(b, i, st, origin)
    requires forall v :: 0 <= v < |st.variants| ==> !Matches(st.variants[v], b.slots[i].profile, Applied(b, i))
    ensures !Shares(b, i)
  {
    hide ValidOldProfile, ValidOldSlot, Applied;
    forall j | 0 <= j < i && b.slots[j].profile == b.slots[i].profile ensures Applied(b, j) != Applied(b, i) {
      assert HasVariant(b, j, st.variants);
    }
  }

  lemma RewriteKeeps(b: OldBundle, i: nat, st: Progress, place: seq<nat>, origin: seq<nat>, k: nat, p: Profile,
                     after: Progress)
    requires ValidOld(b) && i < 3 && Inv(b, i, st, place, origin)
    requires k < |b.profiles| && b.slots[i].profile == b.profiles[k].name && b.slots[i].profile !in st.seen
    requires b.slots[i].profile != []
    requires p.name == st.catalog[k].name && p.description == st.catalog[k].description
    requires p.application == Applied(b, i) && !Shares(b, i)
    requires after == Progress(st.catalog[k := p], st.byName[p.name := p], st.variants + [Variant(p.name, p.name, p)],
                               st.chosen + [p.name], st.seen + {p.name})
    ensures Inv(b, i + 1, after, place + [k], origin + [i])
  {
    hide ValidOldProfile, ValidOldSlot, Applied, Unused, ValidProfile, SameBytes, DistinctNames, NameFits, Shares;
    assert p.name == b.slots[i].profile;
    assert p.description == SlotDescription(b, i) by { NamesAreDistinct(b, k, Index(b, b.slots[i].profile)); }
    assert !Repeats(b, i) by { SeenMeansRepeats(b, i, st.seen); }
    OwnNameFits(b, i, p.name);
    forall j | 0 <= j < i ensures b.slots[j].profile != p.name && place[j] != k {
      UsedBy(b, i, j);
    }
    CatalogRewritten(b, i, st.catalog, k, p);
    PlacesStep(b, i, st.catalog, after.catalog, st.chosen, place, k);
    VariantsStep(b, i, st, origin, after, p);
    SeenStep(b, i, st.seen, after.seen);
    ByNameRewritten(b, st, after, k, p);
  }

  lemma ByNameRewritten(b: OldBundle, st: Progress, after: Progress, k: nat, p: Profile)
    requires ValidOld(b) && ByNameOk(b, st) && k < |b.profiles| && p.name == b.profiles[k].name
    requires after.catalog == st.catalog[k := p] && after.byName == st.byName[p.name := p]
    ensures ByNameOk(b, after)
  {
    hide ValidOldProfile, ValidOldSlot;
    forall l | 0 <= l < |b.profiles|
      ensures b.profiles[l].name in after.byName && after.byName[b.profiles[l].name] == after.catalog[l]
    {
      if b.profiles[l].name == p.name { NamesAreDistinct(b, k, l); }
    }
  }

  /** The entry made for slot i. */
  ghost predicate NewEntry(b: OldBundle, i: nat, p: Profile)
    requires ValidOld(b) && i < 3
  {
    && ValidProfile(p) && p.application == Applied(b, i)
    && p.description == SlotDescription(b, i) && MadeFor(b, i, p.name)
  }

  lemma AppendKeeps(b: OldBundle, i: nat, st: Progress, place: seq<nat>, origin: seq<nat>, p: Profile, c: nat,
                    after: Progress)
    requires ValidOld(b) && i < 3 && c == |st.catalog|
    requires after == st.(catalog := st.catalog + [p],
                          variants := st.variants + [Variant(b.slots[i].profile, p.name, p)],
                          chosen := st.chosen + [p.name], seen := st.seen + {b.slots[i].profile})
    requires Inv(b, i, st, place, origin) && NeedsExtra(b, i)
    requires !Taken(p.name, NamesIn(st.catalog)) && NewEntry(b, i, p)
    ensures Inv(b, i + 1, after, place + [c], origin + [i])
  {
    hide ValidOldProfile, ValidOldSlot, Applied, Unused, ValidProfile, SameBytes, DistinctNames, NeedsExtra, NameFits,
         MadeFor, SlotDescription;
    MadeNameFits(b, i, p.name);
    CatalogAppended(b, i, st.catalog, p);
    PlacesStep(b, i, st.catalog, after.catalog, st.chosen, place, c);
    VariantsStep(b, i, st, origin, after, p);
    SeenStep(b, i, st.seen, after.seen);
  }

  // ------------------------------------------------------------ the methods

  method Listed(profiles: seq<OldProfile>) returns (catalog: seq<Profile>, byName: map<Text, Profile>)
    ensures |catalog| == |profiles| && forall k :: 0 <= k < |profiles| ==> catalog[k] == Base(profiles[k])
    ensures forall name :: name in byName <==> exists k :: 0 <= k < |profiles| && profiles[k].name == name
    ensures (forall k, l :: 0 <= k < l < |profiles| ==> profiles[k].name != profiles[l].name) ==>
              forall k :: 0 <= k < |profiles| ==> byName[profiles[k].name] == catalog[k]
  {
    catalog, byName := [], map[];
    for n := 0 to |profiles|
      invariant |catalog| == n && forall k :: 0 <= k < n ==> catalog[k] == Base(profiles[k])
      invariant forall name :: name in byName <==> exists k :: 0 <= k < n && profiles[k].name == name
      invariant (forall k, l :: 0 <= k < l < |profiles| ==> profiles[k].name != profiles[l].name) ==>
                  forall k :: 0 <= k < n ==> byName[profiles[k].name] == catalog[k]
    {
      var migrated := Base(profiles[n]);
      catalog := catalog + [migrated];
      byName := byName[migrated.name := migrated];
    }
  }

  method FindVariant(variants: seq<Variant>, source: Text, application: Application) returns (found: Option<nat>)
    ensures found.Some? ==> found.value < |variants| && Matches(variants[found.value], source, application)
    ensures found.None? ==> forall v :: 0 <= v < |variants| ==> !Matches(variants[v], source, application)
  {
    for v := 0 to |variants|
      invariant forall u :: 0 <= u < v ==> !Matches(variants[u], source, application)
    {
      if Matches(variants[v], source, application) { return Some(v); }
    }
    return None;
  }

  /** catalog.index(entry) */
  method IndexOf(catalog: seq<Profile>, entry: Profile) returns (k: nat)
    requires entry in catalog
    ensures k < |catalog| && catalog[k] == entry
  {
    k := 0;
    while catalog[k] != entry
      invariant k < |catalog| && entry in catalog[k..]
      decreases |catalog| - k
    {
      k := k + 1;
    }
  }

  /** by_name.get(slot["profile"]) */
  function Source(st: Progress, slot: OldSlot): Option<Profile> {
    if slot.profile in st.byName then Some(st.byName[slot.profile]) else None
  }

  lemma SourceOk(b: OldBundle, i: nat, st: Progress)
    requires ValidOld(b) && i < 3 && CatalogOk(b, i, st.catalog) && ByNameOk(b, st)
    ensures Source(st, b.slots[i]).Some? <==> b.slots[i].profile != []
    ensures b.slots[i].profile != [] ==>
              var k := Index(b, b.slots[i].profile);
              && st.byName[b.slots[i].profile] == st.catalog[k] && st.catalog[k].name == b.slots[i].profile
              && CanonicalName(b.slots[i].profile)
              && |st.catalog[k].application.raw| == 6
    ensures Effective(Source(st, b.slots[i]), b.slots[i]).application == Applied(b, i)
    ensures ValidDetector(Applied(b, i).detector) && |Applied(b, i).raw| == 6
  {
    hide Effective, Applied, ValidDetector, DistinctNames;
    var slot := b.slots[i];
    assert ValidOldSlot(slot, b);
    forall k | 0 <= k < |b.profiles| ensures b.profiles[k].name != [] { assert ValidOldProfile(b.profiles[k]); }
    if slot.profile != [] {
      var k := Index(b, slot.profile);
      assert ValidOldProfile(b.profiles[k]);
    }
    EffectiveApplies(b, i, Source(st, slot));
  }

  lemma NewEntryValid(b: OldBundle, i: nat, p: Profile, name: Text)
    requires ValidOld(b) && i < 3 && CanonicalName(name)
    requires p.application == Applied(b, i) && ValidDetector(p.application.detector) && |p.application.raw| == 6
    requires TextWithin(p.description, MAX_DESCRIPTION_BYTES)
    ensures ValidProfile(p.(name := name))
  {
  }

  /** "Migrated Auto-Push detector configuration" */
  function MigratedDescription(): Text {
    FromString("Migrated ") + FromString("Auto-Push ") + FromString("detector ") + FromString("configuration")
  }

  lemma MigratedDescriptionText()
    ensures MigratedDescription() == FromString("Migrated Auto-Push detector configuration")
  {
    FromStringConcat("Migrated ", "Auto-Push ");
    FromStringConcat("Migrated " + "Auto-Push ", "detector ");
    FromStringConcat("Migrated " + "Auto-Push " + "detector ", "configuration");
    assert "Migrated " + "Auto-Push " + "detector " + "configuration" == "Migrated Auto-Push detector configuration";
  }

  lemma FromStringConcat(a: string, b: string)
    ensures FromString(a + b) == FromString(a) + FromString(b)
  {
  }

  lemma PlainJoin(s: Text, t: Text)
    requires Plain(s) && Plain(t)
    ensures Plain(s + t)
  {
  }

  lemma PlainWithin(s: Text, limit: nat)
    requires Plain(s) && |s| <= limit
    ensures TextWithin(s, limit)
  {
    PlainLength(s);
  }

  lemma MigratedDescriptionOk()
    ensures TextWithin(MigratedDescription(), MAX_DESCRIPTION_BYTES)
  {
    var a, b := FromString("Migrated "), FromString("Auto-Push ");
    var c, d := FromString("detector "), FromString("configuration");
    assert Plain(a);
    assert Plain(b);
    assert Plain(c);
    assert Plain(d);
    hide Plain, TextWithin;
    PlainJoin(a, b);
    PlainJoin(a + b, c);
    PlainJoin(a + b + c, d);
    PlainWithin(a + b + c + d, MAX_DESCRIPTION_BYTES);
  }

  lemma AutoPushStem()
    ensures Clean(FromString("Auto-Push")) && !Hides(Stem(FromString("Auto-Push")))
  {
    var s := FromString("Auto-Push");
    assert Plain(s);
    assert forall i :: 0 <= i < |s| ==> Allowed(s[i]) && !DotDotAt(s, i);
    StripFixed(s, Blank);
  }

  /** A name for the entry that slot i needs: refused exactly for an unnameable stem. */
  method NameEntry(slot: OldSlot, i: nat, catalog: seq<Profile>) returns (r: Result<Text, NameError>)
    requires i < 3 && |catalog| <= 13
    requires slot.profile != [] ==> CanonicalName(slot.profile)
    ensures r.Success? <==> !Hides(Stem(SlotStem(slot)))
    ensures r.Success? ==> CanonicalName(r.value) && !Taken(r.value, NamesIn(catalog))
    ensures r.Success? ==> MadeUp(slot, i, r.value)
  {
    hide Stem, Hides, Taken, Fold, CollisionSuffix, Prefix;
    AutoPushStem();
    var suffix := SlotSuffix(slot.profile != [], i + 1);
    assert Suffixes(suffix);
    var tried;
    r, tried := Unique(SlotStem(slot), suffix, NamesIn(catalog));
    assert r.Success? ==> IsCandidate(SlotStem(slot), suffix, tried, r.value);
  }

  lemma EntryIndex(catalog: seq<Profile>, k: nat, l: nat)
    requires DistinctNames(catalog) && k < |catalog| && l < |catalog| && catalog[k] == catalog[l]
    ensures k == l
  {
  }

  /** The first slot with a profile: its entry is replaced where it stands. */
  method RewriteEntry(b: OldBundle, i: nat, st: Progress, effective: Profile,
                      ghost place: seq<nat>, ghost origin: seq<nat>)
    returns (after: Progress, ghost k: nat)
    requires ValidOld(b) && i < 3 && Inv(b, i, st, place, origin)
    requires b.slots[i].profile != [] && b.slots[i].profile !in st.seen && !Shares(b, i)
    requires effective.application == Applied(b, i) && b.slots[i].profile in st.byName
    requires effective.name == st.byName[b.slots[i].profile].name
    requires effective.description == st.byName[b.slots[i].profile].description
    ensures Inv(b, i + 1, after, place + [k], origin + [i])
  {
    hide ValidOldProfile, ValidOldSlot, Applied, DistinctNames, Effective, PlacesOk, VariantsOk, SeenOk, ValidProfile,
         SameBytes, Shares;
    var name := b.slots[i].profile;
    SourceOk(b, i, st);
    k := Index(b, name);
    assert st.catalog[k] in st.catalog;
    var at := IndexOf(st.catalog, st.byName[name]);
    EntryIndex(st.catalog, at, k);
    after := Progress(st.catalog[at := effective], st.byName[name := effective],
                      st.variants + [Variant(name, name, effective)], st.chosen + [name], st.seen + {name});
    RewriteKeeps(b, i, st, place, origin, k, effective, after);
  }

  /** What an entry for slot i holds, its name aside. */
  ghost predicate EntryFor(b: OldBundle, i: nat, p: Profile)
    requires ValidOld(b) && i < 3
  {
    && p.application == Applied(b, i) && ValidDetector(p.application.detector) && |p.application.raw| == 6
    && TextWithin(p.description, MAX_DESCRIPTION_BYTES)
    && (b.slots[i].profile != [] ==>
          CanonicalName(b.slots[i].profile) && p.description == b.profiles[Index(b, b.slots[i].profile)].description)
  }

  /** A slot that needs an entry of its own. */
  method AppendEntry(b: OldBundle, i: nat, st: Progress, effective: Profile,
                     ghost place: seq<nat>, ghost origin: seq<nat>)
    returns (r: Result<Progress, NameError>)
    requires ValidOld(b) && i < 3 && Inv(b, i, st, place, origin) && NeedsExtra(b, i)
    requires EntryFor(b, i, effective)
    ensures r.Success? <==> Nameable(b, i)
    ensures r.Success? ==> Inv(b, i + 1, r.value, place + [|st.catalog|], origin + [i])
  {
    hide ValidOldProfile, ValidOldSlot, Applied, DistinctNames, PlacesOk, VariantsOk, SeenOk, ByNameOk, ValidProfile,
         NeedsExtra, TextWithin, ValidDetector, CanonicalName, Hides, Stem, SlotStem, Taken, MadeUp,
         MigratedDescription;
    MigratedDescriptionOk();
    var slot := b.slots[i];
    var name := NameEntry(slot, i, st.catalog);
    if name.Failure? { return Failure(name.error); }
    var described := if slot.profile != [] then effective
                     else effective.(description := MigratedDescription());
    NewEntryValid(b, i, described, name.value);
    var entry := described.(name := name.value);
    var after := st.(catalog := st.catalog + [entry],
                     variants := st.variants + [Variant(slot.profile, name.value, entry)],
                     chosen := st.chosen + [name.value], seen := st.seen + {slot.profile});
    AppendKeeps(b, i, st, place, origin, entry, |st.catalog|, after);
    return Success(after);
  }

  /** The effective profile keeps the source's name and a valid description. */
  lemma EffectiveText(b: OldBundle, i: nat, st: Progress)
    requires ValidOld(b) && i < 3 && CatalogOk(b, i, st.catalog) && ByNameOk(b, st)
    requires Source(st, b.slots[i]).Some? ==> Source(st, b.slots[i]).value.application.raw != []
    ensures TextWithin(Effective(Source(st, b.slots[i]), b.slots[i]).description, MAX_DESCRIPTION_BYTES)
    ensures Source(st, b.slots[i]).Some? ==>
              var source := Source(st, b.slots[i]).value;
              var effective := Effective(Source(st, b.slots[i]), b.slots[i]);
              effective.name == source.name && effective.description == source.description
    ensures b.slots[i].profile != [] ==>
              Effective(Source(st, b.slots[i]), b.slots[i]).description ==
              b.profiles[Index(b, b.slots[i].profile)].description
  {
    if Source(st, b.slots[i]).Some? {
      SourceOk(b, i, st);
      var k := Index(b, b.slots[i].profile);
      assert ValidProfile(st.catalog[k]);
    } else {
      assert TextWithin([], MAX_DESCRIPTION_BYTES);
    }
  }

  lemma SeenMeansRepeats(b: OldBundle, i: nat, seen: set<Text>)
    requires ValidOld(b) && i < 3 && SeenOk(b, i, seen)
    ensures b.slots[i].profile in seen <==> Repeats(b, i)
  {
  }

  /** The loop body for slot i. */
  method PlaceSlot(b: OldBundle, i: nat, st: Progress, ghost place: seq<nat>, ghost origin: seq<nat>)
    returns (r: Result<Progress, NameError>, ghost place': seq<nat>, ghost origin': seq<nat>)
    requires ValidOld(b) && i < 3 && Inv(b, i, st, place, origin)
    ensures r.Success? <==> Nameable(b, i)
    ensures r.Success? ==> Inv(b, i + 1, r.value, place', origin')
  {
    hide ValidOldProfile, ValidOldSlot, Applied, CatalogOk, ByNameOk, SeenOk, ValidProfile, Shares, Repeats, Effective,
         TextWithin, ValidDetector, CanonicalName, Hides, Stem, SlotStem;
    var slot := b.slots[i];
    SourceOk(b, i, st);
    SeenMeansRepeats(b, i, st.seen);
    var source := Source(st, slot);
    var effective := Effective(source, slot);
    EffectiveText(b, i, st);
    place', origin' := place, origin;
    var reused := FindVariant(st.variants, slot.profile, effective.application);
    if reused.Some? {
      r := Success(st.(chosen := st.chosen + [st.variants[reused.value].name]));
      ReuseKeeps(b, i, st, place, origin, reused.value, r.value);
      place' := place + [place[origin[reused.value]]];
      return;
    }
    NotShared(b, i, st, origin);
    origin' := origin + [i];
    if source.Some? && slot.profile !in st.seen {
      var after; ghost var k;
      after, k := RewriteEntry(b, i, st, effective, place, origin);
      r, place' := Success(after), place + [k];
    } else {
      r := AppendEntry(b, i, st, effective, place, origin);
      place' := place + [|st.catalog|];
    }
  }

  lemma StartOk(b: OldBundle, catalog: seq<Profile>, byName: map<Text, Profile>)
    requires ValidOld(b)
    requires |catalog| == |b.profiles| && forall k :: 0 <= k < |b.profiles| ==> catalog[k] == Base(b.profiles[k])
    requires forall name :: name in byName <==> exists k :: 0 <= k < |b.profiles| && b.profiles[k].name == name
    requires forall k :: 0 <= k < |b.profiles| ==> byName[b.profiles[k].name] == catalog[k]
    ensures Inv(b, 0, Progress(catalog, byName, [], [], {}), [], [])
  {
    forall k | 0 <= k < |b.profiles|
      ensures ValidProfile(catalog[k]) && SameBytes(catalog[k].application.raw, b.profiles[k].raw)
    {
      assert ValidOldProfile(b.profiles[k]);
    }
  }

  datatype MigrationError = InvalidBundle | Unnameable(why: NameError) | InvalidResult

  function NewSlot(s: OldSlot, profile: Text): Slot {
    Slot(s.name, profile, s.color, s.alertPersist, s.priorityArrowOnly, NO_MODIFIERS)
  }

  /** The finished bundle passes validation exactly when it is small enough and every slot has a colour. */
  lemma FinishedValid(b: OldBundle, st: Progress, place: seq<nat>, origin: seq<nat>, out: Bundle)
    requires ValidOld(b) && Inv(b, 3, st, place, origin)
    requires out.activeSlot == b.activeSlot && out.profiles == st.catalog && |out.slots| == 3
    requires forall i :: 0 <= i < 3 ==> out.slots[i] == NewSlot(b.slots[i], st.chosen[i])
    ensures Valid(out) <==>
              |b.profiles| + Extras(b, 3) <= MAX_PROFILE_COUNT && forall i :: 0 <= i < 3 ==> b.slots[i].color != 0
  {
    hide Applied, ValidOldProfile, ValidProfile, DistinctNames, ByNameOk, VariantsOk, SeenOk, Extras, SameBytes,
         NameFits, SlotDescription;
    forall i | 0 <= i < 3 ensures ValidSlot(out.slots[i], out.profiles) <==> b.slots[i].color != 0 {
      assert ValidOldSlot(b.slots[i], b);
      assert out.profiles[place[i]].name == out.slots[i].profile;
    }
  }

  lemma FinishedApplies(b: OldBundle, st: Progress, place: seq<nat>, origin: seq<nat>, i: nat)
    requires ValidOld(b) && Inv(b, 3, st, place, origin) && i < 3
    ensures Lookup(st.catalog, st.chosen[i]).Some?
    ensures var selected := Lookup(st.catalog, st.chosen[i]).value;
            selected.application == Applied(b, i) && selected.description == SlotDescription(b, i)
    ensures NameFits(b, i, st.chosen[i])
  {
    hide Applied, SlotDescription, NameFits;
    LookupFinds(st.catalog, place[i]);
  }

  /** The migrated bundle does what the old one did. */
  ghost predicate Preserves(b: OldBundle, out: Bundle)
    requires ValidOld(b)
  {
    && out.autoPush == b.autoPush && out.activeSlot == b.activeSlot && |out.slots| == 3
    && (forall i :: 0 <= i < 3 ==>
          && KeepsSettings(b.slots[i], out.slots[i])
          && NameFits(b, i, out.slots[i].profile)
          && Lookup(out.profiles, out.slots[i].profile).Some?
          && var selected := Lookup(out.profiles, out.slots[i].profile).value;
             selected.application == Applied(b, i) && selected.description == SlotDescription(b, i))
    && |out.profiles| == |b.profiles| + Extras(b, 3)
    && (forall k :: 0 <= k < |b.profiles| ==>
          && out.profiles[k].name == b.profiles[k].name && out.profiles[k].description == b.profiles[k].description
          && SameBytes(out.profiles[k].application.raw, b.profiles[k].raw)
          && (Unused(b, 3, b.profiles[k].name) ==> Untouched(b.profiles[k], out.profiles[k])))
  }

  /** A migrated slot keeps its own settings and overrides nothing. */
  predicate KeepsSettings(before: OldSlot, after: Slot) {
    && after.name == before.name && after.color == before.color
    && after.alertPersist == before.alertPersist && after.priorityArrowOnly == before.priorityArrowOnly
    && !after.modifiers.volumeOverride && after.modifiers.volume == after.modifiers.muteVolume == 255
    && !after.modifiers.darkModeOverride && !after.modifiers.darkMode
  }

  /** A profile that no slot uses keeps its text and bytes and leaves the detector's other settings alone. */
  predicate Untouched(before: OldProfile, after: Profile) {
    && after.name == before.name && after.description == before.description
    && after.application.raw == before.raw
    && after.application.detector.userSettings == Value && after.application.detector.mode == ModeUnchanged
    && after.application.detector.display == Keep && after.application.detector.volume == VolumeUnchanged
    && after.application.detector.bluetoothLed == Keep
  }

  /** The whole loop: it stops at the first slot whose entry cannot be named. */
  method PlaceSlots(b: OldBundle)
    returns (r: Result<Progress, NameError>, ghost place: seq<nat>, ghost origin: seq<nat>)
    requires ValidOld(b)
    ensures r.Success? <==> forall i :: 0 <= i < 3 ==> Nameable(b, i)
    ensures r.Success? ==> |r.value.chosen| == 3 && Inv(b, 3, r.value, place, origin)
  {
    hide Inv, Nameable, ValidOldSlot, ValidOldProfile;
    var catalog, byName := Listed(b.profiles);
    StartOk(b, catalog, byName);
    var st := Progress(catalog, byName, [], [], {});
    place, origin := [], [];
    for i := 0 to 3
      invariant Inv(b, i, st, place, origin)
      invariant forall j :: 0 <= j < i ==> Nameable(b, j)
    {
      var next;
      next, place, origin := PlaceSlot(b, i, st, place, origin);
      if next.Failure? { return Failure(next.error), place, origin; }
      st := next.value;
    }
    InvChosen(b, st, place, origin);
    return Success(st), place, origin;
  }

  /**
   Migration of a version-1 bundle: when it succeeds the result is valid and each
   slot applies what it applied; and it succeeds exactly on the bundles stated.
   */
  method Migrate(b: OldBundle) returns (r: Result<Bundle, MigrationError>)
    ensures r.Success? <==> ValidOld(b) && Migratable(b)
    ensures r.Success? ==> Valid(r.value) && Preserves(b, r.value)
  {
    hide Inv, Valid, Extras, Nameable, Preserves, ValidOldSlot, ValidOldProfile;
    if !ValidOld(b) { return Failure(InvalidBundle); }
    var run; ghost var place, origin;
    run, place, origin := PlaceSlots(b);
    if run.Failure? { return Failure(Unnameable(run.error)); }
    var st := run.value;
    var slots := seq(3, i requires 0 <= i < 3 && |b.slots| == |st.chosen| == 3 => NewSlot(b.slots[i], st.chosen[i]));
    var out := Bundle(b.autoPush, b.activeSlot, slots, st.catalog);
    FinishedValid(b, st, place, origin, out);
    if !Valid(out) { return Failure(InvalidResult); }
    FinishedPreserves(b, st, place, origin, out);
    return Success(out);
  }

  lemma InvChosen(b: OldBundle, st: Progress, place: seq<nat>, origin: seq<nat>)
    requires ValidOld(b) && Inv(b, 3, st, place, origin)
    ensures |st.chosen| == 3
  {
  }

  lemma FinishedPreserves(b: OldBundle, st: Progress, place: seq<nat>, origin: seq<nat>, out: Bundle)
    requires ValidOld(b) && Inv(b, 3, st, place, origin)
    requires out.autoPush == b.autoPush && out.activeSlot == b.activeSlot
    requires out.profiles == st.catalog && |out.slots| == 3
    requires forall i :: 0 <= i < 3 ==> out.slots[i] == NewSlot(b.slots[i], st.chosen[i])
    ensures Preserves(b, out)
  {
    hide Applied, ValidOldProfile, ValidOldSlot, ValidProfile, DistinctNames, ByNameOk, VariantsOk, SeenOk, Extras,
         SameBytes, Unused, Lookup, NameFits, SlotDescription;
    forall i | 0 <= i < 3
      ensures Lookup(st.catalog, st.chosen[i]).Some? && NameFits(b, i, st.chosen[i])
      ensures var selected := Lookup(st.catalog, st.chosen[i]).value;
              selected.application == Applied(b, i) && selected.description == SlotDescription(b, i)
    {
      FinishedApplies(b, st, place, origin, i);
    }
  }
}
