/**
 Profile names of a bundle and the names that migration makes up: which are
 canonical, why two of them never collide, and why one is always free.
 */
module ProfileNames {
  import opened Wrappers
  import opened Utf8

  const MAX_NAME_BYTES: nat := 64

  function FromString(s: string): (r: Text)
    ensures |r| == |s| && forall i :: 0 <= i < |s| ==> r[i] == s[i] as int
  {
    seq(|s|, i requires 0 <= i < |s| => s[i] as int)
  }

  // ------------------------------------------------------------- stripping

  /** The characters of the set " \t\r\n\v\f". */
  predicate AsciiBlank(c: Scalar) {
    c == 32 || 9 <= c <= 13
  }

  /** What str.strip() without an argument takes for white space. */
  predicate Blank(c: Scalar) {
    || AsciiBlank(c) || 0x1C <= c <= 0x1F || c == 0x85 || c == 0xA0 || c == 0x1680 || 0x2000 <= c <= 0x200A
    || c == 0x2028 || c == 0x2029 || c == 0x202F || c == 0x205F || c == 0x3000
  }

  function Strip(s: Text, blank: Scalar -> bool): (r: Text)
    ensures |r| <= |s|
    ensures r != [] ==> !blank(r[0]) && !blank(r[|r| - 1])
    decreases |s|
  {
    if s != [] && blank(s[0]) then Strip(s[1..], blank)
    else if s != [] && blank(s[|s| - 1]) then Strip(s[..|s| - 1], blank)
    else s
  }

  lemma Slices(s: Text, lo: nat, hi: nat)
    requires lo <= hi < |s|
    ensures s[1..][lo..hi] == s[lo + 1..hi + 1] && s[..|s| - 1][lo..hi] == s[lo..hi]
  {
  }

  predicate AllBlank(s: Text, blank: Scalar -> bool) {
    forall i :: 0 <= i < |s| ==> blank(s[i])
  }

  lemma AllBlankMore(s: Text, c: Scalar, blank: Scalar -> bool)
    requires AllBlank(s, blank) && blank(c)
    ensures AllBlank([c] + s, blank) && AllBlank(s + [c], blank)
  {
  }

  /** s[lo..hi] is what is left of s without blanks at its ends. */
  predicate Trims(s: Text, blank: Scalar -> bool, lo: nat, hi: nat) {
    lo <= hi <= |s| && AllBlank(s[..lo], blank) && AllBlank(s[hi..], blank)
  }

  lemma TrimsAfterFirst(s: Text, blank: Scalar -> bool, lo: nat, hi: nat)
    requires s != [] && blank(s[0]) && Trims(s[1..], blank, lo, hi)
    ensures Trims(s, blank, lo + 1, hi + 1) && s[1..][lo..hi] == s[lo + 1..hi + 1]
  {
    hide AllBlank;
    Slices(s, lo, hi);
    AllBlankMore(s[1..][..lo], s[0], blank);
    assert s[..lo + 1] == [s[0]] + s[1..][..lo];
    assert s[hi + 1..] == s[1..][hi..];
  }

  lemma TrimsBeforeLast(s: Text, blank: Scalar -> bool, lo: nat, hi: nat)
    requires s != [] && blank(s[|s| - 1]) && Trims(s[..|s| - 1], blank, lo, hi)
    ensures Trims(s, blank, lo, hi) && s[..|s| - 1][lo..hi] == s[lo..hi]
  {
    hide AllBlank;
    var rest := s[..|s| - 1];
    Slices(s, lo, hi);
    AllBlankMore(rest[hi..], s[|s| - 1], blank);
    assert s[..lo] == rest[..lo];
    assert s[hi..] == rest[hi..] + [s[|s| - 1]];
  }

  lemma TrimsNothing(s: Text, blank: Scalar -> bool)
    ensures Trims(s, blank, 0, |s|) && s[0..|s|] == s
  {
  }

  /** Strip takes blanks off both ends and nothing else. */
  lemma {:induction false} StripTrims(s: Text, blank: Scalar -> bool) returns (lo: nat, hi: nat)
    ensures Trims(s, blank, lo, hi) && lo <= hi <= |s| && Strip(s, blank) == s[lo..hi]
    decreases |s|
  {
    hide AllBlank;
    if s != [] && blank(s[0]) {
      lo, hi := StripTrims(s[1..], blank);
      TrimsAfterFirst(s, blank, lo, hi);
      lo, hi := lo + 1, hi + 1;
    } else if s != [] && blank(s[|s| - 1]) {
      lo, hi := StripTrims(s[..|s| - 1], blank);
      TrimsBeforeLast(s, blank, lo, hi);
    } else {
      lo, hi := 0, |s|;
      TrimsNothing(s, blank);
    }
  }

  // ------------------------------------------------------- canonical names

  predicate TextWithin(s: Text, limit: nat) {
    && (forall i :: 0 <= i < |s| ==> s[i] >= 32 || s[i] == 8 || s[i] == 9 || s[i] == 10 || s[i] == 12 || s[i] == 13)
    && |Encode(s)| <= limit
  }

  /** Not a control character and none of / \ : * ? " < > | */
  predicate Allowed(c: Scalar) {
    && c >= 32 && c != 127
    && c != 47 && c != 92 && c != 58 && c != 42 && c != 63 && c != 34 && c != 60 && c != 62 && c != 124
  }

  predicate DotDotAt(s: Text, i: nat) {
    i + 1 < |s| && s[i] == 46 && s[i + 1] == 46
  }

  predicate Clean(s: Text) {
    (forall i :: 0 <= i < |s| ==> Allowed(s[i])) && forall i :: 0 <= i < |s| ==> !DotDotAt(s, i)
  }

  /** A first character that would hide the file. */
  predicate Hides(s: Text) {
    s != [] && (s[0] == 46 || s[0] == 95)
  }

  predicate CanonicalName(s: Text) {
    TextWithin(s, MAX_NAME_BYTES) && s != [] && s == Strip(s, AsciiBlank) && !Hides(s) && Clean(s)
  }

  lemma CleanPart(s: Text, lo: nat, hi: nat)
    requires lo <= hi <= |s| && Clean(s)
    ensures Clean(s[lo..hi])
  {
    var part := s[lo..hi];
    forall i | 0 <= i < |part| ensures !DotDotAt(part, i) { assert DotDotAt(part, i) ==> DotDotAt(s, lo + i); }
  }

  // what these mean, character by character

  /** The characters of str.strip() are the ASCII blanks, four separators, and the blanks beyond ASCII. */
  lemma BlankExactly(c: Scalar)
    ensures AsciiBlank(c) <==> c in {9, 10, 11, 12, 13, 32}
    ensures Blank(c) <==>
              || c in {9, 10, 11, 12, 13, 28, 29, 30, 31, 32, 0x85, 0xA0, 0x1680}
              || c in {0x2000, 0x2001, 0x2002, 0x2003, 0x2004, 0x2005, 0x2006, 0x2007, 0x2008, 0x2009, 0x200A}
              || c in {0x2028, 0x2029, 0x202F, 0x205F, 0x3000}
  {
  }

  lemma AllowedExactly(c: Scalar)
    ensures Allowed(c) <==>
              && c >= 32 && c != 127
              && c !in {'/' as int, '\\' as int, ':' as int, '*' as int, '?' as int, '"' as int, '<' as int, '>' as int,
                        '|' as int}
  {
  }

  /** A canonical name: at most 64 bytes, no blank at either end, not hidden, no ".." and no character refused. */
  lemma CanonicalNameExactly(s: Text)
    ensures CanonicalName(s) <==>
              && s != [] && |Encode(s)| <= 64
              && !AsciiBlank(s[0]) && !AsciiBlank(s[|s| - 1]) && s[0] != '.' as int && s[0] != '_' as int
              && (forall i :: 0 <= i < |s| ==> Allowed(s[i]))
              && (forall i, j :: 0 <= i < j < |s| && j == i + 1 ==> s[i] != '.' as int || s[j] != '.' as int)
  {
    if s != [] && !AsciiBlank(s[0]) && !AsciiBlank(s[|s| - 1]) { StripFixed(s, AsciiBlank); }
    hide Encode, Strip;
    if forall i, j :: 0 <= i < j < |s| && j == i + 1 ==> s[i] != '.' as int || s[j] != '.' as int {
      assert forall i :: 0 <= i < |s| ==> !DotDotAt(s, i);
    }
    if forall i :: 0 <= i < |s| ==> !DotDotAt(s, i) {
      forall i, j | 0 <= i < j < |s| && j == i + 1 ensures s[i] != '.' as int || s[j] != '.' as int {
        assert !DotDotAt(s, i);
      }
    }
  }

  // ------------------------------------------------------------- candidates

  function Decimal(n: nat): (r: Text)
    ensures |r| >= 1 && forall i :: 0 <= i < |r| ==> 48 <= r[i] < 58
  {
    if n < 10 then [48 + n] else Decimal(n / 10) + [48 + n % 10]
  }

  function DecimalValue(digits: Text): int {
    if digits == [] then 0 else 10 * DecimalValue(digits[..|digits| - 1]) + (digits[|digits| - 1] as int - 48)
  }

  /** Decimal writes the number, without leading zeros. */
  lemma {:induction false} DecimalIsNumber(n: nat)
    ensures DecimalValue(Decimal(n)) == n && (n > 0 ==> Decimal(n)[0] != 48)
  {
    if n >= 10 {
      DecimalIsNumber(n / 10);
      assert Decimal(n)[..|Decimal(n)| - 1] == Decimal(n / 10);
    } else {
      assert Decimal(n)[..0] == [];
    }
  }

  /** The empty suffix for the first try, then " #2", " #3" and so on. */
  function CollisionSuffix(ordinal: nat): Text {
    if ordinal == 1 then [] else FromString(" #") + Decimal(ordinal)
  }

  function Stem(stem: Text): Text {
    var s := Strip(stem, Blank);
    if s == [] then FromString("Auto-Push profile") else s
  }

  datatype NameError = InvalidSuffix | InvalidName | NoneFree

  /** migrated_name_candidate */
  function Candidate(stem: Text, fixed: Text, ordinal: nat): Result<Text, NameError> {
    var suffix := fixed + CollisionSuffix(ordinal);
    if |Encode(suffix)| >= MAX_NAME_BYTES then Failure(InvalidSuffix)
    else
      var candidate := Prefix(Stem(stem), MAX_NAME_BYTES - |Encode(suffix)|) + suffix;
      if CanonicalName(candidate) then Success(candidate) else Failure(InvalidName)
  }

  /** The name made for one of the ordinals. */
  predicate IsCandidate(stem: Text, fixed: Text, ordinal: nat, name: Text) {
    1 <= ordinal < 1000 && Candidate(stem, fixed, ordinal) == Success(name)
  }

  ghost predicate HasCandidate(stem: Text, fixed: Text, name: Text) {
    exists ordinal :: IsCandidate(stem, fixed, ordinal, name)
  }

  /** The fixed suffixes in use: " - Slot n" after a profile's name, " Slot n" otherwise. */
  function SlotSuffix(sourced: bool, slot: nat): Text {
    (if sourced then FromString(" - ") else FromString(" ")) + FromString("Slot ") + Decimal(slot)
  }

  predicate Suffixes(fixed: Text) {
    exists sourced, slot :: 1 <= slot <= 3 && fixed == SlotSuffix(sourced, slot)
  }

  predicate Ordinary(c: Scalar) {
    c == 32 || c == 35 || c == 45 || 48 <= c < 58 || 65 <= c < 91 || 97 <= c < 123
  }

  predicate Plain(s: Text) {
    forall i :: 0 <= i < |s| ==> Ordinary(s[i])
  }

  lemma {:induction false} PlainLength(s: Text)
    requires Plain(s)
    ensures |Encode(s)| == |s|
    decreases |s|
  {
    if s != [] { PlainLength(s[1..]); }
  }

  lemma DecimalShort(n: nat)
    requires n < 1000
    ensures |Decimal(n)| <= 3
  {
    if n >= 10 { assert |Decimal(n / 10)| <= 2 by { assert n / 100 < 10; } }
  }

  /** A suffix starts with a blank, ends with a digit, is plain and short. */
  lemma SuffixShape(fixed: Text, ordinal: nat)
    requires Suffixes(fixed) && 1 <= ordinal < 1000
    ensures var s := fixed + CollisionSuffix(ordinal);
            Plain(s) && 1 <= |s| <= 14 && s[0] == 32 && 48 <= s[|s| - 1] < 58
  {
    DecimalShort(ordinal);
    var sourced, slot :| 1 <= slot <= 3 && fixed == SlotSuffix(sourced, slot);
    assert |Decimal(slot)| == 1;
    var c := CollisionSuffix(ordinal);
    assert Plain(c);
    assert Plain(fixed);
  }

  lemma StripFixed(s: Text, blank: Scalar -> bool)
    requires s != [] && !blank(s[0]) && !blank(s[|s| - 1])
    ensures Strip(s, blank) == s
  {
  }

  lemma CleanJoin(p: Text, s: Text)
    requires Clean(p) && Plain(s) && s != [] && s[0] == 32
    ensures Clean(p + s)
  {
    var t := p + s;
    forall i | 0 <= i < |t| ensures Allowed(t[i]) {
      if i >= |p| { assert t[i] == s[i - |p|] && Ordinary(s[i - |p|]); }
    }
    forall i | 0 <= i < |t| ensures !DotDotAt(t, i) {
      assert i + 1 < |p| ==> DotDotAt(p, i) == DotDotAt(t, i);
      assert |p| <= i + 1 < |t| ==> t[i + 1] == s[i + 1 - |p|] && Ordinary(s[i + 1 - |p|]);
    }
  }

  lemma DefaultStemClean()
    ensures Clean(FromString("Auto-Push profile")) && !Blank(FromString("Auto-Push profile")[0])
  {
    var s := FromString("Auto-Push profile");
    assert Plain(s);
    assert forall i :: 0 <= i < |s| ==> Allowed(s[i]) && !DotDotAt(s, i);
  }

  lemma StemClean(stem: Text)
    requires Clean(stem)
    ensures Clean(Stem(stem)) && Stem(stem) != [] && !Blank(Stem(stem)[0])
  {
    hide Clean, Strip;
    var lo, hi := StripTrims(stem, Blank);
    CleanPart(stem, lo, hi);
    DefaultStemClean();
  }

  /** The stem part of a candidate: a non-empty prefix, since at least 50 bytes are left. */
  lemma CandidateStem(stem: Text, room: nat)
    requires Clean(stem) && room >= 4
    ensures var p := Prefix(Stem(stem), room);
            && p != [] && p <= Stem(stem) && Clean(p) && |Encode(p)| <= room
            && (|p| < |Stem(stem)| ==> |Encode(Stem(stem)[..|p| + 1])| > room)
  {
    StemClean(stem);
    var s := Stem(stem);
    PrefixIsLongest(s, room);
    var p := Prefix(s, room);
    EncodeLength(s[..1]);
    assert s[0..|p|] == p;
    CleanPart(s, 0, |p|);
  }

  /** A non-empty prefix of the stem that fits with the suffix, one code point more not fitting. */
  predicate LongestFit(p: Text, stem: Text, suffix: Text) {
    && p != [] && p <= stem && |Encode(p)| + |Encode(suffix)| <= 64
    && (|p| < |stem| ==> |Encode(stem[..|p| + 1])| + |Encode(suffix)| > 64)
  }

  /**
   Exactly when a made-up name is accepted: for a clean stem every ordinal gives a
   canonical name of at most 64 bytes that keeps the suffix and as much of the
   stem as fits, unless stripping Unicode blanks off the stem uncovers a leading
   dot or underscore.
   */
  lemma CandidateAccepted(stem: Text, fixed: Text, ordinal: nat)
    requires Clean(stem) && Suffixes(fixed) && 1 <= ordinal < 1000
    ensures Candidate(stem, fixed, ordinal).Success? <==> !Hides(Stem(stem))
    ensures Candidate(stem, fixed, ordinal).Success? ==>
              exists p :: LongestFit(p, Stem(stem), fixed + CollisionSuffix(ordinal)) &&
                          Candidate(stem, fixed, ordinal).value == p + (fixed + CollisionSuffix(ordinal))
  {
    hide Strip, Prefix, Encode, Suffixes, CollisionSuffix, Clean, Stem;
    SuffixShape(fixed, ordinal);
    var suffix := fixed + CollisionSuffix(ordinal);
    PlainLength(suffix);
    CandidateStem(stem, MAX_NAME_BYTES - |suffix|);
    StemClean(stem);
    var p := Prefix(Stem(stem), MAX_NAME_BYTES - |suffix|);
    var name := p + suffix;
    CleanJoin(p, suffix);
    EncodeConcat(p, suffix);
    CleanWithin(name);
    assert name[0] == Stem(stem)[0] && name[|name| - 1] == suffix[|suffix| - 1];
    StripFixed(name, AsciiBlank);
  }

  lemma CleanWithin(s: Text)
    requires Clean(s) && |Encode(s)| <= MAX_NAME_BYTES
    ensures TextWithin(s, MAX_NAME_BYTES)
  {
    assert forall i :: 0 <= i < |s| ==> Allowed(s[i]);
  }

  /** Every canonical name that str.strip() leaves alone is an accepted stem, */
  lemma StrippedStemAccepted(stem: Text, fixed: Text, ordinal: nat)
    requires CanonicalName(stem) && Strip(stem, Blank) == stem && Suffixes(fixed) && 1 <= ordinal < 1000
    ensures Candidate(stem, fixed, ordinal).Success?
  {
    CandidateAccepted(stem, fixed, ordinal);
  }

  /** but not every canonical name: a no-break space can hide a dot. */
  lemma SomeCanonicalStemRefused()
    ensures CanonicalName([0xA0, 46, 120])
    ensures Candidate([0xA0, 46, 120], SlotSuffix(true, 1), 1).Failure?
  {
    var s: Text := [0xA0, 46, 120];
    assert Encode(s[1..][1..][1..]) == [];
    assert s[1..] == [46, 120] && Strip([46, 120], Blank) == [46, 120];
    assert Hides(Stem(s));
    CandidateAccepted(s, SlotSuffix(true, 1), 1);
  }

  // ---------------------------------------------------- ignoring ASCII case

  function FoldScalar(c: Scalar): Scalar {
    if 65 <= c < 91 then c + 32 else c
  }

  function Fold(s: Text): (r: Text)
    ensures |r| == |s| && forall i :: 0 <= i < |s| ==> r[i] == FoldScalar(s[i])
  {
    seq(|s|, i requires 0 <= i < |s| => FoldScalar(s[i]))
  }

  /** Folding identifies names that differ in the case of ASCII letters, and no others. */
  lemma FoldExactly(s: Text, t: Text)
    ensures Fold(s) == Fold(t) <==> |s| == |t| && forall i :: 0 <= i < |s| ==> SameLetter(s[i], t[i])
  {
    if |s| == |t| && forall i :: 0 <= i < |s| ==> SameLetter(s[i], t[i]) {
      assert forall i :: 0 <= i < |s| ==> Fold(s)[i] == Fold(t)[i];
    }
    if Fold(s) == Fold(t) {
      assert |Fold(s)| == |s| && |Fold(t)| == |t|;
      forall i | 0 <= i < |s| ensures SameLetter(s[i], t[i]) {
        assert Fold(s)[i] == Fold(t)[i];
      }
    }
  }

  predicate SameLetter(c: Scalar, d: Scalar) {
    c == d || ('A' as int <= c <= 'Z' as int && d == c + 32) || ('A' as int <= d <= 'Z' as int && c == d + 32)
  }

  /** The digits of a number above its last one; none for a single digit. */
  function HigherDigits(n: nat): Text {
    if n < 10 then [] else Decimal(n / 10)
  }

  lemma LastDigit(u: Text, n: nat)
    ensures var x := u + [35] + Decimal(n);
            x[|x| - 1] == 48 + n % 10 && x[..|x| - 1] == u + [35] + HigherDigits(n)
  {
    assert Decimal(n) == HigherDigits(n) + [48 + n % 10];
  }

  /** Decimal numbers after a number sign can be told apart from the end. */
  lemma {:induction false} DecimalAfterSign(u: Text, a: nat, v: Text, b: nat)
    requires u + [35] + Decimal(a) == v + [35] + Decimal(b)
    ensures a == b
  {
    LastDigit(u, a);
    LastDigit(v, b);
    EndOfHigherDigits(u, a);
    EndOfHigherDigits(v, b);
    hide Decimal;
    assert a % 10 == b % 10 && (a < 10 <==> b < 10);
    if a >= 10 {
      DecimalAfterSign(u, a / 10, v, b / 10);
    }
  }

  lemma EndOfHigherDigits(u: Text, n: nat)
    ensures var x := u + [35] + HigherDigits(n); x[|x| - 1] == 35 <==> n < 10
  {
  }

  /** A later candidate, folded, ends with its ordinal after a number sign, */
  lemma FoldedLater(p: Text, fixed: Text, ordinal: nat)
    requires ordinal != 1
    ensures Fold(p + (fixed + CollisionSuffix(ordinal))) == Fold(p + fixed) + [32] + [35] + Decimal(ordinal)
  {
    var d := Decimal(ordinal);
    assert forall i :: 0 <= i < |d| ==> FoldScalar(d[i]) == d[i];
  }

  /** the first one with a digit after a blank. */
  lemma FoldedFirst(p: Text, fixed: Text)
    requires Suffixes(fixed)
    ensures var f := Fold(p + (fixed + CollisionSuffix(1))); |f| >= 2 && f[|f| - 2] == 32
  {
    var sourced, slot :| 1 <= slot <= 3 && fixed == SlotSuffix(sourced, slot);
    assert |Decimal(slot)| == 1;
    assert fixed[|fixed| - 2] == 32;
    assert fixed + CollisionSuffix(1) == fixed;
    assert (p + fixed)[|p + fixed| - 2] == fixed[|fixed| - 2];
  }

  lemma DecimalPenultimate(u: Text, n: nat)
    ensures var t := u + [35] + Decimal(n); |t| >= 2 && t[|t| - 2] != 32
  {
    var d, t := Decimal(n), u + [35] + Decimal(n);
    assert |d| == 1 ==> t[|t| - 2] == 35;
    assert |d| > 1 ==> t[|t| - 2] == d[|d| - 2];
  }

  /** Names made for different ordinals differ even ignoring ASCII case. */
  lemma CandidatesNeverCollide(stem: Text, fixed: Text, i: nat, j: nat)
    requires Clean(stem) && Suffixes(fixed) && 1 <= i < j < 1000
    requires Candidate(stem, fixed, i).Success? && Candidate(stem, fixed, j).Success?
    ensures Fold(Candidate(stem, fixed, i).value) != Fold(Candidate(stem, fixed, j).value)
  {
    hide *;
    CandidateAccepted(stem, fixed, i);
    CandidateAccepted(stem, fixed, j);
    var si, sj := fixed + CollisionSuffix(i), fixed + CollisionSuffix(j);
    var p :| LongestFit(p, Stem(stem), si) && Candidate(stem, fixed, i).value == p + si;
    var q :| LongestFit(q, Stem(stem), sj) && Candidate(stem, fixed, j).value == q + sj;
    FoldedLater(q, fixed, j);
    DecimalPenultimate(Fold(q + fixed) + [32], j);
    if i == 1 {
      FoldedFirst(p, fixed);
    } else {
      FoldedLater(p, fixed, i);
      if Fold(Candidate(stem, fixed, i).value) == Fold(Candidate(stem, fixed, j).value) {
        DecimalAfterSign(Fold(p + fixed) + [32], i, Fold(q + fixed) + [32], j);
      }
    }
  }

  // ----------------------------------------------------------- allocation

  predicate Taken(name: Text, catalog: seq<Text>) {
    exists i :: 0 <= i < |catalog| && Fold(catalog[i]) == Fold(name)
  }

  ghost function FoldedNames(catalog: seq<Text>): (r: set<Text>)
    ensures |r| <= |catalog|
    ensures forall x :: x in r <==> exists i :: 0 <= i < |catalog| && Fold(catalog[i]) == x
  {
    if catalog == [] then {}
    else
      var r := FoldedNames(catalog[1..]);
      assert forall i :: 1 <= i < |catalog| ==> catalog[i] == catalog[1..][i - 1];
      r + {Fold(catalog[0])}
  }

  /** The name for an ordinal, folded; any text where it is refused. */
  function FoldedCandidate(stem: Text, fixed: Text, ordinal: nat): Text {
    var c := Candidate(stem, fixed, ordinal);
    if c.Success? then Fold(c.value) else []
  }

  /** The folded candidates of the first n ordinals. */
  ghost function FoldedCandidates(stem: Text, fixed: Text, n: nat): set<Text> {
    set i | 1 <= i <= n :: FoldedCandidate(stem, fixed, i)
  }

  lemma {:induction false} AsManyAsOrdinals(stem: Text, fixed: Text, n: nat)
    requires Clean(stem) && Suffixes(fixed) && n < 1000 && !Hides(Stem(stem))
    ensures |FoldedCandidates(stem, fixed, n)| == n
  {
    hide Candidate, Fold, Clean, Suffixes, Hides, Stem;
    if n > 0 {
      AsManyAsOrdinals(stem, fixed, n - 1);
      var x := FoldedCandidate(stem, fixed, n);
      forall i | 1 <= i < n ensures FoldedCandidate(stem, fixed, i) != x {
        CandidateAccepted(stem, fixed, i);
        CandidateAccepted(stem, fixed, n);
        CandidatesNeverCollide(stem, fixed, i, n);
      }
      assert FoldedCandidates(stem, fixed, n) == FoldedCandidates(stem, fixed, n - 1) + {x};
    }
  }

  /** One of the first |catalog| + 1 candidates is free: thirteen for a catalog of twelve. */
  lemma SomeCandidateFree(stem: Text, fixed: Text, catalog: seq<Text>)
    requires Clean(stem) && Suffixes(fixed) && !Hides(Stem(stem)) && |catalog| < 999
    ensures exists i :: 1 <= i <= |catalog| + 1 && Candidate(stem, fixed, i).Success? &&
                        !Taken(Candidate(stem, fixed, i).value, catalog)
  {
    hide Candidate, Fold, Clean, Suffixes, Hides, Stem;
    var n := |catalog| + 1;
    var made, used := FoldedCandidates(stem, fixed, n), FoldedNames(catalog);
    AsManyAsOrdinals(stem, fixed, n);
    if made <= used { CardinalityMonotone(made, used); }
    var x :| x in made && x !in used;
    var i :| 1 <= i <= n && x == FoldedCandidate(stem, fixed, i);
    CandidateAccepted(stem, fixed, i);
  }

  lemma {:induction false} CardinalityMonotone(a: set<Text>, b: set<Text>)
    requires a <= b
    ensures |a| <= |b|
    decreases a
  {
    if a != {} {
      var x :| x in a;
      CardinalityMonotone(a - {x}, b - {x});
    }
  }

  method Available(name: Text, catalog: seq<Text>) returns (free: bool)
    ensures free <==> !Taken(name, catalog)
  {
    for i := 0 to |catalog|
      invariant forall j :: 0 <= j < i ==> Fold(catalog[j]) != Fold(name)
    {
      if Fold(catalog[i]) == Fold(name) { return false; }
    }
    return true;
  }

  /** Every candidate before this one was valid and in use. */
  predicate AllTakenBefore(stem: Text, fixed: Text, catalog: seq<Text>, n: nat) {
    forall i :: 1 <= i < n ==> Candidate(stem, fixed, i).Success? && Taken(Candidate(stem, fixed, i).value, catalog)
  }

  /** With more ordinals left than names, the search cannot pass a clean stem by. */
  lemma SearchEnds(stem: Text, fixed: Text, catalog: seq<Text>, n: nat)
    requires Clean(stem) && Suffixes(fixed) && |catalog| < 999 && 1 <= n <= 1000
    requires AllTakenBefore(stem, fixed, catalog, n)
    ensures n <= |catalog| + 1
    ensures n < 1000 && (Candidate(stem, fixed, n).Success? <==> !Hides(Stem(stem)))
  {
    hide Candidate, Taken, Clean, Suffixes, Hides, Stem;
    if n > 1 { CandidateAccepted(stem, fixed, 1); }
    if !Hides(Stem(stem)) { SomeCandidateFree(stem, fixed, catalog); }
    if n < 1000 { CandidateAccepted(stem, fixed, n); }
  }

  /**
   unique: the first free candidate; an invalid one ends the search. For a clean
   stem it fails exactly if stripping uncovers a leading dot or underscore, and it
   needs no more ordinals than one beyond the names there are.
   */
  method Unique(stem: Text, fixed: Text, catalog: seq<Text>) returns (r: Result<Text, NameError>, tried: nat)
    ensures 1 <= tried <= 1000 && AllTakenBefore(stem, fixed, catalog, tried)
    ensures r.Success? ==> tried < 1000 && Candidate(stem, fixed, tried) == r && !Taken(r.value, catalog)
    ensures r.Failure? ==> if tried < 1000 then Candidate(stem, fixed, tried) == r else r == Failure(NoneFree)
    ensures Clean(stem) && Suffixes(fixed) && |catalog| < 999 ==>
              tried <= |catalog| + 1 && (r.Success? <==> !Hides(Stem(stem)))
  {
    hide Hides, Stem, Taken, Suffixes, Clean, Candidate;
    tried := 1;
    while tried < 1000
      invariant 1 <= tried <= 1000
      invariant AllTakenBefore(stem, fixed, catalog, tried)
    {
      if Clean(stem) && Suffixes(fixed) && |catalog| < 999 { SearchEnds(stem, fixed, catalog, tried); }
      var candidate := Candidate(stem, fixed, tried);
      if candidate.Failure? { return candidate, tried; }
      var free := Available(candidate.value, catalog);
      if free { return candidate, tried; }
      tried := tried + 1;
    }
    if Clean(stem) && Suffixes(fixed) && |catalog| < 999 { SearchEnds(stem, fixed, catalog, tried); }
    return Failure(NoneFree), tried;
  }
}
