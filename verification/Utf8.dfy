/** UTF-8 as in section 3 of RFC 3629, with Python's errors="ignore" decoder. */
module Utf8 {
  import opened Bytes
  import opened Sequences
  import opened Wrappers

  /** A Unicode scalar value: what a Python str that can be encoded is made of. */
  type Scalar = c: nat | c < 0x11_0000 && !(0xD800 <= c < 0xE000)

  type Text = seq<Scalar>

  function EncodeScalar(c: Scalar): (r: seq<byte>)
    ensures 1 <= |r| <= 4
  {
    if c < 0x80 then [c]
    else if c < 0x800 then [0xC0 + c / 0x40, 0x80 + c % 0x40]
    else if c < 0x1_0000 then [0xE0 + c / 0x1000, 0x80 + c / 0x40 % 0x40, 0x80 + c % 0x40]
    else [0xF0 + c / 0x4_0000, 0x80 + c / 0x1000 % 0x40, 0x80 + c / 0x40 % 0x40, 0x80 + c % 0x40]
  }

  function Encode(text: Text): seq<byte> {
    if text == [] then [] else EncodeScalar(text[0]) + Encode(text[1..])
  }

  predicate Continuation(b: byte) { 0x80 <= b < 0xC0 }

  /** The scalar that starts a byte string and its length, if it starts with one. */
  function DecodeFront(b: seq<byte>): (r: Option<(Scalar, nat)>)
    ensures r.Some? ==> 1 <= r.value.1 <= |b|
  {
    if b == [] then None
    else if b[0] < 0x80 then Some((b[0], 1))
    else if 0xC2 <= b[0] < 0xE0 && |b| >= 2 && Continuation(b[1]) then
      Some(((b[0] as int - 0xC0) * 0x40 + (b[1] as int - 0x80), 2))
    else if 0xE0 <= b[0] < 0xF0 && |b| >= 3 && Continuation(b[1]) && Continuation(b[2]) then
      var c := (b[0] as int - 0xE0) * 0x1000 + (b[1] as int - 0x80) * 0x40 + (b[2] as int - 0x80);
      if c >= 0x800 && !(0xD800 <= c < 0xE000) then Some((c, 3)) else None
    else if 0xF0 <= b[0] < 0xF5 && |b| >= 4 && Continuation(b[1]) && Continuation(b[2]) && Continuation(b[3]) then
      var c := (b[0] as int - 0xF0) * 0x4_0000 + (b[1] as int - 0x80) * 0x1000
             + (b[2] as int - 0x80) * 0x40 + (b[3] as int - 0x80);
      if 0x1_0000 <= c < 0x11_0000 then Some((c, 4)) else None
    else None
  }

  /** bytes.decode("utf-8", errors="ignore"): bytes that start no scalar are skipped. */
  function DecodeIgnore(b: seq<byte>): Text
    decreases |b|
  {
    if b == [] then []
    else match DecodeFront(b)
      case Some((c, n)) => [c] + DecodeIgnore(b[n..])
      case None => DecodeIgnore(b[1..])
  }

  /** The digits of c in base 64, with a leading digit of up to 2^22 / 64^3. */
  lemma Sextets(c: Scalar)
    ensures c == c / 0x40 * 0x40 + c % 0x40
    ensures c == c / 0x1000 * 0x1000 + c / 0x40 % 0x40 * 0x40 + c % 0x40
    ensures c == c / 0x4_0000 * 0x4_0000 + c / 0x1000 % 0x40 * 0x1000 + c / 0x40 % 0x40 * 0x40 + c % 0x40
  {
  }

  lemma FrontOfOneOrTwo(c: Scalar, rest: seq<byte>)
    requires c < 0x800
    ensures DecodeFront(EncodeScalar(c) + rest) == Some((c, |EncodeScalar(c)|))
  {
    var b := EncodeScalar(c) + rest;
    assert if c < 0x80 then b[0] == c else b[0] == 0xC0 + c / 0x40 && b[1] == 0x80 + c % 0x40;
  }

  lemma FrontOfThree(c: Scalar, rest: seq<byte>)
    requires 0x800 <= c < 0x1_0000
    ensures DecodeFront(EncodeScalar(c) + rest) == Some((c, |EncodeScalar(c)|))
  {
    Sextets(c);
    var b := EncodeScalar(c) + rest;
    assert b[0] == 0xE0 + c / 0x1000 && b[1] == 0x80 + c / 0x40 % 0x40 && b[2] == 0x80 + c % 0x40;
  }

  lemma FrontOfFour(c: Scalar, rest: seq<byte>)
    requires 0x1_0000 <= c
    ensures DecodeFront(EncodeScalar(c) + rest) == Some((c, |EncodeScalar(c)|))
  {
    Sextets(c);
    var b := EncodeScalar(c) + rest;
    assert b[0] == 0xF0 + c / 0x4_0000 && b[1] == 0x80 + c / 0x1000 % 0x40;
    assert b[2] == 0x80 + c / 0x40 % 0x40 && b[3] == 0x80 + c % 0x40;
  }

  lemma FrontRoundTrip(c: Scalar, rest: seq<byte>)
    ensures DecodeFront(EncodeScalar(c) + rest) == Some((c, |EncodeScalar(c)|))
  {
    hide DecodeFront, EncodeScalar;
    if c < 0x800 { FrontOfOneOrTwo(c, rest); }
    else if c < 0x1_0000 { FrontOfThree(c, rest); }
    else { FrontOfFour(c, rest); }
  }

  /** What is read as a code point is its encoding: no over-long forms, no surrogates. */
  lemma FrontIsEncoding(b: seq<byte>)
    requires DecodeFront(b).Some?
    ensures var (c, n) := DecodeFront(b).value; b[..n] == EncodeScalar(c)
  {
    var (c, n) := DecodeFront(b).value;
    if n == 1 { OneByteForm(b[0]); }
    else if n == 2 { TwoByteForm(b[0], b[1]); }
    else if n == 3 { ThreeByteForm(b[0], b[1], b[2]); }
    else { FourByteForm(b[0], b[1], b[2], b[3]); }
  }

  lemma OneByteForm(x: byte)
    requires x < 0x80
    ensures EncodeScalar(x) == [x]
  {}

  lemma TwoByteForm(x: byte, y: byte)
    requires 0xC2 <= x < 0xE0 && Continuation(y)
    ensures EncodeScalar((x as int - 0xC0) * 0x40 + (y as int - 0x80)) == [x, y]
  {}

  lemma ThreeByteForm(x: byte, y: byte, z: byte)
    requires 0xE0 <= x < 0xF0 && Continuation(y) && Continuation(z)
    ensures var c := (x as int - 0xE0) * 0x1000 + (y as int - 0x80) * 0x40 + (z as int - 0x80);
            c >= 0x800 && !(0xD800 <= c < 0xE000) ==> EncodeScalar(c) == [x, y, z]
  {
    ThreeSextets(x as int - 0xE0, y as int - 0x80, z as int - 0x80);
  }

  lemma ThreeSextets(p: nat, q: nat, r: nat)
    requires p < 0x10 && q < 0x40 && r < 0x40
    ensures var c := p * 0x1000 + q * 0x40 + r;
            c < 0x1_0000 && c / 0x1000 == p && c / 0x40 % 0x40 == q && c % 0x40 == r
  {
    var c := p * 0x1000 + q * 0x40 + r;
    assert c / 0x40 == p * 0x40 + q;
  }

  lemma FourByteForm(x: byte, y: byte, z: byte, w: byte)
    requires 0xF0 <= x < 0xF5 && Continuation(y) && Continuation(z) && Continuation(w)
    ensures var c := (x as int - 0xF0) * 0x4_0000 + (y as int - 0x80) * 0x1000 + (z as int - 0x80) * 0x40
                     + (w as int - 0x80);
            0x1_0000 <= c < 0x11_0000 ==> EncodeScalar(c) == [x, y, z, w]
  {
    FourSextets(x as int - 0xF0, y as int - 0x80, z as int - 0x80, w as int - 0x80);
  }

  lemma FourSextets(p: nat, q: nat, r: nat, t: nat)
    requires q < 0x40 && r < 0x40 && t < 0x40
    ensures var c := p * 0x4_0000 + q * 0x1000 + r * 0x40 + t;
            c / 0x4_0000 == p && c / 0x1000 % 0x40 == q && c / 0x40 % 0x40 == r && c % 0x40 == t
  {
    var c := p * 0x4_0000 + q * 0x1000 + r * 0x40 + t;
    assert c / 0x40 == p * 0x1000 + q * 0x40 + r;
    assert c / 0x1000 == p * 0x40 + q;
  }

  lemma {:induction false} RoundTrip(text: Text)
    ensures DecodeIgnore(Encode(text)) == text
    decreases |text|
  {
    if text != [] {
      var e := EncodeScalar(text[0]);
      FrontRoundTrip(text[0], Encode(text[1..]));
      RoundTrip(text[1..]);
      assert Encode(text)[|e|..] == Encode(text[1..]);
    }
  }

  lemma EncodeInjective(a: Text, b: Text)
    requires Encode(a) == Encode(b)
    ensures a == b
  {
    RoundTrip(a);
    RoundTrip(b);
  }

  lemma {:induction false} EncodeConcat(a: Text, b: Text)
    ensures Encode(a + b) == Encode(a) + Encode(b)
    decreases |a|
  {
    hide EncodeScalar;
    if a == [] {
      assert a + b == b;
    } else {
      EncodeConcat(a[1..], b);
      assert (a + b)[1..] == a[1..] + b && (a + b)[0] == a[0];
      Associative(EncodeScalar(a[0]), Encode(a[1..]), Encode(b));
    }
  }

  lemma {:induction false} ContinuationsDecodeToNothing(b: seq<byte>)
    requires forall i :: 0 <= i < |b| ==> Continuation(b[i])
    ensures DecodeIgnore(b) == []
    decreases |b|
  {
    if b != [] {
      assert DecodeFront(b) == None;
      ContinuationsDecodeToNothing(b[1..]);
    }
  }

  /** A scalar cut short leaves nothing behind. */
  lemma TruncatedDecodesToNothing(c: Scalar, n: nat)
    requires n < |EncodeScalar(c)|
    ensures DecodeIgnore(EncodeScalar(c)[..n]) == []
  {
    var b := EncodeScalar(c)[..n];
    if n > 0 {
      assert DecodeFront(b) == None;
      ContinuationsDecodeToNothing(b[1..]);
    }
  }

  /** utf8_prefix */
  function Prefix(text: Text, maxBytes: nat): Text {
    if |Encode(text)| <= maxBytes then text else DecodeIgnore(Encode(text)[..maxBytes])
  }

  /** The cut at a byte budget is the longest whole-code-point prefix within it. */
  lemma {:induction false} PrefixIsLongest(text: Text, maxBytes: nat)
    ensures Prefix(text, maxBytes) <= text
    ensures |Encode(Prefix(text, maxBytes))| <= maxBytes
    ensures var n := |Prefix(text, maxBytes)|;
            n < |text| ==> |Encode(text[..n + 1])| > maxBytes
    decreases |text|
  {
    hide EncodeScalar, DecodeFront;
    var b := Encode(text);
    if |b| > maxBytes {
      var c, rest := text[0], text[1..];
      var e := EncodeScalar(c);
      if |e| <= maxBytes {
        PrefixIsLongest(rest, maxBytes - |e|);
        var p := Prefix(rest, maxBytes - |e|);
        var cut := Encode(rest)[..maxBytes - |e|];
        assert b[..maxBytes] == e + cut;
        FrontRoundTrip(c, cut);
        assert (e + cut)[|e|..] == cut;
        assert Prefix(text, maxBytes) == [c] + p;
        assert ([c] + p)[1..] == p;
        var n := |p|;
        if n < |rest| {
          assert text[..n + 2][1..] == rest[..n + 1];
        }
      } else {
        assert b[..maxBytes] == e[..maxBytes];
        TruncatedDecodesToNothing(c, maxBytes);
        assert text[..1][1..] == [];
        assert Encode(text[..1]) == e + [];
      }
    } else {
      assert text[..|text|] == text;
    }
  }

  /** Every code point costs at least one byte and at most four. */
  lemma {:induction false} EncodeLength(text: Text)
    ensures |text| <= |Encode(text)| <= 4 * |text|
    decreases |text|
  {
    if text != [] { EncodeLength(text[1..]); }
  }
}
