/**
 digest: the byte string hashed for a set of web bundle files. SHA-256 itself is
 not modelled; what is proved is that no two file maps feed it the same bytes.
 */
module BundleDigest {
  import opened Bytes
  import opened Wrappers
  import opened Utf8

  type Files = map<Text, seq<byte>>

  datatype Item = Item(name: Text, data: seq<byte>)

  // --------------------------------------------- str order and sorted items

  /** Python's order on str: by code point, a prefix first. */
  predicate Less(a: Text, b: Text)
    decreases |a|
  {
    b != [] && (a == [] || a[0] < b[0] || (a[0] == b[0] && Less(a[1..], b[1..])))
  }

  lemma {:induction false} LessTransitive(a: Text, b: Text, c: Text)
    requires Less(a, b) && Less(b, c)
    ensures Less(a, c)
    decreases |a|
  {
    if a != [] && a[0] == b[0] && b[0] == c[0] { LessTransitive(a[1..], b[1..], c[1..]); }
  }

  lemma {:induction false} LessTotal(a: Text, b: Text)
    ensures a == b || Less(a, b) || Less(b, a)
    decreases |a|
  {
    if a != [] && b != [] && a[0] == b[0] {
      LessTotal(a[1..], b[1..]);
      assert a == [a[0]] + a[1..] && b == [b[0]] + b[1..];
    }
  }

  lemma {:induction false} LessIrreflexive(a: Text)
    ensures !Less(a, a)
    decreases |a|
  {
    if a != [] { LessIrreflexive(a[1..]); }
  }

  /** By the first code point that differs, or the shorter first. */
  lemma {:induction false} LessExactly(a: Text, b: Text)
    ensures Less(a, b) <==> exists n :: 0 <= n <= |a| && DiffersAt(a, b, n)
    decreases |a|
  {
    if a == [] {
      if b != [] { assert DiffersAt(a, b, 0); }
    } else if b != [] {
      if a[0] == b[0] {
        LessExactly(a[1..], b[1..]);
        if Less(a, b) {
          var n :| 0 <= n <= |a[1..]| && DiffersAt(a[1..], b[1..], n);
          assert a[..n + 1] == [a[0]] + a[1..][..n] && b[..n + 1] == [b[0]] + b[1..][..n];
          assert DiffersAt(a, b, n + 1);
        }
        if exists n :: 0 <= n <= |a| && DiffersAt(a, b, n) {
          var n :| 0 <= n <= |a| && DiffersAt(a, b, n);
          assert n > 0 && a[1..][..n - 1] == a[..n][1..] && b[1..][..n - 1] == b[..n][1..];
          assert DiffersAt(a[1..], b[1..], n - 1);
        }
      } else {
        if a[0] < b[0] { assert a[..0] == b[..0] && DiffersAt(a, b, 0); }
        forall n | 0 < n <= |a| ensures !DiffersAt(a, b, n) {
          assert n <= |b| ==> a[..n][0] == a[0] && b[..n][0] == b[0];
        }
      }
    }
  }

  predicate DiffersAt(a: Text, b: Text, n: nat) {
    n <= |a| && n < |b| && a[..n] == b[..n] && (n == |a| || a[n] < b[n])
  }

  predicate Ascending(items: seq<Item>) {
    forall i, j :: 0 <= i < j < |items| ==> Less(items[i].name, items[j].name)
  }

  function Names(items: seq<Item>): set<Text> {
    set i | 0 <= i < |items| :: items[i].name
  }

  /** The items are exactly the map's entries, in name order. */
  predicate Lists(items: seq<Item>, files: Files) {
    && Ascending(items)
    && Names(items) == files.Keys
    && (forall i :: 0 <= i < |items| ==> items[i].name in files && files[items[i].name] == items[i].data)
  }

  lemma FirstIsLeast(items: seq<Item>, files: Files, name: Text)
    requires Lists(items, files) && items != [] && name in files
    ensures name == items[0].name || Less(items[0].name, name)
  {
    assert name in Names(items);
  }

  lemma RestLists(items: seq<Item>, files: Files)
    requires Lists(items, files) && items != []
    ensures Lists(items[1..], files - {items[0].name})
  {
    var rest, left := items[1..], files - {items[0].name};
    LessIrreflexive(items[0].name);
    forall i | 0 <= i < |rest| ensures rest[i].name in left {
      assert rest[i] == items[i + 1] && Less(items[0].name, items[i + 1].name);
    }
    forall name | name in left ensures name in Names(rest) {
      assert name in Names(items);
      var i :| 0 <= i < |items| && items[i].name == name;
      assert rest[i - 1] == items[i];
    }
  }

  /** A map has one sorted listing, */
  lemma {:induction false} ListingUnique(a: seq<Item>, b: seq<Item>, files: Files)
    requires Lists(a, files) && Lists(b, files)
    ensures a == b
    decreases |a|
  {
    hide Less;
    assert a != [] ==> a[0].name in Names(a);
    assert b != [] ==> b[0].name in Names(b);
    if a != [] && b != [] {
      FirstIsLeast(a, files, b[0].name);
      FirstIsLeast(b, files, a[0].name);
      if Less(a[0].name, b[0].name) && Less(b[0].name, a[0].name) {
        LessTransitive(a[0].name, b[0].name, a[0].name);
      }
      LessIrreflexive(a[0].name);
      RestLists(a, files);
      RestLists(b, files);
      ListingUnique(a[1..], b[1..], files - {a[0].name});
      assert a == [a[0]] + a[1..] && b == [b[0]] + b[1..];
    }
  }

  /** and a listing is of one map. */
  lemma ListedMapUnique(items: seq<Item>, f: Files, g: Files)
    requires Lists(items, f) && Lists(items, g)
    ensures f == g
  {
    forall name | name in f ensures f[name] == g[name] {
      assert name in Names(items);
    }
    assert f.Keys == g.Keys;
  }

  // -------------------------------------------------------------- framing

  function Pow256(k: nat): nat {
    if k == 0 then 1 else 256 * Pow256(k - 1)
  }

  /** n.to_bytes(k, "big") */
  function BigEndian(n: nat, k: nat): (r: seq<byte>)
    ensures |r| == k
  {
    if k == 0 then [] else BigEndian(n / 256, k - 1) + [n % 256]
  }

  lemma {:induction false} BigEndianInjective(m: nat, n: nat, k: nat)
    requires m < Pow256(k) && n < Pow256(k) && BigEndian(m, k) == BigEndian(n, k)
    ensures m == n
  {
    if k > 0 {
      var a, b := BigEndian(m, k)[..k - 1], BigEndian(m, k)[k - 1];
      assert a == BigEndian(m / 256, k - 1) == BigEndian(n / 256, k - 1);
      assert b == m % 256 == n % 256;
      BigEndianInjective(m / 256, n / 256, k - 1);
    }
  }

  /** n shifted right by so many bytes. */
  function Shifted(n: nat, bytes: nat): nat {
    if bytes == 0 then n else Shifted(n / 256, bytes - 1)
  }

  /** Most significant byte first: the last byte is the lowest of n, each before it that of n shifted once more. */
  lemma {:induction false} BigEndianAt(n: nat, k: nat, i: nat)
    requires i < k
    ensures BigEndian(n, k)[i] == Shifted(n, k - 1 - i) % 256
  {
    if i < k - 1 { BigEndianAt(n / 256, k - 1, i); }
  }

  lemma Pow256Of8()
    ensures Pow256(8) == TWO_64
  {
    assert Pow256(4) == TWO_32;
  }

  function Framed(b: seq<byte>): (r: seq<byte>)
    ensures |r| == 8 + |b|
  {
    BigEndian(|b|, 8) + b
  }

  /** What the hash is fed for the items. */
  function Feed(items: seq<Item>): seq<byte> {
    if items == [] then []
    else Feed(items[..|items| - 1]) + Framed(Encode(items[|items| - 1].name)) + Framed(items[|items| - 1].data)
  }

  predicate Frameable(item: Item) {
    |Encode(item.name)| < TWO_64 && |item.data| < TWO_64
  }

  /** A framed string can be told apart from whatever follows it. */
  lemma FrameSplits(a: seq<byte>, x: seq<byte>, b: seq<byte>, y: seq<byte>)
    requires |a| < TWO_64 && |b| < TWO_64 && Framed(a) + x == Framed(b) + y
    ensures a == b && x == y
  {
    var all := Framed(a) + x;
    Pow256Of8();
    assert all[..8] == BigEndian(|a|, 8);
    assert all[..8] == BigEndian(|b|, 8);
    BigEndianInjective(|a|, |b|, 8);
    assert all[8..8 + |a|] == a && all[8 + |a|..] == x;
    assert all[8..8 + |b|] == b && all[8 + |b|..] == y;
  }

  lemma {:induction false} FeedFront(items: seq<Item>)
    requires items != []
    ensures Feed(items) == Framed(Encode(items[0].name)) + (Framed(items[0].data) + Feed(items[1..]))
    decreases |items|
  {
    hide Framed, Encode;
    var n := |items| - 1;
    if n > 0 {
      FeedFront(items[..n]);
      assert items[1..][..n - 1] == items[..n][1..];
    }
  }

  /** The frames of a list of items determine the list. */
  lemma {:induction false} FeedInjective(a: seq<Item>, b: seq<Item>)
    requires forall i :: 0 <= i < |a| ==> Frameable(a[i])
    requires forall i :: 0 <= i < |b| ==> Frameable(b[i])
    requires Feed(a) == Feed(b)
    ensures a == b
    decreases |a|
  {
    hide Framed, Encode;
    if a != [] { FeedFront(a); }
    if b != [] { FeedFront(b); }
    if a != [] && b != [] {
      assert Frameable(a[0]) && Frameable(b[0]);
      FrameSplits(Encode(a[0].name), Framed(a[0].data) + Feed(a[1..]),
                  Encode(b[0].name), Framed(b[0].data) + Feed(b[1..]));
      FrameSplits(a[0].data, Feed(a[1..]), b[0].data, Feed(b[1..]));
      EncodeInjective(a[0].name, b[0].name);
      FeedInjective(a[1..], b[1..]);
      assert a == [a[0]] + a[1..] && b == [b[0]] + b[1..];
    }
  }

  predicate AllFrameable(files: Files) {
    forall name :: name in files ==> Frameable(Item(name, files[name]))
  }

  /**
   The bytes fed to the hash are an injective encoding of the whole file map,
   and depend on nothing but the map.
   */
  lemma FeedDeterminesFiles(f: Files, a: seq<Item>, g: Files, b: seq<Item>)
    requires Lists(a, f) && Lists(b, g) && AllFrameable(f) && AllFrameable(g)
    ensures Feed(a) == Feed(b) <==> f == g
  {
    if Feed(a) == Feed(b) {
      FeedInjective(a, b);
      ListedMapUnique(a, f, g);
    }
    if f == g { ListingUnique(a, b, f); }
  }

  // --------------------------------------------------------- the computation

  function Insert(items: seq<Item>, item: Item): seq<Item> {
    if items == [] || Less(item.name, items[0].name) then [item] + items
    else [items[0]] + Insert(items[1..], item)
  }

  lemma {:induction false} InsertLists(items: seq<Item>, files: Files, item: Item)
    requires Lists(items, files) && item.name !in files
    ensures Lists(Insert(items, item), files[item.name := item.data])
    decreases |items|
  {
    hide Less;
    var all := files[item.name := item.data];
    if items == [] || Less(item.name, items[0].name) {
      forall name | name in files ensures Less(item.name, name) {
        assert name in Names(items);
        FirstIsLeast(items, files, name);
        if name != items[0].name { LessTransitive(item.name, items[0].name, name); }
      }
      PrependLists(item, items, files);
    } else {
      var rest, left := items[1..], files - {items[0].name};
      assert items[0].name in Names(items);
      RestLists(items, files);
      InsertLists(rest, left, item);
      LessTotal(item.name, items[0].name);
      forall name | name in left ensures Less(items[0].name, name) { FirstIsLeast(items, files, name); }
      PrependLists(items[0], Insert(rest, item), left[item.name := item.data]);
      assert left[item.name := item.data][items[0].name := items[0].data] == all;
    }
  }

  lemma PrependLists(first: Item, items: seq<Item>, files: Files)
    requires Lists(items, files) && forall name :: name in files ==> Less(first.name, name)
    ensures Lists([first] + items, files[first.name := first.data])
  {
    var out, all := [first] + items, files[first.name := first.data];
    LessIrreflexive(first.name);
    forall name | name in all ensures name in Names(out) {
      if name != first.name {
        assert name in Names(items);
        var i :| 0 <= i < |items| && items[i].name == name;
        assert out[i + 1].name == name;
      } else {
        assert out[0].name == name;
      }
    }
  }

  /** sorted(files.items()) */
  method SortedItems(files: Files) returns (items: seq<Item>)
    ensures Lists(items, files)
  {
    items := [];
    var rest := files;
    ghost var done: Files := map[];
    while rest.Keys != {}
      invariant rest.Keys !! done.Keys && rest + done == files
      invariant Lists(items, done)
      decreases rest.Keys
    {
      var name :| name in rest;
      InsertLists(items, done, Item(name, rest[name]));
      items := Insert(items, Item(name, rest[name]));
      done := done[name := rest[name]];
      rest := rest - {name};
    }
    assert files.Keys == done.Keys;
  }

  lemma FrameableListing(items: seq<Item>, files: Files)
    requires Lists(items, files)
    ensures AllFrameable(files) <==> forall i :: 0 <= i < |items| ==> Frameable(items[i])
  {
    if forall i :: 0 <= i < |items| ==> Frameable(items[i]) {
      forall name | name in files ensures Frameable(Item(name, files[name])) {
        assert name in Names(items);
      }
    }
    forall i | 0 <= i < |items| ensures items[i] == Item(items[i].name, files[items[i].name]) {}
  }

  lemma FeedStep(items: seq<Item>, i: nat)
    requires i < |items|
    ensures Feed(items[..i + 1]) ==
            Feed(items[..i]) + BigEndian(|Encode(items[i].name)|, 8) + Encode(items[i].name)
            + BigEndian(|items[i].data|, 8) + items[i].data
  {
    assert items[..i + 1][..i] == items[..i];
  }

  /** to_bytes refuses a length of 2^64 or more; otherwise all entries are fed. */
  method Digest(files: Files) returns (fed: Result<seq<byte>, ()>)
    ensures fed.Success? <==> AllFrameable(files)
    ensures fed.Success? ==> exists items :: Lists(items, files) && fed.value == Feed(items)
  {
    hide Lists, AllFrameable, Encode;
    var items := SortedItems(files);
    FrameableListing(items, files);
    var value: seq<byte> := [];
    assert items[..0] == [];
    for i := 0 to |items|
      invariant value == Feed(items[..i])
      invariant forall j :: 0 <= j < i ==> Frameable(items[j])
    {
      var name, data := Encode(items[i].name), items[i].data;
      if |name| >= TWO_64 || |data| >= TWO_64 {
        assert !Frameable(items[i]);
        return Failure(());
      }
      FeedStep(items, i);
      value := value + BigEndian(|name|, 8);
      value := value + name;
      value := value + BigEndian(|data|, 8);
      value := value + data;
    }
    assert items[..|items|] == items;
    return Success(value);
  }
}
