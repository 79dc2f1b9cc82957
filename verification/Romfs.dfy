// The ROM file system image of tools/mkromfs.py: a depth-first layout with absolute addresses,
// and how a reader that follows those addresses gets the tree back.
module Romfs {
  import opened Options

  type Byte = b: int | 0 <= b < 256
  type Bytes = seq<Byte>

  const WORD := 0x1_0000_0000

  datatype Node = File(name: Bytes, data: Bytes) | Folder(name: Bytes, children: seq<Node>)

  // ----- Writing -----

  function Zeros(n: nat): (r: Bytes)
    ensures |r| == n && forall i :: 0 <= i < n ==> r[i] == 0
  {
    if n == 0 then [] else [0] + Zeros(n - 1)
  }

  // At least one zero ends the name.
  function BinName(name: Bytes): (r: Bytes)
    ensures |r| % 4 == 0 && |name| < |r| <= |name| + 4
  {
    name + Zeros(4 - |name| % 4)
  }

  function Padded(data: Bytes): (r: Bytes)
    ensures |r| % 4 == 0 && data <= r
  {
    if |data| % 4 != 0 then data + Zeros(4 - |data| % 4) else data
  }

  // A native unsigned int of struct.pack, least significant byte first
  function Word(v: nat): Bytes { [v % 256, v / 256 % 256, v / 65536 % 256, v / 16777216 % 256] }

  function Pack(typ: nat, name: nat, data: nat, size: nat): (r: Bytes)
    ensures |r| == 16
  {
    Word(typ) + Word(name) + Word(data) + Word(size)
  }

  function EntrySize(c: Node): nat { if c.File? then |c.data| else |c.children| }

  function EntryType(c: Node): nat { if c.File? then 0 else 1 }

  // bin_data of a file or a folder that is placed at address base
  function BinData(c: Node, base: nat): Bytes
    decreases c, EntrySize(c) + 1
  {
    if c.File? then c.data
    else Entries(c, 0, Body(c, base)) + Payload(c, 0, Body(c, base))
  }

  // Where the payload begins, behind the entries
  function Body(f: Node, base: nat): nat { base + 16 * EntrySize(f) }

  // With the name of child i at v: where its data begins, its data, and where the next name goes
  function DataAt(f: Node, i: nat, v: nat): nat
    requires f.Folder? && i < |f.children|
  {
    v + |BinName(f.children[i].name)|
  }

  function ChildData(f: Node, i: nat, v: nat): Bytes
    requires f.Folder? && i < |f.children|
    decreases f, |f.children| - i, 0
  {
    Padded(BinData(f.children[i], DataAt(f, i, v)))
  }

  function NextAt(f: Node, i: nat, v: nat): nat
    requires f.Folder? && i < |f.children|
    decreases f, |f.children| - i, 1
  {
    DataAt(f, i, v) + |ChildData(f, i, v)|
  }

  function EntryBytes(c: Node, name: nat, data: nat): (r: Bytes)
    ensures |r| == 16
  {
    Pack(EntryType(c), name, data, EntrySize(c))
  }

  // The directory entries of the children from number i on
  function Entries(f: Node, i: nat, v: nat): Bytes
    requires f.Folder? && i <= |f.children|
    decreases f, |f.children| - i, 2
  {
    if i == |f.children| then []
    else EntryBytes(f.children[i], v, DataAt(f, i, v)) + Entries(f, i + 1, NextAt(f, i, v))
  }

  // Their names and data
  function Payload(f: Node, i: nat, v: nat): Bytes
    requires f.Folder? && i <= |f.children|
    decreases f, |f.children| - i, 2
  {
    if i == |f.children| then []
    else BinName(f.children[i].name) + ChildData(f, i, v) + Payload(f, i + 1, NextAt(f, i, v))
  }

  // struct.pack raises an error for a field that does not fit in 32 bits.
  predicate Packs(c: Node, base: nat)
    decreases c, EntrySize(c) + 1
  {
    c.Folder? ==> ListPacks(c, 0, Body(c, base))
  }

  predicate ListPacks(f: Node, i: nat, v: nat)
    requires f.Folder? && i <= |f.children|
    decreases f, |f.children| - i
  {
    i == |f.children| ||
    (v < WORD && DataAt(f, i, v) < WORD && EntrySize(f.children[i]) < WORD &&
     Packs(f.children[i], DataAt(f, i, v)) && ListPacks(f, i + 1, NextAt(f, i, v)))
  }

  const SLASH: Bytes := [47]

  // get_bin_data; None stands for the error
  function Image(tree: Node, base: nat): Option<Bytes>
    requires tree.Folder?
  {
    var v := base + 20;
    if base + 16 < WORD && v < WORD && |tree.children| < WORD && Packs(tree, v) then
      Some(Pack(1, base + 16, v, |tree.children|) + BinName(SLASH) + BinData(tree, v))
    else None
  }

  // ----- Reading -----

  function WordAt(img: Bytes, p: nat): nat
    requires p + 4 <= |img|
  {
    (img[p] as int) + 256 * (img[p + 1] as int) + 65536 * (img[p + 2] as int) + 16777216 * (img[p + 3] as int)
  }

  // The bytes up to the first zero
  function CString(img: Bytes): Option<Bytes> {
    if img == [] then None
    else if img[0] == 0 then Some([])
    else match CString(img[1..])
      case None => None
      case Some(s) => Some([img[0]] + s)
  }

  // The directory entry at address `at` of an image that is loaded at `base`
  function ReadEntry(img: Bytes, base: nat, at: nat): Option<Node>
    decreases if at <= base + |img| then base + |img| - at else 0, 0, 0
  {
    if at < base || at + 16 > base + |img| then None
    else
      var typ, name := WordAt(img, at - base), WordAt(img, at - base + 4);
      var data, size := WordAt(img, at - base + 8), WordAt(img, at - base + 12);
      if name < base || name > base + |img| || data <= at || data > base + |img| then None
      else
        match CString(img[name - base..])
        case None => None
        case Some(s) =>
          if typ == 0 && data + size <= base + |img| then Some(File(s, img[data - base..data - base + size]))
          else if typ == 1 then
            match ReadEntries(img, base, data, size)
            case None => None
            case Some(cs) => Some(Folder(s, cs))
          else None
  }

  function ReadEntries(img: Bytes, base: nat, at: nat, n: nat): Option<seq<Node>>
    decreases if at <= base + |img| then base + |img| - at else 0, 1, n
  {
    if n == 0 then Some([])
    else if at + 16 > base + |img| then None
    else
      match ReadEntry(img, base, at)
      case None => None
      case Some(c) =>
        match ReadEntries(img, base, at + 16, n - 1)
        case None => None
        case Some(cs) => Some([c] + cs)
  }

  // ----- Reading back what was written -----

  predicate NoZero(name: Bytes) { forall i :: 0 <= i < |name| ==> name[i] != 0 }

  // File names hold no zero byte.
  predicate Named(c: Node) {
    NoZero(c.name) && (c.Folder? ==> forall i :: 0 <= i < |c.children| ==> Named(c.children[i]))
  }

  // The bytes lie in the image at address a.
  predicate Lies(img: Bytes, base: nat, a: nat, bytes: Bytes) {
    base <= a && a - base + |bytes| <= |img| && img[a - base..a - base + |bytes|] == bytes
  }

  lemma LiesParts(img: Bytes, base: nat, a: nat, x: Bytes, y: Bytes)
    requires Lies(img, base, a, x + y)
    ensures Lies(img, base, a, x) && Lies(img, base, a + |x|, y)
  {
    var p := a - base;
    assert img[p..p + |x|] == (x + y)[..|x|];
    assert img[p + |x|..p + |x| + |y|] == (x + y)[|x|..];
  }

  lemma Digits(v: nat)
    requires v < WORD
    ensures v == v % 256 + 256 * (v / 256 % 256) + 65536 * (v / 65536 % 256) + 16777216 * (v / 16777216 % 256)
  {
    assert v / 65536 == v / 256 / 256 && v / 16777216 == v / 65536 / 256;
  }

  lemma WordBack(img: Bytes, base: nat, a: nat, v: nat)
    requires Lies(img, base, a, Word(v)) && v < WORD
    ensures WordAt(img, a - base) == v
  {
    var p, w := a - base, Word(v);
    assert w[0] == img[p] && w[1] == img[p + 1] && w[2] == img[p + 2] && w[3] == img[p + 3];
    assert img[p] as int == v % 256 && img[p + 1] as int == v / 256 % 256;
    assert img[p + 2] as int == v / 65536 % 256 && img[p + 3] as int == v / 16777216 % 256;
    Digits(v);
  }

  lemma {:induction false} NameBack(name: Bytes, rest: Bytes)
    requires NoZero(name) && rest != [] && rest[0] == 0
    ensures CString(name + rest) == Some(name)
  {
    if name == [] {
      assert name + rest == rest;
    } else {
      NameBack(name[1..], rest);
      assert (name + rest)[1..] == name[1..] + rest;
      assert name == [name[0]] + name[1..];
    }
  }

  lemma FieldsBack(img: Bytes, base: nat, at: nat, typ: nat, name: nat, data: nat, size: nat)
    requires Lies(img, base, at, Pack(typ, name, data, size))
    requires typ < WORD && name < WORD && data < WORD && size < WORD
    ensures
      var p := at - base;
      && WordAt(img, p) == typ && WordAt(img, p + 4) == name
      && WordAt(img, p + 8) == data && WordAt(img, p + 12) == size
  {
    var x, y := Word(typ) + Word(name), Word(typ) + Word(name) + Word(data);
    LiesParts(img, base, at, y, Word(size));
    LiesParts(img, base, at, x, Word(data));
    LiesParts(img, base, at, Word(typ), Word(name));
    hide Word, WordAt, Lies;
    WordBack(img, base, at, typ);
    WordBack(img, base, at + 4, name);
    WordBack(img, base, at + 8, data);
    WordBack(img, base, at + 12, size);
  }

  lemma NameLies(img: Bytes, base: nat, a: nat, name: Bytes)
    requires Lies(img, base, a, BinName(name)) && NoZero(name)
    ensures CString(img[a - base..]) == Some(name)
  {
    var tail := img[a - base..];
    var n := |name|;
    assert tail[..|BinName(name)|] == BinName(name);
    assert tail == name + tail[n..];
    assert tail[n..][0] == BinName(name)[n] == 0;
    NameBack(name, tail[n..]);
  }

  // What one directory entry and its name and data say
  lemma {:induction false} EntryBack(img: Bytes, base: nat, c: Node, at: nat, name: nat, data: nat)
    requires Named(c) && name < WORD && data < WORD && EntrySize(c) < WORD && Packs(c, data) && at < data
    requires Lies(img, base, at, EntryBytes(c, name, data))
    requires Lies(img, base, name, BinName(c.name)) && Lies(img, base, data, BinData(c, data))
    ensures ReadEntry(img, base, at) == Some(c)
    decreases c, EntrySize(c) + 1
  {
    hide Pack, BinName, WordAt;
    FieldsBack(img, base, at, EntryType(c), name, data, EntrySize(c));
    NameLies(img, base, name, c.name);
    if c.Folder? {
      FolderBack(img, base, c, data);
    }
  }

  lemma {:induction false} FolderBack(img: Bytes, base: nat, f: Node, data: nat)
    requires f.Folder? && Named(f) && Packs(f, data) && Lies(img, base, data, BinData(f, data))
    ensures ReadEntries(img, base, data, |f.children|) == Some(f.children)
    decreases f, EntrySize(f), 3
  {
    var v := Body(f, data);
    EntriesSize(f, 0, v);
    hide Lies, Entries, Payload, ReadEntries, ListPacks;
    LiesParts(img, base, data, Entries(f, 0, v), Payload(f, 0, v));
    EntriesBack(img, base, f, 0, v, data);
    assert f.children[0..] == f.children;
  }

  lemma {:induction false} EntriesSize(f: Node, i: nat, v: nat)
    requires f.Folder? && i <= |f.children|
    ensures |Entries(f, i, v)| == 16 * (|f.children| - i)
    decreases |f.children| - i
  {
    if i < |f.children| { EntriesSize(f, i + 1, NextAt(f, i, v)); }
  }

  lemma {:induction false} EntriesBack(img: Bytes, base: nat, f: Node, i: nat, v: nat, at: nat)
    requires f.Folder? && Named(f) && i <= |f.children| && ListPacks(f, i, v) && at + 16 * (|f.children| - i) <= v
    requires Lies(img, base, at, Entries(f, i, v)) && Lies(img, base, v, Payload(f, i, v))
    ensures ReadEntries(img, base, at, |f.children| - i) == Some(f.children[i..])
    decreases f, |f.children| - i, 2
  {
    hide Lies, ReadEntry, Named, BinData, BinName, Padded, EntryBytes, Packs, NextAt, Entries, Payload;
    if i < |f.children| {
      StepDown(f, i, v);
      ChildBack(img, base, f, i, v, at);
      EntriesBack(img, base, f, i + 1, NextAt(f, i, v), at + 16);
      assert f.children[i..] == [f.children[i]] + f.children[i + 1..];
    } else {
      assert f.children[i..] == [];
    }
  }

  lemma StepDown(f: Node, i: nat, v: nat)
    requires f.Folder? && i < |f.children| && ListPacks(f, i, v)
    ensures ListPacks(f, i + 1, NextAt(f, i, v)) && v <= NextAt(f, i, v)
  {}

  lemma {:induction false} ChildBack(img: Bytes, base: nat, f: Node, i: nat, v: nat, at: nat)
    requires f.Folder? && Named(f) && i < |f.children| && ListPacks(f, i, v) && at + 16 * (|f.children| - i) <= v
    requires Lies(img, base, at, Entries(f, i, v)) && Lies(img, base, v, Payload(f, i, v))
    ensures at + 16 <= base + |img| && ReadEntry(img, base, at) == Some(f.children[i])
    ensures Lies(img, base, at + 16, Entries(f, i + 1, NextAt(f, i, v)))
    ensures Lies(img, base, NextAt(f, i, v), Payload(f, i + 1, NextAt(f, i, v)))
    decreases f, |f.children| - i, 1
  {
    hide ReadEntry, BinName, Pack, Padded, Named, BinData;
    var c := f.children[i];
    assert Named(c) by { NamedChild(f, i); }
    var a, next := DataAt(f, i, v), NextAt(f, i, v);
    LiesParts(img, base, at, EntryBytes(c, v, a), Entries(f, i + 1, next));
    LiesParts(img, base, v, BinName(c.name) + ChildData(f, i, v), Payload(f, i + 1, next));
    LiesParts(img, base, v, BinName(c.name), ChildData(f, i, v));
    LiesPrefix(img, base, a, BinData(c, a), ChildData(f, i, v));
    EntryBack(img, base, c, at, v, a);
  }

  lemma NamedChild(f: Node, i: nat)
    requires f.Folder? && Named(f) && i < |f.children|
    ensures Named(f.children[i])
  {}

  lemma LiesPrefix(img: Bytes, base: nat, a: nat, x: Bytes, y: Bytes)
    requires Lies(img, base, a, y) && x <= y
    ensures Lies(img, base, a, x)
  {
    assert y == x + y[|x|..];
    LiesParts(img, base, a, x, y[|x|..]);
  }

  // A reader that starts at the image's base finds the tree again, for every tree and every base
  // for which the image can be written.
  lemma RoundTrip(tree: Node, base: nat)
    requires tree.Folder? && Named(tree) && Image(tree, base).Some?
    ensures ReadEntry(Image(tree, base).value, base, base) == Some(Folder(SLASH, tree.children))
  {
    hide ReadEntry, Pack, Packs, BinData;
    var img, v := Image(tree, base).value, base + 20;
    var root := Folder(SLASH, tree.children);
    var e, name, d := EntryBytes(root, base + 16, v), BinName(SLASH), BinData(tree, v);
    assert img == e + name + d;
    assert img[0..|img|] == img;
    LiesParts(img, base, base, e + name, d);
    LiesParts(img, base, base, e, name);
    SameBelow(tree, root, v);
    assert Named(root);
    EntryBack(img, base, root, base, base + 16, v);
  }

  // The folder's own name plays no part in its data.
  lemma {:induction false} SameLayout(f: Node, e: Node, i: nat, v: nat)
    requires f.Folder? && e.Folder? && f.children == e.children && i <= |f.children|
    ensures Entries(f, i, v) == Entries(e, i, v) && Payload(f, i, v) == Payload(e, i, v)
    ensures ListPacks(f, i, v) == ListPacks(e, i, v)
    decreases |f.children| - i
  {
    hide BinData, BinName, Padded, EntryBytes, Packs;
    if i < |f.children| {
      assert NextAt(f, i, v) == NextAt(e, i, v) && ChildData(f, i, v) == ChildData(e, i, v);
      SameLayout(f, e, i + 1, NextAt(f, i, v));
    }
  }

  lemma SameBelow(f: Node, e: Node, v: nat)
    requires f.Folder? && e.Folder? && f.children == e.children
    ensures BinData(f, v) == BinData(e, v) && Packs(f, v) == Packs(e, v)
  {
    hide Entries, Payload, ListPacks;
    SameLayout(f, e, 0, Body(f, v));
  }

  // ----- When the image can be written -----

  lemma {:induction false} SmallListPacks(f: Node, i: nat, v: nat)
    requires f.Folder? && i <= |f.children| && v + |Payload(f, i, v)| < WORD
    ensures ListPacks(f, i, v)
    decreases f, |f.children| - i
  {
    hide BinData, BinName, Padded, Packs;
    if i < |f.children| {
      var at := DataAt(f, i, v);
      SmallPacks(f.children[i], at);
      SmallListPacks(f, i + 1, NextAt(f, i, v));
    }
  }

  // Packing never fails for data that ends below 2^32.
  lemma {:induction false} SmallPacks(c: Node, at: nat)
    requires at + |BinData(c, at)| < WORD
    ensures Packs(c, at) && EntrySize(c) < WORD
    decreases c, EntrySize(c) + 1
  {
    hide Entries, Payload, ListPacks;
    if c.Folder? {
      EntriesSize(c, 0, Body(c, at));
      SmallListPacks(c, 0, Body(c, at));
    }
  }

  lemma ImageExists(tree: Node, base: nat)
    requires tree.Folder? && base + 20 + |BinData(tree, base + 20)| < WORD
    ensures Image(tree, base).Some? && |Image(tree, base).value| == 20 + |BinData(tree, base + 20)|
  {
    SmallPacks(tree, base + 20);
  }

  // ----- Regions of the image -----

  // Entries of one folder, a name, or the padded contents of a file
  datatype Region = Region(start: nat, bytes: Bytes)

  function OwnRegions(c: Node, a: nat): seq<Region>
    decreases c, EntrySize(c) + 1, 0
  {
    if c.File? then [Region(a, Padded(c.data))]
    else [Region(a, Entries(c, 0, Body(c, a)))] + Regions(c, 0, Body(c, a))
  }

  function Regions(f: Node, i: nat, v: nat): seq<Region>
    requires f.Folder? && i <= |f.children|
    decreases f, |f.children| - i, 0
  {
    if i == |f.children| then []
    else
      [Region(v, BinName(f.children[i].name))] + OwnRegions(f.children[i], DataAt(f, i, v)) +
      Regions(f, i + 1, NextAt(f, i, v))
  }

  function ImageRegions(tree: Node, base: nat): seq<Region>
    requires tree.Folder?
  {
    [Region(base, EntryBytes(tree, base + 16, base + 20)), Region(base + 16, BinName(SLASH))] +
      OwnRegions(tree, base + 20)
  }

  function Flat(rs: seq<Region>): Bytes { if rs == [] then [] else rs[0].bytes + Flat(rs[1..]) }

  // One region follows the other, each on a 4-byte boundary if the first is.
  predicate Tiled(rs: seq<Region>, start: nat) {
    rs == [] || (rs[0].start == start && |rs[0].bytes| % 4 == 0 && Tiled(rs[1..], start + |rs[0].bytes|))
  }

  lemma {:induction false} FlatAppend(a: seq<Region>, b: seq<Region>, start: nat)
    ensures Flat(a + b) == Flat(a) + Flat(b)
    ensures Tiled(a, start) && Tiled(b, start + |Flat(a)|) ==> Tiled(a + b, start)
  {
    if a == [] {
      assert a + b == b;
    } else {
      assert (a + b)[1..] == a[1..] + b;
      FlatAppend(a[1..], b, start + |a[0].bytes|);
    }
  }

  lemma FlatFirst(r: Region, rs: seq<Region>)
    ensures Flat([r] + rs) == r.bytes + Flat(rs)
    ensures |r.bytes| % 4 == 0 && Tiled(rs, r.start + |r.bytes|) ==> Tiled([r] + rs, r.start)
  {
    assert ([r] + rs)[1..] == rs;
  }

  lemma {:induction false} OwnTiled(c: Node, a: nat)
    ensures Flat(OwnRegions(c, a)) == Padded(BinData(c, a)) && Tiled(OwnRegions(c, a), a)
    ensures c.Folder? ==> |BinData(c, a)| % 4 == 0
    decreases c, EntrySize(c) + 1
  {
    hide Entries, Payload, Regions, BinName, Flat, Tiled;
    if c.File? {
      FileTiled(c, a);
    } else {
      var v := Body(c, a);
      EntriesSize(c, 0, v);
      RegionsTiled(c, 0, v);
      FlatFirst(Region(a, Entries(c, 0, v)), Regions(c, 0, v));
    }
  }

  lemma FileTiled(c: Node, a: nat)
    requires c.File?
    ensures Flat(OwnRegions(c, a)) == Padded(c.data) && Tiled(OwnRegions(c, a), a)
  {
    assert OwnRegions(c, a)[1..] == [];
  }

  lemma SumOfFours(a: nat, b: nat, c: nat)
    requires a % 4 == 0 && b % 4 == 0 && c % 4 == 0
    ensures (a + b + c) % 4 == 0
  {}

  lemma {:induction false} RegionsTiled(f: Node, i: nat, v: nat)
    requires f.Folder? && i <= |f.children|
    ensures Flat(Regions(f, i, v)) == Payload(f, i, v) && Tiled(Regions(f, i, v), v)
    ensures |Payload(f, i, v)| % 4 == 0
    decreases f, |f.children| - i
  {
    hide BinData, Padded, BinName, OwnRegions;
    if i < |f.children| {
      var name, own := [Region(v, BinName(f.children[i].name))], OwnRegions(f.children[i], DataAt(f, i, v));
      var rest := Regions(f, i + 1, NextAt(f, i, v));
      OwnTiled(f.children[i], DataAt(f, i, v));
      RegionsTiled(f, i + 1, NextAt(f, i, v));
      SumOfFours(|BinName(f.children[i].name)|, |ChildData(f, i, v)|, |Payload(f, i + 1, NextAt(f, i, v))|);
      assert name[1..] == [];
      FlatAppend(name, own, v);
      FlatAppend(name + own, rest, v);
    }
  }

  lemma {:induction false} TiledWithin(rs: seq<Region>, start: nat, i: nat)
    requires Tiled(rs, start) && i < |rs|
    ensures start <= rs[i].start && rs[i].start + |rs[i].bytes| <= start + |Flat(rs)|
    ensures start % 4 == 0 ==> rs[i].start % 4 == 0
  {
    if i > 0 { TiledWithin(rs[1..], start + |rs[0].bytes|, i - 1); }
  }

  lemma {:induction false} TiledApart(rs: seq<Region>, start: nat, i: nat, j: nat)
    requires Tiled(rs, start) && i < j < |rs|
    ensures rs[i].start + |rs[i].bytes| <= rs[j].start
  {
    if i == 0 {
      TiledWithin(rs[1..], start + |rs[0].bytes|, j - 1);
    } else {
      TiledApart(rs[1..], start + |rs[0].bytes|, i - 1, j - 1);
    }
  }

  // The image is made of its regions: no two overlap, none reaches beyond the image, no byte is
  // left over, and all are aligned to 4 bytes if the base is.
  lemma ImageTiled(tree: Node, base: nat, i: nat, j: nat)
    requires tree.Folder? && Image(tree, base).Some?
    ensures Flat(ImageRegions(tree, base)) == Image(tree, base).value
    ensures
      var rs := ImageRegions(tree, base);
      i < |rs| ==>
        && base <= rs[i].start && rs[i].start + |rs[i].bytes| <= base + |Image(tree, base).value|
        && (base % 4 == 0 ==> rs[i].start % 4 == 0)
        && (i < j < |rs| ==> rs[i].start + |rs[i].bytes| <= rs[j].start)
  {
    hide BinData, OwnRegions, Flat, Tiled, Padded, Packs;
    var rs, own := ImageRegions(tree, base), OwnRegions(tree, base + 20);
    var first, second := Region(base, EntryBytes(tree, base + 16, base + 20)), Region(base + 16, BinName(SLASH));
    OwnTiled(tree, base + 20);
    FolderUnpadded(tree, base + 20);
    assert |BinName(SLASH)| == 4;
    FlatFirst(second, own);
    FlatFirst(first, [second] + own);
    assert rs == [first] + ([second] + own);
    assert Image(tree, base).value == first.bytes + (second.bytes + BinData(tree, base + 20));
    if i < |rs| { TiledWithin(rs, base, i); }
    if i < j < |rs| { TiledApart(rs, base, i, j); }
  }

  lemma FolderUnpadded(f: Node, a: nat)
    requires f.Folder?
    ensures Padded(BinData(f, a)) == BinData(f, a)
  {
    hide BinData;
    OwnTiled(f, a);
  }

  // ----- The writer as it runs -----

  method PackEntry(typ: nat, name: nat, data: nat, size: nat) returns (r: Option<Bytes>)
    ensures r == if typ < WORD && name < WORD && data < WORD && size < WORD
                 then Some(Pack(typ, name, data, size)) else None
  {
    if typ >= WORD || name >= WORD || data >= WORD || size >= WORD { return None; }
    r := Some(Pack(typ, name, data, size));
  }

  method FolderData(f: Node, base: nat) returns (r: Option<Bytes>)
    requires f.Folder?
    ensures r == if Packs(f, base) then Some(BinData(f, base)) else None
    decreases f
  {
    hide BinName, Padded, Pack;
    var dirents: Bytes, payload: Bytes := [], [];
    var len: nat := base + 16 * |f.children|;
    var i := 0;
    while i < |f.children|
      invariant i <= |f.children| && ListPacks(f, i, len) == ListPacks(f, 0, Body(f, base))
      invariant dirents + Entries(f, i, len) == Entries(f, 0, Body(f, base))
      invariant payload + Payload(f, i, len) == Payload(f, 0, Body(f, base))
    {
      var c := f.children[i];
      ghost var v := len;
      var name := BinName(c.name);
      var nameAddr := len;
      len := len + |name|;
      var data: Bytes;
      if c.File? {
        data := c.data;
      } else {
        var sub := FolderData(c, len);
        if sub == None { return None; }
        data := sub.value;
      }
      var dataAddr := len;
      assert data == BinData(c, DataAt(f, i, v)) && Packs(c, DataAt(f, i, v));
      data := Padded(data);
      len := len + |data|;
      assert data == ChildData(f, i, v) && len == NextAt(f, i, v);
      var e := PackEntry(EntryType(c), nameAddr, dataAddr, EntrySize(c));
      if e == None { return None; }
      assert e.value == EntryBytes(c, v, DataAt(f, i, v));
      Regroup(dirents, e.value, Entries(f, i + 1, len));
      Regroup(payload, name + data, Payload(f, i + 1, len));
      dirents := dirents + e.value;
      payload := payload + (name + data);
      i := i + 1;
    }
    assert dirents + [] == dirents && payload + [] == payload;
    r := Some(dirents + payload);
  }

  lemma Regroup(a: Bytes, b: Bytes, c: Bytes)
    ensures a + (b + c) == a + b + c
  {}

  method BinImage(tree: Node, base: nat) returns (r: Option<Bytes>)
    requires tree.Folder?
    ensures r == Image(tree, base)
  {
    hide BinData, Packs, Pack;
    var len: nat := base + 16;
    var nameAddr := len;
    len := len + 4;
    var root := PackEntry(1, nameAddr, len, |tree.children|);
    if root == None { return None; }
    var data := FolderData(tree, len);
    if data == None { return None; }
    r := Some(root.value + BinName(SLASH) + data.value);
  }
}
