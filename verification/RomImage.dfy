/**
 The binary ROM file-system image of tools/mkromfs.py: directory entries first,
 then names and contents depth first, with absolute addresses. A reader that only
 follows the addresses finds the tree again (`ReadersFindTheTree`).
 */
module RomImage {
  import opened Wrappers
  import opened Utf8

  datatype Node = File(name: string, data: seq<byte>) | Folder(name: string, children: seq<Node>)

  /** A tree as a reader of the image sees it: names are bytes. */
  datatype Entry = FileEntry(name: seq<byte>, data: seq<byte>) | DirEntry(name: seq<byte>, children: seq<Entry>)

  const DIRENT := 16
  const LIMIT := 0x1_0000_0000

  // ----- writing: what the image is

  /** One 32-bit word, least significant byte first. */
  function Word(v: nat): (w: seq<byte>)
    ensures |w| == 4
  {
    [(v % 0x100) as byte, (v / 0x100 % 0x100) as byte, (v / 0x1_0000 % 0x100) as byte, (v / 0x100_0000 % 0x100) as byte]
  }

  /** The word has the value. */
  lemma WordValue(v: nat)
    requires v < LIMIT
    ensures var w := Word(v); v == w[0] as nat + 0x100 * w[1] as nat + 0x1_0000 * w[2] as nat + 0x100_0000 * w[3] as nat
  {
    assert v / 0x1_0000 == v / 0x100 / 0x100;
    assert v / 0x100_0000 == v / 0x1_0000 / 0x100;
  }

  function Zeros(n: nat): (z: seq<byte>)
    ensures |z| == n && forall i :: 0 <= i < n ==> z[i] == 0
  {
    seq(n, _ => 0)
  }

  /** `bin_name`, encoded: padded by one to four NULs, counted in characters. */
  function NameBytes(name: string): seq<byte> {
    Encode(name) + Zeros(4 - |name| % 4)
  }

  /** Contents padded to a multiple of four. */
  function Padded(data: seq<byte>): seq<byte> {
    data + Zeros((4 - |data| % 4) % 4)
  }

  /** `entry_size`. */
  function EntrySize(n: Node): nat {
    if n.File? then |n.data| else |n.children|
  }

  function Kind(n: Node): nat {
    if n.File? then 0 else 1
  }

  function Dirent(n: Node, nameAddr: nat): seq<byte> {
    Word(Kind(n)) + Word(nameAddr) + Word(nameAddr + |NameBytes(n.name)|) + Word(EntrySize(n))
  }

  /** `bin_data`. */
  function Data(n: Node, base: nat): seq<byte>
    decreases n, 2
  {
    match n
    case File(_, data) => data
    case Folder(_, children) =>
      Dirents(children, base + DIRENT * |children|) + Payloads(children, base + DIRENT * |children|)
  }

  /** Where the names and contents of the nodes after `n` go. */
  function NextAddr(n: Node, addr: nat): nat
    decreases n, 3
  {
    addr + |NameBytes(n.name)| + |Padded(Data(n, addr + |NameBytes(n.name)|))|
  }

  /** The entries of nodes whose names and contents start at `addr`. */
  function Dirents(ns: seq<Node>, addr: nat): (d: seq<byte>)
    ensures |d| == DIRENT * |ns|
    decreases ns, 0
  {
    if ns == [] then [] else Dirent(ns[0], addr) + Dirents(ns[1..], NextAddr(ns[0], addr))
  }

  function Payloads(ns: seq<Node>, addr: nat): seq<byte>
    decreases ns, 1
  {
    if ns == [] then []
    else
      NameBytes(ns[0].name) + Padded(Data(ns[0], addr + |NameBytes(ns[0].name)|))
      + Payloads(ns[1..], NextAddr(ns[0], addr))
  }

  /** All addresses and sizes fit into their words. */
  predicate Packable(n: Node, base: nat)
    decreases n, 2
  {
    match n
    case File(_, _) => true
    case Folder(_, children) => AllPackable(children, base + DIRENT * |children|)
  }

  predicate AllPackable(ns: seq<Node>, addr: nat)
    decreases ns, 0
  {
    ns == [] ||
    (var dataAddr := addr + |NameBytes(ns[0].name)|;
     && Packable(ns[0], dataAddr)
     && dataAddr < LIMIT && EntrySize(ns[0]) < LIMIT
     && AllPackable(ns[1..], NextAddr(ns[0], addr)))
  }

  // ----- where things are in the image

  /** A name: its bytes, then NULs up to a multiple of four characters, at least one. */
  lemma NameLayout(name: string)
    ensures var bs, n := NameBytes(name), |Encode(name)|;
      && |bs| == n + 4 - |name| % 4 && bs[..n] == Encode(name) && forall i :: n <= i < |bs| ==> bs[i] == 0
  {
  }

  /** Contents: their bytes, then as few NULs as make a multiple of four. */
  lemma PaddedLayout(data: seq<byte>)
    ensures var bs, n := Padded(data), |data|;
      && |bs| % 4 == 0 && n <= |bs| < n + 4 && bs[..n] == data && forall i :: n <= i < |bs| ==> bs[i] == 0
  {
  }

  /** `bin_item`: type, address of the name, address of the data behind it, and size. */
  lemma DirentLayout(n: Node, nameAddr: nat)
    ensures var d := Dirent(n, nameAddr);
      && |d| == 16
      && d[0..4] == Word(if n.File? then 0 else 1) && d[4..8] == Word(nameAddr)
      && d[8..12] == Word(nameAddr + |NameBytes(n.name)|) && d[12..16] == Word(if n.File? then |n.data| else |n.children|)
  {
    hide Word;
  }

  /** A folder: its entries, then the names and contents they tell of. */
  lemma FolderLayout(name: string, ns: seq<Node>, base: nat)
    ensures var d, n := Data(Folder(name, ns), base), 16 * |ns|;
      |d| >= n && d[..n] == Dirents(ns, base + n) && d[n..] == Payloads(ns, base + n)
  {
  }

  /** The address of the name of child `k`: the names and contents of those before it come first. */
  function NameAddr(ns: seq<Node>, addr: nat, k: nat): nat
    requires k <= |ns|
    decreases k
  {
    if k == 0 then addr
    else
      var dataAddr := NameAddr(ns, addr, k - 1) + |NameBytes(ns[k - 1].name)|;
      dataAddr + |Padded(Data(ns[k - 1], dataAddr))|
  }

  lemma {:induction false} NameAddrTail(ns: seq<Node>, addr: nat, k: nat)
    requires 0 < k <= |ns|
    ensures NameAddr(ns, addr, k) == NameAddr(ns[1..], NextAddr(ns[0], addr), k - 1)
    decreases k
  {
    if k > 1 {
      NameAddrTail(ns, addr, k - 1);
      assert ns[1..][k - 2] == ns[k - 1];
    }
  }

  /** Entry `k` of a folder is sixteen bytes, `k` entries behind the first, and tells where its name is. */
  lemma {:induction false} EntryIsAt(ns: seq<Node>, addr: nat, k: nat)
    requires k < |ns|
    ensures Dirents(ns, addr)[DIRENT * k..DIRENT * (k + 1)] == Dirent(ns[k], NameAddr(ns, addr, k))
    decreases k
  {
    hide NameBytes, Padded, Data, Word, NextAddr;
    DirentLayout(ns[0], addr);
    hide Dirent;
    var d, rest := Dirent(ns[0], addr), Dirents(ns[1..], NextAddr(ns[0], addr));
    if k == 0 {
      assert (d + rest)[0..16] == d;
    } else {
      NameAddrTail(ns, addr, k);
      EntryIsAt(ns[1..], NextAddr(ns[0], addr), k - 1);
      assert (d + rest)[DIRENT * k..DIRENT * (k + 1)] == rest[DIRENT * (k - 1)..DIRENT * k];
    }
  }

  /** Behind the entries, the name of child `k` is where its entry says, and its contents behind the name. */
  lemma {:induction false} PayloadIsAt(ns: seq<Node>, addr: nat, k: nat)
    requires k < |ns|
    ensures var p, at := Payloads(ns, addr), NameAddr(ns, addr, k);
      var n := |Payload(ns[k], at)|;
      addr <= at && at - addr + n <= |p| && p[at - addr..at - addr + n] == Payload(ns[k], at)
    decreases k
  {
    hide *;
    PayloadsSplit(ns, addr);
    var first, rest := Payload(ns[0], addr), Payloads(ns[1..], NextAddr(ns[0], addr));
    if k == 0 {
      NoneBefore(ns, addr);
      assert (first + rest)[..|first|] == first;
    } else {
      NameAddrTail(ns, addr, k);
      PayloadIsAt(ns[1..], NextAddr(ns[0], addr), k - 1);
      assert ns[1..][k - 1] == ns[k];
      Behind(first, rest, NameAddr(ns, addr, k) - addr, |Payload(ns[k], NameAddr(ns, addr, k))|);
    }
  }

  /** A node's name, and its contents behind it. */
  function Payload(n: Node, nameAddr: nat): seq<byte> {
    NameBytes(n.name) + Padded(Data(n, nameAddr + |NameBytes(n.name)|))
  }

  lemma PayloadsSplit(ns: seq<Node>, addr: nat)
    requires ns != []
    ensures Payloads(ns, addr) == Payload(ns[0], addr) + Payloads(ns[1..], NextAddr(ns[0], addr))
    ensures NextAddr(ns[0], addr) == addr + |Payload(ns[0], addr)|
  {
    hide NameBytes, Padded, Data;
  }

  lemma NoneBefore(ns: seq<Node>, addr: nat)
    ensures NameAddr(ns, addr, 0) == addr
  {
  }

  lemma Behind(first: seq<byte>, rest: seq<byte>, at: nat, n: nat)
    requires |first| <= at && at - |first| + n <= |rest|
    ensures (first + rest)[at..at + n] == rest[at - |first|..at - |first| + n]
  {
  }

  // ----- writing: the loop

  /** `Struct('IIII').pack`, which fails on values of more than 32 bits. */
  method Pack(kind: nat, name: nat, data: nat, size: nat) returns (r: Option<seq<byte>>)
    ensures r.Some? <==> kind < LIMIT && name < LIMIT && data < LIMIT && size < LIMIT
    ensures r.Some? ==> r.value == Word(kind) + Word(name) + Word(data) + Word(size)
  {
    if kind < LIMIT && name < LIMIT && data < LIMIT && size < LIMIT {
      r := Some(Word(kind) + Word(name) + Word(data) + Word(size));
    } else {
      r := None;
    }
  }

  /** `File.bin_data` and `Folder.bin_data`. */
  method BinData(n: Node, base: nat) returns (r: Option<seq<byte>>)
    ensures r.Some? <==> Packable(n, base)
    ensures r.Some? ==> r.value == Data(n, base)
    decreases n, 0
  {
    if n.File? {
      return Some(n.data);
    }
    r := FolderData(n.children, base);
  }

  /** The loop of `Folder.bin_data`. */
  method FolderData(ns: seq<Node>, base: nat) returns (r: Option<seq<byte>>)
    ensures r.Some? <==> AllPackable(ns, base + DIRENT * |ns|)
    ensures r.Some? ==> r.value == Dirents(ns, base + DIRENT * |ns|) + Payloads(ns, base + DIRENT * |ns|)
    decreases ns
  {
    hide Dirents, Payloads, AllPackable, NextAddr, NameBytes, Data, Padded, Packable, Zeros, Encode;
    var pBase := base + DIRENT * |ns|;
    var d, p := [], [];
    var v: nat := pBase;
    assert ns[0..] == ns;
    for i := 0 to |ns|
      invariant AllPackable(ns, pBase) <==> AllPackable(ns[i..], v)
      invariant Dirents(ns, pBase) == d + Dirents(ns[i..], v)
      invariant Payloads(ns, pBase) == p + Payloads(ns[i..], v)
    {
      var c := ns[i];
      assert ns[i..][1..] == ns[i + 1..] && ns[i..][0] == c;
      FirstOf(ns[i..], v);
      var name := NameBytes(c.name);
      var nameAddr := v;
      v := v + |name|;
      var data := BinData(c, v);
      if data.None? {
        return None;
      }
      var dataAddr := v;
      var padded := PadToWord(data.value);
      v := v + |padded|;
      var dirent := Pack(if c.File? then 0 else 1, nameAddr, dataAddr, EntrySize(c));
      if dirent.None? {
        return None;
      }
      Regroup(d, dirent.value, Dirents(ns[i + 1..], v));
      Regroup(p, name + padded, Payloads(ns[i + 1..], v));
      d := d + dirent.value;
      p := p + (name + padded);
    }
    NothingLeft(ns, v, d, p);
    r := Some(d + p);
  }

  lemma Regroup<T>(x: seq<T>, y: seq<T>, z: seq<T>)
    ensures x + (y + z) == x + y + z
  {
  }

  lemma NothingLeft(ns: seq<Node>, v: nat, d: seq<byte>, p: seq<byte>)
    ensures AllPackable(ns[|ns|..], v)
    ensures d + Dirents(ns[|ns|..], v) == d && p + Payloads(ns[|ns|..], v) == p
  {
    assert ns[|ns|..] == [];
  }

  /** "pad the data to 4 bytes boundary". */
  method PadToWord(data: seq<byte>) returns (padded: seq<byte>)
    ensures padded == Padded(data)
  {
    padded := data;
    if |data| % 4 != 0 {
      padded := padded + Zeros(4 - |data| % 4);
    }
  }

  /** `get_bin_data`: the entry of the root, its name, and the tree. */
  function Image(children: seq<Node>, base: nat): seq<byte> {
    var nameAddr := base + DIRENT;
    Word(1) + Word(nameAddr) + Word(nameAddr + 4) + Word(|children|)
    + [0x2F, 0, 0, 0]
    + Data(Folder("", children), nameAddr + 4)
  }

  /** The root comes first, then its name, then the tree. */
  lemma RootLayout(children: seq<Node>, base: nat)
    ensures var b := Image(children, base);
      && |b| >= 20 && b[0..4] == Word(1) && b[4..8] == Word(base + 16) && b[8..12] == Word(base + 20)
      && b[12..16] == Word(|children|) && b[16..20] == ['/' as int as byte, 0, 0, 0]
      && b[20..] == Data(Folder("", children), base + 20)
  {
    hide Word, Data;
    var head := Word(1) + Word(base + 16) + Word(base + 20) + Word(|children|) + [0x2F, 0, 0, 0];
    assert Image(children, base) == head + Data(Folder("", children), base + 20);
    assert |head| == 20;
  }

  method GetBinData(tree: Node, base: nat) returns (r: Option<seq<byte>>)
    requires tree.Folder?
    ensures r.Some? <==> Packable(tree, base + 20) && base + 20 < LIMIT && |tree.children| < LIMIT
    ensures r.Some? ==> r.value == Image(tree.children, base)
  {
    var v := base + DIRENT;
    var nameAddr := v;
    v := v + 4;
    var data := Pack(1, nameAddr, v, EntrySize(tree));
    var rest := BinData(tree, v);
    if data.None? || rest.None? {
      return None;
    }
    r := Some(data.value + [0x2F, 0, 0, 0] + rest.value);
  }

  // ----- reading

  /** Memory in which the image has been placed. */
  datatype Memory = Memory(base: nat, bytes: seq<byte>)

  function Read32(m: Memory, a: nat): Option<nat> {
    if m.base <= a && a - m.base + 4 <= |m.bytes| then
      var w := m.bytes[a - m.base..a - m.base + 4];
      Some(w[0] as nat + 0x100 * w[1] as nat + 0x1_0000 * w[2] as nat + 0x100_0000 * w[3] as nat)
    else None
  }

  /** The bytes up to the first NUL. */
  function UpToNul(bs: seq<byte>): Option<seq<byte>> {
    if bs == [] then None
    else if bs[0] == 0 then Some([])
    else
      match UpToNul(bs[1..])
      case None => None
      case Some(rest) => Some([bs[0]] + rest)
  }

  function ReadName(m: Memory, a: nat): Option<seq<byte>> {
    if m.base <= a <= m.base + |m.bytes| then UpToNul(m.bytes[a - m.base..]) else None
  }

  /** The entry at `a`, to at most `depth` levels of directories. */
  function ReadEntry(m: Memory, a: nat, depth: nat): Option<Entry>
    decreases depth, 0
  {
    match (Read32(m, a), Read32(m, a + 4), Read32(m, a + 8), Read32(m, a + 12))
    case (Some(kind), Some(nameAddr), Some(dataAddr), Some(size)) =>
      (match ReadName(m, nameAddr)
       case None => None
       case Some(name) =>
         if kind == 0 then
           if m.base <= dataAddr && dataAddr - m.base + size <= |m.bytes|
           then Some(FileEntry(name, m.bytes[dataAddr - m.base..dataAddr - m.base + size]))
           else None
         else if kind == 1 && depth > 0 then
           (match ReadEntries(m, dataAddr, size, depth - 1)
            case None => None
            case Some(children) => Some(DirEntry(name, children)))
         else None)
    case _ => None
  }

  /** The `n` entries from `a` on. */
  function ReadEntries(m: Memory, a: nat, n: nat, depth: nat): Option<seq<Entry>>
    decreases depth, n + 1
  {
    if n == 0 then Some([])
    else
      match (ReadEntry(m, a, depth), ReadEntries(m, a + DIRENT, n - 1, depth))
      case (Some(e), Some(es)) => Some([e] + es)
      case _ => None
  }

  // ----- what a reader should find

  /** Names are C strings: they end at the first NUL. */
  function CutAtNul(s: string): string {
    if s == "" || s[0] == '\0' then "" else [s[0]] + CutAtNul(s[1..])
  }

  function Seen(n: Node): Entry
    decreases n, 0
  {
    match n
    case File(name, data) => FileEntry(Encode(CutAtNul(name)), data)
    case Folder(name, children) => DirEntry(Encode(CutAtNul(name)), AllSeen(children))
  }

  function AllSeen(ns: seq<Node>): (es: seq<Entry>)
    ensures |es| == |ns|
    decreases ns
  {
    if ns == [] then [] else [Seen(ns[0])] + AllSeen(ns[1..])
  }

  /** How many levels of directories there are below the nodes. */
  function Depth(ns: seq<Node>): nat
    decreases ns
  {
    if ns == [] then 0
    else
      var d := match ns[0] case File(_, _) => 0 case Folder(_, children) => 1 + Depth(children);
      var e := Depth(ns[1..]);
      if d < e then e else d
  }

  // ----- reading what was written

  ghost predicate At(m: Memory, a: nat, bs: seq<byte>) {
    m.base <= a && a - m.base + |bs| <= |m.bytes| && m.bytes[a - m.base..a - m.base + |bs|] == bs
  }

  lemma AtSplit(m: Memory, a: nat, x: seq<byte>, y: seq<byte>)
    requires At(m, a, x + y)
    ensures At(m, a, x) && At(m, a + |x|, y)
  {
    SliceParts(m.bytes, a - m.base, x, y);
  }

  lemma SliceParts(bs: seq<byte>, i: nat, x: seq<byte>, y: seq<byte>)
    requires i + |x| + |y| <= |bs| && bs[i..i + |x| + |y|] == x + y
    ensures bs[i..i + |x|] == x && bs[i + |x|..i + |x| + |y|] == y
  {
    var s := bs[i..i + |x| + |y|];
    assert s[..|x|] == x && s[|x|..] == y;
    assert forall k :: 0 <= k < |s| ==> s[k] == bs[i + k];
  }

  lemma WordRoundTrip(m: Memory, a: nat, v: nat)
    requires At(m, a, Word(v)) && v < LIMIT
    ensures Read32(m, a) == Some(v)
  {
    assert v / 0x1_0000 == v / 0x100 / 0x100;
    assert v / 0x100_0000 == v / 0x1_0000 / 0x100;
  }

  lemma {:induction false} NameRoundTrip(s: string, pad: nat, rest: seq<byte>)
    requires pad > 0
    ensures UpToNul(Encode(s) + Zeros(pad) + rest) == Some(Encode(CutAtNul(s)))
  {
    var bs := Encode(s) + Zeros(pad) + rest;
    if s == "" {
      assert bs[0] == 0;
    } else if s[0] == '\0' {
      assert bs[0] == 0;
    } else {
      var tail := Encode(s[1..]) + Zeros(pad) + rest;
      NameRoundTrip(s[1..], pad, rest);
      assert bs == EncodeChar(s[0]) + tail;
      EncodeCharZero(s[0]);
      UpToNulAppend(EncodeChar(s[0]), tail);
      assert CutAtNul(s)[1..] == CutAtNul(s[1..]);
    }
  }

  lemma {:induction false} UpToNulAppend(x: seq<byte>, y: seq<byte>)
    requires 0 !in x && UpToNul(y).Some?
    ensures UpToNul(x + y) == Some(x + UpToNul(y).value)
  {
    if x == [] {
      assert x + y == y && x + UpToNul(y).value == UpToNul(y).value;
    } else {
      assert (x + y)[1..] == x[1..] + y && (x + y)[0] == x[0] && x[0] in x;
      UpToNulAppend(x[1..], y);
      assert [x[0]] + (x[1..] + UpToNul(y).value) == x + UpToNul(y).value;
    }
  }

  lemma NameAt(m: Memory, a: nat, name: string)
    requires At(m, a, NameBytes(name))
    ensures ReadName(m, a) == Some(Encode(CutAtNul(name)))
  {
    var off := a - m.base;
    var tail := m.bytes[off + |NameBytes(name)|..];
    assert m.bytes[off..] == NameBytes(name) + tail;
    NameRoundTrip(name, 4 - |name| % 4, tail);
  }

  lemma FourWords(m: Memory, a: nat, v0: nat, v1: nat, v2: nat, v3: nat)
    requires At(m, a, Word(v0) + Word(v1) + Word(v2) + Word(v3))
    requires v0 < LIMIT && v1 < LIMIT && v2 < LIMIT && v3 < LIMIT
    ensures Read32(m, a) == Some(v0) && Read32(m, a + 4) == Some(v1)
    ensures Read32(m, a + 8) == Some(v2) && Read32(m, a + 12) == Some(v3)
  {
    hide Word, Read32, At;
    AtSplit(m, a, Word(v0) + Word(v1) + Word(v2), Word(v3));
    AtSplit(m, a, Word(v0) + Word(v1), Word(v2));
    AtSplit(m, a, Word(v0), Word(v1));
    WordRoundTrip(m, a, v0);
    WordRoundTrip(m, a + 4, v1);
    WordRoundTrip(m, a + 8, v2);
    WordRoundTrip(m, a + 12, v3);
  }

  lemma ContentsAt(m: Memory, a: nat, data: seq<byte>)
    requires At(m, a, Padded(data))
    ensures At(m, a, data)
  {
    AtSplit(m, a, data, Zeros((4 - |data| % 4) % 4));
  }

  lemma DepthOfFolder(n: Node)
    requires n.Folder?
    ensures Depth([n]) == 1 + Depth(n.children)
  {
    assert [n][1..] == [];
  }

  /** A directory entry, its name and its contents, wherever they are, are read back. */
  lemma {:induction false} EntryRead(m: Memory, n: Node, a: nat, addr: nat, depth: nat)
    requires var dataAddr := addr + |NameBytes(n.name)|;
      && At(m, a, Dirent(n, addr)) && At(m, addr, NameBytes(n.name)) && At(m, dataAddr, Padded(Data(n, dataAddr)))
      && Packable(n, dataAddr) && dataAddr < LIMIT && EntrySize(n) < LIMIT
    requires Depth([n]) <= depth
    ensures ReadEntry(m, a, depth) == Some(Seen(n))
    decreases n, 0
  {
    hide Word, Read32, NameBytes, Padded, Dirents, Payloads, AllPackable, ReadName, ReadEntries, AllSeen, Depth, Encode;
    var dataAddr := addr + |NameBytes(n.name)|;
    FourWords(m, a, Kind(n), addr, dataAddr, EntrySize(n));
    NameAt(m, addr, n.name);
    ContentsAt(m, dataAddr, Data(n, dataAddr));
    if n.Folder? {
      var ns := n.children;
      var at := dataAddr + DIRENT * |ns|;
      AtSplit(m, dataAddr, Dirents(ns, at), Payloads(ns, at));
      DepthOfFolder(n);
      EntriesRead(m, ns, dataAddr, at, depth - 1);
    }
  }

  lemma {:induction false} EntriesRead(m: Memory, ns: seq<Node>, a: nat, addr: nat, depth: nat)
    requires At(m, a, Dirents(ns, addr)) && At(m, addr, Payloads(ns, addr))
    requires AllPackable(ns, addr) && Depth(ns) <= depth
    ensures ReadEntries(m, a, |ns|, depth) == Some(AllSeen(ns))
    decreases ns, 1
  {
    if ns == [] {
    } else {
      EntriesReadStep(m, ns, a, addr, depth);
    }
  }

  lemma {:induction false} EntriesReadStep(m: Memory, ns: seq<Node>, a: nat, addr: nat, depth: nat)
    requires At(m, a, Dirents(ns, addr)) && At(m, addr, Payloads(ns, addr))
    requires AllPackable(ns, addr) && Depth(ns) <= depth && ns != []
    ensures ReadEntries(m, a, |ns|, depth) == Some(AllSeen(ns))
    decreases ns, 0
  {
    hide At, Dirent, Dirents, Payloads, NameBytes, Padded, AllPackable, ReadEntry, ReadEntries, Seen, Depth, NextAddr, Data;
    var n, next := ns[0], NextAddr(ns[0], addr);
    var dataAddr := addr + |NameBytes(n.name)|;
    var contents := Padded(Data(n, dataAddr));
    FirstOf(ns, addr);
    AtSplit(m, a, Dirent(n, addr), Dirents(ns[1..], next));
    AtSplit(m, addr, NameBytes(n.name) + contents, Payloads(ns[1..], next));
    AtSplit(m, addr, NameBytes(n.name), contents);
    DepthOfFirst(ns);
    EntryRead(m, n, a, addr, depth);
    EntriesRead(m, ns[1..], a + DIRENT, next, depth);
    ReadFirst(m, a, |ns|, depth);
  }

  lemma ReadFirst(m: Memory, a: nat, n: nat, depth: nat)
    requires n > 0 && ReadEntry(m, a, depth).Some? && ReadEntries(m, a + DIRENT, n - 1, depth).Some?
    ensures ReadEntries(m, a, n, depth)
            == Some([ReadEntry(m, a, depth).value] + ReadEntries(m, a + DIRENT, n - 1, depth).value)
  {
  }

  /** The bytes of the first node, and those of the others. */
  lemma FirstOf(ns: seq<Node>, addr: nat)
    requires ns != []
    ensures var n, dataAddr, next := ns[0], addr + |NameBytes(ns[0].name)|, NextAddr(ns[0], addr);
      && next == dataAddr + |Padded(Data(n, dataAddr))|
      && |Dirent(n, addr)| == DIRENT
      && Dirents(ns, addr) == Dirent(n, addr) + Dirents(ns[1..], next)
      && Payloads(ns, addr) == NameBytes(n.name) + Padded(Data(n, dataAddr)) + Payloads(ns[1..], next)
      && (AllPackable(ns, addr) <==>
          Packable(n, dataAddr) && dataAddr < LIMIT && EntrySize(n) < LIMIT && AllPackable(ns[1..], next))
  {
  }

  lemma DepthOfFirst(ns: seq<Node>)
    requires ns != []
    ensures Depth([ns[0]]) <= Depth(ns) && Depth(ns[1..]) <= Depth(ns)
  {
    assert [ns[0]][1..] == [];
  }

  /** Placed at its base, the image of a tree reads as that tree, with names ending at their first NUL. */
  lemma ReadersFindTheTree(children: seq<Node>, base: nat, depth: nat)
    requires AllPackable(children, base + 20 + DIRENT * |children|) && base + 20 < LIMIT && |children| < LIMIT
    requires depth > Depth(children)
    ensures ReadEntry(Memory(base, Image(children, base)), base, depth) == Some(DirEntry([0x2F], AllSeen(children)))
  {
    hide Data, Word, Read32, At, Dirents, Payloads, AllPackable, ReadName, ReadEntries, AllSeen, Depth, Image, Encode;
    var m := Memory(base, Image(children, base));
    var at := base + 20 + DIRENT * |children|;
    ImageParts(children, base, m);
    FourWords(m, base, 1, base + 16, base + 20, |children|);
    RootNameAt(m, base + 16);
    DataOfRoot(children, base + 20);
    AtSplit(m, base + 20, Dirents(children, at), Payloads(children, at));
    EntriesRead(m, children, base + 20, at, depth - 1);
  }

  lemma ImageParts(children: seq<Node>, base: nat, m: Memory)
    requires m == Memory(base, Image(children, base))
    ensures At(m, base, Word(1) + Word(base + 16) + Word(base + 20) + Word(|children|))
    ensures At(m, base + 16, [0x2F, 0, 0, 0])
    ensures At(m, base + 20, Data(Folder("", children), base + 20))
  {
    var w := Word(1) + Word(base + 16) + Word(base + 20) + Word(|children|);
    assert |w| == 16;
    ThreeParts(m, w, [0x2F, 0, 0, 0], Data(Folder("", children), base + 20));
  }

  lemma ThreeParts(m: Memory, x: seq<byte>, y: seq<byte>, z: seq<byte>)
    requires m.bytes == x + y + z
    ensures At(m, m.base, x) && At(m, m.base + |x|, y) && At(m, m.base + |x| + |y|, z)
  {
    assert (x + y + z)[..|x|] == x;
    assert (x + y + z)[|x|..|x| + |y|] == y;
    assert (x + y + z)[|x| + |y|..] == z;
  }

  lemma DataOfRoot(children: seq<Node>, base: nat)
    ensures var at := base + DIRENT * |children|;
      Data(Folder("", children), base) == Dirents(children, at) + Payloads(children, at)
  {
  }

  lemma RootNameAt(m: Memory, a: nat)
    requires At(m, a, [0x2F, 0, 0, 0])
    ensures ReadName(m, a) == Some([0x2F])
  {
    var bs := m.bytes[a - m.base..];
    assert bs[..4] == [0x2F, 0, 0, 0];
    assert bs[0] == bs[..4][0] && bs[1] == bs[..4][1];
    assert bs[1..][0] == 0;
    assert UpToNul(bs[1..]) == Some([]);
    assert [bs[0]] + [] == [0x2F];
  }

  // ----- the tree is determined by its image

  predicate NulFree(s: string) {
    forall i :: 0 <= i < |s| ==> s[i] != '\0'
  }

  predicate AllNulFree(ns: seq<Node>)
    decreases ns
  {
    ns == [] ||
    (&& NulFree(ns[0].name)
     && (ns[0].Folder? ==> AllNulFree(ns[0].children))
     && AllNulFree(ns[1..]))
  }

  lemma {:induction false} CutsNothingIffNulFree(s: string)
    ensures CutAtNul(s) == s <==> NulFree(s)
  {
    if s != "" && s[0] != '\0' {
      CutsNothingIffNulFree(s[1..]);
      assert s == [s[0]] + s[1..];
      assert NulFree(s) <==> NulFree(s[1..]) by {
        assert forall i :: 0 < i < |s| ==> s[i] == s[1..][i - 1];
      }
    }
  }

  /** The tree with its names encoded in full. */
  function Named(n: Node): Entry
    decreases n, 0
  {
    match n
    case File(name, data) => FileEntry(Encode(name), data)
    case Folder(name, children) => DirEntry(Encode(name), AllNamed(children))
  }

  function AllNamed(ns: seq<Node>): (es: seq<Entry>)
    ensures |es| == |ns|
    decreases ns
  {
    if ns == [] then [] else [Named(ns[0])] + AllNamed(ns[1..])
  }

  lemma {:induction false} SeenIsNamedIffNulFree(ns: seq<Node>)
    ensures AllSeen(ns) == AllNamed(ns) <==> AllNulFree(ns)
    decreases ns
  {
    if ns != [] {
      var n := ns[0];
      CutsNothingIffNulFree(n.name);
      if Encode(CutAtNul(n.name)) == Encode(n.name) {
        EncodeInjective(CutAtNul(n.name), n.name);
      }
      if n.Folder? {
        SeenIsNamedIffNulFree(n.children);
      }
      SeenIsNamedIffNulFree(ns[1..]);
      assert AllSeen(ns) == [Seen(n)] + AllSeen(ns[1..]) && AllNamed(ns) == [Named(n)] + AllNamed(ns[1..]);
      assert AllSeen(ns) == AllNamed(ns) <==> Seen(n) == Named(n) && AllSeen(ns[1..]) == AllNamed(ns[1..]) by {
        assert AllSeen(ns)[0] == Seen(n) && AllNamed(ns)[0] == Named(n);
        assert AllSeen(ns)[1..] == AllSeen(ns[1..]) && AllNamed(ns)[1..] == AllNamed(ns[1..]);
      }
    }
  }

  /** The round trip is exact if and only if no name contains a NUL. */
  lemma RoundTripIffNulFree(children: seq<Node>, base: nat, depth: nat)
    requires AllPackable(children, base + 20 + DIRENT * |children|) && base + 20 < LIMIT && |children| < LIMIT
    requires depth > Depth(children)
    ensures ReadEntry(Memory(base, Image(children, base)), base, depth) == Some(DirEntry([0x2F], AllNamed(children)))
            <==> AllNulFree(children)
  {
    hide *;
    ReadersFindTheTree(children, base, depth);
    SeenIsNamedIffNulFree(children);
  }

  /** What a reader sees tells trees with NUL-free names apart. */
  lemma {:induction false} SeenInjective(ns: seq<Node>, ns': seq<Node>)
    requires AllNulFree(ns) && AllNulFree(ns') && AllSeen(ns) == AllSeen(ns')
    ensures ns == ns'
    decreases ns
  {
    if ns != [] && ns' != [] {
      var n, n' := ns[0], ns'[0];
      assert Seen(n) == AllSeen(ns)[0] == AllSeen(ns')[0] == Seen(n');
      CutsNothingIffNulFree(n.name);
      CutsNothingIffNulFree(n'.name);
      EncodeInjective(n.name, n'.name);
      if n.Folder? {
        SeenInjective(n.children, n'.children);
      }
      assert AllSeen(ns[1..]) == AllSeen(ns)[1..] == AllSeen(ns')[1..] == AllSeen(ns'[1..]);
      SeenInjective(ns[1..], ns'[1..]);
    } else {
      assert |AllSeen(ns)| == |AllSeen(ns')|;
    }
  }

  lemma ImageDeterminesTree(children: seq<Node>, children': seq<Node>, base: nat)
    requires AllPackable(children, base + 20 + DIRENT * |children|) && |children| < LIMIT && AllNulFree(children)
    requires AllPackable(children', base + 20 + DIRENT * |children'|) && |children'| < LIMIT && AllNulFree(children')
    requires base + 20 < LIMIT && Image(children, base) == Image(children', base)
    ensures children == children'
  {
    var depth := 1 + Depth(children) + Depth(children');
    ReadersFindTheTree(children, base, depth);
    ReadersFindTheTree(children', base, depth);
    SeenInjective(children, children');
  }

  // ----- alignment

  /** The encoded, padded name is a whole number of words. */
  predicate NameIsAligned(name: string) {
    |Encode(name)| % 4 == |name| % 4
  }

  predicate AllNamesAligned(ns: seq<Node>)
    decreases ns
  {
    ns == [] ||
    (&& NameIsAligned(ns[0].name)
     && (ns[0].Folder? ==> AllNamesAligned(ns[0].children))
     && AllNamesAligned(ns[1..]))
  }

  /** All name and data addresses written for nodes whose names and contents start at `addr`. */
  function Addresses(ns: seq<Node>, addr: nat): seq<nat>
    decreases ns
  {
    if ns == [] then []
    else
      var dataAddr := addr + |NameBytes(ns[0].name)|;
      [addr, dataAddr] + Below(ns[0], dataAddr) + Addresses(ns[1..], NextAddr(ns[0], addr))
  }

  function Below(n: Node, dataAddr: nat): seq<nat>
    decreases n
  {
    match n
    case File(_, _) => []
    case Folder(_, children) => Addresses(children, dataAddr + DIRENT * |children|)
  }

  predicate Aligned(addrs: seq<nat>) {
    forall a :: a in addrs ==> a % 4 == 0
  }

  lemma AlignedConcat(x: seq<nat>, y: seq<nat>)
    ensures Aligned(x + y) <==> Aligned(x) && Aligned(y)
  {
    assert forall a :: a in x ==> a in x + y;
    assert forall a :: a in y ==> a in x + y;
  }

  /** From an aligned base, the addresses are all aligned exactly if the names are. */
  lemma {:induction false} AddressesAlignedIff(ns: seq<Node>, addr: nat)
    requires addr % 4 == 0
    ensures Aligned(Addresses(ns, addr)) <==> AllNamesAligned(ns)
    decreases ns
  {
    hide NameBytes, NextAddr, Aligned, Data, Padded, NameIsAligned;
    if ns == [] {
      NoneAligned();
    } else {
      var n := ns[0];
      var dataAddr := addr + |NameBytes(n.name)|;
      var below := Below(n, dataAddr);
      AlignedConcat([addr, dataAddr] + below, Addresses(ns[1..], NextAddr(n, addr)));
      AlignedConcat([addr, dataAddr], below);
      FirstAligned(n, addr);
      if NameIsAligned(n.name) {
        NextAligned(n, addr);
        if n.Folder? {
          AddressesAlignedIff(n.children, dataAddr + DIRENT * |n.children|);
        } else {
          NoneAligned();
        }
        AddressesAlignedIff(ns[1..], NextAddr(n, addr));
      }
    }
  }

  lemma NoneAligned()
    ensures Aligned([])
  {
  }

  lemma FirstAligned(n: Node, addr: nat)
    requires addr % 4 == 0
    ensures Aligned([addr, addr + |NameBytes(n.name)|]) <==> NameIsAligned(n.name)
  {
    var dataAddr := addr + |NameBytes(n.name)|;
    assert |NameBytes(n.name)| == |Encode(n.name)| + 4 - |n.name| % 4;
    assert dataAddr in [addr, dataAddr];
  }

  lemma NextAligned(n: Node, addr: nat)
    requires addr % 4 == 0 && NameIsAligned(n.name)
    ensures (addr + |NameBytes(n.name)|) % 4 == 0 && NextAddr(n, addr) % 4 == 0
  {
    PaddedAligned(Data(n, addr + |NameBytes(n.name)|));
  }

  lemma PaddedAligned(data: seq<byte>)
    ensures |Padded(data)| % 4 == 0
  {
  }

  /** A name is aligned if and only if its encoding has a multiple of four continuation bytes. */
  lemma SameRest(a: nat, c: nat)
    ensures (a + c) % 4 == a % 4 <==> c % 4 == 0
  {
  }

  lemma NameAlignedIff(name: string)
    ensures NameIsAligned(name) <==> (|Encode(name)| - |name|) % 4 == 0
    ensures NameIsAligned(name) <==> ContinuationBytes(name) % 4 == 0
  {
    hide Encode, ContinuationBytes;
    EncodeLength(name);
    SameRest(|name|, ContinuationBytes(name));
  }

  lemma AsciiNamesAreAligned(name: string)
    requires IsAscii(name)
    ensures NameIsAligned(name)
  {
    AsciiHasNone(name);
    NameAlignedIff(name);
  }

  /** A name of one two-byte letter is not aligned, a name of four is. */
  lemma NonAsciiNamesMayMisalign()
    ensures !Aligned(Addresses([File(['\U{00E9}'], [])], 0))
    ensures Aligned(Addresses([File(['\U{00E9}', '\U{00E9}', '\U{00E9}', '\U{00E9}'], [])], 0))
  {
    var c := '\U{00E9}';
    assert [c][1..] == [] && [c, c][1..] == [c] && [c, c, c][1..] == [c, c] && [c, c, c, c][1..] == [c, c, c];
    assert ContinuationBytes([c]) == 1 && ContinuationBytes([c, c]) == 2 && ContinuationBytes([c, c, c, c]) == 4;
    OneFileAligned([c]);
    OneFileAligned([c, c, c, c]);
  }

  lemma OneFileAligned(name: string)
    ensures Aligned(Addresses([File(name, [])], 0)) <==> ContinuationBytes(name) % 4 == 0
  {
    NameAlignedIff(name);
    AddressesAlignedIff([File(name, [])], 0);
  }
}
