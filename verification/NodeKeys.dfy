/**
 * Keys of trie nodes in the key-value store: partition, trie name, path and version in one byte string.
 */
module NodeKeys {
  import opened Arithmetic

  /** Byte strings; every element that is written below is less than 256. */
  type Bytes = seq<nat>

  const HIST_SPACE: nat := 0

  // ---------- Building blocks ----------

  type U32 = n: nat | n < 0x1_0000_0000

  /** The last `width` bytes of a number, most significant first. */
  function BigEndian(x: nat, width: nat): (r: Bytes)
    ensures |r| == width
  {
    if width == 0 then [] else BigEndian(x / 256, width - 1) + [x % 256]
  }

  predicate Fits(x: nat, width: nat) {
    if width == 0 then x == 0 else Fits(x / 256, width - 1)
  }

  lemma {:induction false} FitsWidth(x: nat)
    ensures x < 0x1_0000_0000 ==> Fits(x, 4)
    ensures x < 0x100_0000 ==> Fits(x, 3)
    ensures x < 0x1_0000 ==> Fits(x, 2)
    ensures x < 0x100 ==> Fits(x, 1)
  {
    var y := x / 256;
    var z := y / 256;
    assert Fits(z / 256 / 256, 0) == (z / 256 / 256 == 0);
    assert Fits(z / 256, 1) == Fits(z / 256 / 256, 0);
    assert Fits(z, 2) == Fits(z / 256, 1);
    assert Fits(z, 1) == Fits(z / 256, 0);
  }

  function Uvarint(x: nat): Bytes {
    if x < 128 then [x] else [x % 128 + 128] + Uvarint(x / 128)
  }

  lemma {:induction false} DigitsInjective(x: nat, y: nat, width: nat)
    requires Fits(x, width) && Fits(y, width) && BigEndian(x, width) == BigEndian(y, width)
    ensures x == y
  {
    if width > 0 {
      var a, b := BigEndian(x, width), BigEndian(y, width);
      assert a[width - 1] == b[width - 1];
      assert a[..width - 1] == BigEndian(x / 256, width - 1) && b[..width - 1] == BigEndian(y / 256, width - 1);
      DigitsInjective(x / 256, y / 256, width - 1);
    }
  }

  lemma {:induction false} BigEndianInjective(x: nat, y: nat, width: nat, r: Bytes, s: Bytes)
    requires Fits(x, width) && Fits(y, width) && BigEndian(x, width) + r == BigEndian(y, width) + s
    ensures x == y && r == s
  {
    var a, b := BigEndian(x, width), BigEndian(y, width);
    assert a == (a + r)[..width] && b == (b + s)[..width];
    assert r == (a + r)[width..] && s == (b + s)[width..];
    DigitsInjective(x, y, width);
  }

  /** A varint tells where it ends. */
  lemma {:induction false} UvarintInjective(x: nat, y: nat, r: Bytes, s: Bytes)
    requires Uvarint(x) + r == Uvarint(y) + s
    ensures x == y && r == s
  {
    FirstOfUvarint(x, r);
    FirstOfUvarint(y, s);
    if x >= 128 {
      UvarintInjective(x / 128, y / 128, r, s);
      SameDigits(x, y);
    }
  }

  /** The first byte, and what follows it. */
  lemma {:induction false} FirstOfUvarint(x: nat, r: Bytes)
    ensures var u := Uvarint(x) + r;
            u != [] && u[0] == (if x < 128 then x else x % 128 + 128) && u[1..] == if x < 128 then r else Uvarint(x / 128) + r
  {
    if x < 128 {
      assert Uvarint(x) == [x];
    } else {
      assert Uvarint(x) == [x % 128 + 128] + Uvarint(x / 128);
      Join([x % 128 + 128], Uvarint(x / 128), r);
    }
  }

  lemma {:induction false} SameDigits(x: nat, y: nat)
    requires x / 128 == y / 128 && x % 128 == y % 128
    ensures x == y
  {
  }

  /** The number that bytes stand for, most significant first. */
  ghost function BigEndianValue(b: Bytes): nat {
    if b == [] then 0 else 256 * BigEndianValue(b[..|b| - 1]) + b[|b| - 1]
  }

  /** Reads a number back, in bytes. */
  lemma {:induction false} BigEndianReads(x: nat, width: nat)
    requires Fits(x, width)
    ensures BigEndianValue(BigEndian(x, width)) == x
    ensures forall i :: 0 <= i < width ==> BigEndian(x, width)[i] < 256
  {
    if width > 0 {
      BigEndianReads(x / 256, width - 1);
      assert BigEndian(x, width)[..width - 1] == BigEndian(x / 256, width - 1);
    }
  }

  /** The value of the varint that bytes begin with: it goes on after a byte from 128 on. */
  ghost function UvarintValue(b: Bytes): nat {
    if b == [] then 0
    else if b[0] < 128 then b[0]
    else b[0] - 128 + 128 * UvarintValue(b[1..])
  }

  /** Reads a varint back, whatever follows it; it is in bytes, goes on to its last byte, and is as short as possible. */
  lemma {:induction false} UvarintReads(x: nat, r: Bytes)
    ensures UvarintValue(Uvarint(x) + r) == x
    ensures var u := Uvarint(x);
            && u != [] && u[|u| - 1] < 128 && (|u| > 1 ==> u[|u| - 1] > 0)
            && forall i :: 0 <= i < |u| - 1 ==> 128 <= u[i] < 256
  {
    FirstOfUvarint(x, r);
    if x >= 128 {
      UvarintReads(x / 128, r);
    }
  }

  // ---------- Paths ----------

  /** Nibbles. */
  type Path = seq<nat>

  predicate IsPath(path: Path) {
    forall i :: 0 <= i < |path| ==> path[i] < 16
  }

  function NodePath(path: Path): Bytes {
    if |path| == 0 then [0, 0]
    else if |path| == 1 then [path[0], 1]
    else if |path| == 2 then [path[0], path[1] * 16 + 2]
    else [path[0] + 16, path[1] * 16 + 2] + NodePath(path[2..])
  }

  /** A path tells where it ends. */
  lemma {:induction false} NodePathInjective(p: Path, q: Path, r: Bytes, s: Bytes)
    requires IsPath(p) && IsPath(q) && NodePath(p) + r == NodePath(q) + s
    ensures p == q && r == s
    decreases |p|
  {
    var u, v := NodePath(p) + r, NodePath(q) + s;
    assert u[0] == v[0] && u[1] == v[1];
    if |p| <= 2 {
      assert u[2..] == r && v[2..] == s;
    } else {
      assert |q| > 2;
      assert u[2..] == NodePath(p[2..]) + r && v[2..] == NodePath(q[2..]) + s;
      NodePathInjective(p[2..], q[2..], r, s);
      assert p == [p[0], p[1]] + p[2..] && q == [q[0], q[1]] + q[2..];
    }
  }

  /** The path that bytes begin with: pairs of nibbles, with a mark on all but the last, which tells how many it holds. */
  ghost function PathValue(b: Bytes): Path {
    if |b| < 2 then []
    else if b[0] >= 16 then [b[0] - 16, b[1] / 16] + PathValue(b[2..])
    else [b[0], b[1] / 16][..if b[1] % 16 < 2 then b[1] % 16 else 2]
  }

  /** Reads a path back, whatever follows it. */
  lemma {:induction false} NodePathReads(p: Path, r: Bytes)
    requires IsPath(p)
    ensures PathValue(NodePath(p) + r) == p
    ensures forall i :: 0 <= i < |NodePath(p)| ==> NodePath(p)[i] < 256
    decreases |p|
  {
    if |p| > 2 {
      NodePathReads(p[2..], r);
      assert (NodePath(p) + r)[2..] == NodePath(p[2..]) + r;
      assert p == [p[0], p[1]] + p[2..];
    }
  }

  // ---------- Names ----------

  datatype Version = Version(major: U32, minor: U32)

  /** The tries there are: the index of blocks, the accounts, and the storage of an account under its id. */
  datatype Name = Index | Accounts | Storage(created: Version, count: nat)

  /** The id of a storage trie: where it was created, and a counter. */
  function IdBytes(v: Version, count: nat): Bytes {
    BigEndian(v.major, 4) + Uvarint(v.minor) + Uvarint(count)
  }

  lemma {:induction false} IdInjective(v: Version, m: nat, w: Version, n: nat, r: Bytes, s: Bytes)
    requires IdBytes(v, m) + r == IdBytes(w, n) + s
    ensures v == w && m == n && r == s
  {
    assert IdBytes(v, m) + r == BigEndian(v.major, 4) + (Uvarint(v.minor) + (Uvarint(m) + r));
    assert IdBytes(w, n) + s == BigEndian(w.major, 4) + (Uvarint(w.minor) + (Uvarint(n) + s));
    FitsWidth(v.major);
    FitsWidth(w.major);
    BigEndianInjective(v.major, w.major, 4, Uvarint(v.minor) + (Uvarint(m) + r), Uvarint(w.minor) + (Uvarint(n) + s));
    UvarintInjective(v.minor, w.minor, Uvarint(m) + r, Uvarint(n) + s);
    UvarintInjective(m, n, r, s);
  }

  /** The first letter of a name tells the kind of trie. */
  function Letter(name: Name): nat {
    match name
    case Index => 0x69
    case Accounts => 0x61
    case Storage(_, _) => 0x73
  }

  function NameBytes(name: Name): Bytes {
    [Letter(name)] + if name.Storage? then IdBytes(name.created, name.count) else []
  }

  lemma {:induction false} Tail(x: nat, u: Bytes, r: Bytes)
    ensures ([x] + u + r)[0] == x && ([x] + u + r)[1..] == u + r
  {
  }

  lemma {:induction false} NameInjective(m: Name, n: Name, r: Bytes, s: Bytes)
    requires NameBytes(m) + r == NameBytes(n) + s
    ensures m == n && r == s
  {
    var u := if m.Storage? then IdBytes(m.created, m.count) else [];
    var v := if n.Storage? then IdBytes(n.created, n.count) else [];
    Tail(Letter(m), u, r);
    Tail(Letter(n), v, s);
    if m.Storage? && n.Storage? {
      IdInjective(m.created, m.count, n.created, n.count, r, s);
    } else {
      assert [] + r == r && [] + s == s;
    }
  }

  // ---------- Keys of history nodes ----------

  /** How many bytes the version within a partition takes. */
  function ModWidth(factor: U32): nat {
    if factor > 0x100_0000 then 4 else if factor > 0x1_0000 then 3 else if factor > 0x100 then 2 else if factor > 1 then 1 else 0
  }

  ghost function Power(n: nat): nat {
    if n == 0 then 1 else 256 * Power(n - 1)
  }

  /** It takes the least bytes in which all versions within a partition can be told apart. */
  lemma {:induction false} ModWidthIsLeast(factor: U32)
    requires factor > 0
    ensures var n := ModWidth(factor); factor <= Power(n) && (n > 0 ==> Power(n - 1) < factor)
  {
    assert Power(0) == 1 && Power(1) == 0x100;
    assert Power(2) == 256 * Power(1) && Power(3) == 256 * Power(2) && Power(4) == 256 * Power(3);
  }

  function Partition(factor: U32, major: U32): Bytes
    requires factor > 0
  {
    if factor != 0xffff_ffff then BigEndian(major / factor, 4) else []
  }

  function MinorBytes(minor: U32): Bytes {
    if minor != 0 then Uvarint(minor) else []
  }

  function HistNodeKey(factor: U32, name: Name, path: Path, v: Version): Bytes
    requires factor > 0
  {
    var version := BigEndian(v.major % factor, ModWidth(factor)) + MinorBytes(v.minor);
    [HIST_SPACE] + (Partition(factor, v.major) + (NameBytes(name) + (NodePath(path) + version)))
  }

  /** Composes the key by successive appends. */
  method AppendHistNodeKey(buf: Bytes, factor: U32, name: Name, path: Path, v: Version) returns (r: Bytes)
    requires factor > 0
    ensures r == buf + HistNodeKey(factor, name, path, v)
  {
    QuotientFits(factor, v.major);
    ghost var minor := MinorBytes(v.minor);
    ghost var major := BigEndian(v.major % factor, ModWidth(factor));
    r := buf + [HIST_SPACE];
    Join(buf, [HIST_SPACE], Partition(factor, v.major) + (NameBytes(name) + (NodePath(path) + (major + minor))));
    Join(r, Partition(factor, v.major), NameBytes(name) + (NodePath(path) + (major + minor)));
    if factor != 0xffff_ffff {
      r := r + BigEndian(v.major / factor, 4);
    } else {
      assert r + [] == r;
    }
    Join(r, NameBytes(name), NodePath(path) + (major + minor));
    r := r + NameBytes(name);
    Join(r, NodePath(path), major + minor);
    r := r + NodePath(path);
    Join(r, major, minor);
    r := r + BigEndian(v.major % factor, ModWidth(factor));
    if v.minor != 0 {
      r := r + Uvarint(v.minor);
    } else {
      assert r + [] == r;
    }
  }

  lemma {:induction false} Join(a: Bytes, b: Bytes, c: Bytes)
    ensures (a + b) + c == a + (b + c)
  {
  }

  lemma {:induction false} ModFits(factor: U32, major: U32)
    requires factor > 0
    ensures major % factor < factor && Fits(major % factor, ModWidth(factor))
  {
    FitsWidth(major % factor);
  }

  lemma {:induction false} PartitionInjective(factor: U32, a: U32, b: U32, r: Bytes, s: Bytes)
    requires factor > 0 && Partition(factor, a) + r == Partition(factor, b) + s
    ensures r == s && (factor != 0xffff_ffff ==> a / factor == b / factor)
  {
    if factor == 0xffff_ffff {
      assert [] + r == r && [] + s == s;
    } else {
      QuotientFits(factor, a);
      QuotientFits(factor, b);
      BigEndianInjective(a / factor, b / factor, 4, r, s);
    }
  }

  lemma {:induction false} QuotientFits(factor: U32, a: U32)
    requires factor > 0
    ensures 0 <= a / factor <= a && Fits(a / factor, 4)
  {
    QuotientAtMost(a, factor);
    FitsWidth(a / factor);
  }

  lemma {:induction false} QuotientAtMost(a: nat, d: nat)
    requires d > 0
    ensures a / d <= a
  {
    AtLeastOnce(a / d, d);
  }

  lemma {:induction false} AtLeastOnce(x: nat, d: nat)
    requires d > 0
    ensures x <= x * d
  {
    assert x * d == x + x * (d - 1);
  }

  lemma {:induction false} MinorInjective(a: U32, b: U32)
    requires MinorBytes(a) == MinorBytes(b)
    ensures a == b
  {
    if a != 0 && b != 0 {
      assert Uvarint(a) + [] == Uvarint(a) && Uvarint(b) + [] == Uvarint(b);
      UvarintInjective(a, b, [], []);
    }
  }

  /** Two versions that share partition and position within it are one, except the two that a single partition of all confuses. */
  predicate Confused(factor: U32, a: U32, b: U32) {
    factor == 0xffff_ffff && ((a == 0 && b == 0xffff_ffff) || (a == 0xffff_ffff && b == 0))
  }

  lemma {:induction false} MajorRecovered(factor: U32, a: U32, b: U32)
    requires factor > 0 && a % factor == b % factor && (factor != 0xffff_ffff ==> a / factor == b / factor)
    ensures a == b || Confused(factor, a, b)
  {
    if factor != 0xffff_ffff {
      assert a == a / factor * factor + a % factor;
      assert b == b / factor * factor + b % factor;
    }
  }

  /**
   * Keys of history nodes are the same only for the same trie, path and version, for every partition factor;
   * only if there is one partition for all do the first and the very last major version collide, and they do.
   */
  lemma {:induction false} HistKeyInjective(factor: U32, m: Name, p: Path, v: Version, n: Name, q: Path, w: Version)
    requires factor > 0 && IsPath(p) && IsPath(q)
    ensures HistNodeKey(factor, m, p, v) == HistNodeKey(factor, n, q, w)
       <==> m == n && p == q && v.minor == w.minor && (v.major == w.major || Confused(factor, v.major, w.major))
  {
    if HistNodeKey(factor, m, p, v) == HistNodeKey(factor, n, q, w) {
      HistKeyParts(factor, m, p, v, n, q, w);
    }
  }

  lemma {:induction false} HistKeyParts(factor: U32, m: Name, p: Path, v: Version, n: Name, q: Path, w: Version)
    requires factor > 0 && IsPath(p) && IsPath(q)
    requires HistNodeKey(factor, m, p, v) == HistNodeKey(factor, n, q, w)
    ensures m == n && p == q && v.minor == w.minor && (v.major == w.major || Confused(factor, v.major, w.major))
  {
    var width := ModWidth(factor);
    var mod1, mod2 := v.major % factor, w.major % factor;
    var a3, b3 := BigEndian(mod1, width) + MinorBytes(v.minor), BigEndian(mod2, width) + MinorBytes(w.minor);
    var a2, b2 := NodePath(p) + a3, NodePath(q) + b3;
    var a1, b1 := NameBytes(m) + a2, NameBytes(n) + b2;
    var a0, b0 := Partition(factor, v.major) + a1, Partition(factor, w.major) + b1;
    assert ([HIST_SPACE] + a0)[1..] == a0 && ([HIST_SPACE] + b0)[1..] == b0;
    PartitionInjective(factor, v.major, w.major, a1, b1);
    NameInjective(m, n, a2, b2);
    NodePathInjective(p, q, a3, b3);
    ModFits(factor, v.major);
    ModFits(factor, w.major);
    BigEndianInjective(mod1, mod2, width, MinorBytes(v.minor), MinorBytes(w.minor));
    MinorInjective(v.minor, w.minor);
    MajorRecovered(factor, v.major, w.major);
  }

  /** The bytes that each kind of trie begins its names with are the letters of index, accounts and storage. */
  lemma {:induction false} NamesBegin(name: Name, r: Bytes)
    ensures (NameBytes(name) + r)[0] == (match name case Index => 'i' case Accounts => 'a' case Storage(_, _) => 's') as nat
  {
    Tail(Letter(name), if name.Storage? then IdBytes(name.created, name.count) else [], r);
  }

  // ---------- Order of keys and deleting history ----------

  /** The order of keys in the store. */
  predicate Less(a: Bytes, b: Bytes) {
    b != [] && (a == [] || a[0] < b[0] || (a[0] == b[0] && Less(a[1..], b[1..])))
  }

  /** What follows the first bytes does not matter to a comparison with that many bytes. */
  lemma {:induction false} LessIgnoresRest(a: Bytes, b: Bytes, r: Bytes)
    requires |a| == |b|
    ensures Less(a + r, b) <==> Less(a, b)
  {
    if a != [] {
      assert (a + r)[0] == a[0] && (a + r)[1..] == a[1..] + r;
      LessIgnoresRest(a[1..], b[1..], r);
    }
  }

  lemma {:induction false} LessLast(a: Bytes, b: Bytes, x: nat, y: nat)
    requires |a| == |b|
    ensures Less(a + [x], b + [y]) <==> Less(a, b) || (a == b && x < y)
  {
    if a != [] {
      assert (a + [x])[0] == a[0] && (a + [x])[1..] == a[1..] + [x];
      assert (b + [y])[0] == b[0] && (b + [y])[1..] == b[1..] + [y];
      LessLast(a[1..], b[1..], x, y);
      assert a == [a[0]] + a[1..] && b == [b[0]] + b[1..];
    }
  }

  /** Big-endian numbers are ordered as numbers. */
  lemma {:induction false} BigEndianOrdered(x: nat, y: nat, width: nat)
    requires Fits(x, width) && Fits(y, width)
    ensures Less(BigEndian(x, width), BigEndian(y, width)) <==> x < y
  {
    if width > 0 {
      LessLast(BigEndian(x / 256, width - 1), BigEndian(y / 256, width - 1), x % 256, y % 256);
      BigEndianOrdered(x / 256, y / 256, width - 1);
      if BigEndian(x / 256, width - 1) == BigEndian(y / 256, width - 1) {
        DigitsInjective(x / 256, y / 256, width - 1);
      }
    }
  }

  lemma {:induction false} LessRest(a: Bytes, b: Bytes, r: Bytes, s: Bytes)
    requires |a| == |b| && a != b
    ensures Less(a + r, b + s) <==> Less(a, b)
  {
    if a[0] == b[0] {
      assert a == [a[0]] + a[1..] && b == [b[0]] + b[1..];
      LessRest(a[1..], b[1..], r, s);
    }
    assert (a + r)[1..] == a[1..] + r && (b + s)[1..] == b[1..] + s;
  }

  lemma {:induction false} LessPrefix(p: Bytes, a: Bytes, b: Bytes)
    ensures Less(p + a, p + b) <==> Less(a, b)
  {
    if p == [] {
      assert p + a == a && p + b == b;
    } else {
      assert (p + a)[1..] == p[1..] + a && (p + b)[1..] == p[1..] + b;
      LessPrefix(p[1..], a, b);
    }
  }

  /** Numbers that differ decide the order, whatever follows them. */
  lemma {:induction false} LessByNumber(x: nat, y: nat, width: nat, r: Bytes, s: Bytes)
    requires Fits(x, width) && Fits(y, width) && x != y
    ensures Less(BigEndian(x, width) + r, BigEndian(y, width) + s) <==> x < y
  {
    BigEndianOrdered(x, y, width);
    if BigEndian(x, width) == BigEndian(y, width) {
      DigitsInjective(x, y, width);
    }
    LessRest(BigEndian(x, width), BigEndian(y, width), r, s);
  }

  lemma {:induction false} QuotientsOrdered(factor: nat, a: nat, b: nat)
    requires factor > 0
    ensures a / factor < b / factor ==> a < b
    ensures a / factor == b / factor ==> (a < b <==> a % factor < b % factor)
  {
    MulGap(a / factor, b / factor, factor);
    assert a == a / factor * factor + a % factor && b == b / factor * factor + b % factor;
  }

  /**
   * The keys of a node are in the order of its major versions, and so partitions are in order too; if there is one partition
   * for all, the very last version counts as the first.
   */
  lemma {:induction false} HistKeysOrdered(factor: U32, name: Name, path: Path, v: Version, w: Version)
    requires factor > 0 && v.major != w.major && !Confused(factor, v.major, w.major)
    ensures Less(HistNodeKey(factor, name, path, v), HistNodeKey(factor, name, path, w)) <==>
              if factor == 0xffff_ffff then v.major % 0xffff_ffff < w.major % 0xffff_ffff else v.major < w.major
  {
    var a, b := HistRest(factor, name, path, v), HistRest(factor, name, path, w);
    PartitionedOrdered(factor, name, path, v, w);
    LessPrefix([HIST_SPACE], Partition(factor, v.major) + a, Partition(factor, w.major) + b);
  }

  lemma {:induction false} PartitionedOrdered(factor: U32, name: Name, path: Path, v: Version, w: Version)
    requires factor > 0 && v.major != w.major && !Confused(factor, v.major, w.major)
    ensures Less(Partition(factor, v.major) + HistRest(factor, name, path, v), Partition(factor, w.major) + HistRest(factor, name, path, w)) <==>
              if factor == 0xffff_ffff then v.major % 0xffff_ffff < w.major % 0xffff_ffff else v.major < w.major
  {
    var a, b := HistRest(factor, name, path, v), HistRest(factor, name, path, w);
    if factor == 0xffff_ffff {
      assert [] + a == a && [] + b == b;
      RestOrdered(factor, name, path, v, w);
    } else {
      LessByPartition(factor, v.major, w.major, a, b);
      if v.major / factor == w.major / factor {
        QuotientsOrdered(factor, v.major, w.major);
        QuotientsOrdered(factor, w.major, v.major);
        RestOrdered(factor, name, path, v, w);
      }
    }
  }

  /** Partitions that differ decide the order as the versions do. */
  lemma {:induction false} LessByPartition(factor: U32, a: U32, b: U32, r: Bytes, s: Bytes)
    requires 0 < factor != 0xffff_ffff
    ensures Less(Partition(factor, a) + r, Partition(factor, b) + s) <==> if a / factor == b / factor then Less(r, s) else a < b
  {
    if a / factor == b / factor {
      LessPrefix(Partition(factor, a), r, s);
    } else {
      QuotientFits(factor, a);
      QuotientFits(factor, b);
      QuotientsOrdered(factor, a, b);
      QuotientsOrdered(factor, b, a);
      LessByNumber(a / factor, b / factor, 4, r, s);
    }
  }

  /** What follows the partition in a key. */
  ghost function HistRest(factor: U32, name: Name, path: Path, v: Version): Bytes
    requires factor > 0
  {
    NameBytes(name) + (NodePath(path) + (BigEndian(v.major % factor, ModWidth(factor)) + MinorBytes(v.minor)))
  }

  lemma {:induction false} RestOrdered(factor: U32, name: Name, path: Path, v: Version, w: Version)
    requires factor > 0 && v.major % factor != w.major % factor
    ensures Less(HistRest(factor, name, path, v), HistRest(factor, name, path, w)) <==> v.major % factor < w.major % factor
  {
    var width := ModWidth(factor);
    var a, b := BigEndian(v.major % factor, width) + MinorBytes(v.minor), BigEndian(w.major % factor, width) + MinorBytes(w.minor);
    LessPrefix(NameBytes(name), NodePath(path) + a, NodePath(path) + b);
    LessPrefix(NodePath(path), a, b);
    ModFits(factor, v.major);
    ModFits(factor, w.major);
    LessByNumber(v.major % factor, w.major % factor, width, MinorBytes(v.minor), MinorBytes(w.minor));
  }

  function Bound(partition: nat): Bytes {
    [HIST_SPACE] + BigEndian(partition, 4)
  }

  /** The keys from the first partition up to, but not including, the second. */
  predicate InRange(key: Bytes, first: nat, limit: nat) {
    !Less(key, Bound(first)) && Less(key, Bound(limit))
  }

  lemma {:induction false} LessBound(partition: nat, rest: Bytes, bound: nat)
    requires Fits(partition, 4) && Fits(bound, 4)
    ensures Less([HIST_SPACE] + (BigEndian(partition, 4) + rest), Bound(bound)) <==> partition < bound
  {
    Join([HIST_SPACE], BigEndian(partition, 4), rest);
    LessIgnoresRest(Bound(partition), Bound(bound), rest);
    assert Bound(partition)[1..] == BigEndian(partition, 4) && Bound(bound)[1..] == BigEndian(bound, 4);
    BigEndianOrdered(partition, bound, 4);
  }

  function PartitionOf(factor: U32, major: U32): U32
    requires factor > 0
  {
    QuotientFits(factor, major);
    major / factor
  }

  /** A key of a history node is in the range exactly if its partition is. */
  lemma {:induction false} RangeIsPartitions(factor: U32, name: Name, path: Path, v: Version, start: U32, limit: U32)
    requires 0 < factor != 0xffff_ffff
    ensures InRange(HistNodeKey(factor, name, path, v), PartitionOf(factor, start), PartitionOf(factor, limit))
       <==> PartitionOf(factor, start) <= PartitionOf(factor, v.major) < PartitionOf(factor, limit)
  {
    QuotientFits(factor, v.major);
    QuotientFits(factor, start);
    QuotientFits(factor, limit);
    var rest := NameBytes(name) + (NodePath(path) + (BigEndian(v.major % factor, ModWidth(factor)) + MinorBytes(v.minor)));
    LessBound(v.major / factor, rest, start / factor);
    LessBound(v.major / factor, rest, limit / factor);
  }

  /** Keys of other spaces are never in the range. */
  lemma {:induction false} OtherSpacesKept(key: Bytes, first: nat, limit: nat)
    requires key == [] || key[0] != 0
    ensures !InRange(key, first, limit)
  {
    assert Bound(first)[0] == Bound(limit)[0] == HIST_SPACE;
  }

  /** If there is one partition for all, no history node is in the range, whatever versions are asked for. */
  lemma {:induction false} SinglePartitionKept(name: Name, path: Path, v: Version, start: U32, limit: U32)
    ensures !InRange(HistNodeKey(0xffff_ffff, name, path, v), PartitionOf(0xffff_ffff, start), PartitionOf(0xffff_ffff, limit))
  {
    var rest := NodePath(path) + (BigEndian(v.major % 0xffff_ffff, 4) + MinorBytes(v.minor));
    var key := HistNodeKey(0xffff_ffff, name, path, v);
    assert key == [HIST_SPACE] + ([] + (NameBytes(name) + rest));
    assert key[0] == HIST_SPACE && key[1] == Letter(name);
    var l := PartitionOf(0xffff_ffff, limit);
    assert l <= 1;
    FirstByteZero(l);
    assert Bound(l)[1] == BigEndian(l, 4)[0] == 0;
    assert key[1..][0] == key[1] && Bound(l)[1..][0] == Bound(l)[1];
    assert !Less(key[1..], Bound(l)[1..]);
  }

  lemma {:induction false} FirstByteZero(x: nat)
    requires x <= 1
    ensures BigEndian(x, 4)[0] == 0
  {
    assert x / 256 == 0;
    assert BigEndian(0, 3)[0] == BigEndian(0, 2)[0] == BigEndian(0, 1)[0] == 0;
  }

  class Backend<V> {
    const factor: U32
    var store: map<Bytes, V>

    constructor (factor: U32, store: map<Bytes, V>)
      requires factor > 0
      ensures this.factor == factor && this.store == store
    {
      this.factor, this.store := factor, store;
    }

    /**
     * Deletes the history nodes whose partition is between those of two versions, and nothing else; none if there is
     * one partition for all.
     */
    method DeleteHistoryNodes(start: U32, limit: U32)
      requires factor > 0
      modifies this
      ensures store.Keys <= old(store).Keys && forall key :: key in store ==> store[key] == old(store)[key]
      ensures forall name, path, v :: HistNodeKey(factor, name, path, v) in old(store) ==>
                (HistNodeKey(factor, name, path, v) !in store <==>
                 factor != 0xffff_ffff && PartitionOf(factor, start) <= PartitionOf(factor, v.major) < PartitionOf(factor, limit))
      ensures forall key :: key in old(store) && (key == [] || key[0] != 0) ==> key in store
    {
      var first, last := PartitionOf(factor, start), PartitionOf(factor, limit);
      forall name, path, v
        ensures InRange(HistNodeKey(factor, name, path, v), first, last) <==>
                  factor != 0xffff_ffff && first <= PartitionOf(factor, v.major) < last
      {
        HistoryInRange(factor, name, path, v, start, limit);
      }
      forall key | key in store && (key == [] || key[0] != 0) ensures !InRange(key, first, last) {
        OtherSpacesKept(key, first, last);
      }
      store := map key | key in store && !InRange(key, first, last) :: store[key];
    }
  }

  lemma {:induction false} HistoryInRange(factor: U32, name: Name, path: Path, v: Version, start: U32, limit: U32)
    requires 0 < factor
    ensures InRange(HistNodeKey(factor, name, path, v), PartitionOf(factor, start), PartitionOf(factor, limit))
       <==> factor != 0xffff_ffff && PartitionOf(factor, start) <= PartitionOf(factor, v.major) < PartitionOf(factor, limit)
  {
    if factor == 0xffff_ffff {
      SinglePartitionKept(name, path, v, start, limit);
    } else {
      RangeIsPartitions(factor, name, path, v, start, limit);
    }
  }
}
