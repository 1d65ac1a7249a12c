/** Content-defined chunking: a streaming chunker that equals cutting the whole remaining file again and again. */
module Chunk {
  import opened CoreIr

  type Bytes = seq<Byte>

  /** Sizes, how a byte rolls into the fingerprint, and the two tests for a boundary. */
  datatype Settings = Settings(
    min: nat, avg: nat, max: nat, roll: (nat, Byte) -> nat, strict: nat -> bool, loose: nat -> bool)

  type Params = p: Settings | 1 <= p.min < p.max
    witness Settings(1, 64, 2, (fp: nat, b: Byte) => fp, (fp: nat) => false, (fp: nat) => false)

  function Pow2(n: nat): (r: nat)
    ensures r > 0
  {
    if n == 0 then 1 else 2 * Pow2(n - 1)
  }

  /** The gear hash: shift left by one, and add the byte's entry of the table, in 64 bits. */
  function GearRoll(gear: Byte -> nat): (nat, Byte) -> nat {
    (fp: nat, b: Byte) => (2 * fp + gear(b)) % U64
  }

  /** No bit of the mask is set in the fingerprint. */
  function MaskTest(mask: set<nat>): nat -> bool {
    (fp: nat) => NoneSet(fp, mask)
  }

  predicate NoneSet(fp: nat, mask: set<nat>) {
    forall bit :: bit in mask ==> Bit(fp, bit) == 0
  }

  function Bit(fp: nat, bit: nat): nat {
    fp / Pow2(bit) % 2
  }

  const DEFAULT_AVG := 1024 * 1024
  const MIN_AVG := 64

  function Or(x: Option<nat>, d: nat): nat {
    if x.Some? && x.value > 0 then x.value else d
  }

  function Max(x: nat, y: nat): nat {
    if x < y then y else x
  }

  function Min(x: nat, y: nat): nat {
    if x < y then x else y
  }

  // ----- where the first chunk ends -----

  /** The rolling fingerprint after byte `i`; bytes before the minimum do not count. */
  function Fingerprint(p: Params, data: Bytes, i: nat): nat
    requires i < |data|
    decreases i
  {
    p.roll(if i <= p.min then 0 else Fingerprint(p, data, i - 1), data[i])
  }

  /** Before the average size the stricter test applies, from there on the looser one. */
  function TestAt(p: Params, i: nat): nat -> bool {
    if i < p.avg then p.strict else p.loose
  }

  /** The content asks for a cut in front of byte `i`. */
  predicate Boundary(p: Params, data: Bytes, i: nat)
    requires i < |data|
  {
    TestAt(p, i)(Fingerprint(p, data, i))
  }

  /** The first boundary from `i` on, or `n`. */
  function FirstBoundary(p: Params, data: Bytes, i: nat, n: nat): (c: nat)
    requires i <= n <= |data|
    ensures i <= c <= n
    ensures forall j :: i <= j < c ==> !Boundary(p, data, j)
    ensures c < n ==> Boundary(p, data, c)
    decreases n - i
  {
    if i == n || Boundary(p, data, i) then i else FirstBoundary(p, data, i + 1, n)
  }

  /** The length of the first chunk. */
  function Cut(p: Params, data: Bytes): (c: nat)
    ensures c <= |data| && c <= p.max
    ensures |data| > 0 ==> c > 0
    ensures |data| > p.min ==> c >= p.min
  {
    if |data| <= p.min then |data| else FirstBoundary(p, data, p.min, Min(|data|, p.max))
  }

  // ----- the same, by the fingerprints themselves -----

  function Before(fps: seq<nat>, k: nat): nat
    requires k <= |fps|
  {
    if k == 0 then 0 else fps[k - 1]
  }

  /** `fps` are the fingerprints from the minimum on, each rolled from the one before. */
  predicate Rolls(p: Params, data: Bytes, fps: seq<nat>) {
    && p.min + |fps| <= |data|
    && forall k :: 0 <= k < |fps| ==> fps[k] == p.roll(Before(fps, k), data[p.min + k])
  }

  /** The test for a cut in front of byte `i`: the strict one before the average size, the loose one from there on. */
  predicate Fires(p: Params, i: nat, fp: nat) {
    if i < p.avg then p.strict(fp) else p.loose(fp)
  }

  /** With these fingerprints the cut is `c`: none fires before it, and it fires or is the maximum or the end. */
  predicate FirstFiring(p: Params, data: Bytes, fps: seq<nat>, c: nat) {
    && p.min <= c <= p.min + |fps| && Rolls(p, data, fps)
    && p.min + |fps| == Min(|data|, p.max)
    && (forall k :: 0 <= k < c - p.min ==> !Fires(p, p.min + k, fps[k]))
    && (c < p.min + |fps| ==> Fires(p, c, fps[c - p.min]))
  }

  /** All of a file up to the minimum is one chunk; a longer one is cut where its fingerprints first fire. */
  ghost predicate FirstCut(p: Params, data: Bytes, c: nat) {
    if |data| <= p.min then c == |data|
    else exists fps :: FirstFiring(p, data, fps, c)
  }

  /** The fingerprints from the minimum on, before byte `n`. */
  function Fingerprints(p: Params, data: Bytes, n: nat): (fps: seq<nat>)
    requires p.min <= n <= |data|
    ensures |fps| == n - p.min && forall k :: 0 <= k < |fps| ==> fps[k] == Fingerprint(p, data, p.min + k)
    ensures Rolls(p, data, fps)
  {
    if n == p.min then [] else Fingerprints(p, data, n - 1) + [Fingerprint(p, data, n - 1)]
  }

  lemma CutFires(p: Params, data: Bytes)
    ensures FirstCut(p, data, Cut(p, data))
  {
    if |data| > p.min {
      var fps := Fingerprints(p, data, Min(|data|, p.max));
      forall k | 0 <= k < |fps|
        ensures Fires(p, p.min + k, fps[k]) <==> Boundary(p, data, p.min + k)
      {
      }
      assert FirstFiring(p, data, fps, Cut(p, data));
    }
  }

  lemma {:induction false} OneRolling(p: Params, data: Bytes, a: seq<nat>, c: seq<nat>, k: nat)
    requires Rolls(p, data, a) && Rolls(p, data, c) && k < |a| && k < |c|
    ensures a[k] == c[k]
  {
    if k > 0 {
      OneRolling(p, data, a, c, k - 1);
    }
    assert a[k] == p.roll(Before(a, k), data[p.min + k]) && c[k] == p.roll(Before(c, k), data[p.min + k]);
  }

  /** The fingerprints leave no choice. */
  lemma OneFirstCut(p: Params, data: Bytes, x: nat, y: nat)
    requires FirstCut(p, data, x) && FirstCut(p, data, y)
    ensures x == y
  {
    if |data| > p.min {
      var a :| FirstFiring(p, data, a, x);
      var c :| FirstFiring(p, data, c, y);
      forall k | 0 <= k < |a| && k < |c|
        ensures a[k] == c[k]
      {
        OneRolling(p, data, a, c, k);
      }
    }
  }

  /** The fingerprint of the bytes before byte `i`. */
  function Rolled(p: Params, data: Bytes, i: nat): nat
    requires i <= |data|
  {
    if i <= p.min then 0 else Fingerprint(p, data, i - 1)
  }

  lemma RollsOn(p: Params, data: Bytes, i: nat, n: nat, fp: nat)
    requires p.min <= i < n <= |data| && fp == p.roll(Rolled(p, data, i), data[i])
    ensures fp == Rolled(p, data, i + 1)
    ensures (if i < p.avg then p.strict(fp) else p.loose(fp)) ==> FirstBoundary(p, data, i, n) == i
    ensures !(if i < p.avg then p.strict(fp) else p.loose(fp)) ==>
      FirstBoundary(p, data, i, n) == FirstBoundary(p, data, i + 1, n)
  {
  }

  lemma CutStarts(p: Params, data: Bytes)
    ensures FirstCut(p, data, Cut(p, data))
    ensures |data| <= p.min ==> Cut(p, data) == |data|
    ensures |data| > p.min ==> Rolled(p, data, p.min) == 0
    ensures |data| > p.min ==>
      Cut(p, data) == FirstBoundary(p, data, p.min, if |data| > p.max then p.max else |data|)
  {
    CutFires(p, data);
    hide FirstCut;
  }

  method FastCdcCut(data: Bytes, p: Params) returns (cut: nat)
    ensures cut == Cut(p, data) && FirstCut(p, data, cut)
  {
    hide *;
    CutStarts(p, data);
    var len := |data|;
    if len <= p.min {
      return len;
    }
    var n := len;
    if n > p.max {
      n := p.max;
    }
    var normal := p.avg;
    if normal > n {
      normal := n;
    }
    var fp: nat := 0;
    var i := p.min;
    while i < normal
      invariant p.min <= i <= n && (i <= p.min || i <= normal)
      invariant fp == Rolled(p, data, i)
      invariant Cut(p, data) == FirstBoundary(p, data, i, n)
    {
      fp := p.roll(fp, data[i]);
      RollsOn(p, data, i, n, fp);
      if p.strict(fp) {
        return i;
      }
      i := i + 1;
    }
    while i < n
      invariant p.min <= i <= n && normal <= i
      invariant fp == Rolled(p, data, i)
      invariant Cut(p, data) == FirstBoundary(p, data, i, n)
    {
      fp := p.roll(fp, data[i]);
      RollsOn(p, data, i, n, fp);
      if p.loose(fp) {
        return i;
      }
      i := i + 1;
    }
    return n;
  }

  // ----- a cut looks at no more than it must -----

  predicate Agree(a: Bytes, c: Bytes, n: nat) {
    n <= |a| && n <= |c| && forall i :: 0 <= i < n ==> a[i] == c[i]
  }

  lemma {:induction false} FingerprintLocal(p: Params, a: Bytes, c: Bytes, i: nat)
    requires Agree(a, c, i + 1)
    ensures Fingerprint(p, a, i) == Fingerprint(p, c, i)
    decreases i
  {
    if i > p.min {
      FingerprintLocal(p, a, c, i - 1);
    }
  }

  lemma {:induction false} FirstBoundaryLocal(p: Params, a: Bytes, c: Bytes, i: nat, n: nat)
    requires i <= n && Agree(a, c, n)
    ensures FirstBoundary(p, a, i, n) == FirstBoundary(p, c, i, n)
    decreases n - i
  {
    if i < n {
      FingerprintLocal(p, a, c, i);
      FirstBoundaryLocal(p, a, c, i + 1, n);
    }
  }

  /** A window of at least the maximum cuts like the whole file. */
  lemma CutLocal(p: Params, window: Bytes, rest: Bytes)
    requires |window| >= p.max || rest == []
    ensures Cut(p, window + rest) == Cut(p, window)
  {
    var whole := window + rest;
    if rest == [] {
      assert whole == window;
    } else {
      FirstBoundaryLocal(p, whole, window, p.min, p.max);
    }
  }

  /** A cut found by content is found again wherever the bytes up to it are the same. */
  lemma CutByPrefix(p: Params, a: Bytes, c: Bytes)
    requires var n := Cut(p, a);
      |a| > p.min && n < |a| && n < p.max && Agree(a, c, n + 1)
    ensures Cut(p, c) == Cut(p, a)
  {
    var n := Cut(p, a);
    SameFirst(p, a, c, p.min, Min(|a|, p.max), Min(|c|, p.max));
  }

  lemma {:induction false} SameFirst(p: Params, a: Bytes, c: Bytes, i: nat, n: nat, m: nat)
    requires i <= n <= |a| && i <= m <= |c|
    requires var f := FirstBoundary(p, a, i, n); f < n && f < m && Agree(a, c, f + 1)
    ensures FirstBoundary(p, c, i, m) == FirstBoundary(p, a, i, n)
    decreases n - i
  {
    var f := FirstBoundary(p, a, i, n);
    FingerprintLocal(p, a, c, i);
    if !Boundary(p, a, i) {
      SameFirst(p, a, c, i + 1, n, m);
    }
  }

  // ----- all the chunks -----

  /** The chunks of a file: cut, and cut the rest. */
  function Chunks(p: Params, file: Bytes): seq<Bytes>
    decreases |file|
  {
    if file == [] then [] else [file[..Cut(p, file)]] + Chunks(p, file[Cut(p, file)..])
  }

  function Joined(chunks: seq<Bytes>): Bytes {
    if chunks == [] then [] else chunks[0] + Joined(chunks[1..])
  }

  /**
   * The chunks tile the file; each is at most the maximum, none is empty, all but the last are at least the minimum.
   */
  lemma {:induction false} ChunksTile(p: Params, file: Bytes)
    ensures var cs := Chunks(p, file);
      && Joined(cs) == file
      && (forall i :: 0 <= i < |cs| ==> 0 < |cs[i]| <= p.max)
      && (forall i :: 0 <= i < |cs| - 1 ==> p.min <= |cs[i]|)
    decreases |file|
  {
    if file != [] {
      var c := Cut(p, file);
      var rest := Chunks(p, file[c..]);
      ChunksTile(p, file[c..]);
      var cs := [file[..c]] + rest;
      assert cs[1..] == rest && file == file[..c] + file[c..];
      forall i | 0 <= i < |cs| - 1
        ensures p.min <= |cs[i]|
      {
        if i == 0 {
          assert file[c..] != [];
        } else {
          assert cs[i] == rest[i - 1];
        }
      }
    }
  }

  /** The file from its `k`-th boundary on. */
  function After(p: Params, file: Bytes, k: nat): Bytes
    requires k <= |Chunks(p, file)|
    decreases k
  {
    if k == 0 then file else After(p, file[Cut(p, file)..], k - 1)
  }

  /** The chunks behind a boundary depend on the bytes behind it and on nothing else. */
  lemma {:induction false} ChunksBehind(p: Params, file: Bytes, k: nat)
    requires k <= |Chunks(p, file)|
    ensures Chunks(p, file)[k..] == Chunks(p, After(p, file, k))
    decreases k
  {
    if k > 0 {
      ChunksBehind(p, file[Cut(p, file)..], k - 1);
      var rest := Chunks(p, file[Cut(p, file)..]);
      assert ([file[..Cut(p, file)]] + rest)[k..] == rest[k - 1..];
    }
  }

  /** How many bytes the first `k` chunks take. */
  function Taken(p: Params, file: Bytes, k: nat): nat
    requires k <= |Chunks(p, file)|
    decreases k
  {
    if k == 0 then 0 else Cut(p, file) + Taken(p, file[Cut(p, file)..], k - 1)
  }

  lemma SameWindow(p: Params, a: Bytes, c: Bytes)
    requires Agree(a, c, p.max)
    ensures Cut(p, a) == Cut(p, c)
  {
    FirstBoundaryLocal(p, a, c, p.min, p.max);
  }

  /**
   * An unchanged region keeps its chunks: where two files agree on `n` bytes from a boundary on, whatever follows, they
   * have the same chunks as long as each starts at least a maximum before the end of the region.
   */
  lemma {:induction false} UnchangedRegion(p: Params, a: Bytes, c: Bytes, n: nat, k: nat)
    requires Agree(a, c, n) && k < |Chunks(p, a)| && Taken(p, a, k) + p.max <= n
    ensures k < |Chunks(p, c)| && Chunks(p, a)[..k + 1] == Chunks(p, c)[..k + 1]
    decreases k
  {
    SameWindow(p, a, c);
    var cut := Cut(p, a);
    AgreeBehind(a, c, n, cut);
    if k > 0 {
      UnchangedRegion(p, a[cut..], c[cut..], n - cut, k - 1);
      ConsPrefix(a[..cut], Chunks(p, a[cut..]), k);
      ConsPrefix(c[..cut], Chunks(p, c[cut..]), k);
    }
  }

  lemma AgreeBehind(a: Bytes, c: Bytes, n: nat, cut: nat)
    requires Agree(a, c, n) && cut <= n
    ensures a[..cut] == c[..cut] && Agree(a[cut..], c[cut..], n - cut)
  {
  }

  lemma ConsPrefix(head: Bytes, rest: seq<Bytes>, k: nat)
    requires k <= |rest|
    ensures ([head] + rest)[..k + 1] == [head] + rest[..k]
  {
  }

  // ----- the streaming chunker -----

  datatype Line = Line(offset: nat, len: nat, addr: string)

  /** The manifest of chunks that start at `offset`. */
  function Manifest(addr: Bytes -> string, chunks: seq<Bytes>, offset: nat): seq<Line> {
    if chunks == [] then []
    else [Line(offset, |chunks[0]|, addr(chunks[0]))] + Manifest(addr, chunks[1..], offset + |chunks[0]|)
  }

  /** A read gives some of the unread bytes, as few as it likes; none only at the end of the file. */
  method ReadSome(unread: Bytes, limit: nat) returns (k: nat)
    requires limit >= 1
    ensures k <= |unread| && k <= limit
    ensures k == 0 <==> unread == []
  {
    if unread == [] {
      return 0;
    }
    k :| 1 <= k <= limit && k <= |unread|;
  }

  const READ := 65536

  /** Fill the window up to the maximum or to the end of the file. */
  method Fill(p: Params, held: Bytes, pending: Bytes, ended: bool) returns (buf: Bytes, unread: Bytes, eof: bool)
    requires ended ==> pending == []
    ensures buf + unread == held + pending
    ensures eof ==> unread == []
    ensures |buf| >= p.max || eof
  {
    buf, unread, eof := held, pending, ended;
    while !eof && |buf| < p.max
      invariant buf + unread == held + pending
      invariant eof ==> unread == []
      decreases |unread|, !eof
    {
      var k := ReadSome(unread, READ);
      if k == 0 {
        eof := true;
      } else {
        assert buf + unread == buf + unread[..k] + unread[k..];
        buf, unread := buf + unread[..k], unread[k..];
      }
    }
  }

  lemma ManifestStep(p: Params, addr: Bytes -> string, rest: Bytes, offset: nat)
    requires rest != []
    ensures var c := Cut(p, rest);
      Manifest(addr, Chunks(p, rest), offset) ==
      [Line(offset, c, addr(rest[..c]))] + Manifest(addr, Chunks(p, rest[c..]), offset + c)
  {
    var c := Cut(p, rest);
    var tail := Chunks(p, rest[c..]);
    var chunks := [rest[..c]] + tail;
    assert Chunks(p, rest) == chunks && chunks[0] == rest[..c] && chunks[1..] == tail;
    hide Cut, Chunks;
    assert Manifest(addr, chunks, offset) == [Line(offset, c, addr(rest[..c]))] + Manifest(addr, tail, offset + c);
  }

  /** The lines for the rest of the file, which starts at `abs`. */
  function LinesFrom(p: Params, addr: Bytes -> string, rest: Bytes, abs: nat): seq<Line> {
    Manifest(addr, Chunks(p, rest), abs)
  }

  /** The window gives the next line of the rest of the file, and what is left of it is the next window. */
  lemma NextLine(p: Params, addr: Bytes -> string, buf: Bytes, unread: Bytes, abs: nat)
    requires buf != [] && (|buf| >= p.max || unread == [])
    ensures var c := Cut(p, buf);
      LinesFrom(p, addr, buf + unread, abs) ==
      [Line(abs, c, addr(buf[..c]))] + LinesFrom(p, addr, buf[c..] + unread, abs + c)
  {
    var c, whole := Cut(p, buf), buf + unread;
    assert Cut(p, whole) == c by {
      CutLocal(p, buf, unread);
    }
    SplitWindow(buf, unread, c);
    ManifestStep(p, addr, whole, abs);
  }

  lemma SplitWindow(buf: Bytes, unread: Bytes, c: nat)
    requires c <= |buf|
    ensures (buf + unread)[..c] == buf[..c] && (buf + unread)[c..] == buf[c..] + unread
  {
  }

  lemma LineMoves(out: seq<Line>, line: Line, rest: seq<Line>)
    ensures out + ([line] + rest) == out + [line] + rest
  {
  }

  /** Cut one chunk off the window. */
  method CutChunk(p: Params, addr: Bytes -> string, buf: Bytes, ghost unread: Bytes, abs: nat)
      returns (line: Line, left: Bytes)
    requires buf != [] && (|buf| >= p.max || unread == [])
    ensures LinesFrom(p, addr, buf + unread, abs) == [line] + LinesFrom(p, addr, left + unread, abs + line.len)
    ensures |left| < |buf|
  {
    var cut := FastCdcCut(buf, p);
    NextLine(p, addr, buf, unread, abs);
    line, left := Line(abs, cut, addr(buf[..cut])), buf[cut..];
  }

  /**
   * The lines cover the file without gap or overlap from its start to its end, each is cut where the fingerprints of
   * what is left first fire, and carries the address of its own bytes.
   */
  ghost predicate Lists(p: Params, addr: Bytes -> string, rest: Bytes, abs: nat, lines: seq<Line>)
    decreases |lines|
  {
    if lines == [] then rest == []
    else
      var Line(offset, len, at) := lines[0];
      && offset == abs && 0 < len <= |rest| && FirstCut(p, rest, len) && at == addr(rest[..len])
      && Lists(p, addr, rest[len..], abs + len, lines[1..])
  }

  lemma {:induction false} ManifestLists(p: Params, addr: Bytes -> string, rest: Bytes, abs: nat)
    ensures Lists(p, addr, rest, abs, Manifest(addr, Chunks(p, rest), abs))
    decreases |rest|
  {
    hide FirstCut, Lists;
    if rest != [] {
      var c := Cut(p, rest);
      ManifestStep(p, addr, rest, abs);
      CutFires(p, rest);
      ManifestLists(p, addr, rest[c..], abs + c);
      ListsOn(p, addr, rest, abs, c, Manifest(addr, Chunks(p, rest[c..]), abs + c));
    } else {
      NothingListed(p, addr, abs);
    }
  }

  lemma NothingListed(p: Params, addr: Bytes -> string, abs: nat)
    ensures Lists(p, addr, [], abs, Manifest(addr, Chunks(p, []), abs))
  {
  }

  lemma ListsOn(p: Params, addr: Bytes -> string, rest: Bytes, abs: nat, c: nat, tail: seq<Line>)
    requires 0 < c <= |rest| && FirstCut(p, rest, c) && Lists(p, addr, rest[c..], abs + c, tail)
    ensures Lists(p, addr, rest, abs, [Line(abs, c, addr(rest[..c]))] + tail)
  {
    hide FirstCut;
    assert ([Line(abs, c, addr(rest[..c]))] + tail)[1..] == tail;
  }

  /** However the reads are split, the manifest is that of the recursive chunks of the whole file. */
  method ChunkReader(p: Params, addr: Bytes -> string, file: Bytes) returns (out: seq<Line>)
    ensures out == Manifest(addr, Chunks(p, file), 0) && Lists(p, addr, file, 0, out)
  {
    ManifestLists(p, addr, file, 0);
    out := [];
    var buf: Bytes, unread, abs: nat, eof := [], file, 0, false;
    ghost var all := LinesFrom(p, addr, file, 0);
    assert buf + unread == file;
    while true
      invariant eof ==> unread == []
      invariant out + LinesFrom(p, addr, buf + unread, abs) == all
      decreases |buf| + |unread|
    {
      buf, unread, eof := Fill(p, buf, unread, eof);
      if buf == [] {
        return;
      }
      var line, left := CutChunk(p, addr, buf, unread, abs);
      LineMoves(out, line, LinesFrom(p, addr, left + unread, abs + line.len));
      out := out + [line];
      abs, buf := abs + line.len, left;
    }
  }

  // ----- masks -----

  /** Where the `k`-th of `bits` one-bits goes. */
  function Position(k: nat, bits: nat): nat
    requires bits > 0
  {
    1 + k * 61 / bits
  }

  lemma DivMonotone(x: nat, y: nat, d: nat)
    requires x + d <= y && d > 0
    ensures x / d < y / d
  {
    var a, c := x / d, y / d;
    assert x == d * a + x % d && y == d * c + y % d;
    assert c <= a ==> d * c <= d * a;
  }

  lemma DivBelow(x: nat, q: nat, d: nat)
    requires x < q * d && d > 0
    ensures x / d < q
  {
    var a := x / d;
    assert x == d * a + x % d;
    assert a >= q ==> d * a >= d * q;
  }

  lemma PositionsSpread(j: nat, k: nat, bits: nat)
    requires j < k < bits <= 60
    ensures Position(j, bits) < Position(k, bits) <= 61
  {
    DivMonotone(j * 61, k * 61, bits);
    DivBelow(k * 61, 61, bits);
  }

  /** `bits.clamp(1, 60)`. */
  function Clamp(bits: nat): nat {
    Max(1, Min(bits, 60))
  }

  /** The first `k` of `n` one-bits. */
  function FirstBits(n: nat, k: nat): set<nat>
    requires n > 0
  {
    if k == 0 then {} else FirstBits(n, k - 1) + {Position(k - 1, n)}
  }

  function MaskBits(bits: nat): set<nat> {
    FirstBits(Clamp(bits), Clamp(bits))
  }

  /** All different, never bit 0, none above 61. */
  lemma {:induction false} FirstBitsSpread(n: nat, k: nat)
    requires 0 < n <= 60 && k <= n
    ensures |FirstBits(n, k)| == k
    ensures forall b :: b in FirstBits(n, k) ==> 1 <= b <= 61
    ensures forall b :: b in FirstBits(n, k) && k < n ==> b < Position(k, n)
  {
    if k > 0 {
      FirstBitsSpread(n, k - 1);
      DivBelow((k - 1) * 61, 61, n);
      if k < n {
        PositionsSpread(k - 1, k, n);
      }
    }
  }

  /** The `k`-th of `n` one-bits is bit 1 + k * 61 / n. */
  lemma {:induction false} FirstBitsAre(n: nat, k: nat, bit: nat)
    requires n > 0
    ensures bit in FirstBits(n, k) <==> exists j: nat :: j < k && bit == Position(j, n)
  {
    if k > 0 {
      FirstBitsAre(n, k - 1, bit);
    }
  }

  /** The one-bits of a mask, spread over 61 places: these, and there are as many as asked for. */
  lemma MaskHas(bits: nat, j: nat)
    requires j < Clamp(bits)
    ensures 1 + j * 61 / Clamp(bits) in MaskBits(bits)
  {
    FirstBitsAre(Clamp(bits), Clamp(bits), Position(j, Clamp(bits)));
  }

  /** As many one-bits as asked for, clamped to 1..60. */
  lemma MaskCount(bits: nat)
    ensures |MaskBits(bits)| == Clamp(bits) && forall b :: b in MaskBits(bits) ==> 1 <= b <= 61
  {
    FirstBitsSpread(Clamp(bits), Clamp(bits));
  }

  method SpreadMask(bits: nat) returns (mask: set<nat>)
    ensures mask == MaskBits(bits) && |mask| == Clamp(bits)
  {
    var n := Clamp(bits);
    mask := {};
    for k := 0 to n
      invariant mask == FirstBits(n, k)
    {
      mask := mask + {1 + k * 61 / n};
    }
    MaskCount(bits);
  }

  // ----- settings -----

  function FloorLog2(n: nat): (r: nat)
    requires n >= 1
    ensures Pow2(r) <= n < Pow2(r + 1)
  {
    if n < 2 then 0 else 1 + FloorLog2(n / 2)
  }

  function StrictBits(avg: nat): nat
    requires avg >= 1
  {
    FloorLog2(avg) + 2
  }

  function LooseBits(avg: nat): nat
    requires avg >= 1
  {
    Max(if FloorLog2(avg) < 2 then 0 else FloorLog2(avg) - 2, 1)
  }

  /**
   * Whatever the environment asks for, a chunk may be one byte long and the largest is longer than the smallest; the
   * masks are the spread masks of the average size.
   */
  function Configured(avg: Option<nat>, min: Option<nat>, max: Option<nat>, gear: Byte -> nat): (p: Params)
    ensures p.avg >= MIN_AVG
    ensures min.None? && max.None? ==> p.min <= p.avg <= p.max && p.max == 4 * p.avg
  {
    var a := Max(Or(avg, DEFAULT_AVG), MIN_AVG);
    var lo := Max(Or(min, a / 4), 1);
    Settings(lo, a, Max(Or(max, a * 4), lo + 1), GearRoll(gear),
             MaskTest(MaskBits(StrictBits(a))), MaskTest(MaskBits(LooseBits(a))))
  }

  /**
   * The settings roll with the gear hash in 64 bits. With 2^b the power of two at or below the average size, the strict
   * test is for b + 2 zero bits, the loose one for b - 2, but at least one.
   */
  lemma ConfiguredTests(avg: Option<nat>, min: Option<nat>, max: Option<nat>, gear: Byte -> nat, b: nat, fp: nat,
                        x: Byte)
    requires var p := Configured(avg, min, max, gear); Pow2(b) <= p.avg < Pow2(b + 1)
    ensures var p := Configured(avg, min, max, gear);
      && p.roll(fp, x) == (2 * fp + gear(x)) % 0x1_0000_0000_0000_0000
      && (p.strict(fp) <==> NoneSet(fp, MaskBits(b + 2)))
      && (p.loose(fp) <==> NoneSet(fp, MaskBits(if b > 3 then b - 2 else 1)))
  {
    hide MaskBits, NoneSet, Pow2, FloorLog2;
    var p := Configured(avg, min, max, gear);
    OneLog2(p.avg, b, FloorLog2(p.avg));
  }

  lemma {:induction false} Pow2Grows(a: nat, b: nat)
    requires a <= b
    ensures Pow2(a) <= Pow2(b)
  {
    if a < b {
      Pow2Grows(a, b - 1);
    }
  }

  lemma OneLog2(n: nat, a: nat, b: nat)
    requires Pow2(a) <= n < Pow2(a + 1) && Pow2(b) <= n < Pow2(b + 1)
    ensures a == b
  {
    if a < b {
      Pow2Grows(a + 1, b);
    } else if b < a {
      Pow2Grows(b + 1, a);
    }
  }

  /** Before the average size the mask has more one-bits than after it, up to the clamp. */
  lemma StricterFirst(avg: nat)
    requires avg >= MIN_AVG
    ensures |MaskBits(StrictBits(avg))| >= |MaskBits(LooseBits(avg))|
    ensures LooseBits(avg) < 60 ==> |MaskBits(StrictBits(avg))| > |MaskBits(LooseBits(avg))|
  {
    MaskCount(StrictBits(avg));
    MaskCount(LooseBits(avg));
  }
}
