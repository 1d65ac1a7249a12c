/** Unsigned LEB128 in its shortest form (section 7.6 of DWARF Version 5), as the canonical codec uses it. */
module Varint {
  import opened CoreIr

  datatype Error = Truncated | Overflow | NonMinimal | BadUtf8 | OutOfRange | BadKind | Trailing

  /** What a reader gets from a position: a value and the next position. */
  datatype Parse<+T> = Ok(value: T, next: nat) | Err(error: Error)

  function Encode(v: nat): (s: seq<Byte>)
    ensures |s| >= 1
  {
    if v < 128 then [v] else [v % 128 + 128] + Encode(v / 128)
  }

  /** The bound on what the bytes from the `k`-th on may still add, so that the value stays below 2^64. */
  function Room(k: nat): (r: nat)
    ensures k < 10 ==> r >= 2
    decreases 10 - k
  {
    if k >= 10 then 0 else if k == 9 then 2 else 128 * Room(k + 1)
  }

  lemma RoomIsU64()
    ensures Room(0) == U64
  {
    assert Room(8) == 256 && Room(7) == 32768 && Room(6) == 4194304 && Room(5) == 536870912;
    assert Room(4) == 68719476736 && Room(3) == 8796093022208 && Room(2) == 1125899906842624;
    assert Room(1) == 144115188075855872;
  }

  /** Reading the bytes from the `k`-th on. */
  function DecodeFrom(b: seq<Byte>, pos: nat, k: nat): (r: Parse<nat>)
    decreases |b| - pos
  {
    if pos >= |b| then Err(Truncated) else
    var byte := b[pos];
    if k >= 10 || (k == 9 && byte % 128 > 1) then Err(Overflow)
    else if byte < 128 then (if byte == 0 && k > 0 then Err(NonMinimal) else Ok(byte, pos + 1))
    else match DecodeFrom(b, pos + 1, k + 1)
      case Err(e) => Err(e)
      case Ok(v, next) => Ok(byte - 128 + 128 * v, next)
  }

  function Decode(b: seq<Byte>, pos: nat): Parse<nat> {
    DecodeFrom(b, pos, 0)
  }

  /** `s` stands in `b` at `pos`. */
  predicate Has(b: seq<Byte>, pos: nat, s: seq<Byte>) {
    pos + |s| <= |b| && b[pos..pos + |s|] == s
  }

  lemma HasConcat(b: seq<Byte>, pos: nat, s: seq<Byte>, t: seq<Byte>)
    ensures Has(b, pos, s + t) <==> Has(b, pos, s) && Has(b, pos + |s|, t)
  {
    if pos + |s| + |t| <= |b| {
      assert b[pos..pos + |s + t|] == b[pos..pos + |s|] + b[pos + |s|..pos + |s| + |t|];
      assert (s + t)[..|s|] == s && (s + t)[|s|..] == t;
    }
  }

  lemma {:induction false} EncodedDecodes(b: seq<Byte>, pos: nat, k: nat, v: nat)
    requires Has(b, pos, Encode(v)) && v < Room(k) && (k > 0 ==> v > 0)
    ensures DecodeFrom(b, pos, k) == Ok(v, pos + |Encode(v)|)
    decreases v
  {
    assert b[pos] == b[pos..pos + |Encode(v)|][0] == Encode(v)[0];
    if v >= 128 {
      HasConcat(b, pos, [v % 128 + 128], Encode(v / 128));
      EncodedDecodes(b, pos + 1, k + 1, v / 128);
    }
  }

  /** What is accepted is the shortest encoding of what is read, and it fits in 64 bits. */
  lemma {:induction false} DecodedEncodes(b: seq<Byte>, pos: nat, k: nat)
    requires DecodeFrom(b, pos, k).Ok?
    ensures var Ok(v, next) := DecodeFrom(b, pos, k);
      Has(b, pos, Encode(v)) && next == pos + |Encode(v)| && v < Room(k) && (k > 0 ==> v > 0)
    decreases |b| - pos
  {
    if b[pos] >= 128 {
      DecodedEncodes(b, pos + 1, k + 1);
      var Ok(v, next) := DecodeFrom(b, pos + 1, k + 1);
      var whole := b[pos] - 128 + 128 * v;
      assert whole / 128 == v && whole % 128 == b[pos] - 128;
      assert Encode(whole) == [b[pos]] + Encode(v);
      assert Has(b, pos, [b[pos]]);
      hide Encode, DecodeFrom;
      HasConcat(b, pos, [b[pos]], Encode(v));
    } else {
      assert b[pos..pos + 1] == [b[pos]];
    }
  }

  /** Decoding at `pos` gives `v` exactly when its shortest encoding stands there. */
  lemma DecodesTo(b: seq<Byte>, pos: nat, v: nat, next: nat)
    ensures Decode(b, pos) == Ok(v, next) <==> v < U64 && Has(b, pos, Encode(v)) && next == pos + |Encode(v)|
  {
    RoomIsU64();
    if v < U64 && Has(b, pos, Encode(v)) {
      EncodedDecodes(b, pos, 0, v);
    }
    if Decode(b, pos).Ok? {
      DecodedEncodes(b, pos, 0);
    }
  }

  // ----- the loops -----

  method Write(buf: seq<Byte>, value: nat) returns (out: seq<Byte>)
    ensures out == buf + Encode(value)
  {
    out := buf;
    var v := value;
    while v >= 128
      invariant out + Encode(v) == buf + Encode(value)
    {
      assert Encode(v) == [v % 128 + 128] + Encode(v / 128);
      out := out + [v % 128 + 128];
      v := v / 128;
    }
    out := out + [v];
  }

  /** The accumulated low part and what is still to be read. */
  function Combine(low: nat, weight: nat, r: Parse<nat>): Parse<nat> {
    match r
    case Err(e) => Err(e)
    case Ok(v, next) => Ok(low + weight * v, next)
  }

  lemma CombineStep(low: nat, weight: nat, payload: nat, r: Parse<nat>)
    ensures Combine(low, weight, Combine(payload, 128, r)) == Combine(low + weight * payload, 128 * weight, r)
  {
    if r.Ok? {
      assert weight * (payload + 128 * r.value) == weight * payload + 128 * weight * r.value;
    }
  }

  /** Byte by byte, the way the reader does it: `v` collects the payloads, the next one weighs `weight`. */
  method Read(b: seq<Byte>, start: nat) returns (r: Parse<nat>)
    ensures r == Decode(b, start)
  {
    var pos: nat, v: nat, k: nat := start, 0, 0;
    var weight: nat := 1;
    while true
      invariant Decode(b, start) == Combine(v, weight, DecodeFrom(b, pos, k))
      decreases if pos < |b| then |b| - pos else 0
    {
      if pos >= |b| {
        return Err(Truncated);
      }
      var byte := b[pos];
      if k >= 10 || (k == 9 && byte % 128 > 1) {
        return Err(Overflow);
      }
      if byte < 128 {
        if byte == 0 && k > 0 {
          return Err(NonMinimal);
        }
        return Combine(v, weight, Ok(byte, pos + 1));
      }
      CombineStep(v, weight, byte - 128, DecodeFrom(b, pos + 1, k + 1));
      v := v + weight * (byte - 128);
      pos, k, weight := pos + 1, k + 1, 128 * weight;
    }
  }

  /** The number that seven-bit groups stand for, least significant first. */
  function Weight(s: seq<Byte>): nat {
    if s == [] then 0 else s[0] % 128 + 128 * Weight(s[1..])
  }

  /** LEB128: seven bits a byte, the high bit on all but the last, and no last group of zeros. */
  lemma {:induction false} EncodeIsLeb(v: nat)
    ensures var s := Encode(v);
      && Weight(s) == v && (forall i :: 0 <= i < |s| - 1 ==> s[i] >= 128) && s[|s| - 1] < 128
      && (|s| > 1 ==> s[|s| - 1] > 0)
  {
    var s := Encode(v);
    if v >= 128 {
      EncodeIsLeb(v / 128);
      assert s[1..] == Encode(v / 128);
      assert forall i :: 0 < i < |s| ==> s[i] == s[1..][i - 1];
    } else {
      assert s[1..] == [];
    }
  }

  /** The first `k` bytes at `pos` all announce another one. */
  predicate GoesOn(b: seq<Byte>, pos: nat, k: nat) {
    pos + k <= |b| && forall x :: pos <= x < pos + k ==> b[x] >= 128
  }

  lemma {:induction false} SkipsOn(b: seq<Byte>, pos: nat, i: nat, k: nat)
    requires GoesOn(b, pos, k) && i <= k <= 9 && DecodeFrom(b, pos + k, k).Err?
    ensures DecodeFrom(b, pos + i, i) == DecodeFrom(b, pos + k, k)
    decreases k - i
  {
    if i < k {
      SkipsOn(b, pos, i + 1, k);
    }
  }

  /** Which error: the bytes end too early, the last group is zero, or the tenth byte goes beyond 64 bits. */
  lemma ErrorsMean(b: seq<Byte>, pos: nat, k: nat)
    requires GoesOn(b, pos, k) && k <= 9
    ensures pos + k == |b| ==> Decode(b, pos) == Err(Truncated)
    ensures 0 < k && pos + k < |b| && b[pos + k] == 0 ==> Decode(b, pos) == Err(NonMinimal)
    ensures k == 9 && pos + k < |b| && b[pos + k] % 128 > 1 ==> Decode(b, pos) == Err(Overflow)
  {
    if DecodeFrom(b, pos + k, k).Err? {
      SkipsOn(b, pos, 0, k);
    }
  }
}
