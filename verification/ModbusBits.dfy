/** Single bits kept one to a byte: spreading bytes over them and collecting them again. */
module ModbusBits {
  /** The number 1 << i. */
  function Power(i: nat): bv8
    requires i < 8
  {
    if i == 0 then 0x01 else if i == 1 then 0x02 else if i == 2 then 0x04 else if i == 3 then 0x08
    else if i == 4 then 0x10 else if i == 5 then 0x20 else if i == 6 then 0x40 else 0x80
  }

  /** The number (1 << n) - 1. */
  function Below(n: nat): bv8
    requires n <= 8
  {
    if n == 0 then 0x00 else if n == 1 then 0x01 else if n == 2 then 0x03 else if n == 3 then 0x07
    else if n == 4 then 0x0F else if n == 5 then 0x1F else if n == 6 then 0x3F else if n == 7 then 0x7F else 0xFF
  }

  /** The low byte of v << i. */
  function Left(v: bv8, i: nat): bv8 {
    if i == 0 then v else Left(v, i - 1) << 1
  }

  predicate Bit(v: bv8, k: nat)
    requires k < 8
  {
    v & Power(k) != 0
  }

  function Or(u: bv8, v: bv8): bv8 {
    u | v
  }

  function And(u: bv8, v: bv8): bv8 {
    u & v
  }

  // ----- bits of results -----

  lemma OrBit(u: bv8, v: bv8, k: nat)
    requires k < 8
    ensures Bit(Or(u, v), k) <==> Bit(u, k) || Bit(v, k)
  {
  }

  lemma OnceLeftBit(v: bv8, k: nat)
    requires k < 8
    ensures Bit(v << 1, k) <==> k > 0 && Bit(v, k - 1)
  {
  }

  lemma {:induction false} LeftBit(v: bv8, i: nat, k: nat)
    requires k < 8
    ensures Bit(Left(v, i), k) <==> i <= k && Bit(v, k - i)
  {
    hide Bit;
    if i > 0 {
      OnceLeftBit(Left(v, i - 1), k);
      if k > 0 {
        LeftBit(v, i - 1, k - 1);
      }
    }
  }

  lemma BelowBit(v: bv8, n: nat, k: nat)
    requires n <= 8 && k < 8
    ensures Bit(And(v, Below(n)), k) <==> k < n && Bit(v, k)
  {
  }

  lemma ZeroBit(k: nat)
    requires k < 8
    ensures !Bit(0, k) && (Bit(1, k) <==> k == 0)
  {
  }

  lemma SameBits(u: bv8, v: bv8)
    requires forall k | 0 <= k < 8 :: Bit(u, k) == Bit(v, k)
    ensures u == v
  {
    assert Bit(u, 0) == Bit(v, 0) && Bit(u, 1) == Bit(v, 1) && Bit(u, 2) == Bit(v, 2) && Bit(u, 3) == Bit(v, 3);
    assert Bit(u, 4) == Bit(v, 4) && Bit(u, 5) == Bit(v, 5) && Bit(u, 6) == Bit(v, 6) && Bit(u, 7) == Bit(v, 7);
  }

  // ----- spreading -----

  /** Bit number i of a table of bytes, lowest bit of the first byte first. */
  predicate TableBit(bytes: seq<bv8>, i: nat)
    requires i < 8 * |bytes|
  {
    Bit(bytes[i / 8], i % 8)
  }

  function Digit(b: bool): bv8 {
    if b then 1 else 0
  }

  /** The first n bits of a table, one to a byte. */
  function Spread(bytes: seq<bv8>, n: nat): (r: seq<bv8>)
    requires n <= 8 * |bytes|
  {
    seq(n, i requires 0 <= i < n => Digit(TableBit(bytes, i)))
  }

  /** Every bit of a byte, the lowest one first. */
  lemma SpreadIs(v: bv8)
    ensures Spread([v], 8)
            == [v & 1, (v >> 1) & 1, (v >> 2) & 1, (v >> 3) & 1, (v >> 4) & 1, (v >> 5) & 1, (v >> 6) & 1, (v >> 7) & 1]
  {
    hide Spread, Bit, Digit;
    SpreadBits(v);
    DigitIs(v);
  }

  lemma SpreadBits(v: bv8)
    ensures Spread([v], 8)
            == [Digit(Bit(v, 0)), Digit(Bit(v, 1)), Digit(Bit(v, 2)), Digit(Bit(v, 3)),
                Digit(Bit(v, 4)), Digit(Bit(v, 5)), Digit(Bit(v, 6)), Digit(Bit(v, 7))]
  {
    hide Bit, Digit;
    var r := Spread([v], 8);
    forall i | 0 <= i < 8
      ensures r[i] == Digit(Bit(v, i))
    {
      assert TableBit([v], i) == Bit([v][i / 8], i % 8) && i / 8 == 0 && i % 8 == i;
    }
  }

  lemma DigitIs(v: bv8)
    ensures Digit(Bit(v, 0)) == v & 1 && Digit(Bit(v, 1)) == (v >> 1) & 1
    ensures Digit(Bit(v, 2)) == (v >> 2) & 1 && Digit(Bit(v, 3)) == (v >> 3) & 1
    ensures Digit(Bit(v, 4)) == (v >> 4) & 1 && Digit(Bit(v, 5)) == (v >> 5) & 1
    ensures Digit(Bit(v, 6)) == (v >> 6) & 1 && Digit(Bit(v, 7)) == (v >> 7) & 1
  {
  }

  lemma SpreadNothing(bytes: seq<bv8>)
    ensures Spread(bytes, 0) == []
  {
  }

  lemma SpreadOn(bytes: seq<bv8>, n: nat)
    requires n < 8 * |bytes|
    ensures Spread(bytes, n + 1) == Spread(bytes, n) + [Digit(TableBit(bytes, n))]
  {
    hide TableBit;
  }

  /** All eight bits of one byte. */
  method SetBitsFromByte(dest: array<bv8>, index: nat, value: bv8)
    requires index + 8 <= dest.Length
    modifies dest
    ensures dest[..] == old(dest[..index]) + Spread([value], 8) + old(dest[index + 8..])
  {
    hide Bit, Spread;
    ghost var was := dest[..];
    SpreadNothing([value]);
    for i := 0 to 8
      invariant dest[..index + i] == was[..index] + Spread([value], i)
      invariant dest[index + i..] == was[index + i..]
    {
      SpreadOn([value], i);
      dest[index + i] := if BitTest(value, i) then 1 else 0;
      Written(dest[..], index + i);
    }
    Cut(dest[..], index + 8);
  }

  lemma Cut(s: seq<bv8>, i: nat)
    requires i <= |s|
    ensures s == s[..i] + s[i..]
  {
  }

  lemma Written(s: seq<bv8>, i: nat)
    requires i < |s|
    ensures s[..i + 1] == s[..i] + [s[i]] && s[i + 1..] == s[i..][1..]
  {
  }

  predicate BitTest(value: bv8, i: nat)
    requires i < 8
    ensures BitTest(value, i) == Bit(value, i)
  {
    value & Power(i) != 0
  }

  /** The bits of a table from index on, and nothing else. */
  method SetBitsFromBytes(dest: array<bv8>, index: nat, bits: nat, bytes: seq<bv8>)
    requires index + bits <= dest.Length && bits <= 8 * |bytes|
    modifies dest
    ensures dest[..] == old(dest[..index]) + Spread(bytes, bits) + old(dest[index + bits..])
  {
    hide Bit, Spread;
    ghost var was := dest[..];
    SpreadNothing(bytes);
    var shift := 0;
    for i := index to index + bits
      invariant shift == (i - index) % 8
      invariant dest[..i] == was[..index] + Spread(bytes, i - index)
      invariant dest[i..] == was[i..]
    {
      SpreadOn(bytes, i - index);
      dest[i] := if BitTest(bytes[(i - index) / 8], shift) then 1 else 0;
      Written(dest[..], i);
      shift := shift + 1;
      shift := shift % 8;
    }
    Cut(dest[..], index + bits);
  }

  // ----- collecting -----

  /** Every element shifted to its place. */
  function Collect(s: seq<bv8>): bv8 {
    if s == [] then 0 else Or(Collect(s[..|s| - 1]), Left(s[|s| - 1], |s| - 1))
  }

  /** At most eight elements count, whatever number is asked for. */
  method GetByteFromBits(src: array<bv8>, index: nat, bits: nat) returns (value: bv8)
    requires index + Smaller(bits, 8) <= src.Length
    ensures value == Collect(src[index..index + Smaller(bits, 8)])
  {
    hide Or, Left;
    var n := if bits > 8 then 8 else bits;
    value := 0;
    for i := 0 to n
      invariant value == Collect(src[index..index + i])
    {
      assert src[index..index + i + 1][..i] == src[index..index + i];
      value := Or(value, Left(src[index + i], i));
    }
  }

  function Smaller(a: nat, b: nat): nat {
    if a < b then a else b
  }

  /** Elements that are no single bits spill over into the places above their own. */
  lemma {:induction false} CollectBit(s: seq<bv8>, k: nat)
    requires k < 8
    ensures Bit(Collect(s), k) <==> exists i | 0 <= i < |s| && i <= k :: Bit(s[i], k - i)
  {
    hide Bit, Or, Left;
    if s == [] {
      ZeroBit(k);
    } else {
      var n := |s| - 1;
      CollectBit(s[..n], k);
      OrBit(Collect(s[..n]), Left(s[n], n), k);
      LeftBit(s[n], n, k);
      assert forall i | 0 <= i < n :: s[..n][i] == s[i];
    }
  }

  /** What was spread from a table is collected again, byte by byte; from the last byte
      only the bits that were asked for. */
  lemma SpreadThenCollect(bytes: seq<bv8>, n: nat, j: nat)
    requires 8 * j < n <= 8 * |bytes|
    ensures var m := Smaller(n - 8 * j, 8);
            Collect(Spread(bytes, n)[8 * j..8 * j + m]) == And(bytes[j], Below(m))
  {
    hide Bit, Collect, And, Below;
    var m := Smaller(n - 8 * j, 8);
    var s := Spread(bytes, n)[8 * j..8 * j + m];
    forall k | 0 <= k < 8 ensures Bit(Collect(s), k) == Bit(And(bytes[j], Below(m)), k) {
      CollectBit(s, k);
      BelowBit(bytes[j], m, k);
      forall i | 0 <= i < m && i <= k ensures Bit(s[i], k - i) <==> i == k && Bit(bytes[j], k) {
        ZeroBit(k - i);
        assert (8 * j + i) / 8 == j && (8 * j + i) % 8 == i;
        assert s[i] == Digit(TableBit(bytes, 8 * j + i)) == Digit(Bit(bytes[j], i));
      }
      assert k < m ==> (Bit(s[k], k - k) <==> Bit(bytes[j], k));
    }
    SameBits(Collect(s), And(bytes[j], Below(m)));
  }

  /** Up to eight single bits are recovered from the byte they are collected into. */
  lemma CollectThenSpread(s: seq<bv8>)
    requires |s| <= 8
    ensures Spread([Collect(s)], |s|) == s <==> forall i | 0 <= i < |s| :: s[i] == 0 || s[i] == 1
  {
    hide Bit, Collect;
    if forall i | 0 <= i < |s| :: s[i] == 0 || s[i] == 1 {
      forall k | 0 <= k < |s| ensures Spread([Collect(s)], |s|)[k] == s[k] {
        CollectBit(s, k);
        forall i | 0 <= i < |s| && i <= k ensures Bit(s[i], k - i) <==> i == k && s[k] == 1 {
          ZeroBit(k - i);
        }
        assert Bit(s[k], k - k) <==> s[k] == 1;
        assert Bit(Collect(s), k) <==> s[k] == 1;
        assert TableBit([Collect(s)], k) == Bit(Collect(s), k);
      }
    } else {
      var i :| 0 <= i < |s| && s[i] != 0 && s[i] != 1;
      assert Spread([Collect(s)], |s|)[i] != s[i];
    }
  }
}
