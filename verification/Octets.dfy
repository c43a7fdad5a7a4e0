/** Numbers as octets in either byte order, as the writers and readers of every codec
    below put them on the wire. */
module Octets {
  import opened Types

  datatype Endianness = LittleEndian | BigEndian

  function Power(size: nat): (p: nat)
    ensures p >= 1
  {
    if size == 0 then 1 else 0x100 * Power(size - 1)
  }

  /** `n` in `size` octets, least significant first. */
  function Little(n: nat, size: nat): (bs: seq<Octet>)
    ensures |bs| == size
  {
    if size == 0 then [] else [n % 0x100] + Little(n / 0x100, size - 1)
  }

  function LittleValue(bs: seq<Octet>): nat {
    if bs == [] then 0 else bs[0] + 0x100 * LittleValue(bs[1..])
  }

  function Reversed(bs: seq<Octet>): (r: seq<Octet>)
    ensures |r| == |bs|
  {
    if bs == [] then [] else Reversed(bs[1..]) + [bs[0]]
  }

  function Spell(n: nat, size: nat, e: Endianness): (bs: seq<Octet>)
    ensures |bs| == size
  {
    if e == LittleEndian then Little(n, size) else Reversed(Little(n, size))
  }

  function Value(bs: seq<Octet>, e: Endianness): nat {
    LittleValue(if e == LittleEndian then bs else Reversed(bs))
  }

  lemma {:induction false} LittleRoundTrip(n: nat, size: nat)
    requires n < Power(size)
    ensures LittleValue(Little(n, size)) == n
  {
    if size > 0 {
      LittleRoundTrip(n / 0x100, size - 1);
      assert Little(n, size)[1..] == Little(n / 0x100, size - 1);
    }
  }

  lemma {:induction false} ReversedAppend(bs: seq<Octet>, b: Octet)
    ensures Reversed(bs + [b]) == [b] + Reversed(bs)
  {
    if bs == [] {
      assert [b][1..] == [];
    } else {
      ReversedAppend(bs[1..], b);
      assert (bs + [b])[1..] == bs[1..] + [b];
    }
  }

  lemma {:induction false} ReversedTwice(bs: seq<Octet>)
    ensures Reversed(Reversed(bs)) == bs
  {
    if bs != [] {
      ReversedTwice(bs[1..]);
      ReversedAppend(Reversed(bs[1..]), bs[0]);
    }
  }

  /** Reading what was written, in either byte order. */
  lemma SpellRoundTrip(n: nat, size: nat, e: Endianness)
    requires n < Power(size)
    ensures Value(Spell(n, size, e), e) == n
  {
    LittleRoundTrip(n, size);
    ReversedTwice(Little(n, size));
  }

  lemma Regroup(a: seq<Octet>, b: seq<Octet>, c: seq<Octet>)
    ensures a + (b + c) == a + b + c
  {
  }

  // ---- signed numbers ----

  /** The unsigned number with the same octets: two's complement. */
  function Unsigned(n: int, size: nat): int {
    if n < 0 then n + Power(size) else n
  }

  function Signed(raw: nat, size: nat): int {
    if 2 * raw < Power(size) then raw else raw - Power(size)
  }

  lemma SignedRoundTrip(n: int, size: nat)
    requires 0 <= 2 * n + Power(size) && 2 * n < Power(size)
    ensures 0 <= Unsigned(n, size) < Power(size) && Signed(Unsigned(n, size), size) == n
  {
  }

  lemma Powers()
    ensures Power(1) == 0x100 && Power(2) == 0x1_0000 && Power(4) == 0x1_0000_0000
    ensures Power(8) == 0x1_0000_0000_0000_0000
  {
    assert Power(0) == 1;
    assert Power(1) == 0x100;
    assert Power(2) == 0x1_0000;
    assert Power(3) == 0x100_0000;
    assert Power(4) == 0x1_0000_0000;
    assert Power(5) == 0x100_0000_0000;
    assert Power(6) == 0x1_0000_0000_0000;
    assert Power(7) == 0x100_0000_0000_0000;
  }
}
