/** SequenceNumberSet and SequenceNumber (src/message/submessage/element.rs:36-180): a
    base, a number of bits and a bitmap of 32-bit words, section 9.4.2.6 of RTPS 2.3. */
module SequenceNumberSets {
  import opened Types
  import opened Ascending
  import opened Octets

  const WORD_BITS: nat := 32
  const WORD_LIMIT: nat := 0x1_0000_0000

  datatype NumberSet = NumberSet(base: int, numBits: nat, bitmap: seq<nat>)

  // ---- words and their bits, the most significant first ----

  function Bits(w: nat, n: nat): (bs: seq<bool>)
    ensures |bs| == n
  {
    if n == 0 then [] else Bits(w / 2, n - 1) + [w % 2 == 1]
  }

  function FromBits(bs: seq<bool>): nat {
    if bs == [] then 0
    else 2 * FromBits(bs[..|bs| - 1]) + if bs[|bs| - 1] then 1 else 0
  }

  lemma {:induction false} BitsRoundTrip(bs: seq<bool>)
    ensures Bits(FromBits(bs), |bs|) == bs
  {
    if bs != [] {
      BitsRoundTrip(bs[..|bs| - 1]);
    }
  }

  function Pow2(n: nat): (p: nat)
    ensures p >= 1
  {
    if n == 0 then 1 else 2 * Pow2(n - 1)
  }

  lemma {:induction false} FromBitsFits(bs: seq<bool>)
    ensures FromBits(bs) < Pow2(|bs|)
  {
    if bs != [] {
      FromBitsFits(bs[..|bs| - 1]);
    }
  }

  lemma WordFits(bs: seq<bool>)
    requires |bs| == WORD_BITS
    ensures FromBits(bs) < WORD_LIMIT
  {
    FromBitsFits(bs);
    assert Pow2(4) == 16 && Pow2(8) == 256 && Pow2(12) == 4096 && Pow2(16) == 65536;
    assert Pow2(20) == 0x10_0000 && Pow2(24) == 0x100_0000 && Pow2(28) == 0x1000_0000 && Pow2(32) == WORD_LIMIT;
  }

  /** w & (1 << (31 - k)) is not zero. */
  predicate TestBit(w: nat, k: nat)
    requires k < WORD_BITS
  {
    Bits(w, WORD_BITS)[k]
  }

  /** w | (1 << (31 - k)) */
  function WithBit(w: nat, k: nat): nat
    requires k < WORD_BITS
  {
    FromBits(Bits(w, WORD_BITS)[k := true])
  }

  lemma WithBitTests(w: nat, k: nat, j: nat)
    requires k < WORD_BITS && j < WORD_BITS
    ensures TestBit(WithBit(w, k), j) <==> j == k || TestBit(w, j)
    ensures WithBit(w, k) < WORD_LIMIT
  {
    var bs := Bits(w, WORD_BITS)[k := true];
    BitsRoundTrip(bs);
    WordFits(bs);
  }

  lemma {:induction false} NoBits(n: nat, k: nat)
    requires k < n
    ensures !Bits(0, n)[k]
  {
    if k < n - 1 {
      NoBits(n - 1, k);
    }
  }

  // ---- building a set ----

  function Words(numBits: nat): nat {
    (numBits + WORD_BITS - 1) / WORD_BITS
  }

  /** Vec::resize with 0, which also cuts a longer vector. */
  function Resized(words: seq<nat>, len: nat): (r: seq<nat>)
    ensures |r| == len
  {
    if len <= |words| then words[..len] else words + seq(len - |words|, _ => 0)
  }

  function WithNumber(s: NumberSet, n: int): NumberSet
    requires s.base <= n
  {
    var offset := n - s.base;
    var line := offset / WORD_BITS;
    var words := Resized(s.bitmap, line + 1);
    NumberSet(s.base,
              if s.numBits < offset + 1 then offset + 1 else s.numBits,
              words[line := WithBit(words[line], offset % WORD_BITS)])
  }

  predicate AllFrom(base: int, nums: seq<int>) {
    forall i :: 0 <= i < |nums| ==> base <= nums[i]
  }

  function FromList(base: int, nums: seq<int>): NumberSet
    requires AllFrom(base, nums)
    ensures FromList(base, nums).base == base
    decreases |nums|
  {
    if nums == [] then NumberSet(base, 0, [])
    else WithNumber(FromList(base, nums[..|nums| - 1]), nums[|nums| - 1])
  }

  lemma NoNumbers(base: int)
    ensures FromList(base, []) == NumberSet(base, 0, [])
  {
  }

  lemma FromListMore(base: int, nums: seq<int>, i: nat)
    requires AllFrom(base, nums) && i < |nums|
    ensures FromList(base, nums[..i + 1]) == WithNumber(FromList(base, nums[..i]), nums[i])
  {
    assert nums[..i + 1][..i] == nums[..i];
  }

  /** SequenceNumberSet::from_vec. A number below the base would overflow a shift. */
  method FromVec(base: int, nums: seq<int>) returns (s: NumberSet)
    requires AllFrom(base, nums)
    ensures s == FromList(base, nums)
  {
    hide WithBit, FromList;
    assert FromList(base, []) == NumberSet(base, 0, []) by {
      NoNumbers(base);
    }
    var numBits: nat, bitmap: seq<nat> := 0, [];
    var i := 0;
    while i < |nums|
      invariant i <= |nums| && NumberSet(base, numBits, bitmap) == FromList(base, nums[..i])
    {
      FromListMore(base, nums, i);
      var offset := nums[i] - base;
      var line := offset / WORD_BITS;
      var words := Resized(bitmap, line + 1);
      words := words[line := WithBit(words[line], offset % WORD_BITS)];
      assert NumberSet(base, if numBits < offset + 1 then offset + 1 else numBits, words)
          == WithNumber(NumberSet(base, numBits, bitmap), nums[i]);
      numBits, bitmap := if numBits < offset + 1 then offset + 1 else numBits, words;
      i := i + 1;
    }
    assert nums[..i] == nums;
    s := NumberSet(base, numBits, bitmap);
  }

  // ---- reading a set ----

  /** As many words as the bits need: what reading a set off the wire establishes. */
  predicate WordsMatch(s: NumberSet) {
    |s.bitmap| == Words(s.numBits)
  }

  predicate Has(s: NumberSet, p: nat)
    requires p < WORD_BITS * |s.bitmap|
  {
    TestBit(s.bitmap[p / WORD_BITS], p % WORD_BITS)
  }

  lemma WordsCover(s: NumberSet)
    requires WordsMatch(s)
    ensures s.numBits <= WORD_BITS * |s.bitmap| < s.numBits + WORD_BITS
  {
  }

  /** The numbers at bit `p` and above. */
  function NumbersFrom(s: NumberSet, p: nat): seq<int>
    requires WordsMatch(s)
    decreases s.numBits - p
  {
    if p >= s.numBits then []
    else
      WordsCover(s);
      (if Has(s, p) then [s.base + p] else []) + NumbersFrom(s, p + 1)
  }

  function Numbers(s: NumberSet): seq<int>
    requires WordsMatch(s)
  {
    NumbersFrom(s, 0)
  }

  /** `nums` followed by the numbers from bit `p` on is `all`. */
  ghost predicate Ahead(s: NumberSet, nums: seq<int>, p: nat, all: seq<int>)
    requires WordsMatch(s)
  {
    nums + NumbersFrom(s, p) == all
  }

  lemma BitIsSet(s: NumberSet, nums: seq<int>, p: nat, all: seq<int>)
    requires WordsMatch(s) && p < s.numBits && p < WORD_BITS * |s.bitmap| && Ahead(s, nums, p, all)
    ensures Ahead(s, if Has(s, p) then nums + [s.base + p] else nums, p + 1, all)
  {
    var rest := NumbersFrom(s, p + 1);
    if Has(s, p) {
      Shift(nums, s.base + p, rest, [s.base + p] + rest);
    } else {
      assert [] + rest == rest;
    }
  }

  lemma OneBitFurther(s: NumberSet, nums: seq<int>, line: nat, offset: nat, all: seq<int>)
    requires WordsMatch(s) && offset < WORD_BITS && WORD_BITS * line + offset < s.numBits
    requires Ahead(s, nums, WORD_BITS * line + offset, all)
    ensures line < |s.bitmap|
    ensures Ahead(s, if TestBit(s.bitmap[line], offset) then nums + [s.base + WORD_BITS * line + offset] else nums,
                  WORD_BITS * line + offset + 1, all)
  {
    var p := WORD_BITS * line + offset;
    WordsCover(s);
    assert p / WORD_BITS == line && p % WORD_BITS == offset;
    BitIsSet(s, nums, p, all);
  }

  lemma NothingBeyond(s: NumberSet, nums: seq<int>, p: nat, q: nat, all: seq<int>)
    requires WordsMatch(s) && s.numBits <= p && s.numBits <= q && Ahead(s, nums, p, all)
    ensures Ahead(s, nums, q, all)
  {
  }

  /** The bits of one word, as far as they count. */
  method SetWord(s: NumberSet, line: nat, before: seq<int>, ghost all: seq<int>) returns (nums: seq<int>)
    requires WordsMatch(s) && line < |s.bitmap| && Ahead(s, before, WORD_BITS * line, all)
    ensures Ahead(s, nums, WORD_BITS * (line + 1), all)
  {
    WordsCover(s);
    nums := before;
    var left := s.numBits - WORD_BITS * line;
    var end := if left < WORD_BITS then left else WORD_BITS;
    var offset := 0;
    while offset < end
      invariant 0 <= offset <= end
      invariant Ahead(s, nums, WORD_BITS * line + offset, all)
    {
      OneBitFurther(s, nums, line, offset, all);
      if TestBit(s.bitmap[line], offset) {
        nums := nums + [s.base + WORD_BITS * line + offset];
      }
      offset := offset + 1;
    }
    if left < WORD_BITS {
      NothingBeyond(s, nums, WORD_BITS * line + end, WORD_BITS * (line + 1), all);
    }
  }

  /** SequenceNumberSet::set: word by word, bit by bit. */
  method Set(s: NumberSet) returns (nums: seq<int>)
    requires WordsMatch(s)
    ensures nums == Numbers(s)
  {
    nums := [];
    WordsCover(s);
    assert [] + Numbers(s) == Numbers(s);
    var line := 0;
    while line < |s.bitmap|
      invariant line <= |s.bitmap|
      invariant Ahead(s, nums, WORD_BITS * line, Numbers(s))
    {
      nums := SetWord(s, line, nums, Numbers(s));
      line := line + 1;
    }
    assert NumbersFrom(s, WORD_BITS * line) == [] && nums + [] == nums;
  }

  lemma {:induction false} NumbersFromAre(s: NumberSet, p: nat)
    requires WordsMatch(s)
    ensures IsAscending(NumbersFrom(s, p))
    ensures forall n :: n in NumbersFrom(s, p) <==>
      s.base + p <= n < s.base + s.numBits && n - s.base < WORD_BITS * |s.bitmap| && Has(s, n - s.base)
    decreases s.numBits - p
  {
    WordsCover(s);
    if p < s.numBits {
      NumbersFromAre(s, p + 1);
      var rest := NumbersFrom(s, p + 1);
      forall i | 0 <= i < |rest| ensures rest[i] > s.base + p {
        assert rest[i] in rest;
      }
    }
  }

  /** Whatever the bitmap, its numbers come out in strictly ascending order. */
  lemma NumbersAscend(s: NumberSet)
    requires WordsMatch(s)
    ensures IsAscending(Numbers(s))
  {
    NumbersFromAre(s, 0);
  }

  // ---- round trip ----

  /** `s` says exactly `nums`, an ascending list. */
  ghost predicate Holds(s: NumberSet, nums: seq<int>) {
    && s.numBits == (if nums == [] then 0 else nums[|nums| - 1] - s.base + 1)
    && WordsMatch(s)
    && (forall p :: 0 <= p < WORD_BITS * |s.bitmap| ==> (Has(s, p) <==> s.base + p in nums))
  }

  lemma HasAfter(s: NumberSet, n: int, p: nat)
    requires s.base <= n && |s.bitmap| <= (n - s.base) / WORD_BITS + 1
    requires var r := WithNumber(s, n); p < WORD_BITS * |r.bitmap|
    ensures var r := WithNumber(s, n);
      Has(r, p) <==> p == n - s.base || (p < WORD_BITS * |s.bitmap| && Has(s, p))
  {
    var offset := n - s.base;
    var line, k := p / WORD_BITS, p % WORD_BITS;
    var words := Resized(s.bitmap, offset / WORD_BITS + 1);
    if line < |s.bitmap| {
      assert words[line] == s.bitmap[line];
    } else {
      assert words[line] == 0;
      NoBits(WORD_BITS, k);
    }
    if line == offset / WORD_BITS {
      WithBitTests(words[line], offset % WORD_BITS, k);
    }
  }

  lemma InAfter(nums: seq<int>, n: int, m: int)
    ensures m in nums + [n] <==> m in nums || m == n
  {
  }

  lemma HoldsMore(s: NumberSet, nums: seq<int>, n: int)
    requires Holds(s, nums) && s.base <= n && AllFrom(s.base, nums) && IsAscending(nums + [n])
    ensures Holds(WithNumber(s, n), nums + [n])
  {
    var r := WithNumber(s, n);
    WordsCover(s);
    forall i | 0 <= i < |nums| ensures nums[i] < n && nums[i] <= nums[|nums| - 1] {
      assert (nums + [n])[i] < (nums + [n])[|nums|];
      assert i < |nums| - 1 ==> (nums + [n])[i] < (nums + [n])[|nums| - 1];
    }
    assert |s.bitmap| <= (n - s.base) / WORD_BITS + 1;
    forall p | 0 <= p < WORD_BITS * |r.bitmap|
      ensures Has(r, p) <==> s.base + p in nums + [n]
    {
      HasAfter(s, n, p);
      InAfter(nums, n, s.base + p);
      if s.base + p in nums {
        InRange(s, nums, p);
      }
    }
  }

  lemma InRange(s: NumberSet, nums: seq<int>, p: nat)
    requires Holds(s, nums) && s.base + p in nums && forall i :: 0 <= i < |nums| ==> nums[i] <= nums[|nums| - 1]
    ensures p < WORD_BITS * |s.bitmap|
  {
    WordsCover(s);
    var i :| 0 <= i < |nums| && nums[i] == s.base + p;
    assert nums[i] <= nums[|nums| - 1];
  }

  lemma {:induction false} FromListHolds(base: int, nums: seq<int>)
    requires AllFrom(base, nums) && IsAscending(nums)
    ensures Holds(FromList(base, nums), nums)
    decreases |nums|
  {
    if nums != [] {
      var k := |nums| - 1;
      assert nums[..k] + [nums[k]] == nums;
      FromListHolds(base, nums[..k]);
      HoldsMore(FromList(base, nums[..k]), nums[..k], nums[k]);
    }
  }

  lemma SameNumbers(s: NumberSet, nums: seq<int>)
    requires AllFrom(s.base, nums) && IsAscending(nums) && Holds(s, nums)
    ensures Numbers(s) == nums
  {
    NumbersFromAre(s, 0);
    WordsCover(s);
    forall n
      ensures n in Numbers(s) <==> n in nums
    {
      if n in nums {
        var i :| 0 <= i < |nums| && nums[i] == n;
        assert nums[i] <= nums[|nums| - 1];
      }
    }
    AscendingUnique(Numbers(s), nums);
  }

  /** from_vec and then set give a list back if it is strictly ascending; no other list
      can come back, since set lists its numbers in ascending order. */
  lemma RoundTrip(base: int, nums: seq<int>)
    requires AllFrom(base, nums)
    ensures var s := FromList(base, nums);
      (WordsMatch(s) && Numbers(s) == nums) <==> IsAscending(nums)
  {
    var s := FromList(base, nums);
    if IsAscending(nums) {
      FromListHolds(base, nums);
      SameNumbers(s, nums);
    }
    if WordsMatch(s) && Numbers(s) == nums {
      NumbersAscend(s);
    }
  }

  // ---- validity ----

  predicate IsValid(s: NumberSet) {
    s.base >= 1 && s.numBits < 256 && WordsMatch(s)
  }

  /** A set made from an ascending list is accepted by its receiver exactly when the base
      is positive and the list spans fewer than 256 numbers; section 9.4.2.6 of RTPS 2.3
      would allow 256. */
  lemma ValidWhenNarrow(base: int, nums: seq<int>)
    requires AllFrom(base, nums) && IsAscending(nums)
    ensures IsValid(FromList(base, nums)) <==> base >= 1 && (nums == [] || nums[|nums| - 1] - base + 1 < 256)
  {
    FromListHolds(base, nums);
  }

  // ---- on the wire ----

  /** high and low halves of a sequence number. */
  function WriteNumber(n: int, e: Endianness): seq<Octet>
    requires -0x8000_0000_0000_0000 <= n < 0x8000_0000_0000_0000
  {
    Spell(Unsigned32(n / WORD_LIMIT), 4, e) + Spell(n % WORD_LIMIT, 4, e)
  }

  function Unsigned32(n: int): nat
    requires -0x8000_0000 <= n < 0x8000_0000
  {
    if n < 0 then n + WORD_LIMIT else n
  }

  function ReadNumber(bs: seq<Octet>, e: Endianness): int
    requires |bs| == 8
  {
    Signed(Value(bs[..4], e), 4) * WORD_LIMIT + Value(bs[4..], e)
  }

  lemma NumberRoundTrip(n: int, e: Endianness)
    requires -0x8000_0000_0000_0000 <= n < 0x8000_0000_0000_0000
    ensures |WriteNumber(n, e)| == 8 && ReadNumber(WriteNumber(n, e), e) == n
  {
    Powers();
    var high, low := n / WORD_LIMIT, n % WORD_LIMIT;
    var bs := WriteNumber(n, e);
    assert bs[..4] == Spell(Unsigned32(high), 4, e) && bs[4..] == Spell(low, 4, e);
    SpellRoundTrip(Unsigned32(high), 4, e);
    SpellRoundTrip(low, 4, e);
  }

  function WriteWords(words: seq<nat>, e: Endianness): (bs: seq<Octet>)
    ensures |bs| == 4 * |words|
  {
    if words == [] then [] else Spell(words[0], 4, e) + WriteWords(words[1..], e)
  }

  function ReadWords(bs: seq<Octet>, count: nat, e: Endianness): (words: seq<nat>)
    requires |bs| >= 4 * count
    ensures |words| == count
    decreases count
  {
    if count == 0 then [] else [Value(bs[..4], e)] + ReadWords(bs[4..], count - 1, e)
  }

  lemma {:induction false} WordsRoundTrip(words: seq<nat>, tail: seq<Octet>, e: Endianness)
    requires forall i :: 0 <= i < |words| ==> words[i] < WORD_LIMIT
    ensures ReadWords(WriteWords(words, e) + tail, |words|, e) == words
    decreases |words|
  {
    if words != [] {
      Powers();
      SpellRoundTrip(words[0], 4, e);
      var bs := WriteWords(words, e) + tail;
      assert bs[..4] == Spell(words[0], 4, e);
      assert bs[4..] == WriteWords(words[1..], e) + tail;
      WordsRoundTrip(words[1..], tail, e);
    }
  }

  /** What the fields of a set can hold. */
  predicate Storable(s: NumberSet) {
    && -0x8000_0000_0000_0000 <= s.base < 0x8000_0000_0000_0000 && s.numBits < WORD_LIMIT
    && forall i :: 0 <= i < |s.bitmap| ==> s.bitmap[i] < WORD_LIMIT
  }

  function WriteSet(s: NumberSet, e: Endianness): seq<Octet>
    requires Storable(s)
  {
    WriteNumber(s.base, e) + Spell(s.numBits, 4, e) + WriteWords(s.bitmap, e)
  }

  datatype SetRead = SetRead(numbers: NumberSet, rest: seq<Octet>)

  /** The bitmap has as many words as numBits needs; None is a read error. */
  function ReadSet(bs: seq<Octet>, e: Endianness): Option<SetRead> {
    if |bs| < 12 then None
    else
      var base, numBits := ReadNumber(bs[..8], e), Value(bs[8..12], e);
      var count := Words(numBits);
      if |bs| < 12 + 4 * count then None
      else Some(SetRead(NumberSet(base, numBits, ReadWords(bs[12..], count, e)), bs[12 + 4 * count..]))
  }

  function SizeOf(s: NumberSet): nat {
    12 + 4 * |s.bitmap|
  }

  lemma Slices(a: seq<Octet>, b: seq<Octet>, c: seq<Octet>, tail: seq<Octet>)
    requires |a| == 8 && |b| == 4
    ensures var bs := a + b + c + tail;
      bs[..8] == a && bs[8..12] == b && bs[12..] == c + tail && bs[12 + |c|..] == tail
  {
  }

  /** `size` is the length on the wire, and a set whose words match comes back whole. */
  lemma SetRoundTrip(s: NumberSet, tail: seq<Octet>, e: Endianness)
    requires Storable(s) && WordsMatch(s)
    ensures |WriteSet(s, e)| == SizeOf(s)
    ensures ReadSet(WriteSet(s, e) + tail, e) == Some(SetRead(s, tail))
  {
    Powers();
    NumberRoundTrip(s.base, e);
    SpellRoundTrip(s.numBits, 4, e);
    WordsRoundTrip(s.bitmap, tail, e);
    Slices(WriteNumber(s.base, e), Spell(s.numBits, 4, e), WriteWords(s.bitmap, e), tail);
  }
}
