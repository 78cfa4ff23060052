/**
 * The internet checksum: 16-bit words added into a 32-bit sum, folded, and compared or complemented.
 * The reference is arithmetic modulo 65535.
 */
module Checksum {
  import opened Division
  import opened TunnelProtocol

  const WORD: nat := 0x1_0000
  const ONES: nat := 0xFFFF
  const SUM_RANGE: nat := 0x1_0000_0000
  /** The longest input whose word sum always fits in 32 bits. */
  const MAXIMUM_EXACT_SIZE: nat := 131074

  function Load16(bytes: seq<Byte>, at: nat): U16
    requires at + 1 < |bytes|
  {
    bytes[at] as int * 256 + bytes[at + 1] as int
  }

  /** The unbounded sum of the big-endian words; an odd last byte is the high half of a word. */
  function WordSum(bytes: seq<Byte>): nat {
    if bytes == [] then 0
    else if |bytes| == 1 then bytes[0] as int * 256
    else Load16(bytes, 0) + WordSum(bytes[2..])
  }

  function Fold(sum: nat): (r: nat)
    ensures r < WORD
    decreases sum
  {
    if sum < WORD then sum else Fold(sum % WORD + sum / WORD)
  }

  /** What the 32-bit accumulator holds after the loop. */
  function Sum32(bytes: seq<Byte>): nat {
    WordSum(bytes) % SUM_RANGE
  }

  function InternetChecksum(bytes: seq<Byte>): U16 {
    ONES - Fold(Sum32(bytes))
  }

  predicate HasValidChecksum(bytes: seq<Byte>) {
    Fold(Sum32(bytes)) == ONES
  }

  // ---------------------------------------------------------------------------------------------
  // Folding is reduction modulo 65535

  lemma FoldStep(sum: nat)
    requires sum >= WORD
    ensures 0 < sum % WORD + sum / WORD < sum
    ensures (sum % WORD + sum / WORD) % ONES == sum % ONES
  {
    var high, low := sum / WORD, sum % WORD;
    assert sum == (low + high) + high * ONES;
    ModuloSkip(low + high, high);
  }

  lemma ModuloSkip(x: nat, n: nat)
    ensures (x + n * ONES) % ONES == x % ONES
  {
    SkipParts(x / ONES, x % ONES, x, n);
  }

  lemma SkipParts(q: nat, r: nat, x: nat, n: nat)
    requires x == q * ONES + r && r < ONES
    ensures (x + n * ONES) % ONES == r
  {
    Packed(q + n, r, ONES);
  }

  /** Folding keeps the residue and never turns a positive sum into zero. */
  lemma {:induction false} FoldResidue(sum: nat)
    ensures Fold(sum) % ONES == sum % ONES && (Fold(sum) == 0 <==> sum == 0)
    decreases sum
  {
    if sum >= WORD {
      FoldStep(sum);
      FoldResidue(sum % WORD + sum / WORD);
    }
  }

  /** Validity in the reference arithmetic. */
  lemma ValidityIsResidue(bytes: seq<Byte>)
    ensures HasValidChecksum(bytes) <==> Sum32(bytes) > 0 && Sum32(bytes) % ONES == 0
  {
    FoldResidue(Sum32(bytes));
  }

  /** A checksum computed over valid bytes, the stored checksum included, is zero. */
  lemma ValidIsZero(bytes: seq<Byte>)
    ensures HasValidChecksum(bytes) <==> InternetChecksum(bytes) == 0
  {
  }

  // ---------------------------------------------------------------------------------------------
  // Storing a checksum

  function WithWord(bytes: seq<Byte>, at: nat, value: U16): (stored: seq<Byte>)
    requires at + 1 < |bytes|
    ensures |stored| == |bytes|
  {
    bytes[at := value / 256][at + 1 := value % 256]
  }

  lemma {:induction false} SumWithWord(bytes: seq<Byte>, at: nat, value: U16)
    requires at % 2 == 0 && at + 1 < |bytes| && bytes[at] == 0 && bytes[at + 1] == 0
    ensures WordSum(WithWord(bytes, at, value)) == WordSum(bytes) + value
    decreases |bytes|
  {
    var stored := WithWord(bytes, at, value);
    if at == 0 {
      assert stored[2..] == bytes[2..];
    } else {
      SumWithWord(bytes[2..], at - 2, value);
      assert stored[2..] == WithWord(bytes[2..], at - 2, value);
    }
  }

  lemma {:induction false} SumBound(bytes: seq<Byte>)
    ensures WordSum(bytes) <= (|bytes| + 1) / 2 * ONES
    decreases |bytes|
  {
    if |bytes| >= 2 {
      SumBound(bytes[2..]);
      assert (|bytes| + 1) / 2 == (|bytes| - 1) / 2 + 1;
    }
  }

  lemma ComplementResidue(sum: nat)
    ensures sum + (ONES - Fold(sum)) > 0 && (sum + (ONES - Fold(sum))) % ONES == 0
  {
    FoldResidue(sum);
    hide Fold;
    CompletesMultiple(sum / ONES, sum % ONES, sum, Fold(sum) / ONES, Fold(sum) % ONES, Fold(sum));
  }

  /** A number and another of the same residue, at most 65535: their difference to it is a multiple. */
  lemma CompletesMultiple(q: nat, m: nat, sum: nat, d: nat, n: nat, folded: nat)
    requires sum == q * ONES + m && folded == d * ONES + n && m == n < ONES && folded <= ONES
    requires folded == 0 <==> sum == 0
    ensures sum + (ONES - folded) > 0 && (sum + (ONES - folded)) % ONES == 0
  {
    Packed(if d == 0 then q + 1 else q, 0, ONES);
  }

  /** The checksum never carries a 32-bit sum out of range: the total is a multiple of 65535 and so is 2^32 - 1. */
  lemma NoCarry(sum: nat)
    requires sum < SUM_RANGE
    ensures sum + (ONES - Fold(sum)) < SUM_RANGE
  {
    ComplementResidue(sum);
    FoldResidue(sum);
    hide Fold;
    BelowRange(sum, ONES - Fold(sum), (sum + (ONES - Fold(sum))) / ONES);
  }

  lemma BelowRange(sum: nat, checksum: nat, n: nat)
    requires sum < SUM_RANGE && checksum <= ONES && sum + checksum == n * ONES && (checksum == ONES ==> sum == 0)
    ensures sum + checksum < SUM_RANGE
  {
  }

  lemma WrappedSum(sum: nat, value: nat)
    requires sum % SUM_RANGE + value < SUM_RANGE
    ensures (sum + value) % SUM_RANGE == sum % SUM_RANGE + value
  {
  }

  /**
   * Storing the checksum of a packet whose checksum field is zero makes the packet valid, whatever its
   * length, even where the 32-bit sum wraps around.
   */
  lemma StoredChecksumValid(bytes: seq<Byte>, at: nat)
    requires at % 2 == 0 && at + 1 < |bytes| && bytes[at] == 0 && bytes[at + 1] == 0
    ensures HasValidChecksum(WithWord(bytes, at, InternetChecksum(bytes)))
  {
    var checksum := InternetChecksum(bytes);
    SumWithWord(bytes, at, checksum);
    NoCarry(Sum32(bytes));
    WrappedSum(WordSum(bytes), checksum);
    ComplementResidue(Sum32(bytes));
    ValidityIsResidue(WithWord(bytes, at, checksum));
  }

  /**
   * Up to 131074 bytes the sum does not wrap, and the checksum is the only word that makes the packet valid,
   * except that all ones does where the checksum is zero: both are zero in ones' complement.
   */
  lemma OnlyChecksumValid(bytes: seq<Byte>, at: nat, value: U16)
    requires at % 2 == 0 && at + 1 < |bytes| <= MAXIMUM_EXACT_SIZE && bytes[at] == 0 && bytes[at + 1] == 0
    ensures Sum32(WithWord(bytes, at, value)) == WordSum(bytes) + value
    ensures HasValidChecksum(WithWord(bytes, at, value)) <==>
            value == InternetChecksum(bytes) || (value == ONES && InternetChecksum(bytes) == 0)
  {
    hide WordSum, Fold, WithWord, HasValidChecksum;
    ExactSum(bytes, at, value);
    ValidityIsResidue(WithWord(bytes, at, value));
    ComplementResidue(Sum32(bytes));
    FoldResidue(Sum32(bytes));
    OneComplement(Sum32(bytes), InternetChecksum(bytes), value);
  }

  lemma ExactSum(bytes: seq<Byte>, at: nat, value: U16)
    requires at % 2 == 0 && at + 1 < |bytes| <= MAXIMUM_EXACT_SIZE && bytes[at] == 0 && bytes[at + 1] == 0
    ensures Sum32(bytes) == WordSum(bytes) && Sum32(WithWord(bytes, at, value)) == WordSum(bytes) + value
  {
    hide WordSum, WithWord, Sum32;
    FittingSum(bytes);
    FittingSum(WithWord(bytes, at, value));
    SumWithWord(bytes, at, value);
  }

  /** Two words that complete the same sum to a multiple of 65535 are equal or the two zeros. */
  lemma OneComplement(sum: nat, checksum: nat, value: nat)
    requires checksum <= ONES && value <= ONES && (sum + checksum) % ONES == 0
    ensures (sum + value) % ONES == 0 <==> value == checksum || (value == ONES && checksum == 0) || (value == 0 && checksum == ONES)
  {
    var n := (sum + checksum) / ONES;
    assert sum + value == n * ONES + (value - checksum);
    if value >= checksum {
      ModuloSkip(value - checksum, n);
    } else if n > 0 {
      assert sum + value == (n - 1) * ONES + (ONES - (checksum - value));
      ModuloSkip(ONES - (checksum - value), n - 1);
    }
  }

  lemma FittingSum(bytes: seq<Byte>)
    requires |bytes| <= MAXIMUM_EXACT_SIZE
    ensures Sum32(bytes) == WordSum(bytes) < SUM_RANGE
  {
    hide WordSum;
    SumBound(bytes);
    assert (|bytes| + 1) / 2 <= 65537;
  }

  // ---------------------------------------------------------------------------------------------
  // The loops

  /** An addition taken 32 bits wide. */
  function Wrapped(sum: nat, value: nat): (r: nat)
    ensures r < SUM_RANGE
  {
    (sum + value) % SUM_RANGE
  }

  /** The sum after one more word. */
  lemma AddedWord(bytes: seq<Byte>, offset: nat, sum: nat)
    requires offset + 1 < |bytes| && (sum + WordSum(bytes[offset..])) % SUM_RANGE == Sum32(bytes)
    ensures (Wrapped(sum, Load16(bytes, offset)) + WordSum(bytes[offset + 2..])) % SUM_RANGE == Sum32(bytes)
    ensures Load16(bytes, offset) == bytes[offset] as int * 256 + bytes[offset + 1] as int
  {
    assert bytes[offset..][2..] == bytes[offset + 2..];
    assert WordSum(bytes[offset..]) == Load16(bytes, offset) + WordSum(bytes[offset + 2..]);
    hide WordSum, Sum32, Load16;
    WrapsTogether(sum + Load16(bytes, offset), WordSum(bytes[offset + 2..]));
  }

  lemma WholeSum(bytes: seq<Byte>)
    ensures WordSum(bytes) % SUM_RANGE == Sum32(bytes) < SUM_RANGE
  {
  }

  /** What is left at the end: nothing, or one byte that is the high half of a word. */
  lemma LastByte(bytes: seq<Byte>, offset: nat, sum: nat)
    requires offset <= |bytes| <= offset + 1 && sum < SUM_RANGE && (sum + WordSum(bytes[offset..])) % SUM_RANGE == Sum32(bytes)
    ensures if offset < |bytes| then Wrapped(sum, bytes[offset] as int * 256) == Sum32(bytes) else sum == Sum32(bytes)
  {
  }

  lemma WrapsTogether(a: nat, b: nat)
    ensures (a % SUM_RANGE + b) % SUM_RANGE == (a + b) % SUM_RANGE
  {
    var q := a / SUM_RANGE;
    assert a + b == (a % SUM_RANGE + b) + q * SUM_RANGE;
    WrapSkip(a % SUM_RANGE + b, q);
  }

  lemma WrapSkip(x: nat, n: nat)
    ensures (x + n * SUM_RANGE) % SUM_RANGE == x % SUM_RANGE
  {
    WrapParts(x / SUM_RANGE, x % SUM_RANGE, x, n);
  }

  lemma WrapParts(q: nat, r: nat, x: nat, n: nat)
    requires x == q * SUM_RANGE + r && r < SUM_RANGE
    ensures (x + n * SUM_RANGE) % SUM_RANGE == r
  {
    Packed(q + n, r, SUM_RANGE);
  }

  /** The carry loop that ends both. */
  method FoldSum(sum: nat) returns (folded: U16)
    ensures folded == Fold(sum)
  {
    var rest: nat := sum;
    while rest / WORD != 0
      invariant Fold(rest) == Fold(sum)
      decreases rest
    {
      FoldStep(rest);
      rest := rest % WORD + rest / WORD;
    }
    return rest;
  }

  /** The builder's loop: two bytes put together by shifting, the fold, and the complement. */
  method ComputeInternetChecksum(bytes: seq<Byte>) returns (checksum: U16)
    ensures checksum == InternetChecksum(bytes)
  {
    hide WordSum, Sum32, Fold, Wrapped, Load16;
    var sum: nat := 0;
    var index := 0;
    assert bytes[0..] == bytes && WordSum(bytes) % SUM_RANGE == Sum32(bytes) by { WholeSum(bytes); }
    while index + 1 < |bytes|
      invariant 0 <= index <= |bytes| && sum < SUM_RANGE
      invariant (sum + WordSum(bytes[index..])) % SUM_RANGE == Sum32(bytes)
    {
      AddedWord(bytes, index, sum);
      sum := Wrapped(sum, bytes[index] as int * 256 + bytes[index + 1] as int);
      index := index + 2;
    }
    LastByte(bytes, index, sum);
    if index < |bytes| {
      sum := Wrapped(sum, bytes[index] as int * 256);
    }
    var folded := FoldSum(sum);
    checksum := ONES - folded;
  }

  /** The validator's loop: words loaded from the buffer, the fold, and the comparison with all ones. */
  method HasValidInternetChecksum(bytes: seq<Byte>) returns (valid: bool)
    ensures valid <==> HasValidChecksum(bytes)
  {
    hide WordSum, Sum32, Fold, Wrapped, Load16;
    var sum: nat := 0;
    var offset := 0;
    assert bytes[0..] == bytes && WordSum(bytes) % SUM_RANGE == Sum32(bytes) by { WholeSum(bytes); }
    while offset + 1 < |bytes|
      invariant 0 <= offset <= |bytes| && sum < SUM_RANGE
      invariant (sum + WordSum(bytes[offset..])) % SUM_RANGE == Sum32(bytes)
    {
      AddedWord(bytes, offset, sum);
      sum := Wrapped(sum, Load16(bytes, offset));
      offset := offset + 2;
    }
    LastByte(bytes, offset, sum);
    if offset < |bytes| {
      sum := Wrapped(sum, bytes[offset] as int * 256);
    }
    var folded := FoldSum(sum);
    valid := folded == ONES;
  }
}
