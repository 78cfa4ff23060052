/**
 * What an AllowedIPs prefix means, for IPv4 and IPv6 alike: the leading bits of two addresses agree.
 */
module PrefixBits {
  import opened Division
  import opened TunnelProtocol
  import opened Routing
  import opened SourceFilter

  /** What bit `k` of a byte weighs, counted from the most significant one. */
  function Weight(k: nat): (w: nat)
    requires k < 8
    ensures w > 0
  {
    match k
    case 0 => 128
    case 1 => 64
    case 2 => 32
    case 3 => 16
    case 4 => 8
    case 5 => 4
    case 6 => 2
    case _ => 1
  }

  function ByteBit(value: Byte, k: nat): nat
    requires k < 8
  {
    Leading(value, k + 1) % 2
  }

  /** Bit `i` of an address in network order. */
  function Bit(address: seq<Byte>, i: nat): nat
    requires i < 8 * |address|
  {
    ByteBit(address[i / 8], i % 8)
  }

  predicate SameBits(a: Byte, b: Byte, n: nat)
    requires n <= 8
  {
    forall k :: 0 <= k < n ==> ByteBit(a, k) == ByteBit(b, k)
  }

  /** The number that the leading `n` bits spell. */
  function Leading(value: Byte, n: nat): nat
    requires n <= 8
  {
    if n == 0 then 0 else value / Weight(n - 1)
  }

  lemma LeadingStep(value: Byte, n: nat)
    requires n < 8
    ensures Leading(value, n + 1) == 2 * Leading(value, n) + ByteBit(value, n)
  {
    if n == 0 {
      TopBit(value);
    } else {
      Halved(value, Weight(n));
      WeightStep(n);
      hide Weight;
    }
  }

  lemma TopBit(value: Byte)
    ensures Leading(value, 1) == ByteBit(value, 0)
  {
    assert value / 128 < 2;
  }

  lemma WeightStep(n: nat)
    requires 0 < n < 8
    ensures Weight(n - 1) == 2 * Weight(n)
  {
  }

  lemma {:induction false} LeadingBits(a: Byte, b: Byte, n: nat)
    requires n <= 8
    ensures Leading(a, n) == Leading(b, n) <==> SameBits(a, b, n)
  {
    if n > 0 {
      LeadingBits(a, b, n - 1);
      LeadingStep(a, n - 1);
      LeadingStep(b, n - 1);
      hide Leading, ByteBit;
      assert ByteBit(a, n - 1) < 2 && ByteBit(b, n - 1) < 2 by {
        BitIsBinary(a, n - 1);
        BitIsBinary(b, n - 1);
      }
    }
  }

  lemma BitIsBinary(value: Byte, k: nat)
    requires k < 8
    ensures ByteBit(value, k) < 2
  {
  }

  lemma MaskedBits(a: Byte, b: Byte, n: nat)
    requires n <= 8
    ensures Masked(a, n) == Masked(b, n) <==> SameBits(a, b, n)
  {
    hide SameBits;
    LeadingBits(a, b, n);
    MaskedLeading(a, n);
    MaskedLeading(b, n);
  }

  lemma MaskedLeading(value: Byte, n: nat)
    requires n <= 8
    ensures Masked(value, n) == if n == 0 then 0 else Leading(value, n) * Weight(n - 1)
  {
  }

  /** The filter's byte-wise comparison is agreement of the leading bits, at every prefix length. */
  lemma PrefixIsLeadingBits(allowed: AllowedIp, source: seq<Byte>)
    ensures PrefixMatches(allowed, source) <==>
            |allowed.address| == |source| && allowed.prefix <= 8 * |source| &&
            forall i :: 0 <= i < allowed.prefix ==> Bit(allowed.address, i) == Bit(source, i)
  {
    if |allowed.address| == |source| && allowed.prefix <= 8 * |source| {
      var full, remaining := allowed.prefix / 8, allowed.prefix % 8;
      hide ByteBit, Masked;
      if PrefixMatches(allowed, source) {
        forall i | 0 <= i < allowed.prefix ensures Bit(allowed.address, i) == Bit(source, i) {
          if i < 8 * full {
            assert allowed.address[i / 8] == allowed.address[..full][i / 8] == source[..full][i / 8] == source[i / 8];
          } else {
            MaskedBits(allowed.address[full], source[full], remaining);
          }
        }
      }
      if forall i :: 0 <= i < allowed.prefix ==> Bit(allowed.address, i) == Bit(source, i) {
        forall j | 0 <= j < full ensures allowed.address[j] == source[j] {
          SameBytes(allowed.address, source, j, 8);
          MaskedBits(allowed.address[j], source[j], 8);
          WholeByte(allowed.address[j]);
          WholeByte(source[j]);
        }
        if remaining > 0 {
          SameBytes(allowed.address, source, full, remaining);
          MaskedBits(allowed.address[full], source[full], remaining);
        }
      }
    }
  }

  lemma WholeByte(value: Byte)
    ensures Masked(value, 8) == value
  {
  }

  lemma SameBytes(a: seq<Byte>, b: seq<Byte>, j: nat, n: nat)
    requires |a| == |b| && n <= 8 && 8 * j + n <= 8 * |a| && j < |a|
    requires forall i :: 8 * j <= i < 8 * j + n ==> Bit(a, i) == Bit(b, i)
    ensures SameBits(a[j], b[j], n)
  {
    hide ByteBit;
    forall k | 0 <= k < n ensures ByteBit(a[j], k) == ByteBit(b[j], k) {
      assert Bit(a, 8 * j + k) == Bit(b, 8 * j + k);
      assert (8 * j + k) / 8 == j && (8 * j + k) % 8 == k;
    }
  }
}
