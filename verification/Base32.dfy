/**
 The Base32 encoder for MFA secrets (apps/api/src/auth/auth.service.ts) against section 6 of RFC 4648,
 without padding (section 3.2 of RFC 4648). The accumulator is a 32-bit word that is never masked: old bits
 are shifted out at the top while at most twelve bits at the bottom are waiting.
 */
module Base32 {
  import opened Wrappers

  type Byte = bv8
  type Quintet = bv5

  const ALPHABET: string := "ABCDEFGHIJKLMNOPQRSTUVWXYZ234567"

  // ----- the standard, on bits -----

  function BitOfByte(b: Byte, k: nat): bool
    requires k < 8
  {
    match k
    case 0 => b & 0x80 != 0 case 1 => b & 0x40 != 0 case 2 => b & 0x20 != 0 case 3 => b & 0x10 != 0
    case 4 => b & 0x08 != 0 case 5 => b & 0x04 != 0 case 6 => b & 0x02 != 0 case _ => b & 0x01 != 0
  }

  function BitOfQuintet(q: Quintet, k: nat): bool
    requires k < 5
  {
    match k
    case 0 => q & 0x10 != 0
    case 1 => q & 0x08 != 0
    case 2 => q & 0x04 != 0
    case 3 => q & 0x02 != 0
    case _ => q & 0x01 != 0
  }

  /** The input as a stream of bits, the most significant bit of the first byte first. */
  function Bits(bytes: seq<Byte>): (r: seq<bool>)
    ensures |r| == 8 * |bytes|
  {
    seq(8 * |bytes|, k requires 0 <= k < 8 * |bytes| => BitOfByte(bytes[k / 8], k % 8))
  }

  /** A stream that ends within a group is continued with zeros. */
  function BitAt(bits: seq<bool>, k: nat): bool {
    k < |bits| && bits[k]
  }

  function QuintetOf(a: bool, b: bool, c: bool, d: bool, e: bool): Quintet {
    (if a then 0x10 else 0) | (if b then 0x08 else 0) | (if c then 0x04 else 0)
    | (if d then 0x02 else 0) | (if e then 0x01 else 0)
  }

  function Group(bits: seq<bool>, k: nat): Quintet {
    QuintetOf(BitAt(bits, 5 * k), BitAt(bits, 5 * k + 1), BitAt(bits, 5 * k + 2), BitAt(bits, 5 * k + 3),
              BitAt(bits, 5 * k + 4))
  }

  /** The groups of a stream: as many as are needed to cover it. */
  function Groups(bits: seq<bool>): (r: seq<Quintet>)
    ensures |r| == (|bits| + 4) / 5
  {
    seq((|bits| + 4) / 5, k requires 0 <= k < (|bits| + 4) / 5 => Group(bits, k))
  }

  function ByteOf(bits: seq<bool>, i: nat): Byte
    requires 8 * i + 8 <= |bits|
  {
    (if bits[8 * i] then 0x80 else 0) | (if bits[8 * i + 1] then 0x40 else 0) | (if bits[8 * i + 2] then 0x20 else 0)
    | (if bits[8 * i + 3] then 0x10 else 0) | (if bits[8 * i + 4] then 0x08 else 0)
    | (if bits[8 * i + 5] then 0x04 else 0)
    | (if bits[8 * i + 6] then 0x02 else 0) | (if bits[8 * i + 7] then 0x01 else 0)
  }

  /** Decoding: the bits of the groups, cut into whole bytes; the bits that are left over are dropped. */
  function Decode(groups: seq<Quintet>): seq<Byte> {
    var bits := seq(5 * |groups|, k requires 0 <= k < 5 * |groups| => BitOfQuintet(groups[k / 5], k % 5));
    seq(|bits| / 8, i requires 0 <= i < |bits| / 8 => ByteOf(bits, i))
  }

  // ----- characters -----

  function Letter(q: Quintet): char {
    ALPHABET[q as int]
  }

  /** The value of a character (Table 3 of RFC 4648). */
  function Symbol(c: char): Option<Quintet> {
    if 'A' <= c <= 'Z' then Some((c as int - 'A' as int) as Quintet)
    else if '2' <= c <= '7' then Some((c as int - '2' as int + 26) as Quintet)
    else None
  }

  lemma AlphabetAt(i: nat)
    requires i < 32
    ensures ALPHABET[i] == if i < 26 then ('A' as int + i) as char else ('2' as int + i - 26) as char
  {
  }

  lemma SymbolOfLetter(q: Quintet)
    ensures Symbol(Letter(q)) == Some(q)
  {
    AlphabetAt(q as int);
  }

  function Text(groups: seq<Quintet>): string {
    seq(|groups|, i requires 0 <= i < |groups| => Letter(groups[i]))
  }

  // ----- the accumulator -----

  /** Bit `k` of the word, counted from the least significant one. */
  function LowBit(v: bv32, k: nat): bool
    requires k < 13
  {
    match k
    case 0 => v & 0x1 != 0 case 1 => v & 0x2 != 0 case 2 => v & 0x4 != 0 case 3 => v & 0x8 != 0
    case 4 => v & 0x10 != 0 case 5 => v & 0x20 != 0 case 6 => v & 0x40 != 0 case 7 => v & 0x80 != 0
    case 8 => v & 0x100 != 0 case 9 => v & 0x200 != 0 case 10 => v & 0x400 != 0 case 11 => v & 0x800 != 0
    case _ => v & 0x1000 != 0
  }

  /** One byte enters at the bottom; what leaves at the top is lost. */
  function Feed(v: bv32, b: Byte): bv32 {
    (v << 8) | (b as bv32)
  }

  lemma FedBits(v: bv32, b: Byte, k: nat)
    requires k < 8
    ensures LowBit(Feed(v, b), k) == BitOfByte(b, 7 - k)
  {
  }

  lemma KeptBits(v: bv32, b: Byte, k: nat)
    requires k < 5
    ensures LowBit(Feed(v, b), k + 8) == LowBit(v, k)
  {
  }

  function Top(v: bv32, bits: nat): Quintet
    requires 5 <= bits < 13
  {
    ((v >> (bits - 5)) & 31) as bv5
  }

  lemma TopBits(v: bv32, bits: nat)
    requires 5 <= bits < 13
    ensures Top(v, bits) == QuintetOf(LowBit(v, bits - 1), LowBit(v, bits - 2), LowBit(v, bits - 3),
                                      LowBit(v, bits - 4), LowBit(v, bits - 5))
  {
    match bits
    case 5 => assert Top(v, 5) == QuintetOf(LowBit(v, 4), LowBit(v, 3), LowBit(v, 2), LowBit(v, 1), LowBit(v, 0));
    case 6 => assert Top(v, 6) == QuintetOf(LowBit(v, 5), LowBit(v, 4), LowBit(v, 3), LowBit(v, 2), LowBit(v, 1));
    case 7 => assert Top(v, 7) == QuintetOf(LowBit(v, 6), LowBit(v, 5), LowBit(v, 4), LowBit(v, 3), LowBit(v, 2));
    case 8 => assert Top(v, 8) == QuintetOf(LowBit(v, 7), LowBit(v, 6), LowBit(v, 5), LowBit(v, 4), LowBit(v, 3));
    case _ => HighTopBits(v, bits);
  }

  lemma HighTopBits(v: bv32, bits: nat)
    requires 9 <= bits < 13
    ensures Top(v, bits) == QuintetOf(LowBit(v, bits - 1), LowBit(v, bits - 2), LowBit(v, bits - 3),
                                      LowBit(v, bits - 4), LowBit(v, bits - 5))
  {
    match bits
    case 9 => assert Top(v, 9) == QuintetOf(LowBit(v, 8), LowBit(v, 7), LowBit(v, 6), LowBit(v, 5), LowBit(v, 4));
    case 10 => assert Top(v, 10) == QuintetOf(LowBit(v, 9), LowBit(v, 8), LowBit(v, 7), LowBit(v, 6), LowBit(v, 5));
    case 11 => assert Top(v, 11) == QuintetOf(LowBit(v, 10), LowBit(v, 9), LowBit(v, 8), LowBit(v, 7), LowBit(v, 6));
    case _ => assert Top(v, 12) == QuintetOf(LowBit(v, 11), LowBit(v, 10), LowBit(v, 9), LowBit(v, 8), LowBit(v, 7));
  }

  function Rest(v: bv32, bits: nat): Quintet
    requires 0 < bits < 5
  {
    ((v << (5 - bits)) & 31) as bv5
  }

  lemma RestBits(v: bv32, bits: nat)
    requires 0 < bits < 5
    ensures Rest(v, bits) == QuintetOf(LowBit(v, bits - 1), bits > 1 && LowBit(v, bits - 2),
                                       bits > 2 && LowBit(v, bits - 3), bits > 3 && LowBit(v, bits - 4), false)
  {
    match bits
    case 1 => assert Rest(v, 1) == QuintetOf(LowBit(v, 0), false, false, false, false);
    case 2 => assert Rest(v, 2) == QuintetOf(LowBit(v, 1), LowBit(v, 0), false, false, false);
    case 3 => assert Rest(v, 3) == QuintetOf(LowBit(v, 2), LowBit(v, 1), LowBit(v, 0), false, false);
    case _ => assert Rest(v, 4) == QuintetOf(LowBit(v, 3), LowBit(v, 2), LowBit(v, 1), LowBit(v, 0), false);
  }

  /** The `bits` low bits of the word are the bits of the stream just before position `at`. */
  ghost predicate Waiting(v: bv32, bits: nat, stream: seq<bool>, at: nat) {
    bits < 13 && bits <= at <= |stream| && forall k :: 0 <= k < bits ==> LowBit(v, k) == stream[at - 1 - k]
  }

  lemma BitPosition(i: nat, k: nat)
    requires k < 8
    ensures (8 * i + k) / 8 == i && (8 * i + k) % 8 == k
  {
  }

  lemma ReadByte(v: bv32, bits: nat, bytes: seq<Byte>, i: nat)
    requires i < |bytes| && bits < 5 && Waiting(v, bits, Bits(bytes), 8 * i)
    ensures Waiting(Feed(v, bytes[i]), bits + 8, Bits(bytes), 8 * i + 8)
  {
    hide LowBit, BitOfByte, Feed;
    var v' := Feed(v, bytes[i]);
    var stream := Bits(bytes);
    forall k | 0 <= k < bits + 8 ensures LowBit(v', k) == stream[8 * i + 8 - 1 - k] {
      if k < 8 {
        FedBits(v, bytes[i], k);
        BitPosition(i, 7 - k);
      } else {
        KeptBits(v, bytes[i], k - 8);
      }
    }
  }

  /** The next group of the stream is at the top of the waiting bits. */
  lemma TopIsGroup(v: bv32, bits: nat, stream: seq<bool>, at: nat, n: nat)
    requires Waiting(v, bits, stream, at) && 5 <= bits && 5 * n + bits == at
    ensures Top(v, bits) == Group(stream, n)
  {
    TopBits(v, bits);
    hide LowBit, Top, QuintetOf;
    assert LowBit(v, bits - 1) == stream[5 * n] && LowBit(v, bits - 2) == stream[5 * n + 1]
           && LowBit(v, bits - 3) == stream[5 * n + 2];
    assert LowBit(v, bits - 4) == stream[5 * n + 3] && LowBit(v, bits - 5) == stream[5 * n + 4];
  }

  lemma RestIsGroup(v: bv32, bits: nat, stream: seq<bool>, n: nat)
    requires Waiting(v, bits, stream, |stream|) && 0 < bits < 5 && 5 * n + bits == |stream|
    ensures Rest(v, bits) == Group(stream, n)
  {
    RestBits(v, bits);
    hide LowBit, Rest, QuintetOf;
    assert LowBit(v, bits - 1) == stream[5 * n];
    assert bits > 1 ==> LowBit(v, bits - 2) == stream[5 * n + 1];
    assert bits > 2 ==> LowBit(v, bits - 3) == stream[5 * n + 2];
    assert bits > 3 ==> LowBit(v, bits - 4) == stream[5 * n + 3];
  }

  /** The encoder: exactly the groups of the standard, in its alphabet. */
  method Encode(bytes: seq<Byte>) returns (output: string)
    ensures output == Text(Groups(Bits(bytes)))
    ensures |output| == (8 * |bytes| + 4) / 5
  {
    hide LowBit, Top, Rest, QuintetOf, BitOfByte, Letter, Group;
    ghost var stream := Bits(bytes);
    var bits: nat, value: bv32 := 0, 0;
    output := "";
    for i := 0 to |bytes|
      invariant bits < 5 && 5 * |output| + bits == 8 * i && Waiting(value, bits, stream, 8 * i)
      invariant forall k :: 0 <= k < |output| ==> output[k] == Letter(Group(stream, k))
    {
      ReadByte(value, bits, bytes, i);
      value := (value << 8) | (bytes[i] as bv32);
      bits := bits + 8;
      while bits >= 5
        invariant 5 * |output| + bits == 8 * i + 8 && Waiting(value, bits, stream, 8 * i + 8)
        invariant forall k :: 0 <= k < |output| ==> output[k] == Letter(Group(stream, k))
      {
        TopIsGroup(value, bits, stream, 8 * i + 8, |output|);
        output := output + [Letter(Top(value, bits))];
        bits := bits - 5;
      }
    }
    if bits > 0 {
      RestIsGroup(value, bits, stream, |output|);
      output := output + [Letter(Rest(value, bits))];
    }
    assert |output| == |Groups(stream)|;
  }

  // ----- round trip -----

  lemma BitOfGroup(bits: seq<bool>, k: nat)
    ensures BitOfQuintet(Group(bits, k / 5), k % 5) == BitAt(bits, k)
  {
    var n := k / 5;
    assert k == 5 * n + k % 5;
    QuintetBits(BitAt(bits, 5 * n), BitAt(bits, 5 * n + 1), BitAt(bits, 5 * n + 2), BitAt(bits, 5 * n + 3),
                BitAt(bits, 5 * n + 4), k % 5);
  }

  lemma QuintetBits(a: bool, b: bool, c: bool, d: bool, e: bool, k: nat)
    requires k < 5
    ensures BitOfQuintet(QuintetOf(a, b, c, d, e), k) == [a, b, c, d, e][k]
  {
  }

  lemma ByteOfItsBits(bits: seq<bool>, i: nat, b: Byte)
    requires 8 * i + 8 <= |bits| && forall k :: 0 <= k < 8 ==> bits[8 * i + k] == BitOfByte(b, k)
    ensures ByteOf(bits, i) == b
  {
    assert bits[8 * i] == BitOfByte(b, 0) && bits[8 * i + 1] == BitOfByte(b, 1) && bits[8 * i + 2] == BitOfByte(b, 2);
    assert bits[8 * i + 3] == BitOfByte(b, 3) && bits[8 * i + 4] == BitOfByte(b, 4)
           && bits[8 * i + 5] == BitOfByte(b, 5);
    assert bits[8 * i + 6] == BitOfByte(b, 6) && bits[8 * i + 7] == BitOfByte(b, 7);
  }

  /** Decoding by the standard gives back the bytes, for inputs of every length. */
  lemma RoundTrip(bytes: seq<Byte>)
    ensures Decode(Groups(Bits(bytes))) == bytes
  {
    hide BitOfByte, BitOfQuintet, QuintetOf, ByteOf, Group;
    var stream := Bits(bytes);
    var groups := Groups(stream);
    var bits := seq(5 * |groups|, k requires 0 <= k < 5 * |groups| => BitOfQuintet(groups[k / 5], k % 5));
    assert |bits| / 8 == |bytes|;
    forall i | 0 <= i < |bytes| ensures ByteOf(bits, i) == bytes[i] {
      forall k | 0 <= k < 8 ensures bits[8 * i + k] == BitOfByte(bytes[i], k) {
        BitOfGroup(stream, 8 * i + k);
        BitPosition(i, k);
      }
      ByteOfItsBits(bits, i, bytes[i]);
    }
  }

  /** The groups that a text stands for, character by character. */
  ghost predicate Spells(text: string, groups: seq<Quintet>) {
    |text| == |groups| && forall i :: 0 <= i < |text| ==> Symbol(text[i]) == Some(groups[i])
  }

  /** Whoever reads the encoder's text by the table of the standard gets the bytes back. */
  lemma TextRoundTrip(bytes: seq<Byte>, groups: seq<Quintet>)
    ensures Spells(Text(Groups(Bits(bytes))), groups) ==> Decode(groups) == bytes
    ensures Spells(Text(Groups(Bits(bytes))), Groups(Bits(bytes)))
  {
    hide Letter, Symbol, Group, Decode;
    var mine := Groups(Bits(bytes));
    forall i | 0 <= i < |mine| ensures Symbol(Text(mine)[i]) == Some(mine[i]) {
      SymbolOfLetter(mine[i]);
    }
    RoundTrip(bytes);
    if Spells(Text(mine), groups) {
      assert groups == mine;
    }
  }
}
