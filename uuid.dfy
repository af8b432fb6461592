/** Model of pkg/idgen/uuid.go: the canonical string form of a UUID, random (version 4) UUIDs and
    time-ordered (version 7) UUIDs with a per-millisecond counter, and their batch variants.

    The output of crypto/rand is an input (`Entropy`); so are the clock readings of a v7 generator. */
module Uuid {
  import opened Words
  import opened Wrappers

  /** Go's `[16]byte`. */
  type UUID = u: seq<byte> | |u| == 16 witness [0, 0, 0, 0, 0, 0, 0, 0, 0, 0, 0, 0, 0, 0, 0, 0]

  datatype UuidError =
    | RandomReadFailed                          // "failed to generate random bytes"
    | CountNotPositive                          // "count must be greater than 0"
    | ItemFailed(index: int, cause: UuidError)  // "failed to generate UUID at index %d"

  /** What one crypto/rand.Read into a buffer gives: the buffer filled, or an error. */
  datatype Entropy = Bytes(bytes: seq<byte>) | ReadFailed

  /** A read into a buffer of `n` bytes fills all of it when it succeeds. */
  predicate Fills(e: Entropy, n: nat)
  {
    e.Bytes? ==> |e.bytes| == n
  }

  /** Every successful read in the run fills a buffer of `n` bytes. */
  predicate AllFill(es: seq<Entropy>, n: nat)
  {
    forall i :: 0 <= i < |es| ==> Fills(es[i], n)
  }

  /** The index of the first failed read among the first n, or n when none of them failed. */
  function FirstFailed(es: seq<Entropy>, n: nat): (k: nat)
    requires n <= |es|
    ensures k <= n
    ensures k < n ==> es[k].ReadFailed?
    ensures forall j :: 0 <= j < k ==> es[j].Bytes?
  {
    if n == 0 then 0
    else
      var k := FirstFailed(es, n - 1);
      if k < n - 1 then k else if es[n - 1].ReadFailed? then n - 1 else n
  }

  /** A failed read after i good ones is the first failure of any longer prefix. */
  lemma FirstFailedAt(es: seq<Entropy>, n: nat, i: nat)
    requires i < n <= |es| && FirstFailed(es, i) == i && es[i].ReadFailed?
    ensures FirstFailed(es, n) == i
  {
  }

  // ---------------------------------------------------------------------------------------------
  // Canonical string form

  function Hi(b: byte): int
  {
    b / 0x10
  }

  function Lo(b: byte): int
  {
    b % 0x10
  }

  /** The digit table of encoding/hex. */
  const HexTable := "0123456789abcdef"

  /** The lower-case hexadecimal digit encoding/hex writes for a nibble. */
  function HexDigit(n: int): char
    requires 0 <= n < 16
  {
    HexTable[n]
  }

  /** hex.Encode: two digits per byte, high nibble first. */
  function Hex(src: seq<byte>): (r: string)
    ensures |r| == 2 * |src|
  {
    seq(2 * |src|, j requires 0 <= j < 2 * |src| => if j % 2 == 0 then HexDigit(Hi(src[j / 2])) else HexDigit(Lo(src[j / 2])))
  }

  /** xxxxxxxx-xxxx-xxxx-xxxx-xxxxxxxxxxxx over bytes 0-3, 4-5, 6-7, 8-9 and 10-15. */
  function Canonical(u: UUID): string
  {
    Hex(u[0..4]) + "-" + Hex(u[4..6]) + "-" + Hex(u[6..8]) + "-" + Hex(u[8..10]) + "-" + Hex(u[10..16])
  }

  /** Byte i of the input becomes digits 2i (its high nibble) and 2i + 1 (its low nibble). */
  lemma HexAt(src: seq<byte>, i: int)
    requires 0 <= i < |src|
    ensures Hex(src)[2 * i] == HexDigit(Hi(src[i])) && Hex(src)[2 * i + 1] == HexDigit(Lo(src[i]))
  {
  }

  /** The five hex groups of `u` separated by dashes at 8, 13, 18 and 23, 36 characters in all. */
  predicate Grouped(s: string, u: UUID)
  {
    |s| == 36 &&
    s[0..8] == Hex(u[0..4]) && s[8] == '-' && s[9..13] == Hex(u[4..6]) && s[13] == '-' &&
    s[14..18] == Hex(u[6..8]) && s[18] == '-' && s[19..23] == Hex(u[8..10]) && s[23] == '-' &&
    s[24..36] == Hex(u[10..16])
  }

  /** The canonical form is the five groups separated by dashes. */
  lemma CanonicalGroups(u: UUID)
    ensures Grouped(Canonical(u), u)
  {
    var s := Canonical(u);
    var a, b, c, d, e := Hex(u[0..4]), Hex(u[4..6]), Hex(u[6..8]), Hex(u[8..10]), Hex(u[10..16]);
    assert s == a + "-" + b + "-" + c + "-" + d + "-" + e;
    assert s[0..8] == a;
    assert s[9..13] == b;
    assert s[14..18] == c;
    assert s[19..23] == d;
    assert s[24..36] == e;
  }

  /** The groups determine the string: a grouped string is the canonical form. */
  lemma GroupedIsCanonical(s: string, u: UUID)
    requires Grouped(s, u)
    ensures s == Canonical(u)
  {
    var c := Canonical(u);
    CanonicalGroups(u);
    forall j | 0 <= j < 36 ensures s[j] == c[j] {
      if j < 8 {
        assert s[j] == s[0..8][j] && c[j] == c[0..8][j];
      } else if 9 <= j < 13 {
        assert s[j] == s[9..13][j - 9] && c[j] == c[9..13][j - 9];
      } else if 14 <= j < 18 {
        assert s[j] == s[14..18][j - 14] && c[j] == c[14..18][j - 14];
      } else if 19 <= j < 23 {
        assert s[j] == s[19..23][j - 19] && c[j] == c[19..23][j - 19];
      } else if 24 <= j {
        assert s[j] == s[24..36][j - 24] && c[j] == c[24..36][j - 24];
      }
    }
  }

  /** Where the two digits of byte `k` start in the canonical form. */
  function Offset(k: int): int
    requires 0 <= k < 16
  {
    2 * k + (if k < 4 then 0 else if k < 6 then 1 else if k < 8 then 2 else if k < 10 then 3 else 4)
  }

  /** Within a group of the canonical form that encodes bytes first..last - 1, byte k's digits sit at
      start + 2 (k - first). */
  lemma GroupDigits(s: string, start: int, u: UUID, first: int, last: int, k: int)
    requires 0 <= first <= k < last <= 16 && 0 <= start && start + 2 * (last - first) <= |s|
    requires s[start..start + 2 * (last - first)] == Hex(u[first..last])
    ensures s[start + 2 * (k - first)] == HexDigit(Hi(u[k]))
    ensures s[start + 2 * (k - first) + 1] == HexDigit(Lo(u[k]))
  {
    HexAt(u[first..last], k - first);
    assert s[start + 2 * (k - first)] == s[start..start + 2 * (last - first)][2 * (k - first)];
    assert s[start + 2 * (k - first) + 1] == s[start..start + 2 * (last - first)][2 * (k - first) + 1];
  }

  /** Each byte `k` of `u` appears in `s` as its two digits at Offset(k), high nibble first, with dashes at
      8, 13, 18 and 23. */
  predicate Laid(s: string, u: UUID)
  {
    |s| == 36 && s[8] == '-' && s[13] == '-' && s[18] == '-' && s[23] == '-' &&
    forall k :: 0 <= k < 16 ==> s[Offset(k)] == HexDigit(Hi(u[k])) && s[Offset(k) + 1] == HexDigit(Lo(u[k]))
  }

  /** The grouped form places every byte's digits at its offset. */
  lemma GroupedIsLaid(s: string, u: UUID)
    requires Grouped(s, u)
    ensures Laid(s, u)
  {
    forall k | 0 <= k < 16
      ensures s[Offset(k)] == HexDigit(Hi(u[k])) && s[Offset(k) + 1] == HexDigit(Lo(u[k]))
    {
      if k < 4 {
        GroupDigits(s, 0, u, 0, 4, k);
      } else if k < 6 {
        GroupDigits(s, 9, u, 4, 6, k);
      } else if k < 8 {
        GroupDigits(s, 14, u, 6, 8, k);
      } else if k < 10 {
        GroupDigits(s, 19, u, 8, 10, k);
      } else {
        GroupDigits(s, 24, u, 10, 16, k);
      }
    }
  }

  /** Each byte appears as its two digits at its offset, high nibble first. */
  lemma CanonicalLayout(u: UUID)
    ensures Laid(Canonical(u), u)
  {
    CanonicalGroups(u);
    GroupedIsLaid(Canonical(u), u);
  }

  /** Every position of the canonical form other than a dash holds a digit of some byte. */
  lemma DigitPosition(j: int) returns (k: int)
    requires 0 <= j < 36 && j != 8 && j != 13 && j != 18 && j != 23
    ensures 0 <= k < 16 && (j == Offset(k) || j == Offset(k) + 1)
  {
    var start := if j < 8 then 0 else if j < 13 then 9 else if j < 18 then 14 else if j < 23 then 19 else 24;
    var first := if j < 8 then 0 else if j < 13 then 4 else if j < 18 then 6 else if j < 23 then 8 else 10;
    k := first + (j - start) / 2;
  }

  /** A laid-out string has the shape xxxxxxxx-xxxx-xxxx-xxxx-xxxxxxxxxxxx. */
  lemma LaidPattern(s: string, u: UUID)
    requires Laid(s, u)
    ensures forall j :: 0 <= j < 36 ==> if j == 8 || j == 13 || j == 18 || j == 23 then s[j] == '-' else s[j] in HexTable
  {
    forall j | 0 <= j < 36 && j != 8 && j != 13 && j != 18 && j != 23
      ensures s[j] in HexTable
    {
      var k := DigitPosition(j);
    }
  }

  /** The shape xxxxxxxx-xxxx-xxxx-xxxx-xxxxxxxxxxxx: dashes at 8, 13, 18 and 23, lower-case hexadecimal
      digits everywhere else. */
  lemma CanonicalPattern(u: UUID)
    ensures |Canonical(u)| == 36
    ensures forall j :: 0 <= j < 36 ==>
              if j == 8 || j == 13 || j == 18 || j == 23 then Canonical(u)[j] == '-' else Canonical(u)[j] in HexTable
  {
    CanonicalLayout(u);
    LaidPattern(Canonical(u), u);
  }

  /** The version nibble shows as the digit at index 14, and the variant bits 10 as one of 8, 9, a, b at 19. */
  lemma VersionDigits(u: UUID, version: int)
    requires 0 <= version < 16 && Hi(u[6]) == version && u[8] / 0x40 == 2
    ensures Canonical(u)[14] == HexDigit(version) && Canonical(u)[19] in "89ab"
  {
    var s := Canonical(u);
    CanonicalLayout(u);
    assert Offset(6) == 14 && Offset(8) == 19;
    assert s[14] == HexDigit(Hi(u[6])) && s[19] == HexDigit(Hi(u[8]));
    assert 8 <= Hi(u[8]) <= 11;
  }

  /** The value of a hexadecimal digit. */
  function HexValue(c: char): int
  {
    if '0' <= c <= '9' then c as int - '0' as int else c as int - 'a' as int + 10
  }

  /** Reading a digit back gives the nibble: the table holds sixteen different digits. */
  lemma HexDigitValue(n: int)
    requires 0 <= n < 16
    ensures HexValue(HexDigit(n)) == n
  {
  }

  /** The two digits of a byte determine it. */
  lemma DigitsDetermineByte(a: byte, b: byte)
    requires HexDigit(Hi(a)) == HexDigit(Hi(b)) && HexDigit(Lo(a)) == HexDigit(Lo(b))
    ensures a == b
  {
    HexDigitValue(Hi(a));
    HexDigitValue(Hi(b));
    HexDigitValue(Lo(a));
    HexDigitValue(Lo(b));
  }

  /** Different UUIDs have different canonical forms: the string is a lossless rendering. */
  lemma CanonicalInjective(u: UUID, v: UUID)
    requires Canonical(u) == Canonical(v)
    ensures u == v
  {
    CanonicalLayout(u);
    CanonicalLayout(v);
    forall k | 0 <= k < 16 ensures u[k] == v[k] {
      DigitsDetermineByte(u[k], v[k]);
    }
  }

  /** hex.Encode into `dst[at..]`: the digits of `src` land there and nothing else changes. */
  method HexEncode(dst: array<char>, at: nat, src: seq<byte>)
    requires at + 2 * |src| <= dst.Length
    modifies dst
    ensures forall j :: 0 <= j < dst.Length ==>
              dst[j] == if at <= j < at + 2 * |src| then Hex(src)[j - at] else old(dst[j])
  {
    for i := 0 to |src|
      invariant forall j :: 0 <= j < dst.Length ==>
                  dst[j] == if at <= j < at + 2 * i then Hex(src)[j - at] else old(dst[j])
    {
      dst[at + 2 * i] := HexDigit(Hi(src[i]));
      dst[at + 2 * i + 1] := HexDigit(Lo(src[i]));
    }
  }

  /** UUID.String */
  method String(u: UUID) returns (s: string)
    ensures s == Canonical(u)
  {
    var buf := new char[36];
    HexEncode(buf, 0, u[0..4]);
    buf[8] := '-';
    HexEncode(buf, 9, u[4..6]);
    buf[13] := '-';
    HexEncode(buf, 14, u[6..8]);
    buf[18] := '-';
    HexEncode(buf, 19, u[8..10]);
    buf[23] := '-';
    HexEncode(buf, 24, u[10..16]);
    s := buf[..];
    assert s[0..8] == Hex(u[0..4]);
    assert s[9..13] == Hex(u[4..6]);
    assert s[14..18] == Hex(u[6..8]);
    assert s[19..23] == Hex(u[8..10]);
    assert s[24..36] == Hex(u[10..16]);
    GroupedIsCanonical(s, u);
  }

  // ---------------------------------------------------------------------------------------------
  // Version 4

  /** The version and variant bits of section 4 of RFC 9562 stamped onto random bytes: byte 6's high nibble
      is 4 and byte 8's top two bits are 10; all other bits are the random input's. */
  predicate IsV4Of(u: UUID, random: seq<byte>)
    requires |random| == 16
  {
    Hi(u[6]) == 4 && Lo(u[6]) == Lo(random[6]) &&
    u[8] / 0x40 == 2 && u[8] % 0x40 == random[8] % 0x40 &&
    forall k :: 0 <= k < 16 && k != 6 && k != 8 ==> u[k] == random[k]
  }

  /** The bytes NewUUIDv4 returns for the random input. */
  function StampV4(random: UUID): (u: UUID)
  {
    random[6 := random[6] % 0x10 + 0x40][8 := random[8] % 0x40 + 0x80]
  }

  /** StampV4 is exactly the stamping IsV4Of describes: it produces such a UUID, and no other UUID is one. */
  lemma StampV4Characterized(random: UUID, u: UUID)
    ensures IsV4Of(StampV4(random), random)
    ensures IsV4Of(u, random) ==> u == StampV4(random)
  {
    var v := StampV4(random);
    if IsV4Of(u, random) {
      assert u[6] == v[6];
      assert u[8] == v[8];
      forall k | 0 <= k < 16 ensures u[k] == v[k] {
      }
    }
  }

  /** The canonical form of a v4 UUID shows version digit '4' at index 14 and one of 8, 9, a, b at 19. */
  lemma V4String(random: UUID)
    ensures Canonical(StampV4(random))[14] == '4'
    ensures Canonical(StampV4(random))[19] in "89ab"
  {
    var u := StampV4(random);
    assert Hi(u[6]) == 4 && u[8] / 0x40 == 2;
    VersionDigits(u, 4);
  }

  /** NewUUIDv4: fill 16 bytes from the random source, then overwrite bytes 6 and 8. */
  method NewUUIDv4(entropy: Entropy) returns (r: Result<UUID, UuidError>)
    requires Fills(entropy, 16)
    ensures entropy.ReadFailed? ==> r == Failure(RandomReadFailed)
    ensures entropy.Bytes? ==> r.Success? && IsV4Of(r.value, entropy.bytes)
  {
    if entropy.ReadFailed? {
      return Failure(RandomReadFailed);
    }
    var random := entropy.bytes;
    var uuid := new byte[16](k requires 0 <= k < 16 => random[k]);
    uuid[6] := uuid[6] % 0x10 + 0x40;
    uuid[8] := uuid[8] % 0x40 + 0x80;
    r := Success(uuid[..]);
    StampV4Characterized(random, uuid[..]);
    assert uuid[..] == StampV4(random);
  }

  /** GenerateUUIDv4: NewUUIDv4 rendered as a string. */
  method GenerateUUIDv4(entropy: Entropy) returns (r: Result<string, UuidError>)
    requires Fills(entropy, 16)
    ensures entropy.ReadFailed? ==> r == Failure(RandomReadFailed)
    ensures entropy.Bytes? ==> r == Success(Canonical(StampV4(entropy.bytes)))
  {
    var uuid := NewUUIDv4(entropy);
    if uuid.Failure? {
      return Failure(uuid.error);
    }
    StampV4Characterized(entropy.bytes, uuid.value);
    var s := String(uuid.value);
    return Success(s);
  }

  /** The strings of the first n of a run of successful v4 generations. */
  function V4Strings(es: seq<Entropy>, n: nat): (r: seq<string>)
    requires n <= |es| && AllFill(es, 16) && FirstFailed(es, n) == n
    ensures |r| == n
  {
    seq(n, i requires 0 <= i < n => Canonical(StampV4(es[i].bytes)))
  }

  /** GenerateUUIDv4Batch: refuses a non-positive count, and stops at the first failed read, reporting its
      index. */
  method GenerateUUIDv4Batch(count: int, entropy: seq<Entropy>) returns (r: Result<seq<string>, UuidError>)
    requires count <= |entropy|
    requires AllFill(entropy, 16)
    ensures count <= 0 ==> r == Failure(CountNotPositive)
    ensures count > 0 && FirstFailed(entropy, count) < count ==>
              r == Failure(ItemFailed(FirstFailed(entropy, count), RandomReadFailed))
    ensures count > 0 && FirstFailed(entropy, count) == count ==>
              r == Success(V4Strings(entropy, count))
  {
    if count <= 0 {
      return Failure(CountNotPositive);
    }
    var uuids := new string[count];
    for i := 0 to count
      invariant forall j :: 0 <= j < i ==> entropy[j].Bytes? && uuids[j] == Canonical(StampV4(entropy[j].bytes))
    {
      var uuid := GenerateUUIDv4(entropy[i]);
      if uuid.Failure? {
        return Failure(ItemFailed(i, uuid.error));
      }
      uuids[i] := uuid.value;
    }
    assert uuids[..] == V4Strings(entropy, count);
    r := Success(uuids[..]);
  }

  // ---------------------------------------------------------------------------------------------
  // Big-endian integers

  function Pow256(n: nat): (p: nat)
    ensures p > 0
  {
    if n == 0 then 1 else 256 * Pow256(n - 1)
  }

  /** The big-endian bytes of the low n bytes of x, most significant first (binary.BigEndian.PutUint64 for
      n = 8). */
  function ToBigEndian(x: nat, n: nat): (r: seq<byte>)
    ensures |r| == n
  {
    if n == 0 then [] else ToBigEndian(x / 256, n - 1) + [x % 256]
  }

  /** The number big-endian bytes denote (binary.BigEndian.Uint64 on eight bytes). */
  function FromBigEndian(s: seq<byte>): (x: nat)
    ensures x < Pow256(|s|)
  {
    if s == [] then 0 else FromBigEndian(s[..|s| - 1]) * 256 + s[|s| - 1]
  }

  /** Reading back the bytes written gives the number written, when it fits. */
  lemma {:induction false} BigEndianRoundTrip(x: nat, n: nat)
    requires x < Pow256(n)
    ensures FromBigEndian(ToBigEndian(x, n)) == x
  {
    if n > 0 {
      var s := ToBigEndian(x, n);
      assert x / 256 < Pow256(n - 1);
      BigEndianRoundTrip(x / 256, n - 1);
      assert s[..n - 1] == ToBigEndian(x / 256, n - 1);
    }
  }

  /** Leading zero bytes do not change the value. */
  lemma {:induction false} LeadingZeros(s: seq<byte>)
    ensures FromBigEndian([0, 0] + s) == FromBigEndian(s)
    decreases |s|
  {
    if s != [] {
      assert ([0, 0] + s)[..|[0, 0] + s| - 1] == [0, 0] + s[..|s| - 1];
      LeadingZeros(s[..|s| - 1]);
    } else {
      assert [0, 0][..1] == [0];
      assert [0 as byte][..0] == [];
    }
  }

  /** Two more bytes shift the value by 16 bits. */
  lemma AppendTwoBytes(s: seq<byte>, x: byte, y: byte)
    ensures FromBigEndian(s + [x, y]) == FromBigEndian(s) * 0x1_0000 + x * 0x100 + y
  {
    assert (s + [x, y])[..|s| + 1] == s + [x];
    assert (s + [x])[..|s|] == s;
  }

  /** Writing x shifted left by two bytes writes x followed by two zero bytes. */
  lemma ShiftedBigEndian(x: nat)
    ensures ToBigEndian(x * 0x1_0000, 8) == ToBigEndian(x, 6) + [0, 0]
  {
    assert ToBigEndian(x * 0x1_0000, 8) == ToBigEndian(x * 0x100, 7) + [0];
    assert ToBigEndian(x * 0x100, 7) == ToBigEndian(x, 6) + [0];
  }

  /** binary.BigEndian.PutUint64(dst[0:8], x) */
  method PutUint64(dst: array<byte>, x: nat)
    requires 8 <= dst.Length
    modifies dst
    ensures dst[..8] == ToBigEndian(x, 8)
    ensures dst[8..] == old(dst[8..])
  {
    var be := ToBigEndian(x, 8);
    for k := 0 to 8
      invariant dst[..k] == be[..k]
      invariant dst[8..] == old(dst[8..])
    {
      dst[k] := be[k];
    }
  }

  /** copy(dst[at:], src) where src fits: the bytes land there and the rest of dst is kept. */
  method CopyInto(dst: array<byte>, at: nat, src: seq<byte>)
    requires at + |src| <= dst.Length
    modifies dst
    ensures dst[..at] == old(dst[..at])
    ensures dst[at..at + |src|] == src
    ensures dst[at + |src|..] == old(dst[at + |src|..])
  {
    for k := 0 to |src|
      invariant dst[..at] == old(dst[..at])
      invariant dst[at..at + k] == src[..k]
      invariant dst[at + |src|..] == old(dst[at + |src|..])
    {
      dst[at + k] := src[k];
    }
  }

  // ---------------------------------------------------------------------------------------------
  // Version 7

  const TimestampSpan48 := 0x1_0000_0000_0000

  /** `uint64(now) << 16`: the two's-complement bits of now, shifted, truncated to 64 bits. */
  function Shl16(now: int64): nat
  {
    ((now % WordSpan) * 0x1_0000) % WordSpan
  }

  /** The shift keeps exactly the low 48 bits of the millisecond count. */
  lemma Shl16Low48(now: int64)
    ensures Shl16(now) == (now % TimestampSpan48) * 0x1_0000
  {
    var a := now % WordSpan;
    var q, b := a / TimestampSpan48, a % TimestampSpan48;
    assert a * 0x1_0000 == q * WordSpan + b * 0x1_0000;
    WordModUnique(a * 0x1_0000, q, b * 0x1_0000);
    var p := now / WordSpan;
    assert now == (p * 0x1_0000 + q) * TimestampSpan48 + b;
  }

  /** Byte 6 of a v7 UUID: the version 7 over the counter's bits 8-11. */
  function VersionByte(sequence: uint16): byte
  {
    0x70 + (sequence / 0x100) % 0x10
  }

  /** Byte 7 of a v7 UUID: the counter's low eight bits. */
  function CounterLowByte(sequence: uint16): byte
  {
    sequence % 0x100
  }

  /** The v7 layout of section 5.7 of RFC 9562 as the source fills it: bytes 0-5 the big-endian low 48 bits
      of the millisecond, byte 6 the version 7 and the counter's high nibble, byte 7 the counter's low byte
      (section 6.2, method 1), byte 8 the variant 10 over six random bits, bytes 9-15 random. */
  function V7Layout(now: int64, sequence: uint16, random: seq<byte>): UUID
    requires |random| >= 8
  {
    ToBigEndian(Shl16(now), 8)[..6] + [VersionByte(sequence), CounterLowByte(sequence)] +
    [random[0] % 0x40 + 0x80] + random[1..8]
  }

  /** Sixteen bytes holding each field of V7Layout are that layout. */
  lemma V7LayoutOf(b: seq<byte>, now: int64, sequence: uint16, random: seq<byte>)
    requires |b| == 16 && |random| >= 8
    requires b[..6] == ToBigEndian(Shl16(now), 8)[..6]
    requires b[6] == VersionByte(sequence) && b[7] == CounterLowByte(sequence)
    requires b[8] == random[0] % 0x40 + 0x80 && b[9..] == random[1..8]
    ensures b == V7Layout(now, sequence, random)
  {
    assert b == b[..6] + [b[6], b[7]] + [b[8]] + b[9..];
  }

  /** Six bytes denote less than 2^48. */
  lemma Pow256Six()
    ensures Pow256(6) == TimestampSpan48
  {
  }

  /** ExtractTimestampFromUUIDv7: bytes 0-5 read as a big-endian number, always below 2^48. */
  function ExtractTimestampFromUUIDv7(u: UUID): (ts: int64)
    ensures 0 <= ts < TimestampSpan48
  {
    LeadingZeros(u[0..6]);
    Pow256Six();
    FromBigEndian([0, 0] + u[0..6])
  }

  /** The version nibble is 7, and bytes 6-7 carry the whole 12-bit counter. */
  lemma CounterBytes(sequence: uint16)
    requires sequence <= 0xFFF
    ensures Hi(VersionByte(sequence)) == 7
    ensures Lo(VersionByte(sequence)) * 0x100 + CounterLowByte(sequence) == sequence
  {
  }

  /** Bytes 0-5 of a v7 UUID are the big-endian low 48 bits of the millisecond. */
  lemma V7LayoutPrefix(now: int64, sequence: uint16, random: seq<byte>)
    requires |random| >= 8
    ensures V7Layout(now, sequence, random)[0..6] == ToBigEndian(now % TimestampSpan48, 6)
  {
    Shl16Low48(now);
    ShiftedBigEndian(now % TimestampSpan48);
  }

  /** A UUID whose bytes 0-5 are a 48-bit number written big-endian yields that number as its timestamp. */
  lemma ExtractWrittenTimestamp(u: UUID, t: nat)
    requires t < TimestampSpan48 && u[0..6] == ToBigEndian(t, 6)
    ensures ExtractTimestampFromUUIDv7(u) == t
  {
    Pow256Six();
    BigEndianRoundTrip(t, 6);
    LeadingZeros(u[0..6]);
  }

  /** The timestamp of a v7 UUID reads back as the low 48 bits of the millisecond it was made with: the
      millisecond itself when that lies in [0, 2^48). */
  lemma V7TimestampRoundTrip(now: int64, sequence: uint16, random: seq<byte>)
    requires |random| >= 8
    ensures ExtractTimestampFromUUIDv7(V7Layout(now, sequence, random)) == now % TimestampSpan48
    ensures 0 <= now < TimestampSpan48 ==> ExtractTimestampFromUUIDv7(V7Layout(now, sequence, random)) == now
  {
    V7LayoutPrefix(now, sequence, random);
    ExtractWrittenTimestamp(V7Layout(now, sequence, random), now % TimestampSpan48);
  }

  /** The other fields of a v7 UUID: the version nibble is 7, bytes 6-7 carry the 12-bit counter, byte 8
      carries the variant 10, and the remaining 62 bits are the random input's. */
  lemma V7LayoutFields(now: int64, sequence: uint16, random: seq<byte>)
    requires |random| >= 8 && sequence <= 0xFFF
    ensures var u := V7Layout(now, sequence, random);
            Hi(u[6]) == 7 && Lo(u[6]) * 0x100 + u[7] == sequence &&
            u[8] / 0x40 == 2 && u[8] % 0x40 == random[0] % 0x40 &&
            u[9..] == random[1..8]
  {
    CounterBytes(sequence);
  }

  /** The canonical form of a v7 UUID shows version digit '7' at index 14 and one of 8, 9, a, b at 19. */
  lemma V7String(now: int64, sequence: uint16, random: seq<byte>)
    requires |random| >= 8 && sequence <= 0xFFF
    ensures Canonical(V7Layout(now, sequence, random))[14] == '7'
    ensures Canonical(V7Layout(now, sequence, random))[19] in "89ab"
  {
    V7LayoutFields(now, sequence, random);
    VersionDigits(V7Layout(now, sequence, random), 7);
  }

  /** Clock readings of one v7 call: the first one, and the one taken after sleeping off a full counter. */
  datatype V7Tick = V7Tick(now: int64, later: int64)

  datatype V7State = V7State(lastTimestamp: int64, sequence: uint16)

  /** The counter update of one v7 call. */
  function V7Step(st: V7State, t: V7Tick): (r: V7State)
    ensures r.sequence <= 0xFFF
  {
    if t.now <= st.lastTimestamp then
      var sequence := (st.sequence + 1) % 0x1_0000;
      if sequence > 0xFFF then V7State(t.later, 0) else V7State(t.now, sequence)
    else V7State(t.now, 0)
  }

  /** A later millisecond restarts the counter; an equal or earlier one increments it, and a counter
      past 0xFFF restarts at 0 with the reading taken after the sleep. */
  lemma {:induction false} V7StepCases(st: V7State, t: V7Tick)
    requires st.sequence <= 0xFFF
    ensures t.now > st.lastTimestamp ==> V7Step(st, t) == V7State(t.now, 0)
    ensures t.now <= st.lastTimestamp && st.sequence < 0xFFF ==> V7Step(st, t) == V7State(t.now, st.sequence + 1)
    ensures t.now <= st.lastTimestamp && st.sequence == 0xFFF ==> V7Step(st, t) == V7State(t.later, 0)
  {
  }

  /** Strict lexicographic order on (millisecond, counter). */
  predicate V7Before(a: V7State, b: V7State)
  {
    a.lastTimestamp < b.lastTimestamp || (a.lastTimestamp == b.lastTimestamp && a.sequence < b.sequence)
  }

  /** If the clock has not gone back, and has moved on by the time a full counter is restarted, the
      (millisecond, counter) pair strictly increases. */
  lemma {:induction false} V7StepIncreases(st: V7State, t: V7Tick)
    requires st.sequence <= 0xFFF
    requires t.now >= st.lastTimestamp
    requires t.now == st.lastTimestamp && st.sequence == 0xFFF ==> t.later > st.lastTimestamp
    ensures V7Before(st, V7Step(st, t))
  {
    V7StepCases(st, t);
  }

  /** Without that assumption the state moves backwards: an earlier reading is adopted as it is, with the
      counter merely incremented. */
  lemma V7RegressionMovesBack()
    ensures var st := V7State(1000, 5);
            var t := V7Tick(900, 900);
            V7Step(st, t) == V7State(900, 6) && V7Before(V7Step(st, t), st)
  {
  }

  /** The writes Generate makes after the random read: version and counter into bytes 6-7, the random
      bytes from 8 on, then the variant into byte 8. */
  method FillV7(uuid: array<byte>, now: int64, sequence: uint16, random: seq<byte>)
    requires uuid.Length == 16 && |random| >= 8
    requires uuid[..8] == ToBigEndian(Shl16(now), 8)
    modifies uuid
    ensures uuid[..] == V7Layout(now, sequence, random)
  {
    uuid[6] := VersionByte(sequence);
    uuid[7] := CounterLowByte(sequence);
    CopyInto(uuid, 8, random[0..8]);
    uuid[8] := uuid[8] % 0x40 + 0x80;
    V7LayoutOf(uuid[..], now, sequence, random);
  }

  /** Bytes 0-7 of a v7 UUID: the low 48 bits of the millisecond, then the version and the counter. */
  lemma V7LayoutHead(now: int64, sequence: uint16, random: seq<byte>)
    requires |random| >= 8
    ensures V7Layout(now, sequence, random)[..8] ==
            ToBigEndian(now % TimestampSpan48, 6) + [VersionByte(sequence), CounterLowByte(sequence)]
  {
    V7LayoutPrefix(now, sequence, random);
  }

  /** A 48-bit big-endian number followed by VersionByte and CounterLowByte of a counter. */
  lemma PrefixValue(t: nat, sequence: uint16)
    requires t < TimestampSpan48 && sequence <= 0xFFF
    ensures FromBigEndian(ToBigEndian(t, 6) + [VersionByte(sequence), CounterLowByte(sequence)])
         == t * 0x1_0000 + 0x7000 + sequence
  {
    AppendTwoBytes(ToBigEndian(t, 6), VersionByte(sequence), CounterLowByte(sequence));
    Pow256Six();
    BigEndianRoundTrip(t, 6);
  }

  /** Read big-endian, the first eight bytes of a v7 UUID are the millisecond, then the version, then the
      counter. */
  lemma V7PrefixValue(now: int64, sequence: uint16, random: seq<byte>)
    requires |random| >= 8 && sequence <= 0xFFF && 0 <= now < TimestampSpan48
    ensures FromBigEndian(V7Layout(now, sequence, random)[..8]) == now * 0x1_0000 + 0x7000 + sequence
  {
    V7LayoutHead(now, sequence, random);
    assert now % TimestampSpan48 == now;
    PrefixValue(now, sequence);
  }

  /** v7 UUIDs are time-ordered: a later (millisecond, counter) pair gives a larger 64-bit prefix, so the
      UUIDs sort by creation as bytes. */
  lemma V7Ordered(a: V7State, b: V7State, ra: seq<byte>, rb: seq<byte>)
    requires |ra| >= 8 && |rb| >= 8 && a.sequence <= 0xFFF && b.sequence <= 0xFFF
    requires 0 <= a.lastTimestamp < TimestampSpan48 && 0 <= b.lastTimestamp < TimestampSpan48
    requires V7Before(a, b)
    ensures FromBigEndian(V7Layout(a.lastTimestamp, a.sequence, ra)[..8]) <
            FromBigEndian(V7Layout(b.lastTimestamp, b.sequence, rb)[..8])
  {
    V7PrefixValue(a.lastTimestamp, a.sequence, ra);
    V7PrefixValue(b.lastTimestamp, b.sequence, rb);
  }

  /** The generator state behind NewUUIDv7. */
  class UUIDv7Generator {
    var lastTimestamp: int64
    var sequence: uint16

    function State(): V7State
      reads this
    {
      V7State(lastTimestamp, sequence)
    }

    /** The zero value, as the package-level instance starts. */
    constructor ()
      ensures State() == V7State(0, 0)
    {
      lastTimestamp := 0;
      sequence := 0;
    }

    /** UUIDv7Generator.Generate. The counter is updated before the random read, so a failed read still
        uses up its counter value. */
    method Generate(tick: V7Tick, entropy: Entropy) returns (r: Result<UUID, UuidError>)
      requires Fills(entropy, 10)
      modifies this
      ensures State() == V7Step(old(State()), tick)
      ensures entropy.ReadFailed? ==> r == Failure(RandomReadFailed)
      ensures entropy.Bytes? ==> r == Success(V7Layout(lastTimestamp, sequence, entropy.bytes))
    {
      var now := tick.now;
      if now <= lastTimestamp {
        sequence := (sequence + 1) % 0x1_0000;
        if sequence > 0xFFF {
          now := tick.later;
          sequence := 0;
        }
      } else {
        sequence := 0;
      }
      lastTimestamp := now;

      var uuid := new byte[16](_ => 0);
      PutUint64(uuid, Shl16(now));

      if entropy.ReadFailed? {
        return Failure(RandomReadFailed);
      }
      var randomBytes := entropy.bytes;

      FillV7(uuid, now, sequence, randomBytes);
      return Success(uuid[..]);
    }
  }

  /** GenerateUUIDv7: one v7 UUID from the package-level generator `g`, rendered as a string. */
  method GenerateUUIDv7(g: UUIDv7Generator, tick: V7Tick, entropy: Entropy) returns (r: Result<string, UuidError>)
    requires Fills(entropy, 10)
    modifies g
    ensures g.State() == V7Step(old(g.State()), tick)
    ensures entropy.ReadFailed? ==> r == Failure(RandomReadFailed)
    ensures entropy.Bytes? ==> r == Success(Canonical(V7Layout(g.lastTimestamp, g.sequence, entropy.bytes)))
  {
    var uuid := g.Generate(tick, entropy);
    if uuid.Failure? {
      return Failure(uuid.error);
    }
    var s := String(uuid.value);
    return Success(s);
  }

  /** The generator state after a sequence of v7 calls. */
  function V7Run(st: V7State, ticks: seq<V7Tick>): V7State
  {
    if ticks == [] then st else V7Step(V7Run(st, ticks[..|ticks| - 1]), ticks[|ticks| - 1])
  }

  /** The strings of the first n of a run of successful v7 calls. */
  function V7Strings(st: V7State, ticks: seq<V7Tick>, es: seq<Entropy>, n: nat): (r: seq<string>)
    requires n <= |ticks| && n <= |es| && AllFill(es, 10) && FirstFailed(es, n) == n
    ensures |r| == n
  {
    if n == 0 then []
    else
      var after := V7Run(st, ticks[..n]);
      V7Strings(st, ticks, es, n - 1) + [Canonical(V7Layout(after.lastTimestamp, after.sequence, es[n - 1].bytes))]
  }

  /** The state after one more call is that call's step from the state before it. */
  lemma V7RunStep(st: V7State, ticks: seq<V7Tick>, i: nat)
    requires i < |ticks|
    ensures V7Run(st, ticks[..i + 1]) == V7Step(V7Run(st, ticks[..i]), ticks[i])
  {
    assert ticks[..i + 1][..i] == ticks[..i];
  }

  /** One more successful call appends its string, made from the state that call leaves. */
  lemma V7StringsStep(st: V7State, ticks: seq<V7Tick>, es: seq<Entropy>, i: nat)
    requires i < |ticks| && i < |es| && AllFill(es, 10) && FirstFailed(es, i + 1) == i + 1
    ensures var after := V7Run(st, ticks[..i + 1]);
            V7Strings(st, ticks, es, i + 1) ==
            V7Strings(st, ticks, es, i) + [Canonical(V7Layout(after.lastTimestamp, after.sequence, es[i].bytes))]
  {
  }

  /** GenerateUUIDv7Batch: refuses a non-positive count, and stops at the first failed read, reporting its
      index; the calls made up to and including that one have advanced the generator. */
  method GenerateUUIDv7Batch(g: UUIDv7Generator, count: int, ticks: seq<V7Tick>, entropy: seq<Entropy>)
    returns (r: Result<seq<string>, UuidError>)
    requires count <= |ticks| && count <= |entropy|
    requires AllFill(entropy, 10)
    modifies g
    ensures count <= 0 ==> r == Failure(CountNotPositive) && g.State() == old(g.State())
    ensures count > 0 && FirstFailed(entropy, count) < count ==>
              var f := FirstFailed(entropy, count);
              r == Failure(ItemFailed(f, RandomReadFailed)) && g.State() == V7Run(old(g.State()), ticks[..f + 1])
    ensures count > 0 && FirstFailed(entropy, count) == count ==>
              r == Success(V7Strings(old(g.State()), ticks, entropy, count)) &&
              g.State() == V7Run(old(g.State()), ticks[..count])
  {
    if count <= 0 {
      return Failure(CountNotPositive);
    }
    ghost var st0 := g.State();
    var uuids := new string[count];
    for i := 0 to count
      invariant FirstFailed(entropy, i) == i
      invariant g.State() == V7Run(st0, ticks[..i])
      invariant uuids[..i] == V7Strings(st0, ticks, entropy, i)
    {
      V7RunStep(st0, ticks, i);
      var uuid := GenerateUUIDv7(g, ticks[i], entropy[i]);
      if uuid.Failure? {
        FirstFailedAt(entropy, count, i);
        return Failure(ItemFailed(i, uuid.error));
      }
      V7StringsStep(st0, ticks, entropy, i);
      uuids[i] := uuid.value;
      assert uuids[..i + 1] == uuids[..i] + [uuid.value];
    }
    r := Success(uuids[..]);
    assert uuids[..] == uuids[..count];
  }
}
