/** Targets, difficulties and the bytes miners see (consensus/src/lib.rs, stratum/src/lib.rs,
    stratum/src/rpc.rs). */
module PowTarget {
  import opened Basics
  import opened Difficulty

  const TWO_128: nat := 0x1_0000_0000_0000_0000_0000_0000_0000_0000
  const TWO_192: nat := 0x1_0000_0000_0000_0000_0000_0000_0000_0000_0000_0000_0000_0000

  function TargetToDifficulty(target: nat): nat
    requires target > 0
  {
    U256_MAX / target
  }

  function DifficultyToTarget(difficulty: nat): nat
    requires difficulty > 0
  {
    U256_MAX / difficulty
  }

  // ---------- the two conversions ----------

  lemma AtMostQuotient(m: nat, a: nat, b: nat)
    requires b > 0
    ensures a <= m / b <==> a * b <= m
  {
    DivBounds(m, b);
    if a <= m / b {
      MulMonotone(a, m / b, b);
    } else {
      MulMonotone(m / b + 1, a, b);
    }
  }

  /** The conversions form an antitone Galois connection. */
  lemma GaloisConnection(target: nat, difficulty: nat)
    requires target > 0 && difficulty > 0
    ensures difficulty <= TargetToDifficulty(target) <==> target <= DifficultyToTarget(difficulty)
  {
    AtMostQuotient(U256_MAX, difficulty, target);
    AtMostQuotient(U256_MAX, target, difficulty);
    assert difficulty * target == target * difficulty;
  }

  lemma QuotientIsPositive(x: nat)
    requires 0 < x <= U256_MAX
    ensures 0 < U256_MAX / x <= U256_MAX
  {
    AtMostQuotient(U256_MAX, 1, x);
    MulMonotone(1, x, U256_MAX / x);
    DivBounds(U256_MAX, x);
  }

  /** Converting a target that came from a difficulty there and back gives it again. */
  lemma ReachableTargetRoundTrip(difficulty: U256)
    requires difficulty > 0
    ensures var t := DifficultyToTarget(difficulty);
      && 0 < t <= U256_MAX && 0 < TargetToDifficulty(t)
      && DifficultyToTarget(TargetToDifficulty(t)) == t
  {
    var t := DifficultyToTarget(difficulty);
    QuotientIsPositive(difficulty);
    QuotientIsPositive(t);
    var d := TargetToDifficulty(t);
    GaloisConnection(t, d);           // t <= M / d
    GaloisConnection(t, difficulty);  // difficulty <= d
    if DifficultyToTarget(d) > t {
      GaloisConnection(t + 1, d);
      AtMostQuotient(U256_MAX, t + 1, d);
      MulMonotone(difficulty, d, t + 1);
      AtMostQuotient(U256_MAX, t + 1, difficulty);
      assert false;
    }
  }

  /** The round trip from a difficulty is exact precisely when the next larger difficulty has a
      smaller target. */
  lemma DifficultyRoundTripIff(difficulty: U256)
    requires 0 < difficulty
    ensures 0 < DifficultyToTarget(difficulty)
    ensures TargetToDifficulty(DifficultyToTarget(difficulty)) == difficulty
       <==> DifficultyToTarget(difficulty + 1) < DifficultyToTarget(difficulty)
  {
    var t := DifficultyToTarget(difficulty);
    QuotientIsPositive(difficulty);
    GaloisConnection(t, difficulty);
    GaloisConnection(t, difficulty + 1);
  }

  /** Every difficulty below 2^128 survives the round trip. */
  lemma SmallDifficultyRoundTrip(difficulty: nat)
    requires 0 < difficulty < TWO_128
    ensures 0 < DifficultyToTarget(difficulty)
    ensures TargetToDifficulty(DifficultyToTarget(difficulty)) == difficulty
  {
    var t := DifficultyToTarget(difficulty);
    MulMonotone(difficulty, TWO_128 - 1, difficulty);
    MulMonotone(difficulty, TWO_128 - 1, TWO_128 - 1);
    assert (TWO_128 - 1) * (TWO_128 - 1) <= U256_MAX;
    AtMostQuotient(U256_MAX, difficulty, difficulty);  // difficulty <= t
    DivBounds(U256_MAX, difficulty);
    assert t * difficulty == difficulty * t;
    assert t * (difficulty + 1) == t * difficulty + t;
    DivUnique(U256_MAX, t, difficulty);
  }

  /** The bound is sharp: 2^128 itself comes back as 2^128 + 1. */
  lemma LargeDifficultyRoundTripFails()
    ensures DifficultyToTarget(TWO_128) == TWO_128 - 1
    ensures TargetToDifficulty(TWO_128 - 1) == TWO_128 + 1
  {
    DivUnique(U256_MAX, TWO_128, TWO_128 - 1);
    DivUnique(U256_MAX, TWO_128 - 1, TWO_128 + 1);
  }

  // ---------- bytes and hex digits ----------

  type Byte = x: nat | x < 256
  type Nibble = x: nat | x < 16

  function HexDigit(d: Nibble): (c: char)
    ensures HexValue(c) == Some(d)
  {
    if d < 10 then '0' + d as char else 'a' + (d - 10) as char
  }

  function HexValue(c: char): Option<Nibble> {
    if '0' <= c <= '9' then Some((c - '0') as nat)
    else if 'a' <= c <= 'f' then Some((c - 'a') as nat + 10)
    else if 'A' <= c <= 'F' then Some((c - 'A') as nat + 10)
    else None
  }

  predicate IsHex(s: string) {
    forall i :: 0 <= i < |s| ==> HexValue(s[i]).Some?
  }

  /** The number a string of hex digits denotes. */
  function HexNumber(s: string): nat
    requires IsHex(s)
  {
    if s == "" then 0 else 16 * HexNumber(s[..|s| - 1]) + HexValue(s[|s| - 1]).value
  }

  function EncodeHex(bytes: seq<Byte>): string {
    if bytes == [] then ""
    else
      var b := bytes[|bytes| - 1];
      EncodeHex(bytes[..|bytes| - 1]) + [HexDigit(b / 16), HexDigit(b % 16)]
  }

  /** `hex::decode`: an even number of hex digits, two to a byte. */
  function DecodeHex(s: string): Option<seq<Byte>> {
    if s == "" then Some([])
    else if |s| == 1 then None
    else
      var hi, lo, init := HexValue(s[|s| - 2]), HexValue(s[|s| - 1]), DecodeHex(s[..|s| - 2]);
      if hi.Some? && lo.Some? && init.Some? then Some(init.value + [hi.value * 16 + lo.value]) else None
  }

  function BigEndian(bytes: seq<Byte>): nat {
    if bytes == [] then 0 else 256 * BigEndian(bytes[..|bytes| - 1]) + bytes[|bytes| - 1]
  }

  function LittleEndian(bytes: seq<Byte>): nat {
    if bytes == [] then 0 else bytes[0] + 256 * LittleEndian(bytes[1..])
  }

  lemma {:induction false} ReversedEndian(bytes: seq<Byte>)
    ensures LittleEndian(Reversed(bytes)) == BigEndian(bytes)
  {
    if bytes != [] {
      var init, last := bytes[..|bytes| - 1], bytes[|bytes| - 1];
      ReversedEndian(init);
      ReversedConcat(init, [last]);
      ReversedOne(last);
      assert bytes == init + [last];
      assert Reversed(bytes)[1..] == Reversed(init);
    }
  }

  lemma {:induction false} DecodeEncode(bytes: seq<Byte>)
    ensures DecodeHex(EncodeHex(bytes)) == Some(bytes) && |EncodeHex(bytes)| == 2 * |bytes|
  {
    if bytes != [] {
      var init, b := bytes[..|bytes| - 1], bytes[|bytes| - 1];
      var s := EncodeHex(bytes);
      DecodeEncode(init);
      assert s[..|s| - 2] == EncodeHex(init);
      assert s[|s| - 2] == HexDigit(b / 16) && s[|s| - 1] == HexDigit(b % 16);
      assert bytes == init + [b / 16 * 16 + b % 16];
    }
  }

  lemma LastTwoDigits(s: string)
    requires IsHex(s) && |s| >= 2
    ensures HexNumber(s) ==
            256 * HexNumber(s[..|s| - 2]) + (16 * HexValue(s[|s| - 2]).value + HexValue(s[|s| - 1]).value)
  {
    assert s[..|s| - 1][..|s| - 2] == s[..|s| - 2];
  }

  lemma BigEndianOfAppend(bytes: seq<Byte>, b: Byte)
    ensures BigEndian(bytes + [b]) == 256 * BigEndian(bytes) + b
  {
    assert (bytes + [b])[..|bytes|] == bytes;
  }

  /** Decoding an even number of hex digits succeeds, and the bytes denote the same number. */
  lemma {:induction false} DecodeIsNumber(s: string)
    requires IsHex(s) && |s| % 2 == 0
    ensures DecodeHex(s).Some? && |DecodeHex(s).value| == |s| / 2
    ensures BigEndian(DecodeHex(s).value) == HexNumber(s)
  {
    if s != "" {
      DecodeIsNumber(s[..|s| - 2]);
      LastTwoDigits(s);
      BigEndianOfAppend(DecodeHex(s[..|s| - 2]).value, HexValue(s[|s| - 2]).value * 16 + HexValue(s[|s| - 1]).value);
    }
  }

  /** Decoding succeeds exactly for an even number of hex digits. */
  lemma {:induction false} DecodesIff(s: string)
    ensures DecodeHex(s).Some? <==> IsHex(s) && |s| % 2 == 0
  {
    if |s| >= 2 {
      DecodesIff(s[..|s| - 2]);
      if IsHex(s[..|s| - 2]) && HexValue(s[|s| - 2]).Some? && HexValue(s[|s| - 1]).Some? {
        assert s == s[..|s| - 2] + [s[|s| - 2], s[|s| - 1]];
      }
    }
  }

  /** The digits of `n` without leading zeros, but at least one digit: Rust's `{:x}`. */
  function FormatHex(n: nat): (s: string)
    ensures IsHex(s) && |s| > 0
  {
    if n < 16 then [HexDigit(n)] else FormatHex(n / 16) + [HexDigit(n % 16)]
  }

  function Pow16(k: nat): nat {
    if k == 0 then 1 else 16 * Pow16(k - 1)
  }

  lemma {:induction false} FormatIsNumber(n: nat, k: nat)
    requires k > 0 && n < Pow16(k)
    ensures HexNumber(FormatHex(n)) == n && |FormatHex(n)| <= k
  {
    var s := FormatHex(n);
    if n < 16 {
      assert s[..0] == "";
    } else {
      FormatIsNumber(n / 16, k - 1);
      assert s[..|s| - 1] == FormatHex(n / 16);
    }
  }

  lemma {:induction false} ZerosKeepNumber(zeros: nat, s: string)
    requires IsHex(s)
    ensures var z := seq(zeros, _ => '0') + s;
      IsHex(z) && HexNumber(z) == HexNumber(s)
    decreases zeros, |s|
  {
    var z := seq(zeros, _ => '0') + s;
    if s != "" {
      ZerosKeepNumber(zeros, s[..|s| - 1]);
      assert z[..|z| - 1] == seq(zeros, _ => '0') + s[..|s| - 1];
    } else if zeros > 0 {
      ZerosKeepNumber(zeros - 1, "");
      assert z[..|z| - 1] == seq(zeros - 1, _ => '0') + "";
    }
  }

  // ---------- the Stratum target ----------

  method ReverseInPlace(t: array<Byte>)
    modifies t
    ensures t[..] == Reversed(old(t[..]))
  {
    var n := t.Length;
    for i := 0 to n / 2
      invariant forall k :: 0 <= k < i ==> t[k] == old(t[n - 1 - k]) && t[n - 1 - k] == old(t[k])
      invariant forall k :: i <= k < n - i ==> t[k] == old(t[k])
    {
      t[i], t[n - 1 - i] := t[n - 1 - i], t[i];
    }
    ReversedAt(old(t[..]));
    assert t[..] == Reversed(old(t[..]));
  }

  /** The top 64 bits of a target are the 64-bit quotient the Stratum server computes. */
  lemma TopBits(difficulty: nat)
    requires difficulty > 0
    ensures DifficultyToTarget(difficulty) / TWO_192 == U64_MAX / difficulty
  {
    var q := U64_MAX / difficulty;
    DivBounds(U64_MAX, difficulty);
    AtMostQuotient(U256_MAX, q * TWO_192, difficulty);
    assert q * TWO_192 * difficulty == (difficulty * q) * TWO_192;
    MulMonotone(difficulty * q, U64_MAX, TWO_192);
    AtMostQuotient(U256_MAX, (q + 1) * TWO_192, difficulty);
    assert (q + 1) * TWO_192 * difficulty == (difficulty * q + difficulty) * TWO_192;
    MulMonotone(U64_MAX + 1, difficulty * q + difficulty, TWO_192);
    assert (U64_MAX + 1) * TWO_192 == U256_MAX + 1;
    DivUnique(DifficultyToTarget(difficulty), TWO_192, q);
  }

  /** The target string sent to miners: sixteen hex digits whose bytes, read little-endian, are the
      top 64 bits of the consensus target. */
  method DifficultyToTargetHex(difficulty: U256) returns (s: string)
    requires difficulty > 0
    ensures |s| == 16 && DecodeHex(s).Some? && |DecodeHex(s).value| == 8
    ensures LittleEndian(DecodeHex(s).value) == DifficultyToTarget(difficulty) / TWO_192
  {
    TopBits(difficulty);
    var quotient := U64_MAX / difficulty;
    assert quotient <= U64_MAX by { DivBounds(U64_MAX, difficulty); MulMonotone(1, difficulty, quotient); }
    var target := FormatHex(quotient);
    assert U64_MAX < Pow16(16) by { Pow16Of16(); }
    FormatIsNumber(quotient, 16);
    var padded := seq(16 - |target|, _ => '0') + target;
    ZerosKeepNumber(16 - |target|, target);
    DecodeIsNumber(padded);
    var bytes := DecodeHex(padded).value;
    var t := new Byte[|bytes|](i requires 0 <= i < |bytes| => bytes[i]);
    assert t[..] == bytes;
    ReverseInPlace(t);
    ReversedEndian(bytes);
    s := EncodeHex(t[..]);
    DecodeEncode(t[..]);
  }

  lemma Pow16Of16()
    ensures Pow16(16) == U64_MAX + 1
  {
    assert Pow16(4) == 0x1_0000;
    assert Pow16(8) == 0x1_0000_0000;
    assert Pow16(12) == 0x1_0000_0000_0000;
  }

  // ---------- the submitted nonce ----------

  const U32_MAX: nat := 0xFFFF_FFFF

  datatype ParseError = EmptyInput | InvalidDigit | Overflow

  /** Digits of a 32-bit number: the first bad digit or the first overflow ends the parse. */
  function ParseDigits(s: string): (r: Result<nat, ParseError>)
    ensures r.Ok? ==> r.value <= U32_MAX
  {
    if s == "" then Ok(0)
    else
      var init, d := ParseDigits(s[..|s| - 1]), HexValue(s[|s| - 1]);
      if init.Err? then init
      else if d.None? then Err(InvalidDigit)
      else if 16 * init.value + d.value > U32_MAX then Err(Overflow)
      else Ok(16 * init.value + d.value)
  }

  /** `u32::from_str_radix(s, 16)`: an optional plus sign and at least one digit. */
  function ParseHexU32(s: string): (r: Result<nat, ParseError>)
    ensures r.Ok? ==> r.value <= U32_MAX
  {
    if s == "" then Err(EmptyInput)
    else if s == "+" || s == "-" then Err(InvalidDigit)
    else if s[0] == '+' then ParseDigits(s[1..])
    else ParseDigits(s)
  }

  function ToBytes(n: nat, width: nat): (b: seq<Byte>)
    ensures |b| == width
    ensures n < Pow256(width) ==> LittleEndian(b) == n
  {
    if width == 0 then [] else [n % 256] + ToBytes(n / 256, width - 1)
  }

  /** The four bytes of a 32-bit number, least significant first. */
  function LittleEndianBytes(n: nat): (b: seq<Byte>)
    requires n <= U32_MAX
    ensures |b| == 4 && LittleEndian(b) == n
  {
    assert Pow256(2) == 0x1_0000;
    assert Pow256(4) == 0x1_0000_0000;
    ToBytes(n, 4)
  }

  lemma {:induction false} BigEndianIsSmall(b: seq<Byte>)
    requires |b| <= 4
    ensures BigEndian(b) <= U32_MAX
    ensures |b| == 1 ==> BigEndian(b) < 0x100
    ensures |b| == 2 ==> BigEndian(b) < 0x1_0000
    ensures |b| == 3 ==> BigEndian(b) < 0x100_0000
  {
    if |b| > 0 {
      BigEndianIsSmall(b[..|b| - 1]);
    }
  }

  /** The nonce of a share: its hex number with the bytes in the opposite order. */
  method NonceOfShare(share: string) returns (r: Result<nat, ParseError>)
    ensures match ParseHexU32(share)
      case Err(e) => r == Err(e)
      case Ok(n) =>
        r.Ok? && r.value <= U32_MAX && LittleEndianBytes(r.value) == Reversed(LittleEndianBytes(n))
  {
    var n := ParseHexU32(share);
    if n.Err? {
      return n;
    }
    var bytes := LittleEndianBytes(n.value);
    BigEndianIsSmall(bytes);
    ReversedEndian(bytes);
    LittleEndianIsInjective(LittleEndianBytes(BigEndian(bytes)), Reversed(bytes));
    r := Ok(BigEndian(bytes));
  }

  lemma {:induction false} LittleEndianIsInjective(a: seq<Byte>, b: seq<Byte>)
    requires |a| == |b| && LittleEndian(a) == LittleEndian(b)
    ensures a == b
  {
    if a != [] {
      assert a[0] == LittleEndian(a) % 256 && b[0] == LittleEndian(b) % 256;
      LittleEndianIsInjective(a[1..], b[1..]);
      assert a == [a[0]] + a[1..] && b == [b[0]] + b[1..];
    }
  }

  /** A mining blob of 76 bytes with the nonce at offset 39 and the extra bytes before it; any other
      length gives nothing. */
  method SetHeaderNonce(header: seq<Byte>, nonce: nat, extra: seq<Byte>) returns (r: seq<Byte>)
    requires nonce <= U32_MAX && |extra| == 4
    ensures |header| != 76 ==> r == []
    ensures |header| == 76 ==> r == header[..35] + extra + LittleEndianBytes(nonce) + header[43..]
  {
    if |header| != 76 {
      return [];
    }
    var copy := new Byte[76](i requires 0 <= i < 76 => header[i]);
    var bytes := LittleEndianBytes(nonce);
    for i := 0 to 4
      invariant forall k :: 0 <= k < 76 ==> copy[k] == if 39 <= k < 39 + i then bytes[k - 39] else header[k]
    {
      copy[39 + i] := bytes[i];
    }
    for i := 0 to 4
      invariant forall k :: 0 <= k < 76 ==>
        copy[k] == if 35 <= k < 35 + i then extra[k - 35] else if 39 <= k < 43 then bytes[k - 39] else header[k]
    {
      copy[35 + i] := extra[i];
    }
    r := copy[..];
  }

  lemma {:induction false} ParseOfHex(s: string)
    requires IsHex(s)
    ensures ParseDigits(s).Ok? <==> HexNumber(s) <= U32_MAX
    ensures ParseDigits(s).Ok? ==> ParseDigits(s).value == HexNumber(s)
  {
    if s != "" {
      ParseOfHex(s[..|s| - 1]);
    }
  }

  /** Digits parse exactly if they are hex digits of a number that fits; otherwise the first bad digit is reported,
      unless the digits before it already are too much. */
  lemma {:induction false} DigitsParseIff(s: string)
    ensures ParseDigits(s).Ok? <==> IsHex(s) && HexNumber(s) <= U32_MAX
    ensures ParseDigits(s).Err? ==> ParseDigits(s).error == InvalidDigit || ParseDigits(s).error == Overflow
    ensures ParseDigits(s) == Err(InvalidDigit) <==>
      exists i :: 0 <= i < |s| && HexValue(s[i]).None? && IsHex(s[..i]) && HexNumber(s[..i]) <= U32_MAX
  {
    if s != "" {
      var n, init := |s| - 1, s[..|s| - 1];
      DigitsParseIff(init);
      if IsHex(init) {
        ParseOfHex(init);
      }
      assert forall i :: 0 <= i <= n ==> s[..i] == init[..i];
      assert init[..n] == init;
    }
  }

  /** A share parses exactly if, after an optional plus sign, it has at least one digit and its digits parse. */
  lemma ParsesIff(s: string)
    ensures var digits := if s != "" && s[0] == '+' then s[1..] else s;
      && (ParseHexU32(s).Ok? <==> digits != "" && IsHex(digits) && HexNumber(digits) <= U32_MAX)
      && (ParseHexU32(s).Ok? ==> ParseHexU32(s).value == HexNumber(digits))
      && (ParseHexU32(s) == Err(EmptyInput) <==> s == "")
  {
    var digits := if s != "" && s[0] == '+' then s[1..] else s;
    DigitsParseIff(digits);
    if IsHex(digits) {
      ParseOfHex(digits);
    }
    assert HexValue('+').None? && HexValue('-').None?;
    if s == "-" {
      assert HexValue(digits[0]).None?;
    }
  }

  /** Eight digits parse to the number they denote, and decode to its bytes, most significant first. */
  lemma DigitsOfShare(share: string)
    requires IsHex(share) && |share| == 8
    ensures HexNumber(share) <= U32_MAX && ParseHexU32(share) == Ok(HexNumber(share))
    ensures DecodeHex(share) == Some(Reversed(LittleEndianBytes(HexNumber(share))))
  {
    DecodeIsNumber(share);
    var bytes := DecodeHex(share).value;
    BigEndianIsSmall(bytes);
    ParseOfHex(share);
    assert HexValue(share[0]).Some?;
    ReversedEndian(bytes);
    LittleEndianIsInjective(LittleEndianBytes(HexNumber(share)), Reversed(bytes));
    ReversedTwice(bytes);
  }

  lemma BlobParts(a: seq<Byte>, extra: seq<Byte>, nonce: seq<Byte>, z: seq<Byte>)
    requires |a| == 35 && |extra| == 4 && |nonce| == 4 && |z| == 33
    ensures var r := a + extra + nonce + z;
      |r| == 76 && r[..35] == a && r[35..39] == extra && r[39..43] == nonce && r[43..] == z
  {
  }

  /** The eight digits a miner submits are, byte for byte, what lands in the header. */
  method SubmitShare(share: string, header: seq<Byte>, extra: seq<Byte>) returns (r: seq<Byte>)
    requires IsHex(share) && |share| == 8 && |header| == 76 && |extra| == 4
    ensures |r| == 76 && DecodeHex(share) == Some(r[39..43])
    ensures r[..35] == header[..35] && r[35..39] == extra && r[43..] == header[43..]
  {
    DigitsOfShare(share);
    var nonce := NonceOfShare(share);
    r := SetHeaderNonce(header, nonce.value, extra);
    BlobParts(header[..35], extra, LittleEndianBytes(nonce.value), header[43..]);
  }
}
