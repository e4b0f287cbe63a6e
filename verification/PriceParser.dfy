/**
 Price parsing in exact arithmetic: the scalar byte loop, the chunked vector routine, and the decimal
 numbers they are meant to read. `std` stands for the standard library's parser.
 */
module PriceParser {
  import opened Wrappers

  type Byte = b: int | 0 <= b < 256

  type Digit = d: int | 0 <= d < 10

  const ZERO: Byte := 48
  const DOT: Byte := 46
  const MINUS: Byte := 45

  predicate IsDigit(b: Byte) { 48 <= b <= 57 }

  predicate IsExponent(b: Byte) { b == 69 || b == 101 }

  function Pow10(k: nat): (p: nat)
    ensures p > 0
  {
    if k == 0 then 1 else 10 * Pow10(k - 1)
  }

  /** `v` with its decimal point moved `d` places to the left. */
  function Scaled(v: nat, d: nat): real { if d == 0 then v as real else Scaled(v, d - 1) / 10.0 }

  lemma {:induction false} ScaledIsQuotient(v: nat, d: nat)
    ensures v as real / Pow10(d) as real == Scaled(v, d)
  {
    if d > 0 {
      ScaledIsQuotient(v, d - 1);
      TenTimesLess(v as real, Pow10(d - 1) as real);
    }
  }

  lemma TenTimesLess(x: real, p: real)
    requires p > 0.0
    ensures x / (10.0 * p) == x / p / 10.0
  {
    var q := x / p / 10.0;
    assert q * (10.0 * p) == x / p * p == x;
  }

  lemma {:induction false} ScaledAdds(a: nat, b: nat, d: nat)
    ensures Scaled(a + b, d) == Scaled(a, d) + Scaled(b, d)
  {
    if d > 0 { ScaledAdds(a, b, d - 1); }
  }

  lemma {:induction false} ScaledShifts(v: nat, d: nat)
    ensures Scaled(10 * v, d + 1) == Scaled(v, d)
  {
    if d > 0 { ScaledShifts(v, d - 1); }
  }

  // ---- What the loop has read ----

  datatype Progress = Reading(value: nat, decimals: nat, point: bool) | Stopped(fallback: bool)

  function Read(p: Progress, b: Byte): Progress {
    match p
    case Stopped(_) => p
    case Reading(v, d, point) =>
      if b == DOT then (if point then Stopped(true) else Reading(v, d, true))
      else if IsDigit(b) then Reading(v * 10 + (b - ZERO), if point then d + 1 else d, point)
      else Stopped(IsExponent(b))
  }

  /** The first `n` bytes, those before `from` (the sign) skipped. */
  function After(s: seq<Byte>, from: nat, n: nat): Progress
    requires from <= n <= |s|
  {
    if n == from then Reading(0, 0, false) else Read(After(s, from, n - 1), s[n - 1])
  }

  function Signed(negative: bool, x: real): real { if negative then -x else x }

  function Negative(s: seq<Byte>): bool { s != [] && s[0] == MINUS }

  function Parse(s: seq<Byte>, std: seq<Byte> -> Option<real>): Option<real> {
    if |s| == 0 || |s| > 32 then std(s) else
    match After(s, if Negative(s) then 1 else 0, |s|)
    case Stopped(fallback) => if fallback then std(s) else None
    case Reading(v, d, _) => Some(Signed(Negative(s), Scaled(v, d)))
  }

  // ---- Decimal numbers ----

  /** The number a digit string denotes. */
  function Num(ds: seq<Digit>): nat {
    if ds == [] then 0 else Num(ds[..|ds| - 1]) * 10 + ds[|ds| - 1]
  }

  function Ascii(ds: seq<Digit>): (s: seq<Byte>)
    ensures |s| == |ds| && forall i :: 0 <= i < |s| ==> s[i] == ZERO + ds[i]
  {
    seq(|ds|, i requires 0 <= i < |ds| => ZERO + ds[i])
  }

  predicate Spells(s: seq<Byte>, at: nat, ds: seq<Digit>) {
    at + |ds| <= |s| && forall i :: 0 <= i < |ds| ==> s[at + i] == ZERO + ds[i]
  }

  /** Reading a run of digits appends them to the digits already read. */
  lemma {:induction false} ReadDigits(s: seq<Byte>, from: nat, at: nat, seen: seq<Digit>, ds: seq<Digit>,
                                      decimals: nat, point: bool)
    requires from <= at && Spells(s, at, ds) && After(s, from, at) == Reading(Num(seen), decimals, point)
    ensures After(s, from, at + |ds|) == Reading(Num(seen + ds), if point then decimals + |ds| else decimals, point)
  {
    if ds == [] {
      assert seen + ds == seen;
    } else {
      var front := ds[..|ds| - 1];
      ReadDigits(s, from, at, seen, front, decimals, point);
      assert (seen + ds)[..|seen + ds| - 1] == seen + front;
    }
  }

  lemma ReadsWhole(s: seq<Byte>, from: nat, whole: seq<Digit>)
    requires Spells(s, from, whole) && |s| == from + |whole|
    ensures After(s, from, |s|) == Reading(Num(whole), 0, false)
  {
    ReadDigits(s, from, from, [], whole, 0, false);
    assert [] + whole == whole;
  }

  lemma PointRead(s: seq<Byte>, from: nat, at: nat, value: nat)
    requires from <= at < |s| && s[at] == DOT && After(s, from, at) == Reading(value, 0, false)
    ensures After(s, from, at + 1) == Reading(value, 0, true)
  {
  }

  lemma ReadsPointed(s: seq<Byte>, from: nat, whole: seq<Digit>, fraction: seq<Digit>)
    requires Spells(s, from, whole) && Spells(s, from + |whole| + 1, fraction)
    requires |s| == from + |whole| + 1 + |fraction| && s[from + |whole|] == DOT
    ensures After(s, from, |s|) == Reading(Num(whole + fraction), |fraction|, true)
  {
    var at := from + |whole|;
    assert After(s, from, at) == Reading(Num(whole), 0, false) by {
      ReadDigits(s, from, from, [], whole, 0, false);
      assert [] + whole == whole;
    }
    PointRead(s, from, at, Num(whole));
    ReadDigits(s, from, at + 1, whole, fraction, 0, true);
    assert at + 1 + |fraction| == |s|;
  }

  lemma ParseReads(s: seq<Byte>, value: nat, decimals: nat, point: bool, std: seq<Byte> -> Option<real>)
    requires 0 < |s| <= 32
    requires After(s, if Negative(s) then 1 else 0, |s|) == Reading(value, decimals, point)
    ensures Parse(s, std) == Some(Signed(Negative(s), Scaled(value, decimals)))
  {
  }

  /** Digits on both sides of a point denote the whole part plus the fraction. */
  lemma {:induction false} PointDivides(whole: seq<Digit>, fraction: seq<Digit>)
    ensures Scaled(Num(whole + fraction), |fraction|) == Num(whole) as real + Scaled(Num(fraction), |fraction|)
  {
    if fraction == [] {
      assert whole + fraction == whole;
    } else {
      var k := |fraction| - 1;
      var front, last := fraction[..k], fraction[k];
      PointDivides(whole, front);
      assert (whole + fraction)[..|whole + fraction| - 1] == whole + front;
      AppendDigit(Num(whole + front), last, k);
      AppendDigit(Num(front), last, k);
    }
  }

  lemma AppendDigit(v: nat, digit: Digit, k: nat)
    ensures Scaled(v * 10 + digit, k + 1) == Scaled(v, k) + Scaled(digit, k + 1)
  {
    ScaledAdds(10 * v, digit, k + 1);
    ScaledShifts(v, k);
  }

  function SignOf(negative: bool): seq<Byte> { if negative then [MINUS] else [] }

  function Pointed(negative: bool, whole: seq<Digit>, fraction: seq<Digit>): seq<Byte> {
    SignOf(negative) + Ascii(whole) + [DOT] + Ascii(fraction)
  }

  lemma PointedSpells(negative: bool, whole: seq<Digit>, fraction: seq<Digit>)
    ensures var s, from := Pointed(negative, whole, fraction), if negative then 1 else 0;
            && Spells(s, from, whole) && Spells(s, from + |whole| + 1, fraction)
            && |s| == from + |whole| + 1 + |fraction| && s[from + |whole|] == DOT && Negative(s) == negative
  {
  }

  function Whole(negative: bool, whole: seq<Digit>): seq<Byte> { SignOf(negative) + Ascii(whole) }

  lemma WholeSpells(negative: bool, whole: seq<Digit>)
    ensures var s, from := Whole(negative, whole), if negative then 1 else 0;
            Spells(s, from, whole) && |s| == from + |whole| && Negative(s) == negative
  {
  }

  lemma ParsesDigits(negative: bool, whole: seq<Digit>, fraction: seq<Digit>, std: seq<Byte> -> Option<real>)
    requires |Pointed(negative, whole, fraction)| <= 32
    ensures Parse(Pointed(negative, whole, fraction), std) ==
            Some(Signed(negative, Scaled(Num(whole + fraction), |fraction|)))
  {
    var s := Pointed(negative, whole, fraction);
    PointedSpells(negative, whole, fraction);
    ReadsPointed(s, if negative then 1 else 0, whole, fraction);
    ParseReads(s, Num(whole + fraction), |fraction|, true, std);
  }

  /**
   Every optionally signed digit string with a point, up to 32 bytes long, parses to the number it
   denotes: the whole part plus the fraction over the power of ten its decimals call for.
   */
  lemma ParsesPointed(negative: bool, whole: seq<Digit>, fraction: seq<Digit>, std: seq<Byte> -> Option<real>)
    requires |Pointed(negative, whole, fraction)| <= 32
    ensures Parse(Pointed(negative, whole, fraction), std) ==
            Some(Signed(negative, Num(whole) as real + Scaled(Num(fraction), |fraction|)))
  {
    ParsesDigits(negative, whole, fraction, std);
    PointDivides(whole, fraction);
  }

  lemma ParsesWhole(negative: bool, whole: seq<Digit>, std: seq<Byte> -> Option<real>)
    requires 0 < |Whole(negative, whole)| <= 32
    ensures Parse(Whole(negative, whole), std) == Some(Signed(negative, Num(whole) as real))
  {
    var s := Whole(negative, whole);
    WholeSpells(negative, whole);
    ReadsWhole(s, if negative then 1 else 0, whole);
    ParseReads(s, Num(whole), 0, false, std);
  }

  /** Digits of `n`, at least `width` of them. */
  function Padded(n: nat, width: nat): (ds: seq<Digit>)
    ensures |ds| >= width && |ds| > 0
  {
    if n < 10 && width <= 1 then [n] else Padded(n / 10, if width > 0 then width - 1 else 0) + [n % 10]
  }

  lemma {:induction false} PaddedDenotes(n: nat, width: nat)
    ensures Num(Padded(n, width)) == n
  {
    var ds := Padded(n, width);
    if !(n < 10 && width <= 1) {
      PaddedDenotes(n / 10, if width > 0 then width - 1 else 0);
      assert ds[..|ds| - 1] == Padded(n / 10, if width > 0 then width - 1 else 0);
    } else {
      assert ds[..0] == [];
    }
  }

  /** Digits with a point before the last k of them. */
  function PrintDigits(negative: bool, ds: seq<Digit>, k: nat): seq<Byte>
    requires k < |ds|
  {
    if k == 0 then Whole(negative, ds) else Pointed(negative, ds[..|ds| - k], ds[|ds| - k..])
  }

  lemma Rejoined(ds: seq<Digit>, k: nat)
    requires k <= |ds|
    ensures Num(ds[..k] + ds[k..]) == Num(ds)
  {
    assert ds[..k] + ds[k..] == ds;
  }

  lemma Parts(negative: bool, ds: seq<Digit>, k: nat) returns (whole: seq<Digit>, fraction: seq<Digit>)
    requires 0 < k < |ds|
    ensures PrintDigits(negative, ds, k) == Pointed(negative, whole, fraction)
    ensures Num(whole + fraction) == Num(ds) && |fraction| == k
  {
    whole, fraction := ds[..|ds| - k], ds[|ds| - k..];
    Rejoined(ds, |ds| - k);
  }

  lemma PrintedDigits(negative: bool, ds: seq<Digit>, k: nat, std: seq<Byte> -> Option<real>)
    requires k < |ds| && |PrintDigits(negative, ds, k)| <= 32
    ensures Parse(PrintDigits(negative, ds, k), std) == Some(Signed(negative, Scaled(Num(ds), k)))
  {
    if k == 0 {
      ParsesWhole(negative, ds, std);
    } else {
      var whole, fraction := Parts(negative, ds, k);
      ParsesDigits(negative, whole, fraction, std);
    }
  }

  /** The fixed-point number n / 10^k, printed with exactly k decimals. */
  function Print(negative: bool, n: nat, k: nat): seq<Byte> { PrintDigits(negative, Padded(n, k + 1), k) }

  /** Parsing a printed fixed-point number gives it back. */
  lemma PrintThenParse(negative: bool, n: nat, k: nat, std: seq<Byte> -> Option<real>)
    requires |Print(negative, n, k)| <= 32
    ensures Parse(Print(negative, n, k), std) == Some(Signed(negative, Scaled(n, k)))
  {
    PaddedDenotes(n, k + 1);
    PrintedDigits(negative, Padded(n, k + 1), k, std);
  }

  function Dots(s: seq<Byte>, from: nat, n: nat): nat
    requires from <= n <= |s|
  {
    if n == from then 0 else Dots(s, from, n - 1) + (if s[n - 1] == DOT then 1 else 0)
  }

  ghost predicate Plain(s: seq<Byte>, from: nat, n: nat)
    requires from <= n <= |s|
  {
    (forall i :: from <= i < n ==> IsDigit(s[i]) || s[i] == DOT) && Dots(s, from, n) <= 1
  }

  /**
   The loop reads to the end exactly the strings of digits with at most one point, a sign apart. Any
   other one is settled by its first offending byte: a second point or an exponent asks the standard
   parser, and anything else is no price.
   */
  lemma {:induction false} ReadsExactlyPlain(s: seq<Byte>, from: nat, n: nat)
    requires from <= n <= |s|
    ensures After(s, from, n).Reading? <==> Plain(s, from, n)
    ensures After(s, from, n).Reading? ==> (After(s, from, n).point <==> Dots(s, from, n) == 1)
    ensures After(s, from, n).Stopped? ==>
              exists i :: from <= i < n && Plain(s, from, i) && !Plain(s, from, i + 1) &&
                          (After(s, from, n).fallback <==> s[i] == DOT || IsExponent(s[i]))
  {
    if n > from {
      ReadsExactlyPlain(s, from, n - 1);
      if After(s, from, n - 1).Reading? && After(s, from, n).Stopped? {
        assert Plain(s, from, n - 1) && !Plain(s, from, n - 1 + 1);
      }
    }
  }

  /**
   What a string within 32 bytes parses to: one of digits with at most one point, after an optional minus, to a
   number; any other one is left to the standard parser if its first offending byte is a point, an e or an E, and
   is no price otherwise.
   */
  lemma ParseSettles(s: seq<Byte>, std: seq<Byte> -> Option<real>)
    requires 0 < |s| <= 32
    ensures var from := if s[0] == 45 then 1 else 0;
            if Plain(s, from, |s|) then Parse(s, std).Some?
            else exists i :: from <= i < |s| && Plain(s, from, i) && !Plain(s, from, i + 1) &&
                             Parse(s, std) == if s[i] == 46 || s[i] == 69 || s[i] == 101 then std(s) else None
  {
    ReadsExactlyPlain(s, if s[0] == 45 then 1 else 0, |s|);
  }

  /** The empty string and anything longer are left to the standard parser. */
  lemma ParseDefers(s: seq<Byte>, std: seq<Byte> -> Option<real>)
    requires s == [] || |s| > 32
    ensures Parse(s, std) == std(s)
  {
  }

  function DigitsAt(s: seq<Byte>, from: nat, to: nat): (ds: seq<Digit>)
    requires from <= to <= |s| && forall i :: from <= i < to ==> IsDigit(s[i])
    ensures |ds| == to - from && Ascii(ds) == s[from..to]
  {
    if from == to then [] else
    assert IsDigit(s[to - 1]);
    var digit: Digit := s[to - 1] - ZERO;
    assert s[from..to] == s[from..to - 1] + [s[to - 1]];
    DigitsAt(s, from, to - 1) + [digit]
  }

  lemma {:induction false} OneDot(s: seq<Byte>, from: nat, n: nat) returns (at: nat)
    requires from <= n <= |s| && Plain(s, from, n)
    ensures from <= at <= n && (at < n <==> Dots(s, from, n) == 1) && (at < n ==> s[at] == DOT)
    ensures forall i :: from <= i < n && i != at ==> IsDigit(s[i])
  {
    if n == from {
      at := n;
    } else {
      at := OneDot(s, from, n - 1);
      if at == n - 1 && s[n - 1] != DOT { at := n; }
    }
  }

  /** Each of these strings is one whose number is known: digits alone, or with a point. */
  lemma PlainIsSpelled(s: seq<Byte>) returns (whole: seq<Digit>, fraction: Option<seq<Digit>>)
    requires s != [] && Plain(s, if s[0] == 45 then 1 else 0, |s|)
    ensures s == if fraction.Some? then Pointed(s[0] == 45, whole, fraction.value) else Whole(s[0] == 45, whole)
  {
    var from := if s[0] == 45 then 1 else 0;
    var at := OneDot(s, from, |s|);
    assert s[..from] == SignOf(s[0] == 45);
    if at < |s| {
      whole, fraction := DigitsAt(s, from, at), Some(DigitsAt(s, at + 1, |s|));
      assert s == s[..from] + s[from..at] + [s[at]] + s[at + 1..|s|];
    } else {
      whole, fraction := DigitsAt(s, from, |s|), None;
      assert s == s[..from] + s[from..|s|];
    }
  }

  // ---- The scalar loop ----

  method ParsePriceFast(s: seq<Byte>, std: seq<Byte> -> Option<real>) returns (r: Option<real>)
    ensures r == Parse(s, std)
  {
    var len := |s|;
    if len == 0 || len > 32 { return std(s); }
    var result, decimalPlaces: nat, foundDecimal, isNegative, i := 0.0, 0, false, false, 0;
    if s[0] == MINUS { isNegative, i := true, 1; }
    ghost var from := i;
    while i < len
      invariant from <= i <= len
      invariant After(s, from, i).Reading? && result == After(s, from, i).value as real
      invariant decimalPlaces == After(s, from, i).decimals && foundDecimal == After(s, from, i).point
    {
      var byte := s[i];
      if byte == DOT {
        if foundDecimal {
          StoppedStays(s, from, i + 1, len);
          return std(s);
        }
        foundDecimal := true;
      } else if IsDigit(byte) {
        result := result * 10.0 + (byte - ZERO) as real;
        if foundDecimal { decimalPlaces := decimalPlaces + 1; }
      } else if IsExponent(byte) {
        StoppedStays(s, from, i + 1, len);
        return std(s);
      } else {
        StoppedStays(s, from, i + 1, len);
        return None;
      }
      i := i + 1;
    }
    ScaledIsQuotient(After(s, from, len).value, decimalPlaces);
    if decimalPlaces > 0 { result := result / Pow10(decimalPlaces) as real; }
    if isNegative { result := -result; }
    r := Some(result);
  }

  lemma {:induction false} StoppedStays(s: seq<Byte>, from: nat, n: nat, m: nat)
    requires from <= n <= m <= |s| && After(s, from, n).Stopped?
    ensures After(s, from, m) == After(s, from, n)
  {
    if n < m { StoppedStays(s, from, n, m - 1); }
  }

  // ---- The chunked routine ----

  // A lane as the signed byte the comparisons see.
  function Lane(b: Byte): int { if b < 128 then b else b - 256 }

  /** movemask: bit k is set when lane k passes; 32 set bits read as -1. */
  function ValidMask(data: seq<Byte>): int {
    if data == [] then 0 else
    2 * ValidMask(data[1..]) + (if Lane(data[0]) > ZERO - 1 && 57 + 1 > Lane(data[0]) then 1 else 0)
  }

  function ToI32(mask: int): int { if mask < 0x8000_0000 then mask else mask - 0x1_0000_0000 }

  function Pow2(k: nat): nat { if k == 0 then 1 else 2 * Pow2(k - 1) }

  lemma {:induction false} MaskBounds(data: seq<Byte>)
    ensures 0 <= ValidMask(data) < Pow2(|data|)
    ensures ValidMask(data) == Pow2(|data|) - 1 <==> forall k :: 0 <= k < |data| ==> IsDigit(data[k])
  {
    if data != [] {
      MaskBounds(data[1..]);
      assert IsDigit(data[0]) <==> Lane(data[0]) > ZERO - 1 && 57 + 1 > Lane(data[0]);
      if forall k :: 0 <= k < |data[1..]| ==> IsDigit(data[1..][k]) {
        forall k | 1 <= k < |data| ensures IsDigit(data[k]) { assert data[k] == data[1..][k - 1]; }
      } else {
        var k :| 0 <= k < |data[1..]| && !IsDigit(data[1..][k]);
        assert !IsDigit(data[k + 1]);
      }
    }
  }

  lemma {:induction false} Pow2Adds(a: nat, b: nat)
    ensures Pow2(a + b) == Pow2(a) * Pow2(b)
  {
    if a > 0 { Pow2Adds(a - 1, b); }
  }

  lemma Pow2Of32()
    ensures Pow2(32) == 0x1_0000_0000
  {
    Pow2Adds(4, 4);
    Pow2Adds(8, 8);
    Pow2Adds(16, 16);
  }

  lemma AllOnes(data: seq<Byte>)
    requires |data| == 32
    ensures ToI32(ValidMask(data)) == -1 <==> forall k :: 0 <= k < 32 ==> IsDigit(data[k])
  {
    MaskBounds(data);
    Pow2Of32();
  }

  lemma DigitLanes(data: seq<Byte>)
    requires |data| == 32 && ToI32(ValidMask(data)) == -1
    ensures forall k :: 0 <= k < 16 ==> IsDigit(data[k])
  {
    AllOnes(data);
  }

  // The upper half of the vector stays zero.
  function Chunk(s: seq<Byte>, i: nat): (data: seq<Byte>)
    requires i + 16 <= |s|
    ensures |data| == 32 && data[..16] == s[i..i + 16]
  {
    s[i..i + 16] + seq(16, _ => 0)
  }

  /** The digit check covers all 32 lanes, and the upper ones are never digits: no chunk ever passes it. */
  lemma ChunkNeverPasses(s: seq<Byte>, i: nat)
    requires i + 16 <= |s|
    ensures ToI32(ValidMask(Chunk(s, i))) != -1
  {
    AllOnes(Chunk(s, i));
    assert Chunk(s, i)[31] == 0;
  }

  // The accumulation of a chunk of digits.
  method AddChunk(s: seq<Byte>, ghost from: nat, i: nat, data: seq<Byte>, start: real) returns (result: real)
    requires from <= i && i + 16 <= |s| && |data| == 32 && data[..16] == s[i..i + 16]
    requires forall k :: 0 <= k < 16 ==> IsDigit(data[k])
    requires var p := After(s, from, i); p.Reading? && p.decimals == 0 && !p.point && start == p.value as real
    ensures var p := After(s, from, i + 16); p.Reading? && p.decimals == 0 && !p.point && result == p.value as real
  {
    result := start;
    for j := 0 to 16
      invariant var p := After(s, from, i + j); p.Reading? && p.decimals == 0 && !p.point && result == p.value as real
    {
      assert data[..16][j] == s[i..i + 16][j];
      result := result * 10.0 + (data[j] - ZERO) as real;
    }
  }

  // The routine's scalar part, from byte `i` on.
  method ParseTail(s: seq<Byte>, i: nat, start: real, isNegative: bool, std: seq<Byte> -> Option<real>)
    returns (r: Option<real>)
    requires 0 < |s| <= 32 && isNegative == Negative(s) && (if isNegative then 1 else 0) <= i <= |s|
    requires forall b :: b in s ==> !IsExponent(b)
    requires var p := After(s, if isNegative then 1 else 0, i);
             p.Reading? && p.decimals == 0 && !p.point && start == p.value as real
    ensures r == Parse(s, std)
  {
    var result, decimalPlaces: nat, foundDecimal, cur, len := start, 0, false, i, |s|;
    ghost var from := if isNegative then 1 else 0;
    while cur < len
      invariant from <= cur <= len
      invariant After(s, from, cur).Reading? && result == After(s, from, cur).value as real
      invariant decimalPlaces == After(s, from, cur).decimals && foundDecimal == After(s, from, cur).point
    {
      var byte := s[cur];
      if byte == DOT {
        if foundDecimal { r := ParsePriceFast(s, std); return; }
        foundDecimal := true;
      } else if IsDigit(byte) {
        result := result * 10.0 + (byte - ZERO) as real;
        if foundDecimal { decimalPlaces := decimalPlaces + 1; }
      } else {
        StoppedStays(s, from, cur + 1, len);
        return None;
      }
      cur := cur + 1;
    }
    ScaledIsQuotient(After(s, from, len).value, decimalPlaces);
    if decimalPlaces > 0 { result := result / Pow10(decimalPlaces) as real; }
    if isNegative { result := -result; }
    r := Some(result);
  }

  /** The chunked routine agrees with the scalar one on every input. */
  method ParsePriceAvx512(s: seq<Byte>, std: seq<Byte> -> Option<real>) returns (r: Option<real>)
    ensures r == Parse(s, std)
  {
    var len := |s|;
    if len == 0 || len > 32 { r := ParsePriceFast(s, std); return; }
    if len < 8 || exists b :: b in s && IsExponent(b) { r := ParsePriceFast(s, std); return; }
    var result, isNegative, i := 0.0, false, 0;
    if s[0] == MINUS { isNegative, i := true, 1; }
    ghost var from := i;
    while i + 16 <= len
      invariant from <= i <= len
      invariant After(s, from, i).Reading? && result == After(s, from, i).value as real
      invariant After(s, from, i).decimals == 0 && !After(s, from, i).point
    {
      var data := Chunk(s, i);
      if DOT in data { break; }
      if ToI32(ValidMask(data)) != -1 { break; }
      DigitLanes(data);
      result := AddChunk(s, from, i, data, result);
      i := i + 16;
    }
    r := ParseTail(s, i, result, isNegative, std);
  }
}
