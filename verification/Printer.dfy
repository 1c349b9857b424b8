/** The integer printer of lib/printf/printf.c and the digit parser that its own format
    strings are read with. */
module Printer {
  import opened Words

  // PRINTF_NTOA_BUFFER_SIZE
  const BUFFER_SIZE: nat := 32

  datatype Flags = Flags(zeropad: bool, left: bool, plus: bool, space: bool, hash: bool,
                         uppercase: bool, precision: bool)

  // A digit, with char an unsigned byte
  function DigitChar(d: nat, uppercase: bool): char {
    var digit := d % 256;
    if digit < 10 then '0' + digit as char
    else (((if uppercase then 'A' else 'a') as int + digit - 10) % 256) as char
  }

  lemma Half(v: nat, base: nat)
    requires base >= 2
    ensures 2 * (v / base) <= v && (v > 0 ==> v / base < v)
  {
    assert v == v / base * base + v % base;
    assert v / base * base >= v / base * 2;
  }

  /** The digits of `v`, the last one first. */
  function Digits(v: nat, base: nat, uppercase: bool): (r: string)
    requires base >= 2
    ensures r != []
  {
    Half(v, base);
    [DigitChar(v % base, uppercase)] + if v / base == 0 then [] else Digits(v / base, base, uppercase)
  }

  ghost function Power2(k: nat): nat {
    if k == 0 then 1 else 2 * Power2(k - 1)
  }

  lemma {:induction false} DigitsFit(v: nat, base: nat, uppercase: bool, k: nat)
    requires base >= 2 && v < Power2(k) && k > 0
    ensures |Digits(v, base, uppercase)| <= k
  {
    Half(v, base);
    if v / base != 0 {
      DigitsFit(v / base, base, uppercase, k - 1);
    }
  }

  lemma WordFits(v: nat, base: nat, uppercase: bool)
    requires base >= 2 && v < WRAP
    ensures |Digits(v, base, uppercase)| <= BUFFER_SIZE
  {
    assert Power2(8) == 256;
    assert Power2(16) == 0x1_0000 by { assert Power2(12) == 0x1000; }
    assert Power2(24) == 0x100_0000 by { assert Power2(20) == 0x10_0000; }
    assert Power2(32) == WRAP by { assert Power2(28) == 0x1000_0000; }
    DigitsFit(v, base, uppercase, BUFFER_SIZE);
  }

  function Reverse(s: string): (r: string)
    ensures |r| == |s|
  {
    if s == [] then [] else Reverse(s[1..]) + [s[0]]
  }

  function Repeat(c: char, n: int): (r: string)
    ensures |r| == if n > 0 then n else 0
    ensures forall i :: 0 <= i < |r| ==> r[i] == c
  {
    if n <= 0 then [] else [c] + Repeat(c, n - 1)
  }

  function Max(a: int, b: int): int {
    if a < b then b else a
  }

  function Min(a: int, b: int): int {
    if a < b then a else b
  }

  // ----------------------------------------------------------- what is in the buffer

  /** The width left for digits: a sign takes one place of zero padding. */
  function DigitWidth(width: nat, negative: bool, f: Flags): nat {
    if !f.left && width > 0 && f.zeropad && (negative || f.plus || f.space) then width - 1 else width
  }

  /** How long the digits are with zeros in front, which the buffer limits. */
  function PaddedLength(n: nat, prec: nat, width: nat, negative: bool, f: Flags): nat {
    if f.left then n
    else
      var byPrecision := Max(n, Min(prec, BUFFER_SIZE));
      if f.zeropad then Max(byPrecision, Min(DigitWidth(width, negative, f), BUFFER_SIZE)) else byPrecision
  }

  /** A sign goes in front if the buffer still has room. */
  function Sign(n: nat, negative: bool, f: Flags): string {
    if n >= BUFFER_SIZE then "" else if negative then "-" else if f.plus then "+" else if f.space then " " else ""
  }

  /** The base mark of `#`, over one or two digits if the number just fills its width. */
  function Hashed(s: string, base: nat, prec: nat, width: nat, f: Flags): string {
    var cut :=
      if !f.precision && s != [] && (|s| == prec || |s| == width) then
        if |s| > 1 && base == 16 then s[..|s| - 2] else s[..|s| - 1]
      else s;
    var marked :=
      if |cut| >= BUFFER_SIZE then cut
      else if base == 16 then cut + [if f.uppercase then 'X' else 'x']
      else if base == 2 then cut + ['b']
      else cut;
    if |marked| < BUFFER_SIZE then marked + ['0'] else marked
  }

  /** The buffer, last character first, when it is handed to _out_rev. */
  function Body(digits: string, negative: bool, base: nat, prec: nat, width: nat, f: Flags): string {
    var n := PaddedLength(|digits|, prec, width, negative, f);
    var padded := digits + Repeat('0', n - |digits|);
    var whole := if f.hash then Hashed(padded, base, prec, DigitWidth(width, negative, f), f) else padded;
    whole + Sign(|whole|, negative, f)
  }

  /** The body the right way round, with spaces in front or behind. */
  function Laid(body: string, width: nat, f: Flags): string {
    Repeat(' ', if !f.left && !f.zeropad then width - |body| else 0)
    + Reverse(body)
    + Repeat(' ', if f.left then width - |body| else 0)
  }

  /** Everything that is printed. */
  function Printed(value: nat, negative: bool, base: nat, prec: nat, width: nat, f: Flags): string
    requires base >= 2
  {
    var digits := if f.precision && value == 0 then "" else Digits(value, base, f.uppercase);
    var g := if value == 0 then f.(hash := false) else f;
    Laid(Body(digits, negative, base, prec, width, g), DigitWidth(width, negative, g), g)
  }

  // ------------------------------------------------------------------------- the code

  // _ntoa_long; the output function is the sequence of characters it is given
  method NtoaLong(value: nat, negative: bool, base: nat, prec: nat, width: nat, flags: Flags) returns (text: string)
    requires value < WRAP && base >= 2
    ensures text == Printed(value, negative, base, prec, width, flags)
  {
    hide Body, Laid, DigitWidth;
    var buf := new char[BUFFER_SIZE];
    var len: nat, f := 0, flags;
    if value == 0 {
      f := f.(hash := false);
    }
    if !f.precision || value != 0 {
      len := PutDigits(buf, value, base, f.uppercase);
    }
    text := NtoaFormat(buf, len, negative, base, prec, width, f);
  }

  // The loop of _ntoa_long; the buffer is never too short for it
  method PutDigits(buf: array<char>, value: nat, base: nat, uppercase: bool) returns (len: nat)
    requires buf.Length == BUFFER_SIZE && value < WRAP && base >= 2
    modifies buf
    ensures len <= BUFFER_SIZE && buf[..len] == Digits(value, base, uppercase)
  {
    hide DigitChar, Digits;
    WordFits(value, base, uppercase);
    len := 0;
    var v: nat, more := value, true;
    ghost var rest := Digits(value, base, uppercase);
    while more
      invariant len <= BUFFER_SIZE && buf[..len] + rest == Digits(value, base, uppercase)
      invariant rest == if more then Digits(v, base, uppercase) else []
      decreases more, BUFFER_SIZE - len
    {
      FirstDigit(v, base, uppercase);
      Shift(buf[..len], rest);
      assert len < BUFFER_SIZE;
      len := Push(buf, len, DigitChar(v % base, uppercase));
      rest := rest[1..];
      v := v / base;
      more := v != 0 && len < BUFFER_SIZE;
    }
  }

  lemma FirstDigit(v: nat, base: nat, uppercase: bool)
    requires base >= 2
    ensures v / base >= 0
    ensures var r := Digits(v, base, uppercase);
            |r| >= 1 && r[0] == DigitChar(v % base, uppercase)
            && r[1..] == if v / base == 0 then [] else Digits(v / base, base, uppercase)
  {
    hide DigitChar;
    Half(v, base);
    var q: nat, c := v / base, DigitChar(v % base, uppercase);
    var rest := if q == 0 then [] else Digits(q, base, uppercase);
    assert Digits(v, base, uppercase) == [c] + rest;
    assert ([c] + rest)[1..] == rest;
  }

  lemma Shift(a: string, b: string)
    requires b != []
    ensures a + b == (a + [b[0]]) + b[1..] && |a + b| == |a| + |b|
  {
  }

  // A character at the end of the buffer
  method Push(buf: array<char>, len: nat, c: char) returns (len': nat)
    requires len < buf.Length
    modifies buf
    ensures len' == len + 1 && buf[..len'] == old(buf[..len]) + [c]
  {
    buf[len] := c;
    len' := len + 1;
  }

  lemma RepeatMore(c: char, n: nat)
    ensures Repeat(c, n) + [c] == Repeat(c, n + 1)
  {
    var a, b := Repeat(c, n) + [c], Repeat(c, n + 1);
    forall i | 0 <= i < n + 1 ensures a[i] == b[i] {}
  }

  // The loops that pad with zeros, up to `to` digits
  method PadZeros(buf: array<char>, len: nat, to: nat) returns (len': nat)
    requires buf.Length == BUFFER_SIZE && len <= BUFFER_SIZE
    modifies buf
    ensures len' == Max(len, Min(to, BUFFER_SIZE))
    ensures buf[..len'] == old(buf[..len]) + Repeat('0', len' - len)
  {
    len' := len;
    while len' < to && len' < BUFFER_SIZE
      invariant len <= len' <= BUFFER_SIZE && len' <= Max(len, to)
      invariant buf[..len'] == old(buf[..len]) + Repeat('0', len' - len)
    {
      RepeatMore('0', len' - len);
      len' := Push(buf, len', '0');
    }
  }

  // _ntoa_format
  method NtoaFormat(buf: array<char>, len0: nat, negative: bool, base: nat, prec: nat, width0: nat, f: Flags)
    returns (text: string)
    requires buf.Length == BUFFER_SIZE && len0 <= BUFFER_SIZE
    modifies buf
    ensures text == Laid(Body(old(buf[..len0]), negative, base, prec, width0, f), DigitWidth(width0, negative, f), f)
  {
    hide Laid, Hashed, PaddedLength, DigitWidth, Sign, Repeat;
    var len, width := PutZeros(buf, len0, negative, prec, width0, f);
    if f.hash {
      len := PutHash(buf, len, base, prec, width, f);
    }
    len := PutSign(buf, len, negative, f);
    text := OutRev(buf, len, width, f);
  }

  // The part of _ntoa_format that pads with zeros
  method PutZeros(buf: array<char>, len0: nat, negative: bool, prec: nat, width0: nat, f: Flags)
    returns (len: nat, width: nat)
    requires buf.Length == BUFFER_SIZE && len0 <= BUFFER_SIZE
    modifies buf
    ensures len == PaddedLength(len0, prec, width0, negative, f) <= BUFFER_SIZE
    ensures len0 <= len && buf[..len] == old(buf[..len0]) + Repeat('0', len - len0)
    ensures width == DigitWidth(width0, negative, f)
  {
    len, width := len0, width0;
    if !f.left {
      if width > 0 && f.zeropad && (negative || f.plus || f.space) {
        width := width - 1;
      }
      len := PadZeros(buf, len, prec);
      ghost var z := len - len0;
      if f.zeropad {
        len := PadZeros(buf, len, width);
        ZerosJoin(old(buf[..len0]), z, len - len0 - z);
      }
    }
  }

  // The part of _ntoa_format that puts the sign
  method PutSign(buf: array<char>, len0: nat, negative: bool, f: Flags) returns (len: nat)
    requires buf.Length == BUFFER_SIZE && len0 <= BUFFER_SIZE
    modifies buf
    ensures len <= BUFFER_SIZE && buf[..len] == old(buf[..len0]) + Sign(len0, negative, f)
  {
    len := len0;
    if len < BUFFER_SIZE {
      if negative {
        len := Push(buf, len, '-');
      } else if f.plus {
        len := Push(buf, len, '+');
      } else if f.space {
        len := Push(buf, len, ' ');
      }
    }
  }

  lemma ZerosJoin(s: string, a: nat, b: nat)
    ensures (s + Repeat('0', a)) + Repeat('0', b) == s + Repeat('0', a + b)
  {
  }

  // The part of _ntoa_format that handles `#`
  method PutHash(buf: array<char>, len0: nat, base: nat, prec: nat, width: nat, f: Flags) returns (len: nat)
    requires buf.Length == BUFFER_SIZE && len0 <= BUFFER_SIZE
    modifies buf
    ensures len <= BUFFER_SIZE && buf[..len] == Hashed(old(buf[..len0]), base, prec, width, f)
  {
    len := len0;
    if !f.precision && len > 0 && (len == prec || len == width) {
      len := len - 1;
      if len > 0 && base == 16 {
        len := len - 1;
      }
    }
    if base == 16 && !f.uppercase && len < BUFFER_SIZE {
      len := Push(buf, len, 'x');
    } else if base == 16 && f.uppercase && len < BUFFER_SIZE {
      len := Push(buf, len, 'X');
    } else if base == 2 && len < BUFFER_SIZE {
      len := Push(buf, len, 'b');
    }
    if len < BUFFER_SIZE {
      len := Push(buf, len, '0');
    }
  }

  // _out_rev
  method OutRev(buf: array<char>, len0: nat, width: nat, f: Flags) returns (text: string)
    requires len0 <= buf.Length
    ensures text == Laid(buf[..len0], width, f)
  {
    text := "";
    var len: nat := len0;
    if !f.left && !f.zeropad {
      var i := len;
      while i < width
        invariant len <= i <= Max(len, width) && text == Repeat(' ', i - len)
      {
        RepeatMore(' ', i - len);
        text := text + [' '];
        i := i + 1;
      }
    }
    ghost var lead := text;
    while len > 0
      invariant len <= len0 && text + Reverse(buf[..len]) == lead + Reverse(buf[..len0])
    {
      ReverseLast(buf[..len]);
      len := len - 1;
      assert buf[..len + 1][..len] == buf[..len];
      text := text + [buf[len]];
    }
    assert text == lead + Reverse(buf[..len0]);
    ghost var out := text;
    if f.left {
      while |text| < width
        invariant |out| <= |text| <= Max(|out|, width) && text == out + Repeat(' ', |text| - |out|)
      {
        RepeatMore(' ', |text| - |out|);
        text := text + [' '];
      }
    }
  }

  lemma {:induction false} ReverseLast(s: string)
    requires s != []
    ensures Reverse(s) == [s[|s| - 1]] + Reverse(s[..|s| - 1])
  {
    if |s| > 1 {
      ReverseLast(s[1..]);
      assert s[1..][..|s| - 2] == s[..|s| - 1][1..];
    } else {
      assert s[..0] == [] && s[1..] == [];
    }
  }

  // ------------------------------------------------------------------------- the parser

  // _is_digit
  predicate IsDigit(c: char) {
    '0' <= c <= '9'
  }

  /** The value of the digits that `s` starts with, after `acc`, in 32 bits. */
  function Parsed(s: string, acc: nat): nat {
    if s == [] || !IsDigit(s[0]) then acc
    else Parsed(s[1..], (acc * 10 + (s[0] - '0') as nat) % WRAP)
  }

  function DigitCount(s: string): (n: nat)
    ensures n <= |s|
  {
    if s == [] || !IsDigit(s[0]) then 0 else 1 + DigitCount(s[1..])
  }

  // _atoi, which moves its caller's pointer `at`
  method Atoi(s: string, at: nat) returns (i: nat, at': nat)
    requires at <= |s|
    ensures i == Parsed(s[at..], 0) && at' == at + DigitCount(s[at..])
  {
    i, at' := 0, at;
    while at' < |s| && IsDigit(s[at'])
      invariant at <= at' <= |s|
      invariant Parsed(s[at'..], i) == Parsed(s[at..], 0)
      invariant at' + DigitCount(s[at'..]) == at + DigitCount(s[at..])
    {
      i := (i * 10 + (s[at'] - '0') as nat) % WRAP;
      assert s[at'..][1..] == s[at' + 1..];
      at' := at' + 1;
    }
  }

  // ------------------------------------------------------------------------ the round trip

  lemma DecimalChar(d: nat, uppercase: bool)
    requires d < 10
    ensures IsDigit(DigitChar(d, uppercase)) && (DigitChar(d, uppercase) - '0') as nat == d
  {
  }

  /** Reading the digits of `v` is having read `v`. */
  lemma {:induction false} ParseDigits(v: nat, uppercase: bool, t: string)
    requires v < WRAP
    ensures Parsed(Reverse(Digits(v, 10, uppercase)) + t, 0) == Parsed(t, v)
    decreases v
  {
    var c := DigitChar(v % 10, uppercase);
    DecimalChar(v % 10, uppercase);
    var ds := Digits(v, 10, uppercase);
    assert ([c] + t)[1..] == t;
    if v / 10 == 0 {
      assert ds[1..] == [] && Reverse(ds) == [c];
      assert Parsed([c] + t, 0) == Parsed(t, v);
    } else {
      assert ds[1..] == Digits(v / 10, 10, uppercase);
      ParseDigits(v / 10, uppercase, [c] + t);
      assert Reverse(ds) + t == Reverse(ds[1..]) + ([c] + t);
      assert Parsed([c] + t, v / 10) == Parsed(t, v);
    }
  }

  lemma {:induction false} ParseZeros(n: int, t: string)
    ensures Parsed(Repeat('0', n) + t, 0) == Parsed(t, 0)
    decreases n
  {
    if n > 0 {
      assert (Repeat('0', n) + t)[1..] == Repeat('0', n - 1) + t;
      ParseZeros(n - 1, t);
    } else {
      assert Repeat('0', n) + t == t;
    }
  }

  lemma {:induction false} ReverseAppend(a: string, b: string)
    ensures Reverse(a + b) == Reverse(b) + Reverse(a)
  {
    if a == [] {
      assert a + b == b;
    } else {
      assert (a + b)[1..] == a[1..] + b;
      ReverseAppend(a[1..], b);
    }
  }

  lemma {:induction false} ReverseRepeat(c: char, n: int)
    ensures Reverse(Repeat(c, n)) == Repeat(c, n)
    decreases n
  {
    if n > 0 {
      assert Repeat(c, n)[1..] == Repeat(c, n - 1);
      ReverseRepeat(c, n - 1);
      RepeatMore(c, n - 1);
    }
  }

  ghost function DecimalDigits(value: nat, f: Flags): string {
    if f.precision && value == 0 then "" else Digits(value, 10, f.uppercase)
  }

  /** Whether a decimal number without a sign is printed with spaces in front. */
  ghost predicate LeadsWithSpace(value: nat, prec: nat, width: nat, f: Flags) {
    !f.left && !f.zeropad && PaddedLength(|DecimalDigits(value, f)|, prec, width, false, f) < width
  }

  /** Spaces, zeros, digits, spaces. */
  lemma DecimalIs(value: nat, prec: nat, width: nat, f: Flags) returns (lead: int, zeros: int, trail: int)
    requires !f.plus && !f.space && !f.hash
    ensures Printed(value, false, 10, prec, width, f)
         == Repeat(' ', lead) + (Repeat('0', zeros) + (Reverse(DecimalDigits(value, f)) + Repeat(' ', trail)))
    ensures lead > 0 <==> LeadsWithSpace(value, prec, width, f)
  {
    hide Digits, Reverse;
    var digits := DecimalDigits(value, f);
    zeros := PaddedLength(|digits|, prec, width, false, f) - |digits|;
    var body := digits + Repeat('0', zeros);
    assert f.(hash := false) == f;
    assert Body(digits, false, 10, prec, width, f) == body + "" == body;
    lead := if !f.left && !f.zeropad then width - |body| else 0;
    trail := if f.left then width - |body| else 0;
    ReverseAppend(digits, Repeat('0', zeros));
    ReverseRepeat('0', zeros);
    Regroup(Repeat(' ', lead), Repeat('0', zeros), Reverse(digits), Repeat(' ', trail));
  }

  lemma Regroup(a: string, b: string, c: string, d: string)
    ensures a + (b + c) + d == a + (b + (c + d))
  {
  }

  /** A decimal number printed without a sign is read back as itself if and only if it is 0
      or no space is put in front of it; zeros in front, to any width or precision, and
      spaces behind do not matter. */
  lemma PrintThenParse(value: nat, prec: nat, width: nat, f: Flags)
    requires value < WRAP && !f.plus && !f.space && !f.hash
    ensures Parsed(Printed(value, false, 10, prec, width, f), 0) == value
       <==> value == 0 || !LeadsWithSpace(value, prec, width, f)
  {
    hide Printed, LeadsWithSpace, Digits, Reverse;
    var lead, zeros, trail := DecimalIs(value, prec, width, f);
    var behind := Repeat(' ', trail);
    var number := Reverse(DecimalDigits(value, f)) + behind;
    if lead > 0 {
      assert (Repeat(' ', lead) + (Repeat('0', zeros) + number))[0] == ' ';
    } else {
      assert Repeat(' ', lead) == [];
      assert Repeat(' ', lead) + (Repeat('0', zeros) + number) == Repeat('0', zeros) + number;
      ParseZeros(zeros, number);
      ParseNumber(value, f, behind);
    }
  }

  /** The value 1, printed to a width of 2, is read back as 0. */
  lemma SpaceStopsTheParser()
    ensures var text := Printed(1, false, 10, 0, 2, Flags(false, false, false, false, false, false, false));
            text == " 1" && Parsed(text, 0) == 0
  {
    var f := Flags(false, false, false, false, false, false, false);
    assert Digits(1, 10, false) == "1";
    assert Repeat('0', 0) == "" && Repeat(' ', 1) == " " && Repeat(' ', 0) == "";
    assert Reverse("1") == "1" by { assert "1"[1..] == ""; }
  }

  lemma ParseNumber(value: nat, f: Flags, t: string)
    requires value < WRAP && (t == [] || !IsDigit(t[0]))
    ensures Parsed(Reverse(DecimalDigits(value, f)) + t, 0) == value
  {
    if DecimalDigits(value, f) == "" {
      assert Reverse("") + t == t;
    } else {
      ParseDigits(value, f.uppercase, t);
    }
  }

  // ------------------------------------------------------------------- signs and letters

  /** The value of a digit in any base up to 36. */
  function DigitValue(c: char): nat {
    if '0' <= c <= '9' then (c - '0') as nat
    else if 'a' <= c <= 'z' then (c - 'a') as nat + 10
    else if 'A' <= c <= 'Z' then (c - 'A') as nat + 10
    else 0
  }

  /** The value of digits of which the last one comes first. */
  function ValueOf(s: string, base: nat): nat {
    if s == [] then 0 else DigitValue(s[0]) + base * ValueOf(s[1..], base)
  }

  /** Every digit is that of the remainder, and a letter is upper-case just when asked for. */
  lemma DigitCharIs(d: nat, uppercase: bool)
    requires d < 36
    ensures DigitValue(DigitChar(d, uppercase)) == d
    ensures d < 10 <==> '0' <= DigitChar(d, uppercase) <= '9'
    ensures d > 0 ==> DigitChar(d, uppercase) != '0'
    ensures d >= 10 ==> var c := DigitChar(d, uppercase); if uppercase then 'A' <= c <= 'Z' else 'a' <= c <= 'z'
  {
  }

  /** The digits stand for the value, in any base up to 36, and no digit is in vain. */
  lemma {:induction false} DigitsValue(v: nat, base: nat, uppercase: bool)
    requires 2 <= base <= 36
    ensures ValueOf(Digits(v, base, uppercase), base) == v
    ensures v > 0 ==> var r := Digits(v, base, uppercase); r[|r| - 1] != '0'
  {
    hide DigitChar, DigitValue, Digits;
    FirstDigit(v, base, uppercase);
    DigitCharIs(v % base, uppercase);
    Half(v, base);
    var r, q: nat := Digits(v, base, uppercase), v / base;
    Recomposed(v, base);
    if q != 0 {
      DigitsValue(q, base, uppercase);
      assert r[|r| - 1] == r[1..][|r| - 2];
    } else {
      assert ValueOf([], base) == 0 && r[|r| - 1] == r[0];
    }
  }

  lemma Recomposed(v: nat, base: nat)
    requires base > 0
    ensures 0 <= v % base < base && v % base + base * (v / base) == v
    ensures v / base == 0 ==> v % base == v && base * (v / base) == 0
  {
  }

  /** A decimal number read with its sign, spaces in front being skipped. */
  function ReadSigned(s: string): int
    decreases |s|
  {
    if s == [] then 0
    else if s[0] == ' ' then ReadSigned(s[1..])
    else if s[0] == '-' then 0 - Parsed(s[1..], 0)
    else if s[0] == '+' then Parsed(s[1..], 0)
    else Parsed(s, 0)
  }

  lemma {:induction false} SkipSpaces(n: int, s: string)
    ensures ReadSigned(Repeat(' ', n) + s) == ReadSigned(s)
    decreases n
  {
    if n > 0 {
      var t := Repeat(' ', n) + s;
      assert t[0] == ' ' && t[1..] == Repeat(' ', n - 1) + s;
      SkipSpaces(n - 1, s);
    } else {
      assert Repeat(' ', n) + s == s;
    }
  }

  /** The length of the digits with zeros in front. */
  ghost function Zeroed(value: nat, negative: bool, prec: nat, width: nat, f: Flags): nat {
    PaddedLength(|DecimalDigits(value, f)|, prec, width, negative, f)
  }

  /** Spaces, a sign, zeros, digits, spaces. */
  lemma SignedIs(value: nat, negative: bool, prec: nat, width: nat, f: Flags)
    returns (lead: int, zeros: int, trail: int)
    requires !f.hash
    ensures Printed(value, negative, 10, prec, width, f)
         == Repeat(' ', lead) + (Sign(Zeroed(value, negative, prec, width, f), negative, f)
                                 + (Repeat('0', zeros) + (Reverse(DecimalDigits(value, f)) + Repeat(' ', trail))))
  {
    hide Digits, Reverse, Sign, Repeat, Body, DigitWidth, PaddedLength, DecimalDigits;
    var digits := DecimalDigits(value, f);
    var n := Zeroed(value, negative, prec, width, f);
    zeros := n - |digits|;
    BodyIs(digits, negative, prec, width, f);
    var body := Body(digits, negative, 10, prec, width, f);
    var w := DigitWidth(width, negative, f);
    lead := if !f.left && !f.zeropad then w - |body| else 0;
    trail := if f.left then w - |body| else 0;
    SignedBody(digits, zeros, n, negative, f);
    PrintedIs(value, negative, prec, width, f);
    RegroupAll(Repeat(' ', lead), Sign(n, negative, f), Repeat('0', zeros), Reverse(digits), Repeat(' ', trail));
  }

  lemma PrintedIs(value: nat, negative: bool, prec: nat, width: nat, f: Flags)
    requires !f.hash
    ensures Printed(value, negative, 10, prec, width, f)
         == Laid(Body(DecimalDigits(value, f), negative, 10, prec, width, f), DigitWidth(width, negative, f), f)
  {
    hide Digits, Body, Laid, DigitWidth;
    assert f.(hash := false) == f;
  }

  lemma BodyIs(digits: string, negative: bool, prec: nat, width: nat, f: Flags)
    requires !f.hash
    ensures var n := PaddedLength(|digits|, prec, width, negative, f);
            Body(digits, negative, 10, prec, width, f) == digits + Repeat('0', n - |digits|) + Sign(n, negative, f)
  {
    hide Sign, Repeat, PaddedLength, DigitWidth, Hashed;
    var n := PaddedLength(|digits|, prec, width, negative, f);
    PaddedAtLeast(|digits|, prec, width, negative, f);
    RepeatLength('0', n - |digits|);
    assert |digits + Repeat('0', n - |digits|)| == n;
  }

  lemma PaddedAtLeast(n: nat, prec: nat, width: nat, negative: bool, f: Flags)
    ensures PaddedLength(n, prec, width, negative, f) >= n
  {
  }

  lemma RepeatLength(c: char, n: int)
    ensures |Repeat(c, n)| == if n > 0 then n else 0
  {
  }

  lemma SignedBody(digits: string, zeros: int, n: nat, negative: bool, f: Flags)
    ensures Reverse(digits + Repeat('0', zeros) + Sign(n, negative, f))
         == Sign(n, negative, f) + (Repeat('0', zeros) + Reverse(digits))
  {
    hide Reverse, Sign, Repeat;
    ReverseAppend(digits + Repeat('0', zeros), Sign(n, negative, f));
    ReverseAppend(digits, Repeat('0', zeros));
    ReverseRepeat('0', zeros);
    SignReversed(n, negative, f);
  }

  lemma RegroupAll(a: string, s: string, z: string, d: string, t: string)
    ensures a + (s + (z + d)) + t == a + (s + (z + (d + t)))
  {
    Regroup(a, s, z + d, t);
    Regroup(s, z, d, t);
    assert s + ((z + d) + t) == s + (z + (d + t)) by { assert (z + d) + t == z + (d + t); }
  }

  lemma SignReversed(n: nat, negative: bool, f: Flags)
    ensures Reverse(Sign(n, negative, f)) == Sign(n, negative, f)
  {
    var s := Sign(n, negative, f);
    if s != "" {
      assert s[1..] == "";
    }
  }

  /** A signed decimal number is read back with its sign, whatever the flags for signs, width and
      precision, if and only if it is not negative, or 0, or its digits with the zeros in front
      leave room for the sign in the buffer of 32 characters. */
  lemma PrintThenReadSigned(value: nat, negative: bool, prec: nat, width: nat, f: Flags)
    requires value < WRAP && !f.hash
    ensures ReadSigned(Printed(value, negative, 10, prec, width, f)) == (if negative then 0 - value else value)
       <==> !negative || value == 0 || Zeroed(value, negative, prec, width, f) < BUFFER_SIZE
  {
    hide Printed, Digits, Reverse, Zeroed, ReadSigned, Parsed;
    var lead, zeros, trail := SignedIs(value, negative, prec, width, f);
    var n := Zeroed(value, negative, prec, width, f);
    var number := Repeat('0', zeros) + (Reverse(DecimalDigits(value, f)) + Repeat(' ', trail));
    SkipSpaces(lead, Sign(n, negative, f) + number);
    ParseZeros(zeros, Reverse(DecimalDigits(value, f)) + Repeat(' ', trail));
    ParseNumber(value, f, Repeat(' ', trail));
    ReadSign(n, negative, f, number);
    Unsigned(value, zeros, trail, f);
  }

  lemma ReadSign(n: nat, negative: bool, f: Flags, number: string)
    ensures ReadSigned(Sign(n, negative, f) + number)
         == if n >= BUFFER_SIZE then ReadSigned(number)
            else if negative then 0 - Parsed(number, 0)
            else if f.plus then Parsed(number, 0)
            else ReadSigned(number)
  {
    var s := Sign(n, negative, f);
    if s != "" {
      assert (s + number)[0] == s[0] && (s + number)[1..] == number;
    } else {
      assert s + number == number;
    }
  }

  /** Without a sign in front. */
  lemma Unsigned(value: nat, zeros: int, trail: int, f: Flags)
    ensures var number := Repeat('0', zeros) + (Reverse(DecimalDigits(value, f)) + Repeat(' ', trail));
            ReadSigned(number) == Parsed(number, 0)
  {
    var digits := DecimalDigits(value, f);
    var number := Repeat('0', zeros) + (Reverse(digits) + Repeat(' ', trail));
    if zeros > 0 {
      assert number[0] == '0';
    } else if digits != "" {
      assert Repeat('0', zeros) + (Reverse(digits) + Repeat(' ', trail)) == Reverse(digits) + Repeat(' ', trail);
      FirstOfReversed(digits);
      DecimalOnly(value, f.uppercase);
      assert number[0] == digits[|digits| - 1];
    } else {
      assert number == Repeat(' ', trail) + "";
      SkipSpaces(trail, "");
      ParseSpaces(trail);
    }
  }

  lemma ParseSpaces(n: int)
    ensures Parsed(Repeat(' ', n) + "", 0) == 0
  {
    var s := Repeat(' ', n) + "";
    if s != "" {
      assert s[0] == ' ';
    }
  }

  lemma {:induction false} FirstOfReversed(s: string)
    requires s != ""
    ensures Reverse(s)[0] == s[|s| - 1]
  {
    if |s| > 1 {
      FirstOfReversed(s[1..]);
    } else {
      assert s[1..] == "";
    }
  }

  lemma {:induction false} DecimalOnly(v: nat, uppercase: bool)
    ensures forall c <- Digits(v, 10, uppercase) :: IsDigit(c)
  {
    FirstDigit(v, 10, uppercase);
    DigitCharIs(v % 10, uppercase);
    if v / 10 != 0 {
      DecimalOnly(v / 10, uppercase);
    }
    var r := Digits(v, 10, uppercase);
    forall c | c in r ensures IsDigit(c) {
      assert r == [r[0]] + r[1..];
    }
  }

  /** The text is as wide as asked for, or as wide as the number needs: with zeros in front the
      width counts up to the 32 characters of the buffer. */
  lemma WidthIs(value: nat, negative: bool, prec: nat, width: nat, f: Flags)
    requires !f.hash
    ensures var n := Zeroed(value, negative, prec, width, f);
            var number := n + |Sign(n, negative, f)|;
            && |Printed(value, negative, 10, prec, width, f)|
               == (if f.left || !f.zeropad then Max(number, width) else number)
            && n >= |DecimalDigits(value, f)| && (!f.left ==> n >= Min(prec, BUFFER_SIZE))
            && (!f.left && f.zeropad ==> number >= Min(width, BUFFER_SIZE))
            && (f.left ==> n == |DecimalDigits(value, f)|)
            && (!f.left && !f.zeropad ==> n == Max(|DecimalDigits(value, f)|, Min(prec, BUFFER_SIZE)))
  {
    hide Digits, Repeat, Body, DecimalDigits;
    var digits := DecimalDigits(value, f);
    var n := Zeroed(value, negative, prec, width, f);
    PaddedAtLeast(|digits|, prec, width, negative, f);
    BodyIs(digits, negative, prec, width, f);
    RepeatLength('0', n - |digits|);
    PrintedIs(value, negative, prec, width, f);
    var body, w := Body(digits, negative, 10, prec, width, f), DigitWidth(width, negative, f);
    assert |body| == n + |Sign(n, negative, f)|;
    RepeatLength(' ', w - |body|);
    RepeatLength(' ', 0);
  }

  /** The mark of `#` in front of the digits. */
  lemma MarkIs(value: nat, base: nat, f: Flags)
    requires 0 < value && (base == 16 || base == 2) && f.hash && !f.plus && !f.space
    requires |Digits(value, base, f.uppercase)| <= BUFFER_SIZE - 2
    ensures Printed(value, false, base, 0, 0, f)
         == (if base == 2 then "0b" else if f.uppercase then "0X" else "0x") + Reverse(Digits(value, base, f.uppercase))
  {
    hide Digits, Reverse;
    var digits := Digits(value, base, f.uppercase);
    var mark := if base == 2 then "b0" else if f.uppercase then "X0" else "x0";
    assert Repeat('0', 0) == "" && Repeat(' ', 0) == "";
    assert Body(digits, false, base, 0, 0, f) == digits + mark;
    ReverseAppend(digits, mark);
    TwoReversed(mark);
  }

  lemma TwoReversed(s: string)
    requires |s| == 2
    ensures Reverse(s) == [s[1], s[0]]
  {
    assert s[1..] == [s[1]] && s[1..][1..] == "";
    assert Reverse(s[1..]) == [s[1]];
  }

  /** -1 with 32 zeros loses its sign. */
  lemma SignLost()
    ensures var f := Flags(false, false, false, false, false, false, true);
            ReadSigned(Printed(1, true, 10, 32, 0, f)) != -1
  {
    var f := Flags(false, false, false, false, false, false, true);
    PrintThenReadSigned(1, true, 32, 0, f);
  }
}
