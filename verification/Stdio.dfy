/** The output function of stdio.c, its integer printer and its number parser. */
module Stdio {
  import opened Bits

  /** PRINTF_NTOA_BUFFER_SIZE */
  const NTOA_BUFFER: nat := 32

  const NUL: char := 0 as char

  datatype Flags = Flags(zeropad: bool, left: bool, plus: bool, space: bool, upper: bool, precision: bool, hash: bool)

  const NO_FLAGS: Flags := Flags(false, false, false, false, false, false, false)

  // ----- specification: what is printed --------------------------------------------------

  function Spaces(n: int): (s: string)
    ensures |s| == if n > 0 then n else 0
    ensures forall i :: 0 <= i < |s| ==> s[i] == ' '
  {
    seq(if n > 0 then n else 0, i => ' ')
  }

  function Zeros(n: int): (s: string)
    ensures |s| == if n > 0 then n else 0
    ensures forall i :: 0 <= i < |s| ==> s[i] == '0'
  {
    seq(if n > 0 then n else 0, i => '0')
  }

  function DigitChar(d: nat, upper: bool): char
    requires d < 16
  {
    if d < 10 then '0' + d as char else (if upper then 'A' else 'a') + (d - 10) as char
  }

  /** A number in the given base, most significant digit first. */
  function Text(v: nat, base: nat, upper: bool): (s: string)
    requires 2 <= base <= 16
    ensures |s| >= 1
  {
    if v < base then [DigitChar(v, upper)]
    else Text(v / base, base, upper) + [DigitChar(v % base, upper)]
  }

  function Min(a: nat, b: nat): nat { if a <= b then a else b }

  function Max(a: nat, b: nat): nat { if a >= b then a else b }

  /** The digits of an integer conversion: none for 0 with a precision, and the last 32 at most. */
  function DigitsOf(v: nat, base: nat, flags: Flags): (d: string)
    requires 2 <= base <= 16
    ensures |d| <= NTOA_BUFFER
  {
    if flags.precision && v == 0 then "" else LastDigits(Text(v, base, flags.upper))
  }

  function LastDigits(t: string): (d: string)
    ensures |d| <= NTOA_BUFFER && (|t| <= NTOA_BUFFER ==> d == t)
  {
    if |t| <= NTOA_BUFFER then t else t[|t| - NTOA_BUFFER..]
  }

  /** The width that is left for digits; a zero-padded field makes room for a sign. */
  function DigitWidth(negative: bool, width: nat, flags: Flags): nat {
    if !flags.left && width > 0 && flags.zeropad && (negative || flags.plus || flags.space) then width - 1 else width
  }

  /** The length the digits are padded to with zeros: never beyond the conversion buffer. */
  function PaddedLength(n: nat, prec: nat, width: nat, flags: Flags): (r: nat)
    ensures n <= r && (n <= NTOA_BUFFER ==> r <= NTOA_BUFFER)
  {
    if flags.left then n
    else
      var m := Max(n, Min(prec, NTOA_BUFFER));
      if flags.zeropad then Max(m, Min(width, NTOA_BUFFER)) else m
  }

  function ZeroPadded(d: string, prec: nat, width: nat, flags: Flags): (t: string)
    ensures |t| == PaddedLength(|d|, prec, width, flags)
  {
    Zeros(PaddedLength(|d|, prec, width, flags) - |d|) + d
  }

  /** One more character in front, as long as the conversion buffer has room. */
  function Push(c: string, t: string): string {
    if |t| < NTOA_BUFFER then c + t else t
  }

  /** The alternative form drops what fills a width or precision exactly, to make room for its mark. */
  function Stripped(t: string, base: nat, prec: nat, width: nat, flags: Flags): string {
    if flags.precision || t == "" || (|t| != prec && |t| != width) then t
    else if base == 16 && |t| > 1 then t[2..] else t[1..]
  }

  function Letter(base: nat, upper: bool): string {
    if base == 16 then (if upper then "X" else "x") else if base == 2 then "b" else ""
  }

  /** The mark of the alternative form. */
  function Marked(t: string, base: nat, prec: nat, width: nat, flags: Flags): string {
    if flags.hash then Push("0", Push(Letter(base, flags.upper), Stripped(t, base, prec, width, flags))) else t
  }

  function Sign(negative: bool, flags: Flags): string {
    if negative then "-" else if flags.plus then "+" else if flags.space then " " else ""
  }

  /** The digits with padding zeros and mark. */
  function Unsigned(d: string, negative: bool, base: nat, prec: nat, width: nat, flags: Flags): string {
    var w := DigitWidth(negative, width, flags);
    Marked(ZeroPadded(d, prec, w, flags), base, prec, w, flags)
  }

  /** Sign, mark, padding zeros, digits; what finds the buffer full is lost. */
  function Padded(d: string, negative: bool, base: nat, prec: nat, width: nat, flags: Flags): string {
    Push(Sign(negative, flags), Unsigned(d, negative, base, prec, width, flags))
  }

  /** There is no mark for 0. */
  function MarkFlags(v: nat, flags: Flags): Flags {
    if v == 0 then flags.(hash := false) else flags
  }

  function Body(v: nat, negative: bool, base: nat, prec: nat, width: nat, flags: Flags): string
    requires 2 <= base <= 16
  {
    Padded(DigitsOf(v, base, flags), negative, base, prec, width, MarkFlags(v, flags))
  }

  /** The printed field of an integer conversion. */
  function Field(v: nat, negative: bool, base: nat, prec: nat, width: nat, flags: Flags): string
    requires 2 <= base <= 16
  {
    Justified(Body(v, negative, base, prec, width, flags), width, flags)
  }

  function Justified(body: string, width: nat, flags: Flags): string {
    (if flags.left || flags.zeropad then "" else Spaces(width - |body|)) + body
    + (if flags.left then Spaces(width - |body|) else "")
  }

  // ----- the output function --------------------------------------------------------------

  /** A bounded buffer and everything that was sent to it; `idx` counts the latter. */
  class Sink {
    const buffer: array<char>
    const maxlen: nat
    ghost const initial: seq<char>
    ghost var emitted: string

    constructor (buffer: array<char>, maxlen: nat)
      requires maxlen <= buffer.Length
      ensures Valid() && this.buffer == buffer && this.maxlen == maxlen && emitted == ""
      ensures initial == buffer[..]
    {
      this.buffer, this.maxlen, this.initial := buffer, maxlen, buffer[..];
      emitted := "";
    }

    ghost predicate Valid()
      reads this, buffer
    {
      && maxlen <= buffer.Length == |initial|
      && forall k :: 0 <= k < buffer.Length ==>
        buffer[k] == if k < |emitted| && k < maxlen then emitted[k] else initial[k]
    }

    /** _out_buffer */
    method Out(c: char, idx: nat)
      requires Valid() && idx == |emitted|
      modifies this`emitted, buffer
      ensures Valid() && emitted == old(emitted) + [c]
    {
      if idx < maxlen {
        buffer[idx] := c;
      }
      emitted := emitted + [c];
    }

    method Pad(idx0: nat, n: int) returns (idx: nat)
      requires Valid() && idx0 == |emitted|
      modifies this`emitted, buffer
      ensures Valid() && emitted == old(emitted) + Spaces(n) && idx == |emitted|
    {
      idx := idx0;
      var i := 0;
      while i < n
        invariant 0 <= i && (n > 0 ==> i <= n) && (n <= 0 ==> i == 0)
        invariant Valid() && emitted == old(emitted) + Spaces(i) && idx == |emitted|
      {
        Out(' ', idx);
        idx := idx + 1;
        i := i + 1;
        assert Spaces(i) == Spaces(i - 1) + [' '];
      }
    }
  }

  function Reverse(s: string): (r: string)
    ensures |r| == |s| && forall i :: 0 <= i < |s| ==> r[i] == s[|s| - 1 - i]
  {
    seq(|s|, i requires 0 <= i < |s| => s[|s| - 1 - i])
  }

  /** _out_rev: the buffer is filled least significant digit first and printed backwards. */
  method OutRev(sink: Sink, idx0: nat, buf: array<char>, len0: nat, width: nat, flags: Flags) returns (idx: nat)
    requires sink.Valid() && idx0 == |sink.emitted| && len0 <= buf.Length && buf != sink.buffer
    modifies sink`emitted, sink.buffer
    ensures sink.Valid() && idx == |sink.emitted|
    ensures sink.emitted == old(sink.emitted) + Justified(Reverse(buf[..len0]), width, flags)
  {
    ghost var body := Reverse(buf[..len0]);
    idx := idx0;
    if !flags.left && !flags.zeropad {
      idx := sink.Pad(idx, width - len0);
    }
    ghost var before := sink.emitted;
    var len := len0;
    while len > 0
      invariant len <= len0
      invariant sink.Valid() && idx == |sink.emitted|
      invariant sink.emitted == before + body[..len0 - len]
    {
      len := len - 1;
      sink.Out(buf[len], idx);
      idx := idx + 1;
      assert body[..len0 - len] == body[..len0 - len - 1] + [buf[len]];
    }
    assert body[..len0] == body;
    if flags.left {
      // the source counts the characters printed since the start; nothing was padded before them
      idx := sink.Pad(idx, width - (idx - idx0));
    }
  }

  /** _ntoa_format */
  method NtoaFormat(sink: Sink, idx0: nat, buf: array<char>, len0: nat, negative: bool, base: nat, prec: nat,
      width0: nat, flags: Flags, ghost digits: string) returns (idx: nat)
    requires sink.Valid() && idx0 == |sink.emitted| && buf != sink.buffer
    requires buf.Length == NTOA_BUFFER && len0 <= NTOA_BUFFER && digits == Reverse(buf[..len0])
    modifies sink`emitted, sink.buffer, buf
    ensures sink.Valid() && idx == |sink.emitted|
    ensures sink.emitted == old(sink.emitted)
      + Justified(Padded(digits, negative, base, prec, width0, flags), width0, flags)
  {
    var len := FormatDigits(buf, len0, negative, base, prec, width0, flags, digits);
    idx := OutRev(sink, idx0, buf, len, width0, flags);
  }

  /** Padding, mark and sign, added to the buffer. */
  method FormatDigits(buf: array<char>, len0: nat, negative: bool, base: nat, prec: nat, width0: nat, flags: Flags,
      ghost digits: string) returns (len: nat)
    requires buf.Length == NTOA_BUFFER && len0 <= NTOA_BUFFER && digits == Reverse(buf[..len0])
    modifies buf
    ensures len <= NTOA_BUFFER
    ensures Reverse(buf[..len]) == Padded(digits, negative, base, prec, width0, flags)
  {
    var width;
    len, width := PadDigits(buf, len0, negative, prec, width0, flags, digits);
    if flags.hash {
      len := AddMark(buf, len, base, prec, width, flags);
    }
    len := AddSign(buf, len, negative, flags);
  }

  /** The padding with zeros. */
  method PadDigits(buf: array<char>, len0: nat, negative: bool, prec: nat, width0: nat, flags: Flags,
      ghost digits: string)
    returns (len: nat, width: nat)
    requires buf.Length == NTOA_BUFFER && len0 <= NTOA_BUFFER && digits == Reverse(buf[..len0])
    modifies buf
    ensures width == DigitWidth(negative, width0, flags) && len <= NTOA_BUFFER
    ensures Reverse(buf[..len]) == ZeroPadded(digits, prec, width, flags)
  {
    width := width0;
    len := len0;
    if !flags.left {
      if width > 0 && flags.zeropad && (negative || flags.plus || flags.space) {
        width := width - 1;
      }
      len := FillZeros(buf, len, prec);
      if flags.zeropad {
        len := FillZeros(buf, len, width);
      }
    }
  }

  /** The mark of the alternative form. */
  method AddMark(buf: array<char>, len0: nat, base: nat, prec: nat, width: nat, flags: Flags) returns (len: nat)
    requires buf.Length == NTOA_BUFFER && len0 <= NTOA_BUFFER && flags.hash
    modifies buf
    ensures len <= NTOA_BUFFER
    ensures Reverse(buf[..len]) == Marked(old(Reverse(buf[..len0])), base, prec, width, flags)
  {
    len := Strip(buf, len0, base, prec, width, flags);
    if base == 16 && !flags.upper {
      len := PushChar(buf, len, 'x');
    } else if base == 16 && flags.upper {
      len := PushChar(buf, len, 'X');
    } else if base == 2 {
      len := PushChar(buf, len, 'b');
    }
    len := PushChar(buf, len, '0');
  }

  method Strip(buf: array<char>, len0: nat, base: nat, prec: nat, width: nat, flags: Flags) returns (len: nat)
    requires len0 <= buf.Length
    ensures len <= len0
    ensures Reverse(buf[..len]) == Stripped(Reverse(buf[..len0]), base, prec, width, flags)
  {
    ghost var t := Reverse(buf[..len0]);
    len := len0;
    if !flags.precision && len > 0 && (len == prec || len == width) {
      len := len - 1;
      if len > 0 && base == 16 {
        len := len - 1;
      }
    }
    assert Reverse(buf[..len]) == t[len0 - len..];
  }

  /** `if (len < PRINTF_NTOA_BUFFER_SIZE) buf[len++] = c;` */
  method PushChar(buf: array<char>, len0: nat, c: char) returns (len: nat)
    requires buf.Length == NTOA_BUFFER && len0 <= NTOA_BUFFER
    modifies buf
    ensures len0 <= len <= NTOA_BUFFER
    ensures Reverse(buf[..len]) == Push([c], old(Reverse(buf[..len0])))
  {
    len := len0;
    if len < NTOA_BUFFER {
      buf[len] := c;
      len := len + 1;
      assert buf[..len] == old(buf[..len0]) + [c];
    }
  }

  method AddSign(buf: array<char>, len0: nat, negative: bool, flags: Flags) returns (len: nat)
    requires buf.Length == NTOA_BUFFER && len0 <= NTOA_BUFFER
    modifies buf
    ensures len0 <= len <= NTOA_BUFFER
    ensures Reverse(buf[..len]) == Push(Sign(negative, flags), old(Reverse(buf[..len0])))
  {
    len := len0;
    if negative {
      len := PushChar(buf, len, '-');
    } else if flags.plus {
      len := PushChar(buf, len, '+');
    } else if flags.space {
      len := PushChar(buf, len, ' ');
    }
  }

  /** The two padding loops. */
  method FillZeros(buf: array<char>, len0: nat, target: nat) returns (len: nat)
    requires buf.Length == NTOA_BUFFER && len0 <= NTOA_BUFFER
    modifies buf
    ensures len == Max(len0, Min(target, NTOA_BUFFER))
    ensures buf[..len] == old(buf[..len0]) + Zeros(len - len0)
  {
    len := len0;
    while len < target && len < NTOA_BUFFER
      invariant len0 <= len <= NTOA_BUFFER && (len > len0 ==> len <= target)
      invariant buf[..len] == old(buf[..len0]) + Zeros(len - len0)
    {
      buf[len] := '0';
      len := len + 1;
      assert buf[..len] == buf[..len - 1] + ['0'];
    }
  }

  /** _ntoa_long and _ntoa_long_long, which differ in the width of the value only. */
  method NtoaLong(sink: Sink, idx0: nat, value0: nat, negative: bool, base: nat, prec: nat, width: nat, flags0: Flags)
    returns (idx: nat)
    requires sink.Valid() && idx0 == |sink.emitted| && 2 <= base <= 16
    modifies sink`emitted, sink.buffer
    ensures sink.Valid() && idx == |sink.emitted|
    ensures sink.emitted == old(sink.emitted) + Field(value0, negative, base, prec, width, flags0)
  {
    var buf := new char[NTOA_BUFFER];
    var len := 0;
    var flags := if value0 == 0 then flags0.(hash := false) else flags0;
    ghost var digits := DigitsOf(value0, base, flags0);
    if !flags.precision || value0 != 0 {
      len := ConvertDigits(buf, value0, base, flags.upper);
    } else {
      assert Reverse(buf[..0]) == "";
    }
    assert |digits| == |Reverse(buf[..len])| == len;
    idx := NtoaFormat(sink, idx0, buf, len, negative, base, prec, width, flags, digits);
  }

  /** The do-while that converts the digits. */
  method ConvertDigits(buf: array<char>, value0: nat, base: nat, upper: bool) returns (len: nat)
    requires buf.Length == NTOA_BUFFER && 2 <= base <= 16
    modifies buf
    ensures 1 <= len <= NTOA_BUFFER && Reverse(buf[..len]) == LastDigits(Text(value0, base, upper))
  {
    ghost var whole := Text(value0, base, upper);
    var value := value0;
    len := 0;
    assert Reverse(buf[..0]) == "";
    len, value := ConvertDigit(buf, len, value, base, upper, whole);
    while value != 0 && len < NTOA_BUFFER
      invariant 1 <= len <= NTOA_BUFFER
      invariant whole == Rest(value, base, upper) + Reverse(buf[..len])
      decreases value
    {
      len, value := ConvertDigit(buf, len, value, base, upper, whole);
    }
  }

  /** The body of that loop. */
  method ConvertDigit(buf: array<char>, len0: nat, value0: nat, base: nat, upper: bool, ghost whole: string)
    returns (len: nat, value: nat)
    requires len0 < buf.Length && 2 <= base <= 16
    requires whole == Text(value0, base, upper) + Reverse(buf[..len0])
    modifies buf
    ensures len == len0 + 1 && value == value0 / base && (value0 > 0 ==> value < value0)
    ensures whole == Rest(value, base, upper) + Reverse(buf[..len])
  {
    TextStep(value0, base, upper);
    var digit := DigitChar(value0 % base, upper);
    value := value0 / base;
    StoreDigit(buf, len0, digit, Rest(value, base, upper));
    len := len0 + 1;
  }

  method StoreDigit(buf: array<char>, len: nat, digit: char, ghost rest: string)
    requires len < buf.Length
    modifies buf
    ensures rest + Reverse(buf[..len + 1]) == rest + [digit] + Reverse(old(buf[..len]))
  {
    ghost var before := buf[..len];
    buf[len] := digit;
    assert buf[..len + 1] == before + [digit];
    ReverseLast(rest, before, digit);
  }

  lemma ReverseLast(rest: string, s: string, c: char)
    ensures rest + [c] + Reverse(s) == rest + Reverse(s + [c])
  {
    assert Reverse(s + [c]) == [c] + Reverse(s);
  }

  /** The digits still to be converted. */
  function Rest(v: nat, base: nat, upper: bool): string
    requires 2 <= base <= 16
  {
    if v == 0 then "" else Text(v, base, upper)
  }

  lemma TextStep(v: nat, base: nat, upper: bool)
    requires 2 <= base <= 16
    ensures Text(v, base, upper) == Rest(v / base, base, upper) + [DigitChar(v % base, upper)]
    ensures v > 0 ==> v / base < v
  {
    if v > 0 { ShrinkQuotient(v, base); } else { DivModUnique(0, 0, base); }
  }

  lemma ShrinkQuotient(v: nat, base: nat)
    requires v > 0 && base >= 2
    ensures v / base < v && (v < base ==> v / base == 0 && v % base == v) && (v >= base ==> v / base >= 1)
  {
    var q, r := v / base, v % base;
    assert v == base * q + r;
    if q >= v { MulMono(2, base, q); }
    if v < base { DivModUnique(0, v, base); }
    assert q == 0 ==> base * q == 0;
  }

  /** The conversion buffer is long enough for every word in every base. */
  lemma WordTextLength(v: Word, base: nat, upper: bool)
    requires 2 <= base <= 16
    ensures |Text(v, base, upper)| <= NTOA_BUFFER
  {
    Pow2Values();
    TextLength(v, base, upper, 32);
  }

  /** A number below 2^k has at most k digits in any base. */
  lemma {:induction false} TextLength(v: nat, base: nat, upper: bool, k: nat)
    requires 2 <= base <= 16 && v < Pow2(k) && k >= 1
    ensures |Text(v, base, upper)| <= k
  {
    if v >= base {
      assert v / base <= v / 2 by {
        var q := v / base;
        assert v == base * q + v % base;
        MulMono(2, base, q);
      }
      assert Pow2(1) == 2;
      TextLength(v / base, base, upper, k - 1);
    }
  }

  // ----- the parser --------------------------------------------------------------------------

  predicate IsDigit(c: char) { '0' <= c <= '9' }

  /** The end of the run of digits that starts at `i`. */
  function DigitRun(s: string, i: nat): (j: nat)
    requires i <= |s|
    ensures i <= j <= |s| && (j < |s| ==> !IsDigit(s[j])) && forall k :: i <= k < j ==> IsDigit(s[k])
    decreases |s| - i
  {
    if i < |s| && IsDigit(s[i]) then DigitRun(s, i + 1) else i
  }

  /** The number a run of digits denotes. */
  function Value(s: string): nat
    requires forall k :: 0 <= k < |s| ==> IsDigit(s[k])
  {
    if s == [] then 0
    else
      assert IsDigit(s[|s| - 1]);
      10 * Value(s[..|s| - 1]) + (s[|s| - 1] as int - '0' as int)
  }

  /** _atoi: the value of the leading digits, modulo 2^32, and the position after them. */
  method Atoi(s: string, start: nat) returns (i: Word, end: nat)
    requires start <= |s|
    ensures end == DigitRun(s, start)
    ensures i == Value(s[start..end]) % 0x1_0000_0000
  {
    i := 0;
    end := start;
    assert s[start..start] == [];
    while end < |s| && IsDigit(s[end])
      invariant start <= end <= |s| && DigitRun(s, end) == DigitRun(s, start)
      invariant forall k :: start <= k < end ==> IsDigit(s[k])
      invariant i == Value(s[start..end]) % 0x1_0000_0000
      decreases |s| - end
    {
      ghost var v := Value(s[start..end]);
      var d := s[end] as int - '0' as int;
      WrapStep(v, d);
      i := (i * 10 + d) % 0x1_0000_0000;
      end := end + 1;
      assert s[start..end][..end - start - 1] == s[start..end - 1];
    }
  }

  lemma WrapStep(v: nat, d: nat)
    ensures (v % 0x1_0000_0000 * 10 + d) % 0x1_0000_0000 == (10 * v + d) % 0x1_0000_0000
  {
    var w := 0x1_0000_0000;
    var q := v / w;
    assert 10 * v + d == (v % w * 10 + d) + (10 * q) * w;
    var t := v % w * 10 + d;
    DivModUnique(t / w + 10 * q, t % w, w);
  }

  /** Reading back what was printed. */
  lemma {:induction false} ValueOfText(v: nat)
    ensures forall k :: 0 <= k < |Text(v, 10, false)| ==> IsDigit(Text(v, 10, false)[k])
    ensures Value(Text(v, 10, false)) == v
  {
    var s := Text(v, 10, false);
    if v >= 10 {
      ValueOfText(v / 10);
      assert s[..|s| - 1] == Text(v / 10, 10, false);
    } else {
      assert s[..|s| - 1] == [];
    }
  }

  /** Printer and parser: the plain decimal field of any 32-bit value, followed by anything but a digit,
      is parsed back to that value, and parsing stops right behind it. (`Atoi` computes `DigitRun` and
      `Value` modulo 2^32.) */
  lemma PrintParseRoundTrip(v: Word, rest: string)
    requires rest == [] || !IsDigit(rest[0])
    ensures var s := Field(v, false, 10, 0, 0, NO_FLAGS) + rest;
            var end := DigitRun(s, 0);
            && s[end..] == rest
            && (forall k :: 0 <= k < end ==> IsDigit(s[k]))
            && Value(s[..end]) % 0x1_0000_0000 == v
  {
    ValueOfText(v);
    PlainField(v);
    ParsedBack(Text(v, 10, false), rest);
  }

  lemma ParsedBack(t: string, rest: string)
    requires (rest == [] || !IsDigit(rest[0])) && forall k :: 0 <= k < |t| ==> IsDigit(t[k])
    ensures DigitRun(t + rest, 0) == |t| && (t + rest)[..|t|] == t && (t + rest)[|t|..] == rest
  {
    RunOver(t, rest, 0);
  }

  lemma PlainField(v: Word)
    ensures Field(v, false, 10, 0, 0, NO_FLAGS) == Text(v, 10, false)
  {
    WordTextLength(v, 10, false);
    assert Zeros(0) == "" && Spaces(0 - |Text(v, 10, false)|) == "";
  }

  lemma {:induction false} RunOver(t: string, rest: string, i: nat)
    requires i <= |t| && forall k :: 0 <= k < |t| ==> IsDigit(t[k])
    requires rest == [] || !IsDigit(rest[0])
    ensures DigitRun(t + rest, i) == |t|
    decreases |t| - i
  {
    if i < |t| {
      assert (t + rest)[i] == t[i];
      RunOver(t, rest, i + 1);
    } else if rest != [] {
      assert (t + rest)[i] == rest[0];
    }
  }

  // ----- properties of a field ------------------------------------------------------------------

  lemma MarkedLength(t: string, base: nat, prec: nat, width: nat, flags: Flags)
    requires |t| <= NTOA_BUFFER
    ensures |t| <= |Marked(t, base, prec, width, flags)| <= NTOA_BUFFER
  {
  }

  /** A field is as wide as asked for, except zero-padded ones wider than the conversion buffer: those come
      out with 32 characters. */
  lemma FieldWidth(v: nat, negative: bool, base: nat, prec: nat, width: nat, flags: Flags)
    requires 2 <= base <= 16
    ensures |Field(v, negative, base, prec, width, flags)| >= width
        <==> flags.left || !flags.zeropad || width <= NTOA_BUFFER
  {
    var f, w := MarkFlags(v, flags), DigitWidth(negative, width, flags);
    MarkedLength(ZeroPadded(DigitsOf(v, base, flags), prec, w, f), base, prec, w, f);
  }

  /** The sign of a negative number is printed exactly when the digits, padded and marked, leave room for it. */
  lemma SignPrinted(v: nat, base: nat, prec: nat, width: nat, flags: Flags)
    requires 2 <= base <= 16
    ensures '-' in Field(v, true, base, prec, width, flags) <==>
            |Unsigned(DigitsOf(v, base, flags), true, base, prec, width, MarkFlags(v, flags))| < NTOA_BUFFER
  {
    var u := Unsigned(DigitsOf(v, base, flags), true, base, prec, width, MarkFlags(v, flags));
    var body := Body(v, true, base, prec, width, flags);
    NoMinus(v, base, flags.upper);
    UnsignedNoMinus(DigitsOf(v, base, flags), true, base, prec, width, MarkFlags(v, flags));
    assert '-' in body <==> |u| < NTOA_BUFFER by {
      if |u| < NTOA_BUFFER { assert body[0] == '-'; }
    }
    JustifiedHas(body, width, flags, '-');
  }

  lemma UnsignedNoMinus(d: string, negative: bool, base: nat, prec: nat, width: nat, flags: Flags)
    requires '-' !in d
    ensures '-' !in Unsigned(d, negative, base, prec, width, flags)
  {
    var w := DigitWidth(negative, width, flags);
    var t := ZeroPadded(d, prec, w, flags);
    assert '-' !in t;
    assert '-' !in Stripped(t, base, prec, w, flags);
  }

  lemma JustifiedHas(body: string, width: nat, flags: Flags, c: char)
    requires c != ' '
    ensures c in Justified(body, width, flags) <==> c in body
  {
    var f := Justified(body, width, flags);
    var lead := if flags.left || flags.zeropad then "" else Spaces(width - |body|);
    if c in body {
      var k :| 0 <= k < |body| && body[k] == c;
      assert f[|lead| + k] == c;
    }
  }

  predicate EndsWith(s: string, d: string) {
    |d| <= |s| && s[|s| - |d|..] == d
  }

  /** The alternative form keeps the digits exactly when what it drops is padding. */
  lemma MarkKeepsDigits(v: nat, negative: bool, base: nat, prec: nat, width: nat, flags: Flags)
    requires 2 <= base <= 16 && v > 0 && |Text(v, base, flags.upper)| <= NTOA_BUFFER
    ensures var d, w := DigitsOf(v, base, flags), DigitWidth(negative, width, flags);
            EndsWith(Unsigned(d, negative, base, prec, width, flags), d) <==>
            !(flags.hash && |Stripped(ZeroPadded(d, prec, w, flags), base, prec, w, flags)| < |d|)
  {
    var d, w := DigitsOf(v, base, flags), DigitWidth(negative, width, flags);
    FirstDigit(v, base, flags.upper);
    if flags.hash {
      var t := Stripped(ZeroPadded(d, prec, w, flags), base, prec, w, flags);
      if |t| >= |d| {
        assert EndsWith(t, d);
        PushEnds(Letter(base, flags.upper), t, d);
        PushEnds("0", Push(Letter(base, flags.upper), t), d);
      } else {
        PushNotEnds(Letter(base, flags.upper), t, d);
        PushNotEnds("0", Push(Letter(base, flags.upper), t), d);
      }
    }
  }

  lemma PushEnds(c: string, t: string, d: string)
    requires |c| <= 1 && EndsWith(t, d)
    ensures EndsWith(Push(c, t), d)
  {
    assert (c + t)[|c|..] == t;
  }

  /** What is in front of a text too short for the digits is no digit of theirs. */
  lemma PushNotEnds(c: string, t: string, d: string)
    requires d != "" && !EndsWith(t, d) && (c != "" ==> |c| == 1 && c[0] != d[0])
    ensures !EndsWith(Push(c, t), d)
  {
    if c != "" {
      if |d| <= |t| {
        SuffixOfSum(c, t, d);
      } else if |d| == |c + t| {
        assert (c + t)[0] == c[0] && (c + t)[0..] == c + t;
      }
    }
  }

  lemma SuffixOfSum(c: string, t: string, d: string)
    requires |d| <= |t|
    ensures EndsWith(c + t, d) <==> EndsWith(t, d)
  {
    assert (c + t)[|c| + |t| - |d|..] == t[|t| - |d|..];
  }

  /** The first digit of a positive number is not a zero, nor the letter of a mark. */
  lemma {:induction false} FirstDigit(v: nat, base: nat, upper: bool)
    requires 2 <= base <= 16 && v > 0
    ensures var c := Text(v, base, upper)[0]; c != '0' && (Letter(base, upper) != "" ==> c != Letter(base, upper)[0])
  {
    if v >= base {
      ShrinkQuotient(v, base);
      FirstDigit(v / base, base, upper);
    }
  }

  /** A zero-padded field of width 40 is too narrow; with precision 32 the sign of -1 is lost; and the alternative
      form of 0x1234 in a field of width 4 is that of 0x34. */
  lemma BufferTooShort()
    ensures |Field(1, false, 10, 0, 40, NO_FLAGS.(zeropad := true))| < 40
    ensures '-' !in Field(1, true, 10, 32, 0, NO_FLAGS.(precision := true))
    ensures Field(0x1234, false, 16, 0, 4, NO_FLAGS.(hash := true)) == "0x34"
  {
    FieldWidth(1, false, 10, 0, 40, NO_FLAGS.(zeropad := true));
    SignPrinted(1, 10, 32, 0, NO_FLAGS.(precision := true));
    assert Text(0x12, 16, false) == "12";
    assert Text(0x1234, 16, false) == "1234";
  }

  /** Of a 64-bit number in binary the conversion buffer holds the low 32 digits; in the other bases of the formats
      it holds the whole number. */
  lemma WideDigits(v: nat, upper: bool)
    requires v < 0x1_0000_0000_0000_0000
    ensures |Text(v, 2, upper)| <= NTOA_BUFFER <==> v < 0x1_0000_0000
    ensures |Text(v, 8, upper)| <= NTOA_BUFFER && |Text(v, 10, upper)| <= NTOA_BUFFER
        && |Text(v, 16, upper)| <= NTOA_BUFFER
  {
    Pow2Values();
    Pow2Add(32, 32);
    if v < 0x1_0000_0000 { TextLength(v, 2, upper, 32); } else { BinaryLength(v, upper, 32); }
    QuarterLength(v, 8, upper, 32);
    QuarterLength(v, 10, upper, 32);
    QuarterLength(v, 16, upper, 32);
  }

  lemma {:induction false} BinaryLength(v: nat, upper: bool, k: nat)
    requires v >= Pow2(k)
    ensures |Text(v, 2, upper)| > k
  {
    if k > 0 { BinaryLength(v / 2, upper, k - 1); }
  }

  lemma {:induction false} QuarterLength(v: nat, base: nat, upper: bool, k: nat)
    requires 4 <= base <= 16 && v < Pow2(2 * k) && k >= 1
    ensures |Text(v, base, upper)| <= k
  {
    assert Pow2(2) == 4;
    if v >= base {
      assert v / base <= v / 4 by {
        var q := v / base;
        assert v == base * q + v % base;
        MulMono(4, base, q);
      }
      assert Pow2(2 * k) == 4 * Pow2(2 * (k - 1)) by { assert Pow2(2 * k - 1) == 2 * Pow2(2 * k - 2); }
      QuarterLength(v / base, base, upper, k - 1);
    }
  }

  lemma {:induction false} NoMinus(v: nat, base: nat, upper: bool)
    requires 2 <= base <= 16
    ensures '-' !in Text(v, base, upper)
  {
    DigitNotMinus(v % base, upper);
    if v >= base {
      ShrinkQuotient(v, base);
      NoMinus(v / base, base, upper);
    } else {
      DigitNotMinus(v, upper);
    }
  }

  lemma DigitNotMinus(d: nat, upper: bool)
    requires d < 16
    ensures DigitChar(d, upper) != '-'
  {
  }
}
