/** What the fields of the conversions look like: where the spaces, the sign, the mark, the zeros and the digits are.
    The numerals are read here, and not written, so nothing of the printer is used to say what it prints. */
module Fields {
  import opened Bits
  import opened Stdio
  import opened Format
  import opened Wrappers

  // ----- reading a numeral -----------------------------------------------------------------------------

  /** The value of a digit, in either case; 16 for anything else. */
  function DigitValue(c: char): nat {
    if '0' <= c <= '9' then c as nat - '0' as nat
    else if 'a' <= c <= 'f' then c as nat - 'a' as nat + 10
    else if 'A' <= c <= 'F' then c as nat - 'A' as nat + 10
    else 16
  }

  /** Horner's rule, from the left. */
  function ReadIn(s: string, base: nat): nat {
    if s == "" then 0 else base * ReadIn(s[..|s| - 1], base) + DigitValue(s[|s| - 1])
  }

  predicate InCase(c: char, upper: bool) {
    if upper then !('a' <= c <= 'f') else !('A' <= c <= 'F')
  }

  /** `s` is the numeral of `v`: digits of the base in the right case, no leading zero, and it reads as `v`. */
  predicate IsNumeral(s: string, v: nat, base: nat, upper: bool) {
    && s != "" && (|s| > 1 ==> s[0] != '0') && ReadIn(s, base) == v
    && forall k :: 0 <= k < |s| ==> DigitValue(s[k]) < base && InCase(s[k], upper)
  }

  lemma DigitIsRead(x: nat, upper: bool)
    requires x < 16
    ensures var c := DigitChar(x, upper);
            DigitValue(c) == x && InCase(c, upper) && (c == '0' <==> x == 0)
  {
  }

  lemma {:induction false} TextIsNumeral(v: nat, base: nat, upper: bool)
    requires 2 <= base <= 16
    ensures IsNumeral(Text(v, base, upper), v, base, upper) && (v > 0 ==> Text(v, base, upper)[0] != '0')
  {
    if v < base {
      OneDigit(v, base, upper);
    } else {
      var q, x := v / base, v % base;
      assert v == base * q + x;
      ShrinkQuotient(v, base);
      TextIsNumeral(q, base, upper);
      NumeralAnd(Text(q, base, upper), q, base, upper, x, v);
    }
  }

  lemma OneDigit(x: nat, base: nat, upper: bool)
    requires x < base <= 16
    ensures IsNumeral([DigitChar(x, upper)], x, base, upper) && (x > 0 ==> DigitChar(x, upper) != '0')
  {
    DigitIsRead(x, upper);
    var s := [DigitChar(x, upper)];
    assert s[..0] == "" && base * 0 == 0;
    assert ReadIn(s, base) == base * ReadIn(s[..0], base) + DigitValue(s[0]);
  }

  /** One more digit. */
  lemma NumeralAnd(s: string, v: nat, base: nat, upper: bool, x: nat, w: nat)
    requires IsNumeral(s, v, base, upper) && s[0] != '0' && x < base <= 16 && w == base * v + x
    ensures IsNumeral(s + [DigitChar(x, upper)], w, base, upper)
  {
    var t := s + [DigitChar(x, upper)];
    DigitIsRead(x, upper);
    assert t[..|t| - 1] == s;
  }

  /** A number has one numeral. */
  lemma {:induction false} NumeralUnique(s: string, t: string, v: nat, base: nat, upper: bool)
    requires 2 <= base <= 16 && IsNumeral(s, v, base, upper) && IsNumeral(t, v, base, upper)
    ensures s == t
    decreases |s|
  {
    var m, n := |s| - 1, |t| - 1;
    NumeralSteps(s, v, base, upper);
    NumeralSteps(t, v, base, upper);
    SameDigit(s[m], t[n], upper);
    assert s == s[..m] + [s[m]] && t == t[..n] + [t[n]];
    if v >= base { NumeralUnique(s[..m], t[..n], v / base, base, upper); }
  }

  lemma NumeralSteps(s: string, v: nat, base: nat, upper: bool)
    requires 2 <= base <= 16 && IsNumeral(s, v, base, upper)
    ensures DigitValue(s[|s| - 1]) == v % base && (|s| == 1 <==> v < base)
    ensures v >= base ==> IsNumeral(s[..|s| - 1], v / base, base, upper)
  {
    var t, x := s[..|s| - 1], DigitValue(s[|s| - 1]);
    var q := ReadIn(t, base);
    assert v == base * q + x;
    DivModUnique(q, x, base);
    if |s| > 1 {
      ReadPositive(t, base);
      MulMono(1, q, base);
    } else {
      assert t == "" && base * 0 == 0;
    }
  }

  lemma {:induction false} ReadPositive(s: string, base: nat)
    requires s != "" && s[0] != '0' && base >= 2 && forall k :: 0 <= k < |s| ==> DigitValue(s[k]) < 16
    ensures ReadIn(s, base) >= 1
    decreases |s|
  {
    var t := s[..|s| - 1];
    if t != "" {
      ReadPositive(t, base);
      MulMono(1, ReadIn(t, base), base);
    }
  }

  lemma SameDigit(c: char, d: char, upper: bool)
    requires DigitValue(c) == DigitValue(d) < 16
    requires InCase(c, upper) && InCase(d, upper)
    ensures c == d
  {
  }

  // ----- the layout of an integer field ------------------------------------------------------------------

  datatype Parts = Parts(pad: string, sign: string, mark: string, zeros: string, digits: string, trail: string) {
    function Whole(): string { pad + (sign + (mark + (zeros + digits))) + trail }
  }

  predicate Only(s: string, c: char) {
    forall k :: 0 <= k < |s| ==> s[k] == c
  }

  function WantedSign(negative: bool, flags: Flags): string {
    if negative then "-" else if flags.plus then "+" else if flags.space then " " else ""
  }

  /** The mark of the alternative form. */
  function WantedMark(v: nat, base: nat, flags: Flags): string {
    if !flags.hash || v == 0 then ""
    else if base == 16 then (if flags.upper then "0X" else "0x") else if base == 2 then "0b" else "0"
  }

  /** The digits shown of the numeral `d`: none of 0 with a precision, and at most the last 32. */
  function Shown(d: string, v: nat, flags: Flags): string {
    if flags.precision && v == 0 then "" else if |d| <= 32 then d else d[|d| - 32..]
  }

  /** The width for the number itself: with zeros in front of it the sign has to be counted. */
  function NumberWidth(negative: bool, width: nat, flags: Flags): nat {
    if flags.zeropad && !flags.left && WantedSign(negative, flags) != "" && width > 0 then width - 1 else width
  }

  /** The length of the number with its zeros: its own, but for the precision and, with zero padding, the width; the
      last two count up to 32. Left-justified numbers get no zeros. */
  function NumberLength(n: nat, prec: nat, width: nat, flags: Flags): nat {
    var byPrec := if flags.left then 0 else if prec < 32 then prec else 32;
    var byWidth := if flags.left || !flags.zeropad then 0 else if width < 32 then width else 32;
    if n >= byPrec && n >= byWidth then n else if byPrec >= byWidth then byPrec else byWidth
  }

  /** What a mark drops in front: one character, or two in base 16, of a number that fills its width or precision
      exactly. */
  function Dropped(v: nat, n: nat, base: nat, prec: nat, width: nat, flags: Flags): nat {
    if !flags.hash || v == 0 || flags.precision || n == 0 || (n != prec && n != width) then 0
    else if base == 16 && n > 1 then 2 else 1
  }

  /** The layout of the field of a number whose numeral is `d`. The sign and the mark, from its end, are there as far as
      32 characters hold them. */
  predicate IsLayout(p: Parts, d: string, v: nat, negative: bool, base: nat, prec: nat, width: nat, flags: Flags) {
    var s, w, mark := Shown(d, v, flags), NumberWidth(negative, width, flags), WantedMark(v, base, flags);
    var n := NumberLength(|s|, prec, w, flags) - Dropped(v, NumberLength(|s|, prec, w, flags), base, prec, w, flags);
    var body := |p.sign| + |p.mark| + |p.zeros| + |p.digits|;
    && n >= 0 && |p.zeros| + |p.digits| == n
    && p.digits == (if n >= |s| then s else s[|s| - n..]) && Only(p.zeros, '0')
    && p.mark == (if n + |mark| <= 32 then mark else if n < 32 then mark[|mark| - (32 - n)..] else "")
    && p.sign == (if n + |p.mark| < 32 then WantedSign(negative, flags) else "")
    && Only(p.pad, ' ') && |p.pad| == (if flags.left || flags.zeropad || body >= width then 0 else width - body)
    && Only(p.trail, ' ') && |p.trail| == (if !flags.left || body >= width then 0 else width - body)
  }

  /** Every integer field has this layout. */
  lemma FieldLayout(v: nat, negative: bool, base: nat, prec: nat, width: nat, flags: Flags)
    returns (p: Parts, d: string)
    requires 2 <= base <= 16
    ensures IsNumeral(d, v, base, flags.upper) && IsLayout(p, d, v, negative, base, prec, width, flags)
    ensures Field(v, negative, base, prec, width, flags) == p.Whole()
  {
    d := Text(v, base, flags.upper);
    TextIsNumeral(v, base, flags.upper);
    var w, f, s := NumberWidth(negative, width, flags), MarkFlags(v, flags), Shown(d, v, flags);
    var t := ZeroPadded(s, prec, w, f);
    BodyIs(v, negative, base, prec, width, flags, s, t, w, f);
    p := PaddedLayout(v, negative, base, prec, width, flags, d, w, f, s, t);
  }

  lemma PaddedLayout(v: nat, negative: bool, base: nat, prec: nat, width: nat, flags: Flags, d: string, w: nat,
      f: Flags, s: string, t: string) returns (p: Parts)
    requires f == MarkFlags(v, flags) && w == NumberWidth(negative, width, flags)
    requires s == Shown(d, v, flags) && t == ZeroPadded(s, prec, w, f)
    ensures IsLayout(p, d, v, negative, base, prec, width, flags)
    ensures Justified(Push(Sign(negative, f), Marked(t, base, prec, w, f)), width, flags) == p.Whole()
  {
    var cut := CutFits(v, base, prec, w, flags, t);
    var zeros, digits := NumberParts(s, prec, w, flags, f, cut, t);
    var mark := MarkPart(v, base, prec, w, flags, t, cut, zeros + digits);
    p := Assembled(v, negative, base, prec, width, flags, d, f, |t|, cut, mark, zeros, digits,
      Marked(t, base, prec, w, f));
  }

  lemma Assembled(v: nat, negative: bool, base: nat, prec: nat, width: nat, flags: Flags, d: string, f: Flags, n: nat,
      cut: nat, mark: string, zeros: string, digits: string, marked: string) returns (p: Parts)
    requires f == flags.(hash := f.hash) && |marked| <= 32 && marked == mark + (zeros + digits)
    requires var s, w := Shown(d, v, flags), NumberWidth(negative, width, flags);
             && n == NumberLength(|s|, prec, w, flags) && cut == Dropped(v, n, base, prec, w, flags)
             && |zeros| + |digits| == n - cut && Only(zeros, '0')
             && digits == (if n - cut >= |s| then s else s[|s| - (n - cut)..])
    requires var wanted, m := WantedMark(v, base, flags), n - cut;
             mark == (if m + |wanted| <= 32 then wanted else if m < 32 then wanted[|wanted| - (32 - m)..] else "")
    ensures IsLayout(p, d, v, negative, base, prec, width, flags)
    ensures Justified(Push(Sign(negative, f), marked), width, flags) == p.Whole()
  {
    p := PartsOf(negative, width, flags, f, mark, zeros, digits, marked, Push(Sign(negative, f), marked));
    LayoutIs(p, d, v, negative, base, prec, width, flags, n, cut);
  }

  lemma CutFits(v: nat, base: nat, prec: nat, w: nat, flags: Flags, t: string) returns (cut: nat)
    ensures cut == Dropped(v, |t|, base, prec, w, flags) <= |t|
  {
    cut := Dropped(v, |t|, base, prec, w, flags);
  }

  lemma LayoutIs(p: Parts, d: string, v: nat, negative: bool, base: nat, prec: nat, width: nat, flags: Flags, n: nat,
      cut: nat)
    requires var s, w, mark := Shown(d, v, flags), NumberWidth(negative, width, flags), WantedMark(v, base, flags);
             var m := n - cut;
             && n == NumberLength(|s|, prec, w, flags) && cut == Dropped(v, n, base, prec, w, flags)
             && |p.zeros| + |p.digits| == m && Only(p.zeros, '0')
             && p.digits == (if m >= |s| then s else s[|s| - m..])
             && p.mark == (if m + |mark| <= 32 then mark else if m < 32 then mark[|mark| - (32 - m)..] else "")
    requires p.sign == if |p.zeros| + |p.digits| + |p.mark| < 32 then WantedSign(negative, flags) else ""
    requires var n := |p.sign| + |p.mark| + |p.zeros| + |p.digits|;
             && Only(p.pad, ' ') && |p.pad| == (if flags.left || flags.zeropad || n >= width then 0 else width - n)
             && Only(p.trail, ' ') && |p.trail| == (if !flags.left || n >= width then 0 else width - n)
    ensures IsLayout(p, d, v, negative, base, prec, width, flags)
  {
  }

  lemma BodyIs(v: nat, negative: bool, base: nat, prec: nat, width: nat, flags: Flags, s: string, t: string, w: nat,
      f: Flags)
    requires 2 <= base <= 16 && s == Shown(Text(v, base, flags.upper), v, flags)
    requires f == MarkFlags(v, flags) && w == NumberWidth(negative, width, flags)
    requires t == ZeroPadded(s, prec, w, f)
    ensures Body(v, negative, base, prec, width, flags) == Push(Sign(negative, f), Marked(t, base, prec, w, f))
  {
    assert DigitsOf(v, base, flags) == s && DigitWidth(negative, width, f) == w;
  }

  lemma NumberParts(s: string, prec: nat, w: nat, flags: Flags, f: Flags, cut: nat, t: string)
    returns (zeros: string, digits: string)
    requires f == flags.(hash := f.hash) && |s| <= 32 && t == ZeroPadded(s, prec, w, f) && cut <= |t|
    ensures t[cut..] == zeros + digits && |t| == NumberLength(|s|, prec, w, flags) <= 32
    ensures |zeros| + |digits| == |t| - cut && Only(zeros, '0')
    ensures digits == if |t| - cut >= |s| then s else s[|s| - (|t| - cut)..]
  {
    var z := |t| - |s|;
    if cut <= z {
      zeros, digits := Zeros(z)[cut..], s;
    } else {
      zeros, digits := "", s[cut - z..];
    }
    assert t[cut..] == zeros + digits;
  }

  lemma MarkPart(v: nat, base: nat, prec: nat, w: nat, flags: Flags, t: string, cut: nat, u: string)
    returns (mark: string)
    requires |t| <= 32 && cut == Dropped(v, |t|, base, prec, w, flags) && u == t[cut..]
    ensures Marked(t, base, prec, w, MarkFlags(v, flags)) == mark + u
    ensures var whole := WantedMark(v, base, flags);
            mark == if |u| + |whole| <= 32 then whole else if |u| < 32 then whole[|whole| - (32 - |u|)..] else ""
  {
    var f, whole := MarkFlags(v, flags), WantedMark(v, base, flags);
    mark := if |u| + |whole| <= 32 then whole else if |u| < 32 then whole[|whole| - (32 - |u|)..] else "";
    if f.hash {
      assert Stripped(t, base, prec, w, f) == u;
      PushMark(Letter(base, flags.upper), whole, mark, u);
    } else {
      assert u == t;
    }
  }

  lemma PushMark(letter: string, whole: string, mark: string, u: string)
    requires |letter| <= 1 && whole == "0" + letter && |u| <= 32
    requires mark == if |u| + |whole| <= 32 then whole else if |u| < 32 then whole[|whole| - (32 - |u|)..] else ""
    ensures Push("0", Push(letter, u)) == mark + u
  {
    assert "0" + (letter + u) == whole + u;
    if letter == "" {
      assert letter + u == u;
      assert whole[1..] == "";
    } else {
      assert whole[1..] == letter && whole[2..] == "";
    }
  }

  /** Sign and padding around the rest. */
  lemma PartsOf(negative: bool, width: nat, flags: Flags, f: Flags, mark: string, zeros: string, digits: string,
      u: string, body: string) returns (p: Parts)
    requires f == flags.(hash := f.hash) && u == mark + (zeros + digits) && |u| <= 32
    requires body == Push(Sign(negative, f), u)
    ensures p.mark == mark && p.zeros == zeros && p.digits == digits
    ensures p.sign == if |u| < 32 then WantedSign(negative, flags) else ""
    ensures var n := |p.sign| + |p.mark| + |p.zeros| + |p.digits|;
            && Only(p.pad, ' ') && |p.pad| == (if flags.left || flags.zeropad || n >= width then 0 else width - n)
            && Only(p.trail, ' ') && |p.trail| == (if !flags.left || n >= width then 0 else width - n)
    ensures Justified(body, width, flags) == p.Whole()
  {
    var sign := if |u| < 32 then WantedSign(negative, flags) else "";
    assert body == sign + u;
    p := Parts(if flags.left || flags.zeropad then "" else Spaces(width - |body|), sign, mark, zeros, digits,
      if flags.left then Spaces(width - |body|) else "");
    assert p.Whole() == p.pad + body + p.trail;
  }

  /** With room for everything the field is the sign, the mark, the zeros and all the digits. What is not left-justified
      ends with the digits, and only spaces are in front; what is left-justified starts with the sign and has no zeros,
      and only spaces follow. */
  lemma NumberAligned(v: nat, negative: bool, base: nat, prec: nat, width: nat, flags: Flags)
    returns (p: Parts, d: string)
    requires 2 <= base <= 16 && |Text(v, base, flags.upper)| <= 29 && prec <= 29 && (flags.zeropad ==> width <= 29)
    requires flags.hash ==> flags.precision || (width == 0 && prec == 0)
    ensures IsNumeral(d, v, base, flags.upper) && Field(v, negative, base, prec, width, flags) == p.Whole()
    ensures p.sign == WantedSign(negative, flags) && p.mark == WantedMark(v, base, flags) && Only(p.zeros, '0')
    ensures p.digits == if v == 0 && flags.precision then "" else d
    ensures Only(p.pad, ' ') && Only(p.trail, ' ')
    ensures if flags.left then p.pad == "" && p.zeros == "" else p.trail == ""
  {
    p, d := FieldLayout(v, negative, base, prec, width, flags);
    TextIsNumeral(v, base, flags.upper);
    NumeralUnique(d, Text(v, base, flags.upper), v, base, flags.upper);
    NothingLost(p, d, v, negative, base, prec, width, flags);
  }

  lemma NothingLost(p: Parts, d: string, v: nat, negative: bool, base: nat, prec: nat, width: nat, flags: Flags)
    requires |d| <= 29 && prec <= 29 && (flags.zeropad ==> width <= 29)
    requires flags.hash ==> flags.precision || (width == 0 && prec == 0)
    requires IsLayout(p, d, v, negative, base, prec, width, flags)
    ensures p.sign == WantedSign(negative, flags) && p.mark == WantedMark(v, base, flags)
    ensures p.digits == if v == 0 && flags.precision then "" else d
    ensures if flags.left then p.pad == "" && p.zeros == "" else p.trail == ""
  {
    var s, w := Shown(d, v, flags), NumberWidth(negative, width, flags);
    var n := NumberLength(|s|, prec, w, flags);
    assert |s| <= n <= 29 && Dropped(v, n, base, prec, w, flags) == 0;
  }

  // ----- the other fields ------------------------------------------------------------------------------

  /** The string, or as much of it as the precision allows, has the spaces on one side. */
  lemma StringLayout(s: string, prec: nat, width: nat, flags: Flags) returns (pad: string, shown: string)
    ensures shown <= s && |shown| == if flags.precision && prec < |s| then prec else |s|
    ensures Only(pad, ' ') && |pad| == if |shown| < width then width - |shown| else 0
    ensures StringField(s, prec, width, flags) == if flags.left then shown + pad else pad + shown
    ensures Render(Str(s, prec, width, flags)) == StringField(s, prec, width, flags)
  {
    shown := if flags.precision && prec < |s| then s[..prec] else s;
    assert s[..|s|] == s;
    pad := Spaces(width - |shown|);
  }

  /** And so has a character. */
  lemma CharacterLayout(c: char, width: nat, flags: Flags) returns (pad: string)
    ensures Only(pad, ' ') && |pad| == if 1 < width then width - 1 else 0
    ensures Render(Character(c, width, flags)) == if flags.left then [c] + pad else pad + [c]
  {
    pad := Spaces(width - 1);
  }

  // ----- the text ----------------------------------------------------------------------------------------

  /** The pieces are printed one after the other. */
  lemma {:induction false} TextInOrder(ds: seq<Directive>, i: nat)
    requires AllPrintable(ds) && i < |ds|
    ensures RenderAll(ds) == RenderAll(ds[..i]) + (Render(ds[i]) + RenderAll(ds[i + 1..]))
    decreases |ds|
  {
    if i == 0 {
      assert ds[..0] == [] && RenderAll(ds[..0]) == "";
    } else {
      var rest := ds[1..];
      TextInOrder(rest, i - 1);
      assert ds[..i][0] == ds[0] && ds[..i][1..] == rest[..i - 1] && rest[i - 1] == ds[i] && rest[i..] == ds[i + 1..];
      Append(Render(ds[0]), RenderAll(rest[..i - 1]), Render(ds[i]) + RenderAll(ds[i + 1..]));
    }
  }

  /** So the text of a format that asks for an integer among other things has the field of that integer in the middle,
      with the layout above. */
  lemma IntegerInText(ds: seq<Directive>, i: nat) returns (p: Parts, d: string)
    requires (forall k :: 0 <= k < |ds| ==> Spellable(ds[k])) && i < |ds| && ds[i].Integer?
    ensures AllPrintable(ds) && Pieces(SpellAll(ds), Arguments(ds)) == Some(ds)
    ensures RenderAll(ds) == RenderAll(ds[..i]) + (p.Whole() + RenderAll(ds[i + 1..]))
    ensures IsNumeral(d, ds[i].magnitude, ds[i].base, ds[i].flags.upper)
    ensures IsLayout(p, d, ds[i].magnitude, ds[i].negative, ds[i].base, ds[i].prec, ds[i].width, ds[i].flags)
  {
    FormatsComplete(ds);
    TextInOrder(ds, i);
    p, d := FieldLayout(ds[i].magnitude, ds[i].negative, ds[i].base, ds[i].prec, ds[i].width, ds[i].flags);
  }

  /** Five in a field of three, on the right, on the left and with zeros. */
  lemma Fives()
    ensures Field(5, false, 10, 0, 3, NO_FLAGS) == "  5"
    ensures Field(5, true, 10, 0, 3, NO_FLAGS.(left := true)) == "-5 "
    ensures Field(5, false, 10, 0, 3, NO_FLAGS.(zeropad := true, plus := true)) == "+05"
  {
  }

  /** The alternative form of 42 in a field of six. */
  lemma FortyTwo()
    ensures Field(42, false, 16, 0, 6, NO_FLAGS.(hash := true, upper := true)) == "  0X2A"
  {
    assert Text(2, 16, true) == "2";
    assert Text(42, 16, true) == "2A";
  }
}
