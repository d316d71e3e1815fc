/** The parts of a conversion that no directive needs: sizes, asterisks, pointers, and flags that have no effect. */
module Conversions {
  import opened Bits
  import opened Stdio
  import opened Format
  import opened Wrappers
  import Fields

  // ----- sizes ---------------------------------------------------------------------------------------------

  /** The bits of an argument with this size in front of its specifier. */
  function SizeBits(z: string): nat {
    if z == "hh" then 8 else if z == "h" then 16 else if z == "ll" || z == "j" then 64 else 32
  }

  predicate IsSize(z: string) { z in {"", "hh", "h", "l", "t", "z", "ll", "j"} }

  function BitsOf(size: Size): nat {
    match size case Char => 8 case Short => 16 case Int => 32 case Wide => 64
  }

  lemma SizeIsRead(s: Scan, z: string, c: char, rest: string)
    requires IsSize(z) && c in "diuxXob" && s.p == z + ([c] + rest) && s.size == Int
    ensures ScanSize(s) == s.(size := ScanSize(s).size, p := [c] + rest) && BitsOf(ScanSize(s).size) == SizeBits(z)
  {
    SizeSplit(s.p, z, c, [c] + rest);
  }

  lemma SizeSplit(p: string, z: string, c: char, t: string)
    requires |z| <= 2 && t != "" && t[0] == c && p == z + t
    ensures z == "" ==> p == t
    ensures z != "" ==> p[0] == z[0] && p[1] == (if |z| == 1 then c else z[1])
    ensures p[|z|..] == t
  {
  }

  /** The number modulo 2^k, in two's complement; of 8 bits it is unsigned. */
  predicate IsSigned(n: int, v: nat, k: nat) {
    && (v - n) % Pow2(k) == 0
    && if k == 8 then 0 <= n < Pow2(8) else k >= 1 && 0 <= n + Pow2(k - 1) < Pow2(k)
  }

  predicate IsUnsigned(n: int, v: nat, k: nat) {
    (v - n) % Pow2(k) == 0 && 0 <= n < Pow2(k)
  }

  /** The argument is one of the size: a machine word, or two. */
  predicate Fits(arg: Arg, v: nat, size: Size) {
    if size == Wide then arg.WideArg? && arg.w == v else arg.IntArg? && arg.v == v
  }

  function NumberOf(d: Directive): int
    requires d.Integer?
  {
    var m: int := d.magnitude;
    if d.negative then -m else m
  }

  lemma SignedIs(v: nat, size: Size)
    requires size == Int ==> v < 0x1_0000_0000
    requires size == Wide ==> v < 0x1_0000_0000_0000_0000
    ensures IsSigned(SignedValue(v, size), v, BitsOf(size))
  {
    Powers();
    match size
    case Char => Low(v, Pow2(8), SignedValue(v, size));
    case Short => Low(v, Pow2(16), SignedValue(v, size));
    case Int => Whole(v, Pow2(32));
    case Wide => Whole(v, Pow2(64));
  }

  lemma UnsignedIs(v: nat, size: Size)
    requires size == Int ==> v < 0x1_0000_0000
    requires size == Wide ==> v < 0x1_0000_0000_0000_0000
    ensures IsUnsigned(UnsignedValue(v, size), v, BitsOf(size))
  {
    Powers();
    match size
    case Char => Low(v, Pow2(8), v % Pow2(8));
    case Short => Low(v, Pow2(16), v % Pow2(16));
    case Int => Whole(v, Pow2(32));
    case Wide => Whole(v, Pow2(64));
  }

  lemma Low(v: nat, m: nat, n: int)
    requires m > 0 && (n == v % m || n == v % m - m)
    ensures (v - n) % m == 0
  {
    var q := v / m;
    assert v == m * q + v % m;
    if n == v % m { DivModUnique(q, 0, m); } else { DivModUnique(q + 1, 0, m); }
  }

  lemma Whole(v: nat, m: nat)
    requires m > 0
    ensures (v - v) % m == 0 && (v - (v - m)) % m == 0
  {
    DivModUnique(0, 0, m);
    DivModUnique(1, 0, m);
  }

  /** A signed conversion prints the number that the low bits of its argument are. */
  lemma SignedPrints(s: Scan, v: nat) returns (d: Directive)
    requires s.p != "" && (s.p[0] == 'd' || s.p[0] == 'i') && s.args != [] && Fits(s.args[0], v, s.size)
    ensures Specified(s) == Some((d, s.p[1..], s.args[1..])) && d.Integer? && d.base == 10
    ensures IsSigned(NumberOf(d), v, BitsOf(s.size))
    ensures d.negative ==> d.magnitude > 0
    ensures d.width == s.width && d.prec == s.prec
    ensures d.flags == s.flags.(hash := false, zeropad := s.flags.zeropad && !s.flags.precision)
  {
    SpecifiedInteger(s, s.p[0], v);
    d := IntegerOf(s, s.p[0], v);
    SignedIs(v, s.size);
  }

  /** An unsigned one likewise. */
  lemma UnsignedPrints(s: Scan, v: nat) returns (d: Directive)
    requires s.p != "" && s.p[0] in "uxXob" && s.args != [] && Fits(s.args[0], v, s.size)
    ensures Specified(s) == Some((d, s.p[1..], s.args[1..])) && d.Integer? && !d.negative
    ensures IsUnsigned(d.magnitude, v, BitsOf(s.size)) && d.width == s.width && d.prec == s.prec
    ensures d.base == match s.p[0] case 'u' => 10 case 'o' => 8 case 'b' => 2 case _ => 16
    ensures d.flags == s.flags.(plus := false, space := false, upper := s.p[0] == 'X',
                         hash := s.flags.hash && s.p[0] != 'u', zeropad := s.flags.zeropad && !s.flags.precision)
  {
    SpecifiedInteger(s, s.p[0], v);
    d := IntegerOf(s, s.p[0], v);
    UnsignedIs(v, s.size);
  }

  lemma Powers()
    ensures Pow2(7) == 0x80 && Pow2(8) == 0x100 && Pow2(15) == 0x8000 && Pow2(16) == 0x1_0000
    ensures Pow2(4) == 0x10 && Pow2(31) == 0x8000_0000 && Pow2(32) == 0x1_0000_0000
    ensures Pow2(63) == 0x8000_0000_0000_0000 && Pow2(64) == 0x1_0000_0000_0000_0000
  {
    Pow2Values();
    Pow2Add(32, 32);
    assert Pow2(64) == 2 * Pow2(63);
    assert Pow2(16) == 2 * Pow2(15) && Pow2(8) == 2 * Pow2(7);
  }

  // ----- asterisks -----------------------------------------------------------------------------------------

  /** An asterisk for the width takes it from the arguments, as if it were spelled; a negative one asks for left
      justification, too. */
  lemma StarWidth(s: Scan, w: Word, t: string, args: seq<Arg>)
    requires t != "" && !IsDigit(t[0]) && t[0] != '*' && s.width == 0
    ensures w < 0x8000_0000 ==>
              ScanWidth(s.(p := "*" + t, args := [IntArg(w)] + args))
              == ScanWidth(s.(p := WidthText(w) + t, args := args))
    ensures w >= 0x8000_0000 ==>
              ScanWidth(s.(p := "*" + t, args := [IntArg(w)] + args))
              == ScanWidth(s.(p := WidthText(0x1_0000_0000 - w) + t, args := args, flags := s.flags.(left := true)))
  {
    Star(t, w, args);
    if w < 0x8000_0000 {
      WidthRead(s.(p := WidthText(w) + t, args := args), w, t);
    } else {
      var m: Word := 0x1_0000_0000 - w;
      WidthRead(s.(p := WidthText(m) + t, args := args, flags := s.flags.(left := true)), m, t);
    }
  }

  lemma Star(t: string, w: Word, args: seq<Arg>)
    ensures ("*" + t)[0] == '*' && ("*" + t)[1..] == t
    ensures ([IntArg(w)] + args)[0] == IntArg(w) && ([IntArg(w)] + args)[1..] == args
  {
  }

  /** One for the precision, too; a negative one counts as 0. */
  lemma StarPrecision(s: Scan, n: Word, t: string, args: seq<Arg>)
    requires t != "" && !IsDigit(t[0]) && s.prec == 0
    ensures ScanPrecision(s.(p := ".*" + t, args := [IntArg(n)] + args))
         == ScanPrecision(s.(p := "." + (Text(if n < 0x8000_0000 then n else 0, 10, false) + t), args := args))
  {
    var m: Word := if n < 0x8000_0000 then n else 0;
    var p := Text(m, 10, false) + t;
    NumberRead(m, t);
    Star(t, n, args);
    assert (".*" + t)[0] == '.' && (".*" + t)[1..] == "*" + t;
    assert ("." + p)[0] == '.' && ("." + p)[1..] == p;
  }

  // ----- pointers ------------------------------------------------------------------------------------------

  /** A pointer is printed as eight digits of base 16 in upper case. */
  lemma PointerPrints(v: Word, rest: string, args: seq<Arg>) returns (d: Directive, zeros: string, digits: string)
    ensures Conversion("p" + rest, [IntArg(v)] + args) == Some((d, rest, args))
    ensures Render(d) == zeros + digits && Fields.Only(zeros, '0') && |zeros + digits| == 8
    ensures Fields.IsNumeral(digits, v, 16, true)
  {
    var flags := NO_FLAGS.(zeropad := true, upper := true);
    d := Integer(v, false, 16, 0, 8, flags);
    PointerRead(v, rest, args);
    HexLength(v);
    var p, numeral := Fields.FieldLayout(v, false, 16, 0, 8, flags);
    Fields.NumeralUnique(numeral, Text(v, 16, true), v, 16, true);
    PointerParts(p, numeral, v, flags);
    zeros, digits := p.zeros, p.digits;
  }

  lemma PointerParts(p: Fields.Parts, d: string, v: Word, flags: Flags)
    requires flags == NO_FLAGS.(zeropad := true, upper := true) && 1 <= |d| <= 8
    requires Fields.IsLayout(p, d, v, false, 16, 0, 8, flags)
    ensures p.Whole() == p.zeros + p.digits && p.digits == d && |p.zeros + p.digits| == 8 && Fields.Only(p.zeros, '0')
  {
    assert p.pad == "" && p.sign == "" && p.mark == "" && p.trail == "";
  }

  lemma PointerRead(v: Word, rest: string, args: seq<Arg>)
    ensures Conversion("p" + rest, [IntArg(v)] + args)
         == Some((Integer(v, false, 16, 0, 8, NO_FLAGS.(zeropad := true, upper := true)), rest, args))
  {
    var p, all := "p" + rest, [IntArg(v)] + args;
    assert p[0] == 'p' && p[1..] == rest && all[0] == IntArg(v) && all[1..] == args;
    var s := Scan(NO_FLAGS, 0, 0, Int, p, all);
    ConversionSteps(p, all, NO_FLAGS, p, s, s);
  }

  lemma HexLength(v: Word)
    ensures |Text(v, 16, true)| <= 8 && Fields.IsNumeral(Text(v, 16, true), v, 16, true)
  {
    Fields.TextIsNumeral(v, 16, true);
    Powers();
    assert 4 * 8 == 32;
    HexDigits(v, 8);
  }

  lemma {:induction false} HexDigits(v: nat, k: nat)
    requires v < Pow2(4 * k) && k >= 1
    ensures |Text(v, 16, true)| <= k
  {
    assert Pow2(4) == 16;
    if v >= 16 {
      Pow2Add(4, 4 * (k - 1));
      HexDigits(v / 16, k - 1);
    }
  }
}
