/** The format walk of stdio.c for integers, characters and strings: _vsnprintf and snprintf_. */
module Format {
  import opened Bits
  import opened Stdio
  import opened Wrappers

  /** A `long long`. */
  type DoubleWord = x: int | 0 <= x < 0x1_0000_0000_0000_0000

  /** What stands before the NUL of a C string: characters of one byte, none of them NUL. */
  type CString = s: string | IsCString(s)

  predicate IsCString(s: string) {
    s == "" || (IsCChar(s[0]) && IsCString(s[1..]))
  }

  predicate IsCChar(c: char) { 0 < c as int < 0x100 }

  /** A variadic argument: one or two machine words, or a string. */
  datatype Arg = IntArg(v: Word) | WideArg(w: DoubleWord) | StrArg(s: CString)

  /** One piece of output. `magnitude` is the absolute value of a signed conversion. */
  datatype Directive =
    | Literal(c: char)
    | Integer(magnitude: nat, negative: bool, base: nat, prec: nat, width: nat, flags: Flags)
    | Character(c: char, width: nat, flags: Flags)
    | Str(s: string, prec: nat, width: nat, flags: Flags)

  predicate Printable(d: Directive) {
    d.Integer? ==> 2 <= d.base <= 16
  }

  /** The printed field of a string conversion. */
  function StringField(s: string, prec: nat, width: nat, flags: Flags): string {
    var n := if flags.precision then Min(|s|, prec) else |s|;
    if flags.left then s[..n] + Spaces(width - n) else Spaces(width - n) + s[..n]
  }

  function Render(d: Directive): string
    requires Printable(d)
  {
    match d
    case Literal(c) => [c]
    case Integer(v, negative, base, prec, width, flags) => Field(v, negative, base, prec, width, flags)
    case Character(c, width, flags) => if flags.left then [c] + Spaces(width - 1) else Spaces(width - 1) + [c]
    case Str(s, prec, width, flags) => StringField(s, prec, width, flags)
  }

  predicate AllPrintable(ds: seq<Directive>) {
    forall i :: 0 <= i < |ds| ==> Printable(ds[i])
  }

  function RenderAll(ds: seq<Directive>): string
    requires AllPrintable(ds)
  {
    if ds == [] then "" else Render(ds[0]) + RenderAll(ds[1..])
  }

  // ----- what a format means ----------------------------------------------------------------

  /** The flags at the front of `p`, and what follows them. */
  function ScanFlags(p: string, f: Flags): (r: (Flags, string))
    ensures |r.1| <= |p|
    decreases |p|
  {
    if p == "" then (f, p)
    else if p[0] == '0' then ScanFlags(p[1..], f.(zeropad := true))
    else if p[0] == '-' then ScanFlags(p[1..], f.(left := true))
    else if p[0] == '+' then ScanFlags(p[1..], f.(plus := true))
    else if p[0] == ' ' then ScanFlags(p[1..], f.(space := true))
    else if p[0] == '#' then ScanFlags(p[1..], f.(hash := true))
    else (f, p)
  }

  /** A signed machine word. */
  function Signed(v: Word): int {
    if v < 0x8000_0000 then v else v - 0x1_0000_0000
  }

  /** The decimal number at the front of `p`, as _atoi reads it, and what follows. */
  function ScanNumber(p: string): (r: (Word, string))
    ensures |r.1| <= |p|
  {
    var j := DigitRun(p, 0);
    (Value(p[..j]) % 0x1_0000_0000, p[j..])
  }

  /** A conversion being read: what was found so far, what is left of the format and of the arguments. */
  datatype Scan = Scan(flags: Flags, width: nat, prec: nat, size: Size, p: string, args: seq<Arg>)

  /** `hh`, `h`, nothing (or `l`, `t`, `z`, which are 32 bits wide), `ll` or `j`. */
  datatype Size = Char | Short | Int | Wide

  /** A width of `*` comes from the arguments; a negative one asks for left justification. */
  function ScanWidth(s: Scan): (r: Option<Scan>)
    ensures r.Some? ==> |r.value.p| <= |s.p|
  {
    if s.p != "" && IsDigit(s.p[0]) then
      var (w, p) := ScanNumber(s.p);
      Some(s.(width := w, p := p))
    else if s.p != "" && s.p[0] == '*' then
      if s.args == [] || !s.args[0].IntArg? then None
      else
        var w := Signed(s.args[0].v);
        Some(s.(width := if w < 0 then -w else w, flags := if w < 0 then s.flags.(left := true) else s.flags,
                p := s.p[1..], args := s.args[1..]))
    else Some(s)
  }

  /** A negative precision from the arguments counts as 0. */
  function ScanPrecision(s: Scan): (r: Option<Scan>)
    ensures r.Some? ==> |r.value.p| <= |s.p|
  {
    if s.p == "" || s.p[0] != '.' then Some(s)
    else
      var t := s.(flags := s.flags.(precision := true), p := s.p[1..]);
      if t.p != "" && IsDigit(t.p[0]) then
        var (n, p) := ScanNumber(t.p);
        Some(t.(prec := n, p := p))
      else if t.p != "" && t.p[0] == '*' then
        if t.args == [] || !t.args[0].IntArg? then None
        else
          var n := Signed(t.args[0].v);
          Some(t.(prec := if n > 0 then n else 0, p := t.p[1..], args := t.args[1..]))
      else Some(t)
  }

  function ScanSize(s: Scan): (r: Scan)
    ensures |r.p| <= |s.p|
  {
    if s.p == "" then s
    else if s.p[0] == 'h' then
      if |s.p| > 1 && s.p[1] == 'h' then s.(size := Char, p := s.p[2..]) else s.(size := Short, p := s.p[1..])
    else if s.p[0] == 'l' then
      if |s.p| > 1 && s.p[1] == 'l' then s.(size := Wide, p := s.p[2..]) else s.(p := s.p[1..])
    else if s.p[0] == 't' || s.p[0] == 'z' then s.(p := s.p[1..])
    else if s.p[0] == 'j' then s.(size := Wide, p := s.p[1..])
    else s
  }

  /** The value of a signed conversion; plain `char` is unsigned on this target. */
  function SignedValue(v: nat, size: Size): int {
    match size
    case Char => v % 0x100
    case Short => if v % 0x1_0000 < 0x8000 then v % 0x1_0000 else v % 0x1_0000 - 0x1_0000
    case Int => if v < 0x8000_0000 then v else v - 0x1_0000_0000
    case Wide => if v < 0x8000_0000_0000_0000 then v else v - 0x1_0000_0000_0000_0000
  }

  function UnsignedValue(v: nat, size: Size): nat {
    match size
    case Char => v % 0x100
    case Short => v % 0x1_0000
    case Int => v
    case Wide => v
  }

  /** The argument of an integer conversion, if it is one of its size. */
  function IntegerArg(arg: Arg, size: Size): Option<nat> {
    match arg
    case IntArg(v) => if size == Wide then None else Some(v)
    case WideArg(w) => if size == Wide then Some(w) else None
    case StrArg(_) => None
  }

  function BaseOf(c: char): nat {
    if c in "xX" then 16 else if c == 'o' then 8 else if c == 'b' then 2 else 10
  }

  /** The integer conversions. Zero padding is off when a precision is given, decimal numbers have no alternative
      form, and only signed conversions know the plus and space flags. */
  function IntegerOf(s: Scan, c: char, v: nat): (d: Directive)
    ensures Printable(d)
  {
    var f := if s.flags.precision then s.flags.(zeropad := false) else s.flags;
    if c in "di" then
      var n := SignedValue(v, s.size);
      Integer(if n < 0 then -n else n, n < 0, 10, s.prec, s.width, f.(hash := false))
    else
      Integer(UnsignedValue(v, s.size), false, BaseOf(c), s.prec, s.width,
        f.(plus := false, space := false, upper := c == 'X', hash := f.hash && c != 'u'))
  }

  /** The specifiers of this model, and those outside it. */
  const CONVERSIONS: string := "diuxXobcsp"
  const OUTSIDE: string := "fFeEgG"

  /** The specifier: the piece of output, and what is left. Any other character stands for itself. None: the
      format ends within a conversion, or calls for an argument that is missing, or for something outside
      this model. */
  function Specified(s: Scan): (r: Option<(Directive, string, seq<Arg>)>)
    ensures r.Some? ==> Printable(r.value.0) && |r.value.1| < |s.p|
  {
    if s.p == "" || s.p[0] in OUTSIDE then None
    else if s.p[0] !in CONVERSIONS then Some((Literal(s.p[0]), s.p[1..], s.args))
    else if s.args == [] then None
    else if s.p[0] in "diuxXob" then
      match IntegerArg(s.args[0], s.size)
      case None => None
      case Some(v) => Some((IntegerOf(s, s.p[0], v), s.p[1..], s.args[1..]))
    else
      match s.args[0]
      case StrArg(t) =>
        if s.p[0] == 's' then Some((Str(t, s.prec, s.width, s.flags), s.p[1..], s.args[1..])) else None
      case IntArg(v) =>
        if s.p[0] == 'c' then Some((Character((v % 0x100) as char, s.width, s.flags), s.p[1..], s.args[1..]))
        else if s.p[0] == 'p' then
          Some((Integer(v, false, 16, s.prec, 8, s.flags.(zeropad := true, upper := true)), s.p[1..], s.args[1..]))
        else None
      case WideArg(_) => None
  }

  /** A whole conversion; `p` is what follows the percent sign. */
  function Conversion(p: string, args: seq<Arg>): (r: Option<(Directive, string, seq<Arg>)>)
    ensures r.Some? ==> Printable(r.value.0) && |r.value.1| < |p|
  {
    var (f, q) := ScanFlags(p, NO_FLAGS);
    match ScanWidth(Scan(f, 0, 0, Int, q, args))
    case None => None
    case Some(s) =>
      match ScanPrecision(s)
      case None => None
      case Some(t) => Specified(ScanSize(t))
  }

  /** The pieces a format and its arguments stand for. */
  function Pieces(p: string, args: seq<Arg>): (r: Option<seq<Directive>>)
    ensures r.Some? ==> AllPrintable(r.value)
    decreases |p|
  {
    if p == "" then Some([])
    else if p[0] != '%' then
      match Pieces(p[1..], args)
      case None => None
      case Some(ds) => Some([Literal(p[0])] + ds)
    else
      match Conversion(p[1..], args)
      case None => None
      case Some((d, q, rest)) =>
        match Pieces(q, rest)
        case None => None
        case Some(ds) => Some([d] + ds)
  }

  // ----- the code ---------------------------------------------------------------------------

  /** The `%s` case of _vsnprintf. */
  method PrintString(sink: Sink, idx0: nat, s: string, prec: nat, width: nat, flags: Flags) returns (idx: nat)
    requires sink.Valid() && idx0 == |sink.emitted|
    modifies sink`emitted, sink.buffer
    ensures sink.Valid() && idx == |sink.emitted|
    ensures sink.emitted == old(sink.emitted) + StringField(s, prec, width, flags)
  {
    idx := idx0;
    var l := if flags.precision then Min(|s|, prec) else |s|;
    if !flags.left {
      idx := sink.Pad(idx, width - l);
    }
    ghost var before := sink.emitted;
    var i := 0;
    while i < |s| && (!flags.precision || i < prec)
      invariant i <= l
      invariant sink.Valid() && idx == |sink.emitted| && sink.emitted == before + s[..i]
    {
      sink.Out(s[i], idx);
      idx := idx + 1;
      i := i + 1;
      assert s[..i] == s[..i - 1] + [s[i - 1]];
    }
    if flags.left {
      idx := sink.Pad(idx, width - l);
    }
  }

  /** The `%c` case. */
  method PrintCharacter(sink: Sink, idx0: nat, c: char, width: nat, flags: Flags) returns (idx: nat)
    requires sink.Valid() && idx0 == |sink.emitted|
    modifies sink`emitted, sink.buffer
    ensures sink.Valid() && idx == |sink.emitted|
    ensures sink.emitted == old(sink.emitted) + Render(Character(c, width, flags))
  {
    idx := idx0;
    if !flags.left {
      idx := sink.Pad(idx, width - 1);
    }
    sink.Out(c, idx);
    idx := idx + 1;
    if flags.left {
      idx := sink.Pad(idx, width - 1);
    }
  }

  method Print(sink: Sink, idx0: nat, d: Directive) returns (idx: nat)
    requires sink.Valid() && idx0 == |sink.emitted| && Printable(d)
    modifies sink`emitted, sink.buffer
    ensures sink.Valid() && idx == |sink.emitted| && sink.emitted == old(sink.emitted) + Render(d)
  {
    match d {
      case Literal(c) =>
        sink.Out(c, idx0);
        idx := idx0 + 1;
      case Integer(v, negative, base, prec, width, flags) =>
        idx := NtoaLong(sink, idx0, v, negative, base, prec, width, flags);
      case Character(c, width, flags) =>
        idx := PrintCharacter(sink, idx0, c, width, flags);
      case Str(s, prec, width, flags) =>
        idx := PrintString(sink, idx0, s, prec, width, flags);
    }
  }

  /** The flag loop of _vsnprintf. `format` is advanced as the source's pointer is. */
  method ReadFlags(format0: string) returns (flags: Flags, format: string)
    ensures (flags, format) == ScanFlags(format0, NO_FLAGS)
  {
    flags, format := NO_FLAGS, format0;
    var more := true;
    while more
      invariant ScanFlags(format, flags) == ScanFlags(format0, NO_FLAGS)
      invariant !more ==> ScanFlags(format, flags) == (flags, format)
      decreases if more then 1 else 0, |format|
    {
      if format == "" {
        more := false;
      } else if format[0] == '0' {
        flags, format := flags.(zeropad := true), format[1..];
      } else if format[0] == '-' {
        flags, format := flags.(left := true), format[1..];
      } else if format[0] == '+' {
        flags, format := flags.(plus := true), format[1..];
      } else if format[0] == ' ' {
        flags, format := flags.(space := true), format[1..];
      } else if format[0] == '#' {
        flags, format := flags.(hash := true), format[1..];
      } else {
        more := false;
      }
    }
  }

  /** _atoi, advancing the format. */
  method ReadNumber(format0: string) returns (n: Word, format: string)
    ensures (n, format) == ScanNumber(format0)
  {
    var end;
    n, end := Atoi(format0, 0);
    assert format0[0..end] == format0[..end];
    format := format0[end..];
  }

  method ReadWidth(s0: Scan) returns (s: Scan)
    requires ScanWidth(s0).Some?
    ensures s == ScanWidth(s0).value
  {
    s := s0;
    if s.p != "" && IsDigit(s.p[0]) {
      var w, p := ReadNumber(s.p);
      s := s.(width := w, p := p);
    } else if s.p != "" && s.p[0] == '*' {
      var w := Signed(s.args[0].v);
      if w < 0 {
        s := s.(flags := s.flags.(left := true), width := -w);
      } else {
        s := s.(width := w);
      }
      s := s.(p := s.p[1..], args := s.args[1..]);
    }
  }

  method ReadPrecision(s0: Scan) returns (s: Scan)
    requires ScanPrecision(s0).Some?
    ensures s == ScanPrecision(s0).value
  {
    s := s0;
    if s.p != "" && s.p[0] == '.' {
      s := s.(flags := s.flags.(precision := true), p := s.p[1..]);
      if s.p != "" && IsDigit(s.p[0]) {
        var n, p := ReadNumber(s.p);
        s := s.(prec := n, p := p);
      } else if s.p != "" && s.p[0] == '*' {
        var n := Signed(s.args[0].v);
        s := s.(prec := if n > 0 then n else 0, p := s.p[1..], args := s.args[1..]);
      }
    }
  }

  /** One conversion of the loop of _vsnprintf, read and printed. */
  method PrintConversion(sink: Sink, idx0: nat, format0: string, args0: seq<Arg>)
    returns (idx: nat, format: string, args: seq<Arg>)
    requires sink.Valid() && idx0 == |sink.emitted| && Conversion(format0, args0).Some?
    modifies sink`emitted, sink.buffer
    ensures sink.Valid() && idx == |sink.emitted|
    ensures var c := Conversion(format0, args0).value;
            sink.emitted == old(sink.emitted) + Render(c.0) && format == c.1 && args == c.2
  {
    var flags, p := ReadFlags(format0);
    var s := ReadWidth(Scan(flags, 0, 0, Int, p, args0));
    s := ReadPrecision(s);
    var r := Specified(ScanSize(s)).value;
    idx := Print(sink, idx0, r.0);
    format, args := r.1, r.2;
  }

  /** The loop of _vsnprintf. */
  method Walk(sink: Sink, format0: string, args0: seq<Arg>) returns (idx: nat)
    requires sink.Valid() && sink.emitted == "" && Pieces(format0, args0).Some?
    modifies sink`emitted, sink.buffer
    ensures sink.Valid() && idx == |sink.emitted|
    ensures sink.emitted == RenderAll(Pieces(format0, args0).value)
  {
    ghost var whole := RenderAll(Pieces(format0, args0).value);
    var format, args := format0, args0;
    idx := 0;
    while format != ""
      invariant sink.Valid() && idx == |sink.emitted| && Pieces(format, args).Some?
      invariant whole == sink.emitted + RenderAll(Pieces(format, args).value)
      decreases |format|
    {
      ghost var before := sink.emitted;
      if format[0] != '%' {
        LiteralStep(format, args);
        Append(before, [format[0]], RenderAll(Pieces(format[1..], args).value));
        sink.Out(format[0], idx);
        idx, format := idx + 1, format[1..];
      } else {
        ghost var c := Conversion(format[1..], args).value;
        ConversionStep(format, args);
        Append(before, Render(c.0), RenderAll(Pieces(c.1, c.2).value));
        idx, format, args := PrintConversion(sink, idx, format[1..], args);
      }
    }
  }

  lemma Append(a: string, b: string, c: string)
    ensures a + (b + c) == (a + b) + c
  {
  }

  lemma LiteralStep(p: string, args: seq<Arg>)
    requires p != "" && p[0] != '%' && Pieces(p, args).Some?
    ensures Pieces(p[1..], args).Some?
    ensures RenderAll(Pieces(p, args).value) == [p[0]] + RenderAll(Pieces(p[1..], args).value)
  {
    var ds := Pieces(p[1..], args).value;
    assert ([Literal(p[0])] + ds)[1..] == ds;
  }

  lemma ConversionStep(p: string, args: seq<Arg>)
    requires p != "" && p[0] == '%' && Pieces(p, args).Some?
    ensures Conversion(p[1..], args).Some?
    ensures var c := Conversion(p[1..], args).value;
            Pieces(c.1, c.2).Some? && RenderAll(Pieces(p, args).value)
                == Render(c.0) + RenderAll(Pieces(c.1, c.2).value)
  {
    var c := Conversion(p[1..], args).value;
    var ds := Pieces(c.1, c.2).value;
    assert ([c.0] + ds)[1..] == ds;
  }

  /** snprintf_: the result is the full length; of the text the buffer gets the first count - 1 characters at
      most, then a NUL, and nothing behind it is touched. With count 0 nothing is written. */
  method Snprintf(buffer: array<char>, count: nat, format: CString, args: seq<Arg>) returns (r: nat)
    requires count <= buffer.Length && Pieces(format, args).Some?
    modifies buffer
    ensures var text := RenderAll(Pieces(format, args).value);
            && r == |text|
            && (count > 0 ==>
              var n := Min(count - 1, |text|);
              && buffer[..n] == text[..n]
              && buffer[n] == NUL
              && (forall k :: n < k < buffer.Length ==> buffer[k] == old(buffer[k])))
            && (count == 0 ==> buffer[..] == old(buffer[..]))
  {
    var sink := new Sink(buffer, count);
    r := Walk(sink, format, args);
    // the terminating out call
    var at: int := if r < count then r else count - 1;
    if 0 <= at < count {
      buffer[at] := NUL;
    }
  }

  // ----- every piece can be asked for -----------------------------------------------------------

  /** What a format can express: literals and strings are made of C characters, the widths and precisions are
      words, zero padding excludes a precision, only decimal numbers are signed. */
  predicate Spellable(d: Directive) {
    match d
    case Literal(c) => IsCChar(c)
    case Integer(m, negative, base, prec, width, f) =>
      && base in {2, 8, 10, 16} && (f.upper ==> base == 16) && (f.precision ==> !f.zeropad)
      && Numbers(width, prec, f.precision)
      && m < 0x1_0000_0000_0000_0000 && (f.hash ==> base != 10)
      && (negative ==> base == 10 && 0 < m <= 0x8000_0000_0000_0000)
      && (!negative && (f.plus || f.space) ==> base == 10 && m < 0x8000_0000_0000_0000)
    case Character(c, width, f) => c as int < 0x100 && !f.upper && Numbers(width, 0, f.precision) && !f.precision
    case Str(s, prec, width, f) => IsCString(s) && !f.upper && Numbers(width, prec, f.precision)
  }

  predicate Numbers(width: nat, prec: nat, hasPrecision: bool) {
    width < 0x1_0000_0000 && prec < 0x1_0000_0000 && (!hasPrecision ==> prec == 0)
  }

  function Specifier(d: Directive): char {
    match d
    case Literal(c) => c
    case Character(_, _, _) => 'c'
    case Str(_, _, _, _) => 's'
    case Integer(_, negative, base, _, _, f) =>
      if negative || f.plus || f.space then 'd'
      else if base == 2 then 'b' else if base == 8 then 'o' else if base == 10 then 'u'
      else if f.upper then 'X' else 'x'
  }

  function If(on: bool, c: char): string { if on then [c] else "" }

  function FlagText(f: Flags): string {
    If(f.zeropad, '0') + (If(f.left, '-') + (If(f.plus, '+') + (If(f.space, ' ') + If(f.hash, '#'))))
  }

  function WidthText(width: nat): string {
    if width > 0 then Text(width, 10, false) else ""
  }

  function PrecisionText(prec: nat, f: Flags): string {
    if f.precision then "." + Text(prec, 10, false) else ""
  }

  /** Size and specifier. */
  function TypeText(wide: bool, c: char): string {
    (if wide then "ll" else "") + [c]
  }

  /** A conversion without its percent sign. */
  function Spelled(f: Flags, width: nat, prec: nat, wide: bool, c: char): string {
    FlagText(f) + (WidthText(width) + (PrecisionText(prec, f) + TypeText(wide, c)))
  }

  /** Numbers that need a `long long`. */
  predicate IsWide(d: Directive) {
    d.Integer? && d.magnitude >=
      if d.negative then 0x8000_0001 else if Specifier(d) == 'd' then 0x8000_0000 else 0x1_0000_0000
  }

  function PrecisionOf(d: Directive): nat {
    if d.Integer? || d.Str? then d.prec else 0
  }

  function SpelledPiece(d: Directive): string
    requires !d.Literal?
  {
    Spelled(d.flags.(upper := false), d.width, PrecisionOf(d), IsWide(d), Specifier(d))
  }

  function Spell(d: Directive): string {
    if d.Literal? then (if d.c == '%' then "%%" else [d.c]) else "%" + SpelledPiece(d)
  }

  /** The argument that goes with it. */
  function Argument(d: Directive): seq<Arg>
    requires Spellable(d)
  {
    match d
    case Literal(_) => []
    case Integer(m, negative, _, _, _, _) =>
      if IsWide(d) then [WideArg(if negative then 0x1_0000_0000_0000_0000 - m else m)]
      else [IntArg(if negative then 0x1_0000_0000 - m else m)]
    case Character(c, _, _) => [IntArg(c as int)]
    case Str(s, _, _, _) => [StrArg(s)]
  }

  function SpellAll(ds: seq<Directive>): string {
    if ds == [] then "" else Spell(ds[0]) + SpellAll(ds[1..])
  }

  function Arguments(ds: seq<Directive>): seq<Arg>
    requires forall i :: 0 <= i < |ds| ==> Spellable(ds[i])
  {
    if ds == [] then [] else Argument(ds[0]) + Arguments(ds[1..])
  }

  predicate IsFlag(c: char) {
    c == '0' || c == '-' || c == '+' || c == ' ' || c == '#'
  }

  lemma FlagStep(on: bool, c: char, t: string, f: Flags)
    requires IsFlag(c)
    ensures ScanFlags(If(on, c) + t, f) ==
      ScanFlags(t, f.(zeropad := f.zeropad || (on && c == '0'), left := f.left || (on && c == '-'),
                      plus := f.plus || (on && c == '+'), space := f.space || (on && c == ' '),
                      hash := f.hash || (on && c == '#')))
  {
    if on {
      assert (If(on, c) + t)[0] == c && (If(on, c) + t)[1..] == t;
    } else {
      assert If(on, c) + t == t;
    }
  }

  lemma FlagTextSplit(f: Flags, t: string)
    ensures FlagText(f) + t
         == If(f.zeropad, '0') + (If(f.left, '-') + (If(f.plus, '+') + (If(f.space, ' ') + (If(f.hash, '#') + t))))
  {
    var x, y, z, w, v := If(f.zeropad, '0'), If(f.left, '-'), If(f.plus, '+'), If(f.space, ' '), If(f.hash, '#');
    Append(x, y + (z + (w + v)), t);
    Append(y, z + (w + v), t);
    Append(z, w + v, t);
    Append(w, v, t);
  }

  lemma FlagsRead(f: Flags, t: string)
    requires t != "" && !IsFlag(t[0]) && !f.upper
    ensures ScanFlags(FlagText(f) + t, NO_FLAGS) == (f.(precision := false), t)
  {
    var f0 := NO_FLAGS;
    var f1 := f0.(zeropad := f.zeropad);
    var f2 := f1.(left := f.left);
    var f3 := f2.(plus := f.plus);
    var f4 := f3.(space := f.space);
    var t4 := If(f.hash, '#') + t;
    var t3 := If(f.space, ' ') + t4;
    var t2 := If(f.plus, '+') + t3;
    var t1 := If(f.left, '-') + t2;
    FlagTextSplit(f, t);
    FlagStep(f.zeropad, '0', t1, f0);
    FlagStep(f.left, '-', t2, f1);
    FlagStep(f.plus, '+', t3, f2);
    FlagStep(f.space, ' ', t4, f3);
    FlagStep(f.hash, '#', t, f4);
  }

  lemma NumberRead(v: Word, t: string)
    requires t != "" && !IsDigit(t[0])
    ensures var p := Text(v, 10, false) + t;
            IsDigit(p[0]) && (v > 0 ==> p[0] != '0') && ScanNumber(p) == (v, t)
  {
    var d := Text(v, 10, false);
    if v > 0 { FirstDigit(v, 10, false); }
    ValueOfText(v);
    RunOver(d, t, 0);
    assert (d + t)[..|d|] == d && (d + t)[|d|..] == t;
  }

  lemma WidthRead(s: Scan, width: Word, t: string)
    requires t != "" && !IsDigit(t[0]) && t[0] != '*' && s.p == WidthText(width) + t && s.width == 0
    ensures ScanWidth(s) == Some(s.(width := width, p := t))
  {
    if width > 0 {
      NumberRead(width, t);
    } else {
      assert s.p == t;
    }
  }

  lemma PrecisionRead(s: Scan, prec: Word, f: Flags, t: string)
    requires t != "" && !IsDigit(t[0]) && t[0] != '.' && s.p == PrecisionText(prec, f) + t
    requires s.prec == 0 && s.flags == f.(precision := false) && (!f.precision ==> prec == 0)
    ensures ScanPrecision(s) == Some(s.(flags := f, prec := prec, p := t))
  {
    if f.precision {
      NumberRead(prec, t);
      assert s.p[0] == '.' && s.p[1..] == Text(prec, 10, false) + t;
    } else {
      assert s.p == t;
    }
  }

  lemma SpelledSplit(f: Flags, width: nat, prec: nat, wide: bool, c: char, rest: string)
    ensures Spelled(f, width, prec, wide, c) + rest
         == FlagText(f) + (WidthText(width) + (PrecisionText(prec, f) + (TypeText(wide, c) + rest)))
  {
    var x, y, z, w := FlagText(f), WidthText(width), PrecisionText(prec, f), TypeText(wide, c);
    Append(x, y + (z + w), rest);
    Append(y, z + w, rest);
    Append(z, w, rest);
  }

  /** The steps of a conversion put together. */
  lemma ConversionSteps(p: string, args: seq<Arg>, f: Flags, q: string, s: Scan, t: Scan)
    requires ScanFlags(p, NO_FLAGS) == (f, q) && ScanWidth(Scan(f, 0, 0, Int, q, args)) == Some(s)
    requires ScanPrecision(s) == Some(t)
    ensures Conversion(p, args) == Specified(ScanSize(t))
  {
  }

  predicate IsSpecifier(c: char) {
    c == 'd' || c == 'u' || c == 'x' || c == 'X' || c == 'o' || c == 'b' || c == 'c' || c == 's'
  }

  lemma ConversionRead(f: Flags, width: Word, prec: Word, wide: bool, c: char, rest: string, args: seq<Arg>)
    requires IsSpecifier(c) && !f.upper && (!f.precision ==> prec == 0)
    ensures Conversion(Spelled(f, width, prec, wide, c) + rest, args)
         == Specified(Scan(f, width, prec, if wide then Wide else Int, [c] + rest, args))
  {
    var t3 := TypeText(wide, c) + rest;
    var t2 := PrecisionText(prec, f) + t3;
    var t1 := WidthText(width) + t2;
    SpelledSplit(f, width, prec, wide, c, rest);
    assert t3[0] == if wide then 'l' else c;
    assert t2[0] == if f.precision then '.' else t3[0];
    var s1 := Scan(f.(precision := false), 0, 0, Int, t1, args);
    var s2 := s1.(width := width, p := t2);
    var s3 := Scan(f, width, prec, Int, t3, args);
    WidthFirst(width, t2);
    FlagsRead(f, t1);
    WidthRead(s1, width, t2);
    PrecisionRead(s2, prec, f, t3);
    ConversionSteps(FlagText(f) + t1, args, s1.flags, t1, s2, s3);
    SizeRead(s3, wide, c, rest);
  }

  lemma SizeRead(s: Scan, wide: bool, c: char, rest: string)
    requires s.p == TypeText(wide, c) + rest && IsSpecifier(c) && s.size == Int
    ensures ScanSize(s) == s.(size := if wide then Wide else Int, p := [c] + rest)
  {
    if wide {
      assert s.p[0] == 'l' && s.p[1] == 'l' && s.p[2..] == [c] + rest;
    } else {
      assert s.p == [c] + rest;
    }
  }

  lemma WidthFirst(width: Word, t: string)
    requires t != "" && (t[0] == '.' || t[0] == 'l' || IsSpecifier(t[0]))
    ensures WidthText(width) + t != "" && !IsFlag((WidthText(width) + t)[0])
  {
    if width > 0 { NumberRead(width, t); }
  }

  /** The specifier and its argument give the piece. */
  lemma SpecifierRead(d: Directive, rest: string, args: seq<Arg>)
    requires Spellable(d) && !d.Literal?
    ensures Specified(Scan(d.flags.(upper := false), d.width, PrecisionOf(d), if IsWide(d) then Wide else Int,
              [Specifier(d)] + rest, Argument(d) + args))
         == Some((d, rest, args))
  {
    var c := Specifier(d);
    assert ([c] + rest)[0] == c && ([c] + rest)[1..] == rest;
    assert (Argument(d) + args)[0] == Argument(d)[0] && (Argument(d) + args)[1..] == args;
    var s := Scan(d.flags.(upper := false), d.width, PrecisionOf(d), if IsWide(d) then Wide else Int,
      [c] + rest, Argument(d) + args);
    if d.Integer? {
      IntegerRead(d, s);
      SpecifiedInteger(s, c, IntegerArg(s.args[0], s.size).value);
    } else if d.Character? {
      assert ((d.c as int) % 0x100) as char == d.c;
    }
  }

  lemma SpecifiedInteger(s: Scan, c: char, v: nat)
    requires s.p != "" && s.p[0] == c && c in "diuxXob" && s.args != [] && IntegerArg(s.args[0], s.size) == Some(v)
    ensures Specified(s) == Some((IntegerOf(s, c, v), s.p[1..], s.args[1..]))
  {
  }

  lemma IntegerRead(d: Directive, s: Scan)
    requires Spellable(d) && d.Integer?
    requires s.flags == d.flags.(upper := false) && s.width == d.width && s.prec == d.prec
    requires s.size == if IsWide(d) then Wide else Int
    ensures Specifier(d) in "diuxXob" && IntegerArg(Argument(d)[0], s.size).Some?
    ensures IntegerOf(s, Specifier(d), IntegerArg(Argument(d)[0], s.size).value) == d
  {
  }

  /** Every piece is read back from its spelling. */
  lemma SpelledIsRead(d: Directive, rest: string, args: seq<Arg>)
    requires Spellable(d) && !d.Literal?
    ensures Conversion(SpelledPiece(d) + rest, Argument(d) + args) == Some((d, rest, args))
  {
    ConversionRead(d.flags.(upper := false), d.width, PrecisionOf(d), IsWide(d), Specifier(d), rest,
        Argument(d) + args);
    SpecifierRead(d, rest, args);
  }

  lemma ConversionPieces(p: string, args: seq<Arg>, d: Directive, q: string, rest: seq<Arg>)
    requires p != "" && p[0] == '%' && Conversion(p[1..], args) == Some((d, q, rest)) && Pieces(q, rest).Some?
    ensures Pieces(p, args) == Some([d] + Pieces(q, rest).value)
  {
  }

  lemma Percent(x: string, rest: string)
    ensures var p := ("%" + x) + rest; p != "" && p[0] == '%' && p[1..] == x + rest
  {
  }

  lemma LiteralIsRead(c: char, rest: string, args: seq<Arg>)
    requires Pieces(rest, args).Some?
    ensures Pieces(Spell(Literal(c)) + rest, args) == Some([Literal(c)] + Pieces(rest, args).value)
  {
    if c == '%' {
      PercentIsRead(rest, args);
      Percent("%", rest);
      ConversionPieces("%%" + rest, args, Literal(c), rest, args);
    } else {
      assert ([c] + rest)[1..] == rest;
      LiteralPieces([c] + rest, args);
    }
  }

  lemma LiteralPieces(p: string, args: seq<Arg>)
    requires p != "" && p[0] != '%' && Pieces(p[1..], args).Some?
    ensures Pieces(p, args) == Some([Literal(p[0])] + Pieces(p[1..], args).value)
  {
  }

  lemma PercentIsRead(rest: string, args: seq<Arg>)
    ensures Conversion("%" + rest, args) == Some((Literal('%'), rest, args))
  {
    assert ("%" + rest)[0] == '%' && ("%" + rest)[1..] == rest;
  }

  lemma PieceIsRead(d: Directive, rest: string, args: seq<Arg>)
    requires Spellable(d) && Pieces(rest, args).Some?
    ensures Pieces(Spell(d) + rest, Argument(d) + args) == Some([d] + Pieces(rest, args).value)
  {
    if d.Literal? {
      assert Argument(d) + args == args;
      LiteralIsRead(d.c, rest, args);
    } else {
      SpelledIsRead(d, rest, args);
      Percent(SpelledPiece(d), rest);
      ConversionPieces(Spell(d) + rest, Argument(d) + args, d, rest, args);
    }
  }

  lemma {:induction false} CStringSum(s: string, t: string)
    requires IsCString(s) && IsCString(t)
    ensures IsCString(s + t)
    decreases |s|
  {
    if s == "" {
      assert s + t == t;
    } else {
      CStringSum(s[1..], t);
      assert (s + t)[1..] == s[1..] + t;
    }
  }

  lemma CharIsCString(c: char)
    requires IsCChar(c)
    ensures IsCString([c])
  {
  }

  lemma {:induction false} TextIsCString(v: nat, base: nat, upper: bool)
    requires 2 <= base <= 16
    ensures IsCString(Text(v, base, upper))
  {
    if v < base {
      DigitIsCString(v, upper);
    } else {
      TextIsCString(v / base, base, upper);
      DigitIsCString(v % base, upper);
      CStringSum(Text(v / base, base, upper), [DigitChar(v % base, upper)]);
    }
  }

  lemma DigitIsCString(d: nat, upper: bool)
    requires d < 16
    ensures IsCString([DigitChar(d, upper)])
  {
    CharIsCString(DigitChar(d, upper));
  }

  lemma FlagsAreCString(f: Flags)
    ensures IsCString(FlagText(f))
  {
    var x, y, z, w, v := If(f.zeropad, '0'), If(f.left, '-'), If(f.plus, '+'), If(f.space, ' '), If(f.hash, '#');
    CStringSum(w, v);
    CStringSum(z, w + v);
    CStringSum(y, z + (w + v));
    CStringSum(x, y + (z + (w + v)));
  }

  lemma NumbersAreCStrings(width: nat, prec: nat, f: Flags)
    ensures IsCString(WidthText(width)) && IsCString(PrecisionText(prec, f))
  {
    TextIsCString(width, 10, false);
    TextIsCString(prec, 10, false);
    CharIsCString('.');
    CStringSum(".", Text(prec, 10, false));
  }

  lemma SpelledIsCString(f: Flags, width: nat, prec: nat, wide: bool, c: char)
    requires IsCChar(c)
    ensures IsCString("%" + Spelled(f, width, prec, wide, c))
  {
    var x, y, z, w := FlagText(f), WidthText(width), PrecisionText(prec, f), TypeText(wide, c);
    FlagsAreCString(f);
    NumbersAreCStrings(width, prec, f);
    CharIsCString(c);
    CharIsCString('l');
    CharIsCString('%');
    CStringSum("l", "l");
    CStringSum(if wide then "ll" else "", [c]);
    CStringSum(z, w);
    CStringSum(y, z + w);
    CStringSum(x, y + (z + w));
    CStringSum("%", x + (y + (z + w)));
  }

  lemma SpellingIsCString(d: Directive)
    requires Spellable(d)
    ensures IsCString(Spell(d))
  {
    if d.Literal? {
      CharIsCString(d.c);
      CStringSum("%", "%");
    } else {
      SpelledIsCString(d.flags.(upper := false), d.width, PrecisionOf(d), IsWide(d), Specifier(d));
    }
  }

  lemma {:induction false} FormatIsCString(ds: seq<Directive>)
    requires forall i :: 0 <= i < |ds| ==> Spellable(ds[i])
    ensures IsCString(SpellAll(ds))
    decreases |ds|
  {
    if ds != [] {
      SpellingIsCString(ds[0]);
      FormatIsCString(ds[1..]);
      CStringSum(Spell(ds[0]), SpellAll(ds[1..]));
    }
  }

  /** So any sequence of pieces has a format, a C string, that prints exactly those. */
  lemma {:induction false} FormatsComplete(ds: seq<Directive>)
    requires forall i :: 0 <= i < |ds| ==> Spellable(ds[i])
    ensures IsCString(SpellAll(ds)) && Pieces(SpellAll(ds), Arguments(ds)) == Some(ds)
    decreases |ds|
  {
    FormatIsCString(ds);
    if ds != [] {
      var rest := ds[1..];
      FormatsComplete(rest);
      PieceIsRead(ds[0], SpellAll(rest), Arguments(rest));
      assert SpellAll(ds) == Spell(ds[0]) + SpellAll(rest);
      assert Arguments(ds) == Argument(ds[0]) + Arguments(rest);
      assert [ds[0]] + rest == ds;
    }
  }
}
