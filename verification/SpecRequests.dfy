/** What a writer of format specifiers can ask for, and what the parser makes of it: a second description of the
    specifiers, by their meaning. */
module SpecRequests {
  import opened Options
  import opened Digits
  import opened SpecParser

  /** The presentation types. */
  datatype Form = Debug | Text | Dec | Hex | Oct | Bin | Chr | Pointer | Exp | Fixed | General | HexFloat

  /** The enumerators of presentation_type. */
  function Code(f: Form): bv32 {
    match f
    case Debug => 1 case Text => 2
    case Dec => 3 case Hex => 4 case Oct => 5 case Bin => 6 case Chr => 7
    case Pointer => 3
    case Exp => 1 case Fixed => 2 case General => 3 case HexFloat => 4
  }

  function Letter(f: Form, upper: bool): char {
    match f
    case Debug => '?' case Text => 's'
    case Dec => 'd' case Hex => if upper then 'X' else 'x' case Oct => 'o' case Bin => if upper then 'B' else 'b' case Chr => 'c'
    case Pointer => 'p'
    case Exp => if upper then 'E' else 'e'
    case Fixed => if upper then 'F' else 'f'
    case General => if upper then 'G' else 'g'
    case HexFloat => if upper then 'A' else 'a'
  }

  predicate HasUpper(f: Form) {
    f in {Hex, Bin, Exp, Fixed, General, HexFloat}
  }

  const INTEGERS: set<Kind> := {SignedInt, UnsignedInt, Bool, Char}

  /** The arguments that a presentation type is for. */
  function For(f: Form): set<Kind> {
    match f
    case Debug => {Char, Str, CString}
    case Text => {Bool, Str, CString}
    case Dec => INTEGERS case Hex => INTEGERS case Oct => INTEGERS case Bin => INTEGERS
    case Chr => {SignedInt, UnsignedInt, Char}
    case Pointer => {Kind.Pointer, CString}
    case _ => {Float}
  }

  datatype Type = Type(form: Form, upper: bool)

  /** A fill of "", a sign of NoSign and a width of 0 ask for nothing. */
  datatype Request = Request(
    fill: string, align: Align, sign: Sign, alt: bool, zero: bool, width: nat, precision: Option<nat>, localized: bool,
    ptype: Option<Type>)

  /** What can be written down at all. A fill is one code point other than a brace, and needs an alignment. */
  predicate Writable(r: Request) {
    && r.align != Numeric
    && (r.fill != "" ==>
          r.align != NoAlign && |r.fill| == CodePointLength(r.fill[0]) && r.fill[0] != '{' && r.fill[0] != '}')
    && (r.ptype.Some? && r.ptype.value.upper ==> HasUpper(r.ptype.value.form))
  }

  /** Whether part i of the request suits an argument of kind k. */
  predicate FitsPart(r: Request, i: nat, k: Kind) {
    match i
    case 1 => r.sign != NoSign ==> k in {SignedInt, Float}
    case 2 => r.alt ==> k in INTEGERS + {Float}
    case 3 => r.zero ==> k in INTEGERS + {Float}
    case 4 => r.width <= 0x7fff_ffff
    case 5 => r.precision.Some? ==> k in {Float, Str, CString} && r.precision.value <= 0x7fff_ffff
    case 6 => r.localized ==> k in INTEGERS + {Float}
    case 7 => r.ptype.Some? ==> k in For(r.ptype.value.form)
    case _ => true
  }

  /** What an argument of kind k can be asked for. */
  predicate Fits(r: Request, k: Kind) {
    forall i :: 0 <= i < PARTS ==> FitsPart(r, i, k)
  }

  function AlignUnit(a: Align): string {
    match a case Left => "<" case Right => ">" case Center => "^" case _ => ""
  }

  function SignUnit(s: Sign): string {
    match s case Minus => "-" case Plus => "+" case Space => " " case NoSign => ""
  }

  /** The eight parts of the text, in their order. */
  function Written(r: Request): seq<string> {
    [r.fill + AlignUnit(r.align), SignUnit(r.sign), if r.alt then "#" else "", if r.zero then "0" else "",
     if r.width > 0 then Decimal(r.width) else "", if r.precision.Some? then "." + Decimal(r.precision.value) else "",
     if r.localized then "L" else "", if r.ptype.Some? then [Letter(r.ptype.value.form, r.ptype.value.upper)] else ""]
  }

  // The word.

  function AlignNumber(a: Align): bv32 {
    match a case NoAlign => 0 case Left => 1 case Right => 2 case Center => 3 case Numeric => 4
  }

  function SignNumber(s: Sign): bv32 {
    match s case NoSign => 0 case Minus => 1 case Plus => 2 case Space => 3
  }

  function Bit(b: bool): bv32 {
    if b then 1 else 0
  }

  /** The word that holds these fields: type, alignment, sign, upper case, alternate form, localised and fill size,
      at their places. */
  function Packed(ptype: bv32, align: Align, sign: Sign, upper: bool, alt: bool, localized: bool, fillSize: bv32): bv32 {
    ptype | (AlignNumber(align) << 3) | (SignNumber(sign) << 10) | (Bit(upper) << 12) | (Bit(alt) << 13) | (Bit(localized) << 14)
    | (fillSize << 15)
  }

  /** A word with nothing dynamic and nothing that is no field. */
  predicate Plain(d: bv32) {
    d & 0xfffc_03c0 == 0 && (d >> 3) & 7 <= 4 && (d >> 15) & 7 <= 4
  }

  /** Such a word is determined by its fields. */
  lemma PackedAgain(d: bv32)
    requires Plain(d)
    ensures var u := Unpack(d);
      && d == Packed(d & 7, u.align, u.sign, u.upper, u.alt, u.localized, (d >> 15) & 7)
      && u.ptype == d & 7 && !u.dynamic
      && (d >> 15) & 7 == (if u.fillSize == 0 then 0 else if u.fillSize == 1 then 1 else if u.fillSize == 2 then 2
                           else if u.fillSize == 3 then 3 else 4)
  {
  }

  lemma TypeStaysPlain(d: bv32, code: bv32)
    requires Plain(d) && code <= 7
    ensures Plain(SetType(d, code))
  {
  }

  lemma AlignStaysPlain(d: bv32, a: Align)
    requires Plain(d)
    ensures Plain(SetAlign(d, a))
  {
  }

  lemma SignStaysPlain(d: bv32, sign: Sign)
    requires Plain(d)
    ensures Plain(SetSign(d, sign))
  {
  }

  lemma FillStaysPlain(d: bv32, size: nat)
    requires Plain(d) && size <= 4
    ensures Plain(SetFillSize(d, size))
  {
  }

  lemma FlagsStayPlain(d: bv32)
    requires Plain(d)
    ensures Plain(d | UPPERCASE_MASK) && Plain(d | ALTERNATE_MASK) && Plain(d | LOCALIZED_MASK)
  {
  }

  lemma StaticStaysPlain(d: bv32)
    requires Plain(d)
    ensures Plain(SetStaticWidth(d)) && Plain(SetStaticPrecision(d))
  {
  }

  lemma AlignedStaysPlain(t: string, specs: Specs, k: Kind)
    requires PartOk(t, 0, k) && Plain(specs.data)
    ensures Plain(Effect(t, 0, specs, k).data)
  {
    hide SetAlign, SetFillSize, Plain, ParseAlign, CodePointLength;
    AlignStaysPlain(specs.data, ParseAlign(t[|t| - 1]));
    if |t| > 1 {
      FillStaysPlain(specs.data, |t| - 1);
      AlignStaysPlain(SetFillSize(specs.data, |t| - 1), ParseAlign(t[|t| - 1]));
    }
  }

  lemma TypedIsPlain(specs: Specs, c: char, code: bv32)
    requires Plain(specs.data) && Plain(specs.data | UPPERCASE_MASK) && code <= 7
    ensures Plain(Typed(specs, c, code).data)
  {
    hide SetType, Plain;
    TypeStaysPlain(specs.data, code);
    TypeStaysPlain(specs.data | UPPERCASE_MASK, code);
  }

  lemma TypedStaysPlain(t: string, specs: Specs, k: Kind)
    requires PartOk(t, 7, k) && Plain(specs.data)
    ensures Plain(Effect(t, 7, specs, k).data)
  {
    hide SetType, Plain, Presentation, Effect, PartOk;
    FlagEffects(t, specs, k);
    PresentationFits(t[0], k);
    FlagsStayPlain(specs.data);
    TypedIsPlain(specs, t[0], Presentation(t[0], k).value);
  }

  lemma FlagStaysPlain(t: string, i: nat, specs: Specs, k: Kind)
    requires i in {2, 6} && PartOk(t, i, k) && Plain(specs.data)
    ensures Plain(Effect(t, i, specs, k).data)
  {
    hide Plain, Effect, PartOk;
    FlagEffects(t, specs, k);
    FlagsStayPlain(specs.data);
  }

  lemma SignedStaysPlain(t: string, specs: Specs, k: Kind)
    requires PartOk(t, 1, k) && Plain(specs.data)
    ensures Plain(Effect(t, 1, specs, k).data)
  {
    hide SetSign, Plain;
    SignStaysPlain(specs.data, Plus);
    SignStaysPlain(specs.data, Space);
  }

  lemma ZeroedStaysPlain(t: string, specs: Specs, k: Kind)
    requires PartOk(t, 3, k) && Plain(specs.data)
    ensures Plain(Effect(t, 3, specs, k).data)
  {
    hide SetAlign, SetFillSize, Plain, AlignOf;
    AlignStaysPlain(specs.data, Numeric);
    FillStaysPlain(SetAlign(specs.data, Numeric), 1);
  }

  lemma NumberStaysPlain(t: string, i: nat, specs: Specs, k: Kind)
    requires i in {4, 5} && PartOk(t, i, k) && Plain(specs.data)
    ensures Plain(Effect(t, i, specs, k).data)
  {
    hide SetStaticWidth, SetStaticPrecision, Plain, ReadNumber;
    StaticStaysPlain(specs.data);
  }

  lemma EffectStaysPlain(t: string, i: nat, specs: Specs, k: Kind)
    requires i < PARTS && PartOk(t, i, k) && Plain(specs.data)
    ensures Plain(Effect(t, i, specs, k).data)
  {
    hide Plain, Effect, PartOk;
    if i == 0 {
      AlignedStaysPlain(t, specs, k);
    } else if i == 7 {
      TypedStaysPlain(t, specs, k);
    } else if i == 1 {
      SignedStaysPlain(t, specs, k);
    } else if i == 3 {
      ZeroedStaysPlain(t, specs, k);
    } else if i == 4 || i == 5 {
      NumberStaysPlain(t, i, specs, k);
    } else {
      FlagStaysPlain(t, i, specs, k);
    }
  }

  lemma {:induction false} EffectsStayPlain(ps: seq<string>, i: nat, specs: Specs, k: Kind)
    requires Legal(ps, k) && Plain(specs.data)
    ensures Plain(Effects(ps, i, specs, k).data)
    decreases PARTS - i
  {
    hide Effect, Plain, PartOk;
    if i < PARTS {
      if ps[i] == "" {
        EffectsStayPlain(ps, i + 1, specs, k);
      } else {
        EffectsUnfold(ps, i, specs, k);
        EffectStaysPlain(ps[i], i, specs, k);
        EffectsStayPlain(ps, i + 1, Effect(ps[i], i, specs, k), k);
      }
    }
  }

  // What is written is legal exactly where it fits.

  lemma IntegerLetters(f: Form, upper: bool, k: Kind)
    requires f in {Dec, Hex, Oct, Bin, Chr} && (upper ==> HasUpper(f))
    ensures Presentation(Letter(f, upper), k) == (if k in For(f) then Some(Code(f)) else None)
  {
  }

  lemma FloatLetters(f: Form, upper: bool, k: Kind)
    requires f in {Exp, Fixed, General, HexFloat}
    ensures Presentation(Letter(f, upper), k) == (if k in For(f) then Some(Code(f)) else None)
  {
  }

  lemma OtherLetters(f: Form, upper: bool, k: Kind)
    requires f in {Debug, Text, Form.Pointer}
    ensures Presentation(Letter(f, upper), k) == (if k in For(f) then Some(Code(f)) else None)
  {
  }

  /** The letters are those of the types, each type fits its arguments only, and has its code. */
  lemma LetterMeans(f: Form, upper: bool, k: Kind)
    requires upper ==> HasUpper(f)
    ensures Presentation(Letter(f, upper), k) == (if k in For(f) then Some(Code(f)) else None)
    ensures var c := Letter(f, upper); IsType(c) && IsUpperType(c) == upper && ParseAlign(c) == NoAlign && !IsDigit(c)
  {
    hide Presentation, For, Code;
    match f
    case Debug => OtherLetters(f, upper, k);
    case Text => OtherLetters(f, upper, k);
    case Pointer => OtherLetters(f, upper, k);
    case Exp => FloatLetters(f, upper, k);
    case Fixed => FloatLetters(f, upper, k);
    case General => FloatLetters(f, upper, k);
    case HexFloat => FloatLetters(f, upper, k);
    case _ => IntegerLetters(f, upper, k);
  }

  lemma AlignMeans(a: Align)
    requires a != NoAlign && a != Numeric
    ensures |AlignUnit(a)| == 1 && ParseAlign(AlignUnit(a)[0]) == a
  {
  }

  /** Part i of a request. */
  lemma PartIsLegal(r: Request, i: nat, k: Kind)
    requires Writable(r) && i < PARTS && FitsPart(r, i, k) && Written(r)[i] != ""
    ensures PartOk(Written(r)[i], i, k)
  {
    hide Decimal, ReadNumber, ParseAlign, Presentation, Letter, CodePointLength;
    var t := Written(r)[i];
    if i == 0 {
      AlignMeans(r.align);
      assert t[|t| - 1] == AlignUnit(r.align)[0];
      assert r.fill != "" ==> t[0] == r.fill[0];
    } else if i == 4 {
      NumeralsReadBack(r.width);
    } else if i == 5 {
      NumeralsReadBack(r.precision.value);
    } else if i == 7 {
      LetterMeans(r.ptype.value.form, r.ptype.value.upper, k);
    }
  }

  lemma RequestIsLegal(r: Request, k: Kind)
    requires Writable(r) && Fits(r, k)
    ensures Legal(Written(r), k)
  {
    hide PartOk, Writable, FitsPart;
    forall i | 0 <= i < PARTS ensures Written(r)[i] == "" || PartOk(Written(r)[i], i, k) {
      if Written(r)[i] != "" {
        PartIsLegal(r, i, k);
      }
    }
  }

  /** What the request comes to. A `0` counts only without an alignment, and `-` is the default sign. */
  function Meant(r: Request): bv32 {
    Packed(
      if r.ptype.Some? then Code(r.ptype.value.form) else 0,
      if r.align != NoAlign then r.align else if r.zero then Numeric else NoAlign,
      if r.sign == Minus then NoSign else r.sign,
      r.ptype.Some? && r.ptype.value.upper, r.alt, r.localized,
      if |MeantFill(r)| == 1 then 1 else if |MeantFill(r)| == 2 then 2 else if |MeantFill(r)| == 3 then 3 else 4)
  }

  function MeantFill(r: Request): string {
    if r.fill != "" then r.fill else if r.zero && r.align == NoAlign then "0" else " "
  }

  ghost predicate AsMeant(r: Request, specs: Specs) {
    && specs.data == Meant(r) && Fill(specs) == MeantFill(r)
    && specs.width == r.width && specs.precision == if r.precision.Some? then r.precision.value else -1
  }

  lemma Parts(r: Request)
    requires Writable(r)
    ensures var ps := Written(r);
      && |ps| == PARTS
      && ps[0] == r.fill + AlignUnit(r.align) && (ps[0] == "" <==> r.align == NoAlign) && (|ps[0]| > 1 <==> r.fill != "")
      && (r.align != NoAlign ==> ParseAlign(ps[0][|ps[0]| - 1]) == r.align && ps[0][..|ps[0]| - 1] == r.fill)
      && ps[1] == SignUnit(r.sign)
      && (ps[2] != "" <==> r.alt) && (ps[3] != "" <==> r.zero) && (ps[6] != "" <==> r.localized)
      && ps[4] == (if r.width > 0 then Decimal(r.width) else "")
      && ps[5] == (if r.precision.Some? then "." + Decimal(r.precision.value) else "")
      && ps[7] == (if r.ptype.Some? then [Letter(r.ptype.value.form, r.ptype.value.upper)] else "")
  {
    hide Decimal, ParseAlign, Letter, CodePointLength;
    if r.align != NoAlign {
      AlignMeans(r.align);
      var t := r.fill + AlignUnit(r.align);
      assert t[|t| - 1] == AlignUnit(r.align)[0] && t[..|t| - 1] == r.fill;
    }
  }

  lemma SignMeans(s: Sign)
    ensures (if SignUnit(s) == "+" then Plus else if SignUnit(s) == " " then Space else NoSign) == (if s == Minus then NoSign else s)
  {
  }

  lemma NumbersAreMeant(r: Request)
    requires r.width <= INT_MAX && (r.precision.Some? ==> r.precision.value <= INT_MAX)
    ensures r.width > 0 ==> Decimal(r.width) != "" && ReadNumber(Decimal(r.width)) == Some(r.width)
    ensures r.precision.Some? ==>
      var t := "." + Decimal(r.precision.value); DigitSequence(t[1..]) && ReadNumber(t[1..]) == Some(r.precision.value)
  {
    hide Decimal, ReadNumber;
    NumeralsReadBack(r.width);
    if r.precision.Some? {
      NumeralsReadBack(r.precision.value);
    }
  }

  lemma AlignIsMeant(r: Request, k: Kind)
    requires Writable(r) && Fits(r, k) && Legal(Written(r), k)
    ensures var specs := Effects(Written(r), 0, INITIAL, k);
      && Unpack(specs.data).align == (if r.align != NoAlign then r.align else if r.zero then Numeric else NoAlign)
      && Fill(specs) == MeantFill(r)
  {
    hide Effects, Unpack, Fill, ReadNumber, Decimal, ParseAlign, Presentation, IsUpperType, Letter, Legal, Code, CodePointLength,
      Written, AlignUnit, SignUnit;
    FieldsReadBack(Written(r), k);
    Parts(r);
  }

  lemma FlagsAreMeant(r: Request, k: Kind)
    requires Writable(r) && Fits(r, k) && Legal(Written(r), k)
    ensures var u := Unpack(Effects(Written(r), 0, INITIAL, k).data);
      u.sign == (if r.sign == Minus then NoSign else r.sign) && u.alt == r.alt && u.localized == r.localized
  {
    hide Effects, Unpack, Fill, ReadNumber, Decimal, ParseAlign, Presentation, IsUpperType, Letter, Legal, Code, CodePointLength,
      Written, AlignUnit, SignUnit;
    FieldsReadBack(Written(r), k);
    Parts(r);
    SignMeans(r.sign);
  }

  lemma WidthIsMeant(r: Request, k: Kind)
    requires Writable(r) && Fits(r, k) && Legal(Written(r), k)
    ensures var specs := Effects(Written(r), 0, INITIAL, k);
      specs.width == r.width && specs.precision == (if r.precision.Some? then r.precision.value else -1)
  {
    hide Effects, Unpack, Fill, ReadNumber, Decimal, ParseAlign, Presentation, IsUpperType, Letter, Legal, Code, CodePointLength,
      Written, AlignUnit, SignUnit;
    FieldsReadBack(Written(r), k);
    Parts(r);
    assert FitsPart(r, 4, k) && FitsPart(r, 5, k);
    NumbersAreMeant(r);
  }

  lemma TypeIsMeant(r: Request, k: Kind)
    requires Writable(r) && Fits(r, k) && Legal(Written(r), k)
    ensures var u := Unpack(Effects(Written(r), 0, INITIAL, k).data);
      && u.ptype == (if r.ptype.Some? then Code(r.ptype.value.form) else 0)
      && u.upper == (r.ptype.Some? && r.ptype.value.upper)
  {
    hide Effects, Unpack, Fill, ReadNumber, Decimal, ParseAlign, Presentation, IsUpperType, Letter, Legal, Code, CodePointLength,
      Written, AlignUnit, SignUnit;
    FieldsReadBack(Written(r), k);
    Parts(r);
    assert FitsPart(r, 7, k);
    if r.ptype.Some? {
      LetterMeans(r.ptype.value.form, r.ptype.value.upper, k);
    }
  }

  lemma FillSizeShows(specs: Specs)
    ensures |Fill(specs)| == Unpack(specs.data).fillSize
  {
    hide Unpack;
    assert Unpack(specs.data).fillSize <= 4 by {
      SizeAtMostFour(specs.data);
    }
  }

  lemma SizeAtMostFour(d: bv32)
    ensures Unpack(d).fillSize <= 4
  {
  }

  lemma InitialPlain()
    ensures Plain(INITIAL.data)
  {
  }

  lemma EffectsAreMeant(r: Request, k: Kind)
    requires Writable(r) && Fits(r, k) && Legal(Written(r), k)
    ensures AsMeant(r, Effects(Written(r), 0, INITIAL, k))
  {
    hide Effects, Unpack, Fill, Legal, Plain, Written, Fits, Packed, Code;
    var specs := Effects(Written(r), 0, INITIAL, k);
    InitialPlain();
    EffectsStayPlain(Written(r), 0, INITIAL, k);
    AlignIsMeant(r, k);
    FlagsAreMeant(r, k);
    WidthIsMeant(r, k);
    TypeIsMeant(r, k);
    FillSizeShows(specs);
    FillNotLong(r);
    PackedAgain(specs.data);
  }

  lemma FillNotLong(r: Request)
    requires Writable(r)
    ensures 1 <= |MeantFill(r)| <= 4
  {
  }

  /** Any request that fits the argument is read as it is meant: type code, alignment, sign, flags and fill at
      their places in the word, and the two numbers. */
  lemma RequestsAreRead(r: Request, k: Kind, rest: string)
    requires Writable(r) && Fits(r, k) && Closes(rest)
    ensures var o := Parsed(Render(Written(r)) + rest, k);
      o.Ok? && o.end == |Render(Written(r))| && AsMeant(r, o.specs)
  {
    hide Effects, Parsed, Legal, Writable, Fits, Written, Closes, AsMeant;
    RequestIsLegal(r, k);
    RenderingsAreParsed(Written(r), rest, k);
    EffectsAreMeant(r, k);
  }

  // What does not fit is rejected.

  /** The parts before i. */
  function Before(ps: seq<string>, i: nat): seq<string>
    requires |ps| == PARTS
  {
    seq(PARTS, j requires 0 <= j < PARTS => if j < i then ps[j] else "")
  }

  lemma {:induction false} SplitText(ps: seq<string>, i: nat, j: nat)
    requires |ps| == PARTS && j <= i <= PARTS
    ensures Tail(ps, j) == Tail(Before(ps, i), j) + Tail(ps, i)
    decreases i - j
  {
    if j < i {
      SplitText(ps, i, j + 1);
      assert ps[j] + (Tail(Before(ps, i), j + 1) + Tail(ps, i)) == (ps[j] + Tail(Before(ps, i), j + 1)) + Tail(ps, i);
    } else {
      NothingFrom(ps, i, j);
    }
  }

  lemma {:induction false} NothingFrom(ps: seq<string>, i: nat, j: nat)
    requires |ps| == PARTS && i <= j
    ensures Tail(Before(ps, i), j) == ""
    decreases PARTS - j
  {
    if j < PARTS {
      NothingFrom(ps, i, j + 1);
    }
  }

  /** No part but the first has an alignment in it. */
  lemma NoAlignInside(r: Request, i: nat, j: nat)
    requires Writable(r) && 1 <= i < PARTS && j < |Written(r)[i]|
    ensures ParseAlign(Written(r)[i][j]) == NoAlign
  {
    hide Decimal, Letter;
    if r.ptype.Some? {
      LetterMeans(r.ptype.value.form, r.ptype.value.upper, Float);
    }
    if i == 4 {
      assert IsDigit(Decimal(r.width)[j]);
    } else if i == 5 && j > 0 {
      assert IsDigit(Decimal(r.precision.value)[j - 1]);
    }
  }

  lemma {:induction false} NoAlignBehind(r: Request, i: nat, j: nat)
    requires Writable(r) && 1 <= i <= PARTS && j < |Tail(Written(r), i)|
    ensures ParseAlign(Tail(Written(r), i)[j]) == NoAlign
    decreases PARTS - i
  {
    hide Written;
    assert |Written(r)| == PARTS by {
      Parts(r);
    }
    var t := Written(r)[i];
    if j < |t| {
      NoAlignInside(r, i, j);
    } else {
      NoAlignBehind(r, i + 1, j - |t|);
    }
  }

  /** What comes next, from part m on, is no alignment, and behind the numbers no digit. */
  lemma {:induction false} FirstFrom(ps: seq<string>, k: Kind, m: nat, i: nat, rest: string)
    requires Legal(ps, k) && 1 <= m <= i < PARTS && (forall j :: i <= j < PARTS ==> ps[j] == "")
    requires rest != "" && ParseAlign(rest[0]) == NoAlign && (i >= 5 ==> !IsDigit(rest[0]))
    ensures var t := Tail(ps, m) + rest; t != "" && ParseAlign(t[0]) == NoAlign && (m >= 5 ==> !IsDigit(t[0]))
    decreases i - m
  {
    hide PartOk, ParseAlign;
    if m == i {
      SkipAbsent(ps, i, PARTS, INITIAL, k);
      assert Tail(ps, i) == "";
      assert Tail(ps, m) + rest == rest;
    } else if ps[m] == "" {
      FirstFrom(ps, k, m + 1, i, rest);
      assert Tail(ps, m) == Tail(ps, m + 1);
    } else {
      PartStarts(ps[m], m, k);
    }
  }

  lemma ReadOneMore(s: string, pos: nat, st: Stage, specs: Specs, k: Kind, ps: seq<string>, j: nat, i: nat, rest: string)
    requires Legal(ps, k) && 1 <= j < i < PARTS && Order(st) <= j && ps[j] != "" && (forall m :: i <= m < PARTS ==> ps[m] == "")
    requires rest != "" && ParseAlign(rest[0]) == NoAlign && (i >= 5 ==> !IsDigit(rest[0]))
    requires pos <= |s| && s[pos..] == ps[j] + (Tail(ps, j + 1) + rest)
    ensures PartOk(ps[j], j, k) && pos + |ps[j]| <= |s| && s[pos + |ps[j]|..] == Tail(ps, j + 1) + rest
    ensures Resume(s, pos, st, specs, k) == Resume(s, pos + |ps[j]|, StageOf(j), Effect(ps[j], j, specs, k), k)
  {
    hide Switch, Effect, PartOk, Tail, Resume, Order, ParseAlign;
    Behind(s, pos, ps[j], Tail(ps, j + 1) + rest);
    FirstFrom(ps, k, j + 1, i, rest);
    EffectsUnfold(ps, j, specs, k);
    ReadPart(s, pos, st, specs, k, ps[j], j, Tail(ps, j + 1) + rest);
    Unfold(s, pos, st, specs, k);
  }

  lemma StageOrder(j: nat)
    requires j < 7
    ensures Order(StageOf(j)) == j + 1
  {
  }

  /** The parts before i, read one after the other. */
  lemma {:induction false} ReadBefore(s: string, pos: nat, st: Stage, specs: Specs, k: Kind, ps: seq<string>, j: nat, i: nat, rest: string)
    returns (st': Stage, specs': Specs)
    requires Legal(ps, k) && 1 <= j <= i < PARTS && Order(st) <= j && (forall m :: i <= m < PARTS ==> ps[m] == "")
    requires rest != "" && ParseAlign(rest[0]) == NoAlign && (i >= 5 ==> !IsDigit(rest[0]))
    requires pos <= |s| && s[pos..] == Tail(ps, j) + rest
    ensures Order(st') <= i && pos + |Tail(ps, j)| <= |s| && s[pos + |Tail(ps, j)|..] == rest
    ensures Resume(s, pos, st, specs, k) == Resume(s, pos + |Tail(ps, j)|, st', specs', k)
    decreases i - j
  {
    hide Effect, PartOk, Resume, ParseAlign, Order, StageOf, Tail;
    EffectsUnfold(ps, j, specs, k);
    if j == i {
      SkipAbsent(ps, i, PARTS, specs, k);
      TailEnds(ps);
      st', specs' := st, specs;
    } else if ps[j] == "" {
      assert Tail(ps, j) == Tail(ps, j + 1);
      st', specs' := ReadBefore(s, pos, st, specs, k, ps, j + 1, i, rest);
    } else {
      assert s[pos..] == ps[j] + (Tail(ps, j + 1) + rest);
      ReadOneMore(s, pos, st, specs, k, ps, j, i, rest);
      StageOrder(j);
      st', specs' := ReadBefore(s, pos + |ps[j]|, StageOf(j), Effect(ps[j], j, specs, k), k, ps, j + 1, i, rest);
    }
  }

  lemma TailEnds(ps: seq<string>)
    requires |ps| == PARTS
    ensures Tail(ps, PARTS) == ""
  {
  }

  lemma UnitRejected(s: string, pos: nat, st: Stage, specs: Specs, k: Kind, r: Request, i: nat)
    requires Writable(r) && i in {1, 2, 3, 6} && !FitsPart(r, i, k) && pos < |s|
    requires Written(r)[i] != "" && s[pos] == Written(r)[i][0]
    ensures Switch(s, pos, s[pos], st, specs, k) == Done(Err)
  {
    hide Decimal, Letter;
  }

  lemma SwitchOnType(s: string, pos: nat, st: Stage, specs: Specs, k: Kind)
    requires pos < |s| && IsType(s[pos]) && Presentation(s[pos], k) == None
    ensures Switch(s, pos, s[pos], st, specs, k) == Done(Err)
  {
    hide Presentation;
  }

  lemma TypeRejected(s: string, pos: nat, st: Stage, specs: Specs, k: Kind, r: Request)
    requires Writable(r) && !FitsPart(r, 7, k) && pos < |s|
    requires Written(r)[7] != "" && s[pos] == Written(r)[7][0]
    ensures Switch(s, pos, s[pos], st, specs, k) == Done(Err)
  {
    hide Decimal, Presentation, Letter, For, Switch, IsType;
    LetterMeans(r.ptype.value.form, r.ptype.value.upper, k);
    SwitchOnType(s, pos, st, specs, k);
  }

  lemma TooLarge(n: nat)
    requires n > 0x7fff_ffff
    ensures DigitSequence(Decimal(n)) && ReadNumber(Decimal(n)) == None && '1' <= Decimal(n)[0] <= '9'
  {
    hide Decimal, ReadNumber;
    ReadsDecimal(n);
    DecimalValue(n);
  }

  lemma WidthRejected(s: string, pos: nat, st: Stage, specs: Specs, k: Kind, r: Request, after: string)
    requires Writable(r) && !FitsPart(r, 4, k) && pos <= |s| && s[pos..] == Written(r)[4] + after
    requires after == "" || !IsDigit(after[0])
    ensures pos < |s| && Switch(s, pos, s[pos], st, specs, k) == Done(Err)
  {
    hide Decimal, ReadNumber, Letter;
    var t := Decimal(r.width);
    TooLarge(r.width);
    WholeRun(s, pos, t, after);
    assert s[pos] == s[pos..][0] == t[0];
    assert Switch(s, pos, s[pos], st, specs, k) == WidthRound(s, pos, st, specs);
  }

  lemma SwitchOnDot(s: string, pos: nat, st: Stage, specs: Specs, k: Kind)
    requires pos < |s| && s[pos] == '.'
    ensures Switch(s, pos, s[pos], st, specs, k) == PrecisionRound(s, pos, st, specs, k)
  {
    hide PrecisionRound;
  }

  lemma DigitsTooLarge(s: string, pos: nat, st: Stage, specs: Specs, k: Kind, t: string, after: string)
    requires pos < |s| && s[pos + 1..] == t + after && DigitSequence(t) && ReadNumber(t) == None
    requires after == "" || !IsDigit(after[0])
    ensures PrecisionRound(s, pos, st, specs, k) == Done(Err)
  {
    hide ReadNumber;
    WholeRun(s, pos + 1, t, after);
    assert s[pos + 1] == s[pos + 1..][0];
  }

  lemma WrongKindOfPrecision(s: string, pos: nat, st: Stage, specs: Specs, k: Kind)
    requires pos < |s| && k !in {Float, Str, CString}
    ensures PrecisionRound(s, pos, st, specs, k) == Done(Err)
  {
  }

  lemma PrecisionRejected(s: string, pos: nat, st: Stage, specs: Specs, k: Kind, r: Request, after: string)
    requires Writable(r) && !FitsPart(r, 5, k) && pos <= |s| && s[pos..] == Written(r)[5] + after
    requires after == "" || !IsDigit(after[0])
    ensures pos < |s| && Switch(s, pos, s[pos], st, specs, k) == Done(Err)
  {
    hide Decimal, ReadNumber, Letter, Switch, PrecisionRound;
    var t := Decimal(r.precision.value);
    assert s[pos] == s[pos..][0] == '.';
    SwitchOnDot(s, pos, st, specs, k);
    if k in {Float, Str, CString} {
      TooLarge(r.precision.value);
      assert s[pos + 1..] == s[pos..][1..] == t + after;
      DigitsTooLarge(s, pos, st, specs, k, t, after);
    } else {
      WrongKindOfPrecision(s, pos, st, specs, k);
    }
  }

  lemma PartRejected(s: string, pos: nat, st: Stage, specs: Specs, k: Kind, r: Request, i: nat, after: string)
    requires Writable(r) && 1 <= i < PARTS && !FitsPart(r, i, k) && pos <= |s| && s[pos..] == Written(r)[i] + after
    requires i == 4 || i == 5 ==> after == "" || !IsDigit(after[0])
    ensures pos < |s| && Switch(s, pos, s[pos], st, specs, k) == Done(Err)
  {
    hide Switch;
    MisfitIsThere(r, i, k);
    Behind(s, pos, Written(r)[i], after);
    hide Written, FitsPart, Writable;
    if i == 4 {
      WidthRejected(s, pos, st, specs, k, r, after);
    } else if i == 5 {
      PrecisionRejected(s, pos, st, specs, k, r, after);
    } else if i == 7 {
      TypeRejected(s, pos, st, specs, k, r);
    } else {
      UnitRejected(s, pos, st, specs, k, r, i);
    }
  }

  lemma MisfitIsThere(r: Request, i: nat, k: Kind)
    requires i < PARTS && !FitsPart(r, i, k)
    ensures |Written(r)| == PARTS && Written(r)[i] != ""
  {
    hide Letter, Decimal;
  }

  lemma FirstUnitOf(r: Request, i: nat)
    requires Writable(r) && 1 <= i < PARTS && Written(r)[i] != ""
    ensures ParseAlign(Written(r)[i][0]) == NoAlign && (i >= 5 ==> !IsDigit(Written(r)[i][0]))
  {
    NoAlignInside(r, i, 0);
    hide Decimal, Letter;
    if r.ptype.Some? {
      LetterMeans(r.ptype.value.form, r.ptype.value.upper, Float);
    }
  }

  /** What follows part i is no digit if part i is a number. */
  lemma {:induction false} NoDigitAfter(r: Request, i: nat, rest: string)
    requires Writable(r) && 5 <= i <= PARTS && Closes(rest)
    ensures var t := Tail(Written(r), i) + rest; t == "" || !IsDigit(t[0])
    decreases PARTS - i
  {
    hide Written;
    Parts(r);
    if i < PARTS {
      if Written(r)[i] == "" {
        NoDigitAfter(r, i + 1, rest);
        assert Tail(Written(r), i) == Tail(Written(r), i + 1);
      } else {
        FirstUnitOf(r, i);
      }
    }
  }

  /** Without an alignment the text is read from its first unit on. */
  lemma NoFillAtAll(r: Request, k: Kind, rest: string)
    requires Writable(r) && r.align == NoAlign && Closes(rest) && Tail(Written(r), 1) != ""
    ensures var s := Tail(Written(r), 1) + rest; Parsed(s, k) == Resume(s, 0, StartS, INITIAL, k)
  {
    hide Written, Switch;
    var s := Tail(Written(r), 1) + rest;
    if |Tail(Written(r), 1)| > 1 {
      NoAlignBehind(r, 1, 1);
    }
    assert |s| > 1 ==> ParseAlign(s[1]) == NoAlign;
  }

  lemma Fronts(first: string, second: string, third: string)
    ensures (first + second) + third == first + (second + third)
  {
  }

  /** The text around its part i. */
  lemma TextAround(r: Request, i: nat, rest: string)
    requires Writable(r) && 1 <= i < PARTS
    ensures var ps := Written(r);
      && |ps| == PARTS
      && Tail(ps, i) + rest == ps[i] + (Tail(ps, i + 1) + rest)
      && Tail(ps, 1) + rest == Tail(Before(ps, i), 1) + (Tail(ps, i) + rest)
      && Render(ps) + rest == ps[0] + (Tail(ps, 1) + rest)
      && (r.align == NoAlign ==> Render(ps) + rest == Tail(ps, 1) + rest)
  {
    hide Written, Tail;
    var ps := Written(r);
    Parts(r);
    TailUnfolds(ps, i);
    TailUnfolds(ps, 0);
    SplitText(ps, i, 1);
    Fronts(ps[i], Tail(ps, i + 1), rest);
    Fronts(Tail(Before(ps, i), 1), Tail(ps, i), rest);
    Fronts(ps[0], Tail(ps, 1), rest);
    assert "" + Tail(ps, 1) == Tail(ps, 1);
  }

  /** The run up to the first part that does not fit, from behind the alignment. */
  lemma ReadsUpToIn(r: Request, k: Kind, rest: string, i: nat, s: string, start: nat, st0: Stage, specs0: Specs)
    returns (pos: nat, st: Stage, specs: Specs)
    requires Writable(r) && Closes(rest) && 1 <= i < PARTS && Order(st0) <= 1 && |Written(r)| == PARTS
    requires (forall j :: 0 <= j < i ==> FitsPart(r, j, k)) && !FitsPart(r, i, k)
    requires start <= |s| && s[start..] == Tail(Written(r), 1) + rest
    ensures pos <= |s| && s[pos..] == Written(r)[i] + (Tail(Written(r), i + 1) + rest) && Order(st) <= i
    ensures Resume(s, start, st0, specs0, k) == Resume(s, pos, st, specs, k)
  {
    hide Resume, Effect, PartOk, FitsPart, Written, Tail, ParseAlign, Closes, Order;
    MisfitIsThere(r, i, k);
    FirstUnitOf(r, i);
    TextAround(r, i, rest);
    BeforeIsLegal(r, i, k);
    var b := Before(Written(r), i);
    st, specs := ReadBefore(s, start, st0, specs0, k, b, 1, i, Tail(Written(r), i) + rest);
    pos := start + |Tail(b, 1)|;
  }

  lemma NothingButBefore(r: Request, k: Kind, i: nat, rest: string)
    requires Writable(r) && 1 <= i < PARTS && !FitsPart(r, i, k)
    ensures Tail(Written(r), 1) != "" && ParseAlign((Tail(Written(r), 1) + rest)[0]) == NoAlign
  {
    hide Written, Tail, ParseAlign;
    MisfitIsThere(r, i, k);
    TextAround(r, i, "");
    assert Tail(Written(r), 1) + "" == Tail(Written(r), 1);
    NoAlignBehind(r, 1, 0);
  }

  lemma ReadsUpTo(r: Request, k: Kind, rest: string, i: nat) returns (pos: nat, st: Stage, specs: Specs)
    requires Writable(r) && Closes(rest) && 1 <= i < PARTS
    requires (forall j :: 0 <= j < i ==> FitsPart(r, j, k)) && !FitsPart(r, i, k)
    ensures var s := Render(Written(r)) + rest;
      && pos <= |s| && |Written(r)| == PARTS
      && s[pos..] == Written(r)[i] + (Tail(Written(r), i + 1) + rest) && Order(st) <= i
      && Parsed(s, k) == Resume(s, pos, st, specs, k)
  {
    hide Resume, Parsed, Effect, PartOk, FitsPart, Written, Tail, ParseAlign, Closes, Order, Render;
    var ps := Written(r);
    var s := Render(ps) + rest;
    TextAround(r, i, rest);
    NothingButBefore(r, k, i, rest);
    OrderOfStart();
    if r.align == NoAlign {
      NoFillAtAll(r, k, rest);
      assert s[0..] == s;
      pos, st, specs := ReadsUpToIn(r, k, rest, i, s, 0, StartS, INITIAL);
    } else {
      AlignIsRead(r, k, s, Tail(ps, 1) + rest);
      Behind(s, 0, ps[0], Tail(ps, 1) + rest);
      pos, st, specs := ReadsUpToIn(r, k, rest, i, s, |ps[0]|, AlignS, Effect(ps[0], 0, INITIAL, k));
    }
  }

  lemma OrderOfStart()
    ensures Order(StartS) == 0 && Order(AlignS) == 1
  {
  }

  lemma TailUnfolds(ps: seq<string>, i: nat)
    requires i < |ps|
    ensures Tail(ps, i) == ps[i] + Tail(ps, i + 1) && Render(ps) == Tail(ps, 0)
  {
  }

  lemma BeforeIsLegal(r: Request, i: nat, k: Kind)
    requires Writable(r) && i < PARTS && forall j :: 0 <= j < i ==> FitsPart(r, j, k)
    ensures |Written(r)| == PARTS && Legal(Before(Written(r), i), k)
  {
    hide PartOk, Written, FitsPart;
    Parts(r);
    forall j | 0 <= j < PARTS ensures Before(Written(r), i)[j] == "" || PartOk(Before(Written(r), i)[j], j, k) {
      if j < i && Written(r)[j] != "" {
        PartIsLegal(r, j, k);
      }
    }
  }

  lemma AlignIsRead(r: Request, k: Kind, s: string, after: string)
    requires Writable(r) && r.align != NoAlign && |Written(r)| == PARTS && s == Written(r)[0] + after
    requires after == "" || ParseAlign(after[0]) == NoAlign
    ensures PartOk(Written(r)[0], 0, k)
    ensures Parsed(s, k) == Resume(s, |Written(r)[0]|, AlignS, Effect(Written(r)[0], 0, INITIAL, k), k)
  {
    hide Written, Switch, Resume, Effect, ParseAlign;
    Parts(r);
    PartIsLegal(r, 0, k);
    AlignPart(Written(r)[0], k);
    ReadAlign(s, Written(r)[0], after, k);
  }

  lemma {:induction false} FirstMisfit(r: Request, k: Kind, i: nat) returns (j: nat)
    requires i < PARTS && !FitsPart(r, i, k)
    ensures 1 <= j <= i && !FitsPart(r, j, k) && forall m :: 0 <= m < j ==> FitsPart(r, m, k)
  {
    if m :| 0 <= m < i && !FitsPart(r, m, k) {
      j := FirstMisfit(r, k, m);
    } else {
      j := i;
    }
  }

  lemma RequestRejected(r: Request, k: Kind, rest: string)
    requires Writable(r) && !Fits(r, k) && Closes(rest)
    ensures Parsed(Render(Written(r)) + rest, k) == Err
  {
    hide Parsed, Resume, Switch, Written, FitsPart, Tail, Writable;
    var m :| 0 <= m < PARTS && !FitsPart(r, m, k);
    var i := FirstMisfit(r, k, m);
    var pos, st, specs := ReadsUpTo(r, k, rest, i);
    var s := Render(Written(r)) + rest;
    if i == 4 || i == 5 {
      NoDigitAfter(r, i + 1, rest);
    }
    PartRejected(s, pos, st, specs, k, r, i, Tail(Written(r), i + 1) + rest);
    Unfold(s, pos, st, specs, k);
  }

  /** The whole of it: what can be written down is accepted exactly if it suits the argument, and then read as it
      is meant. */
  lemma AcceptedIfFitting(r: Request, k: Kind, rest: string)
    requires Writable(r) && Closes(rest)
    ensures var o := Parsed(Render(Written(r)) + rest, k);
      if Fits(r, k) then o.Ok? && o.end == |Render(Written(r))| && AsMeant(r, o.specs) else o == Err
  {
    hide Parsed, Fits, AsMeant, Written, Closes, Writable;
    if Fits(r, k) {
      RequestsAreRead(r, k, rest);
    } else {
      RequestRejected(r, k, rest);
    }
  }

  // Code points.

  /** UTF-8: how many units a code point has, and the first of them (section 3 of RFC 3629). */
  function Units(codePoint: nat): nat {
    if codePoint < 0x80 then 1 else if codePoint < 0x800 then 2 else if codePoint < 0x1_0000 then 3 else 4
  }

  function FirstOf(codePoint: nat): nat {
    if codePoint < 0x80 then codePoint else if codePoint < 0x800 then 0xC0 + codePoint / 0x40
    else if codePoint < 0x1_0000 then 0xE0 + codePoint / 0x1000 else 0xF0 + codePoint / 0x4_0000
  }

  /** From its first unit the length of any code point is told, and it is one for a unit that begins none. */
  lemma LengthsOfCodePoints(codePoint: nat, unit: char)
    ensures codePoint < 0x11_0000 && unit as nat == FirstOf(codePoint) ==> CodePointLength(unit) == Units(codePoint)
    ensures 0x80 <= unit as nat < 0xC0 || 0xF8 <= unit as nat ==> CodePointLength(unit) == 1
  {
  }
}
