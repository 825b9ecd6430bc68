/** The parser of format specifiers: from text to the packed word of `basic_specs`.

    Code units are characters. A `{`, which would ask for a width or precision at run time, ends the model's
    part of the work: the outcome is then `Argument`. */
module SpecParser {
  import opened Options
  import opened Digits

  // The packed word.

  const TYPE_MASK: bv32 := 0x00007
  const ALIGN_MASK: bv32 := 0x00038
  const WIDTH_MASK: bv32 := 0x000C0
  const PRECISION_MASK: bv32 := 0x00300
  const SIGN_MASK: bv32 := 0x00C00
  const UPPERCASE_MASK: bv32 := 0x01000
  const ALTERNATE_MASK: bv32 := 0x02000
  const LOCALIZED_MASK: bv32 := 0x04000
  const FILL_SIZE_MASK: bv32 := 0x38000

  datatype Align = NoAlign | Left | Right | Center | Numeric
  datatype Sign = NoSign | Minus | Plus | Space

  function AlignCode(a: Align): bv32 {
    match a case NoAlign => 0 case Left => 1 case Right => 2 case Center => 3 case Numeric => 4
  }

  function SignCode(s: Sign): bv32 {
    match s case NoSign => 0 case Minus => 1 case Plus => 2 case Space => 3
  }

  function SizeCode(size: nat): bv32
    requires size <= 4
  {
    if size == 0 then 0 else if size == 1 then 1 else if size == 2 then 2 else if size == 3 then 3 else 4
  }

  function TypeOf(d: bv32): bv32 {
    d & TYPE_MASK
  }

  function AlignOf(d: bv32): Align {
    var code := (d & ALIGN_MASK) >> 3;
    if code == 1 then Left else if code == 2 then Right else if code == 3 then Center
    else if code == 4 then Numeric else NoAlign
  }

  function SignOf(d: bv32): Sign {
    var code := (d & SIGN_MASK) >> 10;
    if code == 1 then Minus else if code == 2 then Plus else if code == 3 then Space else NoSign
  }

  predicate Upper(d: bv32) {
    d & UPPERCASE_MASK != 0
  }

  predicate Alt(d: bv32) {
    d & ALTERNATE_MASK != 0
  }

  predicate Localized(d: bv32) {
    d & LOCALIZED_MASK != 0
  }

  function FillSize(d: bv32): (size: nat)
    ensures size <= 4
  {
    var code := (d & FILL_SIZE_MASK) >> 15;
    if code == 1 then 1 else if code == 2 then 2 else if code == 3 then 3 else if code == 4 then 4 else 0
  }

  function SetType(d: bv32, code: bv32): bv32 {
    (d & !TYPE_MASK) | code
  }

  function SetAlign(d: bv32, a: Align): bv32 {
    (d & !ALIGN_MASK) | (AlignCode(a) << 3)
  }

  function SetSign(d: bv32, s: Sign): bv32 {
    (d & !SIGN_MASK) | (SignCode(s) << 10)
  }

  function SetFillSize(d: bv32, size: nat): bv32
    requires size <= 4
  {
    (d & !FILL_SIZE_MASK) | (SizeCode(size) << 15)
  }

  /** parse_width and parse_precision note that the number was not an argument. */
  function SetStaticWidth(d: bv32): bv32 {
    d & !WIDTH_MASK
  }

  function SetStaticPrecision(d: bv32): bv32 {
    d & !PRECISION_MASK
  }

  predicate Dynamic(d: bv32) {
    d & (WIDTH_MASK | PRECISION_MASK) != 0
  }

  /** Everything the word says. */
  datatype Fields = Fields(dynamic: bool, ptype: bv32, align: Align, sign: Sign, upper: bool, alt: bool, localized: bool, fillSize: nat)

  function Unpack(d: bv32): Fields {
    Fields(Dynamic(d), TypeOf(d), AlignOf(d), SignOf(d), Upper(d), Alt(d), Localized(d), FillSize(d))
  }

  // Each setter changes its own field and no other.

  lemma SetTypeSets(d: bv32, code: bv32)
    requires code <= 7
    ensures Unpack(SetType(d, code)) == Unpack(d).(ptype := code)
  {
  }

  lemma SetAlignSets(d: bv32, a: Align)
    ensures Unpack(SetAlign(d, a)) == Unpack(d).(align := a)
  {
  }

  lemma SetSignSets(d: bv32, s: Sign)
    ensures Unpack(SetSign(d, s)) == Unpack(d).(sign := s)
  {
  }

  lemma SetFillSizeSets(d: bv32, size: nat)
    requires size <= 4
    ensures Unpack(SetFillSize(d, size)) == Unpack(d).(fillSize := size)
  {
  }

  lemma UpperSets(d: bv32)
    ensures Unpack(d | UPPERCASE_MASK) == Unpack(d).(upper := true)
  {
  }

  lemma AltSets(d: bv32)
    ensures Unpack(d | ALTERNATE_MASK) == Unpack(d).(alt := true)
  {
  }

  lemma LocalizedSets(d: bv32)
    ensures Unpack(d | LOCALIZED_MASK) == Unpack(d).(localized := true)
  {
  }

  lemma StaticSets(d: bv32)
    requires !Dynamic(d)
    ensures SetStaticWidth(d) == d && SetStaticPrecision(d) == d
  {
  }

  // Numbers.

  const INT_MAX: nat := 0x7fff_ffff
  const U32: nat := 0x1_0000_0000

  /** What parse_nonnegative_int reads, or None where it returns its error value. */
  function ReadNumber(digits: string): Option<nat>
    requires DigitSequence(digits)
  {
    if |digits| <= 10 && Value(digits) <= INT_MAX then Some(Value(digits)) else None
  }

  /** The unsigned accumulator may wrap, but only where the result is not used. */
  method ParseNonnegativeInt(s: string, begin: nat, errorValue: int) returns (value: int, end: nat)
    requires begin < |s| && IsDigit(s[begin])
    ensures end == begin + Leading(s[begin..]) && DigitSequence(s[begin..end])
    ensures var number := ReadNumber(s[begin..end]); value == if number.Some? then number.value else errorValue
  {
    var v, prev, p := 0, 0, begin;
    var more := true;
    ghost var digits := s[begin..][..Leading(s[begin..])];
    while more
      invariant begin <= p <= begin + |digits| <= |s| && digits == s[begin..begin + |digits|]
      invariant more <==> p < begin + |digits|
      invariant v == Value(digits[..p - begin]) % U32
      invariant p > begin ==> prev == Value(digits[..p - begin - 1]) % U32
      decreases begin + |digits| - p
    {
      AddDigit(digits, p - begin);
      assert s[p] == s[begin..][p - begin];
      prev := v;
      v := (v * 10 + DigitValue(s[p])) % U32;
      p := p + 1;
      assert p < |s| ==> s[p] == s[begin..][p - begin];
      more := p != |s| && IsDigit(s[p]);
    }
    end := p;
    assert digits[..p - begin] == digits == s[begin..end];
    Overflow(digits, v, prev);
    var numDigits := end - begin;
    if numDigits <= 9 {
      value := v;
    } else {
      value := if numDigits == 10 && prev * 10 + DigitValue(s[p - 1]) <= INT_MAX then v else errorValue;
    }
  }

  lemma AddDigit(digits: string, k: nat)
    requires k < |digits| && forall i :: 0 <= i < |digits| ==> IsDigit(digits[i])
    ensures Value(digits[..k + 1]) == 10 * Value(digits[..k]) + DigitValue(digits[k])
    ensures Value(digits[..k + 1]) % U32 == (Value(digits[..k]) % U32 * 10 + DigitValue(digits[k])) % U32
  {
    assert digits[..k + 1][..k] == digits[..k];
    var v := Value(digits[..k]);
    Wraps(v % U32 * 10 + DigitValue(digits[k]), 10 * (v / U32));
  }

  lemma Wraps(x: nat, k: nat)
    ensures (x + 0x1_0000_0000 * k) % 0x1_0000_0000 == x % 0x1_0000_0000
  {
  }

  lemma NinePowers()
    ensures Pow10(9) == 1_000_000_000
  {
  }

  /** Up to nine digits nothing wraps; with ten the first nine do not. */
  lemma Overflow(digits: string, v: nat, prev: nat)
    requires DigitSequence(digits)
    requires v == Value(digits) % U32 && prev == Value(digits[..|digits| - 1]) % U32
    ensures var number := ReadNumber(digits); var last := DigitValue(digits[|digits| - 1]);
      if |digits| <= 9 || (|digits| == 10 && prev * 10 + last <= INT_MAX) then number == Some(v) else number == None
  {
    var first := digits[..|digits| - 1];
    LastDigit(digits);
    hide Value, Pow10;
    NinePowers();
    ValueBounds(digits);
    ValueBounds(first);
    if |digits| <= 9 {
      Pow10Grows(|digits|, 9);
    }
    if |digits| <= 10 {
      Pow10Grows(|first|, 9);
    }
    OverflowArithmetic(|digits|, Value(digits), Value(first), DigitValue(digits[|digits| - 1]), v, prev);
  }

  lemma LastDigit(digits: string)
    requires DigitSequence(digits)
    ensures Value(digits) == 10 * Value(digits[..|digits| - 1]) + DigitValue(digits[|digits| - 1])
  {
  }

  lemma OverflowArithmetic(n: nat, whole: nat, first: nat, last: nat, v: nat, prev: nat)
    requires v == whole % 0x1_0000_0000 && prev == first % 0x1_0000_0000 && whole == 10 * first + last
    requires n <= 9 ==> whole < 1_000_000_000
    requires n <= 10 ==> first < 1_000_000_000
    ensures n <= 9 ==> v == whole <= INT_MAX
    ensures n <= 10 ==> prev == first && (whole <= INT_MAX ==> v == whole)
  {
  }

  lemma {:induction false} Pow10Grows(a: nat, b: nat)
    requires a <= b
    ensures Pow10(a) <= Pow10(b)
  {
    if a < b {
      Pow10Grows(a, b - 1);
    }
  }

  /** Without leading zeros a number is read exactly if it is at most INT_MAX. */
  lemma NumbersUpToIntMax(digits: string)
    requires DigitSequence(digits) && digits[0] != '0'
    ensures ReadNumber(digits) == if Value(digits) <= INT_MAX then Some(Value(digits)) else None
  {
    ValueBounds(digits);
    assert Pow10(10) == 10_000_000_000;
    if |digits| > 10 {
      Pow10Grows(10, |digits| - 1);
    }
  }

  // The parser.

  /** The argument types, as far as the parser tells them apart. */
  datatype Kind = SignedInt | UnsignedInt | Bool | Char | Float | CString | Str | Pointer | Other

  predicate Arithmetic(k: Kind) {
    k in {SignedInt, UnsignedInt, Bool, Char, Float}
  }

  predicate Integral(k: Kind) {
    k in {SignedInt, UnsignedInt, Bool, Char}
  }

  /** The code of a presentation type, if the character is one and fits the argument. */
  function Presentation(c: char, k: Kind): Option<bv32> {
    match c
    case 'd' => if Integral(k) then Some(3) else None
    case 'x' => if Integral(k) then Some(4) else None
    case 'X' => if Integral(k) then Some(4) else None
    case 'o' => if Integral(k) then Some(5) else None
    case 'b' => if Integral(k) then Some(6) else None
    case 'B' => if Integral(k) then Some(6) else None
    case 'c' => if Integral(k) && k != Bool then Some(7) else None
    case 'e' => if k == Float then Some(1) else None
    case 'E' => if k == Float then Some(1) else None
    case 'f' => if k == Float then Some(2) else None
    case 'F' => if k == Float then Some(2) else None
    case 'g' => if k == Float then Some(3) else None
    case 'G' => if k == Float then Some(3) else None
    case 'a' => if k == Float then Some(4) else None
    case 'A' => if k == Float then Some(4) else None
    case 's' => if k in {Bool, Str, CString} then Some(2) else None
    case 'p' => if k in {Pointer, CString} then Some(3) else None
    case '?' => if k in {Char, Str, CString} then Some(1) else None
    case _ => None
  }

  predicate IsType(c: char) {
    || c == 'd' || c == 'x' || c == 'X' || c == 'o' || c == 'b' || c == 'B' || c == 'c' || c == 'e' || c == 'E'
    || c == 'f' || c == 'F' || c == 'g' || c == 'G' || c == 'a' || c == 'A' || c == 's' || c == 'p' || c == '?'
  }

  predicate IsUpperType(c: char) {
    c == 'X' || c == 'B' || c == 'E' || c == 'F' || c == 'G' || c == 'A'
  }

  function ParseAlign(c: char): Align {
    if c == '<' then Left else if c == '>' then Right else if c == '^' then Center else NoAlign
  }

  /** The number of code units of a code point, from its first one. */
  function CodePointLength(c: char): (n: nat)
    ensures 1 <= n <= 4
  {
    var u := c as int;
    if 0xC0 <= u < 0xE0 then 2 else if 0xE0 <= u < 0xF0 then 3 else if 0xF0 <= u < 0xF8 then 4 else 1
  }

  const LENGTHS: bv64 := 0x3a55_0000_0000_0000

  lemma LengthBits(u: bv64)
    requires u < 256
    ensures ((LENGTHS >> (2 * (u >> 3))) & 3) + 1
            == if 0xC0 <= u < 0xE0 then 2 else if 0xE0 <= u < 0xF0 then 3 else if 0xF0 <= u < 0xF8 then 4 else 1
  {
  }

  /** CodePointLength is the lookup in the magic word, for every byte. */
  lemma LengthTable(c: char, u: bv64)
    requires c as int < 256 && u as int == c as int
    ensures (((LENGTHS >> (2 * (u >> 3))) & 3) + 1) as nat == CodePointLength(c)
  {
    LengthBits(u);
    assert 0xC0 <= u <==> 0xC0 <= u as int;
    assert u < 0xE0 <==> u as int < 0xE0;
    assert u < 0xF0 <==> u as int < 0xF0;
    assert u < 0xF8 <==> u as int < 0xF8;
  }

  /** The word, the fill units, and the two numbers. */
  datatype Specs = Specs(data: bv32, fillData: FillData, width: int, precision: int)

  type FillData = f: seq<char> | |f| == 4 witness [' ', ' ', ' ', ' ']

  const INITIAL := Specs(1 << 15, [' ', '\0', '\0', '\0'], 0, -1)

  function FillUnits(f: FillData, size: nat): string {
    if size <= 4 then f[..size] else f
  }

  function Fill(specs: Specs): string
  {
    FillUnits(specs.fillData, Unpack(specs.data).fillSize)
  }

  /** set_fill for one unit writes the unit in pieces of a byte; for more units it copies them. */
  function SetFill(specs: Specs, fill: string): Specs
    requires 1 <= |fill| <= 4
  {
    specs.(data := SetFillSize(specs.data, |fill|),
      fillData := if |fill| == 1 then [fill[0], '\0', '\0', specs.fillData[3]] else fill + specs.fillData[|fill|..])
  }

  datatype Stage = StartS | AlignS | SignS | HashS | ZeroS | WidthS | PrecisionS | LocaleS

  function Order(st: Stage): nat {
    match st
    case StartS => 0 case AlignS => 1 case SignS => 2 case HashS => 3
    case ZeroS => 4 case WidthS => 5 case PrecisionS => 6 case LocaleS => 7
  }

  datatype Outcome = Ok(specs: Specs, end: nat) | Err | Argument

  function Zeroed(specs: Specs): Specs
  {
    if AlignOf(specs.data) == NoAlign then
      specs.(data := SetFillSize(SetAlign(specs.data, Numeric), 1), fillData := specs.fillData[0 := '0'])
    else specs
  }

  function Aligned(specs: Specs, a: Align): Specs {
    specs.(data := SetAlign(specs.data, a))
  }

  function Typed(specs: Specs, c: char, code: bv32): Specs {
    specs.(data := SetType(if IsUpperType(c) then specs.data | UPPERCASE_MASK else specs.data, code))
  }

  function Signed(specs: Specs, c: char): Specs {
    if c == '-' then specs else specs.(data := SetSign(specs.data, if c == '+' then Plus else Space))
  }

  /** One round of the loop. */
  datatype Round = More(pos: nat, st: Stage, specs: Specs) | Done(outcome: Outcome)

  /** Entering a part that must not come after `current` and needs `valid`. */
  function Enter(current: Stage, next: Stage, valid: bool, pos: nat, specs: Specs): Round {
    if Order(current) < Order(next) && valid then More(pos, next, specs) else Done(Err)
  }

  function WithWidth(specs: Specs, digits: string): Specs
    requires DigitSequence(digits) && ReadNumber(digits).Some?
  {
    specs.(width := ReadNumber(digits).value, data := SetStaticWidth(specs.data))
  }

  function WithPrecision(specs: Specs, digits: string): Specs
    requires DigitSequence(digits) && ReadNumber(digits).Some?
  {
    specs.(precision := ReadNumber(digits).value, data := SetStaticPrecision(specs.data))
  }

  function WidthRound(s: string, pos: nat, st: Stage, specs: Specs): Round
    requires pos < |s| && IsDigit(s[pos])
  {
    var digits := s[pos..][..Leading(s[pos..])];
    if ReadNumber(digits).None? then Done(Err)
    else Enter(st, WidthS, true, pos + |digits|, WithWidth(specs, digits))
  }

  function PrecisionRound(s: string, pos: nat, st: Stage, specs: Specs, k: Kind): Round
    requires pos < |s|
  {
    if Order(st) >= Order(PrecisionS) || k !in {Float, Str, CString} || pos + 1 == |s| then Done(Err)
    else if IsDigit(s[pos + 1]) then
      var digits := s[pos + 1..][..Leading(s[pos + 1..])];
      if ReadNumber(digits).None? then Done(Err)
      else More(pos + 1 + |digits|, PrecisionS, WithPrecision(specs, digits))
    else Done(if s[pos + 1] == '{' then Argument else Err)
  }

  function FillRound(s: string, pos: nat, st: Stage, specs: Specs): Round
    requires pos < |s|
  {
    var fillEnd := pos + CodePointLength(s[pos]);
    if s[pos] == '}' then Done(Ok(specs, pos))
    else if |s| <= fillEnd || s[pos] == '{' then Done(Err)
    else
      Enter(st, AlignS, ParseAlign(s[fillEnd]) != NoAlign, fillEnd + 1,
        Aligned(SetFill(specs, s[pos..fillEnd]), ParseAlign(s[fillEnd])))
  }

  /** The switch on `c`. */
  function Switch(s: string, pos: nat, c: char, st: Stage, specs: Specs, k: Kind): (r: Round)
    requires pos < |s|
    ensures r.More? ==> pos < r.pos <= |s|
  {
    if ParseAlign(c) != NoAlign then Enter(st, AlignS, true, pos + 1, Aligned(specs, ParseAlign(c)))
    else if c == '+' || c == '-' || c == ' ' then Enter(st, SignS, k in {SignedInt, Float}, pos + 1, Signed(specs, c))
    else if c == '#' then Enter(st, HashS, Arithmetic(k), pos + 1, specs.(data := specs.data | ALTERNATE_MASK))
    else if c == '0' then Enter(st, ZeroS, Arithmetic(k), pos + 1, Zeroed(specs))
    else if '1' <= c <= '9' && IsDigit(s[pos]) then WidthRound(s, pos, st, specs)
    else if c == '{' then Done(if Order(st) < Order(WidthS) then Argument else Err)
    else if c == '.' then PrecisionRound(s, pos, st, specs, k)
    else if c == 'L' then Enter(st, LocaleS, Arithmetic(k), pos + 1, specs.(data := specs.data | LOCALIZED_MASK))
    else if IsType(c) then
      Done(if Presentation(c, k).None? then Err else Ok(Typed(specs, c, Presentation(c, k).value), pos + 1))
    else if c == '}' then Done(Ok(specs, pos))
    else FillRound(s, pos, st, specs)
  }

  /** The loop, between two parts: stop at the end of the text, otherwise look at the next unit. */
  function Resume(s: string, pos: nat, st: Stage, specs: Specs, k: Kind): Outcome
    requires pos <= |s|
    decreases |s| - pos
  {
    if pos == |s| then Ok(specs, pos) else After(s, pos, Switch(s, pos, s[pos], st, specs, k), k)
  }

  function After(s: string, pos: nat, r: Round, k: Kind): Outcome
    requires r.More? ==> pos < r.pos <= |s|
    decreases |s| - pos, 0
  {
    if r.More? then Resume(s, r.pos, r.st, r.specs, k) else r.outcome
  }

  /** The first unit is not switched on if the second is an alignment: it is a fill then. */
  function FirstUnit(s: string): char
    requires s != ""
  {
    if |s| > 1 && ParseAlign(s[1]) != NoAlign then '\0' else s[0]
  }

  function Parsed(s: string, k: Kind): Outcome {
    if s == "" then Ok(INITIAL, 0)
    else After(s, 0, Switch(s, 0, FirstUnit(s), StartS, INITIAL, k), k)
  }

  method ParseFormatSpecs(s: string, k: Kind) returns (r: Outcome)
    ensures r == Parsed(s, k)
  {
    if s == "" {
      return Ok(INITIAL, 0);
    }
    var c := FirstUnit(s);
    var pos, st, specs := 0, StartS, INITIAL;
    while true
      invariant 0 <= pos < |s|
      invariant Parsed(s, k) == After(s, pos, Switch(s, pos, c, st, specs, k), k)
      decreases |s| - pos
    {
      match Switch(s, pos, c, st, specs, k) {
        case Done(outcome) => return outcome;
        case More(pos', st', specs') =>
          pos, st, specs := pos', st', specs';
      }
      if pos == |s| {
        return Ok(specs, pos);
      }
      c := s[pos];
    }
  }

  // The grammar: eight optional parts in a fixed order, each an alignment with or without fill, a sign,
  // '#', '0', a width, a precision, 'L' and a type.

  const PARTS := 8

  predicate AlignText(t: string) {
    && t != "" && ParseAlign(t[|t| - 1]) != NoAlign
    && (|t| > 1 ==> |t| == CodePointLength(t[0]) + 1 && t[0] != '{' && t[0] != '}')
  }

  predicate WidthText(t: string) {
    DigitSequence(t) && t[0] != '0' && ReadNumber(t).Some?
  }

  predicate PrecisionText(t: string) {
    t != "" && t[0] == '.' && DigitSequence(t[1..]) && ReadNumber(t[1..]).Some?
  }

  predicate TypeText(t: string, k: Kind) {
    |t| == 1 && IsType(t[0]) && Presentation(t[0], k).Some?
  }

  /** What part i may look like for an argument of kind k, if it is there. */
  predicate PartOk(t: string, i: nat, k: Kind) {
    match i
    case 0 => AlignText(t)
    case 1 => (t == "+" || t == "-" || t == " ") && k in {SignedInt, Float}
    case 2 => t == "#" && Arithmetic(k)
    case 3 => t == "0" && Arithmetic(k)
    case 4 => WidthText(t)
    case 5 => PrecisionText(t) && k in {Float, Str, CString}
    case 6 => t == "L" && Arithmetic(k)
    case _ => TypeText(t, k)
  }

  predicate Legal(ps: seq<string>, k: Kind) {
    |ps| == PARTS && forall i :: 0 <= i < PARTS ==> ps[i] == "" || PartOk(ps[i], i, k)
  }

  /** Parts i and following, written one after the other. */
  function Tail(ps: seq<string>, i: nat): string
    decreases |ps| - i
  {
    if i >= |ps| then "" else ps[i] + Tail(ps, i + 1)
  }

  function Render(ps: seq<string>): string {
    Tail(ps, 0)
  }

  /** What a part does to the specs. */
  function Effect(t: string, i: nat, specs: Specs, k: Kind): Specs
    requires PartOk(t, i, k)
  {
    match i
    case 0 => Aligned(if |t| > 1 then SetFill(specs, t[..|t| - 1]) else specs, ParseAlign(t[|t| - 1]))
    case 1 => Signed(specs, t[0])
    case 2 => specs.(data := specs.data | ALTERNATE_MASK)
    case 3 => Zeroed(specs)
    case 4 => WithWidth(specs, t)
    case 5 => WithPrecision(specs, t[1..])
    case 6 => specs.(data := specs.data | LOCALIZED_MASK)
    case _ => Typed(specs, t[0], Presentation(t[0], k).value)
  }

  function Effects(ps: seq<string>, i: nat, specs: Specs, k: Kind): Specs
    requires Legal(ps, k)
    decreases PARTS - i
  {
    if i >= PARTS then specs
    else Effects(ps, i + 1, if ps[i] == "" then specs else Effect(ps[i], i, specs, k), k)
  }

  function StageOf(i: nat): Stage {
    match i
    case 0 => AlignS case 1 => SignS case 2 => HashS case 3 => ZeroS
    case 4 => WidthS case 5 => PrecisionS case 6 => LocaleS case _ => StartS
  }

  // Every rendering is parsed.

  /** A run of digits that is not followed by another one is found whole. */
  lemma WholeRun(s: string, pos: nat, digits: string, after: string)
    requires pos <= |s| && s[pos..] == digits + after && DigitSequence(digits)
    requires after == "" || !IsDigit(after[0])
    ensures Leading(s[pos..]) == |digits| && s[pos..][..|digits|] == digits
  {
    assert (digits + after)[..|digits|] == digits;
    assert after != "" ==> (digits + after)[|digits|] == after[0];
    SplitIsGreedy(digits + after, |digits|);
  }

  /** Parts of one unit. */
  lemma ReadUnit(s: string, pos: nat, st: Stage, specs: Specs, k: Kind, t: string, i: nat)
    requires i in {1, 2, 3, 6} && PartOk(t, i, k) && Order(st) <= i
    requires pos < |s| && s[pos] == t[0]
    ensures Switch(s, pos, s[pos], st, specs, k) == More(pos + 1, StageOf(i), Effect(t, i, specs, k))
  {
  }

  lemma ReadWidth(s: string, pos: nat, st: Stage, specs: Specs, k: Kind, t: string, after: string)
    requires WidthText(t) && Order(st) <= 4
    requires pos < |s| && s[pos] == t[0] && s[pos..] == t + after
    requires after == "" || !IsDigit(after[0])
    ensures Switch(s, pos, s[pos], st, specs, k) == More(pos + |t|, WidthS, WithWidth(specs, t))
  {
    WholeRun(s, pos, t, after);
    assert IsDigit(t[0]);
    assert Switch(s, pos, s[pos], st, specs, k) == WidthRound(s, pos, st, specs);
  }

  lemma ReadPrecision(s: string, pos: nat, st: Stage, specs: Specs, k: Kind, t: string, after: string)
    requires PrecisionText(t) && k in {Float, Str, CString} && Order(st) <= 5
    requires pos < |s| && s[pos] == t[0] && s[pos..] == t + after
    requires after == "" || !IsDigit(after[0])
    ensures Switch(s, pos, s[pos], st, specs, k) == More(pos + |t|, PrecisionS, WithPrecision(specs, t[1..]))
  {
    assert t == "." + t[1..];
    assert s[pos + 1..] == s[pos..][1..] == t[1..] + after;
    WholeRun(s, pos + 1, t[1..], after);
    assert s[pos + 1] == s[pos + 1..][0];
    assert IsDigit(t[1..][0]);
    assert Switch(s, pos, s[pos], st, specs, k) == PrecisionRound(s, pos, st, specs, k);
  }

  /** One part that is followed by others. */
  lemma ReadPart(s: string, pos: nat, st: Stage, specs: Specs, k: Kind, t: string, i: nat, after: string)
    requires 1 <= i <= 6 && PartOk(t, i, k) && Order(st) <= i && t != ""
    requires pos <= |s| && s[pos..] == t + after
    requires i == 4 || i == 5 ==> after == "" || !IsDigit(after[0])
    ensures pos < |s| && Switch(s, pos, s[pos], st, specs, k) == More(pos + |t|, StageOf(i), Effect(t, i, specs, k))
  {
    assert s[pos] == s[pos..][0] == t[0];
    if i == 4 {
      ReadWidth(s, pos, st, specs, k, t, after);
    } else if i == 5 {
      ReadPrecision(s, pos, st, specs, k, t, after);
    } else {
      ReadUnit(s, pos, st, specs, k, t, i);
    }
  }

  /** Where the specifiers end, the text ends or a brace closes the field. */
  predicate Closes(rest: string) {
    rest == "" || rest[0] == '}'
  }

  /** From part i on, what comes first is no alignment, and after the width no digit either. */
  lemma {:induction false} FirstOfTail(ps: seq<string>, k: Kind, i: nat, rest: string)
    requires Legal(ps, k) && 1 <= i <= PARTS && Closes(rest)
    ensures var t := Tail(ps, i) + rest;
      t == "" || (ParseAlign(t[0]) == NoAlign && (i >= 5 ==> !IsDigit(t[0])))
    decreases PARTS - i
  {
    if i < PARTS {
      hide PartOk, ParseAlign;
      FirstOfTail(ps, k, i + 1, rest);
      assert Tail(ps, i) + rest == ps[i] + (Tail(ps, i + 1) + rest);
      if ps[i] != "" {
        PartStarts(ps[i], i, k);
      } else {
        assert Tail(ps, i) + rest == Tail(ps, i + 1) + rest;
      }
    }
  }

  lemma PartStarts(t: string, i: nat, k: Kind)
    requires t != "" && 1 <= i < PARTS && PartOk(t, i, k)
    ensures ParseAlign(t[0]) == NoAlign && (i >= 5 ==> !IsDigit(t[0]))
  {
    if i == 4 {
      assert IsDigit(t[0]);
    }
  }

  lemma ReadType(s: string, pos: nat, st: Stage, specs: Specs, k: Kind, t: string)
    requires PartOk(t, 7, k) && pos < |s| && t != "" && s[pos] == t[0]
    ensures |t| == 1 && Switch(s, pos, s[pos], st, specs, k) == Done(Ok(Effect(t, 7, specs, k), pos + 1))
  {
  }

  lemma ReadEnd(s: string, pos: nat, st: Stage, specs: Specs, k: Kind)
    requires pos < |s| && s[pos] == '}'
    ensures Switch(s, pos, s[pos], st, specs, k) == Done(Ok(specs, pos))
  {
  }

  lemma Unfold(s: string, pos: nat, st: Stage, specs: Specs, k: Kind)
    requires pos < |s|
    ensures var r := Switch(s, pos, s[pos], st, specs, k);
      Resume(s, pos, st, specs, k) == if r.More? then Resume(s, r.pos, r.st, r.specs, k) else r.outcome
  {
  }

  lemma EffectsUnfold(ps: seq<string>, i: nat, specs: Specs, k: Kind)
    requires Legal(ps, k) && i < PARTS
    ensures ps[i] == "" ==> Effects(ps, i, specs, k) == Effects(ps, i + 1, specs, k)
    ensures ps[i] != "" ==>
      PartOk(ps[i], i, k) && Effects(ps, i, specs, k) == Effects(ps, i + 1, Effect(ps[i], i, specs, k), k)
    ensures Tail(ps, i) == ps[i] + Tail(ps, i + 1)
  {
  }

  lemma {:induction false} ReadTail(s: string, pos: nat, st: Stage, specs: Specs, k: Kind, ps: seq<string>, i: nat, rest: string)
    requires Legal(ps, k) && 1 <= i <= PARTS && Order(st) <= i && Closes(rest)
    requires pos <= |s| && s[pos..] == Tail(ps, i) + rest
    ensures Resume(s, pos, st, specs, k) == Ok(Effects(ps, i, specs, k), pos + |Tail(ps, i)|)
    decreases PARTS - i, 1
  {
    hide Switch, Effect, PartOk, Effects;
    if i == PARTS {
      ReadNothing(s, pos, st, specs, k, ps, rest);
    } else {
      EffectsUnfold(ps, i, specs, k);
      assert s[pos..] == ps[i] + (Tail(ps, i + 1) + rest);
      if ps[i] == "" {
        assert s[pos..] == Tail(ps, i + 1) + rest;
        ReadTail(s, pos, st, specs, k, ps, i + 1, rest);
      } else {
        ReadMore(s, pos, st, specs, k, ps, i, rest);
      }
    }
  }

  lemma ReadNothing(s: string, pos: nat, st: Stage, specs: Specs, k: Kind, ps: seq<string>, rest: string)
    requires Legal(ps, k) && Closes(rest)
    requires pos <= |s| && s[pos..] == Tail(ps, PARTS) + rest
    ensures Resume(s, pos, st, specs, k) == Ok(Effects(ps, PARTS, specs, k), pos + |Tail(ps, PARTS)|)
  {
    assert s[pos..] == rest;
    if rest != "" {
      assert s[pos] == s[pos..][0];
      ReadEnd(s, pos, st, specs, k);
    }
  }

  lemma ReadNext(s: string, pos: nat, st: Stage, specs: Specs, k: Kind, ps: seq<string>, i: nat, rest: string)
    requires Legal(ps, k) && 1 <= i <= 6 && Order(st) <= i && Closes(rest) && ps[i] != "" && PartOk(ps[i], i, k)
    requires pos <= |s| && s[pos..] == ps[i] + (Tail(ps, i + 1) + rest)
    ensures pos < |s| && Switch(s, pos, s[pos], st, specs, k) == More(pos + |ps[i]|, StageOf(i), Effect(ps[i], i, specs, k))
  {
    hide Switch, Effect, PartOk, Tail, Closes;
    FirstOfTail(ps, k, i + 1, rest);
    ReadPart(s, pos, st, specs, k, ps[i], i, Tail(ps, i + 1) + rest);
  }

  lemma {:induction false} ReadMore(s: string, pos: nat, st: Stage, specs: Specs, k: Kind, ps: seq<string>, i: nat, rest: string)
    requires Legal(ps, k) && 1 <= i < PARTS && Order(st) <= i && Closes(rest) && ps[i] != ""
    requires pos <= |s| && s[pos..] == ps[i] + (Tail(ps, i + 1) + rest)
    ensures Resume(s, pos, st, specs, k) == Ok(Effects(ps, i, specs, k), pos + |Tail(ps, i)|)
    decreases PARTS - i, 0
  {
    hide Switch, Effect, PartOk, Effects, Resume, Tail, Closes, ReadNumber;
    Behind(s, pos, ps[i], Tail(ps, i + 1) + rest);
    EffectsUnfold(ps, i, specs, k);
    Unfold(s, pos, st, specs, k);
    if i == 7 {
      ReadType(s, pos, st, specs, k, ps[i]);
      NothingAfterType(ps, k, Effect(ps[i], i, specs, k));
    } else {
      ReadNext(s, pos, st, specs, k, ps, i, rest);
      ReadTail(s, pos + |ps[i]|, StageOf(i), Effect(ps[i], i, specs, k), k, ps, i + 1, rest);
    }
  }

  lemma Behind(s: string, pos: nat, t: string, after: string)
    requires pos <= |s| && s[pos..] == t + after
    ensures pos + |t| <= |s| && s[pos + |t|..] == after
    ensures t != "" ==> s[pos] == t[0]
  {
    assert s[pos + |t|..] == s[pos..][|t|..];
    assert t != "" ==> s[pos] == s[pos..][0];
  }

  lemma NothingAfterType(ps: seq<string>, k: Kind, specs: Specs)
    requires Legal(ps, k)
    ensures Tail(ps, PARTS) == "" && Effects(ps, PARTS, specs, k) == specs
  {
  }

  /** An alignment, with or without fill, at the very beginning. */
  lemma ReadAlign(s: string, t: string, after: string, k: Kind)
    requires AlignText(t) && s == t + after && (after == "" || ParseAlign(after[0]) == NoAlign)
    ensures Switch(s, 0, FirstUnit(s), StartS, INITIAL, k) == More(|t|, AlignS, Effect(t, 0, INITIAL, k))
  {
    assert s[0] == t[0];
    if |t| == 1 {
      assert |s| > 1 ==> s[1] == after[0];
    } else {
      var fill := t[..|t| - 1];
      assert s[..|fill|] == fill && s[|fill|] == t[|fill|];
      FillFirst(s, k);
    }
  }

  /** A fill is never mistaken for anything else. */
  lemma FillFirst(s: string, k: Kind)
    requires s != "" && |s| > CodePointLength(s[0]) && ParseAlign(s[CodePointLength(s[0])]) != NoAlign
    ensures Switch(s, 0, FirstUnit(s), StartS, INITIAL, k) == FillRound(s, 0, StartS, INITIAL)
  {
    var c := FirstUnit(s);
    assert c == '\0' || c as int >= 0xC0;
  }

  /** Every rendering of legal parts, at the end of the text or before a closing brace, is parsed to what the
      parts say. */
  lemma RenderingsAreParsed(ps: seq<string>, rest: string, k: Kind)
    requires Legal(ps, k) && Closes(rest)
    ensures Parsed(Render(ps) + rest, k) == Ok(Effects(ps, 0, INITIAL, k), |Render(ps)|)
  {
    hide Effect, Effects, PartOk, Switch, Resume, Parsed, Tail, Closes;
    EffectsUnfold(ps, 0, INITIAL, k);
    var s := Render(ps) + rest;
    if ps[0] == "" {
      assert s[0..] == Tail(ps, 1) + rest;
      ReadTail(s, 0, StartS, INITIAL, k, ps, 1, rest);
      NoFill(ps, rest, k);
    } else {
      AlignedFirst(ps, rest, k);
    }
  }

  lemma AlignedFirst(ps: seq<string>, rest: string, k: Kind)
    requires Legal(ps, k) && Closes(rest) && ps[0] != ""
    ensures Parsed(Render(ps) + rest, k) == Ok(Effects(ps, 0, INITIAL, k), |Render(ps)|)
  {
    hide Effect, Effects, PartOk, Switch, Resume, Tail, Closes, AlignText;
    EffectsUnfold(ps, 0, INITIAL, k);
    AlignPart(ps[0], k);
    InFront(ps[0], Tail(ps, 1), rest);
    var after := Tail(ps, 1) + rest;
    var s := ps[0] + after;
    FirstOfTail(ps, k, 1, rest);
    ReadAlign(s, ps[0], after, k);
    ReadTail(s, |ps[0]|, AlignS, Effect(ps[0], 0, INITIAL, k), k, ps, 1, rest);
  }

  lemma InFront(first: string, second: string, third: string)
    ensures (first + second) + third == first + (second + third)
    ensures (first + (second + third))[|first|..] == second + third
  {
  }

  lemma AlignPart(t: string, k: Kind)
    requires PartOk(t, 0, k)
    ensures AlignText(t)
  {
  }

  /** Without an alignment the second unit is none either, or the field is empty. */
  lemma NoFill(ps: seq<string>, rest: string, k: Kind)
    requires Legal(ps, k) && ps[0] == "" && Closes(rest)
    ensures Parsed(Render(ps) + rest, k) == Resume(Render(ps) + rest, 0, StartS, INITIAL, k)
  {
    var s := Render(ps) + rest;
    if Render(ps) == "" {
      assert s == rest;
    } else {
      SecondOfTail(ps, k, 0, rest);
    }
  }

  lemma {:induction false} SecondOfTail(ps: seq<string>, k: Kind, i: nat, rest: string)
    requires Legal(ps, k) && i <= PARTS && ps[0] == "" && Closes(rest) && Tail(ps, i) != ""
    ensures var t := Tail(ps, i) + rest; |t| > 1 ==> ParseAlign(t[1]) == NoAlign
    decreases PARTS - i
  {
    assert Tail(ps, i) + rest == ps[i] + (Tail(ps, i + 1) + rest);
    if ps[i] == "" {
      assert Tail(ps, i) == Tail(ps, i + 1);
      SecondOfTail(ps, k, i + 1, rest);
    } else {
      FirstOfTail(ps, k, i + 1, rest);
      InsidePart(ps[i], i, k);
    }
  }

  lemma InsidePart(t: string, i: nat, k: Kind)
    requires |t| > 1 ==> 1 <= i < PARTS && PartOk(t, i, k)
    ensures |t| > 1 ==> ParseAlign(t[1]) == NoAlign
  {
    if |t| > 1 {
      if i == 4 {
        assert IsDigit(t[1]);
      } else if i == 5 {
        assert IsDigit(t[1..][0]);
      }
    }
  }

  // Nothing but renderings is parsed.

  function Absent(): seq<string> {
    ["", "", "", "", "", "", "", ""]
  }

  /** The parts up to i are absent. */
  predicate StartsAfter(ps: seq<string>, i: nat) {
    |ps| == PARTS && forall j :: 0 <= j < i && j < PARTS ==> ps[j] == ""
  }

  /** A successful rest of the run has read parts that come after those already read. */
  ghost predicate ReadAs(s: string, pos: nat, st: Stage, specs: Specs, k: Kind, outcome: Outcome, ps: seq<string>) {
    && outcome.Ok? && Legal(ps, k) && StartsAfter(ps, Order(st))
    && pos <= outcome.end <= |s|
    && s[pos..outcome.end] == Tail(ps, Order(st))
    && outcome.specs == Effects(ps, Order(st), specs, k)
  }

  /** The round r, if it goes on, has read one part. */
  predicate ReadsPart(s: string, pos: nat, st: Stage, specs: Specs, k: Kind, r: Round)
    requires pos < |s|
  {
    r.More? ==>
      && pos < r.pos <= |s| && Order(st) < Order(r.st)
      && PartOk(s[pos..r.pos], Order(r.st) - 1, k)
      && r.specs == Effect(s[pos..r.pos], Order(r.st) - 1, specs, k)
  }

  lemma WidthReads(s: string, pos: nat, st: Stage, specs: Specs, k: Kind)
    requires pos < |s| && '1' <= s[pos] <= '9'
    ensures ReadsPart(s, pos, st, specs, k, WidthRound(s, pos, st, specs))
  {
    var n := Leading(s[pos..]);
    assert s[pos..][..n] == s[pos..pos + n];
    assert s[pos..][0] == s[pos];
    GreedyPrefix(s[pos..]);
  }

  lemma PrecisionReads(s: string, pos: nat, st: Stage, specs: Specs, k: Kind)
    requires pos < |s| && s[pos] == '.'
    ensures ReadsPart(s, pos, st, specs, k, PrecisionRound(s, pos, st, specs, k))
  {
    if pos + 1 < |s| {
      var n := Leading(s[pos + 1..]);
      var t := s[pos..pos + 1 + n];
      assert t[1..] == s[pos + 1..][..n];
      GreedyPrefix(s[pos + 1..]);
      assert s[pos + 1..][0] == s[pos + 1];
    }
  }

  lemma FillReads(s: string, pos: nat, st: Stage, specs: Specs, k: Kind)
    requires pos < |s|
    ensures ReadsPart(s, pos, st, specs, k, FillRound(s, pos, st, specs))
  {
    var r := FillRound(s, pos, st, specs);
    if r.More? {
      var t := s[pos..r.pos];
      assert t[..|t| - 1] == s[pos..r.pos - 1];
      assert t[|t| - 1] == s[r.pos - 1] && t[0] == s[pos];
    }
  }

  lemma UnitReads(s: string, pos: nat, st: Stage, specs: Specs, k: Kind)
    requires pos < |s|
    requires ParseAlign(s[pos]) != NoAlign || s[pos] == '+' || s[pos] == '-' || s[pos] == ' ' || s[pos] == '#'
             || s[pos] == '0' || s[pos] == 'L'
    ensures ReadsPart(s, pos, st, specs, k, Switch(s, pos, s[pos], st, specs, k))
  {
    var t := s[pos..pos + 1];
    assert t == [s[pos]];
  }

  lemma RoundReadsPart(s: string, pos: nat, c: char, st: Stage, specs: Specs, k: Kind)
    requires pos < |s| && (c == s[pos] || c == '\0')
    ensures ReadsPart(s, pos, st, specs, k, Switch(s, pos, c, st, specs, k))
  {
    hide ReadsPart, WidthRound, PrecisionRound, FillRound, Effect, PartOk;
    FillReads(s, pos, st, specs, k);
    if '1' <= c <= '9' {
      WidthReads(s, pos, st, specs, k);
    } else if c == '.' {
      PrecisionReads(s, pos, st, specs, k);
    } else if ParseAlign(c) != NoAlign || c == '+' || c == '-' || c == ' ' || c == '#' || c == '0' || c == 'L' {
      UnitReads(s, pos, st, specs, k);
    } else {
      DoneReads(s, pos, st, specs, k);
    }
  }

  lemma DoneReads(s: string, pos: nat, st: Stage, specs: Specs, k: Kind)
    requires pos < |s|
    ensures forall o :: ReadsPart(s, pos, st, specs, k, Done(o))
  {
  }

  /** A round that ends the run well has found the end or a presentation type. */
  predicate EndsWell(s: string, pos: nat, specs: Specs, k: Kind, r: Round)
    requires pos < |s|
  {
    r.Done? && r.outcome.Ok? ==>
      || (r.outcome == Ok(specs, pos) && s[pos] == '}')
      || (r.outcome.end == pos + 1 && TypeText([s[pos]], k) && r.outcome.specs == Effect([s[pos]], 7, specs, k))
  }

  lemma PartsEndWell(s: string, pos: nat, st: Stage, specs: Specs, k: Kind)
    requires pos < |s|
    ensures IsDigit(s[pos]) ==> EndsWell(s, pos, specs, k, WidthRound(s, pos, st, specs))
    ensures EndsWell(s, pos, specs, k, PrecisionRound(s, pos, st, specs, k))
    ensures EndsWell(s, pos, specs, k, FillRound(s, pos, st, specs))
  {
  }

  predicate IsUnitPart(c: char) {
    ParseAlign(c) != NoAlign || c == '+' || c == '-' || c == ' ' || c == '#' || c == '0' || c == 'L'
  }

  lemma UnitNeverEnds(s: string, pos: nat, c: char, st: Stage, specs: Specs, k: Kind)
    requires pos < |s| && IsUnitPart(c)
    ensures EndsWell(s, pos, specs, k, Switch(s, pos, c, st, specs, k))
  {
  }

  lemma TypeEnds(s: string, pos: nat, st: Stage, specs: Specs, k: Kind)
    requires pos < |s| && IsType(s[pos])
    ensures EndsWell(s, pos, specs, k, Switch(s, pos, s[pos], st, specs, k))
  {
  }

  lemma OtherEnds(s: string, pos: nat, c: char, st: Stage, specs: Specs, k: Kind)
    requires pos < |s| && (c == s[pos] || c == '\0') && !IsUnitPart(c) && !IsType(c)
    ensures EndsWell(s, pos, specs, k, Switch(s, pos, c, st, specs, k))
  {
    hide WidthRound, PrecisionRound, FillRound;
    PartsEndWell(s, pos, st, specs, k);
  }

  lemma RoundEnds(s: string, pos: nat, c: char, st: Stage, specs: Specs, k: Kind)
    requires pos < |s| && (c == s[pos] || c == '\0')
    ensures EndsWell(s, pos, specs, k, Switch(s, pos, c, st, specs, k))
  {
    hide Switch, EndsWell;
    if IsUnitPart(c) {
      UnitNeverEnds(s, pos, c, st, specs, k);
    } else if IsType(c) {
      TypeEnds(s, pos, st, specs, k);
    } else {
      OtherEnds(s, pos, c, st, specs, k);
    }
  }

  lemma NoEffects(ps: seq<string>, i: nat, specs: Specs, k: Kind)
    requires ps == Absent()
    ensures Legal(ps, k) && Tail(ps, i) == "" && Effects(ps, i, specs, k) == specs
    decreases PARTS - i
  {
    if i < PARTS {
      NoEffects(ps, i + 1, specs, k);
    }
  }

  /** Leading absent parts can be skipped. */
  lemma {:induction false} SkipAbsent(ps: seq<string>, i: nat, j: nat, specs: Specs, k: Kind)
    requires Legal(ps, k) && i <= j <= PARTS && forall m :: i <= m < j ==> ps[m] == ""
    ensures Tail(ps, i) == Tail(ps, j) && Effects(ps, i, specs, k) == Effects(ps, j, specs, k)
    decreases j - i
  {
    if i < j {
      SkipAbsent(ps, i + 1, j, specs, k);
    }
  }

  lemma PutPart(ps: seq<string>, i: nat, t: string, k: Kind, st: Stage, specs: Specs) returns (ps': seq<string>)
    requires Legal(ps, k) && Order(st) <= i < PARTS && StartsAfter(ps, i + 1) && t != "" && PartOk(t, i, k)
    ensures Legal(ps', k) && StartsAfter(ps', Order(st))
    ensures Tail(ps', Order(st)) == t + Tail(ps, i + 1)
    ensures Effects(ps', Order(st), specs, k) == Effects(ps, i + 1, Effect(t, i, specs, k), k)
  {
    hide Tail, Effects, Effect, PartOk;
    ps' := ps[i := t];
    SkipAbsent(ps', Order(st), i, specs, k);
    EffectsUnfold(ps', i, specs, k);
    SameTail(ps, ps', i + 1, Effect(t, i, specs, k), k);
  }

  lemma {:induction false} SameTail(ps: seq<string>, ps': seq<string>, i: nat, specs: Specs, k: Kind)
    requires Legal(ps, k) && Legal(ps', k) && forall j :: i <= j < PARTS ==> ps[j] == ps'[j]
    ensures Tail(ps, i) == Tail(ps', i) && Effects(ps, i, specs, k) == Effects(ps', i, specs, k)
    decreases PARTS - i
  {
    if i < PARTS {
      SameTail(ps, ps', i + 1, if ps[i] == "" then specs else Effect(ps[i], i, specs, k), k);
    }
  }

  /** A run, resumed anywhere, that succeeds. */
  lemma {:induction false} SuccessReads(s: string, pos: nat, st: Stage, specs: Specs, k: Kind) returns (ps: seq<string>)
    requires pos <= |s| && Resume(s, pos, st, specs, k).Ok?
    ensures ReadAs(s, pos, st, specs, k, Resume(s, pos, st, specs, k), ps)
    decreases |s| - pos, 1
  {
    if pos == |s| {
      ps := Absent();
      NoEffects(ps, Order(st), specs, k);
    } else {
      ps := SwitchReads(s, pos, s[pos], st, specs, k);
    }
  }

  lemma {:induction false} SwitchReads(s: string, pos: nat, c: char, st: Stage, specs: Specs, k: Kind) returns (ps: seq<string>)
    requires pos < |s| && (c == s[pos] || c == '\0')
    requires After(s, pos, Switch(s, pos, c, st, specs, k), k).Ok?
    ensures ReadAs(s, pos, st, specs, k, After(s, pos, Switch(s, pos, c, st, specs, k), k), ps)
    decreases |s| - pos, 0
  {
    var r := Switch(s, pos, c, st, specs, k);
    RoundReadsPart(s, pos, c, st, specs, k);
    RoundEnds(s, pos, c, st, specs, k);
    if r.More? {
      var rest := SuccessReads(s, r.pos, r.st, r.specs, k);
      ps := AddPart(s, pos, st, specs, k, r, rest);
    } else {
      ps := LastPart(s, pos, st, specs, k, r);
    }
  }

  lemma AddPart(s: string, pos: nat, st: Stage, specs: Specs, k: Kind, r: Round, rest: seq<string>) returns (ps: seq<string>)
    requires pos < |s| && r.More? && ReadsPart(s, pos, st, specs, k, r)
    requires ReadAs(s, r.pos, r.st, r.specs, k, Resume(s, r.pos, r.st, r.specs, k), rest)
    ensures ReadAs(s, pos, st, specs, k, Resume(s, r.pos, r.st, r.specs, k), ps)
  {
    hide Resume, Effects, Tail, PartOk, Effect;
    var o := Resume(s, r.pos, r.st, r.specs, k);
    var t := s[pos..r.pos];
    ps := PutPart(rest, Order(r.st) - 1, t, k, st, specs);
    assert s[pos..o.end] == t + s[r.pos..o.end];
  }

  lemma OneTypeIsAPart(t: string, k: Kind)
    ensures TypeText(t, k) ==> PartOk(t, 7, k)
  {
  }

  lemma OneUnit(s: string, pos: nat)
    requires pos < |s|
    ensures s[pos..pos + 1] == [s[pos]]
  {
  }

  lemma LastPart(s: string, pos: nat, st: Stage, specs: Specs, k: Kind, r: Round) returns (ps: seq<string>)
    requires pos < |s| && r.Done? && r.outcome.Ok? && EndsWell(s, pos, specs, k, r)
    ensures ReadAs(s, pos, st, specs, k, r.outcome, ps)
  {
    hide Effect, Effects, Tail, PartOk, TypeText;
    ps := Absent();
    NoEffects(ps, Order(st), specs, k);
    if r.outcome.end == pos + 1 {
      var t := s[pos..pos + 1];
      OneUnit(s, pos);
      OneTypeIsAPart(t, k);
      NoEffects(Absent(), PARTS, Effect(t, 7, specs, k), k);
      ps := PutPart(Absent(), 7, t, k, st, specs);
    }
  }

  /** Exactly the renderings of legal parts succeed: so parts out of order or repeated never do, and numbers
      that are too large never do. */
  lemma OnlyRenderingsAreParsed(s: string, k: Kind, specs: Specs, end: nat)
    requires end <= |s| && Closes(s[end..])
    ensures Parsed(s, k) == Ok(specs, end) <==>
            exists ps :: Legal(ps, k) && s[..end] == Render(ps) && specs == Effects(ps, 0, INITIAL, k)
  {
    hide Effect, Switch, PartOk, Resume;
    if Parsed(s, k) == Ok(specs, end) {
      if s == "" {
        NoEffects(Absent(), 0, INITIAL, k);
        assert s[..end] == Render(Absent());
      } else {
        var ps := SwitchReads(s, 0, FirstUnit(s), StartS, INITIAL, k);
        assert s[0..end] == s[..end];
      }
    }
    forall ps | Legal(ps, k) && s[..end] == Render(ps) && specs == Effects(ps, 0, INITIAL, k)
      ensures Parsed(s, k) == Ok(specs, end)
    {
      RenderingsAreParsed(ps, s[end..], k);
      assert s == Render(ps) + s[end..];
    }
  }

  // Reading the packed word back.

  function MaybeEffect(ps: seq<string>, i: nat, specs: Specs, k: Kind): Specs
    requires Legal(ps, k) && i < PARTS
  {
    if ps[i] == "" then specs else Effect(ps[i], i, specs, k)
  }

  lemma InitialFields()
    ensures Unpack(INITIAL.data).align == NoAlign && Unpack(INITIAL.data).fillSize == 1
    ensures Fill(INITIAL) == " "
  {
  }

  /** What an alignment, with or without fill, does to any specs. */
  lemma AlignEffect(t: string, specs: Specs, k: Kind)
    requires PartOk(t, 0, k) && |specs.fillData| == 4
    ensures ParseAlign(t[|t| - 1]) != NoAlign && |t| <= 5
    ensures var r := Effect(t, 0, specs, k); var u := Unpack(specs.data);
      && r.width == specs.width && r.precision == specs.precision
      && Unpack(r.data) == u.(align := ParseAlign(t[|t| - 1]), fillSize := if |t| > 1 then |t| - 1 else u.fillSize)
      && Fill(r) == (if |t| > 1 then t[..|t| - 1] else Fill(specs))
  {
    hide Unpack, SetAlign, SetFillSize, ParseAlign;
    var a := ParseAlign(t[|t| - 1]);
    if |t| > 1 {
      SetFillSizeSets(specs.data, |t| - 1);
      SetAlignSets(SetFill(specs, t[..|t| - 1]).data, a);
      FillIsSet(specs, t[..|t| - 1]);
    } else {
      SetAlignSets(specs.data, a);
    }
  }

  lemma FillIsSet(specs: Specs, fill: string)
    requires 1 <= |fill| <= 4 && |specs.fillData| == 4
    ensures FillUnits(SetFill(specs, fill).fillData, |fill|) == fill
  {
  }

  lemma AlignReadsBack(ps: seq<string>, k: Kind)
    requires Legal(ps, k)
    ensures var r := MaybeEffect(ps, 0, INITIAL, k); var t := ps[0];
      && Unpack(r.data) == Unpack(INITIAL.data).(
           align := if t == "" then NoAlign else ParseAlign(t[|t| - 1]),
           fillSize := if |t| > 1 then |t| - 1 else 1)
      && Fill(r) == (if |t| > 1 then t[..|t| - 1] else " ")
      && (t != "" ==> ParseAlign(t[|t| - 1]) != NoAlign)
      && r.width == 0 && r.precision == -1
  {
    hide Unpack, Effect, PartOk, ParseAlign, Fill;
    InitialFields();
    if ps[0] != "" {
      AlignEffect(ps[0], INITIAL, k);
    }
  }

  lemma SignReadsBack(ps: seq<string>, specs: Specs, k: Kind)
    requires Legal(ps, k)
    ensures var r := MaybeEffect(ps, 1, specs, k); var u := Unpack(specs.data);
      && r == specs.(data := r.data)
      && Unpack(r.data) == u.(sign := if ps[1] == "+" then Plus else if ps[1] == " " then Space else u.sign)
  {
    SetSignSets(specs.data, Plus);
    SetSignSets(specs.data, Space);
  }

  lemma FlagEffects(t: string, specs: Specs, k: Kind)
    ensures PartOk(t, 2, k) ==> Effect(t, 2, specs, k) == specs.(data := specs.data | ALTERNATE_MASK)
    ensures PartOk(t, 6, k) ==> Effect(t, 6, specs, k) == specs.(data := specs.data | LOCALIZED_MASK)
    ensures PartOk(t, 7, k) ==> t != "" && Presentation(t[0], k).Some? && Effect(t, 7, specs, k) == Typed(specs, t[0], Presentation(t[0], k).value)
  {
  }

  lemma AltReadsBack(ps: seq<string>, specs: Specs, k: Kind)
    requires Legal(ps, k)
    ensures var r := MaybeEffect(ps, 2, specs, k); var u := Unpack(specs.data);
      r == specs.(data := r.data) && Unpack(r.data) == u.(alt := u.alt || ps[2] != "")
  {
    hide Unpack, Effect, PartOk;
    FlagEffects(ps[2], specs, k);
    AltSets(specs.data);
  }

  lemma LocalizedReadsBack(ps: seq<string>, specs: Specs, k: Kind)
    requires Legal(ps, k)
    ensures var r := MaybeEffect(ps, 6, specs, k); var u := Unpack(specs.data);
      r == specs.(data := r.data) && Unpack(r.data) == u.(localized := u.localized || ps[6] != "")
  {
    hide Unpack, Effect, PartOk;
    FlagEffects(ps[6], specs, k);
    LocalizedSets(specs.data);
  }

  lemma ZeroReadsBack(ps: seq<string>, specs: Specs, k: Kind)
    requires Legal(ps, k)
    ensures var r := MaybeEffect(ps, 3, specs, k); var u := Unpack(specs.data);
      && r == specs.(data := r.data, fillData := r.fillData)
      && (ps[3] != "" && u.align == NoAlign ==> Unpack(r.data) == u.(align := Numeric, fillSize := 1) && Fill(r) == "0")
      && (ps[3] == "" || u.align != NoAlign ==> r == specs)
  {
    SetAlignSets(specs.data, Numeric);
    SetFillSizeSets(SetAlign(specs.data, Numeric), 1);
  }

  lemma NumbersReadBack(ps: seq<string>, specs: Specs, k: Kind)
    requires Legal(ps, k) && !Unpack(specs.data).dynamic
    ensures MaybeEffect(ps, 4, specs, k) == specs.(width := if ps[4] == "" then specs.width else ReadNumber(ps[4]).value)
    ensures MaybeEffect(ps, 5, specs, k)
            == specs.(precision := if ps[5] == "" then specs.precision else ReadNumber(ps[5][1..]).value)
  {
    StaticSets(specs.data);
  }

  lemma PresentationFits(c: char, k: Kind)
    ensures Presentation(c, k).Some? ==> Presentation(c, k).value <= 7
  {
  }

  lemma TypeReadsBack(ps: seq<string>, specs: Specs, k: Kind)
    requires Legal(ps, k)
    ensures var r := MaybeEffect(ps, 7, specs, k); var u := Unpack(specs.data);
      && r == specs.(data := r.data)
      && (ps[7] == "" ==> r == specs)
      && (ps[7] != "" ==> Unpack(r.data) == u.(ptype := Presentation(ps[7][0], k).value, upper := u.upper || IsUpperType(ps[7][0])))
  {
    hide Unpack, Presentation, Effect, PartOk, Typed;
    FlagEffects(ps[7], specs, k);
    if ps[7] != "" {
      PresentationFits(ps[7][0], k);
      TypedSets(specs, ps[7][0], Presentation(ps[7][0], k).value);
    }
  }

  lemma TypedSets(specs: Specs, c: char, code: bv32)
    requires code <= 7
    ensures var r := Typed(specs, c, code); var u := Unpack(specs.data);
      r == specs.(data := r.data) && Unpack(r.data) == u.(ptype := code, upper := u.upper || IsUpperType(c))
  {
    hide Unpack, SetType;
    UpperSets(specs.data);
    SetTypeSets(specs.data, code);
    SetTypeSets(specs.data | UPPERCASE_MASK, code);
  }

  lemma EffectsInOrder(ps: seq<string>, k: Kind)
    requires Legal(ps, k)
    ensures var s3 := MaybeEffect(ps, 2, MaybeEffect(ps, 1, MaybeEffect(ps, 0, INITIAL, k), k), k);
      var s6 := MaybeEffect(ps, 5, MaybeEffect(ps, 4, MaybeEffect(ps, 3, s3, k), k), k);
      Effects(ps, 0, INITIAL, k) == MaybeEffect(ps, 7, MaybeEffect(ps, 6, s6, k), k)
  {
    hide Effect, Legal;
    var s1 := MaybeEffect(ps, 0, INITIAL, k);
    var s2 := MaybeEffect(ps, 1, s1, k);
    var s3 := MaybeEffect(ps, 2, s2, k);
    var s4 := MaybeEffect(ps, 3, s3, k);
    var s5 := MaybeEffect(ps, 4, s4, k);
    var s6 := MaybeEffect(ps, 5, s5, k);
    var s7 := MaybeEffect(ps, 6, s6, k);
    var s8 := MaybeEffect(ps, 7, s7, k);
    EffectsStep(ps, 0, INITIAL, k);
    EffectsStep(ps, 1, s1, k);
    EffectsStep(ps, 2, s2, k);
    EffectsStep(ps, 3, s3, k);
    EffectsStep(ps, 4, s4, k);
    EffectsStep(ps, 5, s5, k);
    EffectsStep(ps, 6, s6, k);
    EffectsStep(ps, 7, s7, k);
    assert Effects(ps, 8, s8, k) == s8;
  }

  lemma EffectsStep(ps: seq<string>, i: nat, specs: Specs, k: Kind)
    requires Legal(ps, k) && i < PARTS
    ensures Effects(ps, i, specs, k) == Effects(ps, i + 1, MaybeEffect(ps, i, specs, k), k)
  {
  }

  /** The packed word, the fill and the numbers hold exactly what the text said: a `0` counts only where no
      alignment is given, `-` is the default sign, and what is absent has its default. */
  lemma FieldsReadBack(ps: seq<string>, k: Kind)
    requires Legal(ps, k)
    ensures var r := Effects(ps, 0, INITIAL, k); var u := Unpack(r.data);
      var zeroed := ps[0] == "" && ps[3] != "";
      && u.align == (if zeroed then Numeric else if ps[0] == "" then NoAlign else ParseAlign(ps[0][|ps[0]| - 1]))
      && Fill(r) == (if zeroed then "0" else if |ps[0]| > 1 then ps[0][..|ps[0]| - 1] else " ")
      && u.sign == (if ps[1] == "+" then Plus else if ps[1] == " " then Space else NoSign)
      && u.alt == (ps[2] != "") && u.localized == (ps[6] != "") && !u.dynamic
      && r.width == (if ps[4] == "" then 0 else ReadNumber(ps[4]).value)
      && r.precision == (if ps[5] == "" then -1 else ReadNumber(ps[5][1..]).value)
      && u.ptype == (if ps[7] == "" then 0 else Presentation(ps[7][0], k).value)
      && u.upper == (ps[7] != "" && IsUpperType(ps[7][0]))
  {
    hide Effect, Effects, MaybeEffect, PartOk, Presentation, ReadNumber, ParseAlign, IsUpperType, Unpack;
    var s1 := MaybeEffect(ps, 0, INITIAL, k);
    var s2 := MaybeEffect(ps, 1, s1, k);
    var s3 := MaybeEffect(ps, 2, s2, k);
    var s4 := MaybeEffect(ps, 3, s3, k);
    var s5 := MaybeEffect(ps, 4, s4, k);
    var s6 := MaybeEffect(ps, 5, s5, k);
    var s7 := MaybeEffect(ps, 6, s6, k);
    AlignReadsBack(ps, k);
    InitialWord();
    SignReadsBack(ps, s1, k);
    AltReadsBack(ps, s2, k);
    ZeroReadsBack(ps, s3, k);
    NumbersReadBack(ps, s4, k);
    NumbersReadBack(ps, s5, k);
    LocalizedReadsBack(ps, s6, k);
    TypeReadsBack(ps, s7, k);
    EffectsInOrder(ps, k);
  }

  lemma InitialWord()
    ensures Unpack(INITIAL.data) == Fields(false, 0, NoAlign, NoSign, false, false, false, 1)
  {
  }

  /** The numerals of all numbers up to INT_MAX are legal and read back as themselves; larger ones are not. */
  lemma NumeralsReadBack(n: nat)
    ensures n > 0 ==> (WidthText(Decimal(n)) <==> n <= INT_MAX)
    ensures PrecisionText("." + Decimal(n)) <==> n <= INT_MAX
    ensures n <= INT_MAX ==> ReadNumber(Decimal(n)) == Some(n) && ReadNumber(("." + Decimal(n))[1..]) == Some(n)
  {
    hide ReadNumber, Decimal, DigitSequence;
    ReadsDecimal(n);
    DecimalValue(n);
    assert ("." + Decimal(n))[1..] == Decimal(n);
  }

  lemma ReadsDecimal(n: nat)
    ensures ReadNumber(Decimal(n)) == if n <= INT_MAX then Some(n) else None
  {
    hide ReadNumber, Decimal, Value;
    DecimalValue(n);
    if n == 0 {
      ZeroIsShort();
      ReadsShort(Decimal(0));
    } else {
      NumbersUpToIntMax(Decimal(n));
    }
  }

  lemma ZeroIsShort()
    ensures |Decimal(0)| == 1
  {
  }

  lemma ReadsShort(digits: string)
    requires DigitSequence(digits) && Value(digits) == 0
    ensures |digits| <= 10 ==> ReadNumber(digits) == Some(0)
  {
  }
}
