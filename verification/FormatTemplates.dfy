/** What a writer of format strings means: a template of units and fields, how it is written, and that both the
    run-time parser and the format compiler make of it what is meant. */
module FormatTemplates {
  import opened Options
  import opened Digits
  import SpecParser
  import opened FormatCompiler

  /** A unit of text, a field for the next argument, or a field for argument n, with or without specifiers. */
  datatype Piece =
    | Unit(c: char)
    | Next
    | NextWith(spec: string)
    | Arg(n: nat)
    | ArgWith(n: nat, spec: string)

  function WrittenAs(p: Piece): string {
    match p
    case Unit(c) => if c == '{' || c == '}' then [c, c] else [c]
    case Next => "{}"
    case NextWith(spec) => "{:" + spec + "}"
    case Arg(n) => "{" + Decimal(n) + "}"
    case ArgWith(n, spec) => "{" + Decimal(n) + ":" + spec + "}"
  }

  function TextOf(ps: seq<Piece>): string {
    if ps == [] then "" else WrittenAs(ps[0]) + TextOf(ps[1..])
  }

  /** How the arguments have been referred to so far. */
  datatype Mode = Unset | Automatic(next: nat) | Manually

  /** Too large an index means the largest int. */
  function Clamped(n: nat): nat {
    if n <= 0x7fff_ffff then n else 0x7fff_ffff
  }

  /** The argument that a piece refers to, if its way of doing so is still open. */
  function Target(p: Piece, mode: Mode): Option<nat> {
    match p
    case Unit(_) => None
    case Arg(n) => if mode.Automatic? then None else Some(Clamped(n))
    case ArgWith(n, _) => if mode.Automatic? then None else Some(Clamped(n))
    case _ =>
      match mode
      case Unset => Some(0)
      case Automatic(next) => Some(next)
      case Manually => None
  }

  function After(p: Piece, mode: Mode): Mode {
    match p
    case Unit(_) => mode
    case Arg(_) => Manually
    case ArgWith(_, _) => Manually
    case _ => Automatic(if mode.Automatic? then mode.next + 1 else 1)
  }

  /** What a piece stands for. */
  function Shown(env: Env, p: Piece, id: nat): string {
    match p
    case Unit(c) => [c]
    case Next => env.plain(id)
    case Arg(_) => env.plain(id)
    case NextWith(spec) => env.styled(id, spec)
    case ArgWith(_, spec) => env.styled(id, spec)
  }

  /** The output that is meant, if the template is in order: one way of referring to arguments, and to arguments
      that are there. */
  function Meant(env: Env, ps: seq<Piece>, mode: Mode): Option<string> {
    if ps == [] then Some("")
    else if ps[0].Unit? then Joined([ps[0].c], Meant(env, ps[1..], mode))
    else
      match Target(ps[0], mode)
      case None => None
      case Some(id) =>
        if id >= env.args then None else Joined(Shown(env, ps[0], id), Meant(env, ps[1..], After(ps[0], mode)))
  }

  function Joined(first: string, rest: Option<string>): Option<string> {
    match rest
    case None => None
    case Some(text) => Some(first + text)
  }

  /** To argument id, specifiers reach to the closing brace. */
  ghost predicate Takes(env: Env, id: nat, spec: string) {
    forall rest: string {:trigger env.specEnd(id, spec + ("}" + rest))} ::
      env.specEnd(id, spec + ("}" + rest)) == Some(|spec|)
  }

  /** The piece's specifiers are for the argument it refers to. */
  ghost predicate TakesOwn(env: Env, p: Piece, mode: Mode) {
    var target := Target(p, mode);
    target.Some? && target.value < env.args ==>
      (p.NextWith? ==> Takes(env, target.value, p.spec)) && (p.ArgWith? ==> Takes(env, target.value, p.spec))
  }

  ghost predicate Suited(env: Env, ps: seq<Piece>, mode: Mode) {
    ps != [] ==> TakesOwn(env, ps[0], mode) && Suited(env, ps[1..], After(ps[0], mode))
  }

  /** The parser's counter for a mode. */
  function Counter(mode: Mode): int {
    match mode case Unset => 0 case Automatic(next) => next case Manually => MANUAL
  }

  predicate Started(mode: Mode) {
    mode.Automatic? ==> mode.next > 0
  }

  // One piece.

  /** What a piece makes of a run, in terms of the run behind it. */
  ghost predicate Reads(env: Env, here: Result<seq<Call>>, there: Result<seq<Call>>, shown: string) {
    && (here.Ok? <==> there.Ok?)
    && (here.Ok? ==> Output(env, here.value) == shown + Output(env, there.value))
  }

  lemma TwoCalls(env: Env, s: string, pos: nat, call: Call, rest: Result<seq<Call>>)
    requires pos <= |s|
    ensures Reads(env, Prepend([OnText(s[pos..pos]), call], rest), rest, Written(env, call))
  {
    hide Written;
    if rest.Ok? {
      FirstText(env, s[pos..pos], [call] + rest.value);
      FirstCall(env, call, rest.value);
      assert [OnText(s[pos..pos]), call] + rest.value == [OnText(s[pos..pos])] + ([call] + rest.value);
    }
  }

  lemma ReadUnit(env: Env, s: string, pos: nat, c: char, after: string, next: int)
    requires pos <= |s| && s[pos..] == WrittenAs(Unit(c)) + after
    ensures var end := pos + |WrittenAs(Unit(c))|;
      end <= |s| && Reads(env, Calls(env, s, pos, pos, next), Calls(env, s, end, end, next), [c])
  {
    hide Output, Written, ReplacementField;
    var t := WrittenAs(Unit(c));
    assert s[pos] == s[pos..][0] == c;
    if c == '{' {
      assert s[pos + 1] == s[pos..][1] == c;
      DoubledBrace(env, s, pos, next);
      TwoCalls(env, s, pos, OnText("{"), Calls(env, s, pos + 2, pos + 2, next));
      TextIsWritten(env, "{");
    } else if c == '}' {
      assert s[pos + 1] == s[pos..][1] == c;
      var rest := Calls(env, s, pos + 2, pos + 2, next);
      if rest.Ok? {
        FirstText(env, s[pos..pos + 1], rest.value);
        assert s[pos..pos + 1] == [c];
      }
    } else {
      ScanOne(env, s, pos, pos, next);
      PendingText(env, s, pos, pos + 1, next);
      assert s[pos..pos + 1] == [c];
      OkTogether(env, s, pos, next);
    }
  }

  lemma TextIsWritten(env: Env, t: string)
    ensures Written(env, OnText(t)) == t
  {
  }

  lemma DoubledBrace(env: Env, s: string, pos: nat, next: int)
    requires pos + 1 < |s| && s[pos] == '{' && s[pos + 1] == '{'
    ensures ReplacementField(env, s, pos, next) == Ok(Field(OnText("{"), pos + 2, next))
  {
  }

  lemma OkTogether(env: Env, s: string, pos: nat, next: int)
    requires pos < |s|
    ensures Calls(env, s, pos, pos + 1, next).Ok? <==> Calls(env, s, pos + 1, pos + 1, next).Ok?
  {
    hide Output, Fields;
    PendingText(env, s, pos, pos + 1, next);
  }

  /** A field of argument `id`, from the unit behind its index. */
  lemma RestOfField(env: Env, s: string, pos: nat, id: nat, manual: bool, next: int, after: string)
    requires pos <= |s| && s[pos..] == "}" + after
    ensures pos < |s| && FieldRest(env, s, pos, id, manual, next)
            == if id >= env.args then Err else Ok(Field(OnField(id, manual), pos + 1, next))
  {
    assert s[pos] == s[pos..][0];
  }

  lemma RestOfSpecs(env: Env, s: string, pos: nat, id: nat, manual: bool, next: int, spec: string, after: string)
    requires pos <= |s| && s[pos..] == ":" + (spec + ("}" + after)) && (id < env.args ==> Takes(env, id, spec))
    ensures pos < |s| && FieldRest(env, s, pos, id, manual, next)
            == if id >= env.args then Err else Ok(Field(OnSpecs(id, manual, spec), pos + 1 + |spec| + 1, next))
  {
    assert s[pos] == s[pos..][0];
    var rest := s[pos + 1..];
    assert rest == s[pos..][1..] == spec + ("}" + after);
    assert rest[..|spec|] == spec && rest[|spec|] == '}' && s[pos + 1 + |spec|] == rest[|spec|];
  }

  /** The index of a field. */
  lemma ReadsIndex(s: string, pos: nat, n: nat, after: string)
    requires pos <= |s| && s[pos..] == Decimal(n) + after && after != "" && (after[0] == '}' || after[0] == ':')
    ensures pos < |s| && ParseArgId(s, pos) == Ok(Index(Clamped(n), pos + |Decimal(n)|)) && pos + |Decimal(n)| < |s|
    ensures IsDigit(s[pos]) && s[pos + |Decimal(n)|..] == after
  {
    hide Decimal, Value, SpecParser.ReadNumber;
    var t := Decimal(n);
    assert s[pos] == s[pos..][0] == t[0] && s[pos + |t|] == s[pos..][|t|] == after[0];
    assert s[pos + |t|..] == s[pos..][|t|..];
    DecimalValue(n);
    SpecParser.ReadsDecimal(n);
    SpecParser.WholeRun(s, pos, t, after);
    if n == 0 {
      ZeroIsZero();
    }
  }

  lemma ZeroIsZero()
    ensures Decimal(0) == "0"
  {
    assert Decimal(0) == "" + [('0' as int) as char];
  }

  lemma BraceBefore(s: string, pos: nat, t: string)
    requires pos <= |s| && s[pos..] == "{" + t && t != ""
    ensures pos + 1 < |s| && s[pos] == '{' && s[pos + 1..] == t && s[pos + 1] == t[0]
  {
    assert s[pos] == s[pos..][0] && s[pos + 1] == s[pos..][1];
    assert s[pos + 1..] == s[pos..][1..];
  }

  // Fields.

  function CallOf(p: Piece, id: nat): Call {
    match p
    case Unit(c) => OnText([c])
    case Next => OnField(id, false)
    case NextWith(spec) => OnSpecs(id, false, spec)
    case Arg(_) => OnField(id, true)
    case ArgWith(_, spec) => OnSpecs(id, true, spec)
  }

  lemma CallShows(env: Env, p: Piece, id: nat)
    ensures Written(env, CallOf(p, id)) == Shown(env, p, id)
  {
  }

  /** What the parser is to make of a field. */
  function FieldOfPiece(env: Env, p: Piece, mode: Mode, end: nat): Result<Field> {
    match Target(p, mode)
    case None => Err
    case Some(id) => if id >= env.args then Err else Ok(Field(CallOf(p, id), end, Counter(After(p, mode))))
  }

  lemma AutomaticField(env: Env, s: string, pos: nat, next: int)
    requires pos + 1 < |s| && (s[pos + 1] == '}' || s[pos + 1] == ':')
    ensures ReplacementField(env, s, pos, next) == if next < 0 then Err else FieldRest(env, s, pos + 1, next, false, next + 1)
  {
    hide FieldRest, ParseArgId;
  }

  lemma NumberedField(env: Env, s: string, pos: nat, next: int, id: nat, end: nat)
    requires pos + 1 < |s| && IsDigit(s[pos + 1]) && ParseArgId(s, pos + 1) == Ok(Index(id, end))
    requires end < |s| && (s[end] == '}' || s[end] == ':')
    ensures ReplacementField(env, s, pos, next) == if next > 0 then Err else FieldRest(env, s, end, id, true, MANUAL)
  {
    hide FieldRest, ParseArgId;
    NoBrace(s[pos + 1]);
  }

  // How the pieces begin and go on.

  lemma ShapeOfNext(after: string)
    ensures WrittenAs(Next) + after == "{" + ("}" + after) && |WrittenAs(Next)| == 2
  {
  }

  lemma ShapeOfNextWith(spec: string, after: string)
    ensures WrittenAs(NextWith(spec)) + after == "{" + (":" + (spec + ("}" + after))) && |WrittenAs(NextWith(spec))| == 3 + |spec|
  {
  }

  lemma ShapeOfArg(n: nat, after: string)
    ensures WrittenAs(Arg(n)) + after == "{" + (Decimal(n) + ("}" + after)) && |WrittenAs(Arg(n))| == 2 + |Decimal(n)|
  {
    hide Decimal;
  }

  lemma ShapeOfArgWith(n: nat, spec: string, after: string)
    ensures WrittenAs(ArgWith(n, spec)) + after == "{" + (Decimal(n) + (":" + (spec + ("}" + after))))
    ensures |WrittenAs(ArgWith(n, spec))| == 3 + |Decimal(n)| + |spec|
  {
    hide Decimal;
    var digits := Decimal(n);
    assert (("{" + digits) + ":") + spec + "}" == "{" + (digits + (":" + (spec + "}")));
    assert (":" + (spec + "}")) + after == ":" + (spec + ("}" + after));
    assert (digits + (":" + (spec + "}"))) + after == digits + ((":" + (spec + "}")) + after);
  }

  lemma ReadPlainNext(env: Env, s: string, pos: nat, p: Piece, mode: Mode, after: string)
    requires p.Next? && Started(mode) && pos <= |s| && s[pos..] == WrittenAs(p) + after
    ensures var end := pos + |WrittenAs(p)|;
      pos < |s| && end <= |s| && s[pos] == '{' && s[end..] == after
      && ReplacementField(env, s, pos, Counter(mode)) == FieldOfPiece(env, p, mode, end)
  {
    hide FieldRest, ReplacementField, WrittenAs;
    ShapeOfNext(after);
    SpecParser.Behind(s, pos, WrittenAs(p), after);
    BraceBefore(s, pos, "}" + after);
    AutomaticField(env, s, pos, Counter(mode));
    if mode != Manually {
      RestOfField(env, s, pos + 1, Counter(mode), false, Counter(mode) + 1, after);
    }
  }

  lemma ReadStyledNext(env: Env, s: string, pos: nat, p: Piece, mode: Mode, after: string)
    requires p.NextWith? && Started(mode) && TakesOwn(env, p, mode) && pos <= |s| && s[pos..] == WrittenAs(p) + after
    ensures var end := pos + |WrittenAs(p)|;
      pos < |s| && end <= |s| && s[pos] == '{' && s[end..] == after
      && ReplacementField(env, s, pos, Counter(mode)) == FieldOfPiece(env, p, mode, end)
  {
    hide FieldRest, ReplacementField, WrittenAs, Takes;
    ShapeOfNextWith(p.spec, after);
    SpecParser.Behind(s, pos, WrittenAs(p), after);
    BraceBefore(s, pos, ":" + (p.spec + ("}" + after)));
    AutomaticField(env, s, pos, Counter(mode));
    if mode != Manually {
      RestOfSpecs(env, s, pos + 1, Counter(mode), false, Counter(mode) + 1, p.spec, after);
    }
  }

  lemma ReadPlainArg(env: Env, s: string, pos: nat, p: Piece, mode: Mode, after: string)
    requires p.Arg? && Started(mode) && pos <= |s| && s[pos..] == WrittenAs(p) + after
    ensures var end := pos + |WrittenAs(p)|;
      pos < |s| && end <= |s| && s[pos] == '{' && s[end..] == after
      && ReplacementField(env, s, pos, Counter(mode)) == FieldOfPiece(env, p, mode, end)
  {
    hide FieldRest, ReplacementField, WrittenAs, Decimal, Clamped, ParseArgId;
    ShapeOfArg(p.n, after);
    SpecParser.Behind(s, pos, WrittenAs(p), after);
    BraceBefore(s, pos, Decimal(p.n) + ("}" + after));
    ReadsIndex(s, pos + 1, p.n, "}" + after);
    var at := pos + 1 + |Decimal(p.n)|;
    RestOfField(env, s, at, Clamped(p.n), true, MANUAL, after);
    assert s[at] == s[at..][0];
    NumberedField(env, s, pos, Counter(mode), Clamped(p.n), at);
  }

  lemma ReadStyledArg(env: Env, s: string, pos: nat, p: Piece, mode: Mode, after: string)
    requires p.ArgWith? && Started(mode) && TakesOwn(env, p, mode) && pos <= |s| && s[pos..] == WrittenAs(p) + after
    ensures var end := pos + |WrittenAs(p)|;
      pos < |s| && end <= |s| && s[pos] == '{' && s[end..] == after
      && ReplacementField(env, s, pos, Counter(mode)) == FieldOfPiece(env, p, mode, end)
  {
    hide FieldRest, ReplacementField, WrittenAs, Decimal, Clamped, ParseArgId, Takes;
    var t := ":" + (p.spec + ("}" + after));
    ShapeOfArgWith(p.n, p.spec, after);
    SpecParser.Behind(s, pos, WrittenAs(p), after);
    BraceBefore(s, pos, Decimal(p.n) + t);
    ReadsIndex(s, pos + 1, p.n, t);
    var at := pos + 1 + |Decimal(p.n)|;
    if !mode.Automatic? {
      RestOfSpecs(env, s, at, Clamped(p.n), true, MANUAL, p.spec, after);
    }
    assert s[at] == s[at..][0];
    NumberedField(env, s, pos, Counter(mode), Clamped(p.n), at);
  }

  lemma NoBrace(c: char)
    requires IsDigit(c)
    ensures c != '{' && c != '}' && c != ':'
  {
  }

  lemma ReadField(env: Env, s: string, pos: nat, p: Piece, mode: Mode, after: string)
    requires !p.Unit?
    requires Started(mode) && TakesOwn(env, p, mode) && pos <= |s| && s[pos..] == WrittenAs(p) + after
    ensures var end := pos + |WrittenAs(p)|;
      pos < |s| && end <= |s| && s[pos] == '{' && s[end..] == after
      && ReplacementField(env, s, pos, Counter(mode)) == FieldOfPiece(env, p, mode, end)
  {
    hide ReplacementField, FieldOfPiece, TakesOwn, WrittenAs;
    match p
    case Next => ReadPlainNext(env, s, pos, p, mode, after);
    case NextWith(_) => ReadStyledNext(env, s, pos, p, mode, after);
    case Arg(_) => ReadPlainArg(env, s, pos, p, mode, after);
    case ArgWith(_, _) => ReadStyledArg(env, s, pos, p, mode, after);
  }

  /** A `{` that begins a field. */
  lemma CallsAtField(env: Env, s: string, pos: nat, next: int)
    requires pos < |s| && s[pos] == '{'
    ensures var field := ReplacementField(env, s, pos, next);
      && (!field.Ok? ==> !Calls(env, s, pos, pos, next).Ok?)
      && (field.Ok? ==>
            Calls(env, s, pos, pos, next) == Prepend([OnText(s[pos..pos]), field.value.call],
              Calls(env, s, field.value.end, field.value.end, field.value.next)))
  {
    hide ReplacementField;
  }

  // Whole templates.

  ghost predicate AsMeant(env: Env, calls: Result<seq<Call>>, meant: Option<string>) {
    && (calls.Ok? <==> meant.Some?)
    && (calls.Ok? ==> Output(env, calls.value) == meant.value)
  }

  lemma AfterStarted(p: Piece, mode: Mode)
    requires Started(mode)
    ensures Started(After(p, mode))
  {
  }

  lemma SuitedParts(env: Env, ps: seq<Piece>, mode: Mode)
    requires Suited(env, ps, mode) && ps != []
    ensures TakesOwn(env, ps[0], mode) && Suited(env, ps[1..], After(ps[0], mode))
  {
  }

  lemma {:induction false} RestMeans(env: Env, s: string, pos: nat, ps: seq<Piece>, mode: Mode)
    requires Suited(env, ps, mode) && Started(mode) && pos <= |s| && s[pos..] == TextOf(ps)
    ensures AsMeant(env, Calls(env, s, pos, pos, Counter(mode)), Meant(env, ps, mode))
    decreases |ps|
  {
    hide Calls, Output, Takes, Counter, Suited, Started, TakesOwn;
    if ps == [] {
      AtTheEnd(env, s, Counter(mode));
    } else {
      SuitedParts(env, ps, mode);
      AfterStarted(ps[0], mode);
      if ps[0].Unit? {
        UnitMeans(env, s, pos, ps, mode);
      } else {
        FieldMeans(env, s, pos, ps, mode);
      }
    }
  }

  lemma AtTheEnd(env: Env, s: string, next: int)
    ensures AsMeant(env, Calls(env, s, |s|, |s|, next), Some(""))
  {
    FirstText(env, s[|s|..], []);
    assert [OnText(s[|s|..])] + [] == [OnText(s[|s|..])];
  }

  lemma {:induction false} UnitMeans(env: Env, s: string, pos: nat, ps: seq<Piece>, mode: Mode)
    requires Suited(env, ps, mode) && Started(mode) && pos <= |s| && s[pos..] == TextOf(ps) && ps != [] && ps[0].Unit?
    requires TakesOwn(env, ps[0], mode) && Suited(env, ps[1..], After(ps[0], mode))
    ensures AsMeant(env, Calls(env, s, pos, pos, Counter(mode)), Meant(env, ps, mode))
    decreases |ps|, 0
  {
    hide Calls, Output, Takes, Counter, Suited, Started, TakesOwn, WrittenAs;
    var t := WrittenAs(ps[0]);
    ReadUnit(env, s, pos, ps[0].c, TextOf(ps[1..]), Counter(mode));
    SpecParser.Behind(s, pos, t, TextOf(ps[1..]));
    SameMode(ps[0], mode);
    RestMeans(env, s, pos + |t|, ps[1..], mode);
  }

  lemma {:induction false} FieldMeans(env: Env, s: string, pos: nat, ps: seq<Piece>, mode: Mode)
    requires Suited(env, ps, mode) && Started(mode) && pos <= |s| && s[pos..] == TextOf(ps) && ps != [] && !ps[0].Unit?
    requires TakesOwn(env, ps[0], mode) && Suited(env, ps[1..], After(ps[0], mode)) && Started(After(ps[0], mode))
    ensures AsMeant(env, Calls(env, s, pos, pos, Counter(mode)), Meant(env, ps, mode))
    decreases |ps|, 0
  {
    hide Calls, Output, Takes, Counter, Suited, Started, TakesOwn, WrittenAs, ReplacementField, Target, CallOf, After, Shown;
    var t := WrittenAs(ps[0]);
    var end := pos + |t|;
    ReadField(env, s, pos, ps[0], mode, TextOf(ps[1..]));
    CallsAtField(env, s, pos, Counter(mode));
    var target := Target(ps[0], mode);
    if target.Some? && target.value < env.args {
      var next := After(ps[0], mode);
      RestMeans(env, s, end, ps[1..], next);
      TwoCalls(env, s, pos, CallOf(ps[0], target.value), Calls(env, s, end, end, Counter(next)));
      CallShows(env, ps[0], target.value);
    }
  }

  // Every brace is accounted for.

  lemma PairedUnit(env: Env, s: string, pos: nat, id: int)
    requires pos < |s| && s[pos] != '{' && s[pos] != '}'
    ensures Paired(env, s, pos, id) == Paired(env, s, pos + 1, id)
  {
    hide ReplacementField;
  }

  lemma PairedField(env: Env, s: string, pos: nat, id: int)
    requires pos < |s| && s[pos] == '{'
    ensures var field := ReplacementField(env, s, pos, id);
      Paired(env, s, pos, id) == (field.Ok? ==> Paired(env, s, field.value.end, field.value.next))
  {
    hide ReplacementField;
  }

  lemma {:induction false} TextIsPaired(env: Env, s: string, pos: nat, ps: seq<Piece>, mode: Mode)
    requires Suited(env, ps, mode) && Started(mode) && pos <= |s| && s[pos..] == TextOf(ps)
    ensures Paired(env, s, pos, Counter(mode))
    decreases |ps|
  {
    hide Takes, Counter, Suited, Started, TakesOwn, ReplacementField, Paired, Target, CallOf, After, WrittenAs;
    if ps == [] {
      NothingLeft(env, s, Counter(mode));
    } else {
      SuitedParts(env, ps, mode);
      AfterStarted(ps[0], mode);
      var t := WrittenAs(ps[0]);
      SpecParser.Behind(s, pos, t, TextOf(ps[1..]));
      TextIsPaired(env, s, pos + |t|, ps[1..], After(ps[0], mode));
      if ps[0].Unit? {
        SameMode(ps[0], mode);
        UnitIsPaired(env, s, pos, ps[0].c, TextOf(ps[1..]), Counter(mode));
      } else {
        ReadField(env, s, pos, ps[0], mode, TextOf(ps[1..]));
        PairedField(env, s, pos, Counter(mode));
      }
    }
  }

  lemma SameMode(p: Piece, mode: Mode)
    requires p.Unit?
    ensures After(p, mode) == mode
  {
  }

  lemma NothingLeft(env: Env, s: string, id: int)
    ensures Paired(env, s, |s|, id)
  {
  }

  lemma UnitIsPaired(env: Env, s: string, pos: nat, c: char, after: string, id: int)
    requires pos <= |s| && s[pos..] == WrittenAs(Unit(c)) + after
    requires pos + |WrittenAs(Unit(c))| <= |s| && Paired(env, s, pos + |WrittenAs(Unit(c))|, id)
    ensures Paired(env, s, pos, id)
  {
    hide ReplacementField;
    assert s[pos] == s[pos..][0] == c;
    if c == '{' {
      assert s[pos + 1] == s[pos..][1] == c;
      DoubledBrace(env, s, pos, id);
      PairedField(env, s, pos, id);
    } else if c == '}' {
      assert s[pos + 1] == s[pos..][1] == c;
    } else {
      PairedUnit(env, s, pos, id);
    }
  }

  /** A template, written out, is accepted by both sides exactly if it is in order, and then both write what is
      meant. */
  lemma TemplatesMean(env: Env, ps: seq<Piece>)
    requires Suited(env, ps, Unset)
    ensures var s := TextOf(ps); var meant := Meant(env, ps, Unset);
      && AsMeant(env, Calls(env, s, 0, 0, 0), meant)
      && (Compiled(env, s).Ok? <==> meant.Some?)
      && (meant.Some? ==> Format(env, Compiled(env, s).value) == meant.value)
  {
    hide Calls, Compiled, Paired, Output, Fields, Takes, Suited, Meant, TextOf, Format, TreeFields;
    var s := TextOf(ps);
    assert s[0..] == s;
    RestMeans(env, s, 0, ps, Unset);
    TextIsPaired(env, s, 0, ps, Unset);
    CompiledMeansTheSame(env, s);
  }

  /** The field of argument n alone, and the tree it is compiled to. */
  lemma OneField(env: Env, n: nat)
    requires Clamped(n) < env.args
    ensures var s := "{" + Decimal(n) + "}";
      && Compiled(env, s) == Ok(PlainField(Clamped(n), true))
      && Calls(env, s, 0, 0, 0).Ok? && Output(env, Calls(env, s, 0, 0, 0).value) == env.plain(Clamped(n))
  {
    hide Decimal, Paired, ParseArgId;
    var s := "{" + Decimal(n) + "}";
    var ps := [Arg(n)];
    assert TextOf(ps) == s + "" == s by {
      assert ps[1..] == [];
    }
    assert s[0..] == s && s == WrittenAs(Arg(n)) + "";
    ReadField(env, s, 0, Arg(n), Unset, "");
    SameField(env, s, 0, 0);
    TemplatesMean(env, ps);
    OneMeant(env, n);
  }

  lemma OneMeant(env: Env, n: nat)
    requires Clamped(n) < env.args
    ensures Meant(env, [Arg(n)], Unset) == Some(env.plain(Clamped(n)))
  {
    assert [Arg(n)][1..] == [];
    assert env.plain(Clamped(n)) + "" == env.plain(Clamped(n));
  }

  /** An index has no leading zeros. */
  lemma LeadingZero(env: Env, d: char, rest: string)
    requires IsDigit(d)
    ensures var s := "{0" + [d] + rest; !Calls(env, s, 0, 0, 0).Ok? && Compiled(env, s) == Err
  {
    var s := "{0" + [d] + rest;
    assert s[0] == '{' && s[1] == '0' && s[2] == d;
    assert ParseArgId(s, 1) == Err;
    assert ReplacementField(env, s, 0, 0) == Err;
  }

  const LOWER := "abcdefghijklmnopqrstuvwxyz"

  const UPPER := "ABCDEFGHIJKLMNOPQRSTUVWXYZ"

  /** Names begin with a letter or an underscore. A field that begins with anything else that is no index and no
      end of an empty id is rejected by both sides. */
  lemma NamesAndOthers(env: Env, c: char, rest: string)
    requires !IsDigit(c) && c !in "{}:"
    ensures var s := "{" + [c] + rest;
      if c in LOWER + UPPER || c == '_' then Calls(env, s, 0, 0, 0) == Named && Compiled(env, s) == Named
      else Calls(env, s, 0, 0, 0) == Err && Compiled(env, s) == Err
  {
    Letters(c);
    var s := "{" + [c] + rest;
    assert s[0] == '{' && s[1] == c;
    assert "{}:"[0] == '{' && "{}:"[1] == '}' && "{}:"[2] == ':';
    assert ReplacementField(env, s, 0, 0) == if IsNameStart(c) then Named else Err;
  }

  lemma Letters(c: char)
    ensures c in LOWER + UPPER <==> IsNameStart(c) && c != '_'
  {
    InRange(LOWER, 'a', c);
    InRange(UPPER, 'A', c);
  }

  /** A text of 26 consecutive characters holds those and no others. */
  lemma InRange(text: string, first: char, c: char)
    requires |text| == 26 && first as int < 0x80 && forall i :: 0 <= i < 26 ==> text[i] as int == first as int + i
    ensures c in text <==> first as int <= c as int < first as int + 26
  {
    if first as int <= c as int < first as int + 26 {
      assert text[c as int - first as int] == c;
    }
  }

  // With the parser of standard specifiers in place.

  /** Any specifiers legal for the kind of argument id are taken. */
  lemma LegalSpecsAreTaken(kinds: seq<SpecParser.Kind>, plain: nat -> string, styled: (nat, string) -> string, id: nat, ps: seq<string>)
    requires id < |kinds| && SpecParser.Legal(ps, kinds[id])
    ensures Takes(BuiltIn(kinds, plain, styled), id, SpecParser.Render(ps))
  {
    hide SpecParser.Legal, SpecParser.Render, SpecParser.Parsed, SpecParser.Effects;
    var env, spec := BuiltIn(kinds, plain, styled), SpecParser.Render(ps);
    forall rest: string ensures env.specEnd(id, spec + ("}" + rest)) == Some(|spec|) {
      SpecParser.RenderingsAreParsed(ps, "}" + rest, kinds[id]);
    }
  }
}
