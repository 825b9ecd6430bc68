/** Format strings, parsed at run time into handler calls and at compile time into a tree.

    What is common to both sides is a parameter (`Env`): how many arguments there are, how far the
    specifiers of an argument reach, and what an argument looks like when formatted. Specifiers are static:
    they take no further arguments. */
module FormatCompiler {
  import opened Options
  import opened Digits
  import SpecParser

  /** `specEnd(id, text)` is how much of `text` the parser of argument `id` consumes, if it accepts it. */
  datatype Env = Env(args: nat, specEnd: (nat, string) -> Option<nat>, plain: nat -> string, styled: (nat, string) -> string)

  /** `Named` stands for a field with a name, which is not followed further. */
  datatype Result<+T> = Ok(value: T) | Err | Named

  // The argument ids of fields.

  predicate IsNameStart(c: char) {
    'a' <= c <= 'z' || 'A' <= c <= 'Z' || c == '_'
  }

  datatype ArgId = Index(id: nat, end: nat)

  /** parse_arg_id: an index, of which too large ones become INT_MAX, up to a `}` or `:`. */
  function ParseArgId(s: string, pos: nat): (r: Result<ArgId>)
    requires pos < |s|
    ensures r.Ok? ==> pos < r.value.end < |s| && (s[r.value.end] == '}' || s[r.value.end] == ':')
  {
    if IsDigit(s[pos]) then
      var end := if s[pos] == '0' then pos + 1 else pos + Leading(s[pos..]);
      if end == |s| || (s[end] != '}' && s[end] != ':') then Err
      else Ok(Index(if s[pos] == '0' then 0 else IndexValue(s[pos..][..Leading(s[pos..])]), end))
    else if IsNameStart(s[pos]) then Named
    else Err
  }

  function IndexValue(digits: string): nat
    requires DigitSequence(digits)
  {
    var n := SpecParser.ReadNumber(digits);
    if n.Some? then n.value else SpecParser.INT_MAX
  }

  /** parse_context's counter: positive once automatic ids are in use, -1 once manual ones are. */
  const MANUAL := -1

  // At run time.

  datatype Call = OnText(text: string) | OnField(id: nat, manual: bool) | OnSpecs(id: nat, manual: bool, spec: string)

  /** One replacement field: its call, where the text goes on and the new counter. */
  datatype Field = Field(call: Call, end: nat, next: int)

  /** The rest of a field from its `}` or `:` at `pos`. */
  function FieldRest(env: Env, s: string, pos: nat, id: nat, manual: bool, next: int): (r: Result<Field>)
    requires pos < |s| && (s[pos] == '}' || s[pos] == ':')
    ensures r.Ok? ==> pos < r.value.end <= |s|
  {
    if id >= env.args then Err
    else if s[pos] == '}' then Ok(Field(OnField(id, manual), pos + 1, next))
    else
      var length := env.specEnd(id, s[pos + 1..]);
      if length.None? || pos + 1 + length.value >= |s| || s[pos + 1 + length.value] != '}' then Err
      else Ok(Field(OnSpecs(id, manual, s[pos + 1..][..length.value]), pos + 1 + length.value + 1, next))
  }

  /** parse_replacement_field from the `{` at `pos`. */
  function ReplacementField(env: Env, s: string, pos: nat, next: int): (r: Result<Field>)
    requires pos < |s|
    ensures r.Ok? ==> pos < r.value.end <= |s|
  {
    if pos + 1 == |s| then Err
    else if s[pos + 1] == '{' then Ok(Field(OnText("{"), pos + 2, next))
    else if s[pos + 1] == '}' || s[pos + 1] == ':' then
      if next < 0 then Err else FieldRest(env, s, pos + 1, next, false, next + 1)
    else
      match ParseArgId(s, pos + 1)
      case Err => Err
      case Named => Named
      case Ok(arg) => if next > 0 then Err else FieldRest(env, s, arg.end, arg.id, true, MANUAL)
  }

  /** The loop of parse_format_string: `begin` is where the pending text starts and `p` the scan position. */
  function Calls(env: Env, s: string, begin: nat, p: nat, next: int): Result<seq<Call>>
    requires begin <= p <= |s|
    decreases |s| - p
  {
    if p == |s| then Ok([OnText(s[begin..])])
    else if s[p] == '{' then
      match ReplacementField(env, s, p, next)
      case Err => Err
      case Named => Named
      case Ok(field) => Prepend([OnText(s[begin..p]), field.call], Calls(env, s, field.end, field.end, field.next))
    else if s[p] == '}' then
      if p + 1 == |s| || s[p + 1] != '}' then Err
      else Prepend([OnText(s[begin..p + 1])], Calls(env, s, p + 2, p + 2, next))
    else Calls(env, s, begin, p + 1, next)
  }

  function Prepend(calls: seq<Call>, rest: Result<seq<Call>>): Result<seq<Call>> {
    if rest.Ok? then Ok(calls + rest.value) else rest
  }

  method ParseFormatString(env: Env, s: string) returns (r: Result<seq<Call>>)
    ensures r == Calls(env, s, 0, 0, 0)
  {
    var calls, begin, p, next := [], 0, 0, 0;
    assert forall rest: seq<Call> :: [] + rest == rest;
    while p != |s|
      invariant 0 <= begin <= p <= |s|
      invariant Calls(env, s, 0, 0, 0) == Prepend(calls, Calls(env, s, begin, p, next))
      decreases |s| - p
    {
      ghost var rest := Calls(env, s, begin, p, next);
      if s[p] == '{' {
        match ReplacementField(env, s, p, next) {
          case Err => return Err;
          case Named => return Named;
          case Ok(field) =>
            PrependTwice(calls, [OnText(s[begin..p]), field.call], Calls(env, s, field.end, field.end, field.next));
            calls := calls + [OnText(s[begin..p]), field.call];
            begin, p, next := field.end, field.end, field.next;
        }
      } else if s[p] == '}' {
        if p + 1 == |s| || s[p + 1] != '}' {
          return Err;
        }
        PrependTwice(calls, [OnText(s[begin..p + 1])], Calls(env, s, p + 2, p + 2, next));
        calls := calls + [OnText(s[begin..p + 1])];
        begin, p := p + 2, p + 2;
      } else {
        p := p + 1;
      }
    }
    r := Ok(calls + [OnText(s[begin..])]);
  }

  lemma PrependTwice(a: seq<Call>, b: seq<Call>, rest: Result<seq<Call>>)
    ensures Prepend(a, Prepend(b, rest)) == Prepend(a + b, rest)
  {
    if rest.Ok? {
      assert a + (b + rest.value) == a + b + rest.value;
    }
  }

  function Written(env: Env, call: Call): string {
    match call
    case OnText(text) => text
    case OnField(id, _) => env.plain(id)
    case OnSpecs(id, _, spec) => env.styled(id, spec)
  }

  /** What the handler writes. */
  function Output(env: Env, calls: seq<Call>): string {
    if calls == [] then "" else Written(env, calls[0]) + Output(env, calls[1..])
  }

  lemma {:induction false} OutputAppends(env: Env, a: seq<Call>, b: seq<Call>)
    ensures Output(env, a + b) == Output(env, a) + Output(env, b)
  {
    hide Written;
    if a == [] {
      assert a + b == b;
    } else {
      OutputAppends(env, a[1..], b);
      assert (a + b)[1..] == a[1..] + b;
    }
  }

  // At compile time.

  datatype Tree =
    | Text(text: string)
    | CodeUnit(unit: char)
    | PlainField(id: nat, manual: bool)
    | SpecField(id: nat, manual: bool, spec: string)
    | Concat(lhs: Tree, rhs: Tree)

  function Format(env: Env, tree: Tree): string {
    match tree
    case Text(text) => text
    case CodeUnit(unit) => [unit]
    case PlainField(id, _) => env.plain(id)
    case SpecField(id, _, spec) => env.styled(id, spec)
    case Concat(lhs, rhs) => Format(env, lhs) + Format(env, rhs)
  }

  /** parse_text: the end of a run without braces. */
  function ParseText(s: string, pos: nat): (end: nat)
    requires pos <= |s|
    ensures pos <= end <= |s|
    ensures forall i :: pos <= i < end ==> s[i] != '{' && s[i] != '}'
    ensures end < |s| ==> s[end] == '{' || s[end] == '}'
    decreases |s| - pos
  {
    if pos == |s| || s[pos] == '{' || s[pos] == '}' then pos else ParseText(s, pos + 1)
  }

  /** parse_tail. */
  function ParseTail(env: Env, head: Tree, s: string, pos: nat, id: int): Result<Tree>
    requires pos <= |s|
    decreases |s| - pos, 1
  {
    if pos == |s| then Ok(head)
    else
      var tail := Compile(env, s, pos, id);
      if tail.Ok? then Ok(Concat(head, tail.value)) else tail
  }

  /** parse_specs: manual mode is passed on as 0 and recognised by that afterwards. */
  function NextAfterSpecs(next: int): int {
    var passed := if next == MANUAL then 0 else next;
    if passed == 0 then MANUAL else passed
  }

  /** parse_replacement_field_then_tail from the `}` or `:` at `pos`. */
  function FieldThenTail(env: Env, s: string, pos: nat, arg: nat, manual: bool, next: int): Result<Tree>
    requires pos < |s| && (s[pos] == '}' || s[pos] == ':')
    decreases |s| - pos, 2
  {
    if arg >= env.args then Err
    else if s[pos] == '}' then ParseTail(env, PlainField(arg, manual), s, pos + 1, next)
    else
      var length := env.specEnd(arg, s[pos + 1..]);
      if length.None? || pos + 1 + length.value >= |s| || s[pos + 1 + length.value] != '}' then Err
      else
        ParseTail(env, SpecField(arg, manual, s[pos + 1..][..length.value]), s, pos + 1 + length.value + 1, NextAfterSpecs(next))
  }

  /** compile_format_string for a non-empty rest. A `}` is only checked not to be the last unit. */
  function Compile(env: Env, s: string, pos: nat, id: int): Result<Tree>
    requires pos < |s|
    decreases |s| - pos, 0
  {
    if s[pos] == '{' then
      if pos + 1 == |s| then Err
      else if s[pos + 1] == '{' then ParseTail(env, Text("{"), s, pos + 2, id)
      else if s[pos + 1] == '}' || s[pos + 1] == ':' then
        if id == MANUAL || id < 0 then Err else FieldThenTail(env, s, pos + 1, id, false, id + 1)
      else
        match ParseArgId(s, pos + 1)
        case Err => Err
        case Named => Named
        case Ok(arg) =>
          if id != MANUAL && id != 0 then Err else FieldThenTail(env, s, arg.end, arg.id, true, MANUAL)
    else if s[pos] == '}' then
      if pos + 1 == |s| then Err else ParseTail(env, Text("}"), s, pos + 2, id)
    else
      var end := ParseText(s, pos + 1);
      ParseTail(env, if end - pos > 1 then Text(s[pos..end]) else CodeUnit(s[pos]), s, end, id)
  }

  function Compiled(env: Env, s: string): Result<Tree> {
    if s == "" then Ok(Text("")) else Compile(env, s, 0, 0)
  }

  // Agreement.

  /** The pending text of a run-time parse comes first. */
  lemma {:induction false} PendingText(env: Env, s: string, begin: nat, p: nat, next: int)
    requires begin <= p <= |s|
    ensures Calls(env, s, begin, p, next).Ok? <==> Calls(env, s, p, p, next).Ok?
    ensures Calls(env, s, p, p, next).Ok? ==>
      && Output(env, Calls(env, s, begin, p, next).value) == s[begin..p] + Output(env, Calls(env, s, p, p, next).value)
      && Fields(Calls(env, s, begin, p, next).value) == Fields(Calls(env, s, p, p, next).value)
    decreases |s| - p
  {
    hide Calls, Output, Fields;
    if p == |s| {
      PendingAtEnd(env, s, begin, next);
    } else if s[p] == '{' || s[p] == '}' {
      PendingBeforeBrace(env, s, begin, p, next);
    } else {
      PendingText(env, s, begin, p + 1, next);
      PendingText(env, s, p, p + 1, next);
      ScanOne(env, s, begin, p, next);
      ScanOne(env, s, p, p, next);
      assert s[begin..p + 1] == s[begin..p] + s[p..p + 1];
    }
  }

  lemma PendingAtEnd(env: Env, s: string, begin: nat, next: int)
    requires begin <= |s|
    ensures Calls(env, s, begin, |s|, next).Ok? && Calls(env, s, |s|, |s|, next).Ok?
    ensures Output(env, Calls(env, s, begin, |s|, next).value)
            == s[begin..|s|] + Output(env, Calls(env, s, |s|, |s|, next).value)
    ensures Fields(Calls(env, s, begin, |s|, next).value) == Fields(Calls(env, s, |s|, |s|, next).value)
  {
    hide Output, Fields;
    FirstText(env, s[begin..], []);
    FirstText(env, s[|s|..], []);
    NoCalls(env);
    assert [OnText(s[begin..])] + [] == [OnText(s[begin..])] && [OnText(s[|s|..])] + [] == [OnText(s[|s|..])];
    assert s[begin..] == s[begin..|s|] && s[|s|..] == "";
  }

  lemma NoCalls(env: Env)
    ensures Output(env, []) == "" && Fields([]) == []
  {
  }

  lemma ScanOne(env: Env, s: string, begin: nat, p: nat, next: int)
    requires begin <= p < |s| && s[p] != '{' && s[p] != '}'
    ensures Calls(env, s, begin, p, next) == Calls(env, s, begin, p + 1, next)
  {
  }

  lemma PendingBeforeBrace(env: Env, s: string, begin: nat, p: nat, next: int)
    requires begin <= p < |s| && (s[p] == '{' || s[p] == '}')
    ensures Calls(env, s, begin, p, next).Ok? <==> Calls(env, s, p, p, next).Ok?
    ensures Calls(env, s, p, p, next).Ok? ==>
      && Output(env, Calls(env, s, begin, p, next).value) == s[begin..p] + Output(env, Calls(env, s, p, p, next).value)
      && Fields(Calls(env, s, begin, p, next).value) == Fields(Calls(env, s, p, p, next).value)
  {
    hide ReplacementField, FieldOf, Output, Fields, Written;
    if s[p] == '{' {
      var field := ReplacementField(env, s, p, next);
      if field.Ok? {
        var rest := Calls(env, s, field.value.end, field.value.end, field.value.next);
        if rest.Ok? {
          FirstText(env, s[begin..p], [field.value.call] + rest.value);
          FirstText(env, s[p..p], [field.value.call] + rest.value);
          assert [OnText(s[begin..p]), field.value.call] + rest.value == [OnText(s[begin..p])] + ([field.value.call] + rest.value);
          assert [OnText(s[p..p]), field.value.call] + rest.value == [OnText(s[p..p])] + ([field.value.call] + rest.value);
        }
      }
    } else if p + 1 < |s| && s[p + 1] == '}' {
      var rest := Calls(env, s, p + 2, p + 2, next);
      if rest.Ok? {
        FirstText(env, s[begin..p + 1], rest.value);
        FirstText(env, s[p..p + 1], rest.value);
        assert s[begin..p + 1] == s[begin..p] + s[p..p + 1];
      }
    }
  }

  /** The replacement fields of a sequence of calls, in order: argument and indexing mode. */
  function Fields(calls: seq<Call>): seq<(nat, bool)> {
    if calls == [] then [] else FieldOf(calls[0]) + Fields(calls[1..])
  }

  function FieldOf(call: Call): seq<(nat, bool)> {
    match call
    case OnText(_) => []
    case OnField(id, manual) => [(id, manual)]
    case OnSpecs(id, manual, _) => [(id, manual)]
  }

  lemma FirstText(env: Env, text: string, calls: seq<Call>)
    ensures Output(env, [OnText(text)] + calls) == text + Output(env, calls)
    ensures Fields([OnText(text)] + calls) == Fields(calls)
  {
    assert ([OnText(text)] + calls)[1..] == calls;
  }

  lemma FirstCall(env: Env, call: Call, calls: seq<Call>)
    ensures Output(env, [call] + calls) == Written(env, call) + Output(env, calls)
    ensures Fields([call] + calls) == Fields([call]) + Fields(calls)
  {
    assert ([call] + calls)[1..] == calls;
    assert [call][1..] == [];
  }

  function TreeFields(tree: Tree): seq<(nat, bool)> {
    match tree
    case PlainField(id, manual) => [(id, manual)]
    case SpecField(id, manual, _) => [(id, manual)]
    case Concat(lhs, rhs) => TreeFields(lhs) + TreeFields(rhs)
    case _ => []
  }

  /** Every `}` that both parsers meet outside of a field is doubled. */
  predicate Paired(env: Env, s: string, pos: nat, id: int)
    requires pos <= |s|
    decreases |s| - pos
  {
    pos == |s|
    || (if s[pos] == '{' then
          var field := ReplacementField(env, s, pos, id);
          field.Ok? ==> Paired(env, s, field.value.end, field.value.next)
        else if s[pos] == '}' then pos + 1 < |s| && s[pos + 1] == '}' && Paired(env, s, pos + 2, id)
        else Paired(env, s, ParseText(s, pos + 1), id))
  }

  function Node(call: Call): Tree {
    match call
    case OnText(text) => Text(text)
    case OnField(id, manual) => PlainField(id, manual)
    case OnSpecs(id, manual, spec) => SpecField(id, manual, spec)
  }

  /** At a `{` the compiler does what the run-time parser does and goes on behind the field. */
  lemma SameField(env: Env, s: string, pos: nat, id: int)
    requires pos < |s| && s[pos] == '{' && id >= MANUAL
    ensures var field := ReplacementField(env, s, pos, id);
      Compile(env, s, pos, id) ==
        match field
        case Err => Err
        case Named => Named
        case Ok(f) => ParseTail(env, Node(f.call), s, f.end, f.next)
    ensures var field := ReplacementField(env, s, pos, id); field.Ok? ==> field.value.next >= MANUAL
  {
    hide ParseTail, ParseArgId;
  }

  /** What agreement means for the rest of a format string. */
  ghost predicate Agree(env: Env, calls: Result<seq<Call>>, tree: Result<Tree>, paired: bool) {
    && (calls.Ok? <==> tree.Ok? && paired)
    && (calls.Ok? ==>
          && Output(env, calls.value) == Format(env, tree.value)
          && Fields(calls.value) == TreeFields(tree.value))
  }

  /** A first piece on both sides keeps the agreement. */
  lemma AgreeTail(env: Env, head: Tree, pieces: seq<Call>, s: string, pos: nat, id: int, paired: bool)
    requires pos <= |s|
    requires Output(env, pieces) == Format(env, head) && Fields(pieces) == TreeFields(head)
    requires pos == |s| ==> paired
    requires pos < |s| ==> Agree(env, Calls(env, s, pos, pos, id), Compile(env, s, pos, id), paired)
    ensures Agree(env, Prepend(pieces, Calls(env, s, pos, pos, id)), ParseTail(env, head, s, pos, id), paired)
  {
    var rest := Calls(env, s, pos, pos, id);
    if rest.Ok? {
      OutputAppends(env, pieces, rest.value);
      FieldsAppend(pieces, rest.value);
      if pos == |s| {
        FirstText(env, s[pos..], []);
        assert [OnText(s[pos..])] + [] == rest.value;
      }
    }
  }

  lemma {:induction false} FieldsAppend(a: seq<Call>, b: seq<Call>)
    ensures Fields(a + b) == Fields(a) + Fields(b)
  {
    hide Fields;
    if a == [] {
      assert a + b == b;
      FieldsUnfold(a);
    } else {
      FieldsAppend(a[1..], b);
      FieldsUnfold(a);
      FieldsUnfold(a + b);
      assert (a + b)[1..] == a[1..] + b;
    }
  }

  lemma FieldsUnfold(calls: seq<Call>)
    ensures Fields(calls) == if calls == [] then [] else FieldOf(calls[0]) + Fields(calls[1..])
  {
  }

  lemma {:induction false} RestAgrees(env: Env, s: string, pos: nat, id: int)
    requires pos < |s| && id >= MANUAL
    ensures Agree(env, Calls(env, s, pos, pos, id), Compile(env, s, pos, id), Paired(env, s, pos, id))
    decreases |s| - pos
  {
    if s[pos] == '{' {
      FieldAgrees(env, s, pos, id);
    } else if s[pos] == '}' {
      BraceAgrees(env, s, pos, id);
    } else {
      TextAgrees(env, s, pos, id);
    }
  }

  lemma {:induction false} FieldAgrees(env: Env, s: string, pos: nat, id: int)
    requires pos < |s| && id >= MANUAL && s[pos] == '{'
    ensures Agree(env, Calls(env, s, pos, pos, id), Compile(env, s, pos, id), Paired(env, s, pos, id))
    decreases |s| - pos, 0
  {
    SameField(env, s, pos, id);
    var field := ReplacementField(env, s, pos, id);
    if field.Ok? {
      var f := field.value;
      if f.end < |s| {
        RestAgrees(env, s, f.end, f.next);
      }
      FirstText(env, s[pos..pos], [f.call]);
      FirstCall(env, f.call, []);
      assert [OnText(s[pos..pos])] + [f.call] == [OnText(s[pos..pos]), f.call] && [f.call] + [] == [f.call];
      AgreeTail(env, Node(f.call), [OnText(s[pos..pos]), f.call], s, f.end, f.next, Paired(env, s, f.end, f.next));
    }
  }

  lemma {:induction false} BraceAgrees(env: Env, s: string, pos: nat, id: int)
    requires pos < |s| && id >= MANUAL && s[pos] == '}'
    ensures Agree(env, Calls(env, s, pos, pos, id), Compile(env, s, pos, id), Paired(env, s, pos, id))
    decreases |s| - pos, 0
  {
    if pos + 1 < |s| && s[pos + 1] == '}' {
      if pos + 2 < |s| {
        RestAgrees(env, s, pos + 2, id);
      }
      FirstText(env, s[pos..pos + 1], []);
      assert [OnText(s[pos..pos + 1])] + [] == [OnText(s[pos..pos + 1])] && s[pos..pos + 1] == "}";
      AgreeTail(env, Text("}"), [OnText(s[pos..pos + 1])], s, pos + 2, id, Paired(env, s, pos + 2, id));
    }
  }

  lemma {:induction false} TextAgrees(env: Env, s: string, pos: nat, id: int)
    requires pos < |s| && id >= MANUAL && s[pos] != '{' && s[pos] != '}'
    ensures Agree(env, Calls(env, s, pos, pos, id), Compile(env, s, pos, id), Paired(env, s, pos, id))
    decreases |s| - pos, 0
  {
    var end := ParseText(s, pos + 1);
    if end < |s| {
      RestAgrees(env, s, end, id);
    }
    ScanText(env, s, pos, pos, end, id);
    PendingText(env, s, pos, end, id);
    var head := if end - pos > 1 then Text(s[pos..end]) else CodeUnit(s[pos]);
    assert end - pos == 1 ==> s[pos..end] == [s[pos]];
    FirstText(env, s[pos..end], []);
    assert [OnText(s[pos..end])] + [] == [OnText(s[pos..end])];
    AgreeTail(env, head, [OnText(s[pos..end])], s, end, id, Paired(env, s, end, id));
    var rest := Calls(env, s, end, end, id);
    if rest.Ok? {
      FirstText(env, s[pos..end], rest.value);
    }
  }

  lemma {:induction false} ScanText(env: Env, s: string, begin: nat, p: nat, end: nat, next: int)
    requires begin <= p <= end <= |s| && forall i :: p <= i < end ==> s[i] != '{' && s[i] != '}'
    ensures Calls(env, s, begin, p, next) == Calls(env, s, begin, end, next)
    decreases end - p
  {
    if p < end {
      ScanText(env, s, begin, p + 1, end, next);
    }
  }

  /** The compiler accepts every format string that the run-time parser accepts, and the compiled form writes
      the same; beyond those it accepts exactly the strings with a `}` outside of a field that is not doubled. */
  lemma CompiledMeansTheSame(env: Env, s: string)
    ensures Agree(env, Calls(env, s, 0, 0, 0), Compiled(env, s), Paired(env, s, 0, 0))
  {
    if s == "" {
      FirstText(env, "", []);
      assert [OnText(s[0..])] == [OnText("")] + [];
    } else {
      RestAgrees(env, s, 0, 0);
    }
  }

  /** Such a string: the unit after the lone brace is swallowed. */
  lemma LoneBraceIsCompiled(env: Env)
    ensures Compiled(env, "a}b") == Ok(Concat(CodeUnit('a'), Text("}")))
    ensures Calls(env, "a}b", 0, 0, 0) == Err && !Paired(env, "a}b", 0, 0)
  {
    var s := "a}b";
    assert ParseText(s, 1) == 1;
    assert ParseTail(env, Text("}"), s, 3, 0) == Ok(Text("}"));
    assert Compile(env, s, 1, 0) == Ok(Text("}"));
    ScanText(env, s, 0, 0, 1, 0);
  }

  // Indexing modes.

  /** One mode throughout, and automatic ids count up from `first`. */
  predicate OneMode(fields: seq<(nat, bool)>, first: int) {
    || (first <= 0 && forall i :: 0 <= i < |fields| ==> fields[i].1)
    || (first >= 0 && forall i :: 0 <= i < |fields| ==> fields[i] == (first + i, false))
  }

  lemma {:induction false} CompiledOneMode(env: Env, s: string, pos: nat, id: int)
    requires pos < |s| && id >= MANUAL
    requires Compile(env, s, pos, id).Ok?
    ensures OneMode(TreeFields(Compile(env, s, pos, id).value), id)
    decreases |s| - pos
  {
    if s[pos] == '{' {
      SameField(env, s, pos, id);
      var f := ReplacementField(env, s, pos, id).value;
      if f.end < |s| {
        CompiledOneMode(env, s, f.end, f.next);
      }
      FieldMode(env, s, pos, id);
    } else {
      var end := if s[pos] == '}' then pos + 2 else ParseText(s, pos + 1);
      if end < |s| {
        CompiledOneMode(env, s, end, id);
        var rest := TreeFields(Compile(env, s, end, id).value);
        assert [] + rest == rest;
      }
    }
  }

  /** A field goes on in its own mode. */
  lemma FieldMode(env: Env, s: string, pos: nat, id: int)
    requires pos < |s| && id >= MANUAL && s[pos] == '{' && ReplacementField(env, s, pos, id).Ok?
    ensures var f := ReplacementField(env, s, pos, id).value; var fields := TreeFields(Node(f.call));
      || (fields == [] && f.next == id)
      || (id >= 0 && fields == [(id, false)] && f.next == id + 1)
      || (id <= 0 && |fields| == 1 && fields[0].1 && f.next == MANUAL)
  {
  }

  /** Neither side accepts a format string that mixes automatic and manual indexing. */
  lemma ModesNeverMix(env: Env, s: string)
    ensures Compiled(env, s).Ok? ==> OneMode(TreeFields(Compiled(env, s).value), 0)
    ensures Calls(env, s, 0, 0, 0).Ok? ==> OneMode(Fields(Calls(env, s, 0, 0, 0).value), 0)
  {
    CompiledMeansTheSame(env, s);
    if s != "" && Compiled(env, s).Ok? {
      CompiledOneMode(env, s, 0, 0);
    }
  }

  // With the parser of standard specifiers in place.

  /** Arguments of built-in kinds, whose specifiers `SpecParser` parses. */
  function BuiltIn(kinds: seq<SpecParser.Kind>, plain: nat -> string, styled: (nat, string) -> string): Env {
    Env(|kinds|,
      (id: nat, text: string) =>
        if id >= |kinds| then None
        else match SpecParser.Parsed(text, kinds[id]) case Ok(_, end) => Some(end) case _ => None,
      plain, styled)
  }

  /** Any legal specifiers make a field that both sides accept and format with exactly these specifiers. */
  lemma RenderedSpecsCompile(kinds: seq<SpecParser.Kind>, plain: nat -> string, styled: (nat, string) -> string, ps: seq<string>)
    requires kinds != [] && SpecParser.Legal(ps, kinds[0])
    ensures var env := BuiltIn(kinds, plain, styled); var s := "{:" + SpecParser.Render(ps) + "}";
      && Compiled(env, s) == Ok(SpecField(0, false, SpecParser.Render(ps)))
      && Calls(env, s, 0, 0, 0).Ok?
      && Output(env, Calls(env, s, 0, 0, 0).value) == styled(0, SpecParser.Render(ps))
  {
    hide SpecParser.Render, SpecParser.Effects, SpecParser.Parsed, SpecParser.Legal, Output, Fields, Paired;
    var env, spec := BuiltIn(kinds, plain, styled), SpecParser.Render(ps);
    var s := "{:" + spec + "}";
    SpecParser.RenderingsAreParsed(ps, "}", kinds[0]);
    assert s[2..] == spec + "}";
    assert env.specEnd(0, s[2..]) == Some(|spec|);
    assert s[2..][..|spec|] == spec && s[2 + |spec|] == '}' && |s| == 3 + |spec|;
    assert FieldThenTail(env, s, 1, 0, false, 1) == Ok(SpecField(0, false, spec));
    CompiledMeansTheSame(env, s);
    assert ReplacementField(env, s, 0, 0) == Ok(Field(OnSpecs(0, false, spec), |s|, 1));
  }
}
