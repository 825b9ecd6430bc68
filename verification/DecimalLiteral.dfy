/** The recogniser of decimal literals: a machine of labels and jumps against the grammar it implements. */
module DecimalLiteral {

  import opened Digits

  // The grammar, production by production.

  predicate PostE(s: string) {
    DigitSequence(s) || (s != "" && s[0] in "+-" && DigitSequence(s[1..]))
  }

  predicate ExponentPart(s: string) {
    s != "" && s[0] in "eE" && PostE(s[1..])
  }

  predicate ExponentPartOpt(s: string) {
    s == "" || ExponentPart(s)
  }

  predicate PostDecimalPoint(s: string) {
    exists k :: 0 <= k <= |s| && DigitSequence(s[..k]) && ExponentPartOpt(s[k..])
  }

  predicate FractionalPart(s: string) {
    s != "" && s[0] == '.' && PostDecimalPoint(s[1..])
  }

  predicate PointThenExponent(s: string) {
    s != "" && s[0] == '.' && ExponentPartOpt(s[1..])
  }

  /** One of the forms that begin with an integer part of length k. */
  predicate AfterInteger(s: string) {
    FractionalPart(s) || PointThenExponent(s) || ExponentPart(s)
  }

  predicate DecimalLiteral(s: string) {
    || s == "0"
    || (s != "" && IsDigit(s[0]) && s[0] != '0' && (s[1..] == "" || DigitSequence(s[1..])))
    || FractionalPart(s)
    || (exists k :: 0 <= k <= |s| && DigitSequence(s[..k]) && AfterInteger(s[k..]))
  }

  lemma AfterDigits(s: string)
    ensures PostDecimalPoint(s) <==> Leading(s) > 0 && ExponentPartOpt(s[Leading(s)..])
    ensures (exists k :: 0 <= k <= |s| && DigitSequence(s[..k]) && AfterInteger(s[k..]))
            <==> (Leading(s) > 0 && AfterInteger(s[Leading(s)..]))
  {
    GreedyPrefix(s);
    forall k | 0 <= k <= |s| && DigitSequence(s[..k]) && ExponentPartOpt(s[k..]) ensures k == Leading(s) {
      assert k < |s| ==> s[k..][0] == s[k];
      SplitIsGreedy(s, k);
    }
    forall k | 0 <= k <= |s| && DigitSequence(s[..k]) && AfterInteger(s[k..]) ensures k == Leading(s) {
      assert k < |s| ==> s[k..][0] == s[k];
      SplitIsGreedy(s, k);
    }
  }

  // The machine.

  datatype Label = Start | IntegerPart | IntegerPartConsumed | PostDecimalPointLabel | ExponentPartOptLabel | PostELabel

  /** What the rest of the input must be for the machine to accept from a label. */
  predicate Accepts(at: Label, s: string) {
    match at
    case Start => DecimalLiteral(s)
    case IntegerPart => AfterInteger(s[Leading(s)..])
    case IntegerPartConsumed => AfterInteger(s)
    case PostDecimalPointLabel => PostDecimalPoint(s)
    case ExponentPartOptLabel => ExponentPartOpt(s)
    case PostELabel => PostE(s)
  }

  function Rank(at: Label): nat {
    match at
    case Start => 5
    case IntegerPart => 4
    case IntegerPartConsumed => 3
    case PostDecimalPointLabel => 2
    case ExponentPartOptLabel => 1
    case PostELabel => 0
  }

  lemma StartsWithDigit(s: string)
    requires s != "" && IsDigit(s[0])
    ensures Leading(s) == 1 + Leading(s[1..]) && s[1..][Leading(s[1..])..] == s[Leading(s)..]
    ensures DecimalLiteral(s) <==>
            (if Leading(s) == |s| then s == "0" || s[0] != '0' else AfterInteger(s[Leading(s)..]))
  {
    AfterDigits(s);
    AllDigits(s[1..]);
    assert !FractionalPart(s);
  }

  lemma StartsOtherwise(s: string)
    requires s == "" || !IsDigit(s[0])
    ensures DecimalLiteral(s) <==> FractionalPart(s)
  {
    AfterDigits(s);
  }

  /** A digit after the point decides between the two forms that have a point. */
  lemma PointForms(s: string)
    requires s != "" && s[0] == '.'
    ensures AfterInteger(s) <==>
            (if s[1..] != "" && IsDigit(s[1]) then PostDecimalPoint(s[1..]) else ExponentPartOpt(s[1..]))
  {
    AfterDigits(s[1..]);
  }

  method ConsumeDigits(sd: string) returns (rest: string)
    ensures rest == sd[Leading(sd)..]
  {
    var it := 0;
    while it < |sd| && IsDigit(sd[it])
      invariant 0 <= it <= |sd|
      invariant Leading(sd) == it + Leading(sd[it..])
    {
      assert sd[it..][1..] == sd[it + 1..];
      it := it + 1;
    }
    rest := sd[it..];
  }

  method IsDecimalLiteral(input: string) returns (accepted: bool)
    ensures accepted <==> DecimalLiteral(input)
  {
    var s, at := input, Start;
    while true
      invariant DecimalLiteral(input) <==> Accepts(at, s)
      decreases Rank(at)
    {
      match at {
        case Start =>
          if s != "" && s[0] == '0' {
            StartsWithDigit(s);
            AllDigits(s[1..]);
            s := s[1..];
            if s == "" {
              return true;
            }
            at := IntegerPart;
          } else if s != "" && IsDigit(s[0]) {
            StartsWithDigit(s);
            s := ConsumeDigits(s);
            if s == "" {
              return true;
            }
            at := IntegerPartConsumed;
          } else if s != "" && s[0] == '.' {
            StartsOtherwise(s);
            s := s[1..];
            at := PostDecimalPointLabel;
          } else {
            StartsOtherwise(s);
            return false;
          }
        case IntegerPart =>
          s := ConsumeDigits(s);
          at := IntegerPartConsumed;
        case IntegerPartConsumed =>
          if s != "" && s[0] == '.' {
            PointForms(s);
            s := s[1..];
            at := if s != "" && IsDigit(s[0]) then PostDecimalPointLabel else ExponentPartOptLabel;
          } else if s != "" && s[0] in "eE" {
            s := s[1..];
            at := PostELabel;
          } else {
            return false;
          }
        case PostDecimalPointLabel =>
          AfterDigits(s);
          if s != "" && IsDigit(s[0]) {
            s := ConsumeDigits(s);
            at := ExponentPartOptLabel;
          } else {
            return false;
          }
        case ExponentPartOptLabel =>
          if s == "" {
            return true;
          } else if s[0] in "eE" {
            s := s[1..];
            at := PostELabel;
          } else {
            return false;
          }
        case PostELabel =>
          if s != "" && s[0] in "+-" {
            s := s[1..];
          }
          AllDigits(s);
          if s != "" && IsDigit(s[0]) {
            s := ConsumeDigits(s);
            return s == "";
          }
          return false;
      }
    }
  }
}
