/** The edit distance behind "did you mean": the dynamic-programming table, what its value means, and the
    search for the closest key. */
module EditDistance {

  function Min3(a: nat, b: nat, c: nat): nat {
    if a <= b && a <= c then a else if b <= c then b else c
  }

  function Init(s: string): string
    requires |s| > 0
  {
    s[..|s| - 1]
  }

  function Last(s: string): char
    requires |s| > 0
  {
    s[|s| - 1]
  }

  /** The recurrence of the table: equal last characters take the diagonal only. */
  function Distance(s: string, t: string): nat
    decreases |s| + |t|
  {
    if |s| == 0 then |t|
    else if |t| == 0 then |s|
    else if Last(s) == Last(t) then Distance(Init(s), Init(t))
    else 1 + Min3(Distance(Init(s), t), Distance(s, Init(t)), Distance(Init(s), Init(t)))
  }

  // The distance as a metric.

  lemma {:induction false} Symmetric(s: string, t: string)
    ensures Distance(s, t) == Distance(t, s)
    decreases |s| + |t|
  {
    if s != "" && t != "" {
      Symmetric(Init(s), t);
      Symmetric(s, Init(t));
      Symmetric(Init(s), Init(t));
    }
  }

  lemma {:induction false} ZeroIsEqual(s: string, t: string)
    ensures Distance(s, t) == 0 <==> s == t
    decreases |s| + |t|
  {
    if s != "" && t != "" {
      ZeroIsEqual(Init(s), Init(t));
      assert s == Init(s) + [Last(s)] && t == Init(t) + [Last(t)];
    }
  }

  /** A character more or less changes the distance by at most one. */
  lemma {:induction false} OneCharacter(s: string, t: string)
    requires s != ""
    ensures Distance(s, t) <= Distance(Init(s), t) + 1
    ensures Distance(Init(s), t) <= Distance(s, t) + 1
    decreases |s| + |t|
  {
    if t != "" {
      OneCharacter(s, Init(t));
      OneCharacter(t, Init(s));
      Symmetric(t, Init(s));
      Symmetric(Init(t), Init(s));
    }
  }

  lemma OneCharacterRight(s: string, t: string)
    requires t != ""
    ensures Distance(s, t) <= Distance(s, Init(t)) + 1
    ensures Distance(s, Init(t)) <= Distance(s, t) + 1
  {
    OneCharacter(t, s);
    Symmetric(s, t);
    Symmetric(s, Init(t));
  }

  /** Although equal characters take only the diagonal, no other way would have been shorter. */
  lemma AllThreeWays(s: string, t: string)
    requires |s| > 0 && |t| > 0
    ensures Distance(s, t) == Min3(
              1 + Distance(Init(s), t), 1 + Distance(s, Init(t)),
              Distance(Init(s), Init(t)) + (if Last(s) == Last(t) then 0 else 1))
  {
    hide Distance;
    OneCharacter(s, Init(t));
    OneCharacterRight(Init(s), t);
    Recurrence(s, t);
  }

  lemma Recurrence(s: string, t: string)
    requires |s| > 0 && |t| > 0
    ensures Last(s) == Last(t) ==> Distance(s, t) == Distance(Init(s), Init(t))
    ensures Last(s) != Last(t) ==>
      Distance(s, t) == 1 + Min3(Distance(Init(s), t), Distance(s, Init(t)), Distance(Init(s), Init(t)))
  {
  }

  lemma {:induction false} LengthBounds(s: string, t: string)
    ensures |t| <= |s| + Distance(s, t)
    ensures |s| <= |t| + Distance(s, t)
    ensures Distance(s, t) <= |s| || Distance(s, t) <= |t|
    decreases |s| + |t|
  {
    if s != "" && t != "" {
      LengthBounds(Init(s), t);
      LengthBounds(s, Init(t));
      LengthBounds(Init(s), Init(t));
    }
  }

  /** The last step of a shortest way from a to b and of one from b to c make a step from a to c. */
  lemma LastSteps(ac: nat, aIc: nat, acI: nat, aIcI: nat, ab: nat, aIb: nat, abI: nat, aIbI: nat,
                  bc: nat, bIc: nat, bcI: nat, bIcI: nat, x: char, y: char, z: char)
    requires ac == Min3(1 + aIc, 1 + acI, aIcI + (if x == z then 0 else 1))
    requires ab == Min3(1 + aIb, 1 + abI, aIbI + (if x == y then 0 else 1))
    requires bc == Min3(1 + bIc, 1 + bcI, bIcI + (if y == z then 0 else 1))
    requires aIc <= aIb + bc && acI <= ab + bcI && ac <= abI + bIc
    requires acI <= abI + bIcI && aIc <= aIbI + bIc && aIcI <= aIbI + bIcI
    ensures ac <= ab + bc
  {
  }

  lemma {:induction false} Triangle(a: string, b: string, c: string)
    ensures Distance(a, c) <= Distance(a, b) + Distance(b, c)
    decreases |a| + |b| + |c|
  {
    LengthBounds(a, b);
    LengthBounds(b, c);
    LengthBounds(a, c);
    if |a| > 0 && |b| > 0 && |c| > 0 {
      TriangleStep(a, b, c);
    }
  }

  lemma {:induction false} TriangleStep(a: string, b: string, c: string)
    requires |a| > 0 && |b| > 0 && |c| > 0
    ensures Distance(a, c) <= Distance(a, b) + Distance(b, c)
    decreases |a| + |b| + |c|, 0
  {
    hide Distance;
    Triangle(Init(a), b, c);
    Triangle(a, b, Init(c));
    Triangle(a, Init(b), c);
    Triangle(a, Init(b), Init(c));
    Triangle(Init(a), Init(b), c);
    Triangle(Init(a), Init(b), Init(c));
    AllThreeWays(a, c);
    AllThreeWays(a, b);
    AllThreeWays(b, c);
    LastSteps(
      Distance(a, c), Distance(Init(a), c), Distance(a, Init(c)), Distance(Init(a), Init(c)),
      Distance(a, b), Distance(Init(a), b), Distance(a, Init(b)), Distance(Init(a), Init(b)),
      Distance(b, c), Distance(Init(b), c), Distance(b, Init(c)), Distance(Init(b), Init(c)),
      Last(a), Last(b), Last(c));
  }

  // Edit scripts.

  datatype Edit = Insert(at: nat, c: char) | Delete(at: nat) | Substitute(at: nat, c: char)

  predicate Applicable(e: Edit, s: string) {
    if e.Insert? then e.at <= |s| else e.at < |s|
  }

  function ApplyOne(e: Edit, s: string): string
    requires Applicable(e, s)
  {
    match e
    case Insert(at, c) => s[..at] + [c] + s[at..]
    case Delete(at) => s[..at] + s[at + 1..]
    case Substitute(at, c) => s[..at] + [c] + s[at + 1..]
  }

  /** The edits one after the other turn s into t. */
  predicate Turns(script: seq<Edit>, s: string, t: string) {
    if script == [] then s == t
    else Applicable(script[0], s) && Turns(script[1..], ApplyOne(script[0], s), t)
  }

  lemma {:induction false} CommonSuffix(s: string, t: string, q: string)
    ensures Distance(s + q, t + q) == Distance(s, t)
  {
    if q == "" {
      assert s + q == s && t + q == t;
    } else {
      assert Init(s + q) == s + Init(q) && Init(t + q) == t + Init(q);
      CommonSuffix(s, t, Init(q));
    }
  }

  lemma OneEdit(e: Edit, s: string)
    requires Applicable(e, s)
    ensures Distance(s, ApplyOne(e, s)) <= 1
  {
    var p := s[..e.at];
    ZeroIsEqual(p, p);
    match e {
      case Insert(at, c) =>
        assert s == p + s[at..];
        assert Init(p + [c]) == p;
        CommonSuffix(p, p + [c], s[at..]);
        OneCharacterRight(p, p + [c]);
      case Delete(at) =>
        var px := s[..at + 1];
        assert s == px + s[at + 1..] && Init(px) == p;
        CommonSuffix(px, p, s[at + 1..]);
        OneCharacter(px, p);
      case Substitute(at, c) =>
        var px := s[..at + 1];
        assert s == px + s[at + 1..] && Init(px) == p && Init(p + [c]) == p;
        CommonSuffix(px, p + [c], s[at + 1..]);
        AllThreeWays(px, p + [c]);
    }
  }

  /** No script, in whatever order and with whatever detours, is shorter than the distance. */
  lemma {:induction false} NoShorterScript(script: seq<Edit>, s: string, t: string)
    requires Turns(script, s, t)
    ensures |script| >= Distance(s, t)
  {
    if script == [] {
      ZeroIsEqual(s, t);
    } else {
      var s' := ApplyOne(script[0], s);
      NoShorterScript(script[1..], s', t);
      OneEdit(script[0], s);
      Triangle(s, s', t);
    }
  }

  lemma ApplyInFront(e: Edit, s: string, q: string)
    requires Applicable(e, s)
    ensures Applicable(e, s + q) && ApplyOne(e, s + q) == ApplyOne(e, s) + q
  {
    assert (s + q)[..e.at] == s[..e.at];
    assert (s + q)[e.at..] == s[e.at..] + q;
    if !e.Insert? {
      assert (s + q)[e.at + 1..] == s[e.at + 1..] + q;
    }
  }

  lemma {:induction false} TurnsWithSuffix(script: seq<Edit>, s: string, t: string, q: string)
    requires Turns(script, s, t)
    ensures Turns(script, s + q, t + q)
  {
    if script != [] {
      hide ApplyOne;
      var e := script[0];
      ApplyInFront(e, s, q);
      TurnsWithSuffix(script[1..], ApplyOne(e, s), t, q);
    }
  }

  lemma {:induction false} TurnsThen(script: seq<Edit>, s: string, t: string, e: Edit)
    requires Turns(script, s, t) && Applicable(e, t)
    ensures Turns(script + [e], s, ApplyOne(e, t))
  {
    if script == [] {
      assert (script + [e])[1..] == [];
    } else {
      TurnsThen(script[1..], ApplyOne(script[0], s), t, e);
      assert (script + [e])[1..] == script[1..] + [e];
    }
  }

  /** The three edits at the end of a string. */
  lemma AtTheEnd(p: string, c: char, d: char)
    ensures Applicable(Insert(|p|, c), p) && ApplyOne(Insert(|p|, c), p) == p + [c]
    ensures Applicable(Delete(|p|), p + [c]) && ApplyOne(Delete(|p|), p + [c]) == p
    ensures Applicable(Substitute(|p|, d), p + [c]) && ApplyOne(Substitute(|p|, d), p + [c]) == p + [d]
  {
  }

  lemma ThenInsert(script: seq<Edit>, s: string, t: string)
    requires t != "" && Turns(script, s, Init(t))
    ensures Turns(script + [Insert(|t| - 1, Last(t))], s, t)
  {
    hide Applicable, ApplyOne, Turns;
    AtTheEnd(Init(t), Last(t), Last(t));
    assert Init(t) + [Last(t)] == t;
    TurnsThen(script, s, Init(t), Insert(|t| - 1, Last(t)));
  }

  lemma ThenDelete(script: seq<Edit>, s: string, t: string)
    requires s != "" && Turns(script, Init(s), t)
    ensures Turns(script + [Delete(|t|)], s, t)
  {
    hide Applicable, ApplyOne, Turns;
    AtTheEnd(t, Last(s), Last(s));
    assert Init(s) + [Last(s)] == s;
    TurnsWithSuffix(script, Init(s), t, [Last(s)]);
    TurnsThen(script, s, t + [Last(s)], Delete(|t|));
  }

  lemma ThenSubstitute(script: seq<Edit>, s: string, t: string)
    requires s != "" && t != "" && Turns(script, Init(s), Init(t))
    ensures Turns(script + [Substitute(|t| - 1, Last(t))], s, t)
    ensures Last(s) == Last(t) ==> Turns(script, s, t)
  {
    hide Applicable, ApplyOne, Turns;
    AtTheEnd(Init(t), Last(s), Last(t));
    assert Init(s) + [Last(s)] == s && Init(t) + [Last(t)] == t;
    TurnsWithSuffix(script, Init(s), Init(t), [Last(s)]);
    TurnsThen(script, s, Init(t) + [Last(s)], Substitute(|t| - 1, Last(t)));
  }

  /** The distance is reached. */
  lemma {:induction false} ShortestScript(s: string, t: string) returns (script: seq<Edit>)
    ensures Turns(script, s, t) && |script| == Distance(s, t)
    decreases |s| + |t|
  {
    if s == "" && t == "" {
      script := [];
    } else if s == "" || (t != "" && Last(s) != Last(t) && Distance(s, t) == 1 + Distance(s, Init(t))) {
      var shorter := ShortestScript(s, Init(t));
      ThenInsert(shorter, s, t);
      script := shorter + [Insert(|t| - 1, Last(t))];
    } else if t == "" || (Last(s) != Last(t) && Distance(s, t) == 1 + Distance(Init(s), t)) {
      var shorter := ShortestScript(Init(s), t);
      ThenDelete(shorter, s, t);
      script := shorter + [Delete(|t|)];
    } else {
      var shorter := ShortestScript(Init(s), Init(t));
      ThenSubstitute(shorter, s, t);
      script := if Last(s) == Last(t) then shorter else shorter + [Substitute(|t| - 1, Last(t))];
    }
  }

  /** The distance is the length of a shortest script. */
  lemma DistanceIsLeast(s: string, t: string, n: nat)
    ensures n == Distance(s, t) <==>
      && (exists script :: Turns(script, s, t) && |script| == n)
      && (forall script :: Turns(script, s, t) ==> |script| >= n)
  {
    var shortest := ShortestScript(s, t);
    forall script | Turns(script, s, t) ensures |script| >= Distance(s, t) {
      NoShorterScript(script, s, t);
    }
    assert Turns(shortest, s, t);
  }

  // The procedures.

  /** The recurrence in terms of prefixes. */
  lemma CellRecurrence(s: string, t: string, i: nat, j: nat)
    requires i <= |s| && j <= |t|
    ensures i == 0 ==> Distance(s[..i], t[..j]) == j
    ensures j == 0 ==> Distance(s[..i], t[..j]) == i
    ensures i > 0 && j > 0 ==>
      Distance(s[..i], t[..j]) ==
        if s[i - 1] == t[j - 1] then Distance(s[..i - 1], t[..j - 1])
        else 1 + Min3(Distance(s[..i - 1], t[..j]), Distance(s[..i], t[..j - 1]), Distance(s[..i - 1], t[..j - 1]))
  {
    if i > 0 && j > 0 {
      hide Distance;
      Recurrence(s[..i], t[..j]);
      assert Init(s[..i]) == s[..i - 1] && Init(t[..j]) == t[..j - 1];
    }
  }

  method LevenshteinDistance(s1: string, s2: string) returns (d: nat)
    ensures d == Distance(s1, s2)
  {
    hide Distance;
    var dp := new nat[|s1| + 1, |s2| + 1];
    var i := 0;
    while i <= |s1|
      invariant 0 <= i <= |s1| + 1
      invariant forall a, b :: 0 <= a < i && 0 <= b <= |s2| ==> dp[a, b] == Distance(s1[..a], s2[..b])
    {
      var j := 0;
      while j <= |s2|
        invariant 0 <= j <= |s2| + 1
        invariant forall a, b :: 0 <= a < i && 0 <= b <= |s2| ==> dp[a, b] == Distance(s1[..a], s2[..b])
        invariant forall b :: 0 <= b < j ==> dp[i, b] == Distance(s1[..i], s2[..b])
      {
        CellRecurrence(s1, s2, i, j);
        if i == 0 {
          dp[i, j] := j;
        } else if j == 0 {
          dp[i, j] := i;
        } else {
          if s1[i - 1] == s2[j - 1] {
            dp[i, j] := dp[i - 1, j - 1];
          } else {
            dp[i, j] := 1 + Min3(dp[i - 1, j], dp[i, j - 1], dp[i - 1, j - 1]);
          }
        }
        j := j + 1;
      }
      i := i + 1;
    }
    assert s1[..|s1|] == s1 && s2[..|s2|] == s2;
    d := dp[|s1|, |s2|];
  }

  const SIZE_MAX: nat := 0xffff_ffff_ffff_ffff

  ghost predicate FirstClosest(keys: seq<string>, input: string, i: nat)
    requires i < |keys|
  {
    && (forall j :: 0 <= j < |keys| ==> Distance(keys[i], input) <= Distance(keys[j], input))
    && (forall j :: 0 <= j < i ==> Distance(keys[i], input) < Distance(keys[j], input))
  }

  /** `keys` are the keys of a map in its order; no string is SIZE_MAX characters long. The first of the
      closest keys is returned, and nothing only for an empty map. */
  method MostSimilarString(keys: seq<string>, input: string) returns (mostSimilar: string)
    requires |input| < SIZE_MAX && forall k :: k in keys ==> |k| < SIZE_MAX
    ensures keys == [] ==> mostSimilar == ""
    ensures keys != [] ==> exists i :: 0 <= i < |keys| && keys[i] == mostSimilar && FirstClosest(keys, input, i)
  {
    mostSimilar := "";
    var minDistance := SIZE_MAX;
    ghost var at := 0;
    var n := 0;
    while n < |keys|
      invariant 0 <= n <= |keys|
      invariant n == 0 ==> mostSimilar == "" && minDistance == SIZE_MAX
      invariant n > 0 ==> 0 <= at < n && keys[at] == mostSimilar && minDistance == Distance(mostSimilar, input)
      invariant forall j :: 0 <= j < n ==> minDistance <= Distance(keys[j], input)
      invariant forall j :: 0 <= j < at && j < n ==> minDistance < Distance(keys[j], input)
    {
      var distance := LevenshteinDistance(keys[n], input);
      LengthBounds(keys[n], input);
      assert keys[n] in keys;
      if distance < minDistance {
        minDistance := distance;
        mostSimilar := keys[n];
        at := n;
      }
      n := n + 1;
    }
  }
}
