/** The lexical predicates of NameCheckerASTVisitor and the six per-category
    validators built from them (name-checker.cc:307-406). Predicates that the
    source writes as a counting loop (IsSnakeCase, IsUpperRule) are given here
    twice: a declarative predicate that the validators use, and a method with
    the source's loop that is proved to compute it. */
module NameRules {
  import opened Ascii

  /** No underscore anywhere (name-checker.cc:307-314). */
  function IsCamelCase(s: string): (b: bool)
    ensures b <==> '_' !in s
  {
    forall i :: 0 <= i < |s| ==> s[i] != '_'
  }

  /** The first character is its own upper-case form (name-checker.cc:316-318). */
  function IsCapitalized(s: string): (b: bool)
    requires |s| > 0
    ensures b <==> !IsLowerLetter(s[0])
  {
    s[0] == ToUpper(s[0])
  }

  /** The constant marker: a leading 'k' (name-checker.cc:320-322). */
  function IsConstant(s: string): (b: bool)
    requires |s| > 0
    ensures b ==> !IsCapitalized(s) && !IsUpperCase(s)
  {
    s[0] == 'k'
  }

  /** The field marker: a trailing '_' (name-checker.cc:324-326). */
  function IsField(s: string): (b: bool)
    requires |s| > 0
    ensures b ==> !IsCamelCase(s)
  {
    s[|s| - 1] == '_'
  }

  /** Every character is its own upper-case form (name-checker.cc:350-357). */
  function IsUpperCase(s: string): (b: bool)
    ensures b <==> forall i :: 0 <= i < |s| ==> !IsLowerLetter(s[i])
  {
    forall i :: 0 <= i < |s| ==> s[i] == ToUpper(s[i])
  }

  // ---------------------------------------------------------------------------
  // Snake case

  /** A character snake case admits: its own lower-case form and not a digit. */
  predicate SnakeChar(c: char) {
    c == ToLower(c) && !IsDigit(c)
  }

  /** Snake case: no leading '_', only lower-case, non-digit characters, and
      never two '_' in a row (name-checker.cc:328-348). Equivalently: no
      capital and no digit, and every '_' follows a character other than '_'. */
  function SnakeCase(s: string): (b: bool)
    requires |s| > 0
    ensures b <==> SnakeByCharacters(s)
  {
    SnakeCaseByCharacters(s);
    s[0] != '_'
    && (forall i :: 0 <= i < |s| ==> SnakeChar(s[i]))
    && (forall i :: 0 <= i < |s| - 1 ==> !(s[i] == '_' && s[i + 1] == '_'))
  }

  /** The character-by-character reading of snake case. */
  predicate SnakeByCharacters(s: string) {
    forall i {:trigger s[i]} :: 0 <= i < |s| ==>
      !IsUpperLetter(s[i]) && !IsDigit(s[i]) && (s[i] == '_' ==> i > 0 && s[i - 1] != '_')
  }

  lemma SnakeCaseByCharacters(s: string)
    requires |s| > 0
    ensures (s[0] != '_'
             && (forall i :: 0 <= i < |s| ==> SnakeChar(s[i]))
             && (forall i :: 0 <= i < |s| - 1 ==> !(s[i] == '_' && s[i + 1] == '_')))
        <==> SnakeByCharacters(s)
  {
    forall i | 0 <= i < |s|
      ensures SnakeChar(s[i]) <==> !IsUpperLetter(s[i]) && !IsDigit(s[i])
    {
      CaseFixedPoints(s[i]);
    }
    if SnakeByCharacters(s) {
      assert s[0] != '_';
      forall i | 0 <= i < |s| - 1
        ensures !(s[i] == '_' && s[i + 1] == '_')
      {
        assert s[i + 1] == '_' ==> s[(i + 1) - 1] != '_';
      }
    }
  }

  /** The source's scan: `length` counts the '_' just seen; a second one in a
      row, an upper-case letter or a digit rejects (name-checker.cc:328-348). */
  method IsSnakeCase(s: string) returns (ok: bool)
    requires |s| > 0
    ensures ok == SnakeCase(s)
  {
    if s[0] == '_' {
      return false;
    }
    var length := 0;
    var i := 0;
    while i < |s|
      invariant 0 <= i <= |s|
      invariant length == if i > 0 && s[i - 1] == '_' then 1 else 0
      invariant forall j :: 0 <= j < i ==> SnakeChar(s[j])
      invariant forall j :: 0 <= j < i - 1 ==> !(s[j] == '_' && s[j + 1] == '_')
    {
      var c := s[i];
      if c != ToLower(c) || IsDigit(c) {
        return false;
      }
      length := if c == '_' then length + 1 else 0;
      if length > 1 {
        assert s[i - 1] == '_' && s[i] == '_';
        return false;
      }
      i := i + 1;
    }
    return true;
  }

  // ---------------------------------------------------------------------------
  // The upper-run ("acronym") rule

  /** A character that extends a run: its own upper-case form and not a digit.
      Besides capitals this admits '_' and every other non-letter. */
  predicate Qualifies(c: char) {
    c == ToUpper(c) && !IsDigit(c)
  }

  /** The length of the maximal run of qualifying characters that ends `s`. */
  function TrailingRun(s: string): (n: nat)
    ensures n <= |s|
  {
    if |s| == 0 || !Qualifies(s[|s| - 1]) then 0 else TrailingRun(s[..|s| - 1]) + 1
  }

  /** The final run stops at a character that does not qualify, unless it is
      the whole string. */
  lemma {:induction false} TrailingRunStops(s: string)
    ensures TrailingRun(s) < |s| ==> !Qualifies(s[|s| - 1 - TrailingRun(s)])
  {
    if |s| > 0 && Qualifies(s[|s| - 1]) {
      var p := s[..|s| - 1];
      TrailingRunStops(p);
      if TrailingRun(p) < |p| {
        assert p[|p| - 1 - TrailingRun(p)] == s[|s| - 1 - TrailingRun(s)];
      }
    }
  }

  /** The upper-run rule (name-checker.cc:359-376): no run of exactly two
      qualifying characters is closed by a non-qualifying one, the final run
      is not one or two characters long, and the final run is not the whole
      string. A name it accepts holds a character that is not a capital: a
      lower-case letter or a digit. */
  function UpperRule(s: string): (b: bool)
    ensures b ==> exists i :: 0 <= i < |s| && !Qualifies(s[i])
  {
    TrailingRunStops(s);
    (forall i :: 0 <= i < |s| && !Qualifies(s[i]) ==> TrailingRun(s[..i]) != 2)
    && !(0 < TrailingRun(s) < 3)
    && TrailingRun(s) != |s|
  }

  /** The source's scan: `length` is the current run; closing a run of two
      rejects at once; the final run is judged after the loop. */
  method IsUpperRule(s: string) returns (ok: bool)
    ensures ok == UpperRule(s)
  {
    var length := 0;
    var i := 0;
    while i < |s|
      invariant 0 <= i <= |s|
      invariant length == TrailingRun(s[..i])
      invariant forall j :: 0 <= j < i && !Qualifies(s[j]) ==> TrailingRun(s[..j]) != 2
    {
      var c := s[i];
      assert s[..i + 1][..i] == s[..i];
      if c == ToUpper(c) && !IsDigit(c) {
        length := length + 1;
      } else if length > 1 && length < 3 {
        assert !Qualifies(s[i]) && TrailingRun(s[..i]) == 2;
        return false;
      } else {
        length := 0;
      }
      i := i + 1;
    }
    assert s[..i] == s;
    if length > 0 && length < 3 {
      return false;
    }
    return length != |s|;
  }

  // ---------------------------------------------------------------------------
  // Validators: the empty name is exempt from every rule (name-checker.cc:378-406).

  /** A good type name starts with no lower-case letter, has no '_', and
      holds at least one lower-case letter or digit. */
  function CheckTypeName(s: string): (b: bool)
    ensures |s| == 0 ==> b
    ensures b && |s| > 0 ==>
              && !IsLowerLetter(s[0]) && '_' !in s
              && exists i :: 0 <= i < |s| && (IsLowerLetter(s[i]) || IsDigit(s[i]))
  {
    |s| == 0 || (IsCapitalized(s) && IsCamelCase(s) && UpperRule(s))
  }

  /** Function names follow the type-name rule, with "main" exempt. */
  function CheckFunctionName(s: string): (b: bool)
    ensures b <==> s == "main" || CheckTypeName(s)
  {
    if s == "main" then true
    else |s| == 0 || (IsCapitalized(s) && IsCamelCase(s) && UpperRule(s))
  }

  /** A good constant name is never written all upper-case, and is never a
      good type name. */
  function CheckConstantName(s: string): (b: bool)
    ensures |s| == 0 ==> b
    ensures b && |s| > 0 ==> !IsUpperCase(s) && !CheckTypeName(s)
  {
    |s| == 0 || (IsConstant(s) && IsCamelCase(s))
  }

  /** An enumerator is a good constant name or written all upper-case. */
  function CheckEnumConstantName(s: string): (b: bool)
    ensures b <==> CheckConstantName(s) || IsUpperCase(s)
  {
    |s| == 0 || ((IsConstant(s) && IsCamelCase(s)) || IsUpperCase(s))
  }

  /** A good variable name stays snake case with a '_' added. */
  function CheckVarName(s: string): (b: bool)
    ensures |s| == 0 ==> b
    ensures b && |s| > 0 ==> SnakeCase(s + "_")
  {
    |s| == 0 || (!IsField(s) && SnakeCase(s))
  }

  /** A good field name is a good variable name followed by one '_'. */
  function CheckFieldName(s: string): (b: bool)
    ensures |s| == 0 ==> b
    ensures b && |s| > 0 ==> |s| >= 2 && s[|s| - 1] == '_' && CheckVarName(s[..|s| - 1])
  {
    |s| == 0 || (IsField(s) && SnakeCase(s))
  }
}
