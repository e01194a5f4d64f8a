/** Properties of the naming rules: what each validator accepts and rejects,
    how the validators relate to each other, and the run structure behind the
    upper-run rule. */
module NameRuleFacts {
  import opened Ascii
  import opened NameRules

  /** Every validator exempts the empty name, and "main" is always a good
      function name (name-checker.cc:378-406). */
  lemma EmptyNameExempt()
    ensures CheckTypeName("") && CheckFunctionName("") && CheckConstantName("")
    ensures CheckEnumConstantName("") && CheckVarName("") && CheckFieldName("")
    ensures CheckFunctionName("main")
  {
  }

  /** Apart from "main", function names follow the type-name rule
      (name-checker.cc:378-389). */
  lemma FunctionNameIsTypeName(s: string)
    ensures CheckFunctionName(s) <==> s == "main" || CheckTypeName(s)
  {
  }

  /** A non-empty name is never both a good variable name and a good field
      name; together the two rules accept exactly the snake-case names
      (name-checker.cc:400-406). */
  lemma VarAndFieldPartitionSnakeCase(s: string)
    requires |s| > 0
    ensures !(CheckVarName(s) && CheckFieldName(s))
    ensures CheckVarName(s) || CheckFieldName(s) <==> SnakeCase(s)
  {
  }

  predicate IsIdentifierChar(c: char) {
    IsLowerLetter(c) || IsUpperLetter(c) || IsDigit(c) || c == '_'
  }

  /** For names of ASCII letters, digits and '_', no non-empty name is both
      a good type name and a good variable name: the first must start with a
      capital, a digit or '_', all of which snake case refuses. */
  lemma TypeAndVariableDisjoint(s: string)
    requires |s| > 0 && forall i :: 0 <= i < |s| ==> IsIdentifierChar(s[i])
    ensures !(CheckTypeName(s) && CheckVarName(s))
  {
    assert IsIdentifierChar(s[0]);
  }

  /** A good constant name is a good enum-constant name; an enumerator may
      also be written all upper-case, a constant may not
      (name-checker.cc:391-398). */
  lemma ConstantAndEnumConstant(s: string)
    ensures CheckConstantName(s) ==> CheckEnumConstantName(s)
    ensures IsUpperCase(s) ==> CheckEnumConstantName(s)
    ensures CheckConstantName(s) && |s| > 0 ==> s[0] == 'k' && IsCamelCase(s)
  {
  }

  lemma UpperCaseEnumConstantOnly()
    ensures CheckEnumConstantName("ABC") && !CheckConstantName("ABC")
    ensures CheckEnumConstantName("kAbc") && CheckConstantName("kAbc")
  {
    assert "ABC"[0] != 'k';
  }

  /** Snake case keeps a single trailing '_': a snake-case name that does not
      end in '_' is still snake case with one added, which is what makes a
      good field name out of a good variable name. */
  lemma SnakeCaseAllowsTrailingUnderscore(s: string)
    requires |s| > 0 && SnakeCase(s) && s[|s| - 1] != '_'
    ensures SnakeCase(s + "_")
    ensures CheckVarName(s) && CheckFieldName(s + "_")
  {
  }

  lemma SnakeCaseExamples()
    ensures SnakeCase("just_few_words")
    ensures !SnakeCase("just__few_words")
    ensures !SnakeCase("_hello_world")
    ensures !SnakeCase("a1")
    ensures !SnakeCase("Wrong")
  {
    var w := "just__few_words";
    assert w[4] == '_' && w[5] == '_';
    assert !SnakeChar("a1"[1]);
    assert !SnakeChar("Wrong"[0]);
  }

  // ---------------------------------------------------------------------------
  // The upper-run rule

  /** TrailingRun measures exactly the qualifying suffix: when the last `k`
      characters qualify and the one before them does not (or there is none),
      the final run is `k` long. */
  lemma {:induction false} TrailingRunExact(s: string, k: nat)
    requires k <= |s|
    requires forall i :: |s| - k <= i < |s| ==> Qualifies(s[i])
    requires k < |s| ==> !Qualifies(s[|s| - 1 - k])
    ensures TrailingRun(s) == k
  {
    if k > 0 {
      var p := s[..|s| - 1];
      assert forall i :: |p| - (k - 1) <= i < |p| ==> p[i] == s[i];
      TrailingRunExact(p, k - 1);
    }
  }

  /** A name that is one uninterrupted run is rejected, e.g. "BIGNAME"
      (name-checker.cc:375). */
  lemma WholeRunRejected(s: string)
    requires forall i :: 0 <= i < |s| ==> Qualifies(s[i])
    ensures !UpperRule(s)
  {
    TrailingRunExact(s, |s|);
  }

  /** A name whose final run is one or two characters long is rejected, e.g.
      "F" and "Name2D" (name-checker.cc:371-373). */
  lemma ShortFinalRunRejected(s: string, k: nat)
    requires 0 < k < 3 && k <= |s|
    requires forall i :: |s| - k <= i < |s| ==> Qualifies(s[i])
    requires k < |s| ==> !Qualifies(s[|s| - 1 - k])
    ensures !UpperRule(s)
  {
    TrailingRunExact(s, k);
  }

  /** A run of exactly two qualifying characters closed by a non-qualifying
      one is rejected wherever it stands, e.g. "ABcd" (name-checker.cc:364-365). */
  lemma PairClosedRejected(p: string, a: char, b: char, c: char, t: string)
    requires Qualifies(a) && Qualifies(b) && !Qualifies(c)
    requires |p| > 0 ==> !Qualifies(p[|p| - 1])
    ensures !UpperRule(p + [a, b, c] + t)
  {
    var s := p + [a, b, c] + t;
    var i := |p| + 2;
    assert s[..i] == p + [a, b];
    TrailingRunExact(p + [a, b], 2);
    assert !Qualifies(s[i]) && TrailingRun(s[..i]) == 2;
  }

  /** No two qualifying characters stand side by side. */
  predicate NoAdjacentQualifying(w: string) {
    forall i :: 0 <= i < |w| - 1 ==> !(Qualifies(w[i]) && Qualifies(w[i + 1]))
  }

  /** Where no two qualifying characters are adjacent, every run before a
      position is at most one character long. */
  lemma RunsAtMostOne(w: string, i: nat)
    requires NoAdjacentQualifying(w) && i <= |w|
    ensures TrailingRun(w[..i]) <= 1
  {
  }

  /** Capitals that stand alone are always accepted: a name whose last
      character does not qualify and in which no two qualifying characters
      are adjacent satisfies the rule, e.g. "DeeeeeepThought". */
  lemma SingleCapitalsAccepted(s: string)
    requires |s| > 0 && !Qualifies(s[|s| - 1]) && NoAdjacentQualifying(s)
    ensures UpperRule(s)
  {
  }

  /** An acronym of three or more qualifying characters may open a name that
      goes on with single capitals and ends in a non-qualifying character,
      e.g. "ABCCase". */
  lemma AcronymPrefixAccepted(a: string, w: string)
    requires |a| >= 3 && forall i :: 0 <= i < |a| ==> Qualifies(a[i])
    requires |w| > 0 && !Qualifies(w[0]) && !Qualifies(w[|w| - 1]) && NoAdjacentQualifying(w)
    ensures UpperRule(a + w)
  {
    var s := a + w;
    forall i | 0 <= i < |s| && !Qualifies(s[i])
      ensures TrailingRun(s[..i]) != 2
    {
      if i <= |a| {
        assert s[..i] == a[..i];
        TrailingRunExact(s[..i], i);
      } else if Qualifies(s[i - 1]) {
        assert s[i - 1] == w[i - 1 - |a|] && s[i - 2] == w[i - 2 - |a|];
        TrailingRunExact(s[..i], 1);
      } else {
        TrailingRunExact(s[..i], 0);
      }
    }
    TrailingRunExact(s, 0);
  }

  /** An acronym of three or more qualifying characters may close a name
      that starts with single capitals, e.g. "BuildDSU". */
  lemma AcronymSuffixAccepted(w: string, a: string)
    requires |w| > 0 && !Qualifies(w[|w| - 1]) && NoAdjacentQualifying(w)
    requires |a| >= 3 && forall i :: 0 <= i < |a| ==> Qualifies(a[i])
    ensures UpperRule(w + a)
  {
    var s := w + a;
    forall i | 0 <= i < |s| && !Qualifies(s[i])
      ensures TrailingRun(s[..i]) != 2
    {
      assert i < |w| && s[..i] == w[..i];
      RunsAtMostOne(w, i);
    }
    TrailingRunExact(s, |a|);
  }

  lemma UpperRuleExamples()
    ensures !UpperRule("F")
    ensures !UpperRule("Name2D")
    ensures !UpperRule("ABcd")
    ensures !UpperRule("BIGNAME")
    ensures !UpperRule("JustAStruct")
  {
    ShortFinalRunRejected("F", 1);
    ShortFinalRunRejected("Name2D", 1);
    PairClosedRejected("", 'A', 'B', 'c', "d");
    assert "" + ['A', 'B', 'c'] + "d" == "ABcd";
    WholeRunRejected("BIGNAME");
    PairClosedRejected("Just", 'A', 'S', 't', "ruct");
    assert "Just" + ['A', 'S', 't'] + "ruct" == "JustAStruct";
  }

  lemma UpperRuleAcceptedExamples()
    ensures UpperRule("ABCCase")
    ensures UpperRule("BuildDSU")
  {
    AcronymPrefixAccepted("ABCC", "ase");
    assert "ABCC" + "ase" == "ABCCase";
    AcronymSuffixAccepted("Build", "DSU");
    assert "Build" + "DSU" == "BuildDSU";
  }

  /** The names declared in the struct of example.cc:34-42, judged by the
      rules its declarations are checked with. */
  lemma StructMemberNames()
    ensures !CheckTypeName("JustAStruct")
    ensures CheckVarName("ok_field")
    ensures !CheckVarName("bad_field_")
    ensures !CheckVarName("kGood")
    ensures !CheckFunctionName("size")
  {
    PairClosedRejected("Just", 'A', 'S', 't', "ruct");
    assert "Just" + ['A', 'S', 't'] + "ruct" == "JustAStruct";
    assert SnakeCase("ok_field");
    assert !SnakeChar("kGood"[1]);
    assert !IsCapitalized("size");
  }
}
