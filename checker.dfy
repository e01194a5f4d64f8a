/** The per-file pass: the queue of bad names that the visitor fills
    (ReportBadName, name-checker.cc:287-305) and that the frontend action
    drains and prints when the source file ends (EndSourceFileAction,
    name-checker.cc:436-446). */
module Checker {
  import opened Report
  import opened Classification
  import NameRuleFacts

  /** The entries a stream of declarations adds, in stream order. */
  function Violations(ds: seq<Descriptor>): seq<BadNameEntry> {
    if ds == [] then [] else Violations(ds[..|ds| - 1]) + Violation(ds[|ds| - 1])
  }

  /** The declarations of a stream that are checked at all. */
  function CheckedOnly(ds: seq<Descriptor>): (r: seq<Descriptor>)
    ensures forall i :: 0 <= i < |r| ==> Checked(r[i])
  {
    if ds == [] then []
    else CheckedOnly(ds[..|ds| - 1]) + (if Checked(ds[|ds| - 1]) then [ds[|ds| - 1]] else [])
  }

  /** Declarations outside the main file or from a macro expansion add
      nothing: the entries of a stream are those of its checked part. */
  lemma {:induction false} ViolationsIgnoreUnchecked(ds: seq<Descriptor>)
    ensures Violations(ds) == Violations(CheckedOnly(ds))
  {
    if ds != [] {
      var p, d := ds[..|ds| - 1], ds[|ds| - 1];
      ViolationsIgnoreUnchecked(p);
      ViolationsAppend(CheckedOnly(p), if Checked(d) then [d] else []);
    }
  }

  /** The entries of two streams one after the other are the entries of the
      first followed by those of the second. */
  lemma {:induction false} ViolationsAppend(a: seq<Descriptor>, b: seq<Descriptor>)
    ensures Violations(a + b) == Violations(a) + Violations(b)
  {
    if b != [] {
      var p := b[..|b| - 1];
      assert (a + b)[..|a + b| - 1] == a + p;
      ViolationsAppend(a, p);
    } else {
      assert a + b == a;
    }
  }

  /** Each entry a stream adds stems from a checked declaration of it that
      failed its rule, and carries that declaration's start file and line. */
  lemma {:induction false} ViolationsFromFailedChecks(ds: seq<Descriptor>, k: nat)
    requires k < |Violations(ds)|
    ensures exists i :: (0 <= i < |ds| && Checked(ds[i])
      && Classify(ds[i]).value == Verdict(Violations(ds)[k].entity, Violations(ds)[k].name, false)
      && Violations(ds)[k].filename == ds[i].startFile && Violations(ds)[k].line == ds[i].startLine)
  {
    var p, d := ds[..|ds| - 1], ds[|ds| - 1];
    if k < |Violations(p)| {
      ViolationsFromFailedChecks(p, k);
      var i :| 0 <= i < |p| && Checked(p[i])
        && Classify(p[i]).value == Verdict(Violations(p)[k].entity, Violations(p)[k].name, false)
        && Violations(p)[k].filename == p[i].startFile && Violations(p)[k].line == p[i].startLine;
      assert ds[i] == p[i];
    } else {
      assert Violations(ds)[k] == Violation(d)[0];
      assert ds[|ds| - 1] == d;
    }
  }

  /** Conversely, each checked declaration that fails its rule adds its own
      entry, right after the entries of the declarations before it. */
  lemma {:induction false} FailedCheckQueued(ds: seq<Descriptor>, i: nat)
    requires i < |ds| && Fails(ds[i])
    ensures |Violations(ds[..i])| < |Violations(ds)|
    ensures Violations(ds)[|Violations(ds[..i])|]
      == BadNameEntry(Classify(ds[i]).value.entity, Classify(ds[i]).value.name, ds[i].startFile, ds[i].startLine)
  {
    var p, d, rest := ds[..i], ds[i], ds[i + 1..];
    assert ds == p + [d] + rest;
    assert [d][..0] == [];
    assert Violations([d]) == Violation(d);
    ViolationsAppend(p, [d]);
    ViolationsAppend(p + [d], rest);
  }

  /** The indices of a stream's declarations that are checked and fail. */
  function FailedIndices(ds: seq<Descriptor>): set<int> {
    set i | 0 <= i < |ds| && Fails(ds[i])
  }

  /** The failing indices of a stream extended by one declaration. */
  lemma FailedIndicesSnoc(ds: seq<Descriptor>)
    requires ds != []
    ensures var n := |ds| - 1;
      && n !in FailedIndices(ds[..n])
      && FailedIndices(ds) == FailedIndices(ds[..n]) + (if Fails(ds[n]) then {n} else {})
  {
    var n := |ds| - 1;
    assert forall i :: 0 <= i < n ==> ds[..n][i] == ds[i];
  }

  /** A stream adds exactly one entry per checked declaration that fails. */
  lemma {:induction false} ViolationsCount(ds: seq<Descriptor>)
    ensures |Violations(ds)| == |FailedIndices(ds)|
  {
    if ds == [] {
      assert FailedIndices(ds) == {};
    } else {
      ViolationsCount(ds[..|ds| - 1]);
      FailedIndicesSnoc(ds);
    }
  }

  lemma EntriesLinesSnoc(es: seq<BadNameEntry>, e: BadNameEntry)
    ensures EntriesLines(es + [e]) == EntriesLines(es) + BadNameLines(e)
  {
  }

  lemma ReportLinesSplit(es: seq<BadNameEntry>, filename: string, block: seq<string>)
    requires block == StatisticsText(Basename(filename), |es|)
    ensures ReportLines(es, filename) == EntriesLines(es) + block
  {
  }

  /** The bad-name queue of one source file and the name of that file. */
  class NameChecker {
    const filename: string
    var badnames: seq<BadNameEntry>

    constructor (filename: string)
      ensures this.filename == filename && badnames == []
    {
      this.filename := filename;
      badnames := [];
    }

    /** ReportBadName: push one entry at the back (name-checker.cc:287-305). */
    method Record(e: BadNameEntry)
      modifies this
      ensures badnames == old(badnames) + [e]
    {
      badnames := badnames + [e];
    }

    /** One Visit* call: classify, and queue the declaration if its name
        fails its rule. */
    method Visit(d: Descriptor)
      modifies this
      ensures badnames == old(badnames) + Violation(d)
    {
      match Classify(d)
      case Some(v) =>
        if !v.ok {
          Record(BadNameEntry(v.entity, v.name, d.startFile, d.startLine));
        }
      case None =>
    }

    /** The traversal: visit the declarations in the order the front end
        hands them over. */
    method VisitAll(ds: seq<Descriptor>)
      modifies this
      ensures badnames == old(badnames) + Violations(ds)
    {
      var i := 0;
      while i < |ds|
        invariant 0 <= i <= |ds|
        invariant badnames == old(badnames) + Violations(ds[..i])
      {
        assert ds[..i + 1][..i] == ds[..i];
        Visit(ds[i]);
        i := i + 1;
      }
      assert ds[..i] == ds;
    }

    /** EndSourceFileAction: remember the queue size, pop and print every
        entry from the front, then print the statistics. Returns the printed
        lines, each of which the source ends with a newline. */
    method Drain() returns (lines: seq<string>)
      modifies this
      ensures badnames == []
      ensures lines == ReportLines(old(badnames), filename)
    {
      var count := |badnames|;
      ghost var done: seq<BadNameEntry> := [];
      lines := [];
      while badnames != []
        invariant old(badnames) == done + badnames
        invariant lines == EntriesLines(done)
        decreases |badnames|
      {
        var e := badnames[0];
        assert badnames == [e] + badnames[1..];
        var block := PrintBadName(e);
        EntriesLinesSnoc(done, e);
        lines := lines + block;
        badnames := badnames[1..];
        done := done + [e];
      }
      assert done == old(badnames);
      var block := PrintStatistics(filename, count);
      ReportLinesSplit(done, filename, block);
      lines := lines + block;
    }
  }

  /** One whole pass over a source file with a fresh queue: what it prints
      depends on the declarations and the file name alone, so two passes over
      the same input print the same text. */
  method CheckFile(filename: string, ds: seq<Descriptor>) returns (lines: seq<string>)
    ensures lines == ReportLines(Violations(ds), filename)
  {
    var checker := new NameChecker(filename);
    checker.VisitAll(ds);
    assert checker.badnames == Violations(ds);
    lines := checker.Drain();
  }

  /** The struct of example.cc:34-42 together with one declaration from an
      included header: the struct's name fails the upper-run rule ("AS" is a
      run of two), its fields are judged as variables, so `ok_field` passes
      while `bad_field_` and the const `kGood` fail, the lower-case method
      fails, and the header's declaration is not looked at. */
  lemma JustAStructExample()
    ensures Violations([
        Descriptor(RecordDecl, "JustAStruct", NoTag, false, true, false, "src/example.cc", 34),
        Descriptor(FieldDecl, "ok_field", StructTag, false, true, false, "src/example.cc", 35),
        Descriptor(FieldDecl, "bad_field_", StructTag, false, true, false, "src/example.cc", 36),
        Descriptor(FieldDecl, "kGood", StructTag, true, true, false, "src/example.cc", 37),
        Descriptor(FunctionDecl, "size", StructTag, false, true, false, "src/example.cc", 39),
        Descriptor(FunctionDecl, "push_back", ClassTag, false, false, false, "vector", 1200)])
      == [BadNameEntry(Type, "JustAStruct", "src/example.cc", 34),
          BadNameEntry(Variable, "bad_field_", "src/example.cc", 36),
          BadNameEntry(Variable, "kGood", "src/example.cc", 37),
          BadNameEntry(Function, "size", "src/example.cc", 39)]
  {
    var d0 := Descriptor(RecordDecl, "JustAStruct", NoTag, false, true, false, "src/example.cc", 34);
    var d1 := Descriptor(FieldDecl, "ok_field", StructTag, false, true, false, "src/example.cc", 35);
    var d2 := Descriptor(FieldDecl, "bad_field_", StructTag, false, true, false, "src/example.cc", 36);
    var d3 := Descriptor(FieldDecl, "kGood", StructTag, true, true, false, "src/example.cc", 37);
    var d4 := Descriptor(FunctionDecl, "size", StructTag, false, true, false, "src/example.cc", 39);
    var d5 := Descriptor(FunctionDecl, "push_back", ClassTag, false, false, false, "vector", 1200);
    JustAStructVerdicts();
    JustAStructMemberVerdicts();
    ViolationsOfSix([d0, d1, d2, d3, d4, d5]);
  }

  lemma ViolationsOfSix(ds: seq<Descriptor>)
    requires |ds| == 6
    ensures Violations(ds)
      == Violation(ds[0]) + Violation(ds[1]) + Violation(ds[2]) + Violation(ds[3]) + Violation(ds[4]) + Violation(ds[5])
  {
    assert ds[..1][..0] == [];
    assert ds[..2][..1] == ds[..1];
    assert ds[..3][..2] == ds[..2];
    assert ds[..4][..3] == ds[..3];
    assert ds[..5][..4] == ds[..4];
    assert ds[..5] == ds[..|ds| - 1];
    assert Violations(ds[..1]) == Violation(ds[0]);
    assert Violations(ds[..2]) == Violation(ds[0]) + Violation(ds[1]);
    assert Violations(ds[..3]) == Violations(ds[..2]) + Violation(ds[2]);
    assert Violations(ds[..4]) == Violations(ds[..3]) + Violation(ds[3]);
    assert Violations(ds[..5]) == Violations(ds[..4]) + Violation(ds[4]);
  }

  lemma JustAStructVerdicts()
    ensures Violation(Descriptor(RecordDecl, "JustAStruct", NoTag, false, true, false, "src/example.cc", 34))
      == [BadNameEntry(Type, "JustAStruct", "src/example.cc", 34)]
    ensures Violation(Descriptor(FieldDecl, "ok_field", StructTag, false, true, false, "src/example.cc", 35)) == []
    ensures Violation(Descriptor(FieldDecl, "bad_field_", StructTag, false, true, false, "src/example.cc", 36))
      == [BadNameEntry(Variable, "bad_field_", "src/example.cc", 36)]
  {
    NameRuleFacts.StructMemberNames();
  }

  lemma JustAStructMemberVerdicts()
    ensures Violation(Descriptor(FieldDecl, "kGood", StructTag, true, true, false, "src/example.cc", 37))
      == [BadNameEntry(Variable, "kGood", "src/example.cc", 37)]
    ensures Violation(Descriptor(FunctionDecl, "size", StructTag, false, true, false, "src/example.cc", 39))
      == [BadNameEntry(Function, "size", "src/example.cc", 39)]
    ensures Violation(Descriptor(FunctionDecl, "push_back", ClassTag, false, false, false, "vector", 1200)) == []
  {
    NameRuleFacts.StructMemberNames();
  }
}
