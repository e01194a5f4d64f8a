/** The entities reported, the queue entry, and the text printed for a bad
    name and for the per-file statistics (name-checker.cc:38-96). */
module Report {
  import opened Decimal

  datatype Entity = Variable | Field | Type | Const | Function

  /** The label printed for an entity (name-checker.cc:61-69): one
      non-empty lower-case word. */
  function Str(e: Entity): (text: string)
    ensures |text| > 0
    ensures forall i :: 0 <= i < |text| ==> 'a' <= text[i] <= 'z'
  {
    match e
    case Variable => "variable"
    case Field => "field"
    case Type => "type"
    case Const => "const"
    case Function => "function"
  }

  /** Different entities are printed with different labels. */
  lemma StrInjective(a: Entity, b: Entity)
    ensures Str(a) == Str(b) ==> a == b
  {
  }

  /** One queued bad name (name-checker.cc:46-51). */
  datatype BadNameEntry = BadNameEntry(entity: Entity, name: string, filename: string, line: int)

  /** The part of `path` after its last '/', or all of it when there is none:
      the longest suffix free of '/'. */
  function Basename(path: string): (base: string)
    ensures |base| <= |path|
  {
    if |path| == 0 || path[|path| - 1] == '/' then []
    else Basename(path[..|path| - 1]) + [path[|path| - 1]]
  }

  /** The basename is a suffix of the path that holds no '/' and is either the
      whole path or preceded by a '/'. */
  lemma {:induction false} BasenameIsLastSegment(path: string)
    ensures var base := Basename(path);
      && base == path[|path| - |base|..]
      && (forall i :: 0 <= i < |base| ==> base[i] != '/')
      && (|base| < |path| ==> path[|path| - |base| - 1] == '/')
  {
    if |path| > 0 && path[|path| - 1] != '/' {
      var p := path[..|path| - 1];
      BasenameIsLastSegment(p);
      assert path[|path| - |Basename(path)|..] == p[|p| - |Basename(p)|..] + [path[|path| - 1]];
    }
  }

  /** The source's scan from the end (name-checker.cc:71-78). The index is
      an `int` here; the source's unsigned index wrapping below zero is the
      value -1, which the loop test rejects like an index past the end. */
  method GetFilename(path: string) returns (base: string)
    ensures base == Basename(path)
  {
    var i := |path| - 1;
    assert path[..i + 1] == path && path[i + 1..] == [];
    while 0 <= i && path[i] != '/'
      invariant -1 <= i < |path|
      invariant Basename(path) == Basename(path[..i + 1]) + path[i + 1..]
      decreases i + 1
    {
      assert path[..i + 1][..i] == path[..i];
      assert Basename(path[..i + 1]) == Basename(path[..i]) + [path[i]];
      assert [path[i]] + path[i + 1..] == path[i..];
      i := i - 1;
    }
    i := i + 1;
    base := path[i..];
  }

  /** A '/'-free name below any directory is its own basename. */
  lemma {:induction false} BasenameOfJoin(dir: string, name: string)
    requires forall i :: 0 <= i < |name| ==> name[i] != '/'
    ensures Basename(dir + "/" + name) == name
  {
    if name != [] {
      var n := name[..|name| - 1];
      assert (dir + "/" + name)[..|dir + "/" + name| - 1] == dir + "/" + n;
      BasenameOfJoin(dir, n);
    } else {
      assert dir + "/" + name == dir + "/";
    }
  }

  /** Taking the basename twice changes nothing. */
  lemma BasenameIdempotent(path: string)
    ensures Basename(Basename(path)) == Basename(path)
  {
  }

  /** The text of a chain of `<<` insertions. */
  function Cat(parts: seq<string>): string {
    if parts == [] then [] else parts[0] + Cat(parts[1..])
  }

  lemma CatPair(a: string, b: string)
    ensures Cat([a, b]) == a + b
  {
    assert [a, b][1..] == [b];
    assert [b][1..] == [];
    assert Cat([b]) == b + Cat([]) == b;
  }

  /** The three lines BadName prints for one entry, given the basename of its
      file (name-checker.cc:89-96). */
  function BadNameText(entity: Entity, name: string, base: string, line: int): seq<string> {
    [ Cat(["Entity's name \"", name, "\" does not meet the requirements (", Str(entity), ")"]),
      Cat(["In ", base, " at line ", IntToDecimal(line)]),
      "" ]
  }

  function BadNameLines(e: BadNameEntry): (lines: seq<string>)
    ensures |lines| == 3
  {
    BadNameText(e.entity, e.name, Basename(e.filename), e.line)
  }

  /** BadName: the lines printed for one entry, naming its file by basename. */
  method PrintBadName(e: BadNameEntry) returns (block: seq<string>)
    ensures block == BadNameLines(e)
  {
    var base := GetFilename(e.filename);
    block := BadNameText(e.entity, e.name, base, e.line);
  }

  /** The two lines PrintStatistics prints, given the basename of the main
      file (name-checker.cc:80-87). */
  function StatisticsText(base: string, count: nat): seq<string> {
    [ Cat(["===== Processed Stat ", base, " ====="]),
      Cat(["Bad names found: ", IntToDecimal(count)]) ]
  }

  /** PrintStatistics: the summary lines for the main file. */
  method PrintStatistics(filename: string, count: nat) returns (block: seq<string>)
    ensures block == StatisticsText(Basename(filename), count)
  {
    var base := GetFilename(filename);
    block := StatisticsText(base, count);
  }

  /** The lines for a sequence of entries, in queue order. */
  function EntriesLines(es: seq<BadNameEntry>): (lines: seq<string>)
    ensures |lines| == 3 * |es|
  {
    if es == [] then [] else EntriesLines(es[..|es| - 1]) + BadNameLines(es[|es| - 1])
  }

  /** The whole output for one source file: every entry in queue order, then
      the statistics with the number of entries. */
  function ReportLines(es: seq<BadNameEntry>, filename: string): (lines: seq<string>)
    ensures |lines| == 3 * |es| + 2
  {
    EntriesLines(es) + StatisticsText(Basename(filename), |es|)
  }

  /** First in, first printed: the block of entry `k` is lines 3k..3k+2. */
  lemma {:induction false} EntriesLinesAt(es: seq<BadNameEntry>, k: nat)
    requires k < |es|
    ensures EntriesLines(es)[3 * k .. 3 * k + 3] == BadNameLines(es[k])
  {
    var p := es[..|es| - 1];
    var front, back := EntriesLines(p), BadNameLines(es[|es| - 1]);
    assert EntriesLines(es) == front + back;
    if k < |es| - 1 {
      EntriesLinesAt(p, k);
      assert (front + back)[3 * k .. 3 * k + 3] == front[3 * k .. 3 * k + 3];
    } else {
      assert (front + back)[3 * k .. 3 * k + 3] == back;
    }
  }

  /** The statistics line states the number of entry blocks printed before it. */
  lemma ReportCountReadsBack(es: seq<BadNameEntry>, filename: string)
    ensures var lines := ReportLines(es, filename);
      var last := lines[|lines| - 1];
      && last == "Bad names found: " + IntToDecimal(|es|)
      && last[17..] == IntToDecimal(|es|)
      && DecimalValue(last[17..]) == (|lines| - 2) / 3
  {
    var last := ReportLines(es, filename)[3 * |es| + 1];
    CatPair("Bad names found: ", IntToDecimal(|es|));
    assert last == "Bad names found: " + IntToDecimal(|es|);
    assert last[17..] == IntToDecimal(|es|);
    IntRoundTrip(|es|);
  }
}
