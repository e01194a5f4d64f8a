# Name checker core, modelled in Dafny

A model of the naming-rule engine of `name-checker.cc`, a Clang tool that
walks the declarations of one C++ source file and reports every name that
breaks a fixed style guide: types and functions capitalized camel case
under an acronym rule, variables snake case, fields snake case with a
trailing `_`, constants `k`-prefixed, enumerators `k`-prefixed or all
upper case. Bad names are queued in declaration order and, when the file
ends, printed one block each, followed by a count.

Modules (one file each):

- `Ascii` (`ascii.dfy`): `toupper`, `tolower` and `isdigit` of the "C"
  locale on ASCII.
- `Decimal` (`decimal.dfy`): how an `int` is printed, with its reading
  partner.
- `NameRules` (`name_rules.dfy`): the lexical predicates and the six
  validators. `IsSnakeCase` and `IsUpperRule` keep the source's counting
  loops as methods, each proved equal to a declarative predicate
  (`SnakeCase`, `UpperRule`). The validators use those predicates.
- `NameRuleFacts` (`name_rule_facts.dfy`): what the validators accept and
  reject, and the run structure behind the upper-run rule.
- `Report` (`report.dfy`): the reported entities and their labels, the queue
  entry, the basename scan `GetFilename`, and the text of `BadName` and
  `PrintStatistics`.
- `Classification` (`classification.dfy`): the `Visit*` decision trees. They
  are one pure function from a declaration descriptor to an optional verdict
  (entity, checked name, pass or fail).
- `Checker` (`checker.dfy`): the per-file queue. It is a class whose
  `badnames` sequence is filled by `Record`/`Visit`. `Drain` empties it
  front to back and returns the printed lines.

What Clang supplies is a `Descriptor` field here:

- the declaration kind;
- the name (for a constructor, its printed name);
- the tag of the enclosing record or context (`class`, `struct`, `union`
  or none);
- const-ness (const-qualified type or `constexpr`);
- whether the location is in the main file;
- whether it comes from a macro expansion;
- the file and line of the declaration's start.

Printed output is modelled as the sequence of lines the source writes, each
of which the source ends with `\n`.

Where the code's behaviour may be unexpected, the model follows the code:

- A field of a `struct` or `union` is checked by the variable rule and
  reported as `variable`, whether or not it is const. Clang's `isClass()`
  holds only for the `class` keyword.
- A const field of a `class` is checked by the field rule but reported as
  `const`.
- So in `struct JustAStruct { int ok_field; int bad_field_; ... }` it is
  `bad_field_` that is reported, not `ok_field`. The struct's own name is
  reported too, because `AS` is an upper-case run of two
  (`Checker.JustAStructExample`).

## Model

| member | source | states |
|---|---|---|
| `Ascii.ToUpper` | name-checker.cc:317 | `toupper` maps a lower-case letter 32 code points down to its capital, which `tolower` maps back, leaves every other character alone, and never returns a lower-case letter |
| `Ascii.ToLower` | name-checker.cc:336 | `tolower` maps a capital 32 code points up to its lower-case letter, leaves every other character alone, and never returns a capital |
| `Ascii.CaseFixedPoints` | name-checker.cc:316-318 | a character equals its `toupper` form iff it is not a lower-case letter, and its `tolower` form iff it is not an upper-case letter |
| `Decimal.NatToDecimal` | name-checker.cc:95 | a printed count or line number is a non-empty run of digits with no leading zero |
| `Decimal.NatRoundTrip` | name-checker.cc:86 | reading the digits printed for a natural number gives that number back |
| `Decimal.IntRoundTrip` | name-checker.cc:95 | reading the printed text of any `int` line number, sign included, gives that number back |
| `NameRules.IsCamelCase` | name-checker.cc:307-314 | a name is camel case iff it contains no `_` |
| `NameRules.IsCapitalized` | name-checker.cc:316-318 | a name is capitalized iff its first character is not a lower-case letter |
| `NameRules.IsConstant` | name-checker.cc:320-322 | a name carrying the constant marker `k` is neither capitalized nor all upper-case |
| `NameRules.IsField` | name-checker.cc:324-326 | a name carrying the field marker (a trailing `_`) is never camel case |
| `NameRules.IsUpperCase` | name-checker.cc:350-357 | a name is upper case iff none of its characters is a lower-case letter |
| `NameRules.SnakeCase` | name-checker.cc:328-348 | a name is snake case iff it has no capital and no digit and every `_` in it follows a character other than `_` |
| `NameRules.UpperRule` | name-checker.cc:359-376 | a name the upper-run rule accepts holds a non-qualifying character, that is a lower-case letter or a digit |
| `NameRules.IsSnakeCase` | name-checker.cc:328-348 | the scan with the `length` counter returns true exactly when the name does not start with `_`, has no upper-case letter and no digit, and never has two `_` in a row |
| `NameRules.IsUpperRule` | name-checker.cc:359-376 | the run-counting scan returns true exactly when no run of exactly two qualifying characters is closed by another character, the final run is not 1 or 2 long, and the final run is not the whole name |
| `NameRules.CheckTypeName` | name-checker.cc:378-381 | the empty name passes; a good non-empty type name starts with no lower-case letter, has no `_`, and holds a lower-case letter or a digit |
| `NameRules.CheckFunctionName` | name-checker.cc:383-389 | a function name is good iff it is `main` or a good type name |
| `NameRules.CheckConstantName` | name-checker.cc:391-393 | the empty name passes; a good non-empty constant name is not all upper-case and is never a good type name |
| `NameRules.CheckEnumConstantName` | name-checker.cc:395-398 | an enumerator name is good iff it is a good constant name or all upper-case |
| `NameRules.CheckVarName` | name-checker.cc:400-402 | the empty name passes; a good non-empty variable name stays snake case with one `_` added |
| `NameRules.CheckFieldName` | name-checker.cc:404-406 | the empty name passes; a good non-empty field name is at least two characters, ends in `_`, and without that `_` is a good variable name |
| `NameRuleFacts.EmptyNameExempt` | name-checker.cc:378-406 | all six validators accept the empty name, and the function rule accepts `main` |
| `NameRuleFacts.FunctionNameIsTypeName` | name-checker.cc:378-389 | a function name is good iff it is `main` or a good type name |
| `NameRuleFacts.VarAndFieldPartitionSnakeCase` | name-checker.cc:400-406 | no non-empty name is both a good variable and a good field name, and a name is one of the two iff it is snake case |
| `NameRuleFacts.ConstantAndEnumConstant` | name-checker.cc:391-398 | every good constant name is a good enumerator name; every all-upper-case name is a good enumerator name; a non-empty good constant name starts with `k` and has no `_` |
| `NameRuleFacts.UpperCaseEnumConstantOnly` | name-checker.cc:391-398 | `ABC` is a good enumerator name but not a good constant name, and `kAbc` is good for both |
| `NameRuleFacts.TypeAndVariableDisjoint` | name-checker.cc:378-406 | for names made of letters, digits and `_`, no non-empty name is both a good type name and a good variable name |
| `NameRuleFacts.SnakeCaseAllowsTrailingUnderscore` | name-checker.cc:328-348 | adding one trailing `_` to a snake-case name that does not end in `_` keeps it snake case, turning a good variable name into a good field name |
| `NameRuleFacts.SnakeCaseExamples` | name-checker.cc:328-348 | `just_few_words` is snake case; `just__few_words`, `_hello_world`, `a1` and `Wrong` are not |
| `NameRuleFacts.TrailingRunExact` | name-checker.cc:360-369 | the run counted at the end of a name is exactly its longest suffix of qualifying characters |
| `NameRuleFacts.WholeRunRejected` | name-checker.cc:375 | a name that is one uninterrupted qualifying run, such as `BIGNAME`, fails the upper-run rule |
| `NameRuleFacts.ShortFinalRunRejected` | name-checker.cc:371-373 | a name whose final qualifying run is 1 or 2 characters long, such as `F` or `Name2D`, fails the rule |
| `NameRuleFacts.PairClosedRejected` | name-checker.cc:364-365 | a run of exactly two qualifying characters followed by a non-qualifying one fails the rule wherever it stands, such as `ABcd` |
| `NameRuleFacts.RunsAtMostOne` | name-checker.cc:360-369 | where no two qualifying characters are adjacent, every run counted before a position is at most 1 long |
| `NameRuleFacts.SingleCapitalsAccepted` | name-checker.cc:359-376 | a name that ends in a non-qualifying character, and in which no two qualifying characters are adjacent, passes the rule |
| `NameRuleFacts.AcronymPrefixAccepted` | name-checker.cc:359-376 | an acronym of 3 or more qualifying characters may open such a name, as in `ABCCase` |
| `NameRuleFacts.AcronymSuffixAccepted` | name-checker.cc:359-376 | an acronym of 3 or more qualifying characters may close such a name, as in `BuildDSU` |
| `NameRuleFacts.UpperRuleExamples` | name-checker.cc:359-376 | `F`, `Name2D`, `ABcd`, `BIGNAME` and `JustAStruct` fail the rule |
| `NameRuleFacts.UpperRuleAcceptedExamples` | name-checker.cc:359-376 | `ABCCase` and `BuildDSU` pass the rule |
| `NameRuleFacts.StructMemberNames` | example.cc:34-42 | `JustAStruct` is a bad type name, `ok_field` a good variable name, `bad_field_` and `kGood` bad variable names, `size` a bad function name |
| `Report.Str` | name-checker.cc:61-69 | every entity label is a non-empty word of lower-case letters |
| `Report.StrInjective` | name-checker.cc:61-69 | the five entities are printed with five different labels |
| `Report.BasenameIsLastSegment` | name-checker.cc:71-78 | the basename is a suffix of the path, contains no `/`, and is either the whole path or preceded by a `/` |
| `Report.GetFilename` | name-checker.cc:71-78 | the backward scan, with the unsigned index's wrap below zero modelled as -1, returns the basename |
| `Report.BasenameOfJoin` | name-checker.cc:71-78 | the basename of `dir/name` is `name` when `name` has no `/` |
| `Report.BasenameIdempotent` | name-checker.cc:71-78 | taking the basename of a basename changes nothing |
| `Report.PrintBadName` | name-checker.cc:89-96 | the three lines printed for an entry are the message with the name and entity label, the basename and line, and a blank line |
| `Report.PrintStatistics` | name-checker.cc:80-87 | the two summary lines name the basename of the main file and print the count |
| `Report.EntriesLinesAt` | name-checker.cc:439-443 | entries are printed in queue order: the block of entry k is lines 3k to 3k+2 |
| `Report.ReportCountReadsBack` | name-checker.cc:436-446 | the last printed line is `Bad names found: ` and then a count, which reads back as the number of entry blocks printed before it |
| `Classification.UpToAngle` | name-checker.cc:178-183 | the checked constructor name is the longest prefix without `<`; when something was cut, the next character is the first `<` |
| `Classification.VisitField` | name-checker.cc:137-165 | a field's rule depends only on whether its record is a class: field rule in a class, variable rule elsewhere; it is reported as a variable outside a class, as a constant if const in a class, as a field otherwise; its name is checked as declared |
| `Classification.VisitFunction` | name-checker.cc:167-197 | a function is reported as a function and judged by the function rule; the checked name is a prefix of the declared one, the whole of it except for a constructor whose name holds `<`, and a constructor's checked name has no `<` |
| `Classification.VisitVar` | name-checker.cc:233-277 | whatever the record, a const variable is judged and reported as a constant; a non-const one is a field in a class and a variable elsewhere; its name is checked as declared |
| `Classification.Classify` | name-checker.cc:107-280 | a declaration gets a verdict iff it is in the main file and not in a macro expansion |
| `Classification.Violation` | name-checker.cc:287-305 | a declaration adds exactly one entry when it is checked and fails its rule, and none otherwise; that entry carries the verdict's entity and name and the declaration's start file and line |
| `Classification.VarTable` | name-checker.cc:253-277 | a const variable in a class is checked as a constant and any other as a field; a const variable elsewhere is a constant and any other a variable |
| `Classification.FieldTable` | name-checker.cc:145-162 | a const class field is checked by the field rule but reported as `const`; other class fields are fields; struct, union and other fields are checked and reported as variables |
| `Classification.OtherKindsTable` | name-checker.cc:107-135 | enums, records and typedefs are types; enumerators are constants judged by the enumerator rule; functions are functions; a constructor is checked under its name cut at `<` |
| `Classification.VerdictMatchesEntity` | name-checker.cc:107-280 | each reported entity goes with its own rule; a constant comes only from an enumerator (enumerator rule), a class field (field rule) or a variable (constant rule); only a function's checked name can differ from the declared one |
| `Classification.AnonymousNeverReported` | name-checker.cc:378-406 | a declaration with an empty name never adds an entry |
| `Classification.ConstructorNameExample` | name-checker.cc:178-183 | the constructor name `Vector<T>` is checked as `Vector` |
| `Checker.ViolationsAppend` | name-checker.cc:287-305 | the entries of two declaration streams, one after the other, are the entries of the first followed by those of the second |
| `Checker.ViolationsIgnoreUnchecked` | name-checker.cc:107-244 | declarations outside the main file or from a macro expansion add nothing: a stream's entries are those of its checked part |
| `Checker.ViolationsFromFailedChecks` | name-checker.cc:287-305 | every queued entry comes from a checked declaration of the stream that failed its rule, with the same entity, name, file and line |
| `Checker.FailedCheckQueued` | name-checker.cc:287-305 | every checked declaration that fails its rule adds its own entry, placed right after the entries of the declarations before it |
| `Checker.ViolationsCount` | name-checker.cc:287-305 | a stream adds exactly as many entries as it has checked declarations that fail their rule |
| `Checker.NameChecker.constructor` | name-checker.cc:425-434 | a pass starts with an empty queue for its main file |
| `Checker.NameChecker.Record` | name-checker.cc:287-295 | pushing an entry appends it at the back of the queue |
| `Checker.NameChecker.Visit` | name-checker.cc:107-280 | visiting a declaration appends exactly its violation, if any, to the queue |
| `Checker.NameChecker.VisitAll` | name-checker.cc:416-419 | visiting a stream appends its violations in stream order |
| `Checker.NameChecker.Drain` | name-checker.cc:436-446 | draining empties the queue and prints every entry in queue order, then the statistics with the queue's length before the drain |
| `Checker.CheckFile` | name-checker.cc:409-446 | a pass with a fresh queue prints exactly the report of the stream's violations, so equal inputs print equal text |
| `Checker.JustAStructExample` | example.cc:34-42 | for the struct `JustAStruct` and a header declaration, exactly the struct name, `bad_field_`, `kGood` and `size` are queued, in that order |

## Left out

- The Clang front end is not part of this model. That covers the AST
  traversal, `ASTContext`, `SourceManager`, `isClass`/`isStruct`, spelling
  line numbers, `dyn_cast`, the consumer and frontend-action wiring,
  `ClangTool`, the option parsing and `main`. What they compute enters
  through `Descriptor`.
- Which declarations the traversal visits, and in what order, is an input:
  `VisitAll` takes the stream as given.
- `llvm::raw_ostream` itself is left out: the printed text is returned as
  lines.
- Locale-dependent `toupper`/`tolower`/`isdigit` on non-ASCII or negative
  `char` values are left out. Only ASCII letters change case, and only
  `0`-`9` are digits.
- `MistakeEntry` (name-checker.cc:53-59) is never used, and it is not modelled.
- NameRules.IsCamelCase: the source's early-return loop is stated as the
  predicate it computes ("no `_`"), not as a method.
- NameRules.IsUpperCase: the same holds; it is stated as "every character
  is its own upper-case form".
- NameRules.IsCapitalized, NameRules.IsConstant, NameRules.IsField: the
  source reads `name[0]` or `back()` of an empty name as undefined. Here
  they require a non-empty name, which the validators always pass.
- NameRules.IsSnakeCase: for the same reason, it requires a non-empty
  name.
- Report.GetFilename: the unsigned index's wrap below zero is modelled as
  the value -1, which the loop test rejects just as the wrapped value
  fails `i < size()`.
- Decimal.NatToDecimal: the count is a `size_t` converted to `int` in the
  source. For counts beyond `INT_MAX` that conversion could turn negative,
  and it is not modelled.
