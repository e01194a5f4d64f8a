/** Which rule a declaration is checked with and which entity it is reported
    as: the decision trees of NameCheckerASTVisitor's Visit* methods
    (name-checker.cc:107-280), over a descriptor that stands for what Clang's
    AST and SourceManager tell them. */
module Classification {
  import opened NameRules
  import opened Report

  datatype Option<T> = None | Some(value: T)

  /** The AST node classes the visitor has a Visit method for. */
  datatype DeclKind =
    | EnumConstantDecl
    | EnumDecl
    | FieldDecl
    | FunctionDecl
    | ConstructorDecl
    | RecordDecl
    | TypedefNameDecl
    | VarDecl

  /** The tag of the enclosing record: Clang's isClass() holds only for the
      `class` keyword, isStruct() only for `struct`. */
  datatype TagKind = ClassTag | StructTag | UnionTag | NoTag

  /** What the front end knows of one declaration: its kind and name (for a
      constructor, the printed name, which may carry template arguments), the
      tag of its enclosing record or declaration context, whether its type is
      const (or it is constexpr), whether its location is in the main file
      and whether it comes from a macro expansion, and the file and line of
      its start. */
  datatype Descriptor = Descriptor(
    kind: DeclKind,
    name: string,
    tag: TagKind,
    isConst: bool,
    inMainFile: bool,
    isMacro: bool,
    startFile: string,
    startLine: int)

  /** The entity a declaration is reported as, the name that was checked and
      whether it passed. */
  datatype Verdict = Verdict(entity: Entity, name: string, ok: bool)

  /** Only main-file declarations outside macro expansions are checked. */
  predicate Checked(d: Descriptor) {
    d.inMainFile && !d.isMacro
  }

  /** A constructor's name up to its first '<' (name-checker.cc:178-183). */
  function UpToAngle(s: string): (r: string)
    ensures |r| <= |s| && r == s[..|r|]
    ensures forall i :: 0 <= i < |r| ==> r[i] != '<'
    ensures |r| < |s| ==> s[|r|] == '<'
  {
    if s == [] || s[0] == '<' then [] else [s[0]] + UpToAngle(s[1..])
  }

  /** VisitFieldDecl (name-checker.cc:145-162): the rule depends only on
      whether the record is a class; outside a class the field is reported
      as a variable. */
  function VisitField(d: Descriptor): (v: Verdict)
    ensures v.name == d.name
    ensures v.entity == (if d.tag != ClassTag then Variable else if d.isConst then Const else Field)
    ensures v.ok == (if d.tag == ClassTag then CheckFieldName(d.name) else CheckVarName(d.name))
  {
    var isClassMember := d.tag == ClassTag;
    if d.isConst && isClassMember then Verdict(Const, d.name, CheckFieldName(d.name))
    else if isClassMember then Verdict(Field, d.name, CheckFieldName(d.name))
    else Verdict(Variable, d.name, CheckVarName(d.name))
  }

  /** VisitFunctionDecl and VisitCXXConstructorDecl (name-checker.cc:167-188):
      the checked name is a prefix of the declared one, the whole of it unless
      a constructor's name holds a '<', and for a constructor free of '<'. */
  function VisitFunction(d: Descriptor): (v: Verdict)
    ensures v.entity == Function && v.ok == CheckFunctionName(v.name)
    ensures |v.name| <= |d.name| && v.name == d.name[..|v.name|]
    ensures d.kind == ConstructorDecl ==> forall i :: 0 <= i < |v.name| ==> v.name[i] != '<'
    ensures d.kind != ConstructorDecl || '<' !in d.name ==> v.name == d.name
  {
    var name := if d.kind == ConstructorDecl then UpToAngle(d.name) else d.name;
    Verdict(Function, name, CheckFunctionName(name))
  }

  /** VisitVarDecl (name-checker.cc:253-277): whatever the record, a const
      variable is a constant; otherwise it is a field in a class and a
      variable elsewhere. */
  function VisitVar(d: Descriptor): (v: Verdict)
    ensures v.name == d.name
    ensures v.entity == (if d.isConst then Const else if d.tag == ClassTag then Field else Variable)
    ensures v.ok == (if d.isConst then CheckConstantName(d.name)
                     else if d.tag == ClassTag then CheckFieldName(d.name)
                     else CheckVarName(d.name))
  {
    var isInClass := d.tag == ClassTag;
    var isInStruct := d.tag == StructTag;
    if d.isConst && isInClass then Verdict(Const, d.name, CheckConstantName(d.name))
    else if isInClass then Verdict(Field, d.name, CheckFieldName(d.name))
    else if d.isConst && (!isInStruct || !isInClass) then Verdict(Const, d.name, CheckConstantName(d.name))
    else Verdict(Variable, d.name, CheckVarName(d.name))
  }

  /** The verdict on a declaration, or None for one that is filtered out. */
  function Classify(d: Descriptor): (r: Option<Verdict>)
    ensures r.None? <==> !Checked(d)
  {
    if !d.inMainFile || d.isMacro then None
    else match d.kind
      case EnumConstantDecl => Some(Verdict(Const, d.name, CheckEnumConstantName(d.name)))
      case EnumDecl => Some(Verdict(Type, d.name, CheckTypeName(d.name)))
      case FieldDecl => Some(VisitField(d))
      case FunctionDecl => Some(VisitFunction(d))
      case ConstructorDecl => Some(VisitFunction(d))
      case RecordDecl => Some(Verdict(Type, d.name, CheckTypeName(d.name)))
      case TypedefNameDecl => Some(Verdict(Type, d.name, CheckTypeName(d.name)))
      case VarDecl => Some(VisitVar(d))
  }

  /** A declaration that is checked and fails its rule. */
  predicate Fails(d: Descriptor) {
    Checked(d) && !Classify(d).value.ok
  }

  /** The queue entries one declaration adds: exactly one, naming the
      verdict's entity and name and the declaration's start, when it is
      checked and fails its rule; none otherwise (name-checker.cc:287-305). */
  function Violation(d: Descriptor): (es: seq<BadNameEntry>)
    ensures |es| <= 1
    ensures !Checked(d) ==> es == []
    ensures |es| == 1 <==> Fails(d)
    ensures Fails(d) ==> es[0] == BadNameEntry(Classify(d).value.entity, Classify(d).value.name, d.startFile, d.startLine)
  {
    match Classify(d)
    case Some(v) => if v.ok then [] else [BadNameEntry(v.entity, v.name, d.startFile, d.startLine)]
    case None => []
  }

  // ---------------------------------------------------------------------------
  // The classification table

  /** Variables (name-checker.cc:253-277): in a class, a const one is a
      constant and any other a field; elsewhere (struct, union or no record)
      a const one is a constant and any other a variable. */
  lemma VarTable(d: Descriptor)
    requires Checked(d) && d.kind == VarDecl
    ensures d.tag == ClassTag && d.isConst ==> Classify(d) == Some(Verdict(Const, d.name, CheckConstantName(d.name)))
    ensures d.tag == ClassTag && !d.isConst ==> Classify(d) == Some(Verdict(Field, d.name, CheckFieldName(d.name)))
    ensures d.tag != ClassTag && d.isConst ==> Classify(d) == Some(Verdict(Const, d.name, CheckConstantName(d.name)))
    ensures d.tag != ClassTag && !d.isConst ==> Classify(d) == Some(Verdict(Variable, d.name, CheckVarName(d.name)))
  {
  }

  /** Fields (name-checker.cc:145-162): in a class, a const one is checked by
      the field rule yet reported as a constant, any other is a field; a
      field of a struct or union is checked and reported as a variable,
      const or not. */
  lemma FieldTable(d: Descriptor)
    requires Checked(d) && d.kind == FieldDecl
    ensures d.tag == ClassTag && d.isConst ==> Classify(d) == Some(Verdict(Const, d.name, CheckFieldName(d.name)))
    ensures d.tag == ClassTag && !d.isConst ==> Classify(d) == Some(Verdict(Field, d.name, CheckFieldName(d.name)))
    ensures d.tag != ClassTag ==> Classify(d) == Some(Verdict(Variable, d.name, CheckVarName(d.name)))
  {
  }

  /** Enumerations, records and typedefs are types; enumerators are
      constants checked by the enum-constant rule; functions and constructors
      are functions, a constructor under its name cut at the first '<'
      (name-checker.cc:107-135, 167-231). */
  lemma OtherKindsTable(d: Descriptor)
    requires Checked(d)
    ensures d.kind in {EnumDecl, RecordDecl, TypedefNameDecl} ==> Classify(d) == Some(Verdict(Type, d.name, CheckTypeName(d.name)))
    ensures d.kind == EnumConstantDecl ==> Classify(d) == Some(Verdict(Const, d.name, CheckEnumConstantName(d.name)))
    ensures d.kind == FunctionDecl ==> Classify(d) == Some(Verdict(Function, d.name, CheckFunctionName(d.name)))
    ensures d.kind == ConstructorDecl ==> Classify(d) == Some(Verdict(Function, UpToAngle(d.name), CheckFunctionName(UpToAngle(d.name))))
  {
  }

  /** Each reported entity goes with its own rule, except a constant, whose
      rule depends on the kind of declaration: the enum-constant rule for an
      enumerator, the field rule for a class field, the constant rule for a
      variable. */
  lemma VerdictMatchesEntity(d: Descriptor)
    requires Checked(d)
    ensures var v := Classify(d).value;
      && (v.entity == Type ==> v.ok == CheckTypeName(v.name))
      && (v.entity == Function ==> v.ok == CheckFunctionName(v.name))
      && (v.entity == Field ==> v.ok == CheckFieldName(v.name))
      && (v.entity == Variable ==> v.ok == CheckVarName(v.name))
      && (v.entity == Const ==> d.kind in {EnumConstantDecl, FieldDecl, VarDecl})
      && (d.kind == EnumConstantDecl ==> v.entity == Const && v.ok == CheckEnumConstantName(v.name))
      && (d.kind == FieldDecl && v.entity == Const ==> v.ok == CheckFieldName(v.name))
      && (d.kind == VarDecl && v.entity == Const ==> v.ok == CheckConstantName(v.name))
      && (v.entity != Function ==> v.name == d.name)
  {
  }

  /** Anonymous declarations are never reported. */
  lemma AnonymousNeverReported(d: Descriptor)
    requires d.name == []
    ensures Violation(d) == []
  {
    if d.kind == ConstructorDecl {
      assert UpToAngle(d.name) == [];
    }
  }

  /** A template constructor is checked under its class name. */
  lemma ConstructorNameExample()
    ensures UpToAngle("Vector<T>") == "Vector"
    ensures UpToAngle("Test") == "Test"
  {
  }
}
