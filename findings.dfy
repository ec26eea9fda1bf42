/**
 * The formal-parameter discrepancy: in a function `int f(int a, int a) { return a; }`
 * the written analysis reports no duplicate parameter and then reports the use of
 * `a` in the body as undeclared, because each parameter is bound in a transient
 * scope that is popped straight away.  The intended analysis binds the parameters
 * in the function's scope: the duplicate is reported and the use resolves.
 */
module FormalFinding {
  import opened Wrappers
  import opened Scopes
  import opened Symbols
  import opened Ast
  import opened AnalysisSpec
  import opened Analysis
  import opened PassSpec

  /** The declaration `int f(int a, int a) { return a; }`, with `f` named by `fn`. */
  function TwoFormalsFn(fn: Id, first: Id, second: Id, use: Id): Decl
  {
    FnDecl(IntType, fn, [Formal(IntType, first), Formal(IntType, second)], FnBody([], [ReturnStmt(Some(IdExp(use)))]))
  }

  /**
   * FnDeclNode.analysis of that declaration as written, in a fresh table: the name,
   * a new scope, the formals, then the body's one statement.
   */
  method DuplicateFormalsAsWritten(fn: Id, first: Id, second: Id, use: Id) returns (reported: seq<Diag>, useResolved: bool)
    requires first.name == second.name == use.name && fn.name != use.name
    ensures reported == [At(use, UNDECLARED)]
    ensures !useResolved
  {
    var d := TwoFormalsFn(fn, first, second, use);
    var analyzer := new Analyzer();
    var t := new SymTable<Sym>();
    assert FormalTypes(d.formals) == ["int", "int"];
    analyzer.BindFnName(t, d);
    assert t.scopes == [map[fn.name := FnSym(["int", "int"], "int")]];
    t.AddScope();
    ghost var pushed := t.scopes;
    var _ := analyzer.AnalyzeFormals(t, d.formals);
    assert VoidFormalDiags(d.formals) == [] && VoidFormals(d.formals) == 0;
    assert t.scopes == EmptyScopes(0) + pushed == pushed;
    assert t.scopes[1..][1..] == [];
    assert Resolve(t.scopes, use.name) == Resolve(t.scopes[1..][1..], use.name) == None;
    var r := analyzer.AnalyzeId(t, use);
    reported, useResolved := analyzer.diags, r.sym.Some?;
  }

  /** The same declaration with the corrected formal analysis. */
  method DuplicateFormalsCorrected(fn: Id, first: Id, second: Id, use: Id) returns (reported: seq<Diag>, useResolved: bool)
    requires first.name == second.name == use.name && fn.name != use.name
    ensures reported == [At(second, MULTIPLY_DECLARED_FORMAL)]
    ensures useResolved
  {
    var d := TwoFormalsFn(fn, first, second, use);
    var analyzer := new Analyzer();
    var t := new SymTable<Sym>();
    analyzer.BindFnName(t, d);
    t.AddScope();
    var _ := analyzer.AnalyzeFormalCorrected(t, d.formals[0]);
    var _ := analyzer.AnalyzeFormalCorrected(t, d.formals[1]);
    var r := analyzer.AnalyzeId(t, use);
    reported, useResolved := analyzer.diags, r.sym.Some?;
  }

  /**
   * `int x; void g(<formal>) { } int x;`: the declaration of `g` with the given formal
   * between two declarations of `x`.
   */
  function RedeclaredAround(formalType: Type): Program
  {
    Program([VarDecl(IntType, Id(1, 5, "x"), 1),
             FnDecl(VoidType, Id(2, 6, "g"), [Formal(formalType, Id(2, 13, "v"))], FnBody([], [])),
             VarDecl(IntType, Id(3, 5, "x"), 1)])
  }

  /** Analysing `int x;` first leaves the global scope binding `x`, whatever the function's formal. */
  lemma FirstDeclaration(formalType: Type)
    ensures DeclsRun(Run([map[]], [], []), None, RedeclaredAround(formalType).decls[..1])
         == Run([map["x" := VarSym("int")]], [], [])
  {
    assert RedeclaredAround(formalType).decls[..1][..0] == [];
  }

  /** With an int formal, the second `x` lands in the global scope again and is reported. */
  lemma RedeclarationReported()
    ensures ProgramRun(RedeclaredAround(IntType)).diags == [At(Id(3, 5, "x"), MULTIPLY_DECLARED)]
    ensures |ProgramRun(RedeclaredAround(IntType)).scopes| == 1
  {
    var ds := RedeclaredAround(IntType).decls;
    var first := Run([map["x" := VarSym("int")]], [], []);
    FirstDeclaration(IntType);
    assert ds[..3] == ds && ds[..3][..2] == ds[..2] && ds[..2][..1] == ds[..1];
    assert FormalTypes(ds[1].formals) == ["int"];
    assert first.scopes[1..] == [];
    var named := Run([map["x" := VarSym("int"), "g" := FnSym(["int"], "void")]], [], []);
    assert FnNameRun(first, ds[1]) == named;
    assert DeclsRun(Run([map[]], [], []), None, ds[..2]) == named;
  }

  /**
   * The scope left behind by a void formal also hides redeclarations: the function's
   * own scope stays on top and receives the second `x`, so only the void formal is
   * reported, where an int formal gives the redeclaration report.
   */
  lemma VoidFormalHidesRedeclaration()
    ensures ProgramRun(RedeclaredAround(VoidType)).diags == [At(Id(2, 13, "v"), NON_FUNCTION_VOID)]
    ensures |ProgramRun(RedeclaredAround(VoidType)).scopes| == 2
  {
    var vs := RedeclaredAround(VoidType).decls;
    var first := Run([map["x" := VarSym("int")]], [], []);
    FirstDeclaration(VoidType);
    assert vs[..3] == vs && vs[..3][..2] == vs[..2] && vs[..2][..1] == vs[..1];
    assert EmptyScopes(1) == [map[]];
    assert FormalTypes(vs[1].formals) == ["void"];
    assert first.scopes[1..] == [];
    var named := Run([map["x" := VarSym("int"), "g" := FnSym(["void"], "void")]], [], []);
    assert FnNameRun(first, vs[1]) == named;
    var leaked := Run([map[]] + named.scopes, [At(Id(2, 13, "v"), NON_FUNCTION_VOID)], []);
    assert DeclsRun(Run([map[]], [], []), None, vs[..2]) == leaked;
  }
}
