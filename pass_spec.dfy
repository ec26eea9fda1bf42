/**
 * What the declaration and statement analyses of p4/ast.java do to the symbol
 * table and to the two logs, stated as functions on values.  A Run is the state
 * the pass threads through a declaration list: the scope stack of the table being
 * filled, everything reported so far, and every symbol written onto a node so far.
 */
module PassSpec {
  import opened Wrappers
  import opened Scopes
  import opened Symbols
  import opened Ast
  import opened AnalysisSpec

  datatype Run = Run(scopes: seq<Scope<Sym>>, diags: seq<Diag>, notes: seq<Note>)

  /**
   * A variable declaration, with `global` the stack its struct type is looked up
   * in: its reports are appended, it is bound in the innermost scope exactly when
   * there are none, and a struct type that names a definition is noted.
   */
  function VarDeclRun(r: Run, global: seq<Scope<Sym>>, d: Decl): (o: Run)
    requires d.VarDecl? && |r.scopes| >= 1
    ensures |o.scopes| == |r.scopes|
  {
    var errs := VarDeclDiags(r.scopes[0], global, d);
    var def := StructTypeDef(global, d.varType);
    VarDeclAccepted(r.scopes[0], global, d);
    Run(if errs == [] then [r.scopes[0][d.varId.name := VarDeclSym(global, d)]] + r.scopes[1..] else r.scopes,
        r.diags + errs,
        r.notes + (if def.Some? then [Note(d.varType.structId, def.value)] else []))
  }

  /** The first step of a function declaration: its name is bound unless the innermost scope has it. */
  function FnNameRun(r: Run, d: Decl): (o: Run)
    requires d.FnDecl? && |r.scopes| >= 1
    ensures |o.scopes| == |r.scopes|
  {
    var name := d.fnId.name;
    if name in r.scopes[0] then Run(r.scopes, r.diags + [At(d.fnId, MULTIPLY_DECLARED)], r.notes)
    else Run([r.scopes[0][name := FnSym(FormalTypes(d.formals), TypeString(d.retType))]] + r.scopes[1..], r.diags, r.notes)
  }

  /**
   * A declaration list.  With `ext` empty the list is analysed with its own table as
   * the global one (program, function body, block), so a struct type is looked up
   * in the stack built so far; a struct's field list gets the enclosing stack.
   */
  function DeclsRun(r: Run, ext: Option<seq<Scope<Sym>>>, ds: seq<Decl>): (o: Run)
    requires |r.scopes| >= 1 && WellFormedDecls(ds)
    ensures |o.scopes| == |r.scopes| + DeclsLeaks(ds)
    decreases ds
  {
    if ds == [] then r
    else
      var prev := DeclsRun(r, ext, ds[..|ds| - 1]);
      assert ds[|ds| - 1] in ds;
      DeclRun(prev, if ext.Some? then ext.value else prev.scopes, ds[|ds| - 1])
  }

  function DeclRun(r: Run, global: seq<Scope<Sym>>, d: Decl): (o: Run)
    requires |r.scopes| >= 1 && WellFormedDecl(d)
    ensures |o.scopes| == |r.scopes| + DeclLeaks(d)
    decreases d, 2
  {
    match d
    case VarDecl(_, _, _) => VarDeclRun(r, global, d)
    case FnDecl(_, _, _, _) => FnScopeRun(FnNameRun(r, d), d)
    case StructDecl(_, _) => StructRun(r, d)
  }

  /**
   * A struct declaration: the duplicate report, then the fields analysed into a
   * table of their own (one empty scope to start with, struct types looked up in
   * the enclosing stack); the name is bound to a definition owning exactly that
   * table unless it was a duplicate.
   */
  function StructRun(r: Run, d: Decl): (o: Run)
    requires d.StructDecl? && WellFormedDecl(d) && |r.scopes| >= 1
    ensures |o.scopes| == |r.scopes|
    decreases d, 1
  {
    var name := d.structName.name;
    var dup := name in r.scopes[0];
    var fields := StructFields(r, d);
    Run(if dup then r.scopes else [r.scopes[0][name := StructDefSym(fields.scopes)]] + r.scopes[1..],
        fields.diags, fields.notes)
  }

  /** The field table of a struct declaration, after the duplicate report (if any). */
  function StructFields(r: Run, d: Decl): (o: Run)
    requires d.StructDecl? && WellFormedDecl(d) && |r.scopes| >= 1
    ensures |o.scopes| == 1 + DeclsLeaks(d.fields)
    decreases d, 0
  {
    var dup := d.structName.name in r.scopes[0];
    DeclsRun(Run([map[]], r.diags + (if dup then [At(d.structName, MULTIPLY_DECLARED)] else []), r.notes),
             Some(r.scopes), d.fields)
  }

  /**
   * The scope of a function: push an empty scope, the formals as written (one
   * report and one more empty scope per void formal), the body, then pop one scope.
   */
  function FnScopeRun(r: Run, d: Decl): (o: Run)
    requires d.FnDecl? && WellFormedDecl(d) && |r.scopes| >= 1
    ensures |o.scopes| == |r.scopes| + DeclLeaks(d)
    decreases d, 0
  {
    var formals := Run(EmptyScopes(VoidFormals(d.formals)) + ([map[]] + r.scopes),
                       r.diags + VoidFormalDiags(d.formals), r.notes);
    var b := BodyRun(formals, d.body);
    Run(b.scopes[1..], b.diags, b.notes)
  }

  /** A function body: its declarations (its own table is the global one), then its statements. */
  function BodyRun(r: Run, body: FnBody): (o: Run)
    requires |r.scopes| >= 1 && WellFormedDecls(body.decls) && WellFormedStmts(body.stmts)
    ensures |o.scopes| == |r.scopes| + DeclsLeaks(body.decls) + StmtsLeaks(body.stmts)
    decreases body
  {
    StmtsRun(DeclsRun(r, None, body.decls), body.stmts)
  }

  function StmtsRun(r: Run, ss: seq<Stmt>): (o: Run)
    requires |r.scopes| >= 1 && WellFormedStmts(ss)
    ensures |o.scopes| == |r.scopes| + StmtsLeaks(ss)
    decreases ss
  {
    if ss == [] then r
    else
      assert ss[|ss| - 1] in ss;
      StmtRun(StmtsRun(r, ss[..|ss| - 1]), ss[|ss| - 1])
  }

  /**
   * A statement: without a block, its expressions are analysed against the stack as
   * it is; with one, the guard is, then each block in a scope of its own.
   */
  function StmtRun(r: Run, s: Stmt): (o: Run)
    requires |r.scopes| >= 1 && WellFormedStmt(s)
    ensures |o.scopes| == |r.scopes| + StmtLeaks(s)
    decreases s, 1
  {
    if IsBlock(s) then
      var g := ExpOut(r.scopes, s.cond);
      var first := BlockRun(Run(r.scopes, r.diags + g.diags, r.notes + g.notes), s, false);
      if s.IfElseStmt? then BlockRun(first, s, true) else first
    else
      assert forall a :: a in StmtExps(s) ==> WellFormedExp(a);
      var e := ExpsOut(r.scopes, StmtExps(s));
      Run(r.scopes, r.diags + e.diags, r.notes + e.notes)
  }

  /** One block of a block statement: push, declarations, statements, pop one scope. */
  function BlockRun(r: Run, s: Stmt, second: bool): (o: Run)
    requires IsBlock(s) && WellFormedStmt(s) && |r.scopes| >= 1
    ensures |o.scopes| == |r.scopes| + DeclsLeaks(BlockDecls(s, second)) + StmtsLeaks(BlockStmts(s, second))
    decreases s, 0
  {
    var inner := StmtsRun(DeclsRun(Run([map[]] + r.scopes, r.diags, r.notes), None, BlockDecls(s, second)),
                          BlockStmts(s, second));
    Run(inner.scopes[1..], inner.diags, inner.notes)
  }

  /** One more declaration of a list: it runs on the state the earlier ones left. */
  lemma DeclsRunStep(r: Run, ext: Option<seq<Scope<Sym>>>, ds: seq<Decl>, i: nat)
    requires i < |ds| && |r.scopes| >= 1 && WellFormedDecls(ds)
    ensures WellFormedDecls(ds[..i]) && WellFormedDecls(ds[..i + 1]) && WellFormedDecl(ds[i])
    ensures var prev := DeclsRun(r, ext, ds[..i]);
            DeclsRun(r, ext, ds[..i + 1]) == DeclRun(prev, if ext.Some? then ext.value else prev.scopes, ds[i])
  {
    assert ds[i] in ds;
    assert ds[..i + 1][..i] == ds[..i];
  }

  /** One more statement of a list: it runs on the state the earlier ones left. */
  lemma StmtsRunStep(r: Run, ss: seq<Stmt>, i: nat)
    requires i < |ss| && |r.scopes| >= 1 && WellFormedStmts(ss)
    ensures WellFormedStmts(ss[..i]) && WellFormedStmts(ss[..i + 1]) && WellFormedStmt(ss[i])
    ensures StmtsRun(r, ss[..i + 1]) == StmtRun(StmtsRun(r, ss[..i]), ss[i])
  {
    assert ss[i] in ss;
    assert ss[..i + 1][..i] == ss[..i];
  }

  /** Binding a name new to the innermost scope only grows that scope. */
  lemma BindExtends(scopes: seq<Scope<Sym>>, name: string, sym: Sym)
    requires |scopes| >= 1 && name !in scopes[0]
    ensures Extends(scopes, [scopes[0][name := sym]] + scopes[1..], 0)
  {
    assert ([scopes[0][name := sym]] + scopes[1..])[1..] == scopes[1..];
  }

  /**
   * What a declaration list does to the stack it is analysed against: one scope
   * left on top per void formal of a function declared in it, the old innermost
   * scope only grown, every outer scope untouched; both logs only grow.
   */
  lemma {:induction false} DeclsRunFrame(r: Run, ext: Option<seq<Scope<Sym>>>, ds: seq<Decl>)
    requires |r.scopes| >= 1 && WellFormedDecls(ds)
    ensures var o := DeclsRun(r, ext, ds);
            Extends(r.scopes, o.scopes, DeclsLeaks(ds)) && r.diags <= o.diags && r.notes <= o.notes
    decreases ds
  {
    if ds != [] {
      var k := |ds| - 1;
      assert ds[k] in ds;
      var prev := DeclsRun(r, ext, ds[..k]);
      var o := DeclsRun(r, ext, ds);
      DeclsRunFrame(r, ext, ds[..k]);
      DeclRunFrame(prev, if ext.Some? then ext.value else prev.scopes, ds[k]);
      ExtendsTrans(r.scopes, prev.scopes, o.scopes, DeclsLeaks(ds[..k]), DeclLeaks(ds[k]));
      PrefixTrans(r.diags, prev.diags, o.diags);
      PrefixTrans(r.notes, prev.notes, o.notes);
    }
  }

  /** One declaration: the same frame, with its own count of leftover scopes. */
  lemma {:induction false} DeclRunFrame(r: Run, global: seq<Scope<Sym>>, d: Decl)
    requires |r.scopes| >= 1 && WellFormedDecl(d)
    ensures var o := DeclRun(r, global, d);
            Extends(r.scopes, o.scopes, DeclLeaks(d)) && r.diags <= o.diags && r.notes <= o.notes
    decreases d, 2
  {
    match d
    case VarDecl(_, _, _) =>
      if VarDeclDiags(r.scopes[0], global, d) == [] {
        VarDeclAccepted(r.scopes[0], global, d);
        BindExtends(r.scopes, d.varId.name, VarDeclSym(global, d));
      }
    case FnDecl(_, _, _, _) =>
      var named := FnNameRun(r, d);
      if d.fnId.name !in r.scopes[0] {
        BindExtends(r.scopes, d.fnId.name, FnSym(FormalTypes(d.formals), TypeString(d.retType)));
      }
      FnScopeRunFrame(named, d);
      AboveExtends(named.scopes, DeclRun(r, global, d).scopes, DeclLeaks(d));
      ExtendsTrans(r.scopes, named.scopes, DeclRun(r, global, d).scopes, 0, DeclLeaks(d));
      PrefixTrans(r.diags, named.diags, DeclRun(r, global, d).diags);
    case StructDecl(_, _) => StructRunFrame(r, d);
  }

  /**
   * A struct declaration changes the enclosing stack only by binding its name, when
   * new, to a definition whose field table started as one empty scope.
   */
  lemma {:induction false} StructRunFrame(r: Run, d: Decl)
    requires d.StructDecl? && WellFormedDecl(d) && |r.scopes| >= 1
    ensures var o := StructRun(r, d);
            && Extends(r.scopes, o.scopes, 0) && r.diags <= o.diags && r.notes <= o.notes
            && r.diags + (if d.structName.name in r.scopes[0] then [At(d.structName, MULTIPLY_DECLARED)] else []) <= o.diags
            && Extends([map[]], StructFields(r, d).scopes, DeclsLeaks(d.fields))
    decreases d, 1
  {
    var head := Run([map[]], r.diags + (if d.structName.name in r.scopes[0] then [At(d.structName, MULTIPLY_DECLARED)] else []), r.notes);
    assert StructFields(r, d) == DeclsRun(head, Some(r.scopes), d.fields);
    DeclsRunFrame(head, Some(r.scopes), d.fields);
    assert r.diags <= head.diags;
    PrefixTrans(r.diags, head.diags, StructRun(r, d).diags);
    if d.structName.name !in r.scopes[0] {
      BindExtends(r.scopes, d.structName.name, StructDefSym(StructFields(r, d).scopes));
    }
  }

  /**
   * A function's scope: everything it pushes is popped except one scope per void
   * formal; the void-formal reports come first.
   */
  lemma {:induction false} FnScopeRunFrame(r: Run, d: Decl)
    requires d.FnDecl? && WellFormedDecl(d) && |r.scopes| >= 1
    ensures var o := FnScopeRun(r, d);
            && Above(r.scopes, o.scopes, DeclLeaks(d))
            && r.diags + VoidFormalDiags(d.formals) <= o.diags && r.notes <= o.notes
    decreases d, 0
  {
    var n := VoidFormals(d.formals);
    var pushed := [map[]] + r.scopes;
    var formals := Run(EmptyScopes(n) + pushed, r.diags + VoidFormalDiags(d.formals), r.notes);
    var b := BodyRun(formals, d.body);
    assert formals.scopes[n..] == pushed;
    AboveExtends(pushed, formals.scopes, n);
    BodyRunFrame(formals, d.body);
    ExtendsTrans(pushed, formals.scopes, b.scopes, n, DeclsLeaks(d.body.decls) + StmtsLeaks(d.body.stmts));
    PopBlock(r.scopes, b.scopes, DeclLeaks(d));
  }

  lemma {:induction false} BodyRunFrame(r: Run, body: FnBody)
    requires |r.scopes| >= 1 && WellFormedDecls(body.decls) && WellFormedStmts(body.stmts)
    ensures var o := BodyRun(r, body);
            Extends(r.scopes, o.scopes, DeclsLeaks(body.decls) + StmtsLeaks(body.stmts))
            && r.diags <= o.diags && r.notes <= o.notes
    decreases body
  {
    var mid := DeclsRun(r, None, body.decls);
    var o := BodyRun(r, body);
    DeclsRunFrame(r, None, body.decls);
    StmtsRunFrame(mid, body.stmts);
    AboveExtends(mid.scopes, o.scopes, StmtsLeaks(body.stmts));
    ExtendsTrans(r.scopes, mid.scopes, o.scopes, DeclsLeaks(body.decls), StmtsLeaks(body.stmts));
    PrefixTrans(r.diags, mid.diags, o.diags);
    PrefixTrans(r.notes, mid.notes, o.notes);
  }

  /** A statement list leaves every scope of the stack as it was, below its leftover scopes. */
  lemma {:induction false} StmtsRunFrame(r: Run, ss: seq<Stmt>)
    requires |r.scopes| >= 1 && WellFormedStmts(ss)
    ensures var o := StmtsRun(r, ss);
            Above(r.scopes, o.scopes, StmtsLeaks(ss)) && r.diags <= o.diags && r.notes <= o.notes
    decreases ss
  {
    if ss == [] {
      assert r.scopes[0..] == r.scopes;
    } else {
      var k := |ss| - 1;
      assert ss[k] in ss;
      var prev := StmtsRun(r, ss[..k]);
      var o := StmtsRun(r, ss);
      assert o == StmtRun(prev, ss[k]);
      StmtsRunFrame(r, ss[..k]);
      StmtRunFrame(prev, ss[k]);
      AboveTrans(r.scopes, prev.scopes, o.scopes, StmtsLeaks(ss[..k]), StmtLeaks(ss[k]));
      PrefixTrans(r.diags, prev.diags, o.diags);
      PrefixTrans(r.notes, prev.notes, o.notes);
    }
  }

  /** One statement: the same frame. */
  lemma {:induction false} StmtRunFrame(r: Run, s: Stmt)
    requires |r.scopes| >= 1 && WellFormedStmt(s)
    ensures var o := StmtRun(r, s);
            Above(r.scopes, o.scopes, StmtLeaks(s)) && r.diags <= o.diags && r.notes <= o.notes
    decreases s, 3
  {
    if IsBlock(s) {
      BlockStmtFrame(r, s);
    } else {
      assert r.scopes[0..] == r.scopes;
    }
  }

  /** A block statement: the guard's reports come first, then each block's frame. */
  lemma {:induction false} BlockStmtFrame(r: Run, s: Stmt)
    requires |r.scopes| >= 1 && WellFormedStmt(s) && IsBlock(s)
    ensures var o := StmtRun(r, s);
            && Above(r.scopes, o.scopes, StmtLeaks(s)) && r.notes <= o.notes
            && r.diags + ExpOut(r.scopes, s.cond).diags <= o.diags
    decreases s, 2
  {
    var o := StmtRun(r, s);
    var g := ExpOut(r.scopes, s.cond);
    var guarded := Run(r.scopes, r.diags + g.diags, r.notes + g.notes);
    var first := BlockRun(guarded, s, false);
    var n1 := DeclsLeaks(BlockDecls(s, false)) + StmtsLeaks(BlockStmts(s, false));
    var n2 := DeclsLeaks(BlockDecls(s, true)) + StmtsLeaks(BlockStmts(s, true));
    assert o == if s.IfElseStmt? then BlockRun(first, s, true) else first;
    assert StmtLeaks(s) == if s.IfElseStmt? then n1 + n2 else n1;
    BlockRunFrame(guarded, s, false);
    if s.IfElseStmt? {
      BlockRunFrame(first, s, true);
      AboveTrans(r.scopes, first.scopes, o.scopes, n1, n2);
      PrefixTrans(guarded.diags, first.diags, o.diags);
      PrefixTrans(guarded.notes, first.notes, o.notes);
    }
    PrefixTrans(r.notes, guarded.notes, o.notes);
  }

  /** The inside of a block, on the stack with the block's scope pushed: declarations, then statements. */
  lemma {:induction false} BlockInsideFrame(pushed: Run, s: Stmt, second: bool)
    requires IsBlock(s) && WellFormedStmt(s) && |pushed.scopes| >= 1
    ensures var ds, ss := BlockDecls(s, second), BlockStmts(s, second);
            var inner := StmtsRun(DeclsRun(pushed, None, ds), ss);
            && Extends(pushed.scopes, inner.scopes, DeclsLeaks(ds) + StmtsLeaks(ss))
            && pushed.diags <= inner.diags && pushed.notes <= inner.notes
    decreases s, 0
  {
    var ds, ss := BlockDecls(s, second), BlockStmts(s, second);
    var mid := DeclsRun(pushed, None, ds);
    var inner := StmtsRun(mid, ss);
    DeclsRunFrame(pushed, None, ds);
    StmtsRunFrame(mid, ss);
    AboveExtends(mid.scopes, inner.scopes, StmtsLeaks(ss));
    ExtendsTrans(pushed.scopes, mid.scopes, inner.scopes, DeclsLeaks(ds), StmtsLeaks(ss));
    PrefixTrans(pushed.diags, mid.diags, inner.diags);
    PrefixTrans(pushed.notes, mid.notes, inner.notes);
  }

  /** A block pops exactly the scope it pushed, unless void formals inside it left scopes behind. */
  lemma {:induction false} BlockRunFrame(r: Run, s: Stmt, second: bool)
    requires IsBlock(s) && WellFormedStmt(s) && |r.scopes| >= 1
    ensures var o := BlockRun(r, s, second);
            && Above(r.scopes, o.scopes, DeclsLeaks(BlockDecls(s, second)) + StmtsLeaks(BlockStmts(s, second)))
            && r.diags <= o.diags && r.notes <= o.notes
    decreases s, 1
  {
    var pushed := Run([map[]] + r.scopes, r.diags, r.notes);
    var inner := StmtsRun(DeclsRun(pushed, None, BlockDecls(s, second)), BlockStmts(s, second));
    BlockInsideFrame(pushed, s, second);
    PopBlock(r.scopes, inner.scopes, DeclsLeaks(BlockDecls(s, second)) + StmtsLeaks(BlockStmts(s, second)));
  }

  /** A whole program: its declarations against a fresh one-scope table, with both logs empty. */
  function ProgramRun(p: Program): (o: Run)
    requires WellFormedDecls(p.decls)
    ensures |o.scopes| == 1 + DeclsLeaks(p.decls)
  {
    DeclsRun(Run([map[]], [], []), None, p.decls)
  }

  /**
   * The program
   *   struct Inner { int x; };
   *   struct Outer { struct Inner f; };
   *   struct Outer o;
   */
  function ChainProgram(): Program
  {
    Program([StructDecl(Id(1, 8, "Inner"), [VarDecl(IntType, Id(1, 20, "x"), 1)]),
             StructDecl(Id(2, 8, "Outer"), [VarDecl(StructType(Id(2, 23, "Inner")), Id(2, 29, "f"), 1)]),
             VarDecl(StructType(Id(3, 8, "Outer")), Id(3, 14, "o"), 1)])
  }

  /**
   * Analysing that program reports nothing, notes the two struct-type uses, and
   * leaves exactly the one-scope stack the field-chain lemmas work on.
   */
  lemma ChainProgramBuildsChainScopes()
    ensures ProgramRun(ChainProgram()).scopes == ChainScopes()
    ensures ProgramRun(ChainProgram()).diags == []
    ensures ProgramRun(ChainProgram()).notes
            == [Note(Id(2, 23, "Inner"), StructDefSym(InnerFields())), Note(Id(3, 8, "Outer"), StructDefSym(OuterFields()))]
  {
    var ds := ChainProgram().decls;
    var s2 := ChainStructsRun();
    ChainStructs();
    assert ds[..3][..2] == ds[..2] && ds[..3] == ds;
    assert Resolve(s2.scopes, "Outer") == Some(StructDefSym(OuterFields()));
  }

  /** The state after the program's two struct declarations. */
  function ChainStructsRun(): Run
  {
    Run([map["Inner" := StructDefSym(InnerFields()), "Outer" := StructDefSym(OuterFields())]], [],
        [Note(Id(2, 23, "Inner"), StructDefSym(InnerFields()))])
  }

  /** The two struct declarations: both bound, Outer's field noting its use of Inner. */
  lemma ChainStructs()
    ensures DeclsRun(Run([map[]], [], []), None, ChainProgram().decls[..2]) == ChainStructsRun()
  {
    var ds := ChainProgram().decls;
    var r0 := Run([map[]], [], []);
    assert ds[..1][..0] == [] && ds[..2][..1] == ds[..1];
    var s1 := Run([map["Inner" := StructDefSym(InnerFields())]], [], []);
    assert DeclsRun(Run([map[]], [], []), Some(r0.scopes), ds[0].fields) == Run(InnerFields(), [], []);
    assert DeclsRun(r0, None, ds[..1]) == s1;
    assert Resolve(s1.scopes, "Inner") == Some(StructDefSym(InnerFields()));
    assert DeclsRun(Run([map[]], [], []), Some(s1.scopes), ds[1].fields)
        == Run(OuterFields(), [], [Note(Id(2, 23, "Inner"), StructDefSym(InnerFields()))]);
  }
}
