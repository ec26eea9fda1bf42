/**
 * The name-analysis pass of p4/ast.java: a recursive walk that pushes and pops
 * scopes around function bodies and blocks, inserts declarations, resolves
 * identifiers and field-access chains, and reports every error without stopping.
 * The diagnostic sink and the symbols written onto tree nodes are the two logs of
 * an Analyzer object; the symbol tables are SymTable objects changed in place.
 */
module Analysis {
  import opened Wrappers
  import opened Scopes
  import opened Symbols
  import opened Ast
  import opened AnalysisSpec
  import opened PassSpec

  class Analyzer {
    /** Everything reported to the diagnostic sink, in order. */
    var diags: seq<Diag>
    /** Every symbol written onto a tree node, in order. */
    var notes: seq<Note>

    constructor ()
      ensures diags == [] && notes == []
    {
      diags := [];
      notes := [];
    }

    /** The pass's state as seen through table `t`: its stack and both logs. */
    function Now(t: SymTable<Sym>): Run
      reads this, t
    {
      Run(t.scopes, diags, notes)
    }

    method Report(id: Id, msg: string)
      modifies this`diags
      ensures diags == old(diags) + [At(id, msg)]
    {
      diags := diags + [At(id, msg)];
    }

    /** IdNode.analysis: a global lookup; the symbol is recorded, or "undeclared" reported. */
    method AnalyzeId(t: SymTable<Sym>, id: Id) returns (r: Resolution)
      requires |t.scopes| >= 1
      modifies this
      ensures r == IdOut(t.scopes, id).res
      ensures diags == old(diags) + IdOut(t.scopes, id).diags
      ensures notes == old(notes) + IdOut(t.scopes, id).notes
    {
      var found := t.LookupGlobal(id.name);
      assert found.Success?;
      if found.value.None? {
        Report(id, UNDECLARED);
        r := NoResolution;
      } else {
        notes := notes + [Note(id, found.value.value)];
        r := Resolution(found.value, false);
      }
    }

    /** ExpNode.analysis for every expression kind; the table is only read. */
    method AnalyzeExp(t: SymTable<Sym>, e: Exp) returns (r: Resolution)
      requires |t.scopes| >= 1 && WellFormedExp(e)
      modifies this
      ensures r == ExpOut(t.scopes, e).res
      ensures diags == old(diags) + ExpOut(t.scopes, e).diags
      ensures notes == old(notes) + ExpOut(t.scopes, e).notes
      decreases e, 1
    {
      ghost var d0, n0 := diags, notes;
      match e
      case IdExp(id) => r := AnalyzeId(t, id);
      case DotAccess(loc, field) => r := AnalyzeDotAccess(t, loc, field);
      case Assign(lhs, rhs) =>
        AnalyzePair(t, e, lhs, rhs);
        AppendAssoc(d0, ExpOut(t.scopes, lhs).diags, ExpOut(t.scopes, rhs).diags);
        AppendAssoc(n0, ExpOut(t.scopes, lhs).notes, ExpOut(t.scopes, rhs).notes);
        r := NoResolution;
      case Binary(_, lhs, rhs) =>
        AnalyzePair(t, e, lhs, rhs);
        AppendAssoc(d0, ExpOut(t.scopes, lhs).diags, ExpOut(t.scopes, rhs).diags);
        AppendAssoc(n0, ExpOut(t.scopes, lhs).notes, ExpOut(t.scopes, rhs).notes);
        r := NoResolution;
      case Call(_, _) => r := AnalyzeCall(t, e);
      case Unary(_, x) =>
        var _ := AnalyzeExp(t, x);
        assert [] + ExpOut(t.scopes, x).diags == ExpOut(t.scopes, x).diags;
        assert [] + ExpOut(t.scopes, x).notes == ExpOut(t.scopes, x).notes;
        r := NoResolution;
      case _ => r := NoResolution;
    }

    /**
     * AssignNode and BinaryExpNode (`e`): both operands, left to right; the node
     * carries no symbol of its own.
     */
    method AnalyzePair(t: SymTable<Sym>, ghost e: Exp, lhs: Exp, rhs: Exp)
      requires |t.scopes| >= 1 && WellFormedExp(lhs) && WellFormedExp(rhs)
      requires e == Assign(lhs, rhs) || (e.Binary? && e.left == lhs && e.right == rhs)
      modifies this
      ensures diags == old(diags) + ExpOut(t.scopes, lhs).diags + ExpOut(t.scopes, rhs).diags
      ensures notes == old(notes) + ExpOut(t.scopes, lhs).notes + ExpOut(t.scopes, rhs).notes
      decreases e, 0
    {
      var _ := AnalyzeExp(t, lhs);
      var _ := AnalyzeExp(t, rhs);
    }

    /** CallExpNode: the callee identifier, then the arguments; no symbol of its own. */
    method AnalyzeCall(t: SymTable<Sym>, e: Exp) returns (r: Resolution)
      requires |t.scopes| >= 1 && WellFormedExp(e) && e.Call?
      modifies this
      ensures r == ExpOut(t.scopes, e).res
      ensures diags == old(diags) + ExpOut(t.scopes, e).diags
      ensures notes == old(notes) + ExpOut(t.scopes, e).notes
      decreases e, 0
    {
      ghost var sc, d0, n0 := t.scopes, diags, notes;
      assert ExpOut(sc, e) == Both(IdOut(sc, e.callee), ExpsOut(sc, e.args));
      var _ := AnalyzeId(t, e.callee);
      AnalyzeExps(t, e.args);
      AppendAssoc(d0, IdOut(sc, e.callee).diags, ExpsOut(sc, e.args).diags);
      AppendAssoc(n0, IdOut(sc, e.callee).notes, ExpsOut(sc, e.args).notes);
      r := NoResolution;
    }

    /**
     * DotAccessExpNode.analysis: analyse the prefix, pick the struct's field table
     * (or report / propagate an error), then look the field up in that table.
     */
    method AnalyzeDotAccess(t: SymTable<Sym>, loc: Exp, field: Id) returns (r: Resolution)
      requires |t.scopes| >= 1 && IsChain(loc)
      modifies this
      ensures r == ExpOut(t.scopes, DotAccess(loc, field)).res
      ensures diags == old(diags) + ExpOut(t.scopes, DotAccess(loc, field)).diags
      ensures notes == old(notes) + ExpOut(t.scopes, DotAccess(loc, field)).notes
      decreases DotAccess(loc, field), 0
    {
      var lr := AnalyzeExp(t, loc);
      var boom := false;
      var table: seq<Scope<Sym>> := [];
      if loc.IdExp? {
        if lr.sym.None? {
          boom := true;
        } else if lr.sym.value.StructSym? {
          table := lr.sym.value.Definition().fields;
        } else {
          Report(loc.id, DOT_NON_STRUCT);
          boom := true;
        }
      } else {
        if lr.boom {
          boom := true;
        } else if lr.sym.None? {
          Report(loc.field, DOT_NON_STRUCT);
          boom := true;
        } else {
          table := lr.sym.value.fields;
        }
      }
      if boom {
        r := Resolution(None, true);
        return;
      }
      var f := FindInScopes(table, field.name);
      if f.None? {
        Report(field, INVALID_FIELD);
        r := Resolution(None, true);
      } else if f.value.StructSym? {
        var def := f.value.Definition();
        notes := notes + [Note(field, def)];
        r := Resolution(Some(def), false);
      } else {
        r := Resolution(None, false);
      }
    }

    /** ExpListNode.analysis: each expression in order. */
    method AnalyzeExps(t: SymTable<Sym>, es: seq<Exp>)
      requires |t.scopes| >= 1 && forall a :: a in es ==> WellFormedExp(a)
      modifies this
      ensures diags == old(diags) + ExpsOut(t.scopes, es).diags
      ensures notes == old(notes) + ExpsOut(t.scopes, es).notes
      decreases es
    {
      var i := 0;
      while i < |es|
        invariant 0 <= i <= |es|
        invariant diags == old(diags) + ExpsOut(t.scopes, es[..i]).diags
        invariant notes == old(notes) + ExpsOut(t.scopes, es[..i]).notes
      {
        var _ := AnalyzeExp(t, es[i]);
        ExpsOutStep(t.scopes, es, i);
        AppendAssoc(old(diags), ExpsOut(t.scopes, es[..i]).diags, ExpOut(t.scopes, es[i]).diags);
        AppendAssoc(old(notes), ExpsOut(t.scopes, es[..i]).notes, ExpOut(t.scopes, es[i]).notes);
        i := i + 1;
      }
      assert es[..i] == es;
    }

    /**
     * VarDeclNode.analysis(symTable, globalTable): the void check, the struct-type
     * check against `global`, the duplicate check against the innermost scope of `t`;
     * the variable is bound only when none of them reported.  Returns the bound
     * symbol, or else whatever the struct-type lookup found.
     */
    method AnalyzeVarDecl(t: SymTable<Sym>, global: SymTable<Sym>, d: Decl) returns (r: Option<Sym>)
      requires d.VarDecl? && |t.scopes| >= 1 && |global.scopes| >= 1
      modifies t, this
      ensures var errs := VarDeclDiags(old(t.scopes)[0], old(global.scopes), d);
              && diags == old(diags) + errs
              && (errs == [] ==>
                    && t.scopes == [old(t.scopes)[0][d.varId.name := VarDeclSym(old(global.scopes), d)]] + old(t.scopes)[1..]
                    && r == Some(VarDeclSym(old(global.scopes), d)))
              && (errs != [] ==> t.scopes == old(t.scopes))
      ensures var def := StructTypeDef(old(global.scopes), d.varType);
              notes == old(notes) + (if def.Some? then [Note(d.varType.structId, def.value)] else [])
      ensures Extends(old(t.scopes), t.scopes, 0)
      ensures Now(t) == VarDeclRun(old(Now(t)), old(global.scopes), d)
    {
      ghost var front, globalScopes := t.scopes[0], global.scopes;
      var name := d.varId.name;
      var boom := false;
      var sym: Option<Sym> := None;
      var def: seq<Scope<Sym>> := [];
      if d.varType == VoidType {
        Report(d.varId, NON_FUNCTION_VOID);
        boom := true;
      } else if d.varType.StructType? {
        var structId := d.varType.structId;
        var found := global.LookupGlobal(structId.name);
        assert found.Success?;
        sym := found.value;
        if sym.None? || !sym.value.StructDefSym? {
          Report(structId, INVALID_STRUCT_TYPE);
          boom := true;
        } else {
          notes := notes + [Note(structId, sym.value)];
          def := sym.value.fields;
        }
      }
      var local := t.LookupLocal(name);
      assert local.Success?;
      if local.value.Some? {
        Report(d.varId, MULTIPLY_DECLARED);
        boom := true;
      }
      if !boom {
        var declared := if d.varType.StructType? then StructSym(d.varType.structId.name, def) else VarSym(TypeString(d.varType));
        assert declared == VarDeclSym(globalScopes, d);
        var added := t.AddDecl(name, declared);
        assert added.Success?;
        sym := Some(declared);
      }
      r := sym;
    }

    /**
     * FormalDeclNode.analysis as written: the void and duplicate checks against the
     * innermost scope, then a transient scope is pushed; a well-formed formal is
     * bound in it and the scope popped again, an ill-formed one leaves it pushed.
     */
    method AnalyzeFormal(t: SymTable<Sym>, f: Formal) returns (r: Option<Sym>)
      requires |t.scopes| >= 1
      modifies t, this
      ensures var isVoid, dup := f.formalType == VoidType, f.formalId.name in old(t.scopes)[0];
              && diags == old(diags) + (if isVoid then [At(f.formalId, NON_FUNCTION_VOID)] else [])
                                     + (if dup then [At(f.formalId, MULTIPLY_DECLARED_FORMAL)] else [])
              && (isVoid || dup ==> t.scopes == [map[]] + old(t.scopes) && r == None)
              && (!isVoid && !dup ==> t.scopes == old(t.scopes) && r == Some(VarSym(TypeString(f.formalType))))
      ensures notes == old(notes)
    {
      var name := f.formalId.name;
      var boom := false;
      r := None;
      if f.formalType == VoidType {
        Report(f.formalId, NON_FUNCTION_VOID);
        boom := true;
      }
      var local := t.LookupLocal(name);
      assert local.Success?;
      if local.value.Some? {
        Report(f.formalId, MULTIPLY_DECLARED_FORMAL);
        boom := true;
      }
      t.AddScope();
      if !boom {
        var sym := VarSym(TypeString(f.formalType));
        var added := t.AddDecl(name, sym);
        assert added.Success?;
        var removed := t.RemoveScope();
        assert removed.Success?;
        r := Some(sym);
      }
    }

    /**
     * The corrected formal analysis: the parameter is bound directly in the function's
     * scope, without a transient scope, so that it is visible in the body and a
     * repeated parameter name is reported.
     */
    method AnalyzeFormalCorrected(t: SymTable<Sym>, f: Formal) returns (r: Option<Sym>)
      requires |t.scopes| >= 1
      modifies t, this
      ensures var isVoid, dup := f.formalType == VoidType, f.formalId.name in old(t.scopes)[0];
              && diags == old(diags) + (if isVoid then [At(f.formalId, NON_FUNCTION_VOID)] else [])
                                     + (if dup then [At(f.formalId, MULTIPLY_DECLARED_FORMAL)] else [])
              && (isVoid || dup ==> t.scopes == old(t.scopes) && r == None)
              && (!isVoid && !dup ==>
                    && t.scopes == [old(t.scopes)[0][f.formalId.name := VarSym(TypeString(f.formalType))]] + old(t.scopes)[1..]
                    && r == Some(VarSym(TypeString(f.formalType))))
      ensures notes == old(notes)
    {
      var name := f.formalId.name;
      var boom := false;
      r := None;
      if f.formalType == VoidType {
        Report(f.formalId, NON_FUNCTION_VOID);
        boom := true;
      }
      var local := t.LookupLocal(name);
      assert local.Success?;
      if local.value.Some? {
        Report(f.formalId, MULTIPLY_DECLARED_FORMAL);
        boom := true;
      }
      if !boom {
        var sym := VarSym(TypeString(f.formalType));
        var added := t.AddDecl(name, sym);
        assert added.Success?;
        r := Some(sym);
      }
    }

    /**
     * FormalsListNode.analysis inside a fresh function scope.  Because a well-formed
     * formal leaves nothing behind and an ill-formed one leaves an empty scope, the
     * innermost scope is always empty when a formal is checked: no duplicate is ever
     * reported, only void formals are, and each of them leaves one scope pushed.
     */
    method AnalyzeFormals(t: SymTable<Sym>, fs: seq<Formal>) returns (types: seq<string>)
      requires |t.scopes| >= 1 && t.scopes[0] == map[]
      modifies t, this
      ensures types == NonVoidTypes(fs)
      ensures diags == old(diags) + VoidFormalDiags(fs)
      ensures t.scopes == EmptyScopes(VoidFormals(fs)) + old(t.scopes)
      ensures notes == old(notes)
    {
      types := [];
      var i := 0;
      while i < |fs|
        invariant 0 <= i <= |fs|
        invariant types == NonVoidTypes(fs[..i])
        invariant diags == old(diags) + VoidFormalDiags(fs[..i])
        invariant t.scopes == EmptyScopes(VoidFormals(fs[..i])) + old(t.scopes)
        invariant notes == old(notes)
      {
        assert t.scopes[0] == map[];
        var f := fs[i];
        FormalsStep(fs, i, old(diags), old(t.scopes));
        var sym := AnalyzeFormal(t, f);
        if sym.Some? {
          types := types + [sym.value.GetType()];
        }
        i := i + 1;
      }
      assert fs[..i] == fs;
    }

    /**
     * FnDeclNode.analysis: bind the function in the enclosing scope unless the name is
     * already there, then analyse formals and body in a scope of their own.  The
     * enclosing scope ends up changed only by that binding, with one scope per void
     * formal (anywhere in the function) left above it.
     */
    method AnalyzeFnDecl(t: SymTable<Sym>, d: Decl)
      requires d.FnDecl? && WellFormedDecl(d) && |t.scopes| >= 1
      modifies t, this
      ensures var name := d.fnId.name;
              var dup := name in old(t.scopes)[0];
              var front := if dup then old(t.scopes)[0]
                           else old(t.scopes)[0][name := FnSym(FormalTypes(d.formals), TypeString(d.retType))];
              && Above([front] + old(t.scopes)[1..], t.scopes, DeclLeaks(d))
              && old(diags) + (if dup then [At(d.fnId, MULTIPLY_DECLARED)] else []) + VoidFormalDiags(d.formals) <= diags
      ensures Extends(old(t.scopes), t.scopes, DeclLeaks(d))
      ensures old(notes) <= notes
      ensures Now(t) == FnScopeRun(FnNameRun(old(Now(t)), d), d)
      decreases d, 1
    {
      ghost var r0 := Now(t);
      BindFnName(t, d);
      AnalyzeFnScope(t, d);
      FnScopeRunFrame(FnNameRun(r0, d), d);
      DeclRunFrame(r0, r0.scopes, d);
    }

    /** The first step of FnDeclNode.analysis: bind the function's name unless the front scope has it. */
    method BindFnName(t: SymTable<Sym>, d: Decl)
      requires d.FnDecl? && |t.scopes| >= 1
      modifies t, this
      ensures var name := d.fnId.name;
              var dup := name in old(t.scopes)[0];
              && t.scopes == [if dup then old(t.scopes)[0]
                              else old(t.scopes)[0][name := FnSym(FormalTypes(d.formals), TypeString(d.retType))]]
                             + old(t.scopes)[1..]
              && diags == old(diags) + (if dup then [At(d.fnId, MULTIPLY_DECLARED)] else [])
      ensures Extends(old(t.scopes), t.scopes, 0)
      ensures notes == old(notes)
      ensures Now(t) == FnNameRun(old(Now(t)), d)
    {
      var name := d.fnId.name;
      var local := t.LookupLocal(name);
      assert local.Success?;
      if local.value.Some? {
        Report(d.fnId, MULTIPLY_DECLARED);
        assert t.scopes == [t.scopes[0]] + t.scopes[1..];
      } else {
        var sym := FnSym(FormalTypes(d.formals), TypeString(d.retType));
        var added := t.AddDecl(name, sym);
        assert added.Success?;
      }
    }

    /** The scope of a function: push it, analyse the formals and the body, pop one scope. */
    method AnalyzeFnScope(t: SymTable<Sym>, d: Decl)
      requires d.FnDecl? && WellFormedDecl(d) && |t.scopes| >= 1
      modifies t, this
      ensures Above(old(t.scopes), t.scopes, DeclLeaks(d))
      ensures old(diags) + VoidFormalDiags(d.formals) <= diags
      ensures old(notes) <= notes
      ensures Now(t) == FnScopeRun(old(Now(t)), d)
      decreases d, 0
    {
      ghost var r0 := Now(t);
      t.AddScope();
      var _ := AnalyzeFormals(t, d.formals);
      ghost var formals := Now(t);
      assert formals == Run(EmptyScopes(VoidFormals(d.formals)) + ([map[]] + r0.scopes),
                            r0.diags + VoidFormalDiags(d.formals), r0.notes);
      AnalyzeFnBody(t, d.body);
      assert Now(t) == BodyRun(formals, d.body);
      var removed := t.RemoveScope();
      assert removed.Success?;
      FnScopeRunFrame(r0, d);
    }

    /** FnBodyNode.analysis: the local declarations, then the statements, in the current scope. */
    method AnalyzeFnBody(t: SymTable<Sym>, body: FnBody)
      requires WellFormedDecls(body.decls) && WellFormedStmts(body.stmts) && |t.scopes| >= 1
      modifies t, this
      ensures Extends(old(t.scopes), t.scopes, DeclsLeaks(body.decls) + StmtsLeaks(body.stmts))
      ensures old(diags) <= diags && old(notes) <= notes
      ensures Now(t) == BodyRun(old(Now(t)), body)
      decreases body
    {
      ghost var r0 := Now(t);
      AnalyzeDecls(t, t, body.decls);
      AnalyzeStmts(t, body.stmts);
      BodyRunFrame(r0, body);
    }

    /**
     * StructDeclNode.analysis: the duplicate check, then the fields are analysed into a
     * brand-new table (struct types of fields resolve in the enclosing table), and
     * the struct is bound to a definition owning that table unless it was a duplicate.
     */
    method AnalyzeStructDecl(t: SymTable<Sym>, d: Decl)
      requires d.StructDecl? && WellFormedDecl(d) && |t.scopes| >= 1
      modifies t, this
      ensures Extends(old(t.scopes), t.scopes, 0)
      ensures var name := d.structName.name;
              && (name in old(t.scopes)[0] ==> t.scopes == old(t.scopes))
              && (name !in old(t.scopes)[0] ==>
                    && name in t.scopes[0]
                    && t.scopes[0][name].StructDefSym?
                    && Extends([map[]], t.scopes[0][name].fields, DeclsLeaks(d.fields))
                    && t.scopes == [old(t.scopes)[0][name := t.scopes[0][name]]] + old(t.scopes)[1..])
      ensures old(diags) + (if d.structName.name in old(t.scopes)[0] then [At(d.structName, MULTIPLY_DECLARED)] else []) <= diags
      ensures old(notes) <= notes
      ensures Now(t) == StructRun(old(Now(t)), d)
      decreases d, 1
    {
      ghost var r0 := Now(t);
      var name := d.structName.name;
      var boom := false;
      var local := t.LookupLocal(name);
      assert local.Success?;
      if local.value.Some? {
        Report(d.structName, MULTIPLY_DECLARED);
        boom := true;
      }
      assert boom == (name in r0.scopes[0]);
      assert diags == r0.diags + (if boom then [At(d.structName, MULTIPLY_DECLARED)] else []);
      ghost var fields := DeclsRun(Run([map[]], diags, notes), Some(t.scopes), d.fields);
      assert fields == StructFields(r0, d);
      var fieldTable := new SymTable<Sym>();
      AnalyzeDecls(fieldTable, t, d.fields);
      assert Now(fieldTable) == fields;
      if !boom {
        var sym := StructDefSym(fieldTable.scopes);
        var added := t.AddDecl(name, sym);
        assert added.Success?;
      }
      StructRunFrame(r0, d);
    }

    /** One declaration of a list: a variable gets `global` for its struct type, the others only `t`. */
    method AnalyzeDecl(t: SymTable<Sym>, global: SymTable<Sym>, d: Decl)
      requires WellFormedDecl(d) && |t.scopes| >= 1 && |global.scopes| >= 1
      modifies t, this
      ensures Extends(old(t.scopes), t.scopes, DeclLeaks(d))
      ensures old(diags) <= diags && old(notes) <= notes
      ensures Now(t) == DeclRun(old(Now(t)), old(global.scopes), d)
      decreases d, 2
    {
      ghost var r0 := Now(t);
      match d {
        case VarDecl(_, _, _) => var _ := AnalyzeVarDecl(t, global, d);
        case FnDecl(_, _, _, _) => AnalyzeFnDecl(t, d);
        case StructDecl(_, _) => AnalyzeStructDecl(t, d);
      }
      DeclRunFrame(r0, old(global.scopes), d);
    }

    /**
     * DeclListNode.analysis(symTable, globalTable): each declaration in order; a
     * variable gets `global` for its struct type, the others only `t`.
     */
    method AnalyzeDecls(t: SymTable<Sym>, global: SymTable<Sym>, ds: seq<Decl>)
      requires WellFormedDecls(ds) && |t.scopes| >= 1 && |global.scopes| >= 1
      modifies t, this
      ensures Extends(old(t.scopes), t.scopes, DeclsLeaks(ds))
      ensures old(diags) <= diags && old(notes) <= notes
      ensures Now(t) == DeclsRun(old(Now(t)), if global == t then None else Some(old(global.scopes)), ds)
      decreases ds
    {
      ghost var r0, ext := Now(t), if global == t then None else Some(global.scopes);
      var i := 0;
      while i < |ds|
        invariant 0 <= i <= |ds|
        invariant global != t ==> global.scopes == old(global.scopes)
        invariant WellFormedDecls(ds[..i]) && Now(t) == DeclsRun(r0, ext, ds[..i])
      {
        ghost var prev := Now(t);
        var d := ds[i];
        DeclsRunStep(r0, ext, ds, i);
        assert global.scopes == if ext.Some? then ext.value else prev.scopes;
        AnalyzeDecl(t, global, d);
        assert Now(t) == DeclsRun(r0, ext, ds[..i + 1]);
        i := i + 1;
      }
      assert ds[..i] == ds;
      DeclsRunFrame(r0, ext, ds);
    }

    /**
     * The block of an if, if-else (then part, or else part when `second`), while or
     * repeat statement: push a scope, analyse its declarations and statements, pop.
     */
    method AnalyzeBlock(t: SymTable<Sym>, s: Stmt, second: bool)
      requires IsBlock(s) && WellFormedStmt(s) && |t.scopes| >= 1
      modifies t, this
      ensures Above(old(t.scopes), t.scopes, DeclsLeaks(BlockDecls(s, second)) + StmtsLeaks(BlockStmts(s, second)))
      ensures old(diags) <= diags && old(notes) <= notes
      ensures Now(t) == BlockRun(old(Now(t)), s, second)
      decreases s, 0
    {
      var ds, ss := BlockDecls(s, second), BlockStmts(s, second);
      ghost var r0 := Now(t);
      t.AddScope();
      AnalyzeDecls(t, t, ds);
      AnalyzeStmts(t, ss);
      var removed := t.RemoveScope();
      assert removed.Success?;
      BlockRunFrame(r0, s, second);
    }

    /**
     * StmtNode.analysis.  A statement without a block analyses its expressions in
     * order and leaves the table as it was; a block statement analyses its guard in
     * the current scope and then each block in a scope of its own.  Either way every
     * scope below the ones left over by void formals is as it was.
     */
    method AnalyzeStmt(t: SymTable<Sym>, s: Stmt)
      requires WellFormedStmt(s) && |t.scopes| >= 1
      modifies t, this
      ensures Above(old(t.scopes), t.scopes, StmtLeaks(s))
      ensures !IsBlock(s) ==>
                && t.scopes == old(t.scopes)
                && diags == old(diags) + ExpsOut(old(t.scopes), StmtExps(s)).diags
                && notes == old(notes) + ExpsOut(old(t.scopes), StmtExps(s)).notes
      ensures IsBlock(s) ==> old(diags) + ExpOut(old(t.scopes), s.cond).diags <= diags
      ensures old(diags) <= diags && old(notes) <= notes
      ensures Now(t) == StmtRun(old(Now(t)), s)
      decreases s, 2
    {
      ghost var r0 := Now(t);
      if IsBlock(s) {
        AnalyzeBlockStmt(t, s);
      } else {
        assert forall a :: a in StmtExps(s) ==> WellFormedExp(a);
        AnalyzeExps(t, StmtExps(s));
      }
      StmtRunFrame(r0, s);
    }

    /**
     * IfStmtNode, IfElseStmtNode, WhileStmtNode and RepeatStmtNode: the guard in the
     * current scope, then the block (then both blocks) each in a scope of its own.
     */
    method AnalyzeBlockStmt(t: SymTable<Sym>, s: Stmt)
      requires IsBlock(s) && WellFormedStmt(s) && |t.scopes| >= 1
      modifies t, this
      ensures Above(old(t.scopes), t.scopes, StmtLeaks(s))
      ensures old(diags) + ExpOut(old(t.scopes), s.cond).diags <= diags
      ensures old(notes) <= notes
      ensures Now(t) == StmtRun(old(Now(t)), s)
      decreases s, 1
    {
      ghost var r0 := Now(t);
      var _ := AnalyzeExp(t, s.cond);
      AnalyzeBlock(t, s, false);
      if s.IfElseStmt? {
        AnalyzeBlock(t, s, true);
      }
      BlockStmtFrame(r0, s);
    }

    /** StmtListNode.analysis: each statement in order. */
    method AnalyzeStmts(t: SymTable<Sym>, ss: seq<Stmt>)
      requires WellFormedStmts(ss) && |t.scopes| >= 1
      modifies t, this
      ensures Above(old(t.scopes), t.scopes, StmtsLeaks(ss))
      ensures old(diags) <= diags && old(notes) <= notes
      ensures Now(t) == StmtsRun(old(Now(t)), ss)
      decreases ss
    {
      ghost var r0 := Now(t);
      var i := 0;
      while i < |ss|
        invariant 0 <= i <= |ss|
        invariant WellFormedStmts(ss[..i]) && Now(t) == StmtsRun(r0, ss[..i])
      {
        StmtsRunStep(r0, ss, i);
        AnalyzeStmt(t, ss[i]);
        assert Now(t) == StmtsRun(r0, ss[..i + 1]);
        i := i + 1;
      }
      assert ss[..i] == ss;
      StmtsRunFrame(r0, ss);
    }
  }

  /**
   * ProgramNode.analysis: the declarations analysed against a fresh one-scope table.
   * Afterwards the table holds its one scope plus one per void formal of a function
   * not declared in a struct's field list.
   */
  method AnalyzeProgram(p: Program) returns (diags: seq<Diag>, notes: seq<Note>, depth: nat)
    requires WellFormedDecls(p.decls)
    ensures depth == 1 + DeclsLeaks(p.decls)
    ensures diags == ProgramRun(p).diags && notes == ProgramRun(p).notes && depth == |ProgramRun(p).scopes|
  {
    var analyzer := new Analyzer();
    var t := new SymTable<Sym>();
    analyzer.AnalyzeDecls(t, t, p.decls);
    diags, notes, depth := analyzer.diags, analyzer.notes, |t.scopes|;
  }
}
