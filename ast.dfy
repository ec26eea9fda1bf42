/**
 * The abstract syntax tree of an egg program, as built by the parser.  Identifier
 * nodes carry their name and source position; lists of children keep their order.
 */
module Ast {
  import opened Wrappers

  /** An identifier occurrence: line, column and name. */
  datatype Id = Id(line: int, col: int, name: string)

  datatype Type = IntType | BoolType | VoidType | StructType(structId: Id)

  datatype Program = Program(decls: seq<Decl>)

  datatype Decl =
    | VarDecl(varType: Type, varId: Id, size: int)
    | FnDecl(retType: Type, fnId: Id, formals: seq<Formal>, body: FnBody)
    | StructDecl(structName: Id, fields: seq<Decl>)

  datatype Formal = Formal(formalType: Type, formalId: Id)

  datatype FnBody = FnBody(decls: seq<Decl>, stmts: seq<Stmt>)

  datatype Stmt =
    | AssignStmt(assign: Exp)
    | PostIncStmt(exp: Exp)
    | PostDecStmt(exp: Exp)
    | ReadStmt(exp: Exp)
    | WriteStmt(exp: Exp)
    | IfStmt(cond: Exp, decls: seq<Decl>, stmts: seq<Stmt>)
    | IfElseStmt(cond: Exp, thenDecls: seq<Decl>, thenStmts: seq<Stmt>,
                 elseDecls: seq<Decl>, elseStmts: seq<Stmt>)
    | WhileStmt(cond: Exp, decls: seq<Decl>, stmts: seq<Stmt>)
    | RepeatStmt(cond: Exp, decls: seq<Decl>, stmts: seq<Stmt>)
    | CallStmt(call: Exp)
    | ReturnStmt(result: Option<Exp>)

  datatype UnaryOp = Negate | Not

  datatype BinaryOp = Plus | Minus | Times | Divide | And | Or
                    | Equals | NotEquals | Less | Greater | LessEq | GreaterEq

  datatype Exp =
    | IntLit(line: int, col: int, intVal: int)
    | StringLit(line: int, col: int, strVal: string)
    | TrueLit(line: int, col: int)
    | FalseLit(line: int, col: int)
    | IdExp(id: Id)
    | DotAccess(loc: Exp, field: Id)
    | Assign(lhs: Exp, rhs: Exp)
    | Call(callee: Id, args: seq<Exp>)
    | Unary(uop: UnaryOp, operand: Exp)
    | Binary(bop: BinaryOp, left: Exp, right: Exp)

  /** TypeNode.toString: the keyword of a primitive type, the name of a struct type. */
  function TypeString(t: Type): (s: string)
    ensures t.StructType? ==> s == t.structId.name
    ensures !t.StructType? ==>
              && (s == "void" <==> t == VoidType)
              && (s == "int" <==> t == IntType)
              && (s == "bool" <==> t == BoolType)
  {
    match t
    case IntType => "int"
    case BoolType => "bool"
    case VoidType => "void"
    case StructType(id) => id.name
  }

  /** FormalsListNode.getTypeList: the type string of every formal, in order. */
  function FormalTypes(formals: seq<Formal>): (ts: seq<string>)
    ensures |ts| == |formals|
    ensures forall i :: 0 <= i < |formals| ==> ts[i] == TypeString(formals[i].formalType)
  {
    if formals == [] then [] else [TypeString(formals[0].formalType)] + FormalTypes(formals[1..])
  }

  /** A field-access chain: identifiers joined by dots, nothing else as a prefix. */
  predicate IsChain(e: Exp)
  {
    match e
    case IdExp(_) => true
    case DotAccess(loc, _) => IsChain(loc)
    case _ => false
  }

  /** Every dot-access in the expression has an identifier or a dot-access as its prefix. */
  predicate WellFormedExp(e: Exp)
  {
    match e
    case DotAccess(loc, _) => IsChain(loc)
    case Assign(l, r) => WellFormedExp(l) && WellFormedExp(r)
    case Call(_, args) => forall a :: a in args ==> WellFormedExp(a)
    case Unary(_, x) => WellFormedExp(x)
    case Binary(_, l, r) => WellFormedExp(l) && WellFormedExp(r)
    case _ => true
  }

  predicate WellFormedStmt(s: Stmt)
  {
    match s
    case AssignStmt(e) => WellFormedExp(e)
    case PostIncStmt(e) => WellFormedExp(e)
    case PostDecStmt(e) => WellFormedExp(e)
    case ReadStmt(e) => WellFormedExp(e)
    case WriteStmt(e) => WellFormedExp(e)
    case IfStmt(c, ds, ss) => WellFormedExp(c) && WellFormedDecls(ds) && WellFormedStmts(ss)
    case IfElseStmt(c, ds1, ss1, ds2, ss2) =>
      WellFormedExp(c) && WellFormedDecls(ds1) && WellFormedStmts(ss1)
      && WellFormedDecls(ds2) && WellFormedStmts(ss2)
    case WhileStmt(c, ds, ss) => WellFormedExp(c) && WellFormedDecls(ds) && WellFormedStmts(ss)
    case RepeatStmt(c, ds, ss) => WellFormedExp(c) && WellFormedDecls(ds) && WellFormedStmts(ss)
    case CallStmt(e) => WellFormedExp(e)
    case ReturnStmt(r) => r.Some? ==> WellFormedExp(r.value)
  }

  predicate WellFormedStmts(ss: seq<Stmt>)
  {
    forall s :: s in ss ==> WellFormedStmt(s)
  }

  predicate WellFormedDecl(d: Decl)
  {
    match d
    case VarDecl(_, _, _) => true
    case FnDecl(_, _, _, body) => WellFormedDecls(body.decls) && WellFormedStmts(body.stmts)
    case StructDecl(_, fields) => WellFormedDecls(fields)
  }

  predicate WellFormedDecls(ds: seq<Decl>)
  {
    forall d :: d in ds ==> WellFormedDecl(d)
  }
}
