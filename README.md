# Name analysis of a small C-like language, in Dafny

This project models the semantic (name) analysis stage of a compiler front end
for a small C-like language with functions, structs and block-scoped variables.
The model has two parts.

- **The scoped symbol table** of `p1/SymTable.java`. It is a stack of
  name-to-symbol maps, with index 0 as the innermost scope. It supports
  front-scope insertion, push and pop, a local lookup and an innermost-first
  global lookup, and it fails on an empty stack and on a duplicate name.
- **The name-analysis pass** of `p4/ast.java`. It is a recursive walk over the
  syntax tree that:
  - pushes and pops scopes around function bodies and blocks;
  - binds variables, functions and structs;
  - resolves identifiers and chained field accesses (`a.b.c`) through nested
    struct definitions;
  - reports every semantic error without stopping.

Modules:

| module | file | what it holds |
|---|---|---|
| `Wrappers` | wrappers.dfy | `Option` and `Result` |
| `Scopes` | scopes.dfy | `SymTable<V>`, a class over `seq<map<string, V>>`. It comes with the pure lookup `Resolve` and its lemmas (innermost binding, shadowing) and with the lookup loop `FindInScopes`. |
| `Symbols` | symbols.dfy | `BasicSym`, the record of `p1/Sym.java`. The p4 symbol kinds as a datatype `Sym` (variable, function, struct definition owning its field table, struct instance). The rendering of a function signature. |
| `SymObjects` | sym_objects.dfy | The mutable links of `p4/Sym.java` (`setStruct`/`getStruct`, `setSymTable`/`getSymTable`) as a class. It includes the `StructSym` field shadowing. |
| `Ast` | ast.dfy | The syntax tree as datatypes, `TypeNode.toString`, `getTypeList`, and the well-formedness of dot-access prefixes. |
| `AnalysisSpec` | analysis_spec.dfy | What the pass computes, as functions. This covers the outcome of an expression (resolution, reports, symbols written on nodes), the reports of a variable declaration, and how many scopes a declaration or statement leaves pushed. It also has the frame relations between the stack before and after a step (`Above`, `Extends`). |
| `PassSpec` | pass_spec.dfy | What the declaration and statement analyses do to the table and the two logs, as functions on a `Run` (scope stack, reports, recorded symbols): `DeclsRun`, `StmtsRun` and their parts, and `ProgramRun`. It also has the frame lemmas about them and the field-chain program built by the pass itself. |
| `Analysis` | analysis.dfy | `Analyzer`, a class whose two logs stand for the diagnostic sink and for the symbols written onto tree nodes. Its methods follow the `analysis` methods one by one and change `SymTable` objects in place. |
| `FormalFinding` | findings.dfy | The formal-parameter discrepancy, shown on one concrete function, both as written and as intended. It also shows the effect of the scope a void formal leaves behind. |

Calls to `ErrMsg.fatal` become entries `Diag(line, col, message)` appended to
`Analyzer.diags`. `IdNode.setSym` and the `mySym` of a dot-access node become
entries `Note(id, sym)` appended to `Analyzer.notes`. The message texts keep
the source's spacing: declarations report `" Multiply declared identifier"`
with a leading space, formals report it without one.

The model follows the code in these places:

- A struct-instance symbol has type `"struct"`, as `StructSym`'s constructor
  says (`p4/Sym.java:47-50`), and not the struct's name.
- A function symbol gets its parameter list from `getTypeList` when it is built.
- Formal parameters are bound in a transient scope that is popped at once, so
  they are invisible in the function body (see Findings). The pass as modelled
  (`Analysis.Analyzer.AnalyzeFormals`, `AnalyzeFnDecl`, `AnalyzeProgram`) keeps
  this behaviour, because it is what the code does. The corrected formal
  analysis, `Analysis.Analyzer.AnalyzeFormalCorrected`, is stated and proved
  beside it.

Every method of the pass is proved to change the table and the two logs exactly
as the matching `PassSpec` function says. Scope depth is accounted exactly. A void
formal leaves one scope pushed (`p4/ast.java:520`, the push is outside the
`if (!boom)`). For a function declared at the top level, in a function body or in
a block, that scope stays on the table being analysed (`AnalysisSpec.DeclLeaks`).
For a function declared in a struct's field list it stays on the struct's own
field table, and the enclosing table is unaffected. After the whole program the
table holds `1 + DeclsLeaks(decls)` scopes. Later declarations then go into the
leftover scope, so a redeclaration of a top-level name after such a function is
not reported (`FormalFinding.VoidFormalHidesRedeclaration`).

## Model

| member | source | states |
|---|---|---|
| Scopes.ResolveIsInnermost | p1/SymTable.java:78-89 | A global lookup finds nothing exactly when no scope binds the name. Otherwise it returns the binding of the innermost scope that has one. |
| Scopes.ResolvePushed | p1/SymTable.java:78-89 | A newly pushed scope is consulted before all the others. |
| Scopes.ResolveAfterDeclare | p1/SymTable.java:39-51 | Shadowing: after binding `n` in the front scope, a global lookup of `n` yields the new symbol even when outer scopes bind `n`. Every other name resolves as before. |
| Scopes.FindInScopes | p1/SymTable.java:78-89 | The early-return loop over the scopes returns the innermost binding (equal to `Resolve`), and nothing exactly when no scope binds the name. |
| Scopes.SymTable.constructor | p1/SymTable.java:27-29 | A new table holds exactly one scope, and it is empty. |
| Scopes.SymTable.AddDecl | p1/SymTable.java:39-51 | An empty table fails with EmptySymTable before any other check. A name already in the front scope fails with DuplicateSym and the table is unchanged. Otherwise the binding is added to the front scope only, and the outer scopes are untouched. |
| Scopes.SymTable.AddScope | p1/SymTable.java:57-59 | Never fails and prepends one empty scope. |
| Scopes.SymTable.LookupLocal | p1/SymTable.java:66-71 | An empty table fails. Otherwise the result is the front scope's binding, and it is present exactly when the front scope binds the name. Outer scopes are never consulted. |
| Scopes.SymTable.LookupGlobal | p1/SymTable.java:78-89 | An empty table fails. Otherwise the result is the innermost binding, or nothing. |
| Scopes.SymTable.RemoveScope | p1/SymTable.java:96-101 | An empty table fails and is unchanged. Otherwise exactly the front scope is dropped, so the depth may reach zero. |
| Scopes.PushPop | p1/SymTable.java:57-59 | `addScope` followed by `removeScope` succeeds and restores the table. |
| Scopes.DeclareThenLookup | p1/SymTable.java:39-89 | Insertion fails as a duplicate exactly when the front scope binds the name. Right after a successful insertion, both lookups return the new symbol. |
| Symbols.BasicSym.GetType | p1/Sym.java:31-33 | The type is the string given at construction. |
| Symbols.BasicSym.ToString | p1/Sym.java:38-41 | A symbol prints as its type. |
| Symbols.BasicSymReportsItsType | p1/Sym.java:24-33 | Construction is total: every type string, the empty one included, is reported back by both getters. |
| Symbols.Sym.GetType | p4/Sym.java:14-16 | A variable reports its type, a function reports "function", and struct definitions and instances report "struct". |
| Symbols.Sym.ParamNum | p4/Sym.java:75-77 | The parameter count is the length of the parameter-type list. |
| Symbols.Sym.ToString | p4/Sym.java:79-85 | A function prints as its signature. Every other symbol prints as its type tag (`p4/Sym.java:18-20`). |
| Symbols.JoinLength | p4/Sym.java:79-85 | The joined parameter string holds every character of the parts, plus one separator between neighbours. |
| Symbols.JoinHasComma | p4/Sym.java:79-85 | Two or more parameters joined with ", " contain a comma. |
| Symbols.Signature | p4/Sym.java:79-85 | A function with no parameters prints as "void -> R". |
| Symbols.SignatureVoidPart | p4/Sym.java:80-83 | An empty joined parameter string is replaced by "void". The parameter part therefore reads "void" for no parameters, for one empty type name and for one "void" parameter, and for no other list. |
| Symbols.SignatureEndsWithReturn | p4/Sym.java:79-85 | The rendering ends with " -> " and the return type. |
| SymObjects.SymObject.constructor | p4/Sym.java:10-12 | A new symbol object keeps its type string and has no struct link, and getSymTable returns null whatever its argument. |
| SymObjects.SymObject.StructSym | p4/Sym.java:47-50 | A StructSym has type "struct", reports the declaration it was built with, and getSymTable returns null whatever its argument. |
| SymObjects.SymObject.SetStruct | p4/Sym.java:26-32 | On a plain symbol, getStruct then returns the new declaration. On a StructSym, getStruct keeps returning the constructor's declaration, because setStruct is not overridden. getSymTable, for any argument, returns what it returned before. |
| SymObjects.SymObject.SetSymTable | p4/Sym.java:34-40 | getSymTable returns the table last set, whatever its argument, and the struct link is unchanged (also `p4/Sym.java:56-62`). |
| Ast.TypeString | p4/ast.java:627-677 | A struct type prints as its name. A primitive type prints as "void" exactly when it is void, as "int" exactly when it is int, and as "bool" exactly when it is bool. |
| Ast.FormalTypes | p4/ast.java:220-226 | The type list has one entry per formal, in order, each being the formal's type string. |
| AnalysisSpec.ExpOut | p4/ast.java:1126-1282 | An identifier resolves to the innermost binding and is reported exactly when it is unbound. A dot-access reports at most one error for its whole chain, and its error flag is set exactly when it reported. The symbol it carries is always a struct definition. |
| AnalysisSpec.UndeclaredRootReportsOnce | p4/ast.java:1215-1241 | A chain whose root identifier is undeclared gets exactly one "Undeclared identifier", at the root. No symbol is recorded, and every dot-access above the root is flagged without a report of its own. |
| AnalysisSpec.ErroredPrefixIsSilent | p4/ast.java:1237-1241 | A dot-access whose prefix is an errored dot-access adds no report and is errored itself. |
| AnalysisSpec.NonStructRoot | p4/ast.java:1215-1230 | A dot-access on an identifier bound to anything but a struct instance gets exactly one "Dot-access of non-struct type", at the identifier, and is errored. The identifier still records its symbol. |
| AnalysisSpec.NullPrefix | p4/ast.java:1243-1248 | A dot-access whose prefix is an error-free dot-access with no struct symbol gets exactly one "Dot-access of non-struct type", at the prefix's field, and is errored. |
| AnalysisSpec.FieldOutcomes | p4/ast.java:1266-1281 | Once the prefix yields a struct's field table, there are three outcomes. A missing field is reported once, at the field, and errors the access. A struct-typed field yields, without a report, the definition it was declared with, recorded on the field. Any other field yields no symbol and no report. |
| AnalysisSpec.VoidFormalDiags | p4/ast.java:511-514 | There is one "Non-function declared void" report per void formal. |
| AnalysisSpec.NonVoidTypes | p4/ast.java:234-247 | The formals analysis returns one type per non-void formal. Together with the void formals, these account for every formal. |
| AnalysisSpec.StructTypeDef | p4/ast.java:371-381 | A struct type is accepted exactly when its name resolves, in the global table, to a struct definition, and then it yields that definition. |
| AnalysisSpec.InstanceDefinitionIsResolved | p4/ast.java:371-393 | A struct-typed variable whose type is accepted is bound as a struct instance. Its definition (`getStructType().getSym()`, `p4/ast.java:1276-1278`) is the struct definition its type name resolves to in the global table. |
| AnalysisSpec.VarDeclAccepted | p4/ast.java:360-409 | A variable produces no report exactly when its type is not void, any struct type names a struct definition, and the name is new to the front scope. A void duplicate gets two reports. |
| AnalysisSpec.ChainPrefix | p4/ast.java:1266-1281 | In `struct Inner {int x;}; struct Outer {struct Inner f;}; struct Outer o;`, `o.f` resolves without a report to Inner's definition. |
| AnalysisSpec.NestedFieldChain | p4/ast.java:1266-1281 | In the same program, `o.f.x` resolves without a report or a symbol, since x is an int field. Any other field of `o.f` gets exactly one "Invalid struct field name", at the field. |
| AnalysisSpec.MissingFieldInChain | p4/ast.java:1238-1272 | `o.z.x`, where Outer has no field z, gets one report at `z` and is errored. The outer `.x` adds nothing. |
| Analysis.Analyzer.constructor | p4/ast.java:142-145 | The analysis starts with no reports and no recorded symbols. |
| Analysis.Analyzer.Report | p4/ast.java:1129 | A report appends one entry with the identifier's position and the message. |
| Analysis.Analyzer.AnalyzeId | p4/ast.java:1126-1133 | The identifier is looked up globally. A binding is recorded on the node. Otherwise exactly one "Undeclared identifier" is reported and nothing is recorded. |
| Analysis.Analyzer.AnalyzeExp | p4/ast.java:1315-1381 | Reports, recorded symbols and resolution are exactly those of `ExpOut`, for literals (1042-1044), assignments, calls, unary and binary expressions, identifiers and dot-accesses. Subexpressions are taken left to right. |
| Analysis.Analyzer.AnalyzePair | p4/ast.java:1315-1318 | Both operands are analysed left to right. The reports and recorded symbols are the left operand's, then the right operand's. |
| Analysis.Analyzer.AnalyzeCall | p4/ast.java:1347-1350 | The callee identifier, then the argument list, exactly as `ExpOut` states. The call itself carries no symbol. |
| Analysis.Analyzer.AnalyzeDotAccess | p4/ast.java:1204-1282 | The prefix is analysed first. Then the field table is chosen, or an error is reported or propagated, and the field is looked up. The result is exactly that of `ExpOut`. |
| Analysis.Analyzer.AnalyzeExps | p4/ast.java:321-325 | The expressions are analysed in order, exactly as `ExpsOut` states. |
| Analysis.Analyzer.AnalyzeVarDecl | p4/ast.java:360-409 | The reports are the void or struct-type report, then the duplicate report. The variable is bound in the front scope exactly when there was no report, as a struct instance carrying the definition's field table or as a plain variable. The table is otherwise unchanged. A struct type that names a definition is recorded on its identifier. The whole effect is exactly `PassSpec.VarDeclRun`. |
| Analysis.Analyzer.AnalyzeFormal | p4/ast.java:507-539 | As written: a void or duplicate formal is reported and leaves one empty scope pushed. A well-formed formal is bound in a transient scope that is popped again, so the table is as before. |
| Analysis.Analyzer.AnalyzeFormalCorrected | p4/ast.java:507-539 | As intended: a well-formed formal is bound in the front scope, and a void or duplicate one changes nothing. |
| Analysis.Analyzer.AnalyzeFormals | p4/ast.java:234-247 | Starting from a fresh function scope, the types returned are those of the non-void formals. The reports are exactly one per void formal, and no duplicate is ever reported. Exactly one empty scope per void formal is left on top. |
| Analysis.Analyzer.AnalyzeFnDecl | p4/ast.java:439-481 | A name already in the front scope is reported and not bound. Otherwise the function symbol (parameter types and return type) is bound in the enclosing scope before the body scope is pushed. Formals and body are analysed in both cases, and the void-formal reports follow the name's report. Afterwards the enclosing scopes are exactly as before plus that binding, under `DeclLeaks` leftover scopes. Table and logs end exactly as `FnNameRun` followed by `FnScopeRun` says. |
| Analysis.Analyzer.BindFnName | p4/ast.java:439-461 | A name already in the front scope gets one " Multiply declared identifier" and the table is unchanged. Otherwise the function symbol (parameter type list and return type) is bound in the front scope only. This is exactly `PassSpec.FnNameRun`. |
| Analysis.Analyzer.AnalyzeFnScope | p4/ast.java:463-478 | The push, the formals, the body and the pop leave the stack as before, plus one scope per void formal in the function. The void-formal reports come first. Table and logs end exactly as `PassSpec.FnScopeRun` says. |
| Analysis.Analyzer.AnalyzeFnBody | p4/ast.java:273-276 | The declarations, then the statements, in the current scope. The front scope only grows, and the outer scopes are untouched. Table and logs end exactly as `PassSpec.BodyRun` says. |
| Analysis.Analyzer.AnalyzeStructDecl | p4/ast.java:568-599 | The fields go into a brand-new table, which leaves the enclosing scopes untouched. A duplicate name is reported first and not bound. Otherwise the name is bound, in the front scope only, to a struct definition owning the field table. Table and logs end exactly as `PassSpec.StructRun` says. |
| Analysis.Analyzer.AnalyzeDecl | p4/ast.java:186-192 | A variable gets the global table and the other declarations only `t`. Outer scopes are untouched, the front scope only grows, and `DeclLeaks` scopes are left on top. Table and logs end exactly as `PassSpec.DeclRun` says, with the global table's stack as it was before. |
| Analysis.Analyzer.AnalyzeDecls | p4/ast.java:184-193 | Each declaration is analysed in order, and variables get the global table. The front scope only grows, and `DeclsLeaks` scopes are left on top. Table and logs end exactly as `PassSpec.DeclsRun` says: with the table's own stack as the global one when both are the same table, and with the global table's stack otherwise. |
| Analysis.Analyzer.AnalyzeBlock | p4/ast.java:822-834 | A block's declarations and statements are analysed in a freshly pushed scope that is then popped. The stack below is restored, apart from scopes left by void formals. Table and logs end exactly as `PassSpec.BlockRun` says. |
| Analysis.Analyzer.AnalyzeStmt | p4/ast.java:708-1012 | A statement without a block analyses its expressions and leaves the table unchanged. An if, if-else, while or repeat analyses its guard in the current scope, with its reports first, and then each block in its own scope. Table and logs end exactly as `PassSpec.StmtRun` says. |
| Analysis.Analyzer.AnalyzeBlockStmt | p4/ast.java:872-893 | The guard is analysed in the current scope, with its reports first. Then the block, or the then and else blocks, each in a scope of its own. The stack below is restored, apart from scopes left by void formals. Table and logs end exactly as `PassSpec.StmtRun` says. |
| Analysis.Analyzer.AnalyzeStmts | p4/ast.java:295-299 | Each statement is analysed in order, and every leftover scope is accounted for by `StmtsLeaks`. Table and logs end exactly as `PassSpec.StmtsRun` says. |
| Analysis.AnalyzeProgram | p4/ast.java:142-145 | Analysing a program against a fresh table gives exactly the reports and recorded symbols of `PassSpec.ProgramRun`, and leaves exactly `1 + DeclsLeaks` scopes. That is one, unless some function outside a struct's field list has a void formal. |
| PassSpec.VarDeclRun | p4/ast.java:360-409 | A variable declaration never changes the depth of the table it is declared in. |
| PassSpec.FnNameRun | p4/ast.java:439-461 | Binding a function's name never changes the depth. |
| PassSpec.DeclsRun | p4/ast.java:184-193 | A declaration list leaves exactly `DeclsLeaks` scopes more than it found. |
| PassSpec.DeclRun | p4/ast.java:186-192 | One declaration leaves exactly `DeclLeaks` scopes more than it found. |
| PassSpec.StructRun | p4/ast.java:568-599 | A struct declaration never changes the depth of the enclosing table. |
| PassSpec.StructFields | p4/ast.java:576-583 | A struct's field table starts with one scope and ends with one per void formal of a function among its fields added. |
| PassSpec.FnScopeRun | p4/ast.java:463-478 | A function's scope leaves exactly `DeclLeaks` scopes more than it found: one per void formal, in the formal list or in the body. |
| PassSpec.BodyRun | p4/ast.java:273-276 | A body leaves exactly the leftover scopes of its declarations and statements. |
| PassSpec.StmtsRun | p4/ast.java:295-299 | A statement list leaves exactly `StmtsLeaks` scopes more than it found. |
| PassSpec.StmtRun | p4/ast.java:708-1012 | One statement leaves exactly `StmtLeaks` scopes more than it found. A statement without a block leaves the stack as it was. |
| PassSpec.BlockRun | p4/ast.java:822-834 | A block pops the scope it pushed, so only the leftover scopes of its declarations and statements remain. |
| PassSpec.ProgramRun | p4/ast.java:142-145 | A program ends with one scope plus `DeclsLeaks` of its declarations. |
| PassSpec.DeclsRunFrame | p4/ast.java:184-193 | A declaration list leaves every outer scope untouched, only grows the innermost one, and puts its leftover scopes above it. The reports and recorded symbols only grow. |
| PassSpec.DeclRunFrame | p4/ast.java:186-192 | The same for one declaration of any kind. |
| PassSpec.StructRunFrame | p4/ast.java:568-599 | A struct declaration only binds its name in the enclosing stack. A duplicate's report comes before the field reports. The field table only grows from its one empty scope. |
| PassSpec.FnScopeRunFrame | p4/ast.java:463-478 | A function's scope restores the stack below its leftover scopes. The void-formal reports come first. |
| PassSpec.BodyRunFrame | p4/ast.java:273-276 | A body only grows the innermost scope and puts its leftover scopes above it. The logs only grow. |
| PassSpec.StmtsRunFrame | p4/ast.java:295-299 | A statement list leaves every scope of the stack as it was, below its leftover scopes. The logs only grow. |
| PassSpec.StmtRunFrame | p4/ast.java:708-1012 | The same for one statement. |
| PassSpec.BlockStmtFrame | p4/ast.java:872-893 | A block statement restores the stack below its leftover scopes. The guard's reports come first. |
| PassSpec.BlockInsideFrame | p4/ast.java:822-834 | Inside a block, the declarations and statements only grow the pushed scope and put their leftover scopes above it. |
| PassSpec.BlockRunFrame | p4/ast.java:822-834 | A block restores the stack below its leftover scopes, and the logs only grow. |
| PassSpec.ChainProgramBuildsChainScopes | p4/ast.java:360-409 | The pass itself, run on `struct Inner {int x;}; struct Outer {struct Inner f;}; struct Outer o;`, reports nothing. It records the two struct-type uses and builds exactly the table that `ChainPrefix`, `NestedFieldChain` and `MissingFieldInChain` start from. |
| FormalFinding.DuplicateFormalsAsWritten | p4/ast.java:507-539 | As written, `int f(int a, int a) { return a; }` reports no duplicate parameter, and the use of `a` is reported undeclared. The function is first bound under its own name, which differs from the parameter's. |
| FormalFinding.DuplicateFormalsCorrected | p4/ast.java:507-539 | With the intended formal analysis, the second `a` is reported as a duplicate and the use resolves. |
| FormalFinding.RedeclarationReported | p4/ast.java:383-386 | In `int x; void g(int v) {} int x;` the second `x` gets exactly one " Multiply declared identifier", and the table ends with its one scope. |
| FormalFinding.VoidFormalHidesRedeclaration | p4/ast.java:511-520 | In `int x; void g(void v) {} int x;` the only report is "Non-function declared void" at `v`. The scope left by the void formal takes the second `x`, so its redeclaration goes unreported, and the table ends with two scopes. |

## Left out

- Output: every `unparse` method and `SymTable.print` (`p1/SymTable.java:108-113`). They only write text.
- The scanner `p2/egg.jlex.java`: generated lexer tables and buffered input.
- `ErrMsg` is not part of this model. Its `fatal` is an append to `Analyzer.diags`.
- `System.exit(-1)` catch blocks: the model proves the table calls they guard never fail. They are `assert`ed success.
- The blanket `catch (Exception e)` of the dot-access analysis (`p4/ast.java:1209-1213`): it is not modelled.
- The "unexpected" prefix branches of the dot-access analysis (`p4/ast.java:1252`, `1261`): they are excluded by the precondition `WellFormedExp`, which says every dot-access prefix is an identifier or a dot-access.
- A null argument to `addDecl`: Dafny values are never null, so that `WrongArgumentException` path is not modelled.
- `StructDefSym`, `StructSym.getStructType` and p4's own `SymTable` class are not part of this model. Their behaviour is taken from how `p4/ast.java` uses them:
  - a function's parameter list is `getTypeList` at construction;
  - a struct definition owns its field table and has type "struct";
  - an instance's definition is the one its type name resolved to when it was declared.
- The formals list returned by `FormalsListNode.analysis` (the non-void types) is passed to `sym.addFormals` (`p4/ast.java:466-469`). `FnSym` in `p4/Sym.java` declares no `addFormals`, so its effect is unknown and not modelled. `AnalyzeFnScope` computes the list and drops it. The function symbol keeps the list it was built with, `getTypeList` (every formal, void ones included).
- Annotations on the tree (`mySym`, `boom`) are modelled as the log `Analyzer.notes` and as returned `Resolution` values, not as node fields.
- `mySize` (`p4/ast.java:343`, `414`) is carried as the `size` field of `Ast.VarDecl`, as the constructor stores it, but nothing in the analysis reads it. `NOT_STRUCT` (`p4/ast.java:416`) is never used and is not modelled.

## Findings

| source | as written | input that shows it | evidently intended | confidence | as-written member | corrected member |
|---|---|---|---|---|---|---|
| p4/ast.java:507-539 | Each formal is bound in a scope pushed just before (line 520) and popped right after (line 525), so the function's scope never holds a parameter. | `int f(int a, int a) { return a; }`: no "Multiply declared identifier" for the second `a`, and "Undeclared identifier" for the use of `a` | formals bound in the function's scope: duplicates reported, parameters visible in the body | not executed | FormalFinding.DuplicateFormalsAsWritten | FormalFinding.DuplicateFormalsCorrected |
