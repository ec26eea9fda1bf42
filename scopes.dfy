/**
 * The scoped symbol table of p1/SymTable.java: a stack of name-to-symbol maps,
 * index 0 being the innermost scope.  The class is generic in the symbol type so
 * that the same table serves the plain symbols of p1 and the richer symbols the
 * name analysis stores.
 */
module Scopes {
  import opened Wrappers

  type Scope<V> = map<string, V>

  /** The two exceptions the table raises. */
  datatype TableError = EmptySymTable | DuplicateSym

  /** Innermost-first search: the binding from the lowest-index scope holding `name`. */
  function Resolve<V>(scopes: seq<Scope<V>>, name: string): Option<V>
  {
    if scopes == [] then None
    else if name in scopes[0] then Some(scopes[0][name])
    else Resolve(scopes[1..], name)
  }

  /** `k` is the first scope, counting from the innermost, that binds `name`. */
  ghost predicate FirstBinding<V>(scopes: seq<Scope<V>>, name: string, k: int)
  {
    0 <= k < |scopes| && name in scopes[k] && forall j :: 0 <= j < k ==> name !in scopes[j]
  }

  /** Resolve finds a binding exactly when some scope holds the name, and it is the innermost one. */
  lemma {:induction false} ResolveIsInnermost<V>(scopes: seq<Scope<V>>, name: string)
    ensures Resolve(scopes, name).None? <==> forall j :: 0 <= j < |scopes| ==> name !in scopes[j]
    ensures forall k :: FirstBinding(scopes, name, k) ==> Resolve(scopes, name) == Some(scopes[k][name])
  {
    if scopes != [] && name !in scopes[0] {
      ResolveIsInnermost(scopes[1..], name);
      forall k | FirstBinding(scopes, name, k)
        ensures Resolve(scopes, name) == Some(scopes[k][name])
      {
        assert FirstBinding(scopes[1..], name, k - 1);
      }
      if Resolve(scopes, name).None? {
        forall j | 0 <= j < |scopes| ensures name !in scopes[j] {
          if j > 0 { assert scopes[j] == scopes[1..][j - 1]; }
        }
      }
    }
  }

  /** Resolving in a stack with a new innermost scope on top consults that scope first. */
  lemma {:induction false} ResolvePushed<V>(top: Scope<V>, scopes: seq<Scope<V>>, name: string)
    ensures Resolve([top] + scopes, name) == if name in top then Some(top[name]) else Resolve(scopes, name)
  {
    assert ([top] + scopes)[1..] == scopes;
  }

  /**
   * Shadowing: after binding `name` in the innermost scope, a global lookup of `name`
   * yields the new binding, and every other name resolves as before.
   */
  lemma {:induction false} ResolveAfterDeclare<V>(scopes: seq<Scope<V>>, name: string, sym: V, other: string)
    requires scopes != []
    ensures Resolve([scopes[0][name := sym]] + scopes[1..], name) == Some(sym)
    ensures other != name ==>
      Resolve([scopes[0][name := sym]] + scopes[1..], other) == Resolve(scopes, other)
  {
    ResolvePushed(scopes[0][name := sym], scopes[1..], name);
    ResolvePushed(scopes[0][name := sym], scopes[1..], other);
  }

  /** Search of a stack of scopes: a loop with an early return, as lookupGlobal does. */
  method FindInScopes<V>(scopes: seq<Scope<V>>, name: string) returns (r: Option<V>)
    ensures r == Resolve(scopes, name)
    ensures r.None? <==> forall j :: 0 <= j < |scopes| ==> name !in scopes[j]
  {
    var i := 0;
    while i < |scopes|
      invariant 0 <= i <= |scopes|
      invariant Resolve(scopes[i..], name) == Resolve(scopes, name)
    {
      if name in scopes[i] {
        return Some(scopes[i][name]);
      }
      assert scopes[i..][1..] == scopes[i + 1..];
      i := i + 1;
    }
    ResolveIsInnermost(scopes, name);
    return None;
  }

  class SymTable<V> {
    /** The list of scopes; index 0 is the innermost. */
    var scopes: seq<Scope<V>>

    /** A new table holds exactly one, empty, scope. */
    constructor ()
      ensures scopes == [map[]]
    {
      scopes := [map[]];
    }

    /**
     * Binds `name` in the innermost scope.  Fails, leaving the table unchanged, when
     * there is no scope or when the innermost scope already binds `name`; a binding
     * of the same name in an outer scope does not prevent the insertion.
     */
    method AddDecl(name: string, sym: V) returns (r: Result<(), TableError>)
      modifies this
      ensures old(scopes) == [] ==> r == Failure(EmptySymTable) && scopes == old(scopes)
      ensures old(scopes) != [] && name in old(scopes)[0] ==> r == Failure(DuplicateSym) && scopes == old(scopes)
      ensures old(scopes) != [] && name !in old(scopes)[0] ==>
        r.Success? && scopes == [old(scopes)[0][name := sym]] + old(scopes)[1..]
    {
      if scopes == [] {
        return Failure(EmptySymTable);
      }
      if name in scopes[0] {
        return Failure(DuplicateSym);
      }
      scopes := [scopes[0][name := sym]] + scopes[1..];
      return Success(());
    }

    /** Puts a new, empty scope in front of the others; never fails. */
    method AddScope()
      modifies this
      ensures scopes == [map[]] + old(scopes)
    {
      scopes := [map[]] + scopes;
    }

    /** The innermost scope's binding of `name`, never consulting outer scopes. */
    method LookupLocal(name: string) returns (r: Result<Option<V>, TableError>)
      ensures scopes == [] ==> r == Failure(EmptySymTable)
      ensures scopes != [] ==> r.Success? && (r.value.Some? <==> name in scopes[0])
      ensures scopes != [] && name in scopes[0] ==> r.value == Some(scopes[0][name])
    {
      if scopes == [] {
        return Failure(EmptySymTable);
      }
      return Success(if name in scopes[0] then Some(scopes[0][name]) else None);
    }

    /** The binding of `name` in the innermost scope that has one. */
    method LookupGlobal(name: string) returns (r: Result<Option<V>, TableError>)
      ensures scopes == [] ==> r == Failure(EmptySymTable)
      ensures scopes != [] ==> r == Success(Resolve(scopes, name))
    {
      if scopes == [] {
        return Failure(EmptySymTable);
      }
      var found := FindInScopes(scopes, name);
      return Success(found);
    }

    /** Drops the innermost scope; fails, leaving the table unchanged, when there is none. */
    method RemoveScope() returns (r: Result<(), TableError>)
      modifies this
      ensures old(scopes) == [] ==> r == Failure(EmptySymTable) && scopes == old(scopes)
      ensures old(scopes) != [] ==> r.Success? && scopes == old(scopes)[1..]
    {
      if scopes == [] {
        return Failure(EmptySymTable);
      }
      scopes := scopes[1..];
      return Success(());
    }
  }

  /** Pushing a scope and popping it again gives back the table as it was. */
  method PushPop<V>(t: SymTable<V>) returns (r: Result<(), TableError>)
    modifies t
    ensures r.Success? && t.scopes == old(t.scopes)
  {
    t.AddScope();
    r := t.RemoveScope();
    assert t.scopes == ([map[]] + old(t.scopes))[1..];
  }

  /**
   * Right after a successful insertion both lookups of the name yield the new
   * symbol, whatever outer scopes bind it; the insertion fails exactly when the
   * innermost scope already binds the name.
   */
  method DeclareThenLookup<V>(t: SymTable<V>, name: string, sym: V)
    returns (added: Result<(), TableError>, local: Result<Option<V>, TableError>, global: Result<Option<V>, TableError>)
    requires t.scopes != []
    modifies t
    ensures added == Failure(DuplicateSym) <==> name in old(t.scopes)[0]
    ensures added.Success? ==> local == Success(Some(sym)) && global == Success(Some(sym))
  {
    added := t.AddDecl(name, sym);
    if added.Success? {
      ResolveAfterDeclare(old(t.scopes), name, sym, name);
    }
    local := t.LookupLocal(name);
    global := t.LookupGlobal(name);
  }
}
