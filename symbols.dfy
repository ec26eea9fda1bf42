/**
 * Symbol records: the plain type-string symbol of p1/Sym.java and the symbol kinds
 * of p4 (variable, function, struct definition, struct instance), with the
 * "params -> return" rendering of a function symbol.
 */
module Symbols {
  import opened Scopes

  /** p1/Sym.java: an immutable record holding one type string. */
  datatype BasicSym = BasicSym(typ: string)
  {
    /** The type string given at construction. */
    function GetType(): (r: string)
      ensures r == typ
    {
      typ
    }

    /** A symbol prints as its type. */
    function ToString(): (r: string)
      ensures r == GetType()
    {
      typ
    }
  }

  /** Construction is total: every type string, the empty one included, is reported back. */
  lemma BasicSymReportsItsType(typ: string)
    ensures BasicSym(typ).GetType() == typ && BasicSym(typ).ToString() == typ
  {
  }

  /**
   * The symbols the name analysis stores.  A struct definition owns the scopes of
   * its field table; a struct instance carries the table of the definition its
   * type name resolved to when the instance was declared.
   */
  datatype Sym =
    | VarSym(typ: string)
    | FnSym(paramTypes: seq<string>, retType: string)
    | StructDefSym(fields: seq<Scope<Sym>>)
    | StructSym(structName: string, defFields: seq<Scope<Sym>>)
  {
    /** The type tag: a variable's type, "function" or "struct". */
    function GetType(): (r: string)
      ensures VarSym? ==> r == typ
      ensures FnSym? ==> r == "function"
      ensures StructSym? || StructDefSym? ==> r == "struct"
    {
      match this
      case VarSym(t) => t
      case FnSym(_, _) => "function"
      case StructDefSym(_) => "struct"
      case StructSym(_, _) => "struct"
    }

    /** The number of parameter types of a function symbol. */
    function ParamNum(): (n: nat)
      requires FnSym?
      ensures n == |paramTypes|
    {
      |paramTypes|
    }

    /** The definition an instance's struct type resolved to (getStructType().getSym()). */
    function Definition(): Sym
      requires StructSym?
    {
      StructDefSym(defFields)
    }

    /** A function prints as its signature; every other symbol as its type tag. */
    function ToString(): (r: string)
      ensures !FnSym? ==> r == GetType()
      ensures FnSym? ==> r == Signature(paramTypes, retType)
    {
      if FnSym? then Signature(paramTypes, retType) else GetType()
    }
  }

  /** String.join: the parts separated by `sep`. */
  function Join(sep: string, parts: seq<string>): string
  {
    if parts == [] then ""
    else if |parts| == 1 then parts[0]
    else parts[0] + sep + Join(sep, parts[1..])
  }

  /** Total length of the parts. */
  function TotalLength(parts: seq<string>): nat
  {
    if parts == [] then 0 else |parts[0]| + TotalLength(parts[1..])
  }

  /** The joined string holds every character of the parts and one separator between neighbours. */
  lemma {:induction false} JoinLength(sep: string, parts: seq<string>)
    requires parts != []
    ensures |Join(sep, parts)| == TotalLength(parts) + (|parts| - 1) * |sep|
  {
    if |parts| > 1 {
      JoinLength(sep, parts[1..]);
      assert (|parts| - 1) * |sep| == (|parts[1..]| - 1) * |sep| + |sep|;
    }
  }

  /** Two or more parts joined with a separator containing a comma contain a comma. */
  lemma {:induction false} JoinHasComma(sep: string, parts: seq<string>)
    requires |parts| >= 2 && ',' in sep
    ensures ',' in Join(sep, parts)
  {
    var j := Join(sep, parts);
    assert j == parts[0] + sep + Join(sep, parts[1..]);
    var k :| 0 <= k < |sep| && sep[k] == ',';
    assert j[|parts[0]| + k] == ',';
  }

  /** The parameter part of a signature: the joined parameter types, or "void" when that is empty. */
  function ParamPart(paramTypes: seq<string>): string
  {
    var params := Join(", ", paramTypes);
    if params == "" then "void" else params
  }

  /** FnSym.toString: parameter part, " -> ", return type. */
  function Signature(paramTypes: seq<string>, retType: string): (s: string)
    ensures paramTypes == [] ==> s == "void -> " + retType
  {
    ParamPart(paramTypes) + " -> " + retType
  }

  /**
   * The parameter part reads "void" for no parameters, for a single empty type name,
   * and for a single "void" parameter, and for nothing else.
   */
  lemma SignatureVoidPart(paramTypes: seq<string>)
    ensures ParamPart(paramTypes) == "void" <==>
      paramTypes == [] || paramTypes == [""] || paramTypes == ["void"]
  {
    if |paramTypes| >= 2 {
      JoinHasComma(", ", paramTypes);
      assert ',' !in "void";
      assert Join(", ", paramTypes) != "";
    }
  }

  /** The rendered signature ends with the arrow and the return type. */
  lemma SignatureEndsWithReturn(paramTypes: seq<string>, retType: string)
    ensures var s := Signature(paramTypes, retType);
      |s| >= |retType| + 4 && s[|s| - |retType| - 4..] == " -> " + retType
  {
  }
}
