/**
 * The mutable part of p4/Sym.java: a symbol object with a type string and two
 * settable links, the struct declaration it belongs to and a symbol table.
 * A StructSym redeclares both links; it overrides the table accessors and
 * getStruct, but not setStruct, so on a StructSym setStruct writes the base
 * class's link while getStruct keeps returning the constructor's declaration.
 */
module SymObjects {
  import opened Wrappers
  import opened Scopes
  import opened Symbols
  import opened Ast

  class SymObject {
    /** The type string, fixed at construction. */
    const typ: string
    /** Whether this object is a StructSym. */
    const isStructSym: bool
    /** StructSym's own struct link, set by its constructor. */
    const ownStruct: Option<Decl>
    /** Sym's struct link, written by setStruct. */
    var baseStruct: Option<Decl>
    /** Sym's table link. */
    var baseTable: SymTable?<Sym>
    /** StructSym's own table link, shadowing Sym's. */
    var ownTable: SymTable?<Sym>

    /** new Sym(type). */
    constructor (typ: string)
      ensures this.typ == typ && !isStructSym
      ensures GetStruct() == None && forall x :: GetSymTable(x) == null
    {
      this.typ := typ;
      isStructSym := false;
      ownStruct := None;
      baseStruct := None;
      baseTable := null;
      ownTable := null;
    }

    /** new StructSym(struct): type "struct", remembering its declaration. */
    constructor StructSym(decl: Decl)
      ensures typ == "struct" && isStructSym
      ensures GetStruct() == Some(decl) && forall x :: GetSymTable(x) == null
    {
      typ := "struct";
      isStructSym := true;
      ownStruct := Some(decl);
      baseStruct := None;
      baseTable := null;
      ownTable := null;
    }

    /** getStruct: the last declaration given to setStruct; a StructSym's own declaration. */
    function GetStruct(): (r: Option<Decl>)
      reads this
    {
      if isStructSym then ownStruct else baseStruct
    }

    /** getSymTable ignores its argument and returns the last table set. */
    function GetSymTable(ignored: SymTable?<Sym>): (r: SymTable?<Sym>)
      reads this
    {
      if isStructSym then ownTable else baseTable
    }

    /** setStruct (never overridden): always writes Sym's own link. */
    method SetStruct(decl: Decl)
      modifies this
      ensures baseStruct == Some(decl)
      ensures isStructSym ==> GetStruct() == old(GetStruct())
      ensures !isStructSym ==> GetStruct() == Some(decl)
      ensures forall x :: GetSymTable(x) == old(GetSymTable(null))
    {
      baseStruct := Some(decl);
    }

    /** setSymTable (overridden by StructSym): the link getSymTable reads afterwards. */
    method SetSymTable(table: SymTable?<Sym>)
      modifies this
      ensures forall x :: GetSymTable(x) == table
      ensures GetStruct() == old(GetStruct())
    {
      if isStructSym {
        ownTable := table;
      } else {
        baseTable := table;
      }
    }
  }
}
