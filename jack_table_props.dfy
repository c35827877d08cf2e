/// What the subroutine table `compSubroutine` of src/compiler.c leaves
/// says about each name: `this` is argument 0 only for a method whose
/// return type is a class name, the parameters follow in order, the
/// locals are numbered from 0 in order of first declaration, and the count
/// on the `function` line is the local counter, which also counts a name
/// declared twice. A constructor allocates one word per name of the class
/// table, statics included.
module JackTableProps {
  import opened CLib
  import opened JackTokens
  import opened JackVm
  import opened JackSymbols
  import opened JackAst
  import opened JackDeclProps
  import opened JackRoutineProps
  import Ds

  /// Whether the declaration records `this`: a method whose return type
  /// is a class name.
  predicate HasReceiver(s: SubDecl)
  {
    s.kind == Method && s.ret.IdentifierLex?
  }

  /// The number of arguments before the first parameter.
  function Receivers(s: SubDecl): nat
  {
    if HasReceiver(s) then 1 else 0
  }

  /// A declaration with far fewer names than `size_t` can count.
  predicate Small(s: SubDecl)
  {
    1 + |s.params| + |VarPairs(s.vars)| < Ds.SIZE_LIMIT / 4
  }

  /// The table after `this` and the parameters.
  function ArgsTable(s: SubDecl): SymTab
  {
    DeclarePairs(ReceiverTable(s), ParamPairs(s.params), ArgumentKind)
  }

  /// The table before the parameters holds `this`, as argument 0, for a
  /// method returning a class name, and nothing else.
  lemma ReceiverTableSpec(s: SubDecl)
    ensures |ReceiverTable(s).entries| <= 1
    ensures Count(ReceiverTable(s), ArgumentKind) == Receivers(s)
    ensures Count(ReceiverTable(s), LocalKind) == 0
    ensures HasReceiver(s) ==> Lookup(ReceiverTable(s), "this") == Some(Symbol(s.ret.name, ArgumentKind, 0))
    ensures forall n :: !(HasReceiver(s) && n == "this") ==> Lookup(ReceiverTable(s), n) == None
  {
    if HasReceiver(s) {
      DeclareSpec(EmptyTable(), "this", s.ret.name, ArgumentKind);
    }
  }

  /// After the parameters: the argument counter counts `this` and every
  /// parameter, the first parameter naming a name gives it the next
  /// argument number, and no local is counted yet.
  lemma ArgsTableSpec(s: SubDecl)
    requires Small(s)
    ensures var t := ArgsTable(s);
      && |t.entries| <= 1 + |s.params|
      && Count(t, LocalKind) == 0
      && Count(t, ArgumentKind) == Receivers(s) + |s.params|
      && (HasReceiver(s) ==> Lookup(t, "this") == Some(Symbol(s.ret.name, ArgumentKind, 0)))
      && (forall i | 0 <= i < |s.params| && FirstAt(ParamPairs(s.params), i) && !(HasReceiver(s) && s.params[i].name == "this") ::
            Lookup(t, s.params[i].name) == Some(Symbol(TypeText(s.params[i].typ), ArgumentKind, Receivers(s) + i)))
      && (forall n | Unnamed(ParamPairs(s.params), n) && !(HasReceiver(s) && n == "this") :: Lookup(t, n) == None)
  {
    ReceiverTableSpec(s);
    var ps := ParamPairs(s.params);
    DeclarePairsSpec(ReceiverTable(s), ps, ArgumentKind);
    forall i | 0 <= i < |s.params| && FirstAt(ps, i) && !(HasReceiver(s) && s.params[i].name == "this")
      ensures Lookup(ArgsTable(s), s.params[i].name) == Some(Symbol(TypeText(s.params[i].typ), ArgumentKind, Receivers(s) + i))
    {
      assert ps[i] == (s.params[i].name, TypeText(s.params[i].typ));
      assert Lookup(ReceiverTable(s), s.params[i].name) == None;
    }
  }

  /// The local counter, which the `function` line prints, rises once per
  /// declared name, repetitions included; the argument counter counts
  /// `this` and the parameters.
  lemma Counters(s: SubDecl)
    requires Small(s)
    ensures Count(SubTable(s), LocalKind) == |VarPairs(s.vars)|
    ensures Count(SubTable(s), ArgumentKind) == Receivers(s) + |s.params|
  {
    ArgsTableSpec(s);
    DeclarePairsSpec(ArgsTable(s), VarPairs(s.vars), LocalKind);
  }

  /// The code of a subroutine starts with its `function` line, which
  /// carries the local counter of its table.
  lemma FunctionLine(cls: string, cst: SymTab, d: nat, i: nat, s: SubDecl)
    requires Small(s)
    ensures var c := SubCode(cls, cst, d, i, s).0;
      |c| > 0 && c[0] == FunctionCmd(cls, s.name, Count(SubTable(s), LocalKind))
  {
    Counters(s);
  }

  /// `this`, for a method returning a class name, is argument 0.
  lemma ReceiverIndex(s: SubDecl)
    requires Small(s) && HasReceiver(s)
    ensures Lookup(SubTable(s), "this") == Some(Symbol(s.ret.name, ArgumentKind, 0))
  {
    ArgsTableSpec(s);
    DeclarePairsSpec(ArgsTable(s), VarPairs(s.vars), LocalKind);
    assert "this" in ArgsTable(s).entries;
  }

  /// The parameters are numbered from the first argument after `this`, in
  /// order; a repeated name keeps its first number.
  lemma ArgumentIndex(s: SubDecl, i: nat)
    requires Small(s) && i < |s.params| && FirstAt(ParamPairs(s.params), i)
    requires !(HasReceiver(s) && s.params[i].name == "this")
    ensures Lookup(SubTable(s), s.params[i].name) == Some(Symbol(TypeText(s.params[i].typ), ArgumentKind, Receivers(s) + i))
  {
    ArgsTableSpec(s);
    DeclarePairsSpec(ArgsTable(s), VarPairs(s.vars), LocalKind);
    assert s.params[i].name in ArgsTable(s).entries;
  }

  /// The locals are numbered 0, 1, ... in order of declaration; a
  /// repeated name keeps its first number (and still takes one from the
  /// counter).
  lemma LocalIndex(s: SubDecl, i: nat)
    requires Small(s) && i < |VarPairs(s.vars)| && FirstAt(VarPairs(s.vars), i)
    requires Unnamed(ParamPairs(s.params), VarPairs(s.vars)[i].0)
    requires !(HasReceiver(s) && VarPairs(s.vars)[i].0 == "this")
    ensures Lookup(SubTable(s), VarPairs(s.vars)[i].0) == Some(Symbol(VarPairs(s.vars)[i].1, LocalKind, i))
  {
    ArgsTableMisses(s, VarPairs(s.vars)[i].0);
    FreshIndex(ArgsTable(s), VarPairs(s.vars), LocalKind, i);
    SubTableIs(s);
  }

  /// The first pair naming a name new to `t` gives it its position, when
  /// the kind's counter starts at 0.
  lemma FreshIndex(t: SymTab, ps: seq<(string, string)>, kind: SymbolKind, i: nat)
    requires WellSized(t) && |t.entries| + |ps| < Ds.SIZE_LIMIT / 4 && Count(t, kind) == 0
    requires i < |ps| && FirstAt(ps, i) && ps[i].0 !in t.entries
    ensures Lookup(DeclarePairs(t, ps, kind), ps[i].0) == Some(Symbol(ps[i].1, kind, i))
  {
    DeclarePairsSpec(t, ps, kind);
  }

  /// What the locals are declared after: few names, no local counted, and
  /// none of the names neither `this` nor a parameter.
  lemma ArgsTableMisses(s: SubDecl, n: string)
    requires Small(s) && Unnamed(ParamPairs(s.params), n) && !(HasReceiver(s) && n == "this")
    ensures |ArgsTable(s).entries| + |VarPairs(s.vars)| < Ds.SIZE_LIMIT / 4
    ensures Count(ArgsTable(s), LocalKind) == 0 && n !in ArgsTable(s).entries
  {
    ArgsTableSpec(s);
    assert Lookup(ArgsTable(s), n) == None;
  }

  lemma SubTableIs(s: SubDecl)
    ensures SubTable(s) == DeclarePairs(ArgsTable(s), VarPairs(s.vars), LocalKind)
  {
  }

  /// A name the declaration does not declare is not in its table.
  lemma Undeclared(s: SubDecl, n: string)
    requires Small(s) && Unnamed(ParamPairs(s.params), n) && Unnamed(VarPairs(s.vars), n)
    requires !(HasReceiver(s) && n == "this")
    ensures Lookup(SubTable(s), n) == None
  {
    ArgsTableSpec(s);
    DeclarePairsSpec(ArgsTable(s), VarPairs(s.vars), LocalKind);
  }

  /// A constructor's prologue allocates one word per name of the class
  /// table, static or field, and points `this` at the block; a method's
  /// points `this` at argument 0, whether or not its table holds `this`.
  lemma PrologueCode(cls: string, cst: SymTab, d: nat, i: nat, s: SubDecl)
    ensures var c := SubCode(cls, cst, d, i, s).0;
      && (s.kind == Constructor ==>
            |c| >= 4 && c[1..4] == [PushCmd("constant", |cst.entries|), CallCmd("Memory", "alloc", 1), PopCmd("pointer", 0)])
      && (s.kind == Method ==> |c| >= 3 && c[1..3] == [PushCmd("argument", 0), PopCmd("pointer", 0)])
  {
    var c := SubCode(cls, cst, d, i, s).0;
    var b := StmtsCode(Scope(cls, SubTable(s), cst), d, i, s.body).0;
    assert c == [FunctionCmd(cls, s.name, |VarPairs(s.vars)|)] + SubPrologue(s.kind, cst) + b;
  }

  // ------------------------------------------------------------ instances

  /// `function void f() { var int x, x; }`: the `function` line counts two
  /// locals, and `x` is local 0.
  lemma TwiceDeclaredLocal(cls: string, cst: SymTab, d: nat, i: nat)
    ensures var s := SubDecl(Function, KeywordLex(Void), "f", [], [VarDecl(KeywordLex(Int), "x", ["x"])], []);
      && SubCode(cls, cst, d, i, s).0 == [FunctionCmd(cls, "f", 2)]
      && Lookup(SubTable(s), "x") == Some(Symbol("int", LocalKind, 0))
  {
    var s := SubDecl(Function, KeywordLex(Void), "f", [], [VarDecl(KeywordLex(Int), "x", ["x"])], []);
    assert VarPairs(s.vars) == [("x", "int"), ("x", "int")] by {
      assert VarPairs(s.vars[1..]) == [];
    }
    LocalIndex(s, 0);
  }

  /// `method int f(int a)`: no `this` is recorded, so `a` is argument 0,
  /// the slot the prologue reads the object from.
  lemma MethodReturningInt(cls: string, cst: SymTab, d: nat, i: nat)
    ensures var s := SubDecl(Method, KeywordLex(Int), "f", [Param(KeywordLex(Int), "a")], [], []);
      && Lookup(SubTable(s), "a") == Some(Symbol("int", ArgumentKind, 0))
      && Lookup(SubTable(s), "this") == None
      && SubCode(cls, cst, d, i, s).0[1] == PushCmd("argument", 0)
  {
    var s := SubDecl(Method, KeywordLex(Int), "f", [Param(KeywordLex(Int), "a")], [], []);
    ArgumentIndex(s, 0);
    Undeclared(s, "this");
    PrologueCode(cls, cst, d, i, s);
  }

  /// `method Point f(int a)`: `this` is argument 0 and `a` argument 1.
  lemma MethodReturningClass()
    ensures var s := SubDecl(Method, IdentifierLex("Point"), "f", [Param(KeywordLex(Int), "a")], [], []);
      && Lookup(SubTable(s), "this") == Some(Symbol("Point", ArgumentKind, 0))
      && Lookup(SubTable(s), "a") == Some(Symbol("int", ArgumentKind, 1))
  {
    var s := SubDecl(Method, IdentifierLex("Point"), "f", [Param(KeywordLex(Int), "a")], [], []);
    ReceiverIndex(s);
    ArgumentIndex(s, 0);
  }

  /// `static int a; field int b;`: the class table holds two names, so a
  /// constructor allocates two words for one field.
  lemma StaticsAllocated()
    ensures |ClassTable(EmptyTable(), [ClassVarDecl(Static, KeywordLex(Int), "a", []),
                                       ClassVarDecl(Field, KeywordLex(Int), "b", [])]).entries| == 2
  {
    var t0 := EmptyTable();
    var t1 := Declare(t0, "a", "int", StaticKind);
    var t2 := Declare(t1, "b", "int", FieldKind);
    DeclareSpec(t0, "a", "int", StaticKind);
    DeclareSpec(t1, "b", "int", FieldKind);
    var ds := [ClassVarDecl(Static, KeywordLex(Int), "a", []), ClassVarDecl(Field, KeywordLex(Int), "b", [])];
    assert Named(["a"] + [], "int") == [("a", "int")];
    assert Named(["b"] + [], "int") == [("b", "int")];
    assert DeclarePairs(t0, [("a", "int")], StaticKind) == t1;
    assert DeclarePairs(t1, [("b", "int")], FieldKind) == t2;
    assert ClassTable(t0, ds) == ClassTable(t1, ds[1..]);
    assert ClassTable(t1, ds[1..]) == ClassTable(t2, []);
    assert t2.entries.Keys == {"a", "b"};
  }
}
