/// A reference for the code generator of src/compiler.c: Jack subroutine
/// bodies as syntax trees, the tokens that spell them and the VM code
/// src/compiler.c gives them, written by structural recursion and with
/// no cursor, no output buffer and no error channel.
module JackAst {
  import opened CLib
  import opened JackTokens
  import opened JackSymbols
  import opened JackVm
  import JackEngine

  /// A term. Jack has no operator precedence, so an expression is a chain
  /// of terms combined from the left.
  datatype TermNode =
    | IntT(value: nat)
    | StrT(text: string)
    | TrueT | FalseT | NullT | ThisT
    | VarT(name: string)
    | IndexT(name: string, index: ExprNode)
    | ParenT(inner: ExprNode)
    | NegT(operand: TermNode)
    | NotT(operand: TermNode)
    | CallT(target: string, member: Option<string>, args: seq<ExprNode>)

  /// `t`, or `left op right`.
  datatype ExprNode = Single(first: TermNode) | Binary(left: ExprNode, op: char, right: TermNode)

  /// A statement.
  datatype StmtNode =
    | LetS(name: string, value: ExprNode)
    | LetIndexS(name: string, index: ExprNode, value: ExprNode)
    | DoS(target: string, member: Option<string>, args: seq<ExprNode>)
    | ReturnS(result: Option<ExprNode>)
    | WhileS(cond: ExprNode, body: seq<StmtNode>)
    | IfS(cond: ExprNode, thenBody: seq<StmtNode>)
    | IfElseS(cond: ExprNode, thenBody: seq<StmtNode>, elseBody: seq<StmtNode>)

  /// What the code of a body depends on: the class name and the two tables.
  datatype Scope = Scope(cls: string, sst: SymTab, cst: SymTab)

  function Find(sc: Scope, name: string): Option<Symbol>
  {
    JackEngine.ResolveIn(sc.sst, sc.cst, name)
  }

  // ------------------------------------------------------------ spelling

  function TermLexemes(t: TermNode): seq<Lexeme>
    decreases t
  {
    match t
    case IntT(v) => [IntLex(v)]
    case StrT(s) => [StringLex(s)]
    case TrueT => [KeywordLex(True)]
    case FalseT => [KeywordLex(False)]
    case NullT => [KeywordLex(Null)]
    case ThisT => [KeywordLex(This)]
    case VarT(n) => [IdentifierLex(n)]
    case IndexT(n, e) => [IdentifierLex(n), SymbolLex('[')] + ExprLexemes(e) + [SymbolLex(']')]
    case ParenT(e) => [SymbolLex('(')] + ExprLexemes(e) + [SymbolLex(')')]
    case NegT(x) => [SymbolLex('-')] + TermLexemes(x)
    case NotT(x) => [SymbolLex('~')] + TermLexemes(x)
    case CallT(id1, member, args) => CallLexemes(id1, member, args)
  }

  /// `f(args)` or `x.f(args)`.
  function CallLexemes(id1: string, member: Option<string>, args: seq<ExprNode>): seq<Lexeme>
    decreases args, 1
  {
    var head := match member
      case None => [IdentifierLex(id1)]
      case Some(sub) => [IdentifierLex(id1), SymbolLex('.'), IdentifierLex(sub)];
    head + [SymbolLex('(')] + ArgLexemes(args) + [SymbolLex(')')]
  }

  function ExprLexemes(e: ExprNode): seq<Lexeme>
    decreases e
  {
    match e
    case Single(t) => TermLexemes(t)
    case Binary(l, op, r) => ExprLexemes(l) + [SymbolLex(op)] + TermLexemes(r)
  }

  /// The expressions of an argument list, separated by commas.
  function ArgLexemes(args: seq<ExprNode>): seq<Lexeme>
    decreases args, 0
  {
    if args == [] then [] else ExprLexemes(args[0]) + MoreArgLexemes(args[1..])
  }

  /// `(',' expression)*`.
  function MoreArgLexemes(args: seq<ExprNode>): seq<Lexeme>
    decreases args, 0
  {
    if args == [] then [] else [SymbolLex(',')] + ExprLexemes(args[0]) + MoreArgLexemes(args[1..])
  }

  function StmtLexemes(s: StmtNode): seq<Lexeme>
    decreases s
  {
    match s
    case LetS(n, v) =>
      [KeywordLex(Let), IdentifierLex(n), SymbolLex('=')] + ExprLexemes(v) + [SymbolLex(';')]
    case LetIndexS(n, x, v) =>
      [KeywordLex(Let), IdentifierLex(n), SymbolLex('[')] + ExprLexemes(x) + [SymbolLex(']'), SymbolLex('=')]
      + ExprLexemes(v) + [SymbolLex(';')]
    case DoS(id1, member, args) => [KeywordLex(Do)] + CallLexemes(id1, member, args) + [SymbolLex(';')]
    case ReturnS(None) => [KeywordLex(Return), SymbolLex(';')]
    case ReturnS(Some(e)) => [KeywordLex(Return)] + ExprLexemes(e) + [SymbolLex(';')]
    case WhileS(c, body) =>
      [KeywordLex(While), SymbolLex('(')] + ExprLexemes(c) + [SymbolLex(')'), SymbolLex('{')]
      + StmtsLexemes(body) + [SymbolLex('}')]
    case IfS(c, thenBody) =>
      [KeywordLex(If), SymbolLex('(')] + ExprLexemes(c) + [SymbolLex(')'), SymbolLex('{')]
      + StmtsLexemes(thenBody) + [SymbolLex('}')]
    case IfElseS(c, thenBody, elseBody) =>
      [KeywordLex(If), SymbolLex('(')] + ExprLexemes(c) + [SymbolLex(')'), SymbolLex('{')]
      + StmtsLexemes(thenBody) + [SymbolLex('}'), KeywordLex(Else), SymbolLex('{')]
      + StmtsLexemes(elseBody) + [SymbolLex('}')]
  }

  function StmtsLexemes(ss: seq<StmtNode>): seq<Lexeme>
    decreases ss, 0
  {
    if ss == [] then [] else StmtLexemes(ss[0]) + StmtsLexemes(ss[1..])
  }

  // ------------------------------------------------------------ reference code

  /// The code of a term: the value it denotes ends up on top of the stack.
  function TermCode(sc: Scope, t: TermNode): seq<VmCmd>
    decreases t
  {
    match t
    case IntT(v) => [PushCmd("constant", v)]
    case StrT(s) => JackEngine.StringCode(CString(s))
    case TrueT => [PushCmd("constant", 1), ArithCmd(NegOp)]
    case FalseT => [PushCmd("constant", 0)]
    case NullT => [PushCmd("constant", 0)]
    case ThisT => [PushCmd("pointer", 0)]
    case VarT(n) =>
      (match Find(sc, n)
       case Some(v) => [PushCmd(JackEngine.Segment(v.kind), v.idx)]
       case None => [])
    case IndexT(n, e) =>
      ExprCode(sc, e) +
      (match Find(sc, n)
       case Some(v) => JackEngine.ArrayRead(v)
       case None => [])
    case ParenT(e) => ExprCode(sc, e)
    case NegT(x) => TermCode(sc, x) + [ArithCmd(NegOp)]
    case NotT(x) => TermCode(sc, x) + [ArithCmd(NotOp)]
    case CallT(id1, member, args) => CallCode(sc, id1, member, args)
  }

  /// A call: a method of the current object gets `this` pushed first, a
  /// method of a variable gets the variable pushed after the arguments,
  /// and a function of a class gets the arguments alone.
  function CallCode(sc: Scope, id1: string, member: Option<string>, args: seq<ExprNode>): seq<VmCmd>
    decreases args, 1
  {
    match member
    case None => [PushCmd("pointer", 0)] + ArgsCode(sc, args) + [CallCmd(sc.cls, id1, |args| + 1)]
    case Some(sub) =>
      ArgsCode(sc, args) +
      (match Find(sc, id1)
       case Some(v) => [PushCmd(if v.kind == FieldKind then "this" else KindName(v.kind), v.idx), CallCmd(v.typ, sub, |args| + 1)]
       case None => [CallCmd(id1, sub, |args|)])
  }

  /// Postfix code, left to right.
  function ExprCode(sc: Scope, e: ExprNode): seq<VmCmd>
    decreases e
  {
    match e
    case Single(t) => TermCode(sc, t)
    case Binary(l, op, r) => ExprCode(sc, l) + TermCode(sc, r) + [JackEngine.OpCode(op)]
  }

  function ArgsCode(sc: Scope, args: seq<ExprNode>): seq<VmCmd>
    decreases args, 0
  {
    if args == [] then [] else ExprCode(sc, args[0]) + ArgsCode(sc, args[1..])
  }

  /// The code of a statement whose while/if statements nest at depth `d`
  /// and take their numbers from `i` on, with the next free number. A
  /// while/if numbered `i` at depth `d` uses the labels `(i, d + 1, 0)` and
  /// `(i, d + 1, 1)`; its branches are one level deeper.
  function StmtCode(sc: Scope, d: nat, i: nat, s: StmtNode): (seq<VmCmd>, nat)
    decreases s
  {
    match s
    case LetS(n, v) =>
      (ExprCode(sc, v) +
       (match Find(sc, n)
        case Some(x) => [PopCmd(JackEngine.Segment(x.kind), x.idx)]
        case None => []), i)
    case LetIndexS(n, x, v) =>
      (ExprCode(sc, x) +
       (match Find(sc, n)
        case Some(y) => [PushCmd(KindName(y.kind), y.idx), ArithCmd(AddOp)]
        case None => []) +
       ExprCode(sc, v) + JackEngine.ARRAY_STORE, i)
    case DoS(id1, member, args) => (CallCode(sc, id1, member, args) + [PopCmd("temp", 0)], i)
    case ReturnS(None) => ([PushCmd("constant", 0), ReturnCmd], i)
    case ReturnS(Some(e)) => (ExprCode(sc, e) + [ReturnCmd], i)
    case WhileS(c, body) =>
      var l0, l1 := LabelName(sc.cls, i, d + 1, 0), LabelName(sc.cls, i, d + 1, 1);
      var (b, i1) := StmtsCode(sc, d + 1, i + 1, body);
      ([LabelCmd(l0)] + ExprCode(sc, c) + [ArithCmd(NotOp), IfGotoCmd(l1)] + b + [GotoCmd(l0), LabelCmd(l1)], i1)
    case IfS(c, thenBody) =>
      var l0 := LabelName(sc.cls, i, d + 1, 0);
      var (b, i1) := StmtsCode(sc, d + 1, i + 1, thenBody);
      (ExprCode(sc, c) + [ArithCmd(NotOp), IfGotoCmd(l0)] + b + [LabelCmd(l0)], i1)
    case IfElseS(c, thenBody, elseBody) =>
      var l0, l1 := LabelName(sc.cls, i, d + 1, 0), LabelName(sc.cls, i, d + 1, 1);
      var (b, i1) := StmtsCode(sc, d + 1, i + 1, thenBody);
      var (e, i2) := StmtsCode(sc, d + 1, i1, elseBody);
      (ExprCode(sc, c) + [ArithCmd(NotOp), IfGotoCmd(l0)] + b + [GotoCmd(l1), LabelCmd(l0)] + e + [LabelCmd(l1)], i2)
  }

  function StmtsCode(sc: Scope, d: nat, i: nat, ss: seq<StmtNode>): (seq<VmCmd>, nat)
    decreases ss, 0
  {
    if ss == [] then ([], i)
    else
      var (c, i1) := StmtCode(sc, d, i, ss[0]);
      var (cs, i2) := StmtsCode(sc, d, i1, ss[1..]);
      (c + cs, i2)
  }

  // ------------------------------------------------------------ well-formed trees

  /// Every variable names a symbol and every operator is one of the nine.
  ghost predicate TermOk(sc: Scope, t: TermNode)
    decreases t
  {
    match t
    case VarT(n) => Find(sc, n).Some?
    case IndexT(n, e) => Find(sc, n).Some? && ExprOk(sc, e)
    case ParenT(e) => ExprOk(sc, e)
    case NegT(x) => TermOk(sc, x)
    case NotT(x) => TermOk(sc, x)
    case CallT(_, _, args) => ArgsOk(sc, args)
    case _ => true
  }

  ghost predicate ExprOk(sc: Scope, e: ExprNode)
    decreases e
  {
    match e
    case Single(t) => TermOk(sc, t)
    case Binary(l, op, r) => JackEngine.IsOp(op) && ExprOk(sc, l) && TermOk(sc, r)
  }

  ghost predicate ArgsOk(sc: Scope, args: seq<ExprNode>)
    decreases args, 0
  {
    args != [] ==> ExprOk(sc, args[0]) && ArgsOk(sc, args[1..])
  }

  /// The leftmost term of an expression.
  function FirstTerm(e: ExprNode): TermNode
  {
    match e
    case Single(t) => t
    case Binary(l, _, _) => FirstTerm(l)
  }

  /// Every assigned name is a variable, and a returned expression that
  /// starts with `this` is `this` alone (`compReturn` takes `this` as the
  /// whole value).
  ghost predicate StmtOk(sc: Scope, s: StmtNode)
    decreases s
  {
    match s
    case LetS(n, v) => Find(sc, n).Some? && ExprOk(sc, v)
    case LetIndexS(n, x, v) => Find(sc, n).Some? && ExprOk(sc, x) && ExprOk(sc, v)
    case DoS(_, _, args) => ArgsOk(sc, args)
    case ReturnS(None) => true
    case ReturnS(Some(e)) => ExprOk(sc, e) && (FirstTerm(e) == ThisT ==> e == Single(ThisT))
    case WhileS(c, body) => ExprOk(sc, c) && StmtsOk(sc, body)
    case IfS(c, thenBody) => ExprOk(sc, c) && StmtsOk(sc, thenBody)
    case IfElseS(c, thenBody, elseBody) => ExprOk(sc, c) && StmtsOk(sc, thenBody) && StmtsOk(sc, elseBody)
  }

  ghost predicate StmtsOk(sc: Scope, ss: seq<StmtNode>)
    decreases ss, 0
  {
    ss != [] ==> StmtOk(sc, ss[0]) && StmtsOk(sc, ss[1..])
  }

  // ------------------------------------------------------------ declarations

  /// `var type first (',' name)* ';'`.
  datatype VarDecl = VarDecl(typ: Lexeme, first: string, more: seq<string>)

  /// `type name` in a parameter list.
  datatype Param = Param(typ: Lexeme, name: string)

  /// `static` or `field` (in `kind`), then as a `var` declaration.
  datatype ClassVarDecl = ClassVarDecl(kind: Keyword, typ: Lexeme, first: string, more: seq<string>)

  /// A subroutine: its keyword, its return type, its name, its parameters,
  /// its `var` declarations and its statements.
  datatype SubDecl = SubDecl(kind: Keyword, ret: Lexeme, name: string, params: seq<Param>, vars: seq<VarDecl>,
                             body: seq<StmtNode>)

  /// A class: its name, its class-level declarations and its subroutines.
  datatype ClassDecl = ClassDecl(name: string, vars: seq<ClassVarDecl>, subs: seq<SubDecl>)

  /// The lexemes of a variable type.
  predicate TypeLexeme(l: Lexeme)
  {
    l == KeywordLex(Int) || l == KeywordLex(Char) || l == KeywordLex(Boolean) || l.IdentifierLex?
  }

  /// The type string a declaration records.
  function TypeText(l: Lexeme): string
  {
    match l
    case KeywordLex(k) => KeywordName(k)
    case IdentifierLex(n) => n
    case _ => ""
  }

  /// `(',' name)*`.
  function NamesLexemes(ns: seq<string>): seq<Lexeme>
  {
    if ns == [] then [] else [SymbolLex(','), IdentifierLex(ns[0])] + NamesLexemes(ns[1..])
  }

  function VarDeclLexemes(d: VarDecl): seq<Lexeme>
  {
    [KeywordLex(Var), d.typ, IdentifierLex(d.first)] + NamesLexemes(d.more) + [SymbolLex(';')]
  }

  function VarDeclsLexemes(ds: seq<VarDecl>): seq<Lexeme>
  {
    if ds == [] then [] else VarDeclLexemes(ds[0]) + VarDeclsLexemes(ds[1..])
  }

  function ClassVarDeclLexemes(d: ClassVarDecl): seq<Lexeme>
  {
    [KeywordLex(d.kind), d.typ, IdentifierLex(d.first)] + NamesLexemes(d.more) + [SymbolLex(';')]
  }

  function ClassVarDeclsLexemes(ds: seq<ClassVarDecl>): seq<Lexeme>
  {
    if ds == [] then [] else ClassVarDeclLexemes(ds[0]) + ClassVarDeclsLexemes(ds[1..])
  }

  /// `((type name) (',' type name)*)?`.
  function ParamsLexemes(ps: seq<Param>): seq<Lexeme>
  {
    if ps == [] then [] else [ps[0].typ, IdentifierLex(ps[0].name)] + MoreParamsLexemes(ps[1..])
  }

  function MoreParamsLexemes(ps: seq<Param>): seq<Lexeme>
  {
    if ps == [] then [] else [SymbolLex(','), ps[0].typ, IdentifierLex(ps[0].name)] + MoreParamsLexemes(ps[1..])
  }

  /// `varDec* statements '}'`, after the '{' of a subroutine body.
  function BodyLexemes(vars: seq<VarDecl>, body: seq<StmtNode>): seq<Lexeme>
  {
    VarDeclsLexemes(vars) + StmtsLexemes(body) + [SymbolLex('}')]
  }

  /// `'(' parameterList ')' '{' varDec* statements '}'`.
  function SigLexemes(s: SubDecl): seq<Lexeme>
  {
    [SymbolLex('(')] + ParamsLexemes(s.params) + [SymbolLex(')'), SymbolLex('{')] + BodyLexemes(s.vars, s.body)
  }

  function SubLexemes(s: SubDecl): seq<Lexeme>
  {
    [KeywordLex(s.kind), s.ret, IdentifierLex(s.name)] + SigLexemes(s)
  }

  function SubsLexemes(ss: seq<SubDecl>): seq<Lexeme>
  {
    if ss == [] then [] else SubLexemes(ss[0]) + SubsLexemes(ss[1..])
  }

  function ClassLexemes(c: ClassDecl): seq<Lexeme>
  {
    [KeywordLex(Class), IdentifierLex(c.name), SymbolLex('{')] + ClassVarDeclsLexemes(c.vars) + SubsLexemes(c.subs)
    + [SymbolLex('}')]
  }

  /// Every type is a variable type, every subroutine keyword one of the
  /// three, every return type `void` or a variable type.
  predicate VarsOk(ds: seq<VarDecl>)
  {
    forall i :: 0 <= i < |ds| ==> TypeLexeme(ds[i].typ)
  }

  predicate ParamsOk(ps: seq<Param>)
  {
    forall i :: 0 <= i < |ps| ==> TypeLexeme(ps[i].typ)
  }

  predicate ClassVarsOk(ds: seq<ClassVarDecl>)
  {
    forall i :: 0 <= i < |ds| ==> TypeLexeme(ds[i].typ) && (ds[i].kind == Static || ds[i].kind == Field)
  }

  predicate SubOk(s: SubDecl)
  {
    (s.kind == Constructor || s.kind == Function || s.kind == Method)
    && (s.ret == KeywordLex(Void) || TypeLexeme(s.ret))
    && ParamsOk(s.params) && VarsOk(s.vars)
  }

  // ------------------------------------------------------------ declared names

  /// The (name, type) pairs a list of declarations declares, in order and
  /// with repetitions.
  function Named(ns: seq<string>, typ: string): (r: seq<(string, string)>)
    ensures |r| == |ns| && forall i :: 0 <= i < |ns| ==> r[i] == (ns[i], typ)
  {
    if ns == [] then [] else [(ns[0], typ)] + Named(ns[1..], typ)
  }

  function VarPairs(ds: seq<VarDecl>): seq<(string, string)>
  {
    if ds == [] then [] else Named([ds[0].first] + ds[0].more, TypeText(ds[0].typ)) + VarPairs(ds[1..])
  }

  function ParamPairs(ps: seq<Param>): (r: seq<(string, string)>)
    ensures |r| == |ps| && forall i :: 0 <= i < |ps| ==> r[i] == (ps[i].name, TypeText(ps[i].typ))
  {
    if ps == [] then [] else [(ps[0].name, TypeText(ps[0].typ))] + ParamPairs(ps[1..])
  }

  /// The symbol kind of a class-level keyword.
  function ClassKind(k: Keyword): SymbolKind
  {
    if k == Static then StaticKind else FieldKind
  }

  /// `st_set` on each pair in turn.
  function DeclarePairs(t: SymTab, ps: seq<(string, string)>, kind: SymbolKind): (r: SymTab)
    requires WellSized(t)
    ensures WellSized(r)
    decreases |ps|
  {
    if ps == [] then t else DeclarePairs(Declare(t, ps[0].0, ps[0].1, kind), ps[1..], kind)
  }

  /// The class table after the class-level declarations.
  function ClassTable(t: SymTab, ds: seq<ClassVarDecl>): (r: SymTab)
    requires WellSized(t)
    ensures WellSized(r)
    decreases |ds|
  {
    if ds == [] then t
    else
      var d := ds[0];
      ClassTable(DeclarePairs(t, Named([d.first] + d.more, TypeText(d.typ)), ClassKind(d.kind)), ds[1..])
  }

  /// The subroutine table: `this` as argument 0 for a method whose return
  /// type is a class name, then the parameters, then the locals.
  function SubTable(s: SubDecl): SymTab
  {
    var t0 := EmptyTable();
    var t1 := if s.kind == Method && s.ret.IdentifierLex? then Declare(t0, "this", s.ret.name, ArgumentKind) else t0;
    DeclarePairs(DeclarePairs(t1, ParamPairs(s.params), ArgumentKind), VarPairs(s.vars), LocalKind)
  }

  /// What a subroutine does before its statements: a constructor takes
  /// one word for each name of the class table, static or field, and
  /// points `this` at it; a method points `this` at argument 0.
  function SubPrologue(kind: Keyword, cst: SymTab): seq<VmCmd>
  {
    if kind == Constructor then [PushCmd("constant", |cst.entries|), CallCmd("Memory", "alloc", 1), PopCmd("pointer", 0)]
    else if kind == Method then [PushCmd("argument", 0), PopCmd("pointer", 0)]
    else []
  }

  /// The code of a subroutine of class `cls`: the `function` line with one
  /// local per declared name, repetitions included, the prologue, and the
  /// code of the statements, with the next free while/if number.
  function SubCode(cls: string, cst: SymTab, d: nat, i: nat, s: SubDecl): (seq<VmCmd>, nat)
  {
    var (b, i1) := StmtsCode(Scope(cls, SubTable(s), cst), d, i, s.body);
    ([FunctionCmd(cls, s.name, |VarPairs(s.vars)|)] + SubPrologue(s.kind, cst) + b, i1)
  }

  function SubsCode(cls: string, cst: SymTab, d: nat, i: nat, ss: seq<SubDecl>): (seq<VmCmd>, nat)
    decreases |ss|
  {
    if ss == [] then ([], i)
    else
      var (c, i1) := SubCode(cls, cst, d, i, ss[0]);
      var (cs, i2) := SubsCode(cls, cst, d, i1, ss[1..]);
      (c + cs, i2)
  }

  /// The statements of every subroutine are well formed in its own scope.
  ghost predicate SubsOk(cls: string, cst: SymTab, ss: seq<SubDecl>)
  {
    forall i {:trigger SubOk(ss[i])} :: 0 <= i < |ss| ==> SubOk(ss[i]) && StmtsOk(Scope(cls, SubTable(ss[i]), cst), ss[i].body)
  }
}
