/// The compilation engine of src/compiler.c (`compExpressionList` ...
/// `compClass`): a recursive-descent parser that prints VM code while it
/// reads the token list. The globals it works on (the cursor `t`, `out`,
/// `gotoInc`, `gotoDepth`, `className`, `cst`, `sst` and `errno`, plus the
/// diagnostics printed to stderr) form the state `Gen`; every production is
/// a function from the state before it to the state after it.
module JackEngine {
  import opened CLib
  import opened JackTokens
  import opened JackLexer
  import opened JackSymbols
  import opened JackVm

  /// The productions that print a syntax error.
  datatype Production =
    | ClassProd | ClassVarDecProd | SubroutineProd | ParametersProd | VarDecProd
    | StatementsProd | DoProd | LetProd | IfProd | WhileProd | ReturnProd
    | CallProd | ExpressionListProd | ExpressionProd | TermProd

  /// A syntax error printed to stderr: the production and the position of
  /// the token the cursor was on.
  datatype Diagnostic = Diagnostic(prod: Production, at: nat)

  /// The engine's globals. `pos` indexes the token list (the cursor `t`);
  /// `errno` is the pending `PARSING_ERROR`.
  datatype Gen = Gen(pos: nat, out: seq<VmCmd>, gotoInc: nat, gotoDepth: nat, className: string,
                     cst: SymTab, sst: SymTab, errno: bool, diags: seq<Diagnostic>)

  // ------------------------------------------------------------ token tests

  // A test of the token at `p` fails when there is none: the source would
  // read through the NULL `next` of the last token there.

  predicate Sym(ts: seq<Token>, p: nat, c: char) { p < |ts| && ts[p].lex == SymbolLex(c) }

  predicate Kw(ts: seq<Token>, p: nat, k: Keyword) { p < |ts| && ts[p].lex == KeywordLex(k) }

  predicate Ident(ts: seq<Token>, p: nat) { p < |ts| && ts[p].lex.IdentifierLex? }

  function Name(ts: seq<Token>, p: nat): string
    requires Ident(ts, p)
  {
    ts[p].lex.name
  }

  /// A variable's type: `int`, `char`, `boolean` or a class name.
  predicate IsType(ts: seq<Token>, p: nat)
  {
    Kw(ts, p, Int) || Kw(ts, p, Char) || Kw(ts, p, Boolean) || Ident(ts, p)
  }

  /// The type string recorded for a declaration: the keyword's name or the
  /// class name.
  function TypeName(ts: seq<Token>, p: nat): string
    requires IsType(ts, p)
  {
    if ts[p].lex.KeywordLex? then KeywordName(ts[p].lex.keyword) else ts[p].lex.name
  }

  /// The binary operators of `compExpression`.
  predicate IsOp(c: char)
  {
    c == '+' || c == '-' || c == '*' || c == '/' || c == '&' || c == '|' || c == '<' || c == '>' || c == '='
  }

  /// The tokens that start a term, the test at the head of `compExpression`.
  predicate StartsTerm(ts: seq<Token>, p: nat)
  {
    p < |ts| &&
    match ts[p].lex
    case IntLex(_) => true
    case StringLex(_) => true
    case KeywordLex(k) => k == True || k == False || k == Null || k == This
    case IdentifierLex(_) => true
    case SymbolLex(c) => c == '(' || c == '-' || c == '~'
  }

  /// The test `t->data.symbol != '}'` that ends `compClass`, which reads the
  /// token's data without looking at its type: an integer constant whose
  /// low byte is 125 passes too (the data of a keyword is below 21, and
  /// the pointer of an identifier or a string is not modelled).
  predicate ClassCloses(ts: seq<Token>, p: nat)
  {
    p < |ts| &&
    match ts[p].lex
    case SymbolLex(c) => c == '}'
    case IntLex(v) => v % 256 == 125
    case _ => false
  }

  // ------------------------------------------------------------ state steps

  /// What every production keeps: the cursor on or before the end, both
  /// tables sized as `st_set` keeps them.
  ghost predicate Fits(ts: seq<Token>, g: Gen)
  {
    g.pos <= |ts| && WellSized(g.cst) && WellSized(g.sst)
  }

  /// A production only moves forward: the cursor and the label counter do
  /// not go back, the nesting depth is restored, output and diagnostics
  /// are only appended to.
  ghost predicate Advanced(ts: seq<Token>, g: Gen, r: Gen)
  {
    && Fits(ts, r)
    && g.pos <= r.pos && g.gotoInc <= r.gotoInc && r.gotoDepth == g.gotoDepth
    && g.out <= r.out && g.diags <= r.diags
  }

  /// Inside a subroutine body nothing else changes either.
  ghost predicate Within(ts: seq<Token>, g: Gen, r: Gen)
  {
    Advanced(ts, g, r) && r.className == g.className && r.cst == g.cst && r.sst == g.sst
  }

  function Emit(g: Gen, cs: seq<VmCmd>): Gen { g.(out := g.out + cs) }

  function Skip(g: Gen, n: nat): Gen { g.(pos := g.pos + n) }

  function At(g: Gen, p: nat): Gen { g.(pos := p) }

  function Fail(g: Gen): Gen { g.(errno := true) }

  /// The `if (errno) { fprintf(stderr, ...); errno = 0; }` that ends every
  /// production.
  function Check(g: Gen, prod: Production): (r: Gen)
    ensures r == g.(errno := false, diags := r.diags) && g.diags <= r.diags
  {
    if g.errno then g.(errno := false, diags := g.diags + [Diagnostic(prod, g.pos)]) else g
  }

  /// `st_get(sst, name)`, and `st_get(cst, name)` when that is NULL.
  function ResolveIn(sst: SymTab, cst: SymTab, name: string): Option<Symbol>
  {
    match Lookup(sst, name)
    case Some(sym) => Some(sym)
    case None => Lookup(cst, name)
  }

  /// A name looked up in the current subroutine and class tables.
  function Resolve(g: Gen, name: string): Option<Symbol>
  {
    ResolveIn(g.sst, g.cst, name)
  }

  /// The segment a plain variable is read from and written to.
  function Segment(k: SymbolKind): string
  {
    match k
    case LocalKind => "local"
    case ArgumentKind => "argument"
    case FieldKind => "this"
    case StaticKind => "static"
  }

  function Constant(n: int): VmCmd { PushCmd("constant", n) }

  function Arith(op: ArithOp): VmCmd { ArithCmd(op) }

  /// The command of a binary operator.
  function OpCode(c: char): VmCmd
  {
    match c
    case '+' => ArithCmd(AddOp)
    case '-' => ArithCmd(SubOp)
    case '*' => CallCmd("Math", "multiply", 2)
    case '/' => CallCmd("Math", "divide", 2)
    case '&' => ArithCmd(AndOp)
    case '|' => ArithCmd(OrOp)
    case '<' => ArithCmd(LtOp)
    case '>' => ArithCmd(GtOp)
    case _ => ArithCmd(EqOp)
  }

  /// The `%d` of a `char`: the source's `char` is signed, so a byte from
  /// 128 up prints negative.
  function CharCode(c: char): int
  {
    var b := c as int % 256;
    if b < 128 then b else b - 256
  }

  /// A string constant: `String.new` with the length, then one
  /// `String.appendChar` per character.
  function StringCode(s: string): seq<VmCmd>
  {
    [Constant(|s|), CallCmd("String", "new", 1)] + AppendChars(s)
  }

  function AppendChars(s: string): seq<VmCmd>
  {
    if s == [] then [] else [Constant(CharCode(s[0])), CallCmd("String", "appendChar", 2)] + AppendChars(s[1..])
  }

  /// The four commands of an array read after the index expression.
  function ArrayRead(sym: Symbol): seq<VmCmd>
  {
    [PushCmd(KindName(sym.kind), sym.idx), Arith(AddOp), PopCmd("pointer", 1), PushCmd("that", 0)]
  }

  /// The four commands that end `let a[e1] = e2;`.
  const ARRAY_STORE: seq<VmCmd> := [PopCmd("temp", 0), PopCmd("pointer", 1), PushCmd("temp", 0), PopCmd("that", 0)]

  /// The segment the receiver of `v.f(...)` is pushed from.
  function Receiver(k: SymbolKind): string
  {
    if k == FieldKind then "this" else KindName(k)
  }

  // ------------------------------------------------------------ expressions

  /// `compTerm`. An identifier that names no variable (and is not followed
  /// by '(' or '.') emits nothing and stays unread; so does a keyword
  /// other than true, false, null and this.
  function Term(ts: seq<Token>, g: Gen): (r: Gen)
    requires Fits(ts, g)
    ensures Within(ts, g, r)
    decreases |ts| - g.pos, 2
  {
    var p := g.pos;
    var r :=
      if p == |ts| then g
      else match ts[p].lex
        case IdentifierLex(name) =>
          if Sym(ts, p + 1, '(') || Sym(ts, p + 1, '.') then SubroutineCall(ts, g)
          else VariableTerm(ts, g, name)
        case SymbolLex(c) => SymbolTerm(ts, g, c)
        case _ => ConstantTerm(ts, g);
    Check(r, TermProd)
  }

  /// The constants of `compTerm`.
  function ConstantTerm(ts: seq<Token>, g: Gen): (r: Gen)
    requires Fits(ts, g) && g.pos < |ts|
    ensures Within(ts, g, r)
  {
    match ts[g.pos].lex
    case IntLex(v) => Skip(Emit(g, [Constant(v)]), 1)
    case StringLex(s) => Skip(Emit(g, StringCode(CString(s))), 1)
    case KeywordLex(k) =>
      if k == True then Skip(Emit(g, [Constant(1), Arith(NegOp)]), 1)
      else if k == False || k == Null then Skip(Emit(g, [Constant(0)]), 1)
      else if k == This then Skip(Emit(g, [PushCmd("pointer", 0)]), 1)
      else g
    case _ => g
  }

  /// The symbol branches of `compTerm`: a parenthesised expression, or a
  /// unary operator printed after its term.
  function SymbolTerm(ts: seq<Token>, g: Gen, c: char): (r: Gen)
    requires Fits(ts, g) && g.pos < |ts|
    ensures Within(ts, g, r)
    decreases |ts| - g.pos, 1
  {
    if c == '(' then
      var e := Expression(ts, Skip(g, 1)).0;
      if Sym(ts, e.pos, ')') then Skip(e, 1) else Fail(e)
    else if c == '-' then Emit(Term(ts, Skip(g, 1)), [Arith(NegOp)])
    else if c == '~' then Emit(Term(ts, Skip(g, 1)), [Arith(NotOp)])
    else g
  }

  /// The variable branch of `compTerm`: a plain read, or `a[e]`.
  function VariableTerm(ts: seq<Token>, g: Gen, name: string): (r: Gen)
    requires Fits(ts, g) && g.pos < |ts|
    ensures Within(ts, g, r)
    decreases |ts| - g.pos, 1
  {
    var p := g.pos;
    match Resolve(g, name)
    case None => g
    case Some(sym) =>
      if Sym(ts, p + 1, '[') then
        var e := Expression(ts, At(g, p + 2)).0;
        if Sym(ts, e.pos, ']') then Skip(Emit(e, ArrayRead(sym)), 1) else Fail(e)
      else Skip(Emit(g, [PushCmd(Segment(sym.kind), sym.idx)]), 1)
  }

  /// `compExpression`: 1 when a term was there, else 0.
  function Expression(ts: seq<Token>, g: Gen): (r: (Gen, nat))
    requires Fits(ts, g)
    ensures Within(ts, g, r.0) && r.1 <= 1
    decreases |ts| - g.pos, 3
  {
    if StartsTerm(ts, g.pos) then (Operations(ts, Term(ts, g)), 1)
    else (Check(g, ExpressionProd), 0)
  }

  /// The `(op term)*` loop of `compExpression`: each operator is printed
  /// after its right operand.
  function Operations(ts: seq<Token>, g: Gen): (r: Gen)
    requires Fits(ts, g)
    ensures Within(ts, g, r)
    decreases |ts| - g.pos, 0
  {
    var p := g.pos;
    if p < |ts| && ts[p].lex.SymbolLex? && IsOp(ts[p].lex.symbol) then
      Operations(ts, Emit(Term(ts, Skip(g, 1)), [OpCode(ts[p].lex.symbol)]))
    else g
  }

  /// `compExpressionList`: the number of expressions found.
  function ExpressionList(ts: seq<Token>, g: Gen): (r: (Gen, nat))
    requires Fits(ts, g)
    ensures Within(ts, g, r.0)
    decreases |ts| - g.pos, 4
  {
    var (e, n) := Expression(ts, g);
    var (m, k) := MoreExpressions(ts, e, n);
    (Check(m, ExpressionListProd), k)
  }

  /// The `(',' expression)*` loop of `compExpressionList`.
  function MoreExpressions(ts: seq<Token>, g: Gen, n: nat): (r: (Gen, nat))
    requires Fits(ts, g)
    ensures Within(ts, g, r.0) && n <= r.1
    decreases |ts| - g.pos, 0
  {
    if Sym(ts, g.pos, ',') then
      var (e, k) := Expression(ts, Skip(g, 1));
      MoreExpressions(ts, e, n + k)
    else (g, n)
  }

  /// `compSubroutineCall`. `f(...)` pushes `pointer 0` before the
  /// arguments and calls `<className>.f` with one more argument; `v.f(...)`
  /// for a variable `v` pushes `v` after the arguments and calls
  /// `<type of v>.f` with one more; `C.f(...)` calls `C.f` with the
  /// arguments alone.
  function SubroutineCall(ts: seq<Token>, g: Gen): (r: Gen)
    requires Fits(ts, g)
    ensures Within(ts, g, r)
    decreases |ts| - g.pos, 1
  {
    var p := g.pos;
    var r :=
      if !Ident(ts, p) then Fail(g)
      else
        var (h, id2) := CallTarget(ts, g);
        if !Sym(ts, h.pos, '(') then Fail(h)
        else CallArguments(ts, Skip(h, 1), Name(ts, p), Resolve(g, Name(ts, p)), id2);
    Check(r, CallProd)
  }

  /// The part of `compSubroutineCall` before '(': the subroutine name after
  /// a '.', or `push pointer 0` when there is no '.'.
  function CallTarget(ts: seq<Token>, g: Gen): (r: (Gen, Option<string>))
    requires Fits(ts, g) && Ident(ts, g.pos)
    ensures Within(ts, g, r.0) && r.0.pos > g.pos
  {
    var p := g.pos;
    if Sym(ts, p + 1, '.') then
      if Ident(ts, p + 2) then (At(g, p + 3), Some(Name(ts, p + 2))) else (Fail(At(g, p + 2)), None)
    else (Emit(At(g, p + 1), [PushCmd("pointer", 0)]), None)
  }

  /// The commands of a call with `n` arguments: `id1` is the first
  /// identifier, `sym` what it names, `id2` the name after the '.'.
  function CallCommands(className: string, id1: string, sym: Option<Symbol>, id2: Option<string>, n: nat): seq<VmCmd>
  {
    match id2
    case Some(sub) =>
      (match sym
       case Some(v) => [PushCmd(Receiver(v.kind), v.idx), CallCmd(v.typ, sub, n + 1)]
       case None => [CallCmd(id1, sub, n)])
    case None => [CallCmd(className, id1, n + 1)]
  }

  /// The arguments and the closing ')' of `compSubroutineCall`.
  function CallArguments(ts: seq<Token>, g: Gen, id1: string, sym: Option<Symbol>, id2: Option<string>): (r: Gen)
    requires Fits(ts, g)
    ensures Within(ts, g, r)
    decreases |ts| - g.pos, 5
  {
    var (e, n) := ExpressionList(ts, g);
    var c := Emit(e, CallCommands(g.className, id1, sym, id2, n));
    if Sym(ts, c.pos, ')') then Skip(c, 1) else Fail(c)
  }

  // ------------------------------------------------------------ statements

  /// `compStatements`: statements until a token that starts none.
  function Statements(ts: seq<Token>, g: Gen): (r: Gen)
    requires Fits(ts, g)
    ensures Within(ts, g, r)
    decreases |ts| - g.pos, 0
  {
    var p := g.pos;
    if Kw(ts, p, Do) then Statements(ts, DoStatement(ts, Skip(g, 1)))
    else if Kw(ts, p, Let) then Statements(ts, LetStatement(ts, Skip(g, 1)))
    else if Kw(ts, p, If) then Statements(ts, IfStatement(ts, Skip(g, 1)))
    else if Kw(ts, p, While) then Statements(ts, WhileStatement(ts, Skip(g, 1)))
    else if Kw(ts, p, Return) then Statements(ts, ReturnStatement(ts, Skip(g, 1)))
    else Check(g, StatementsProd)
  }

  /// `compDo`: the call, then `pop temp 0` to drop its value.
  function DoStatement(ts: seq<Token>, g: Gen): (r: Gen)
    requires Fits(ts, g)
    ensures Within(ts, g, r)
    decreases |ts| - g.pos, 5
  {
    var c := SubroutineCall(ts, g);
    var r := if Sym(ts, c.pos, ';') then Skip(Emit(c, [PopCmd("temp", 0)]), 1) else Fail(c);
    Check(r, DoProd)
  }

  /// `compLet`. The target must name a variable; `let a[e1] = e2;` computes
  /// the address before `e2` and keeps it on the stack until the store.
  function LetStatement(ts: seq<Token>, g: Gen): (r: Gen)
    requires Fits(ts, g)
    ensures Within(ts, g, r)
    decreases |ts| - g.pos, 5
  {
    var p := g.pos;
    var r :=
      if !Ident(ts, p) then Fail(g)
      else
        match Resolve(g, Name(ts, p))
        case None => Fail(g)
        case Some(sym) =>
          if Sym(ts, p + 1, '[') then
            var e := Expression(ts, At(g, p + 2)).0;
            var a := Emit(e, [PushCmd(KindName(sym.kind), sym.idx), Arith(AddOp)]);
            LetValue(ts, if Sym(ts, a.pos, ']') then Skip(a, 1) else Fail(a), ARRAY_STORE)
          else LetValue(ts, At(g, p + 1), [PopCmd(Segment(sym.kind), sym.idx)]);
    Check(r, LetProd)
  }

  /// The `'=' expression ';'` part of `compLet`, with the commands that
  /// store the value.
  function LetValue(ts: seq<Token>, g: Gen, store: seq<VmCmd>): (r: Gen)
    requires Fits(ts, g)
    ensures Within(ts, g, r)
    decreases |ts| - g.pos, 4
  {
    if !Sym(ts, g.pos, '=') then Fail(g)
    else
      var e := Expression(ts, Skip(g, 1)).0;
      if Sym(ts, e.pos, ';') then Skip(Emit(e, store), 1) else Fail(e)
  }

  /// The label of role `j` of the statement with counter `i`, one level
  /// deeper than `g`.
  function Label(g: Gen, i: nat, j: nat): LabelName
  {
    LabelName(g.className, i, g.gotoDepth + 1, j)
  }

  /// `compWhile`: label 0, the condition, `not`, `if-goto` 1, the body,
  /// `goto` 0, label 1.
  function WhileStatement(ts: seq<Token>, g: Gen): (r: Gen)
    requires Fits(ts, g)
    ensures Within(ts, g, r)
    decreases |ts| - g.pos, 5
  {
    var i := g.gotoInc;
    var g1 := g.(gotoInc := i + 1, gotoDepth := g.gotoDepth + 1);
    var l0, l1 := Label(g, i, 0), Label(g, i, 1);
    var r := if Sym(ts, g1.pos, '(') then WhileLoop(ts, Skip(Emit(g1, [LabelCmd(l0)]), 1), l0, l1) else Fail(g1);
    Check(r.(gotoDepth := r.gotoDepth - 1), WhileProd)
  }

  /// `compWhile` after its '('.
  function WhileLoop(ts: seq<Token>, g: Gen, l0: LabelName, l1: LabelName): (r: Gen)
    requires Fits(ts, g)
    ensures Within(ts, g, r)
    decreases |ts| - g.pos, 4
  {
    var e := Expression(ts, g).0;
    var (b, inside) := Block(ts, Emit(e, [Arith(NotOp), IfGotoCmd(l1)]));
    if !inside then b
    else if Sym(ts, b.pos, '}') then Skip(Emit(b, [GotoCmd(l0), LabelCmd(l1)]), 1)
    else Fail(b)
  }

  /// The `')' '{' statements` that `compWhile` and `compIf` share; false
  /// when the ')' or the '{' is missing.
  function Block(ts: seq<Token>, g: Gen): (r: (Gen, bool))
    requires Fits(ts, g)
    ensures Within(ts, g, r.0)
    decreases |ts| - g.pos, 0
  {
    if !Sym(ts, g.pos, ')') then (Fail(g), false)
    else if !Sym(ts, g.pos + 1, '{') then (Fail(Skip(g, 1)), false)
    else (Statements(ts, Skip(g, 2)), true)
  }

  /// `compIf`: the condition, `not`, `if-goto` 0, the then-branch; then
  /// label 0 alone, or `goto` 1, label 0, the else-branch and label 1.
  function IfStatement(ts: seq<Token>, g: Gen): (r: Gen)
    requires Fits(ts, g)
    ensures Within(ts, g, r)
    decreases |ts| - g.pos, 5
  {
    var i := g.gotoInc;
    var g1 := g.(gotoInc := i + 1, gotoDepth := g.gotoDepth + 1);
    var r := if Sym(ts, g1.pos, '(') then IfBranches(ts, Skip(g1, 1), Label(g, i, 0), Label(g, i, 1)) else Fail(g1);
    Check(r.(gotoDepth := r.gotoDepth - 1), IfProd)
  }

  /// `compIf` after its '('.
  function IfBranches(ts: seq<Token>, g: Gen, l0: LabelName, l1: LabelName): (r: Gen)
    requires Fits(ts, g)
    ensures Within(ts, g, r)
    decreases |ts| - g.pos, 4
  {
    var e := Expression(ts, g).0;
    var (b, inside) := Block(ts, Emit(e, [Arith(NotOp), IfGotoCmd(l0)]));
    if !inside then b
    else if Sym(ts, b.pos, '}') then ElseBranch(ts, Skip(b, 1), l0, l1)
    else Fail(b)
  }

  /// What follows the then-branch of `compIf`.
  function ElseBranch(ts: seq<Token>, g: Gen, l0: LabelName, l1: LabelName): (r: Gen)
    requires Fits(ts, g)
    ensures Within(ts, g, r)
    decreases |ts| - g.pos, 4
  {
    if !Kw(ts, g.pos, Else) then Emit(g, [LabelCmd(l0)])
    else
      var h := Skip(Emit(g, [GotoCmd(l1), LabelCmd(l0)]), 1);
      if !Sym(ts, h.pos, '{') then Fail(h)
      else
        var b := Statements(ts, Skip(h, 1));
        if Sym(ts, b.pos, '}') then Skip(Emit(b, [LabelCmd(l1)]), 1) else Fail(b)
  }

  /// `compReturn`: `return;` returns 0, `return this;` the pointer, and
  /// anything else an expression.
  function ReturnStatement(ts: seq<Token>, g: Gen): (r: Gen)
    requires Fits(ts, g)
    ensures Within(ts, g, r)
    decreases |ts| - g.pos, 5
  {
    var p := g.pos;
    var r :=
      if Sym(ts, p, ';') then Skip(Emit(g, [Constant(0), ReturnCmd]), 1)
      else if Kw(ts, p, This) then
        var h := Skip(Emit(g, [PushCmd("pointer", 0), ReturnCmd]), 1);
        if Sym(ts, h.pos, ';') then Skip(h, 1) else Fail(h)
      else
        var e := Expression(ts, g).0;
        if Sym(ts, e.pos, ';') then Skip(Emit(e, [ReturnCmd]), 1) else Fail(e);
    Check(r, ReturnProd)
  }

  // ------------------------------------------------------------ declarations

  /// The name a method's receiver is recorded under.
  const ThisName: string := "this"

  /// `st_set` on the subroutine table.
  function DeclareSub(g: Gen, name: string, typ: string, kind: SymbolKind): (r: Gen)
    requires WellSized(g.sst)
    ensures WellSized(r.sst) && r == g.(sst := r.sst)
  {
    g.(sst := Declare(g.sst, name, typ, kind))
  }

  /// `st_set` on the class table.
  function DeclareClass(g: Gen, name: string, typ: string, kind: SymbolKind): (r: Gen)
    requires WellSized(g.cst)
    ensures WellSized(r.cst) && r == g.(cst := r.cst)
  {
    g.(cst := Declare(g.cst, name, typ, kind))
  }

  /// Declarations leave the output, the counter and the depth alone.
  ghost predicate Declared(ts: seq<Token>, g: Gen, r: Gen)
  {
    Advanced(ts, g, r) && r.out == g.out && r.gotoInc == g.gotoInc
    && r.className == g.className
  }

  /// `compVarDec`: `var` declarations until another token, each name a
  /// local; `n` counts the names, a repeated one included.
  function VarDecs(ts: seq<Token>, g: Gen, n: nat): (r: (Gen, nat))
    requires Fits(ts, g)
    ensures Declared(ts, g, r.0) && r.0.cst == g.cst && n <= r.1
    decreases |ts| - g.pos
  {
    var p := g.pos + 1;
    if !Kw(ts, g.pos, Var) then (Check(g, VarDecProd), n)
    else if !IsType(ts, p) then VarDecs(ts, Fail(At(g, p)), n)
    else if !Ident(ts, p + 1) then VarDecs(ts, Fail(At(g, p + 1)), n)
    else
      var typ := TypeName(ts, p);
      var (h, m) := VarNames(ts, DeclareSub(At(g, p + 2), Name(ts, p + 1), typ, LocalKind), typ, n + 1);
      VarDecs(ts, if Sym(ts, h.pos, ';') then Skip(h, 1) else Fail(h), m)
  }

  /// The `(',' varName)*` loop of `compVarDec`.
  function VarNames(ts: seq<Token>, g: Gen, typ: string, n: nat): (r: (Gen, nat))
    requires Fits(ts, g)
    ensures Declared(ts, g, r.0) && r.0.cst == g.cst && n <= r.1
    decreases |ts| - g.pos
  {
    if !Sym(ts, g.pos, ',') then (g, n)
    else if !Ident(ts, g.pos + 1) then (Fail(At(g, g.pos + 1)), n)
    else VarNames(ts, DeclareSub(At(g, g.pos + 2), Name(ts, g.pos + 1), typ, LocalKind), typ, n + 1)
  }

  /// `compParameterList`: each parameter an argument.
  function ParameterList(ts: seq<Token>, g: Gen): (r: Gen)
    requires Fits(ts, g)
    ensures Declared(ts, g, r) && r.cst == g.cst
  {
    var p := g.pos;
    var r :=
      if !IsType(ts, p) then g
      else if !Ident(ts, p + 1) then Fail(At(g, p + 1))
      else Parameters(ts, DeclareSub(At(g, p + 2), Name(ts, p + 1), TypeName(ts, p), ArgumentKind));
    Check(r, ParametersProd)
  }

  /// The `(',' type varName)*` loop of `compParameterList`.
  function Parameters(ts: seq<Token>, g: Gen): (r: Gen)
    requires Fits(ts, g)
    ensures Declared(ts, g, r) && r.cst == g.cst
    decreases |ts| - g.pos
  {
    var p := g.pos;
    if !Sym(ts, p, ',') then g
    else if !IsType(ts, p + 1) then Fail(At(g, p + 1))
    else if !Ident(ts, p + 2) then Fail(At(g, p + 2))
    else Parameters(ts, DeclareSub(At(g, p + 3), Name(ts, p + 2), TypeName(ts, p + 1), ArgumentKind))
  }

  /// `compClassVarDec`: `static` and `field` declarations until another
  /// token.
  function ClassVarDecs(ts: seq<Token>, g: Gen): (r: Gen)
    requires Fits(ts, g)
    ensures Declared(ts, g, r) && r.sst == g.sst
    decreases |ts| - g.pos
  {
    var p := g.pos + 1;
    if !Kw(ts, g.pos, Static) && !Kw(ts, g.pos, Field) then Check(g, ClassVarDecProd)
    else
      var kind := if Kw(ts, g.pos, Static) then StaticKind else FieldKind;
      if !IsType(ts, p) then ClassVarDecs(ts, Fail(At(g, p)))
      else if !Ident(ts, p + 1) then ClassVarDecs(ts, Fail(At(g, p + 1)))
      else
        var typ := TypeName(ts, p);
        var h := ClassVarNames(ts, DeclareClass(At(g, p + 2), Name(ts, p + 1), typ, kind), typ, kind);
        ClassVarDecs(ts, if Sym(ts, h.pos, ';') then Skip(h, 1) else Fail(h))
  }

  /// The `(',' varName)*` loop of `compClassVarDec`.
  function ClassVarNames(ts: seq<Token>, g: Gen, typ: string, kind: SymbolKind): (r: Gen)
    requires Fits(ts, g)
    ensures Declared(ts, g, r) && r.sst == g.sst
    decreases |ts| - g.pos
  {
    if !Sym(ts, g.pos, ',') then g
    else if !Ident(ts, g.pos + 1) then Fail(At(g, g.pos + 1))
    else ClassVarNames(ts, DeclareClass(At(g, g.pos + 2), Name(ts, g.pos + 1), typ, kind), typ, kind)
  }

  // ------------------------------------------------------------ subroutines and classes

  predicate StartsSubroutine(ts: seq<Token>, p: nat)
  {
    Kw(ts, p, Constructor) || Kw(ts, p, Function) || Kw(ts, p, Method)
  }

  /// `compSubroutine`: subroutine declarations until another token, each
  /// with a fresh subroutine table.
  function Subroutines(ts: seq<Token>, g: Gen): (r: Gen)
    requires Fits(ts, g)
    ensures Advanced(ts, g, r) && r.className == g.className && r.cst == g.cst
    decreases |ts| - g.pos
  {
    var g0 := g.(sst := EmptyTable());
    if StartsSubroutine(ts, g.pos) then Subroutines(ts, SubroutineDec(ts, g0))
    else Check(g0, SubroutineProd)
  }

  /// One pass of the `compSubroutine` loop, from the keyword on. A method
  /// records `this` as its first argument only when its return type is a
  /// class name.
  function SubroutineDec(ts: seq<Token>, g: Gen): (r: Gen)
    requires Fits(ts, g) && StartsSubroutine(ts, g.pos)
    ensures Advanced(ts, g, r) && r.pos > g.pos && r.className == g.className && r.cst == g.cst
  {
    var isMethod := Kw(ts, g.pos, Method);
    var isConstructor := Kw(ts, g.pos, Constructor);
    var p := g.pos + 1;
    if !(Kw(ts, p, Void) || IsType(ts, p)) then Fail(At(g, p))
    else
      var g1 := ThisDeclared(ts, g);
      if Ident(ts, p + 1) then Signature(ts, At(g1, p + 2), Name(ts, p + 1), isConstructor, isMethod)
      else Fail(At(g1, p + 1))
  }

  /// The table a declaration at `g` starts with: a method whose return
  /// type is a class name declares `this` of that type as an argument.
  function ThisDeclared(ts: seq<Token>, g: Gen): (r: Gen)
    requires WellSized(g.sst)
    ensures WellSized(r.sst) && r == g.(sst := r.sst)
  {
    if Kw(ts, g.pos, Method) && Ident(ts, g.pos + 1) then DeclareSub(g, ThisName, Name(ts, g.pos + 1), ArgumentKind) else g
  }

  /// The parameter list of a subroutine named `name` and its body.
  function Signature(ts: seq<Token>, g: Gen, name: string, isConstructor: bool, isMethod: bool): (r: Gen)
    requires Fits(ts, g)
    ensures Advanced(ts, g, r) && r.className == g.className && r.cst == g.cst
  {
    if !Sym(ts, g.pos, '(') then Fail(g)
    else
      var pl := ParameterList(ts, Skip(g, 1));
      if !Sym(ts, pl.pos, ')') then Fail(pl)
      else if !Sym(ts, pl.pos + 1, '{') then Fail(Skip(pl, 1))
      else SubroutineBody(ts, Skip(pl, 2), name, isConstructor, isMethod)
  }

  /// The commands between the `function` line and the body: a
  /// constructor allocates one word per class-table name (statics
  /// included), a method sets `this` from argument 0.
  function Prologue(g: Gen, isConstructor: bool, isMethod: bool): seq<VmCmd>
  {
    if isConstructor then [Constant(|g.cst.entries|), CallCmd("Memory", "alloc", 1), PopCmd("pointer", 0)]
    else if isMethod then [PushCmd("argument", 0), PopCmd("pointer", 0)]
    else []
  }

  /// The body of a subroutine, after its '{': the `var` declarations, the
  /// `function` line with their count, the prologue, the statements and
  /// the closing '}'.
  function SubroutineBody(ts: seq<Token>, g: Gen, name: string, isConstructor: bool, isMethod: bool): (r: Gen)
    requires Fits(ts, g)
    ensures Advanced(ts, g, r) && r.className == g.className && r.cst == g.cst
  {
    var (v, n) := VarDecs(ts, g, 0);
    var h := Emit(v, [FunctionCmd(v.className, name, n)] + Prologue(v, isConstructor, isMethod));
    var s := Statements(ts, h);
    if Sym(ts, s.pos, '}') then Skip(s, 1) else Fail(s)
  }

  /// `compClass`, with a fresh class table. `className` is set once the
  /// name is read and keeps its old value otherwise.
  function CompileClass(ts: seq<Token>, g: Gen): (r: Gen)
    requires Fits(ts, g)
    ensures Advanced(ts, g, r)
  {
    var g0 := g.(cst := EmptyTable());
    var p := g.pos;
    var r :=
      if !Kw(ts, p, Class) then Fail(g0)
      else if !Ident(ts, p + 1) then Fail(At(g0, p + 1))
      else
        var g1 := g0.(className := Name(ts, p + 1), pos := p + 2);
        if !Sym(ts, p + 2, '{') then Fail(g1)
        else
          var s := Subroutines(ts, ClassVarDecs(ts, Skip(g1, 1)));
          if ClassCloses(ts, s.pos) then s else Fail(s);
    Check(r, ClassProd)
  }

  /// `handle_file`: tokenize the lines and compile the class. The globals
  /// `className`, `gotoInc` and `gotoDepth` carry over from the file
  /// before. A bad word or an overflowing `atoi` leaves `errno` set for the
  /// first production that checks it, and the tokens read so far are still
  /// compiled.
  function CompileFile(lines: seq<string>, className: string, gotoInc: nat, gotoDepth: nat): Gen
  {
    var lexed := Tokenize(lines);
    CompileClass(lexed.tokens, Gen(0, [], gotoInc, gotoDepth, className, EmptyTable(), EmptyTable(), lexed.errno, []))
  }

  /// The output of each file of a directory, compiled one after another.
  function CompileFiles(files: seq<seq<string>>, className: string, gotoInc: nat, gotoDepth: nat): seq<seq<VmCmd>>
    decreases |files|
  {
    if files == [] then []
    else
      var r := CompileFile(files[0], className, gotoInc, gotoDepth);
      [r.out] + CompileFiles(files[1..], r.className, r.gotoInc, r.gotoDepth)
  }
}
