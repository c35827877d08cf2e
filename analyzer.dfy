/// The parser of 10/JackAnalyzer.c (`compExpressionList` ... `compClass`):
/// each production takes the cursor and returns the cursor after what it
/// read, printing the XML parse tree on the way. A token that is not where
/// the grammar wants it sets `errno` and the production goes on; the
/// `if (errno)` at its end prints a syntax error and clears the flag. The
/// cursor, the output, `errno` and the diagnostics form the state `Xs`.
module Analyzer {
  import opened CLib
  import opened JackTokens
  import opened AnalyzerLexer
  import opened AnalyzerXml
  import E = JackEngine

  /// The analyzer's state: `pos` indexes the token list (the cursor `t`).
  datatype Xs = Xs(pos: nat, out: seq<Xml>, errno: bool, diags: seq<E.Diagnostic>)

  /// A production only moves forward and only appends; an error pending
  /// when it starts is still pending or has been reported when it ends, and
  /// what it reports lies within the tokens it went over.
  predicate Moved(ts: seq<Token>, x: Xs, r: Xs)
  {
    x.pos <= r.pos <= |ts| && x.out <= r.out && x.diags <= r.diags
    && (x.errno ==> r.errno || |x.diags| < |r.diags|)
    && forall i :: |x.diags| <= i < |r.diags| ==> x.pos <= r.diags[i].at <= r.pos
  }

  function Put(x: Xs, ls: seq<Xml>): Xs { x.(out := x.out + ls) }

  function Opened(x: Xs, t: Tag): Xs { Put(x, [Open(t)]) }

  function Closed(x: Xs, t: Tag): Xs { Put(x, [Close(t)]) }

  /// Print the element of the token under the cursor and step past it.
  function Take(ts: seq<Token>, x: Xs): (r: Xs)
    requires x.pos < |ts|
    ensures Moved(ts, x, r) && r.pos == x.pos + 1
  {
    x.(pos := x.pos + 1, out := x.out + [Leaf(ts[x.pos].lex)])
  }

  function Fail(x: Xs): Xs { x.(errno := true) }

  /// A symbol the grammar requires here: printed and passed, or missing,
  /// which sets `errno` and leaves the cursor where it is.
  function Expect(ts: seq<Token>, x: Xs, c: char): (r: Xs)
    requires x.pos <= |ts|
    ensures Moved(ts, x, r)
  {
    if E.Sym(ts, x.pos, c) then Take(ts, x) else Fail(x)
  }

  /// The `if (errno) { fprintf(stderr, ...); errno = 0; }` of a production.
  function Check(x: Xs, prod: E.Production): (r: Xs)
    ensures r == x.(errno := false, diags := r.diags)
    ensures r.diags == if x.errno then x.diags + [E.Diagnostic(prod, x.pos)] else x.diags
  {
    if x.errno then x.(errno := false, diags := x.diags + [E.Diagnostic(prod, x.pos)]) else x
  }

  /// The keyword constants a term may be.
  predicate KeywordConstant(k: Keyword) { k == True || k == False || k == Null || k == This }

  /// The return type of a subroutine: a type or `void`.
  predicate IsReturnType(ts: seq<Token>, p: nat) { E.Kw(ts, p, Void) || E.IsType(ts, p) }

  // ------------------------------------------------------------ expressions

  /// `compExpressionList`: `(expression (',' expression)*)?`.
  function ExpressionList(ts: seq<Token>, x: Xs): (r: Xs)
    requires x.pos <= |ts|
    ensures Moved(ts, x, r) && !r.errno
    decreases |ts| - x.pos, 5
  {
    var l := MoreExpressions(ts, Expression(ts, Opened(x, ExpressionListTag)));
    Closed(Check(l, E.ExpressionListProd), ExpressionListTag)
  }

  /// The `(',' expression)*` loop of `compExpressionList`.
  function MoreExpressions(ts: seq<Token>, x: Xs): (r: Xs)
    requires x.pos <= |ts|
    ensures Moved(ts, x, r)
    decreases |ts| - x.pos, 0
  {
    if E.Sym(ts, x.pos, ',') then MoreExpressions(ts, Expression(ts, Take(ts, x))) else x
  }

  /// `compTerm`. A token that starts no term prints nothing and is not
  /// consumed.
  function Term(ts: seq<Token>, x: Xs): (r: Xs)
    requires x.pos <= |ts|
    ensures Moved(ts, x, r) && !r.errno
    decreases |ts| - x.pos, 3
  {
    Check(TermBody(ts, x), E.TermProd)
  }

  /// The branches of `compTerm`.
  function TermBody(ts: seq<Token>, x: Xs): (r: Xs)
    requires x.pos <= |ts|
    ensures Moved(ts, x, r)
    decreases |ts| - x.pos, 2
  {
    if x.pos == |ts| then x
    else match ts[x.pos].lex
      case IntLex(_) => LeafTerm(ts, x)
      case StringLex(_) => LeafTerm(ts, x)
      case KeywordLex(k) => if KeywordConstant(k) then LeafTerm(ts, x) else x
      case IdentifierLex(_) => Closed(NamedTerm(ts, Opened(x, TermTag)), TermTag)
      case SymbolLex(c) => if c == '(' || c == '-' || c == '~' then SymbolTerm(ts, x) else x
  }

  /// A constant as a term.
  function LeafTerm(ts: seq<Token>, x: Xs): (r: Xs)
    requires x.pos < |ts|
    ensures Moved(ts, x, r)
  {
    Closed(Take(ts, Opened(x, TermTag)), TermTag)
  }

  /// The branches of `compTerm` that start with a symbol: `'(' expression
  /// ')'` and a unary operator with its term.
  function SymbolTerm(ts: seq<Token>, x: Xs): (r: Xs)
    requires x.pos < |ts|
    ensures Moved(ts, x, r)
    decreases |ts| - x.pos, 1
  {
    var y := Take(ts, Opened(x, TermTag));
    if E.Sym(ts, x.pos, '(') then Closed(Parenthesised(ts, y), TermTag) else Closed(Term(ts, y), TermTag)
  }

  /// The identifier branch of `compTerm`, inside the `<term>` tags: an
  /// array element, a subroutine call (read again from the identifier), or
  /// a lone variable.
  function NamedTerm(ts: seq<Token>, x: Xs): (r: Xs)
    requires E.Ident(ts, x.pos)
    ensures Moved(ts, x, r)
    decreases |ts| - x.pos, 1
  {
    var p := x.pos;
    if E.Sym(ts, p + 1, '[') then Expect(ts, Expression(ts, Take(ts, Take(ts, x))), ']')
    else if E.Sym(ts, p + 1, '(') || E.Sym(ts, p + 1, '.') then SubroutineCall(ts, x)
    else Take(ts, x)
  }

  /// `expression ')'` after a '(' of `compTerm`.
  function Parenthesised(ts: seq<Token>, x: Xs): (r: Xs)
    requires 0 < x.pos <= |ts|
    ensures Moved(ts, x, r)
    decreases |ts| - x.pos + 1, 0
  {
    Expect(ts, Expression(ts, x), ')')
  }

  /// `compExpression`: `term (op term)*`, printed only when a term starts
  /// here.
  function Expression(ts: seq<Token>, x: Xs): (r: Xs)
    requires x.pos <= |ts|
    ensures Moved(ts, x, r) && !r.errno
    decreases |ts| - x.pos, 4
  {
    var r :=
      if E.StartsTerm(ts, x.pos) then Closed(Operations(ts, Term(ts, Opened(x, ExpressionTag))), ExpressionTag)
      else x;
    Check(r, E.ExpressionProd)
  }

  /// An operator token of `compExpression`'s loop.
  predicate OpAt(ts: seq<Token>, p: nat)
  {
    p < |ts| && ts[p].lex.SymbolLex? && E.IsOp(ts[p].lex.symbol)
  }

  /// The `(op term)*` loop of `compExpression`: an operator and a '=' token
  /// right after it are printed as one element.
  function Operations(ts: seq<Token>, x: Xs): (r: Xs)
    requires x.pos <= |ts|
    ensures Moved(ts, x, r)
    decreases |ts| - x.pos, 1
  {
    if OpAt(ts, x.pos) then
      var y := if E.Sym(ts, x.pos + 1, '=') then Put(x, [OpEq(ts[x.pos].lex.symbol)]).(pos := x.pos + 2) else Take(ts, x);
      Operations(ts, Term(ts, y))
    else x
  }

  /// `compSubroutineCall`: `name '(' expressionList ')'` or
  /// `name '.' name '(' expressionList ')'`.
  function SubroutineCall(ts: seq<Token>, x: Xs): (r: Xs)
    requires x.pos <= |ts|
    ensures Moved(ts, x, r) && !r.errno
    decreases |ts| - x.pos, 0
  {
    var r := if E.Ident(ts, x.pos) then Arguments(ts, Callee(ts, Take(ts, x))) else Fail(x);
    Check(r, E.CallProd)
  }

  /// The `'.' name` part of a call, after its first name.
  function Callee(ts: seq<Token>, x: Xs): (r: Xs)
    requires x.pos <= |ts|
    ensures Moved(ts, x, r)
  {
    if E.Sym(ts, x.pos, '.') then
      var d := Take(ts, x);
      if E.Ident(ts, d.pos) then Take(ts, d) else Fail(d)
    else x
  }

  /// `'(' expressionList ')'` of a call.
  function Arguments(ts: seq<Token>, x: Xs): (r: Xs)
    requires x.pos <= |ts|
    ensures Moved(ts, x, r)
    decreases |ts| - x.pos, 0
  {
    if E.Sym(ts, x.pos, '(') then Expect(ts, ExpressionList(ts, Take(ts, x)), ')') else Fail(x)
  }

  // ------------------------------------------------------------- statements

  /// `'{' statements '}'`.
  function Block(ts: seq<Token>, x: Xs): (r: Xs)
    requires x.pos <= |ts|
    ensures Moved(ts, x, r)
    decreases |ts| - x.pos, 0
  {
    if E.Sym(ts, x.pos, '{') then Expect(ts, Statements(ts, Take(ts, x)), '}') else Fail(x)
  }

  /// `compReturn`, after its keyword: `expression? ';'`.
  function ReturnStatement(ts: seq<Token>, x: Xs): (r: Xs)
    requires x.pos <= |ts|
    ensures Moved(ts, x, r) && !r.errno
    decreases |ts| - x.pos, 5
  {
    var y := Put(x, [Open(ReturnTag), Leaf(KeywordLex(Return))]);
    Closed(Check(Expect(ts, Expression(ts, y), ';'), E.ReturnProd), ReturnTag)
  }

  /// `compDo`, after its keyword: `subroutineCall ';'`.
  function DoStatement(ts: seq<Token>, x: Xs): (r: Xs)
    requires x.pos <= |ts|
    ensures Moved(ts, x, r) && !r.errno
    decreases |ts| - x.pos, 5
  {
    var y := Put(x, [Open(DoTag), Leaf(KeywordLex(Do))]);
    Closed(Check(Expect(ts, SubroutineCall(ts, y), ';'), E.DoProd), DoTag)
  }

  /// `compLet`, after its keyword: `name ('[' expression ']')? '='
  /// expression ';'`.
  function LetStatement(ts: seq<Token>, x: Xs): (r: Xs)
    requires x.pos <= |ts|
    ensures Moved(ts, x, r) && !r.errno
    decreases |ts| - x.pos, 5
  {
    var y := Put(x, [Open(LetTag), Leaf(KeywordLex(Let))]);
    Closed(Check(LetTarget(ts, y), E.LetProd), LetTag)
  }

  /// The name of a `let` and what follows it.
  function LetTarget(ts: seq<Token>, x: Xs): (r: Xs)
    requires x.pos <= |ts|
    ensures Moved(ts, x, r)
    decreases |ts| - x.pos, 4
  {
    if E.Ident(ts, x.pos) then LetValue(ts, LetIndex(ts, Take(ts, x))) else Fail(x)
  }

  /// The optional `'[' expression ']'` of a `let`. A missing ']' is
  /// reported but the '=' is still looked for.
  function LetIndex(ts: seq<Token>, x: Xs): (r: Xs)
    requires x.pos <= |ts|
    ensures Moved(ts, x, r)
    decreases |ts| - x.pos, 0
  {
    if E.Sym(ts, x.pos, '[') then Expect(ts, Expression(ts, Take(ts, x)), ']') else x
  }

  /// `'=' expression ';'` of a `let`.
  function LetValue(ts: seq<Token>, x: Xs): (r: Xs)
    requires x.pos <= |ts|
    ensures Moved(ts, x, r)
    decreases |ts| - x.pos, 0
  {
    if E.Sym(ts, x.pos, '=') then Expect(ts, Expression(ts, Take(ts, x)), ';') else Fail(x)
  }

  /// `compWhile`, after its keyword.
  function WhileStatement(ts: seq<Token>, x: Xs): (r: Xs)
    requires x.pos <= |ts|
    ensures Moved(ts, x, r) && !r.errno
    decreases |ts| - x.pos, 5
  {
    var y := Put(x, [Open(WhileTag), Leaf(KeywordLex(While))]);
    Closed(Check(WhileBody(ts, y), E.WhileProd), WhileTag)
  }

  /// `'(' expression ')' '{' statements '}'` of a `while`: the block is
  /// read only after a complete condition.
  function WhileBody(ts: seq<Token>, x: Xs): (r: Xs)
    requires x.pos <= |ts|
    ensures Moved(ts, x, r)
    decreases |ts| - x.pos, 4
  {
    if E.Sym(ts, x.pos, '(') then
      var e := Expression(ts, Take(ts, x));
      if E.Sym(ts, e.pos, ')') then Block(ts, Take(ts, e)) else Fail(e)
    else Fail(x)
  }

  /// `compIf`, after its keyword.
  function IfStatement(ts: seq<Token>, x: Xs): (r: Xs)
    requires x.pos <= |ts|
    ensures Moved(ts, x, r) && !r.errno
    decreases |ts| - x.pos, 5
  {
    var y := Put(x, [Open(IfTag), Leaf(KeywordLex(If))]);
    Closed(Check(IfBody(ts, y), E.IfProd), IfTag)
  }

  /// `'(' expression ')'` of an `if` and the blocks after a complete
  /// condition.
  function IfBody(ts: seq<Token>, x: Xs): (r: Xs)
    requires x.pos <= |ts|
    ensures Moved(ts, x, r)
    decreases |ts| - x.pos, 4
  {
    if E.Sym(ts, x.pos, '(') then
      var e := Expression(ts, Take(ts, x));
      if E.Sym(ts, e.pos, ')') then Branches(ts, Take(ts, e)) else Fail(e)
    else Fail(x)
  }

  /// The `then` block of an `if` and, after its '}', the `else` part.
  function Branches(ts: seq<Token>, x: Xs): (r: Xs)
    requires x.pos <= |ts|
    ensures Moved(ts, x, r)
    decreases |ts| - x.pos, 0
  {
    if E.Sym(ts, x.pos, '{') then
      var s := Statements(ts, Take(ts, x));
      if E.Sym(ts, s.pos, '}') then ElsePart(ts, Take(ts, s)) else Fail(s)
    else Fail(x)
  }

  /// `('else' '{' statements '}')?` after a complete `then` block.
  function ElsePart(ts: seq<Token>, x: Xs): (r: Xs)
    requires x.pos <= |ts|
    ensures Moved(ts, x, r)
    decreases |ts| - x.pos, 0
  {
    if E.Kw(ts, x.pos, Else) then Block(ts, Take(ts, x)) else x
  }

  /// The keywords `compStatements` dispatches on.
  predicate StatementKeyword(k: Keyword) { k == Do || k == Let || k == If || k == While || k == Return }

  /// A token that starts a statement.
  predicate StatementAt(ts: seq<Token>, p: nat)
  {
    p < |ts| && ts[p].lex.KeywordLex? && StatementKeyword(ts[p].lex.keyword)
  }

  /// The statement whose keyword `compStatements` has just consumed.
  function Statement(ts: seq<Token>, x: Xs, k: Keyword): (r: Xs)
    requires x.pos <= |ts| && StatementKeyword(k)
    ensures Moved(ts, x, r) && !r.errno
    decreases |ts| - x.pos, 6
  {
    match k
    case Do => DoStatement(ts, x)
    case Let => LetStatement(ts, x)
    case If => IfStatement(ts, x)
    case While => WhileStatement(ts, x)
    case Return => ReturnStatement(ts, x)
  }

  /// The loop of `compStatements`: it stops at a token that starts no
  /// statement, and after a statement that consumed nothing past its
  /// keyword.
  function StatementList(ts: seq<Token>, x: Xs): (r: Xs)
    requires x.pos <= |ts|
    ensures Moved(ts, x, r)
    decreases |ts| - x.pos, 0
  {
    if StatementAt(ts, x.pos) then
      var n := Statement(ts, x.(pos := x.pos + 1), ts[x.pos].lex.keyword);
      if n.pos == x.pos + 1 then n else StatementList(ts, n)
    else x
  }

  /// `compStatements`.
  function Statements(ts: seq<Token>, x: Xs): (r: Xs)
    requires x.pos <= |ts|
    ensures Moved(ts, x, r) && !r.errno
    decreases |ts| - x.pos, 4
  {
    Check(Closed(StatementList(ts, Opened(x, StatementsTag)), StatementsTag), E.StatementsProd)
  }

  // ----------------------------------------------------------- declarations

  /// The `(',' name)*` loop of a declaration; a ',' without a name after it
  /// is an error and ends the loop.
  function MoreNames(ts: seq<Token>, x: Xs): (r: Xs)
    requires x.pos <= |ts|
    ensures Moved(ts, x, r)
    decreases |ts| - x.pos
  {
    if E.Sym(ts, x.pos, ',') then
      var a := Take(ts, x);
      if E.Ident(ts, a.pos) then MoreNames(ts, Take(ts, a)) else Fail(a)
    else x
  }

  /// `type name (',' name)* ';'`, shared by `compVarDec` and
  /// `compClassVarDec` after their keyword; the ';' is looked for even
  /// after a bad name list.
  function Declarators(ts: seq<Token>, x: Xs): (r: Xs)
    requires x.pos <= |ts|
    ensures Moved(ts, x, r)
  {
    if E.IsType(ts, x.pos) then
      var a := Take(ts, x);
      if E.Ident(ts, a.pos) then Expect(ts, MoreNames(ts, Take(ts, a)), ';') else Fail(a)
    else Fail(x)
  }

  /// `compVarDec`. Without its leading `var` it prints nothing and returns
  /// the cursor it was given.
  function VarDec(ts: seq<Token>, x: Xs): (r: Xs)
    requires x.pos <= |ts|
    ensures Moved(ts, x, r) && !r.errno
    ensures r.pos == x.pos <==> !E.Kw(ts, x.pos, Var)
    ensures r.pos == x.pos ==> r.out == x.out
  {
    var r :=
      if E.Kw(ts, x.pos, Var) then Closed(Declarators(ts, Take(ts, Opened(x, VarDecTag))), VarDecTag)
      else x;
    Check(r, E.VarDecProd)
  }

  /// `compClassVarDec`, the same for `static` and `field`.
  function ClassVarDec(ts: seq<Token>, x: Xs): (r: Xs)
    requires x.pos <= |ts|
    ensures Moved(ts, x, r) && !r.errno
    ensures r.pos == x.pos <==> !(E.Kw(ts, x.pos, Static) || E.Kw(ts, x.pos, Field))
    ensures r.pos == x.pos ==> r.out == x.out
  {
    var r :=
      if E.Kw(ts, x.pos, Static) || E.Kw(ts, x.pos, Field) then
        Closed(Declarators(ts, Take(ts, Opened(x, ClassVarDecTag))), ClassVarDecTag)
      else x;
    Check(r, E.ClassVarDecProd)
  }

  /// The loop over `compVarDec` at the head of a subroutine body: it ends
  /// at the first token that is not `var`.
  function VarDecs(ts: seq<Token>, x: Xs): (r: Xs)
    requires x.pos <= |ts|
    ensures Moved(ts, x, r) && !r.errno && !E.Kw(ts, r.pos, Var)
    decreases |ts| - x.pos
  {
    var n := VarDec(ts, x);
    if n.pos == x.pos then n else VarDecs(ts, n)
  }

  /// The loop over `compClassVarDec` in `compClass`: it ends at the first
  /// token that is neither `static` nor `field`.
  function ClassVarDecs(ts: seq<Token>, x: Xs): (r: Xs)
    requires x.pos <= |ts|
    ensures Moved(ts, x, r) && !r.errno && !E.Kw(ts, r.pos, Static) && !E.Kw(ts, r.pos, Field)
    decreases |ts| - x.pos
  {
    var n := ClassVarDec(ts, x);
    if n.pos == x.pos then n else ClassVarDecs(ts, n)
  }

  /// The `(',' type name)*` loop of `compParameterList`.
  function MoreParameters(ts: seq<Token>, x: Xs): (r: Xs)
    requires x.pos <= |ts|
    ensures Moved(ts, x, r)
    decreases |ts| - x.pos
  {
    if E.Sym(ts, x.pos, ',') then
      var a := Take(ts, x);
      if E.IsType(ts, a.pos) then
        var b := Take(ts, a);
        if E.Ident(ts, b.pos) then MoreParameters(ts, Take(ts, b)) else Fail(b)
      else Fail(a)
    else x
  }

  /// `compParameterList`: `((type name) (',' type name)*)?`.
  function ParameterList(ts: seq<Token>, x: Xs): (r: Xs)
    requires x.pos <= |ts|
    ensures Moved(ts, x, r) && !r.errno
  {
    var y := Opened(x, ParameterListTag);
    var z :=
      if E.IsType(ts, y.pos) then
        var a := Take(ts, y);
        if E.Ident(ts, a.pos) then MoreParameters(ts, Take(ts, a)) else Fail(a)
      else y;
    Check(Closed(z, ParameterListTag), E.ParametersProd)
  }

  /// `subroutineBody` of `compSubroutine`, from its '{'.
  function SubroutineBody(ts: seq<Token>, x: Xs): (r: Xs)
    requires x.pos < |ts|
    ensures Moved(ts, x, r)
  {
    BodyEnd(ts, Statements(ts, VarDecs(ts, Take(ts, Opened(x, SubroutineBodyTag)))))
  }

  /// The '}' of a subroutine body: the closing tag is printed only with it.
  function BodyEnd(ts: seq<Token>, x: Xs): (r: Xs)
    requires x.pos <= |ts|
    ensures Moved(ts, x, r)
  {
    if E.Sym(ts, x.pos, '}') then Closed(Take(ts, x), SubroutineBodyTag) else Fail(x)
  }

  /// `compSubroutine` after its keyword: `('void' | type) name '('
  /// parameterList ')' subroutineBody`.
  function Signature(ts: seq<Token>, x: Xs): (r: Xs)
    requires x.pos <= |ts|
    ensures Moved(ts, x, r)
  {
    if IsReturnType(ts, x.pos) then
      var a := Take(ts, x);
      if E.Ident(ts, a.pos) then Parameters(ts, Take(ts, a)) else Fail(a)
    else Fail(x)
  }

  /// `'(' parameterList ')' subroutineBody` of `compSubroutine`.
  function Parameters(ts: seq<Token>, x: Xs): (r: Xs)
    requires x.pos <= |ts|
    ensures Moved(ts, x, r)
  {
    if E.Sym(ts, x.pos, '(') then
      var c := ParameterList(ts, Take(ts, x));
      if E.Sym(ts, c.pos, ')') then
        var d := Take(ts, c);
        if E.Sym(ts, d.pos, '{') then SubroutineBody(ts, d) else Fail(d)
      else Fail(c)
    else Fail(x)
  }

  /// The keywords that start a subroutine.
  predicate SubroutineKeyword(ts: seq<Token>, p: nat)
  {
    E.Kw(ts, p, Constructor) || E.Kw(ts, p, Function) || E.Kw(ts, p, Method)
  }

  /// `compSubroutine`. Without its leading keyword it prints nothing and
  /// returns the cursor it was given.
  function Subroutine(ts: seq<Token>, x: Xs): (r: Xs)
    requires x.pos <= |ts|
    ensures Moved(ts, x, r) && !r.errno
    ensures r.pos == x.pos <==> !SubroutineKeyword(ts, x.pos)
    ensures r.pos == x.pos ==> r.out == x.out
  {
    var r :=
      if SubroutineKeyword(ts, x.pos) then
        Closed(Signature(ts, Take(ts, Opened(x, SubroutineDecTag))), SubroutineDecTag)
      else x;
    Check(r, E.SubroutineProd)
  }

  /// The loop over `compSubroutine` in `compClass`: it ends at the first
  /// token that starts no subroutine.
  function Subroutines(ts: seq<Token>, x: Xs): (r: Xs)
    requires x.pos <= |ts|
    ensures Moved(ts, x, r) && !r.errno && !SubroutineKeyword(ts, r.pos)
    decreases |ts| - x.pos
  {
    var n := Subroutine(ts, x);
    if n.pos == x.pos then n else Subroutines(ts, n)
  }

  /// `compClass`: `'class' name '{' classVarDec* subroutineDec* '}'`.
  function Class(ts: seq<Token>, x: Xs): (r: Xs)
    requires x.pos <= |ts|
    ensures Moved(ts, x, r) && !r.errno
  {
    var r :=
      if E.Kw(ts, x.pos, JackTokens.Class) then Closed(ClassName(ts, Take(ts, Opened(x, ClassTag))), ClassTag)
      else Fail(x);
    Check(r, E.ClassProd)
  }

  /// The class name and the body of `compClass`.
  function ClassName(ts: seq<Token>, x: Xs): (r: Xs)
    requires x.pos <= |ts|
    ensures Moved(ts, x, r)
  {
    if E.Ident(ts, x.pos) then
      var a := Take(ts, x);
      if E.Sym(ts, a.pos, '{') then ClassEnd(ts, Subroutines(ts, ClassVarDecs(ts, Take(ts, a)))) else Fail(a)
    else Fail(x)
  }

  /// The final '}' of `compClass`: printed, but the cursor is not moved
  /// past it.
  function ClassEnd(ts: seq<Token>, x: Xs): (r: Xs)
    requires x.pos <= |ts|
    ensures Moved(ts, x, r)
  {
    if E.Sym(ts, x.pos, '}') then Put(x, [Leaf(SymbolLex('}'))]) else Fail(x)
  }

  /// `handle_file`: the token list of the file, then `compClass` from its
  /// head. A bad word or an overflowing `atoi` leaves `errno` set when
  /// parsing starts.
  function HandleFile(lines: seq<Chunk>, junk: Buffer): (r: Xs)
  {
    var lexed := Tokenize(lines, junk);
    Class(lexed.tokens, Xs(0, [], lexed.errno, []))
  }
}
