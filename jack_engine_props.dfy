/// What the code generator of src/compiler.c is proved to do: on the tokens
/// of a well-formed tree it prints exactly the reference code of
/// `JackAst`, and on any tokens at all it keeps its label scheme.
module JackEngineProps {
  import opened CLib
  import opened JackTokens
  import opened JackSymbols
  import opened JackVm
  import opened JackEngine
  import opened JackAst

  /// The tokens from `p` on spell `ls`.
  ghost predicate Spells(ts: seq<Token>, p: nat, ls: seq<Lexeme>)
    decreases |ls|
  {
    if ls == [] then p <= |ts| else p < |ts| && ts[p].lex == ls[0] && Spells(ts, p + 1, ls[1..])
  }

  lemma {:induction false} SpellsSplit(ts: seq<Token>, p: nat, a: seq<Lexeme>, b: seq<Lexeme>)
    requires Spells(ts, p, a + b)
    ensures Spells(ts, p, a) && Spells(ts, p + |a|, b)
    decreases |a|
  {
    if a == [] {
      assert a + b == b;
      SpellsEnd(ts, p, b);
    } else {
      assert (a + b)[1..] == a[1..] + b;
      SpellsSplit(ts, p + 1, a[1..], b);
    }
  }

  lemma {:induction false} SpellsEnd(ts: seq<Token>, p: nat, ls: seq<Lexeme>)
    requires Spells(ts, p, ls)
    ensures p + |ls| <= |ts|
    decreases |ls|
  {
    if ls != [] {
      SpellsEnd(ts, p + 1, ls[1..]);
    }
  }

  lemma {:induction false} SpellsAt(ts: seq<Token>, p: nat, ls: seq<Lexeme>, k: nat)
    requires Spells(ts, p, ls) && k < |ls|
    ensures p + k < |ts| && ts[p + k].lex == ls[k]
    decreases k
  {
    if k > 0 {
      SpellsAt(ts, p + 1, ls[1..], k - 1);
    }
  }

  /// The state works in the scope `sc`, with no error pending.
  ghost predicate Sees(g: Gen, sc: Scope)
  {
    g.className == sc.cls && g.sst == sc.sst && g.cst == sc.cst && !g.errno
  }

  /// A token after a term that leaves the term alone: none that would turn
  /// an identifier into a call or an array element.
  predicate EndsTerm(ts: seq<Token>, q: nat)
  {
    !Sym(ts, q, '(') && !Sym(ts, q, '.') && !Sym(ts, q, '[')
  }

  /// A binary operator at `q`, which would continue an expression.
  predicate OpAt(ts: seq<Token>, q: nat)
  {
    q < |ts| && ts[q].lex.SymbolLex? && IsOp(ts[q].lex.symbol)
  }

  /// `n` tokens read and `code` printed.
  function After(g: Gen, n: nat, code: seq<VmCmd>): Gen
  {
    g.(pos := g.pos + n, out := g.out + code)
  }

  /// The tokens at `g` spell the well-formed term `t` of scope `sc`, and
  /// the token after it does not extend it.
  ghost predicate TermAt(ts: seq<Token>, g: Gen, sc: Scope, t: TermNode)
  {
    Fits(ts, g) && Sees(g, sc) && TermOk(sc, t)
    && Spells(ts, g.pos, TermLexemes(t)) && EndsTerm(ts, g.pos + |TermLexemes(t)|)
  }

  /// The same for an expression.
  ghost predicate ExprAt(ts: seq<Token>, g: Gen, sc: Scope, e: ExprNode)
  {
    Fits(ts, g) && Sees(g, sc) && ExprOk(sc, e)
    && Spells(ts, g.pos, ExprLexemes(e)) && EndsTerm(ts, g.pos + |ExprLexemes(e)|)
  }

  /// An expression that no operator continues.
  ghost predicate ExprAlone(ts: seq<Token>, g: Gen, sc: Scope, e: ExprNode)
  {
    ExprAt(ts, g, sc, e) && !OpAt(ts, g.pos + |ExprLexemes(e)|)
  }

  /// The tokens at `g` spell the call `id1(args)` or `id1.sub(args)`.
  ghost predicate CallAt(ts: seq<Token>, g: Gen, sc: Scope, id1: string, member: Option<string>, args: seq<ExprNode>)
  {
    Fits(ts, g) && Sees(g, sc) && ArgsOk(sc, args) && Spells(ts, g.pos, CallLexemes(id1, member, args))
  }

  /// The tokens at `g` spell the argument list `args`, and a ')' follows.
  ghost predicate ListAt(ts: seq<Token>, g: Gen, sc: Scope, args: seq<ExprNode>)
  {
    Fits(ts, g) && Sees(g, sc) && ArgsOk(sc, args)
    && Spells(ts, g.pos, ArgLexemes(args)) && Sym(ts, g.pos + |ArgLexemes(args)|, ')')
  }

  /// The same for the `(',' expression)*` rest of a list.
  ghost predicate MoreAt(ts: seq<Token>, g: Gen, sc: Scope, args: seq<ExprNode>)
  {
    Fits(ts, g) && Sees(g, sc) && ArgsOk(sc, args)
    && Spells(ts, g.pos, MoreArgLexemes(args)) && Sym(ts, g.pos + |MoreArgLexemes(args)|, ')')
  }

  // ------------------------------------------------------------ terms

  /// `compTerm` on the tokens of a term prints its reference code and
  /// reads exactly its tokens.
  lemma TermCompiles(ts: seq<Token>, g: Gen, sc: Scope, t: TermNode)
    requires TermAt(ts, g, sc, t)
    ensures Term(ts, g) == After(g, |TermLexemes(t)|, TermCode(sc, t))
    decreases t, 2
  {
    match t
    case VarT(_) => VariableCompiles(ts, g, sc, t);
    case IndexT(_, _) => IndexCompiles(ts, g, sc, t);
    case ParenT(_) => ParenCompiles(ts, g, sc, t);
    case NegT(_) => UnaryCompiles(ts, g, sc, t);
    case NotT(_) => UnaryCompiles(ts, g, sc, t);
    case CallT(_, _, _) => CallTermCompiles(ts, g, sc, t);
    case _ => ConstantCompiles(ts, g, sc, t);
  }

  lemma ConstantCompiles(ts: seq<Token>, g: Gen, sc: Scope, t: TermNode)
    requires TermAt(ts, g, sc, t)
    requires t.IntT? || t.StrT? || t.TrueT? || t.FalseT? || t.NullT? || t.ThisT?
    ensures Term(ts, g) == After(g, |TermLexemes(t)|, TermCode(sc, t))
  {
    SpellsAt(ts, g.pos, TermLexemes(t), 0);
  }

  lemma VariableCompiles(ts: seq<Token>, g: Gen, sc: Scope, t: TermNode)
    requires TermAt(ts, g, sc, t) && t.VarT?
    ensures Term(ts, g) == After(g, |TermLexemes(t)|, TermCode(sc, t))
  {
    SpellsAt(ts, g.pos, TermLexemes(t), 0);
    assert Resolve(g, t.name) == Find(sc, t.name);
  }

  lemma IndexCompiles(ts: seq<Token>, g: Gen, sc: Scope, t: TermNode)
    requires TermAt(ts, g, sc, t) && t.IndexT?
    ensures Term(ts, g) == After(g, |TermLexemes(t)|, TermCode(sc, t))
    decreases t, 1
  {
    var a := IndexParts(ts, g, sc, t);
    ExpressionCompiles(ts, a, sc, t.index);
  }

  /// The parts of `a[e]`: `e` starts at `a`, and the state after `e`, its
  /// element read and the ']' is the state after the term.
  lemma IndexParts(ts: seq<Token>, g: Gen, sc: Scope, t: TermNode) returns (a: Gen)
    requires TermAt(ts, g, sc, t) && t.IndexT?
    ensures g.pos < |ts| && ts[g.pos].lex == IdentifierLex(t.name) && Sym(ts, g.pos + 1, '[')
    ensures Resolve(g, t.name) == Find(sc, t.name) && Find(sc, t.name).Some?
    ensures a == At(g, g.pos + 2) && ExprAlone(ts, a, sc, t.index)
    ensures Sym(ts, a.pos + |ExprLexemes(t.index)|, ']')
    ensures Skip(Emit(After(a, |ExprLexemes(t.index)|, ExprCode(sc, t.index)), ArrayRead(Find(sc, t.name).value)), 1)
            == After(g, |TermLexemes(t)|, TermCode(sc, t))
  {
    var p, ls, es := g.pos, TermLexemes(t), ExprLexemes(t.index);
    SpellsSplit(ts, p, [IdentifierLex(t.name), SymbolLex('[')] + es, [SymbolLex(']')]);
    SpellsSplit(ts, p, [IdentifierLex(t.name), SymbolLex('[')], es);
    SpellsAt(ts, p, ls, 0);
    SpellsAt(ts, p, ls, 1);
    SpellsAt(ts, p, ls, 2 + |es|);
    a := At(g, p + 2);
    var c, r := ExprCode(sc, t.index), ArrayRead(Find(sc, t.name).value);
    assert g.out + c + r == g.out + (c + r);
  }

  lemma ParenCompiles(ts: seq<Token>, g: Gen, sc: Scope, t: TermNode)
    requires TermAt(ts, g, sc, t) && t.ParenT?
    ensures Term(ts, g) == After(g, |TermLexemes(t)|, TermCode(sc, t))
    decreases t, 1
  {
    var a := ParenParts(ts, g, sc, t);
    ExpressionCompiles(ts, a, sc, t.inner);
  }

  /// The parts of `(e)`.
  lemma ParenParts(ts: seq<Token>, g: Gen, sc: Scope, t: TermNode) returns (a: Gen)
    requires TermAt(ts, g, sc, t) && t.ParenT?
    ensures g.pos < |ts| && ts[g.pos].lex == SymbolLex('(')
    ensures a == Skip(g, 1) && ExprAlone(ts, a, sc, t.inner)
    ensures Sym(ts, a.pos + |ExprLexemes(t.inner)|, ')')
    ensures Skip(After(a, |ExprLexemes(t.inner)|, ExprCode(sc, t.inner)), 1) == After(g, |TermLexemes(t)|, TermCode(sc, t))
  {
    var p, ls, es := g.pos, TermLexemes(t), ExprLexemes(t.inner);
    SpellsSplit(ts, p, [SymbolLex('(')] + es, [SymbolLex(')')]);
    SpellsSplit(ts, p, [SymbolLex('(')], es);
    SpellsAt(ts, p, ls, 0);
    SpellsAt(ts, p, ls, 1 + |es|);
    a := Skip(g, 1);
  }

  lemma UnaryCompiles(ts: seq<Token>, g: Gen, sc: Scope, t: TermNode)
    requires TermAt(ts, g, sc, t) && (t.NegT? || t.NotT?)
    ensures Term(ts, g) == After(g, |TermLexemes(t)|, TermCode(sc, t))
    decreases t, 1
  {
    var a := UnaryParts(ts, g, sc, t);
    TermCompiles(ts, a, sc, t.operand);
  }

  /// The parts of `-x` and `~x`.
  lemma UnaryParts(ts: seq<Token>, g: Gen, sc: Scope, t: TermNode) returns (a: Gen)
    requires TermAt(ts, g, sc, t) && (t.NegT? || t.NotT?)
    ensures g.pos < |ts| && ts[g.pos].lex == SymbolLex(if t.NegT? then '-' else '~')
    ensures a == Skip(g, 1) && TermAt(ts, a, sc, t.operand)
    ensures Emit(After(a, |TermLexemes(t.operand)|, TermCode(sc, t.operand)), [Arith(if t.NegT? then NegOp else NotOp)])
            == After(g, |TermLexemes(t)|, TermCode(sc, t))
  {
    var c := if t.NegT? then '-' else '~';
    SpellsSplit(ts, g.pos, [SymbolLex(c)], TermLexemes(t.operand));
    SpellsAt(ts, g.pos, TermLexemes(t), 0);
    a := Skip(g, 1);
  }

  lemma CallTermCompiles(ts: seq<Token>, g: Gen, sc: Scope, t: TermNode)
    requires TermAt(ts, g, sc, t) && t.CallT?
    ensures Term(ts, g) == After(g, |TermLexemes(t)|, TermCode(sc, t))
    decreases t, 1
  {
    CallTermParts(ts, g, sc, t);
    CallCompiles(ts, g, sc, t.target, t.member, t.args);
  }

  /// A call term starts with an identifier and a '(' or a '.'.
  lemma CallTermParts(ts: seq<Token>, g: Gen, sc: Scope, t: TermNode)
    requires TermAt(ts, g, sc, t) && t.CallT?
    ensures g.pos + 1 < |ts| && ts[g.pos].lex == IdentifierLex(t.target)
    ensures Sym(ts, g.pos + 1, '(') || Sym(ts, g.pos + 1, '.')
    ensures CallAt(ts, g, sc, t.target, t.member, t.args)
    ensures TermLexemes(t) == CallLexemes(t.target, t.member, t.args)
  {
    assert TermLexemes(t) == CallLexemes(t.target, t.member, t.args);
    SpellsAt(ts, g.pos, TermLexemes(t), 0);
    SpellsAt(ts, g.pos, TermLexemes(t), 1);
  }

  /// Every term starts with a token `compExpression` accepts.
  lemma StartsWithTerm(ts: seq<Token>, p: nat, t: TermNode)
    requires Spells(ts, p, TermLexemes(t))
    ensures StartsTerm(ts, p)
  {
    if t.CallT? {
      CallSpellsHead(t.target, t.member, t.args);
      assert TermLexemes(t) == CallLexemes(t.target, t.member, t.args);
    }
    SpellsAt(ts, p, TermLexemes(t), 0);
  }

  /// The spelling of a call starts with the called identifier.
  lemma CallSpellsHead(id1: string, member: Option<string>, args: seq<ExprNode>)
    ensures |CallLexemes(id1, member, args)| > 0 && CallLexemes(id1, member, args)[0] == IdentifierLex(id1)
  {
  }

  // ------------------------------------------------------------ expressions

  /// The term loop of `compExpression` after the tokens of `e`: the terms
  /// are taken from the left and each operator follows its right operand.
  lemma ExprCompiles(ts: seq<Token>, g: Gen, sc: Scope, e: ExprNode)
    requires ExprAt(ts, g, sc, e)
    ensures StartsTerm(ts, g.pos)
    ensures var z := After(g, |ExprLexemes(e)|, ExprCode(sc, e));
            Fits(ts, z) && Operations(ts, Term(ts, g)) == Operations(ts, z)
    decreases e, 1
  {
    match e
    case Single(t) =>
      TermCompiles(ts, g, sc, t);
      StartsWithTerm(ts, g.pos, t);
    case Binary(_, _, _) =>
      BinaryCompiles(ts, g, sc, e);
  }

  lemma BinaryCompiles(ts: seq<Token>, g: Gen, sc: Scope, e: ExprNode)
    requires e.Binary? && ExprAt(ts, g, sc, e)
    ensures StartsTerm(ts, g.pos)
    ensures var z := After(g, |ExprLexemes(e)|, ExprCode(sc, e));
            Fits(ts, z) && Operations(ts, Term(ts, g)) == Operations(ts, z)
    decreases e, 0
  {
    var h, h1 := BinaryParts(ts, g, sc, e);
    ExprCompiles(ts, g, sc, e.left);
    TermCompiles(ts, h1, sc, e.right);
    OperationStep(ts, h, e.op);
  }

  /// The states around the operator of `left op right`: `h` after `left`,
  /// `h1` after the operator; what the three steps need there, and how the
  /// state after the right operand and its operator is the state after `e`.
  lemma BinaryParts(ts: seq<Token>, g: Gen, sc: Scope, e: ExprNode) returns (h: Gen, h1: Gen)
    requires e.Binary? && ExprAt(ts, g, sc, e)
    ensures h == After(g, |ExprLexemes(e.left)|, ExprCode(sc, e.left)) && h1 == Skip(h, 1)
    ensures ExprAt(ts, g, sc, e.left) && TermAt(ts, h1, sc, e.right)
    ensures Fits(ts, h) && h.pos < |ts| && ts[h.pos].lex == SymbolLex(e.op) && IsOp(e.op)
    ensures Emit(After(h1, |TermLexemes(e.right)|, TermCode(sc, e.right)), [OpCode(e.op)])
            == After(g, |ExprLexemes(e)|, ExprCode(sc, e))
  {
    var l, op, r := e.left, e.op, e.right;
    var ls, rs := ExprLexemes(l), TermLexemes(r);
    SpellsSplit(ts, g.pos, ls + [SymbolLex(op)], rs);
    SpellsSplit(ts, g.pos, ls, [SymbolLex(op)]);
    SpellsAt(ts, g.pos, ExprLexemes(e), |ls|);
    h := After(g, |ls|, ExprCode(sc, l));
    h1 := Skip(h, 1);
    assert h1.pos + |rs| == g.pos + |ExprLexemes(e)|;
    var lc, rc := ExprCode(sc, l), TermCode(sc, r);
    assert g.out + lc + rc + [OpCode(op)] == g.out + (lc + rc + [OpCode(op)]);
  }

  /// One pass of the operator loop of `compExpression`.
  lemma OperationStep(ts: seq<Token>, h: Gen, op: char)
    requires Fits(ts, h) && h.pos < |ts| && ts[h.pos].lex == SymbolLex(op) && IsOp(op)
    ensures Operations(ts, h) == Operations(ts, Emit(Term(ts, Skip(h, 1)), [OpCode(op)]))
  {
  }

  /// `compExpression` on the tokens of an expression that is not followed
  /// by another operator: its reference code, and the count 1.
  lemma ExpressionCompiles(ts: seq<Token>, g: Gen, sc: Scope, e: ExprNode)
    requires ExprAlone(ts, g, sc, e)
    ensures Expression(ts, g) == (After(g, |ExprLexemes(e)|, ExprCode(sc, e)), 1)
    decreases e, 2
  {
    ExprCompiles(ts, g, sc, e);
  }

  // ------------------------------------------------------------ calls

  /// `compSubroutineCall` on the tokens of a call prints the reference
  /// code of the call.
  lemma CallCompiles(ts: seq<Token>, g: Gen, sc: Scope, id1: string, member: Option<string>, args: seq<ExprNode>)
    requires CallAt(ts, g, sc, id1, member, args)
    ensures SubroutineCall(ts, g) == After(g, |CallLexemes(id1, member, args)|, CallCode(sc, id1, member, args))
    decreases args, 4
  {
    var h, a := CallHead(ts, g, sc, id1, member, args);
    ArgumentsCompile(ts, a, sc, id1, Find(sc, id1), member, args);
    CallShape(g, sc, id1, member, args, h, a);
  }

  /// The part of a call before its arguments.
  lemma CallHead(ts: seq<Token>, g: Gen, sc: Scope, id1: string, member: Option<string>, args: seq<ExprNode>)
    returns (h: Gen, a: Gen)
    requires CallAt(ts, g, sc, id1, member, args)
    ensures Ident(ts, g.pos) && Name(ts, g.pos) == id1 && Resolve(g, id1) == Find(sc, id1)
    ensures CallTarget(ts, g) == (h, member) && Sym(ts, h.pos, '(') && a == Skip(h, 1)
    ensures h == (if member.None? then Emit(At(g, g.pos + 1), [PushCmd("pointer", 0)]) else At(g, g.pos + 3))
    ensures ListAt(ts, a, sc, args)
  {
    var p := g.pos;
    var head := match member
      case None => [IdentifierLex(id1)]
      case Some(sub) => [IdentifierLex(id1), SymbolLex('.'), IdentifierLex(sub)];
    var al := ArgLexemes(args);
    SpellsSplit(ts, p, head + [SymbolLex('(')] + al, [SymbolLex(')')]);
    SpellsSplit(ts, p, head + [SymbolLex('(')], al);
    SpellsSplit(ts, p, head, [SymbolLex('(')]);
    var ls := CallLexemes(id1, member, args);
    SpellsAt(ts, p, ls, 0);
    SpellsAt(ts, p, ls, |head|);
    SpellsAt(ts, p, ls, |head| + 1 + |al|);
    if member.Some? {
      SpellsAt(ts, p, ls, 1);
      SpellsAt(ts, p, ls, 2);
    }
    h := CallTarget(ts, g).0;
    a := Skip(h, 1);
  }

  /// The output of a call: what the head printed, the arguments, then the
  /// call commands.
  lemma CallShape(g: Gen, sc: Scope, id1: string, member: Option<string>, args: seq<ExprNode>, h: Gen, a: Gen)
    requires Sees(g, sc) && a == Skip(h, 1)
    requires h == (if member.None? then Emit(At(g, g.pos + 1), [PushCmd("pointer", 0)]) else At(g, g.pos + 3))
    ensures Skip(Emit(After(a, |ArgLexemes(args)|, ArgsCode(sc, args)), CallCommands(sc.cls, id1, Find(sc, id1), member, |args|)), 1)
            == After(g, |CallLexemes(id1, member, args)|, CallCode(sc, id1, member, args))
  {
    var c, k := ArgsCode(sc, args), CallCommands(sc.cls, id1, Find(sc, id1), member, |args|);
    if member.None? {
      assert g.out + [PushCmd("pointer", 0)] + c + k == g.out + ([PushCmd("pointer", 0)] + c + k);
    } else {
      assert g.out + c + k == g.out + (c + k);
    }
  }

  /// The arguments and the ')' of a call.
  lemma ArgumentsCompile(ts: seq<Token>, a: Gen, sc: Scope, id1: string, sym: Option<Symbol>, id2: Option<string>, args: seq<ExprNode>)
    requires ListAt(ts, a, sc, args)
    ensures CallArguments(ts, a, id1, sym, id2)
            == Skip(Emit(After(a, |ArgLexemes(args)|, ArgsCode(sc, args)), CallCommands(sc.cls, id1, sym, id2, |args|)), 1)
    decreases args, 3
  {
    ListCompiles(ts, a, sc, args);
  }

  /// `compExpressionList` on the tokens of an argument list that a ')'
  /// closes: the code of each argument, and their number.
  lemma ListCompiles(ts: seq<Token>, g: Gen, sc: Scope, args: seq<ExprNode>)
    requires ListAt(ts, g, sc, args)
    ensures ExpressionList(ts, g) == (After(g, |ArgLexemes(args)|, ArgsCode(sc, args)), |args|)
    decreases args, 2
  {
    if args == [] {
      assert !StartsTerm(ts, g.pos);
      assert g.out + [] == g.out;
    } else {
      var e := ListParts(ts, g, sc, args);
      ExpressionCompiles(ts, g, sc, args[0]);
      MoreCompiles(ts, e, sc, args[1..], 1);
    }
  }

  /// The first argument, then the rest.
  lemma ListParts(ts: seq<Token>, g: Gen, sc: Scope, args: seq<ExprNode>) returns (e: Gen)
    requires ListAt(ts, g, sc, args) && args != []
    ensures ExprAlone(ts, g, sc, args[0])
    ensures e == After(g, |ExprLexemes(args[0])|, ExprCode(sc, args[0])) && MoreAt(ts, e, sc, args[1..])
    ensures After(e, |MoreArgLexemes(args[1..])|, ArgsCode(sc, args[1..])) == After(g, |ArgLexemes(args)|, ArgsCode(sc, args))
  {
    var es, ms := ExprLexemes(args[0]), MoreArgLexemes(args[1..]);
    SpellsSplit(ts, g.pos, es, ms);
    FirstOfMore(ts, g.pos + |es|, args[1..]);
    e := After(g, |es|, ExprCode(sc, args[0]));
    var c, d := ExprCode(sc, args[0]), ArgsCode(sc, args[1..]);
    assert g.out + c + d == g.out + (c + d);
  }

  /// The token after an argument is a ',' or the closing ')'.
  lemma FirstOfMore(ts: seq<Token>, q: nat, args: seq<ExprNode>)
    requires Spells(ts, q, MoreArgLexemes(args)) && Sym(ts, q + |MoreArgLexemes(args)|, ')')
    ensures Sym(ts, q, ',') || Sym(ts, q, ')')
  {
    if args != [] {
      SpellsAt(ts, q, MoreArgLexemes(args), 0);
    }
  }

  /// The `(',' expression)*` loop of `compExpressionList`.
  lemma MoreCompiles(ts: seq<Token>, g: Gen, sc: Scope, args: seq<ExprNode>, n: nat)
    requires MoreAt(ts, g, sc, args)
    ensures MoreExpressions(ts, g, n) == (After(g, |MoreArgLexemes(args)|, ArgsCode(sc, args)), n + |args|)
    decreases args, 1
  {
    if args == [] {
      assert g.out + [] == g.out;
    } else {
      var a, e := MoreParts(ts, g, sc, args);
      ExpressionCompiles(ts, a, sc, args[0]);
      MoreCompiles(ts, e, sc, args[1..], n + 1);
      MoreJoin(ts, g, sc, args, n, e);
    }
  }

  /// The loop's result from that of its second round on.
  lemma MoreJoin(ts: seq<Token>, g: Gen, sc: Scope, args: seq<ExprNode>, n: nat, e: Gen)
    requires args != []
    requires Fits(ts, g) && Sym(ts, g.pos, ',') && Fits(ts, Skip(g, 1)) && Expression(ts, Skip(g, 1)) == (e, 1)
    requires MoreExpressions(ts, e, n + 1) == (After(e, |MoreArgLexemes(args[1..])|, ArgsCode(sc, args[1..])), n + 1 + |args[1..]|)
    requires After(e, |MoreArgLexemes(args[1..])|, ArgsCode(sc, args[1..])) == After(g, |MoreArgLexemes(args)|, ArgsCode(sc, args))
    ensures MoreExpressions(ts, g, n) == (After(g, |MoreArgLexemes(args)|, ArgsCode(sc, args)), n + |args|)
  {
    MoreStep(ts, g, n, e);
  }

  /// One round of the loop: a ',' and an expression.
  lemma MoreStep(ts: seq<Token>, g: Gen, n: nat, e: Gen)
    requires Fits(ts, g) && Sym(ts, g.pos, ',') && Fits(ts, Skip(g, 1)) && Expression(ts, Skip(g, 1)) == (e, 1)
    ensures MoreExpressions(ts, g, n) == MoreExpressions(ts, e, n + 1)
  {
  }

  /// The ',', the next argument, then the rest.
  lemma MoreParts(ts: seq<Token>, g: Gen, sc: Scope, args: seq<ExprNode>) returns (a: Gen, e: Gen)
    requires MoreAt(ts, g, sc, args) && args != []
    ensures Sym(ts, g.pos, ',') && a == Skip(g, 1) && ExprAlone(ts, a, sc, args[0])
    ensures e == After(a, |ExprLexemes(args[0])|, ExprCode(sc, args[0])) && MoreAt(ts, e, sc, args[1..])
    ensures After(e, |MoreArgLexemes(args[1..])|, ArgsCode(sc, args[1..])) == After(g, |MoreArgLexemes(args)|, ArgsCode(sc, args))
  {
    var es, ms := ExprLexemes(args[0]), MoreArgLexemes(args[1..]);
    SpellsSplit(ts, g.pos, [SymbolLex(',')] + es, ms);
    SpellsSplit(ts, g.pos, [SymbolLex(',')], es);
    SpellsAt(ts, g.pos, MoreArgLexemes(args), 0);
    FirstOfMore(ts, g.pos + 1 + |es|, args[1..]);
    a := Skip(g, 1);
    e := After(a, |es|, ExprCode(sc, args[0]));
    var c, d := ExprCode(sc, args[0]), ArgsCode(sc, args[1..]);
    assert g.out + c + d == g.out + (c + d);
  }
}
