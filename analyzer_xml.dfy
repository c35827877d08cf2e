/// The XML that 10/JackAnalyzer.c prints: one element or tag per line, with
/// '<', '>' and '&' in symbols written as entities and string constants
/// written as they are. The lines are kept as values (`Xml`) and rendered
/// to text by `Render`; `Match` checks how the tags nest.
module AnalyzerXml {
  import opened CLib
  import opened JackTokens

  /// The non-terminals the analyzer prints as tags.
  datatype Tag =
    | ClassTag | ClassVarDecTag | SubroutineDecTag | ParameterListTag | SubroutineBodyTag | VarDecTag
    | StatementsTag | LetTag | IfTag | WhileTag | DoTag | ReturnTag
    | ExpressionTag | TermTag | ExpressionListTag

  function TagName(t: Tag): string
  {
    match t
    case ClassTag => "class"
    case ClassVarDecTag => "classVarDec"
    case SubroutineDecTag => "subroutineDec"
    case ParameterListTag => "parameterList"
    case SubroutineBodyTag => "subroutineBody"
    case VarDecTag => "varDec"
    case StatementsTag => "statements"
    case LetTag => "letStatement"
    case IfTag => "ifStatement"
    case WhileTag => "whileStatement"
    case DoTag => "doStatement"
    case ReturnTag => "returnStatement"
    case ExpressionTag => "expression"
    case TermTag => "term"
    case ExpressionListTag => "expressionList"
  }

  /// A line of output: an opening or closing tag, the element of one token,
  /// or the element `compExpression` prints for an operator and the '='
  /// token right after it.
  datatype Xml = Open(tag: Tag) | Close(tag: Tag) | Leaf(lex: Lexeme) | OpEq(op: char)

  /// The entity `compExpression` writes for a symbol.
  function Escape(c: char): (r: string)
    ensures '<' !in r && '>' !in r
  {
    if c == '<' then "&lt;" else if c == '>' then "&gt;" else if c == '&' then "&amp;" else [c]
  }

  function Element(name: string, content: string): string
  {
    "<" + name + ">" + content + "</" + name + ">"
  }

  /// The text of a line, without its newline.
  function Render(x: Xml): string
  {
    match x
    case Open(t) => "<" + TagName(t) + ">"
    case Close(t) => "</" + TagName(t) + ">"
    case OpEq(c) => Element("symbol", Escape(c) + "=")
    case Leaf(lex) =>
      match lex
      case KeywordLex(k) => Element("keyword", KeywordName(k))
      case SymbolLex(c) => Element("symbol", Escape(c))
      case IntLex(v) => Element("integerConstant", NatStr(v))
      case StringLex(s) => Element("stringConstant", s)
      case IdentifierLex(n) => Element("identifier", n)
  }

  /// The output file.
  function Text(xs: seq<Xml>): (r: seq<string>)
    ensures |r| == |xs| && forall i :: 0 <= i < |xs| ==> r[i] == Render(xs[i])
  {
    seq(|xs|, i requires 0 <= i < |xs| => Render(xs[i]))
  }

  // ------------------------------------------------------------ reading back

  /// Character data as an XML reader decodes it: the three entities above
  /// stand for their characters, and a '<' or an '&' that starts no entity
  /// is malformed.
  function Decode(s: string): Option<string>
  {
    if s == [] then Some([])
    else if s[0] == '<' then None
    else if s[0] == '&' then
      if |s| >= 4 && s[1] == 'l' && s[2] == 't' && s[3] == ';' then Prepend('<', Decode(s[4..]))
      else if |s| >= 4 && s[1] == 'g' && s[2] == 't' && s[3] == ';' then Prepend('>', Decode(s[4..]))
      else if |s| >= 5 && s[1] == 'a' && s[2] == 'm' && s[3] == 'p' && s[4] == ';' then Prepend('&', Decode(s[5..]))
      else None
    else Prepend(s[0], Decode(s[1..]))
  }

  function Prepend(c: char, r: Option<string>): Option<string>
  {
    match r
    case None => None
    case Some(t) => Some([c] + t)
  }

  /// Every symbol element reads back as its symbol.
  lemma EscapeDecodes(c: char)
    ensures Decode(Escape(c)) == Some([c])
  {
    var e := Escape(c);
    if c == '<' || c == '>' {
      assert e[4..] == [] && Decode(e[4..]) == Some([]);
      assert [c] + [] == [c];
    } else if c == '&' {
      assert e[5..] == [] && Decode(e[5..]) == Some([]);
      assert [c] + [] == [c];
    } else {
      assert e[1..] == [];
    }
  }

  /// A string constant without '<' or '&' reads back as itself.
  lemma {:induction false} PlainTextDecodes(s: string)
    requires '<' !in s && '&' !in s
    ensures Decode(s) == Some(s)
  {
    if s != [] {
      assert s[0] in s;
      assert forall c | c in s[1..] :: c in s;
      PlainTextDecodes(s[1..]);
      assert [s[0]] + s[1..] == s;
    }
  }

  /// String constants are not escaped: a constant is printed as it is, so
  /// the constant "<" makes a malformed element, and the constant "&lt;"
  /// reads back as "<".
  lemma RawStrings(s: string)
    ensures Render(Leaf(StringLex(s))) == "<stringConstant>" + s + "</stringConstant>"
    ensures Decode("<") == None
    ensures Decode("&lt;") == Some("<")
  {
    assert "<" + "stringConstant" + ">" == "<stringConstant>";
    assert "</" + "stringConstant" + ">" == "</stringConstant>";
    LtDecodes();
  }

  lemma LtDecodes()
    ensures Decode("&lt;") == Some("<")
  {
    var e := "&lt;";
    assert e[4..] == [] && Decode(e[4..]) == Some([]);
    assert ['<'] + [] == "<";
  }

  // ----------------------------------------------------------------- nesting

  /// The tags still open after reading `xs` with `open` already open
  /// (innermost last); `None` when a closing tag does not match.
  function Match(xs: seq<Xml>, open: seq<Tag>): Option<seq<Tag>>
    decreases |xs|
  {
    if xs == [] then Some(open)
    else
      match xs[0]
      case Open(t) => Match(xs[1..], open + [t])
      case Close(t) => if open != [] && open[|open| - 1] == t then Match(xs[1..], open[..|open| - 1]) else None
      case _ => Match(xs[1..], open)
  }

  /// Every tag is closed, innermost first.
  predicate Balanced(xs: seq<Xml>) { Match(xs, []) == Some([]) }

  lemma {:induction false} MatchAppend(a: seq<Xml>, b: seq<Xml>, open: seq<Tag>)
    ensures Match(a + b, open) == (match Match(a, open) case None => None case Some(o) => Match(b, o))
    decreases |a|
  {
    if a != [] {
      assert (a + b)[0] == a[0] && (a + b)[1..] == a[1..] + b;
      match a[0]
      case Open(t) => MatchAppend(a[1..], b, open + [t]);
      case Close(t) =>
        if open != [] && open[|open| - 1] == t {
          MatchAppend(a[1..], b, open[..|open| - 1]);
        }
      case _ => MatchAppend(a[1..], b, open);
    } else {
      assert a + b == b;
    }
  }

  /// What a sequence does to the open tags does not depend on the ones
  /// opened before it when it never closes them.
  lemma {:induction false} MatchUnder(xs: seq<Xml>, below: seq<Tag>, open: seq<Tag>, r: seq<Tag>)
    requires Match(xs, open) == Some(r)
    ensures Match(xs, below + open) == Some(below + r)
    decreases |xs|
  {
    if xs != [] {
      match xs[0]
      case Open(t) =>
        assert below + open + [t] == below + (open + [t]);
        MatchUnder(xs[1..], below, open + [t], r);
      case Close(t) =>
        assert (below + open)[..|below + open| - 1] == below + open[..|open| - 1];
        MatchUnder(xs[1..], below, open[..|open| - 1], r);
      case _ => MatchUnder(xs[1..], below, open, r);
    }
  }

  lemma BalancedUnder(xs: seq<Xml>, open: seq<Tag>)
    requires Balanced(xs)
    ensures Match(xs, open) == Some(open)
  {
    MatchUnder(xs, open, [], []);
    assert open + [] == open;
  }

  lemma BalancedAppend(a: seq<Xml>, b: seq<Xml>)
    requires Balanced(a) && Balanced(b)
    ensures Balanced(a + b)
  {
    MatchAppend(a, b, []);
  }

  /// An opening tag in front of `xs`.
  lemma OpenThen(t: Tag, xs: seq<Xml>, open: seq<Tag>)
    ensures Match([Open(t)] + xs, open) == Match(xs, open + [t])
  {
    assert ([Open(t)] + xs)[0] == Open(t) && ([Open(t)] + xs)[1..] == xs;
  }

  /// A closing tag on its own.
  lemma CloseAlone(t: Tag, open: seq<Tag>)
    ensures Match([Close(t)], open)
            == if open != [] && open[|open| - 1] == t then Some(open[..|open| - 1]) else None
  {
    assert [Close(t)][1..] == [];
  }

  /// What a lone tag spells and what `Erase` leaves of it.
  lemma LoneTags(t: Tag)
    ensures Leaves([Open(t)]) == [] && Leaves([Close(t)]) == []
    ensures Erase([Open(t)]) == (if t == SubroutineBodyTag then [] else [Open(t)])
    ensures Erase([Close(t)]) == (if t == SubroutineBodyTag then [] else [Close(t)])
  {
    assert [Open(t)][1..] == [] && [Close(t)][1..] == [];
  }

  /// A balanced sequence between the two tags of `t` is balanced.
  lemma BalancedWrap(t: Tag, xs: seq<Xml>)
    requires Balanced(xs)
    ensures Balanced([Open(t)] + xs + [Close(t)])
  {
    MatchAppend([Open(t)] + xs, [Close(t)], []);
    MatchAppend([Open(t)], xs, []);
    assert Match([Open(t)], []) == Some([t]) by { assert [Open(t)][1..] == []; }
    BalancedUnder(xs, [t]);
    assert Match([Close(t)], [t]) == Some([]) by { assert [Close(t)][1..] == []; }
  }

  /// A sequence that opens `t`, holds a balanced sequence, and then closes
  /// some other tag is not balanced, whatever follows.
  lemma {:induction false} Misclosed(before: seq<Xml>, t: Tag, xs: seq<Xml>, u: Tag, after: seq<Xml>)
    requires Balanced(xs) && t != u && Match(before, []).Some?
    ensures !Balanced(before + [Open(t)] + xs + [Close(u)] + after)
  {
    var o := Match(before, []).value;
    assert before + [Open(t)] + xs + [Close(u)] + after == before + ([Open(t)] + (xs + ([Close(u)] + after)));
    MatchAppend(before, [Open(t)] + (xs + ([Close(u)] + after)), []);
    assert Match([Open(t)] + (xs + ([Close(u)] + after)), o) == Match(xs + ([Close(u)] + after), o + [t]);
    MatchAppend(xs, [Close(u)] + after, o + [t]);
    BalancedUnder(xs, o + [t]);
    assert ([Close(u)] + after)[0] == Close(u);
    assert (o + [t])[|o + [t]| - 1] == t;
  }

  // -------------------------------------------------------------- the leaves

  /// The lexemes the elements spell, in order.
  function Leaves(xs: seq<Xml>): seq<Lexeme>
  {
    if xs == [] then []
    else
      var first :=
        match xs[0]
        case Leaf(l) => [l]
        case OpEq(c) => [SymbolLex(c), SymbolLex('=')]
        case _ => [];
      first + Leaves(xs[1..])
  }

  lemma {:induction false} LeavesAppend(a: seq<Xml>, b: seq<Xml>)
    ensures Leaves(a + b) == Leaves(a) + Leaves(b)
    decreases |a|
  {
    if a != [] {
      assert (a + b)[0] == a[0] && (a + b)[1..] == a[1..] + b;
      LeavesAppend(a[1..], b);
    } else {
      assert a + b == b;
    }
  }

  /// The lines without the tags of `subroutineBody`.
  function Erase(xs: seq<Xml>): (r: seq<Xml>)
    ensures |r| <= |xs|
  {
    if xs == [] then []
    else if xs[0] == Open(SubroutineBodyTag) || xs[0] == Close(SubroutineBodyTag) then Erase(xs[1..])
    else [xs[0]] + Erase(xs[1..])
  }

  lemma {:induction false} EraseAppend(a: seq<Xml>, b: seq<Xml>)
    ensures Erase(a + b) == Erase(a) + Erase(b)
    decreases |a|
  {
    if a != [] {
      assert (a + b)[0] == a[0] && (a + b)[1..] == a[1..] + b;
      EraseAppend(a[1..], b);
    } else {
      assert a + b == b;
    }
  }
}
