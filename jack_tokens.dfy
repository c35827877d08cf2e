/// The Jack tokens and the word classifiers that src/compiler.c and
/// 10/JackAnalyzer.c share (`keyword_from_str`, `is_symbol`, `is_intConst`,
/// `is_identifier` and the classification of `parse_token`; the two files
/// hold the same code).
module JackTokens {
  import opened CLib

  const MAX_CONSTANT: int := 32767

  /// `Keyword`, in the order of the C enumeration.
  datatype Keyword =
    | Class | Constructor | Function | Method | Int | Boolean | Char | Void | Var | Static | Field
    | Let | Do | If | Else | While | Return | True | False | Null | This

  /// The `keywords` table.
  function KeywordName(k: Keyword): string
  {
    match k
    case Class => "class"
    case Constructor => "constructor"
    case Function => "function"
    case Method => "method"
    case Int => "int"
    case Boolean => "boolean"
    case Char => "char"
    case Void => "void"
    case Var => "var"
    case Static => "static"
    case Field => "field"
    case Let => "let"
    case Do => "do"
    case If => "if"
    case Else => "else"
    case While => "while"
    case Return => "return"
    case True => "true"
    case False => "false"
    case Null => "null"
    case This => "this"
  }

  /// The keywords in table order, the order `keyword_from_str` tries them.
  const KEYWORDS: seq<Keyword> :=
    [Class, Constructor, Function, Method, Int, Boolean, Char, Void, Var, Static, Field,
     Let, Do, If, Else, While, Return, True, False, Null, This]

  /// The first entry of the table from `i` on that spells `s`.
  function KeywordFrom(s: string, i: nat): (r: Option<Keyword>)
    requires i <= |KEYWORDS|
    ensures r.Some? ==> KeywordName(r.value) == s
    ensures r.None? ==> forall j :: i <= j < |KEYWORDS| ==> KeywordName(KEYWORDS[j]) != s
    decreases |KEYWORDS| - i
  {
    if i == |KEYWORDS| then None
    else if KeywordName(KEYWORDS[i]) == s then Some(KEYWORDS[i])
    else KeywordFrom(s, i + 1)
  }

  /// The keyword spelled `s`, if any.
  function KeywordOf(s: string): (r: Option<Keyword>)
    ensures r.Some? ==> KeywordName(r.value) == s
    ensures r.None? ==> forall k: Keyword :: KeywordName(k) != s
  {
    var r := KeywordFrom(s, 0);
    if r.None? then
      assert forall k: Keyword :: KeywordName(k) != s by {
        forall k: Keyword ensures KeywordName(k) != s {
          var j := KeywordIndex(k);
          assert KEYWORDS[j] == k;
        }
      }
      r
    else r
  }

  /// The position of `k` in the table.
  function KeywordIndex(k: Keyword): (j: nat)
    ensures j < |KEYWORDS| && KEYWORDS[j] == k
  {
    match k
    case Class => 0
    case Constructor => 1
    case Function => 2
    case Method => 3
    case Int => 4
    case Boolean => 5
    case Char => 6
    case Void => 7
    case Var => 8
    case Static => 9
    case Field => 10
    case Let => 11
    case Do => 12
    case If => 13
    case Else => 14
    case While => 15
    case Return => 16
    case True => 17
    case False => 18
    case Null => 19
    case This => 20
  }

  /// Every keyword is found again from its name: the 21 names are distinct.
  lemma KeywordRoundTrip(k: Keyword)
    ensures KeywordOf(KeywordName(k)) == Some(k)
  {
    var r := KeywordOf(KeywordName(k));
    assert r.Some?;
    KeywordNameInjective(r.value, k);
  }

  /// No two keywords share a name.
  lemma KeywordNameInjective(a: Keyword, b: Keyword)
    requires KeywordName(a) == KeywordName(b)
    ensures a == b
  {
  }

  /// `keyword_from_str`: the first table entry equal to `s`.
  method KeywordFromStr(s: string) returns (kw: Option<Keyword>)
    ensures kw == KeywordOf(s)
  {
    var i := 0;
    while i < |KEYWORDS|
      invariant i <= |KEYWORDS|
      invariant KeywordFrom(s, i) == KeywordFrom(s, 0)
    {
      if s == KeywordName(KEYWORDS[i]) {
        return Some(KEYWORDS[i]);
      }
      i := i + 1;
    }
    kw := None;
  }

  /// `is_symbol`: the 19 symbol characters of Jack.
  predicate IsSymbol(c: char)
  {
    c == '{' || c == '}' || c == '(' || c == ')' || c == '[' || c == ']' || c == '.' || c == ','
    || c == ';' || c == '+' || c == '-' || c == '*' || c == '/' || c == '&' || c == '|'
    || c == '<' || c == '>' || c == '=' || c == '~'
  }

  /// `is_intConst`: 0 for "0", otherwise the `atoi` value when it lies in
  /// 1..32767, and -1 for anything else.
  function IntConstValue(s: string): (r: int)
    ensures -1 <= r <= MAX_CONSTANT
    ensures r == 0 <==> s == "0"
    ensures r > 0 <==> s != "0" && 0 < Atoi(s) <= MAX_CONSTANT
    ensures r > 0 ==> r == Atoi(s)
  {
    if s == "0" then 0
    else
      var val := Atoi(s);
      if 0 < val <= MAX_CONSTANT then val else -1
  }

  /// The characters `is_identifier` accepts.
  predicate IsIdentifierChar(c: char) { IsAlpha(c) || IsDigit(c) || c == '_' }

  predicate IdentifierChars(s: string) { forall i :: 0 <= i < |s| ==> IsIdentifierChar(s[i]) }

  /// `is_identifier`. The leading-digit test runs after the pointer has
  /// walked to the terminator, so it reads the NUL and never rejects: any
  /// word of letters, digits and underscores passes.
  method IsIdentifier(s: string) returns (ok: bool)
    requires '\0' !in s
    ensures ok <==> IdentifierChars(s)
  {
    var p := 0;
    while p < |s|
      invariant p <= |s| && IdentifierChars(s[..p])
    {
      if !IsIdentifierChar(s[p]) {
        assert !IsIdentifierChar(s[p]);
        return false;
      }
      assert s[..p + 1] == s[..p] + [s[p]];
      p := p + 1;
    }
    assert s[..p] == s;
    var terminator := CharAt(s, p);
    if IsDigit(terminator) {
      return false;
    }
    ok := true;
  }

  /// `is_identifier` as evidently intended: the leading-digit test reads the
  /// word's first character, so a word starting with a digit is refused.
  method IsIdentifierIntended(s: string) returns (ok: bool)
    requires '\0' !in s
    ensures ok <==> IdentifierChars(s) && !(s != [] && IsDigit(s[0]))
  {
    var p := 0;
    while p < |s|
      invariant p <= |s| && IdentifierChars(s[..p])
    {
      if !IsIdentifierChar(s[p]) {
        return false;
      }
      assert s[..p + 1] == s[..p] + [s[p]];
      p := p + 1;
    }
    assert s[..p] == s;
    if IsDigit(CharAt(s, 0)) {
      return false;
    }
    ok := true;
  }

  /// The character at `i` of a C string: its terminator past the end.
  function CharAt(s: string, i: nat): char { if i < |s| then s[i] else '\0' }

  /// What a word becomes.
  datatype Lexeme =
    | KeywordLex(keyword: Keyword)
    | SymbolLex(symbol: char)
    | IdentifierLex(name: string)
    | IntLex(value: nat)
    | StringLex(text: string)

  /// A token with the line and the 1-based column it starts at.
  datatype Token = Token(lex: Lexeme, line: nat, column: nat)

  /// The classification of `parse_token`: a keyword, else an integer
  /// constant, else an identifier; `None` is the bad token that stops the
  /// file.
  function Classify(word: string): Option<Lexeme>
  {
    match KeywordOf(word)
    case Some(k) => Some(KeywordLex(k))
    case None =>
      var v := IntConstValue(word);
      if v != -1 then Some(IntLex(v))
      else if IdentifierChars(word) then Some(IdentifierLex(word))
      else None
  }

  /// The order of the classification, each stage with the condition that
  /// decides it.
  lemma ClassifyOrder(word: string)
    ensures (exists k :: KeywordName(k) == word) <==> Classify(word).Some? && Classify(word).value.KeywordLex?
    ensures Classify(word).Some? && Classify(word).value.IntLex?
        <==> KeywordOf(word).None? && (word == "0" || 0 < Atoi(word) <= MAX_CONSTANT)
    ensures Classify(word).Some? && Classify(word).value.IdentifierLex?
        <==> KeywordOf(word).None? && word != "0" && !(0 < Atoi(word) <= MAX_CONSTANT) && IdentifierChars(word)
    ensures Classify(word).None?
        <==> KeywordOf(word).None? && word != "0" && !(0 < Atoi(word) <= MAX_CONSTANT) && !IdentifierChars(word)
    ensures Classify(word).Some? && Classify(word).value.IntLex? ==> Classify(word).value.value == IntConstValue(word)
    ensures Classify(word).Some? && Classify(word).value.IdentifierLex? ==> Classify(word).value.name == word
  {
    if KeywordOf(word).Some? {
      assert KeywordName(KeywordOf(word).value) == word;
    }
  }

  /// `parse_token`'s classification, with the loops of its helpers.
  method ClassifyWord(word: string) returns (lex: Option<Lexeme>)
    requires '\0' !in word
    ensures lex == Classify(word)
  {
    var kw := KeywordFromStr(word);
    if kw.Some? {
      return Some(KeywordLex(kw.value));
    }
    var intVal := IntConstValue(word);
    if intVal != -1 {
      return Some(IntLex(intVal));
    }
    var ident := IsIdentifier(word);
    if ident {
      return Some(IdentifierLex(word));
    }
    lex := None;
  }

  /// Whether `parse_token` on `word` leaves `errno` at `ERANGE`: the word is
  /// no keyword and not "0", so `is_intConst` calls `atoi`, and the
  /// `strtol` inside it overflows.
  predicate AtoiOverflows(word: string)
  {
    KeywordOf(word).None? && word != "0" && StrtolOverflows(word)
  }

  /// A word whose `atoi` overflows becomes an identifier or a bad token,
  /// never an integer constant (`atoi` gives -1 or 0); and an identifier
  /// leaves `errno` at `ERANGE` exactly when its digit prefix overflows.
  lemma OverflowClassify(word: string)
    ensures AtoiOverflows(word) ==>
      Classify(word) == if IdentifierChars(word) then Some(IdentifierLex(word)) else None
    ensures Classify(word) == Some(IdentifierLex(word)) ==> (AtoiOverflows(word) <==> StrtolOverflows(word))
  {
    StrtolRange(word);
  }

  /// Whether a token from `from` on is an identifier whose classification
  /// left `errno` at `ERANGE`.
  predicate RaisesErange(ts: seq<Token>, from: nat)
  {
    exists i :: from <= i < |ts| && ts[i].lex.IdentifierLex? && StrtolOverflows(ts[i].lex.name)
  }

  /// Since the leading-digit test never fires, digit strings that are not
  /// constants become identifiers: "32768" (above the limit) and "00"
  /// (`atoi` gives 0, which only the word "0" may stand for).
  lemma DigitIdentifiers()
    ensures Classify("32768") == Some(IdentifierLex("32768"))
    ensures Classify("00") == Some(IdentifierLex("00"))
  {
    AboveLimit();
    DoubleZero();
  }

  lemma AboveLimit()
    ensures Classify("32768") == Some(IdentifierLex("32768"))
  {
    Decimal32768();
    AtoiDigits("32768");
    DigitNotKeyword("32768");
    assert IntConstValue("32768") == -1;
    assert IdentifierChars("32768");
  }

  lemma DoubleZero()
    ensures Classify("00") == Some(IdentifierLex("00"))
  {
    assert DecimalValue("00") == 0 by { assert "00"[..1] == "0"; }
    AtoiDigits("00");
    DigitNotKeyword("00");
    assert IntConstValue("00") == -1;
    assert IdentifierChars("00");
  }

  lemma Decimal32768()
    ensures DecimalValue("32768") == 32768
  {
    assert DecimalValue("3") == 3;
    assert DecimalValue("32") == 32 by { assert "32"[..1] == "3"; }
    assert DecimalValue("327") == 327 by { assert "327"[..2] == "32"; }
    assert DecimalValue("3276") == 3276 by { assert "3276"[..3] == "327"; }
    assert "32768"[..4] == "3276";
  }

  /// No keyword starts with a digit.
  lemma DigitNotKeyword(s: string)
    requires s != [] && IsDigit(s[0])
    ensures KeywordOf(s).None?
  {
    if KeywordOf(s).Some? {
      KeywordNameShape(KeywordOf(s).value);
    }
  }

  /// Keyword names are lower-case words of two letters or more.
  lemma KeywordNameShape(k: Keyword)
    ensures |KeywordName(k)| >= 2 && 'a' <= KeywordName(k)[0] <= 'z'
  {
  }

  /// `atoi` stops at the first non-digit, so "12abc" is the constant 12.
  lemma DigitPrefixConstant()
    ensures Classify("12abc") == Some(IntLex(12))
  {
    DigitNotKeyword("12abc");
    AtoiStopsAtLetter();
    assert IntConstValue("12abc") == 12;
  }

  lemma AtoiStopsAtLetter()
    ensures Atoi("12abc") == 12
  {
    assert SkipSpace("12abc") == "12abc";
    assert DigitPrefix("12abc") == "12" by {
      assert DigitPrefix("abc") == [];
      assert "12abc"[1..] == "2abc" && "2abc"[1..] == "abc";
    }
    assert DecimalValue("12") == 12 by { assert "12"[..1] == "1"; }
    assert Strtol("12abc") == 12;
  }

  lemma AtoiDigits(s: string)
    requires s != [] && AllDigits(s) && DecimalValue(s) <= INT_MAX
    ensures Atoi(s) == DecimalValue(s)
  {
  }
}
