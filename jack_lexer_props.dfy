/// What the lexer of src/compiler.c guarantees: tokens carry their line and
/// the column of their first character, comments and strings follow the
/// rules of `tokenize_file`, and a bad word stops the file.
module JackLexerProps {
  import opened CLib
  import opened JackTokens
  import opened JackLexer

  // ------------------------------------------------------------- anchoring

  /// `w` is spelled in `s` from the 1-based column `col` on.
  predicate Spelled(s: string, col: nat, w: string)
  {
    1 <= col && col - 1 + |w| <= |s| && s[col - 1..col - 1 + |w|] == w
  }

  /// A token of line `s` sits where its column says: a symbol at its
  /// column, a keyword or an identifier spelled from it, an integer constant
  /// starting in the line, and a string constant whose text runs up to a
  /// closing quote.
  predicate Anchored(s: string, t: Token)
  {
    match t.lex
    case SymbolLex(c) => 1 <= t.column <= |s| && s[t.column - 1] == c
    case KeywordLex(k) => Spelled(s, t.column, KeywordName(k))
    case IdentifierLex(name) => Spelled(s, t.column, name)
    case IntLex(_) => 1 <= t.column <= |s|
    case StringLex(text) => 1 <= t.column && t.column - 1 + |text| < |s| && s[t.column - 1 + |text|] == '"'
  }

  /// The tokens appended while lexing line `ln` whose text is `s`.
  predicate Appended(s: string, ln: nat, before: seq<Token>, after: seq<Token>)
  {
    before <= after && forall j :: |before| <= j < |after| ==> after[j].line == ln && Anchored(s, after[j])
  }

  /// The shape of the loop state before `s[k]`: outside a string the buffer
  /// holds the characters just before `k`, and a comment has an empty buffer.
  predicate Shaped(s: string, k: nat, cur: Cursor)
  {
    k <= |s| && |cur.word| <= k
    && (cur.comment ==> !cur.isStr && cur.word == "")
    && (!cur.isStr ==> cur.word == s[k - |cur.word|..k])
  }

  /// A word `parse_token` rejects ends just before the separator `s[b]`.
  predicate BadWordBefore(s: string, b: nat)
  {
    b < |s| && (IsSpace(s[b]) || IsSymbol(s[b])) && exists a :: 0 <= a < b && Classify(s[a..b]).None?
  }

  lemma AppendedTrans(s: string, ln: nat, a: seq<Token>, b: seq<Token>, c: seq<Token>)
    requires Appended(s, ln, a, b) && Appended(s, ln, b, c)
    ensures Appended(s, ln, a, c)
  {
    forall j | |a| <= j < |c| ensures c[j].line == ln && Anchored(s, c[j]) {
      if j < |b| {
        assert c[j] == b[j];
      }
    }
  }

  lemma FlushAnchored(s: string, k: nat, ln: nat, cur: Cursor)
    requires k < |s| && Shaped(s, k, cur) && !cur.isStr && !cur.comment
    ensures Flush(cur, ln, k).Some? ==> Appended(s, ln, cur.tokens, Flush(cur, ln, k).value.tokens)
    ensures Flush(cur, ln, k).None? ==> BadWordBefore(s, k) || !(IsSpace(s[k]) || IsSymbol(s[k]))
  {
    if cur.word != "" {
      var a := k - |cur.word|;
      assert s[a..k] == cur.word;
      match Classify(cur.word)
      case None => BadWordAt(s, a, k);
      case Some(lex) =>
        WordAnchored(s, a, k, ln, lex);
        assert Flush(cur, ln, k).value.tokens == cur.tokens + [Token(lex, ln, a + 1)];
    }
  }

  /// A word `parse_token` rejects, followed by `s[k]`.
  lemma BadWordAt(s: string, a: nat, k: nat)
    requires a < k < |s| && Classify(s[a..k]).None?
    ensures BadWordBefore(s, k) || !(IsSpace(s[k]) || IsSymbol(s[k]))
  {
  }

  /// The token of the word `s[a..k]` sits at column `a + 1`.
  lemma WordAnchored(s: string, a: nat, k: nat, ln: nat, lex: Lexeme)
    requires a < k <= |s| && Classify(s[a..k]) == Some(lex)
    ensures Anchored(s, Token(lex, ln, a + 1))
  {
    var w := s[a..k];
    assert Spelled(s, a + 1, w);
    if KeywordOf(w).Some? {
      assert lex == KeywordLex(KeywordOf(w).value);
    } else if IntConstValue(w) != -1 {
      assert lex.IntLex?;
    } else {
      assert lex == IdentifierLex(w);
    }
  }

  /// One character keeps the shape and appends only anchored tokens of its
  /// line; a failure sits after a bad word.
  lemma CharStepAnchored(s: string, k: nat, ln: nat, cur: Cursor)
    requires k < |s| && Shaped(s, k, cur)
    ensures Appended(s, ln, cur.tokens, CharStep(s, k, ln, cur).cur.tokens)
    ensures CharStep(s, k, ln, cur).Go? ==> Shaped(s, k + 1, CharStep(s, k, ln, cur).cur)
    ensures CharStep(s, k, ln, cur).Done? && CharStep(s, k, ln, cur).failed ==> BadWordBefore(s, k)
  {
    var c := s[k];
    if cur.comment {
    } else if cur.isStr {
      StringStepAnchored(s, k, ln, cur);
    } else if IsSpace(c) || IsSymbol(c) {
      SeparatorStepAnchored(s, k, ln, cur);
    } else if c == '"' {
    } else {
      WordStepShaped(s, k, ln, cur);
    }
  }

  lemma StringStepAnchored(s: string, k: nat, ln: nat, cur: Cursor)
    requires k < |s| && Shaped(s, k, cur) && !cur.comment && cur.isStr
    ensures Appended(s, ln, cur.tokens, CharStep(s, k, ln, cur).cur.tokens)
    ensures CharStep(s, k, ln, cur).Go? && Shaped(s, k + 1, CharStep(s, k, ln, cur).cur)
  {
    if s[k] == '"' {
      var t := Token(StringLex(cur.word), ln, k + 1 - |cur.word|);
      assert CharStep(s, k, ln, cur).cur.tokens == cur.tokens + [t];
      assert Anchored(s, t);
    }
  }

  lemma WordStepShaped(s: string, k: nat, ln: nat, cur: Cursor)
    requires k < |s| && Shaped(s, k, cur) && !cur.comment && !cur.isStr
    requires !(IsSpace(s[k]) || IsSymbol(s[k])) && s[k] != '"'
    ensures CharStep(s, k, ln, cur) == Go(cur.(word := cur.word + [s[k]]))
    ensures Shaped(s, k + 1, cur.(word := cur.word + [s[k]]))
  {
    assert s[k + 1 - |cur.word + [s[k]]|..k + 1] == s[k - |cur.word|..k] + [s[k]];
  }

  lemma SeparatorStepAnchored(s: string, k: nat, ln: nat, cur: Cursor)
    requires k < |s| && Shaped(s, k, cur) && !cur.comment && !cur.isStr
    requires IsSpace(s[k]) || IsSymbol(s[k])
    ensures Appended(s, ln, cur.tokens, CharStep(s, k, ln, cur).cur.tokens)
    ensures CharStep(s, k, ln, cur).Go? ==> Shaped(s, k + 1, CharStep(s, k, ln, cur).cur)
    ensures CharStep(s, k, ln, cur).Done? && CharStep(s, k, ln, cur).failed ==> BadWordBefore(s, k)
  {
    FlushAnchored(s, k, ln, cur);
    match Flush(cur, ln, k)
    case None =>
    case Some(flushed) =>
      assert CharStep(s, k, ln, cur) == SymbolStep(s, k, ln, flushed);
      SymbolStepAnchored(s, k, ln, flushed);
      AppendedTrans(s, ln, cur.tokens, flushed.tokens, SymbolStep(s, k, ln, flushed).cur.tokens);
  }

  lemma SymbolStepAnchored(s: string, k: nat, ln: nat, cur: Cursor)
    requires k < |s| && cur.word == "" && !cur.isStr
    ensures Appended(s, ln, cur.tokens, SymbolStep(s, k, ln, cur).cur.tokens)
    ensures SymbolStep(s, k, ln, cur).Go? ==> Shaped(s, k + 1, SymbolStep(s, k, ln, cur).cur)
    ensures SymbolStep(s, k, ln, cur).Done? ==> !SymbolStep(s, k, ln, cur).failed
  {
    if IsSymbol(s[k]) {
      assert Anchored(s, Token(SymbolLex(s[k]), ln, k + 1));
    }
  }

  /// One turn of the character loop, seen from `Scan`: the tokens it
  /// appends are anchored, and the loop either goes on from the next
  /// character or stops with the cursor of this turn.
  lemma ScanStep(s: string, k: nat, ln: nat, cur: Cursor) returns (next: Cursor, go: bool)
    requires k + 1 < |s| && Shaped(s, k, cur)
    ensures Appended(s, ln, cur.tokens, next.tokens)
    ensures go ==> Shaped(s, k + 1, next) && Scan(s, k, ln, cur) == Scan(s, k + 1, ln, next)
    ensures !go ==> Scan(s, k, ln, cur).tokens == next.tokens
    ensures !go && Scan(s, k, ln, cur).failed ==> BadWordBefore(s, k)
  {
    CharStepAnchored(s, k, ln, cur);
    next, go := CharStep(s, k, ln, cur).cur, CharStep(s, k, ln, cur).Go?;
  }

  lemma ScanJoin(s: string, ln: nat, a: seq<Token>, b: seq<Token>, c: seq<Token>, d: seq<Token>)
    requires Appended(s, ln, a, b) && Appended(s, ln, b, c) && c == d
    ensures Appended(s, ln, a, d)
  {
    AppendedTrans(s, ln, a, b, c);
  }

  lemma {:induction false} ScanAnchored(s: string, k: nat, ln: nat, cur: Cursor)
    requires Shaped(s, k, cur)
    ensures Appended(s, ln, cur.tokens, Scan(s, k, ln, cur).tokens)
    decreases |s| - k
  {
    if k + 1 < |s| {
      var next, go := ScanStep(s, k, ln, cur);
      if go {
        ScanAnchored(s, k + 1, ln, next);
        ScanJoin(s, ln, cur.tokens, next.tokens, Scan(s, k + 1, ln, next).tokens, Scan(s, k, ln, cur).tokens);
      }
    } else {
      assert Scan(s, k, ln, cur).tokens == cur.tokens;
    }
  }

  /// A failing line has a rejected word, ending at the returned separator.
  lemma {:induction false} ScanFailure(s: string, k: nat, ln: nat, cur: Cursor) returns (b: nat)
    requires Shaped(s, k, cur)
    ensures Scan(s, k, ln, cur).failed ==> BadWordBefore(s, b)
    decreases |s| - k, 1
  {
    if k + 1 < |s| {
      b := StepFailure(s, k, ln, cur);
    } else {
      b := k;
      assert !Scan(s, k, ln, cur).failed;
    }
  }

  /// `ScanFailure` for a line with characters left after `s[k]`.
  lemma {:induction false} StepFailure(s: string, k: nat, ln: nat, cur: Cursor) returns (b: nat)
    requires k + 1 < |s| && Shaped(s, k, cur)
    ensures Scan(s, k, ln, cur).failed ==> BadWordBefore(s, b)
    decreases |s| - k, 0
  {
    var next, go := ScanStep(s, k, ln, cur);
    if go {
      b := ScanFailure(s, k + 1, ln, next);
      FailureFrom(s, b, Scan(s, k + 1, ln, next).failed, Scan(s, k, ln, cur).failed);
    } else {
      b := k;
    }
  }

  lemma FailureFrom(s: string, b: nat, later: bool, here: bool)
    requires here == later && (later ==> BadWordBefore(s, b))
    ensures here ==> BadWordBefore(s, b)
  {
  }

  /// A line appends to the token list, and every token it adds carries the
  /// line number and the 1-based column of its first character. A line
  /// that fails has a word `parse_token` rejects, right before a space or a
  /// symbol.
  lemma LexLineAnchored(line: string, ln: nat, comment: bool, tokens: seq<Token>)
    ensures Appended(CString(line), ln, tokens, LexLine(line, ln, comment, tokens).tokens)
    ensures LexLine(line, ln, comment, tokens).failed ==>
              exists b :: 0 <= b < |CString(line)| && BadWordBefore(CString(line), b)
  {
    ScanAnchored(CString(line), 0, ln, Cursor(comment, "", false, tokens));
    var b := ScanFailure(CString(line), 0, ln, Cursor(comment, "", false, tokens));
  }

  /// Every token of the file belongs to a line, lines never go backwards,
  /// and each token is anchored in its own line.
  predicate FileAnchored(lines: seq<string>, tokens: seq<Token>, upTo: nat)
  {
    (forall j :: 0 <= j < |tokens| ==>
       1 <= tokens[j].line <= upTo && upTo <= |lines| && Anchored(CString(lines[tokens[j].line - 1]), tokens[j]))
    && (forall i, j :: 0 <= i < j < |tokens| ==> tokens[i].line <= tokens[j].line)
  }

  lemma {:induction false} LexLinesAnchored(lines: seq<string>, i: nat, comment: bool, tokens: seq<Token>)
    requires i <= |lines| && FileAnchored(lines, tokens, i)
    ensures FileAnchored(lines, LexLines(lines, i, comment, tokens).tokens, |lines|)
    decreases |lines| - i
  {
    if i == |lines| {
    } else {
      var e := LexLine(lines[i], i + 1, comment, tokens);
      LexLineAnchored(lines[i], i + 1, comment, tokens);
      FileAnchoredStep(lines, i, tokens, e.tokens);
      if LineErrno(e, tokens) {
        assert LexLines(lines, i, comment, tokens).tokens == e.tokens;
        FileAnchoredWiden(lines, e.tokens, i + 1, |lines|);
      } else {
        assert LexLines(lines, i, comment, tokens) == LexLines(lines, i + 1, e.comment, e.tokens);
        LexLinesAnchored(lines, i + 1, e.comment, e.tokens);
      }
    }
  }

  lemma FileAnchoredStep(lines: seq<string>, i: nat, tokens: seq<Token>, after: seq<Token>)
    requires i < |lines| && FileAnchored(lines, tokens, i) && Appended(CString(lines[i]), i + 1, tokens, after)
    ensures FileAnchored(lines, after, i + 1)
  {
    forall j | 0 <= j < |after|
      ensures 1 <= after[j].line <= i + 1 && Anchored(CString(lines[after[j].line - 1]), after[j])
    {
      if j < |tokens| {
        assert after[j] == tokens[j];
      }
    }
    forall a, b | 0 <= a < b < |after| ensures after[a].line <= after[b].line {
      if b < |tokens| {
        assert after[a] == tokens[a] && after[b] == tokens[b];
      } else if a < |tokens| {
        assert after[a] == tokens[a];
      }
    }
  }

  lemma FileAnchoredWiden(lines: seq<string>, tokens: seq<Token>, a: nat, b: nat)
    requires FileAnchored(lines, tokens, a) && a <= b <= |lines|
    ensures FileAnchored(lines, tokens, b)
  {
  }

  /// `tokenize_file`: the recorded line of a token is the (1-based) line it
  /// comes from, the list is in line order, and the recorded column is the
  /// 1-based position of the token's first character in that line.
  lemma TokenizeAnchored(lines: seq<string>)
    ensures FileAnchored(lines, Tokenize(lines).tokens, |lines|)
  {
    LexLinesAnchored(lines, 0, false, []);
  }

  // --------------------------------------------------------------- comments

  /// A "*/" the loop can see: both characters before the last one of `s`.
  predicate Closer(s: string, k: nat) { k + 1 < |s| && s[k] == '*' && s[k + 1] == '/' }

  lemma {:induction false} ScanComment(s: string, k: nat, ln: nat, cur: Cursor)
    requires k <= |s| && cur.comment && cur.word == ""
    ensures Scan(s, k, ln, cur).tokens == cur.tokens && !Scan(s, k, ln, cur).failed
    ensures Scan(s, k, ln, cur).comment <==> forall p :: k <= p < |s| ==> !Closer(s, p)
    decreases |s| - k
  {
    if k + 1 < |s| {
      if Closer(s, k) {
      } else {
        assert CharStep(s, k, ln, cur) == Go(cur);
        ScanComment(s, k + 1, ln, cur);
      }
    }
  }

  /// A line that starts inside a block comment yields no token; it leaves
  /// the comment exactly when it holds a "*/", and whatever follows the
  /// first "*/" on that line is discarded.
  lemma CommentLine(line: string, ln: nat, tokens: seq<Token>)
    ensures LexLine(line, ln, true, tokens).tokens == tokens
    ensures !LexLine(line, ln, true, tokens).failed
    ensures !LexLine(line, ln, true, tokens).comment <==> exists p :: 0 <= p < |CString(line)| && Closer(CString(line), p)
  {
    var s := CString(line);
    ScanComment(s, 0, ln, Cursor(true, "", false, tokens));
    assert LexLine(line, ln, true, tokens) == Scan(s, 0, ln, Cursor(true, "", false, tokens));
    if exists p :: 0 <= p < |s| && Closer(s, p) {
      var p :| 0 <= p < |s| && Closer(s, p);
      assert !(forall q :: 0 <= q < |s| ==> !Closer(s, q));
      assert !Scan(s, 0, ln, Cursor(true, "", false, tokens)).comment;
      assert !LexLine(line, ln, true, tokens).comment;
      assert exists p :: 0 <= p < |CString(line)| && Closer(CString(line), p);
    } else {
      assert forall q :: 0 <= q < |s| ==> !Closer(s, q);
    }
  }

  // ------------------------------------------------------------ the file

  lemma {:induction false} LexLinesStop(lines: seq<string>, more: seq<string>, i: nat, comment: bool, tokens: seq<Token>)
    requires i <= |lines| && LexLines(lines, i, comment, tokens).errno
    ensures LexLines(lines + more, i, comment, tokens) == LexLines(lines, i, comment, tokens)
    decreases |lines| - i
  {
    assert i < |lines|;
    assert (lines + more)[i] == lines[i];
    var e := LexLine(lines[i], i + 1, comment, tokens);
    if !LineErrno(e, tokens) {
      LexLinesStop(lines, more, i + 1, e.comment, e.tokens);
    }
  }

  /// A line that leaves `errno` set, by a bad word or by an overflowing
  /// identifier, stops the file: the lines after it are never lexed.
  lemma TokenizeStops(lines: seq<string>, more: seq<string>)
    requires Tokenize(lines).errno
    ensures Tokenize(lines + more) == Tokenize(lines)
  {
    LexLinesStop(lines, more, 0, false, []);
  }

  /// An identifier whose digit prefix overflows a `long` makes its line the
  /// last one lexed, even though every word of the line was accepted, and
  /// compilation starts with `errno` set.
  lemma OverflowStops(lines: seq<string>, i: nat, comment: bool, tokens: seq<Token>, j: nat)
    requires i < |lines|
    requires var e := LexLine(lines[i], i + 1, comment, tokens);
      |tokens| <= j < |e.tokens| && e.tokens[j].lex.IdentifierLex? && StrtolOverflows(e.tokens[j].lex.name)
    ensures LexLines(lines, i, comment, tokens) == Lexed(LexLine(lines[i], i + 1, comment, tokens).tokens, true)
  {
    var e := LexLine(lines[i], i + 1, comment, tokens);
    assert RaisesErange(e.tokens, |tokens|);
  }

  // ----------------------------------------------------------- examples

  /// A character that neither ends a word nor opens a string.
  predicate WordChar(c: char) { !(IsSpace(c) || IsSymbol(c)) && c != '"' }

  lemma WordStep(s: string, k: nat, ln: nat, cur: Cursor)
    requires k < |s| && !cur.comment && !cur.isStr && |cur.word| <= k && WordChar(s[k])
    ensures CharStep(s, k, ln, cur) == Go(cur.(word := cur.word + [s[k]]))
  {
  }

  /// Inside a string every character but '"' is collected.
  lemma {:induction false} ScanString(s: string, k: nat, m: nat, ln: nat, cur: Cursor)
    requires k + m < |s| && !cur.comment && cur.isStr && |cur.word| <= k
    requires forall j :: k <= j < k + m ==> s[j] != '"'
    ensures Scan(s, k, ln, cur) == Scan(s, k + m, ln, cur.(word := cur.word + s[k..k + m]))
    decreases m
  {
    if m > 0 {
      var next := cur.(word := cur.word + [s[k]]);
      assert CharStep(s, k, ln, cur) == Go(next);
      assert Scan(s, k, ln, cur) == Scan(s, k + 1, ln, next);
      ScanString(s, k + 1, m - 1, ln, next);
      assert next.word + s[k + 1..k + m] == cur.word + s[k..k + m];
      assert next.(word := next.word + s[k + 1..k + m]) == cur.(word := cur.word + s[k..k + m]);
    } else {
      assert cur.word + s[k..k] == cur.word;
      assert cur.(word := cur.word + s[k..k]) == cur;
    }
  }

  /// The character before the line's last one ends no word: a word still
  /// being collected when the loop stops is dropped ("Main" in
  /// "class Main\n"), like an unterminated string.
  lemma {:induction false} PendingWordDropped(s: string, k: nat, ln: nat, cur: Cursor)
    requires 0 < |s| && k < |s| && !cur.comment && !cur.isStr && |cur.word| <= k
    requires forall j :: k <= j < |s| - 1 ==> WordChar(s[j])
    ensures Scan(s, k, ln, cur) == LineEnd(false, cur.tokens, false)
    decreases |s| - k
  {
    if k + 1 < |s| {
      var next := cur.(word := cur.word + [s[k]]);
      WordStep(s, k, ln, cur);
      assert Scan(s, k, ln, cur) == Scan(s, k + 1, ln, next);
      PendingWordDropped(s, k + 1, ln, next);
    }
  }

  /// "//" outside a string ends the line once the word before it is
  /// flushed; nothing after it becomes a token.
  lemma LineCommentEnds(s: string, k: nat, ln: nat, cur: Cursor)
    requires k + 1 < |s| && s[k] == '/' && s[k + 1] == '/'
    requires !cur.comment && !cur.isStr && |cur.word| <= k && Flush(cur, ln, k).Some?
    ensures Scan(s, k, ln, cur) == LineEnd(false, Flush(cur, ln, k).value.tokens, false)
  {
  }

  /// "/**" opens a block comment; what follows on the line is skipped up to
  /// the first "*/".
  lemma DocCommentOpens(s: string, k: nat, ln: nat, cur: Cursor)
    requires k + 2 < |s| && s[k] == '/' && s[k + 1] == '*' && s[k + 2] == '*'
    requires !cur.comment && !cur.isStr && |cur.word| <= k && Flush(cur, ln, k).Some?
    ensures Scan(s, k, ln, cur) == Scan(s, k + 1, ln, Flush(cur, ln, k).value.(comment := true))
  {
  }

  /// "/*" without a second '*' opens no comment: it is the symbol '/' at
  /// its column and then the symbol '*' at the next.
  lemma BareSlashStar(s: string, k: nat, ln: nat, cur: Cursor)
    requires k + 2 < |s| && s[k] == '/' && s[k + 1] == '*' && s[k + 2] != '*'
    requires !cur.comment && !cur.isStr && |cur.word| <= k && Flush(cur, ln, k).Some?
    ensures Scan(s, k, ln, cur)
         == Scan(s, k + 2, ln, Flush(cur, ln, k).value.(tokens := Flush(cur, ln, k).value.tokens
                                 + [Token(SymbolLex('/'), ln, k + 1), Token(SymbolLex('*'), ln, k + 2)]))
  {
    var f := Flush(cur, ln, k).value;
    var t1 := f.(tokens := f.tokens + [Token(SymbolLex('/'), ln, k + 1)]);
    assert CharStep(s, k, ln, cur) == Go(t1);
    assert Scan(s, k, ln, cur) == Scan(s, k + 1, ln, t1);
    var t2 := t1.(tokens := t1.tokens + [Token(SymbolLex('*'), ln, k + 2)]);
    assert CharStep(s, k + 1, ln, t1) == Go(t2);
    assert Scan(s, k + 1, ln, t1) == Scan(s, k + 2, ln, t2);
    assert t1.tokens + [Token(SymbolLex('*'), ln, k + 2)]
        == f.tokens + [Token(SymbolLex('/'), ln, k + 1), Token(SymbolLex('*'), ln, k + 2)];
  }

  /// The text between a '"' at `k` and the next '"' at `q` is one string
  /// constant, taken as it is. Its column is that of its first character,
  /// and a word pending before the opening quote is not flushed: it becomes
  /// the front of the string, and the column is counted back from the
  /// first character inside the quotes by its length ("abc\"hi\"" is the
  /// string "abchi" at column 2, that of 'b').
  lemma StringConstant(s: string, k: nat, q: nat, ln: nat, cur: Cursor)
    requires k < q && q + 1 < |s| && s[k] == '"' && s[q] == '"'
    requires forall j :: k < j < q ==> s[j] != '"'
    requires !cur.comment && !cur.isStr && |cur.word| <= k
    ensures Scan(s, k, ln, cur)
         == Scan(s, q + 1, ln, Cursor(false, "", false,
                                      cur.tokens + [Token(StringLex(cur.word + s[k + 1..q]), ln, k + 2 - |cur.word|)]))
  {
    var inStr := cur.(isStr := true);
    assert CharStep(s, k, ln, cur) == Go(inStr);
    ScanString(s, k + 1, q - k - 1, ln, inStr);
    var full := inStr.(word := cur.word + s[k + 1..q]);
    assert CharStep(s, q, ln, full)
        == Go(Cursor(false, "", false, cur.tokens + [Token(StringLex(full.word), ln, q + 1 - |full.word|)]));
  }
}
