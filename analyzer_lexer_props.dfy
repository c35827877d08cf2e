/// What the lexer of 10/JackAnalyzer.c does with slashes, block comments,
/// string constants and words, stated over runs of the character loop, and
/// how a bad word stops the file.
module AnalyzerLexerProps {
  import opened CLib
  import opened JackTokens
  import opened AnalyzerLexer

  /// Outside strings, comments and a held-back slash.
  predicate Plain(cur: Cursor) { !cur.comment && !cur.isStr && !cur.slash }

  /// A character that extends a word.
  predicate WordChar(c: char) { !(IsSpace(c) || IsSymbol(c)) && c != '\0' && c != '"' }

  /// A character that ends a word.
  predicate Separator(c: char) { IsSpace(c) || IsSymbol(c) || c == '\0' }

  // ----------------------------------------------------------------- slash

  /// A '/' followed by anything but '/' or '*' is the symbol '/' at its own
  /// column, and the character after it is then lexed as if no slash had
  /// come before it.
  lemma HeldSlash(buf: Buffer, k: nat, ln: nat, cur: Cursor)
    requires k + 1 < LOOP_END && Plain(cur) && |cur.word| <= k && Flush(cur, ln, k).Some?
    requires buf[k] == '/' && buf[k + 1] != '/' && buf[k + 1] != '*'
    ensures var f := Flush(cur, ln, k).value;
            Scan(buf, k, ln, cur) == Scan(buf, k + 1, ln, f.(tokens := f.tokens + [Token(SymbolLex('/'), ln, k + 1)]))
  {
    var f := Flush(cur, ln, k).value;
    var held := f.(slash := true);
    assert Step(buf, k, ln, cur) == Next(held);
    assert Scan(buf, k, ln, cur) == Scan(buf, k + 1, ln, held);
    var out := f.(tokens := f.tokens + [Token(SymbolLex('/'), ln, k + 1)]);
    assert Step(buf, k + 1, ln, held) == Again(out);
  }

  /// "//" drops the rest of the line, and "/*" drops it too and puts the
  /// lexer in comment mode for the lines that follow; the word before the
  /// slash is still flushed.
  lemma SlashComment(buf: Buffer, k: nat, ln: nat, cur: Cursor)
    requires k + 1 < LOOP_END && Plain(cur) && |cur.word| <= k && Flush(cur, ln, k).Some?
    requires buf[k] == '/' && (buf[k + 1] == '/' || buf[k + 1] == '*')
    ensures Scan(buf, k, ln, cur) == LineEnd(buf[k + 1] == '*', Flush(cur, ln, k).value.tokens, false)
  {
    var f := Flush(cur, ln, k).value;
    var held := f.(slash := true);
    assert Step(buf, k, ln, cur) == Next(held);
    assert Scan(buf, k, ln, cur) == Scan(buf, k + 1, ln, held);
    assert !held.comment && held.(comment := false) == held;
    assert Scan(buf, k + 1, ln, held) == Resume(buf, k + 1, ln, true, Step(buf, k + 1, ln, held));
    if buf[k + 1] == '*' {
      assert Step(buf, k + 1, ln, held) == Stop(held.(comment := true), false);
    } else {
      assert Step(buf, k + 1, ln, held) == Stop(held, false);
    }
  }

  // -------------------------------------------------------------- comments

  /// In comment mode blanks are skipped. A line whose first other character
  /// is '*' is dropped whole and leaves the comment open, whatever follows
  /// (a "*/" included); any other character ends the comment and is lexed
  /// from where it stands.
  lemma {:induction false} CommentBlanks(buf: Buffer, k: nat, j: nat, ln: nat, cur: Cursor)
    requires k <= j < LOOP_END && cur.comment && |cur.word| <= k
    requires forall m :: k <= m < j ==> IsSpace(buf[m])
    requires !IsSpace(buf[j])
    ensures buf[j] == '*' ==> Scan(buf, k, ln, cur) == LineEnd(true, cur.tokens, false)
    ensures buf[j] != '*' ==> Scan(buf, k, ln, cur) == Scan(buf, j, ln, cur.(comment := false))
    decreases j - k
  {
    if k < j {
      assert Step(buf, k, ln, cur) == Next(cur);
      assert Scan(buf, k, ln, cur) == Scan(buf, k + 1, ln, cur);
      CommentBlanks(buf, k + 1, j, ln, cur);
    } else if buf[j] != '*' {
      assert Step(buf, j, ln, cur) == Step(buf, j, ln, cur.(comment := false));
    }
  }

  /// A lexer still in comment mode at the start of a line, on a line whose
  /// first non-blank characters are "*/": the comment does not end there
  /// and the line yields nothing.
  lemma CloserIgnored(buf: Buffer, j: nat, ln: nat, tokens: seq<Token>)
    requires j + 1 < LOOP_END && buf[j] == '*' && buf[j + 1] == '/'
    requires forall m :: 0 <= m < j ==> IsSpace(buf[m])
    ensures LexLine(buf, ln, true, tokens) == LineEnd(true, tokens, false)
  {
    CommentBlanks(buf, 0, j, ln, Cursor(true, false, false, "", tokens));
  }

  // --------------------------------------------------------------- strings

  lemma {:induction false} StringRun(buf: Buffer, k: nat, q: nat, ln: nat, cur: Cursor)
    requires k <= q <= LOOP_END && !cur.comment && cur.isStr && |cur.word| <= k
    requires forall m :: k <= m < q ==> buf[m] != '"'
    ensures Scan(buf, k, ln, cur) == Scan(buf, q, ln, cur.(word := cur.word + buf[k..q]))
    decreases q - k
  {
    if k < q {
      var next := cur.(word := cur.word + [buf[k]]);
      assert Step(buf, k, ln, cur) == Next(next);
      assert Scan(buf, k, ln, cur) == Scan(buf, k + 1, ln, next);
      StringRun(buf, k + 1, q, ln, next);
      assert next.word + buf[k + 1..q] == cur.word + buf[k..q];
    } else {
      assert cur.word + buf[k..q] == cur.word;
      assert cur.(word := cur.word + buf[k..q]) == cur;
    }
  }

  /// The text between a '"' at `k` and the next '"' at `q` is one string
  /// constant, with no escapes, taken up to its first NUL (the text may run
  /// past the line's terminator into what the buffer still holds). A word
  /// pending before the opening quote is not flushed but becomes the front
  /// of the string; without one, and without NUL, the constant is the text
  /// itself at the column of its first character.
  lemma StringConstant(buf: Buffer, k: nat, q: nat, ln: nat, cur: Cursor)
    requires k < q < LOOP_END && Plain(cur) && |cur.word| <= k && buf[k] == '"' && buf[q] == '"'
    requires forall m :: k < m < q ==> buf[m] != '"'
    ensures var text := CString(cur.word + buf[k + 1..q]);
              Scan(buf, k, ln, cur)
              == Scan(buf, q + 1, ln, Cursor(false, false, false, "", cur.tokens + [Token(StringLex(text), ln, q + 1 - |text|)]))
    ensures cur.word == "" && '\0' !in buf[k + 1..q] ==> CString(cur.word + buf[k + 1..q]) == buf[k + 1..q]
  {
    var open := cur.(isStr := true);
    assert Step(buf, k, ln, cur) == Next(open);
    StringRun(buf, k + 1, q, ln, open);
    var full := open.(word := cur.word + buf[k + 1..q]);
    var text := CString(full.word);
    assert Step(buf, q, ln, full)
        == Next(Cursor(false, false, false, "", cur.tokens + [Token(StringLex(text), ln, q + 1 - |text|)]));
    if cur.word == "" && '\0' !in buf[k + 1..q] {
      assert cur.word + buf[k + 1..q] == buf[k + 1..q];
      CStringWhole(buf[k + 1..q]);
    }
  }

  /// A string with no closing quote before the loop's last pass is dropped,
  /// and so is everything after its opening quote.
  lemma UnclosedString(buf: Buffer, k: nat, ln: nat, cur: Cursor)
    requires k < LOOP_END && Plain(cur) && |cur.word| <= k && buf[k] == '"'
    requires forall m :: k < m < LOOP_END ==> buf[m] != '"'
    ensures Scan(buf, k, ln, cur) == LineEnd(false, cur.tokens, false)
  {
    var open := cur.(isStr := true);
    assert Step(buf, k, ln, cur) == Next(open);
    StringRun(buf, k + 1, LOOP_END, ln, open);
  }

  // ----------------------------------------------------------------- words

  lemma {:induction false} WordRun(buf: Buffer, k: nat, j: nat, ln: nat, cur: Cursor)
    requires k <= j <= LOOP_END && Plain(cur) && |cur.word| <= k
    requires forall m :: k <= m < j ==> WordChar(buf[m])
    ensures Scan(buf, k, ln, cur) == Scan(buf, j, ln, cur.(word := cur.word + buf[k..j]))
    decreases j - k
  {
    if k < j {
      var next := cur.(word := cur.word + [buf[k]]);
      assert Step(buf, k, ln, cur) == Next(next);
      assert Scan(buf, k, ln, cur) == Scan(buf, k + 1, ln, next);
      WordRun(buf, k + 1, j, ln, next);
      assert next.word + buf[k + 1..j] == cur.word + buf[k..j];
    } else {
      assert cur.word + buf[k..j] == cur.word;
      assert cur.(word := cur.word + buf[k..j]) == cur;
    }
  }

  /// A word ended by a separator is classified as a whole and recorded at
  /// the column of its first character; the separator is then handled
  /// (a symbol other than '/' becomes a token of its own). A word the
  /// classifier rejects stops the file with the tokens before it.
  lemma WordToken(buf: Buffer, a: nat, j: nat, ln: nat, cur: Cursor)
    requires a < j < LOOP_END && Plain(cur) && cur.word == ""
    requires forall m :: a <= m < j ==> WordChar(buf[m])
    requires Separator(buf[j])
    ensures Classify(buf[a..j]).None? ==> Scan(buf, a, ln, cur) == LineEnd(false, cur.tokens, true)
    ensures Classify(buf[a..j]).Some? ==>
              (Scan(buf, a, ln, cur)
               == Resume(buf, j, ln, false,
                         Separate(buf[j], j, ln, cur.(tokens := cur.tokens + [Token(Classify(buf[a..j]).value, ln, a + 1)]))))
  {
    WordRun(buf, a, j, ln, cur);
    assert cur.word + buf[a..j] == buf[a..j];
    var w := cur.(word := buf[a..j]);
    assert Scan(buf, a, ln, cur) == Resume(buf, j, ln, false, Step(buf, j, ln, w));
  }

  // -------------------------------------------------------------- the file

  lemma {:induction false} LexLinesStop(lines: seq<Chunk>, more: seq<Chunk>, i: nat, buf: Buffer, comment: bool,
                                        tokens: seq<Token>)
    requires i <= |lines| && LexLines(lines, i, buf, comment, tokens).errno
    ensures LexLines(lines + more, i, buf, comment, tokens) == LexLines(lines, i, buf, comment, tokens)
    decreases |lines| - i
  {
    assert i < |lines|;
    assert (lines + more)[i] == lines[i];
    var next := Refill(buf, lines[i]);
    var e := LexLine(next, i + 1, comment, tokens);
    if !LineErrno(e, tokens) {
      LexLinesStop(lines, more, i + 1, next, e.comment, e.tokens);
    }
  }

  /// A line that leaves `errno` set, by a bad word or by an overflowing
  /// identifier, stops the file: the lines after it are never read.
  lemma TokenizeStops(lines: seq<Chunk>, more: seq<Chunk>, junk: Buffer)
    requires Tokenize(lines, junk).errno
    ensures Tokenize(lines + more, junk) == Tokenize(lines, junk)
  {
    LexLinesStop(lines, more, 0, junk, false, []);
  }

  /// An identifier whose digit prefix overflows a `long` makes its line the
  /// last one read, even though every word of the line was accepted, and
  /// parsing starts with `errno` set.
  lemma OverflowStops(lines: seq<Chunk>, i: nat, buf: Buffer, comment: bool, tokens: seq<Token>, j: nat)
    requires i < |lines|
    requires var e := LexLine(Refill(buf, lines[i]), i + 1, comment, tokens);
      |tokens| <= j < |e.tokens| && e.tokens[j].lex.IdentifierLex? && StrtolOverflows(e.tokens[j].lex.name)
    ensures LexLines(lines, i, buf, comment, tokens)
         == Lexed(LexLine(Refill(buf, lines[i]), i + 1, comment, tokens).tokens, true)
  {
    var e := LexLine(Refill(buf, lines[i]), i + 1, comment, tokens);
    assert RaisesErange(e.tokens, |tokens|);
  }
}
