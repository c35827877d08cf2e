/// The line lexer of src/compiler.c (`tokenize_file`). Each line is the text
/// one `fgets` call returns, newline included. The character loop runs for
/// `i` from 1 while `i < strlen(line)`, so it looks at every character but
/// the last one of the line; `c + 1` and `c + 2` may read the terminator.
module JackLexer {
  import opened CLib
  import opened JackTokens

  /// The state of the character loop: the block-comment flag (carried from
  /// line to line), the `token` buffer, the `isStr` flag (reset for every
  /// line) and the token list.
  datatype Cursor = Cursor(comment: bool, word: string, isStr: bool, tokens: seq<Token>)

  /// Whether the loop goes on after a character or leaves the line; `failed`
  /// is the bad word that sets `errno`.
  datatype CharResult = Go(cur: Cursor) | Done(cur: Cursor, failed: bool)

  /// The end of a line: the comment flag for the next line, the token list
  /// and whether a bad word stopped the file.
  datatype LineEnd = LineEnd(comment: bool, tokens: seq<Token>, failed: bool)

  /// `parse_token` on a pending word that ends before `s[k]`: its column is
  /// `i - strlen(token)` with `i = k + 1`. `None` is the bad token.
  function Flush(cur: Cursor, ln: nat, k: nat): (r: Option<Cursor>)
    requires |cur.word| <= k
    ensures r.Some? ==> r.value.word == "" && r.value.comment == cur.comment && r.value.isStr == cur.isStr
    ensures r.Some? && cur.word == "" ==> r.value == cur
    ensures r.None? <==> cur.word != "" && Classify(cur.word).None?
  {
    if cur.word == "" then Some(cur)
    else
      match Classify(cur.word)
      case None => None
      case Some(lex) => Some(cur.(word := "", tokens := cur.tokens + [Token(lex, ln, k + 1 - |cur.word|)]))
  }

  /// The symbol part of a separator `s[k]`, once the pending word has been
  /// flushed: "/**" opens a comment, "//" ends the line, any other symbol is
  /// a token at column `k + 1`, and a newline ends the line.
  function SymbolStep(s: string, k: nat, ln: nat, cur: Cursor): CharResult
    requires k < |s|
  {
    var c := s[k];
    if c == '/' && CharAt(s, k + 1) == '*' && CharAt(s, k + 2) == '*' then Go(cur.(comment := true))
    else if c == '/' && CharAt(s, k + 1) == '/' then Done(cur, false)
    else
      var next := if IsSymbol(c) then cur.(tokens := cur.tokens + [Token(SymbolLex(c), ln, k + 1)]) else cur;
      if c == '\n' then Done(next, false) else Go(next)
  }

  /// One pass of the character loop on `s[k]`, the character at `i = k + 1`.
  function CharStep(s: string, k: nat, ln: nat, cur: Cursor): (r: CharResult)
    requires k < |s| && |cur.word| <= k
    ensures r.Go? ==> |r.cur.word| <= k + 1
  {
    var c := s[k];
    if cur.comment then
      if c == '*' && CharAt(s, k + 1) == '/' then Done(cur.(comment := false), false) else Go(cur)
    else if cur.isStr then
      if c == '"' then
        Go(cur.(tokens := cur.tokens + [Token(StringLex(cur.word), ln, k + 1 - |cur.word|)], word := "", isStr := false))
      else Go(cur.(word := cur.word + [c]))
    else if IsSpace(c) || IsSymbol(c) then
      match Flush(cur, ln, k)
      case None => Done(cur, true)
      case Some(flushed) => SymbolStep(s, k, ln, flushed)
    else if c == '"' then Go(cur.(isStr := true))
    else Go(cur.(word := cur.word + [c]))
  }

  /// The character loop from `s[k]` on. The last character is never
  /// looked at, and a word or string still pending there is dropped.
  function Scan(s: string, k: nat, ln: nat, cur: Cursor): LineEnd
    requires k <= |s| && |cur.word| <= k
    decreases |s| - k, 1
  {
    if k + 1 >= |s| then LineEnd(cur.comment, cur.tokens, false)
    else Resume(s, k, ln, CharStep(s, k, ln, cur))
  }

  /// The loop after its pass on `s[k]`: it goes on from `s[k + 1]` or
  /// stops with the line's outcome.
  function Resume(s: string, k: nat, ln: nat, step: CharResult): LineEnd
    requires k + 1 < |s| && (step.Go? ==> |step.cur.word| <= k + 1)
    decreases |s| - k, 0
  {
    match step
    case Go(next) => Scan(s, k + 1, ln, next)
    case Done(next, failed) => LineEnd(next.comment, next.tokens, failed)
  }

  /// One line: the loop sees the line up to its terminator.
  function LexLine(line: string, ln: nat, comment: bool, tokens: seq<Token>): LineEnd
  {
    Scan(CString(line), 0, ln, Cursor(comment, "", false, tokens))
  }

  /// The token list and whether `errno` is set when the line loop ends.
  datatype Lexed = Lexed(tokens: seq<Token>, errno: bool)

  /// Whether `errno` is set after a line that began with `tokens` and ended
  /// in `e`: a bad word set `PARSING_ERROR`, or an identifier of the line
  /// overflowed `atoi` and set `ERANGE`.
  predicate LineErrno(e: LineEnd, tokens: seq<Token>)
  {
    e.failed || RaisesErange(e.tokens, |tokens|)
  }

  /// The line loop from `lines[i]` on; line numbers count from 1, and a line
  /// that leaves `errno` set is the last one read.
  function LexLines(lines: seq<string>, i: nat, comment: bool, tokens: seq<Token>): Lexed
    requires i <= |lines|
    decreases |lines| - i
  {
    if i == |lines| then Lexed(tokens, false)
    else
      var e := LexLine(lines[i], i + 1, comment, tokens);
      if LineErrno(e, tokens) then Lexed(e.tokens, true) else LexLines(lines, i + 1, e.comment, e.tokens)
  }

  /// `tokenize_file`.
  function Tokenize(lines: seq<string>): Lexed
  {
    LexLines(lines, 0, false, [])
  }

  /// The body of the character loop of `tokenize_file` on `s[k]`, with
  /// the `token` buffer and the flags as local variables.
  method LexChar(s: string, k: nat, ln: nat, cur: Cursor) returns (r: CharResult)
    requires k < |s| && |cur.word| <= k && '\0' !in s && '\0' !in cur.word
    ensures r == CharStep(s, k, ln, cur)
    ensures r.Go? ==> '\0' !in r.cur.word
  {
    var inComment, word, isStr, toks := cur.comment, cur.word, cur.isStr, cur.tokens;
    var c := s[k];
    if inComment {
      if c == '*' && CharAt(s, k + 1) == '/' {
        return Done(Cursor(false, word, isStr, toks), false);
      }
    } else if isStr {
      if c == '"' {
        toks := toks + [Token(StringLex(word), ln, k + 1 - |word|)];
        word, isStr := "", false;
      } else {
        word := word + [c];
      }
    } else if IsSpace(c) || IsSymbol(c) {
      if word != "" {
        var lex := ClassifyWord(word);
        if lex.None? {
          return Done(cur, true);
        }
        toks := toks + [Token(lex.value, ln, k + 1 - |word|)];
        word := "";
      }
      if c == '/' && CharAt(s, k + 1) == '*' && CharAt(s, k + 2) == '*' {
        inComment := true;
      } else if c == '/' && CharAt(s, k + 1) == '/' {
        return Done(Cursor(inComment, word, isStr, toks), false);
      } else {
        if IsSymbol(c) {
          toks := toks + [Token(SymbolLex(c), ln, k + 1)];
        }
        if c == '\n' {
          return Done(Cursor(inComment, word, isStr, toks), false);
        }
      }
    } else if c == '"' {
      isStr := true;
    } else {
      word := word + [c];
    }
    r := Go(Cursor(inComment, word, isStr, toks));
  }

  /// The body of the line loop of `tokenize_file`: the character loop over
  /// the line up to its terminator.
  method TokenizeLine(line: string, ln: nat, comment: bool, tokens: seq<Token>) returns (e: LineEnd)
    ensures e == LexLine(line, ln, comment, tokens)
  {
    var s := CString(line);
    var cur := Cursor(comment, "", false, tokens);
    var k := 0;
    while k + 1 < |s|
      invariant k <= |s| && |cur.word| <= k && '\0' !in cur.word
      invariant Scan(s, k, ln, cur) == LexLine(line, ln, comment, tokens)
    {
      var r := LexChar(s, k, ln, cur);
      if r.Done? {
        return LineEnd(r.cur.comment, r.cur.tokens, r.failed);
      }
      cur := r.cur;
      k := k + 1;
    }
    e := LineEnd(cur.comment, cur.tokens, false);
  }

  /// `tokenize_file` over the lines `fgets` returns.
  method TokenizeFile(lines: seq<string>) returns (tokens: seq<Token>, errno: bool)
    ensures Lexed(tokens, errno) == Tokenize(lines)
  {
    var comment := false;
    tokens, errno := [], false;
    var i := 0;
    while i < |lines| && !errno
      invariant i <= |lines|
      invariant !errno ==> LexLines(lines, i, comment, tokens) == Tokenize(lines)
      invariant errno ==> Lexed(tokens, true) == Tokenize(lines)
    {
      var e := TokenizeLine(lines[i], i + 1, comment, tokens);
      errno := LineErrno(e, tokens);
      comment, tokens := e.comment, e.tokens;
      i := i + 1;
    }
  }
}
