/// The line lexer of 10/JackAnalyzer.c (`tokenize_file`). It classifies
/// words like the compiler's lexer (`Classify`), but has its own slash and
/// comment machine: a '/' is held back until the next character shows
/// whether it starts a comment, and a block comment is left by the first
/// line that does not start with '*', never by "*/".
///
/// The character loop runs for `i` from 1 while `i < 256` over the 256-char
/// buffer `line` that `fgets` fills. The buffer is declared outside the
/// line loop and never cleared, so past the terminator it still holds the
/// bytes of longer earlier lines (and, before the first line, whatever the
/// stack held); only an unterminated string reads that far.
module AnalyzerLexer {
  import opened CLib
  import opened JackTokens

  /// `MAX_LINE_LENGTH`, the size of the `line` buffer.
  const MAX_LINE_LENGTH: nat := 256

  /// The number of passes of the character loop (`i` from 1 to 255).
  const LOOP_END: nat := MAX_LINE_LENGTH - 1

  /// The `line` buffer.
  type Buffer = s: seq<char> | |s| == MAX_LINE_LENGTH witness seq(MAX_LINE_LENGTH, _ => '\0')

  /// What one `fgets(line, 256, file)` returns: at most 255 characters.
  type Chunk = s: string | |s| < MAX_LINE_LENGTH

  /// The buffer after `fgets` stored `line` and its terminator over `buf`.
  function Refill(buf: Buffer, line: Chunk): (r: Buffer)
    ensures r[..|line|] == line && r[|line|] == '\0'
    ensures forall j :: |line| < j < MAX_LINE_LENGTH ==> r[j] == buf[j]
  {
    line + ['\0'] + buf[|line| + 1..]
  }

  /// The state of the character loop: `isMultComment` (carried from line to
  /// line), `isSlash` and `isStr` (reset for every line), the `token`
  /// buffer and the token list.
  datatype Cursor = Cursor(comment: bool, slash: bool, isStr: bool, word: string, tokens: seq<Token>)

  /// How a pass of the loop ends: on to the next character, back to the
  /// same one (the `*--c`, `--i` after a '/' that starts no comment), or
  /// out of the line; `failed` is the bad word that sets `errno`.
  datatype Move = Next(cur: Cursor) | Again(cur: Cursor) | Stop(cur: Cursor, failed: bool)

  /// The end of a line: the comment flag for the next line, the token list
  /// and whether a bad word stopped the file.
  datatype LineEnd = LineEnd(comment: bool, tokens: seq<Token>, failed: bool)

  /// `parse_token` on a pending word that ends before `buf[k]`, at column
  /// `i - strlen(token)` with `i = k + 1`. Outside a string the buffer
  /// holds no NUL, so `*token` tests that it is not empty. `None` is the bad
  /// token.
  function Flush(cur: Cursor, ln: nat, k: nat): (r: Option<Cursor>)
    requires |cur.word| <= k
    ensures r.Some? ==> r.value == cur.(word := "", tokens := r.value.tokens) && cur.tokens <= r.value.tokens
    ensures r.Some? && cur.word == "" ==> r.value == cur
    ensures r.None? <==> cur.word != "" && Classify(cur.word).None?
  {
    if cur.word == "" then Some(cur)
    else
      match Classify(cur.word)
      case None => None
      case Some(lex) => Some(cur.(word := "", tokens := cur.tokens + [Token(lex, ln, k + 1 - |cur.word|)]))
  }

  /// A separator `c` once the word before it is flushed: a '/' is held
  /// back, any other symbol is a token at column `k + 1`, and NUL or a
  /// newline ends the line.
  function Separate(c: char, k: nat, ln: nat, cur: Cursor): (r: Move)
    ensures r.Next? || r.Stop?
    ensures r.cur.word == cur.word && r.cur.comment == cur.comment && r.cur.isStr == cur.isStr
    ensures r.cur.slash == (cur.slash || c == '/')
    ensures r.Stop? ==> !r.failed
  {
    var next :=
      if c == '/' then cur.(slash := true)
      else if IsSymbol(c) then cur.(tokens := cur.tokens + [Token(SymbolLex(c), ln, k + 1)])
      else cur;
    if c == '\0' || c == '\n' then Stop(next, false) else Next(next)
  }

  /// The pass on `buf[k]` once comment mode is decided: string, held-back
  /// slash, separator, opening quote or word character.
  function Body(buf: Buffer, k: nat, ln: nat, cur: Cursor): (r: Move)
    requires k < LOOP_END && |cur.word| <= k
    ensures r.Next? ==> |r.cur.word| <= k + 1
    ensures r.Again? ==> cur.slash && !r.cur.slash && |r.cur.word| <= k
  {
    var c := buf[k];
    if cur.isStr then
      if c == '"' then
        var text := CString(cur.word);
        Next(cur.(tokens := cur.tokens + [Token(StringLex(text), ln, k + 1 - |text|)], word := "", isStr := false))
      else Next(cur.(word := cur.word + [c]))
    else if cur.slash then
      if c == '/' then Stop(cur, false)
      else if c == '*' then Stop(cur.(comment := true), false)
      else Again(cur.(tokens := cur.tokens + [Token(SymbolLex('/'), ln, k)], slash := false))
    else if IsSpace(c) || IsSymbol(c) || c == '\0' then Separator(c, k, ln, cur)
    else if c == '"' then Next(cur.(isStr := true))
    else Next(cur.(word := cur.word + [c]))
  }

  /// A separator `c` outside a string: the pending word is flushed, and a
  /// bad one stops the file.
  function Separator(c: char, k: nat, ln: nat, cur: Cursor): (r: Move)
    requires |cur.word| <= k
    ensures r.Next? ==> r.cur.word == ""
    ensures !r.Again?
    ensures r.Stop? && r.failed <==> cur.word != "" && Classify(cur.word).None?
  {
    match Flush(cur, ln, k)
    case None => Stop(cur, true)
    case Some(flushed) => Separate(c, k, ln, flushed)
  }

  /// One pass of the character loop on `buf[k]`, the character at
  /// `i = k + 1`. In comment mode blanks are skipped, a '*' skips the rest
  /// of the line, and anything else ends the comment and is lexed.
  function Step(buf: Buffer, k: nat, ln: nat, cur: Cursor): (r: Move)
    requires k < LOOP_END && |cur.word| <= k
    ensures r.Next? ==> |r.cur.word| <= k + 1
    ensures r.Again? ==> cur.slash && !r.cur.slash && |r.cur.word| <= k
  {
    var c := buf[k];
    if cur.comment && IsSpace(c) then Next(cur)
    else if cur.comment && c == '*' then Stop(cur, false)
    else Body(buf, k, ln, cur.(comment := false))
  }

  /// The character loop from `buf[k]` on. A word, a string or a slash
  /// still pending after the last pass is dropped.
  function Scan(buf: Buffer, k: nat, ln: nat, cur: Cursor): LineEnd
    requires k <= LOOP_END && |cur.word| <= k
    decreases LOOP_END - k, if cur.slash then 1 else 0, 1
  {
    if k == LOOP_END then LineEnd(cur.comment, cur.tokens, false)
    else Resume(buf, k, ln, cur.slash, Step(buf, k, ln, cur))
  }

  /// The loop after its pass on `buf[k]`.
  function Resume(buf: Buffer, k: nat, ln: nat, slash: bool, m: Move): LineEnd
    requires k < LOOP_END
    requires m.Next? ==> |m.cur.word| <= k + 1
    requires m.Again? ==> slash && !m.cur.slash && |m.cur.word| <= k
    decreases LOOP_END - k, if slash then 1 else 0, 0
  {
    match m
    case Next(next) => Scan(buf, k + 1, ln, next)
    case Again(next) => Scan(buf, k, ln, next)
    case Stop(next, failed) => LineEnd(next.comment, next.tokens, failed)
  }

  /// One line, lexed from the buffer `fgets` has just filled.
  function LexLine(buf: Buffer, ln: nat, comment: bool, tokens: seq<Token>): LineEnd
  {
    Scan(buf, 0, ln, Cursor(comment, false, false, "", tokens))
  }

  /// The token list and whether `errno` is set when the line loop ends.
  datatype Lexed = Lexed(tokens: seq<Token>, errno: bool)

  /// Whether `errno` is set after a line that began with `tokens` and ended
  /// in `e`: a bad word set `PARSING_ERROR`, or an identifier of the line
  /// overflowed `atoi` and set `ERANGE`.
  predicate LineErrno(e: LineEnd, tokens: seq<Token>)
  {
    e.failed || RaisesErange(e.tokens, |tokens|)
  }

  /// The line loop from `lines[i]` on, with the buffer as the previous
  /// `fgets` left it; line numbers count from 1, and a line that leaves
  /// `errno` set is the last one read.
  function LexLines(lines: seq<Chunk>, i: nat, buf: Buffer, comment: bool, tokens: seq<Token>): Lexed
    requires i <= |lines|
    decreases |lines| - i
  {
    if i == |lines| then Lexed(tokens, false)
    else
      var next := Refill(buf, lines[i]);
      var e := LexLine(next, i + 1, comment, tokens);
      if LineErrno(e, tokens) then Lexed(e.tokens, true) else LexLines(lines, i + 1, next, e.comment, e.tokens)
  }

  /// `tokenize_file` over the chunks `fgets` returns, starting from the
  /// buffer's initial contents `junk`.
  function Tokenize(lines: seq<Chunk>, junk: Buffer): Lexed
  {
    LexLines(lines, 0, junk, false, [])
  }

  /// The body of the character loop of `tokenize_file` on `buf[k]`, with
  /// the flags and the `token` buffer as local variables.
  method LexChar(buf: Buffer, k: nat, ln: nat, cur: Cursor) returns (r: Move)
    requires k < LOOP_END && |cur.word| <= k && (!cur.isStr ==> '\0' !in cur.word)
    ensures r == Step(buf, k, ln, cur)
    ensures !r.cur.isStr ==> '\0' !in r.cur.word
  {
    var c := buf[k];
    if cur.comment {
      if IsSpace(c) {
        return Next(cur);
      }
      if c == '*' {
        return Stop(cur, false);
      }
    }
    r := LexBody(buf, k, ln, cur.(comment := false));
  }

  /// The rest of the pass, once comment mode is left or was not on.
  method LexBody(buf: Buffer, k: nat, ln: nat, cur: Cursor) returns (r: Move)
    requires k < LOOP_END && |cur.word| <= k && (!cur.isStr ==> '\0' !in cur.word)
    ensures r == Body(buf, k, ln, cur)
    ensures !r.cur.isStr ==> '\0' !in r.cur.word
  {
    var inComment, isSlash, isStr, token, toks := cur.comment, cur.slash, cur.isStr, cur.word, cur.tokens;
    var c := buf[k];
    if isStr {
      if c == '"' {
        var text := CString(token);
        toks := toks + [Token(StringLex(text), ln, k + 1 - |text|)];
        token, isStr := "", false;
      } else {
        token := token + [c];
      }
    } else if isSlash {
      if c == '/' {
        return Stop(Cursor(inComment, isSlash, isStr, token, toks), false);
      } else if c == '*' {
        return Stop(Cursor(true, isSlash, isStr, token, toks), false);
      }
      toks := toks + [Token(SymbolLex('/'), ln, k)];
      return Again(Cursor(inComment, false, isStr, token, toks));
    } else if IsSpace(c) || IsSymbol(c) || c == '\0' {
      r := LexSeparator(c, k, ln, cur);
      return;
    } else if c == '"' {
      isStr := true;
    } else {
      token := token + [c];
    }
    r := Next(Cursor(inComment, isSlash, isStr, token, toks));
  }

  /// The separator branch of the character loop: `parse_token` on the
  /// pending word, then the separator itself.
  method LexSeparator(c: char, k: nat, ln: nat, cur: Cursor) returns (r: Move)
    requires k < LOOP_END && |cur.word| <= k && '\0' !in cur.word
    ensures r == Separator(c, k, ln, cur)
    ensures !r.cur.isStr ==> '\0' !in r.cur.word
  {
    var inComment, isSlash, isStr, token, toks := cur.comment, cur.slash, cur.isStr, cur.word, cur.tokens;
    if token != "" {
      var lex := ClassifyWord(token);
      if lex.None? {
        return Stop(Cursor(inComment, isSlash, isStr, token, toks), true);
      }
      toks := toks + [Token(lex.value, ln, k + 1 - |token|)];
      token := "";
    }
    if c == '/' {
      isSlash := true;
    } else if IsSymbol(c) {
      toks := toks + [Token(SymbolLex(c), ln, k + 1)];
    }
    if c == '\0' || c == '\n' {
      return Stop(Cursor(inComment, isSlash, isStr, token, toks), false);
    }
    r := Next(Cursor(inComment, isSlash, isStr, token, toks));
  }

  /// The body of the line loop of `tokenize_file`: the character loop over
  /// the buffer, going back to the same character after a held-back '/'.
  method TokenizeLine(buf: Buffer, ln: nat, comment: bool, tokens: seq<Token>) returns (e: LineEnd)
    ensures e == LexLine(buf, ln, comment, tokens)
  {
    var cur := Cursor(comment, false, false, "", tokens);
    var k := 0;
    while k < LOOP_END
      invariant k <= LOOP_END && |cur.word| <= k && (!cur.isStr ==> '\0' !in cur.word)
      invariant Scan(buf, k, ln, cur) == LexLine(buf, ln, comment, tokens)
      decreases LOOP_END - k, if cur.slash then 1 else 0
    {
      var m := LexChar(buf, k, ln, cur);
      match m
      case Stop(next, failed) =>
        return LineEnd(next.comment, next.tokens, failed);
      case Next(next) =>
        cur, k := next, k + 1;
      case Again(next) =>
        cur := next;
    }
    e := LineEnd(cur.comment, cur.tokens, false);
  }

  /// `tokenize_file` over the chunks `fgets` returns: each one is stored
  /// over the previous contents of the buffer before it is lexed.
  method TokenizeFile(lines: seq<Chunk>, junk: Buffer) returns (tokens: seq<Token>, errno: bool)
    ensures Lexed(tokens, errno) == Tokenize(lines, junk)
  {
    var buf, comment := junk, false;
    tokens, errno := [], false;
    var i := 0;
    while i < |lines| && !errno
      invariant i <= |lines|
      invariant !errno ==> LexLines(lines, i, buf, comment, tokens) == Tokenize(lines, junk)
      invariant errno ==> Lexed(tokens, true) == Tokenize(lines, junk)
    {
      buf := Refill(buf, lines[i]);
      var e := TokenizeLine(buf, i + 1, comment, tokens);
      errno := LineErrno(e, tokens);
      comment, tokens := e.comment, e.tokens;
      i := i + 1;
    }
  }
}
