/// The word splitting that `parse_file` does in 8/VMTranslator.c and in
/// src/VMTranslator.c (the two loops are the same): the first three words of
/// a line become the command and its two arguments.
module VmWords {
  import opened CLib

  /// A word is cut after this many characters (`MAX_SYMBOL_LENGTH * 2 - 1`).
  const WORD_LIMIT: nat := 63
  /// `command` keeps at most this many characters of the first word.
  const COMMAND_LENGTH: nat := 15
  /// `arg2` keeps at most this many characters of the third word.
  const ARG2_LENGTH: nat := 7

  /// A character that ends a word: white space or '/'.
  predicate EndsWord(c: char) { IsSpace(c) || c == '/' }

  /// The words read from a line, and whether the scan wrote a "\n" over the
  /// line's terminator (`strcpy(c, "\n\0")`), which happens when the first
  /// or the second word runs up to the end of the line.
  datatype Split = Split(words: seq<string>, appended: bool)

  /// The scan of `t[p..]`, with `cur` the part of the current word read so
  /// far and `done` the words already stored.
  function Scan(t: string, p: nat, cur: string, done: seq<string>): Split
    requires p <= |t|
    decreases |t| - p
  {
    if p == |t| || EndsWord(t[p]) || |cur| == WORD_LIMIT then
      if cur != [] then
        var done' := done + [cur];
        if |done'| == 3 then Split(done', false)
        else if p == |t| then Split(done', true)
        else if t[p] == '/' then Split(done', false)
        else Scan(t, p + 1, [], done')
      else if p == |t| || t[p] == '/' then Split(done, false)
      else Scan(t, p + 1, [], done)
    else Scan(t, p + 1, cur + [t[p]], done)
  }

  /// The first `n` characters of `s` (`strncpy` into a buffer of `n + 1`).
  function Take(s: string, n: nat): (r: string)
    ensures r <= s && |r| == if |s| <= n then |s| else n
  {
    if |s| <= n then s else s[..n]
  }

  /// `command`, `arg1` and `arg2` of a line.
  datatype Words = Words(command: string, arg1: string, arg2: string)

  function Fields(done: seq<string>): Words
  {
    Words(if |done| > 0 then Take(done[0], COMMAND_LENGTH) else "",
          if |done| > 1 then done[1] else "",
          if |done| > 2 then Take(done[2], ARG2_LENGTH) else "")
  }

  /// The words of a line as `parse_file` splits it.
  function SplitLine(line: string): Words
  {
    Fields(Scan(CString(line), 0, [], []).words)
  }

  /// The text the line buffer holds after the split.
  function LineAfter(line: string): string
  {
    CString(line) + if Scan(CString(line), 0, [], []).appended then "\n" else ""
  }

  /// The character loop of `parse_file`, on the text `fgets` read.
  method SplitWords(line: string) returns (words: Words, after: string)
    ensures words == SplitLine(line) && after == LineAfter(line)
  {
    var t := CString(line);
    ghost var expected := Scan(t, 0, [], []);
    var command, arg1, arg2 := "", "", "";
    var token := "";
    ghost var done: seq<string> := [];
    var p := 0;
    var stop := false;
    var appended := false;
    while !stop
      invariant p <= |t|
      invariant Fields(done) == Words(command, arg1, arg2)
      invariant forall k :: 0 <= k < |done| ==> done[k] != []
      invariant !stop ==> |done| < 3 && !appended && Scan(t, p, token, done) == expected
      invariant stop ==> expected == Split(done, appended)
      decreases |t| - p, if stop then 0 else 1
    {
      var c := if p < |t| then t[p] else '\0';
      if IsSpace(c) || c == '/' || c == '\0' || |token| == WORD_LIMIT {
        if token != [] {
          done := done + [token];
          if command == [] {
            command := Take(token, COMMAND_LENGTH);
          } else if arg1 == [] {
            arg1 := token;
          } else {
            arg2 := Take(token, ARG2_LENGTH);
            stop := true;
          }
          token := [];
          if !stop && c == '\0' {
            appended := true;
          }
        }
        if !stop && (c == '/' || c == '\0') {
          stop := true;
        }
      } else {
        token := token + [c];
      }
      if !stop {
        p := p + 1;
      }
    }
    words := Words(command, arg1, arg2);
    after := t + if appended then "\n" else "";
  }

  // ------------------------------------------------------------ properties

  /// Every word the scan stores is non-empty, at most 63 characters long and
  /// free of white space and '/', and there are at most three.
  lemma {:induction false} ScanWords(t: string, p: nat, cur: string, done: seq<string>)
    requires p <= |t| && |done| < 3 && |cur| <= WORD_LIMIT
    requires forall k :: 0 <= k < |cur| ==> !EndsWord(cur[k])
    requires forall w :: w in done ==> GoodWord(w)
    ensures var ws := Scan(t, p, cur, done).words;
      |done| <= |ws| <= 3 && ws[..|done|] == done && forall w :: w in ws ==> GoodWord(w)
    decreases |t| - p
  {
    var ws := Scan(t, p, cur, done).words;
    if p == |t| || EndsWord(t[p]) || |cur| == WORD_LIMIT {
      if cur != [] {
        var done' := done + [cur];
        assert forall w :: w in done' ==> w in done || w == cur;
        assert done'[..|done|] == done;
        if |done'| < 3 && p < |t| && t[p] != '/' {
          ScanWords(t, p + 1, [], done');
          assert ws == Scan(t, p + 1, [], done').words;
          assert ws[..|done'|] == done';
          assert ws[..|done|] == ws[..|done'|][..|done|];
        } else {
          assert ws == done';
        }
      } else if p < |t| && t[p] != '/' {
        ScanWords(t, p + 1, [], done);
      } else {
        assert ws == done;
      }
    } else {
      ScanWords(t, p + 1, cur + [t[p]], done);
    }
  }

  predicate GoodWord(w: string)
  {
    w != [] && |w| <= WORD_LIMIT && forall k :: 0 <= k < |w| ==> !EndsWord(w[k])
  }

  /// Reading the characters of a word.
  lemma {:induction false} ReadWord(t: string, p: nat, k: nat, done: seq<string>)
    requires p + k <= |t| && k <= WORD_LIMIT
    requires forall j :: p <= j < p + k ==> !EndsWord(t[j])
    ensures Scan(t, p, [], done) == Scan(t, p + k, t[p..p + k], done)
  {
    if k > 0 {
      ReadWord(t, p, k - 1, done);
      assert t[p..p + k - 1] + [t[p + k - 1]] == t[p..p + k];
    }
  }

  /// Skipping white space between words.
  lemma {:induction false} SkipBlanks(t: string, p: nat, k: nat, done: seq<string>)
    requires p + k <= |t| && forall j :: p <= j < p + k ==> IsSpace(t[j])
    ensures Scan(t, p, [], done) == Scan(t, p + k, [], done)
    decreases k
  {
    if k > 0 {
      SkipBlanks(t, p + 1, k - 1, done);
    }
  }

  /// A line "w1 w2 w3..." that separates its first three words by single
  /// blanks yields exactly those words, with the first cut to 15 characters
  /// and the third to 7.
  lemma ThreeWords(w1: string, w2: string, w3: string, rest: string)
    requires GoodWord(w1) && GoodWord(w2) && GoodWord(w3)
    requires '\0' !in w1 + " " + w2 + " " + w3 + rest
    requires rest == [] || EndsWord(rest[0])
    ensures SplitLine(w1 + " " + w2 + " " + w3 + rest) == Words(Take(w1, COMMAND_LENGTH), w2, Take(w3, ARG2_LENGTH))
  {
    var t := w1 + " " + w2 + " " + w3 + rest;
    CStringWhole(t);
    ThreeWordsFacts(w1, w2, w3, rest);
    ThreeWordsAt(t, |w1|, |w1| + 1 + |w2|, |w1| + 1 + |w2| + 1 + |w3|);
  }

  lemma ThreeWordsAt(t: string, a: nat, b: nat, c: nat)
    requires 0 < a && a + 1 < b && b + 1 < c <= |t| && a <= WORD_LIMIT && b - a <= WORD_LIMIT + 1 && c - b <= WORD_LIMIT + 1
    requires t[a] == ' ' && t[b] == ' ' && (c < |t| ==> EndsWord(t[c]))
    requires forall j :: 0 <= j < a ==> !EndsWord(t[j])
    requires forall j :: a + 1 <= j < b ==> !EndsWord(t[j])
    requires forall j :: b + 1 <= j < c ==> !EndsWord(t[j])
    ensures Fields(Scan(t, 0, [], []).words) == Words(Take(t[..a], COMMAND_LENGTH), t[a + 1..b], Take(t[b + 1..c], ARG2_LENGTH))
  {
    var w1, w2, w3 := t[..a], t[a + 1..b], t[b + 1..c];
    assert t[0..a] == w1;
    WordThenBlank(t, 0, a, [], [w1]);
    WordThenBlank(t, a + 1, b, [w1], [w1, w2]);
    LastWord(t, b + 1, c, [w1, w2], [w1, w2, w3]);
  }

  lemma ThreeWordsFacts(w1: string, w2: string, w3: string, rest: string)
    requires GoodWord(w1) && GoodWord(w2) && GoodWord(w3)
    requires rest == [] || EndsWord(rest[0])
    ensures var t := w1 + " " + w2 + " " + w3 + rest;
      var a, b, c := |w1|, |w1| + 1 + |w2|, |w1| + 1 + |w2| + 1 + |w3|;
      c <= |t| && t[..a] == w1 && t[a] == ' ' && t[a + 1..b] == w2 && t[b] == ' ' && t[b + 1..c] == w3
      && (c < |t| ==> EndsWord(t[c]))
      && (forall j :: 0 <= j < a ==> !EndsWord(t[j]))
      && (forall j :: a + 1 <= j < b ==> !EndsWord(t[j]))
      && (forall j :: b + 1 <= j < c ==> !EndsWord(t[j]))
  {
    var t := w1 + " " + w2 + " " + w3 + rest;
    var a, b, c := |w1|, |w1| + 1 + |w2|, |w1| + 1 + |w2| + 1 + |w3|;
    if c < |t| { assert t[c] == rest[0]; }
    assert forall j :: 0 <= j < a ==> t[j] == w1[j];
    assert forall j :: a + 1 <= j < b ==> t[j] == w2[j - a - 1];
    assert forall j :: b + 1 <= j < c ==> t[j] == w3[j - b - 1];
  }

  /// A word of `t[p..q]` ended by a blank is stored, and the scan goes on
  /// after the blank.
  lemma WordThenBlank(t: string, p: nat, q: nat, done: seq<string>, done': seq<string>)
    requires p < q < |t| && q - p <= WORD_LIMIT && IsSpace(t[q]) && |done| < 2
    requires forall j :: p <= j < q ==> !EndsWord(t[j])
    requires done' == done + [t[p..q]]
    ensures Scan(t, p, [], done) == Scan(t, q + 1, [], done')
  {
    ReadWord(t, p, q - p, done);
  }

  /// The third word, ended by white space, '/' or the end of the line, ends
  /// the scan.
  lemma LastWord(t: string, p: nat, q: nat, done: seq<string>, done': seq<string>)
    requires p < q <= |t| && q - p <= WORD_LIMIT && (q < |t| ==> EndsWord(t[q])) && |done| == 2
    requires forall j :: p <= j < q ==> !EndsWord(t[j])
    requires done' == done + [t[p..q]]
    ensures Scan(t, p, [], done) == Split(done', false)
  {
    ReadWord(t, p, q - p, done);
  }

  /// A word longer than 63 characters is cut after 63, and its 64th
  /// character is dropped: the scan goes on after it as at a word boundary.
  lemma LongWord(t: string, p: nat, done: seq<string>)
    requires p + WORD_LIMIT < |t| && |done| < 2
    requires forall j :: p <= j <= p + WORD_LIMIT ==> !EndsWord(t[j])
    ensures Scan(t, p, [], done) == Scan(t, p + WORD_LIMIT + 1, [], done + [t[p..p + WORD_LIMIT]])
  {
    ReadWord(t, p, WORD_LIMIT, done);
  }

  /// Whatever follows a '/' is never read.
  lemma {:induction false} CommentCut(a: string, b: string, p: nat, cur: string, done: seq<string>)
    requires p <= |a|
    ensures Scan(a + "/" + b, p, cur, done).words == Scan(a, p, cur, done).words
    decreases |a| - p
  {
    var t := a + "/" + b;
    assert t[..|a|] == a && t[|a|] == '/';
    if p < |a| {
      assert t[p] == a[p];
      if EndsWord(a[p]) || |cur| == WORD_LIMIT {
        if a[p] != '/' {
          if cur != [] {
            var done' := done + [cur];
            if |done'| != 3 {
              CommentCut(a, b, p + 1, [], done');
              assert Scan(t, p, cur, done) == Scan(t, p + 1, [], done');
              assert Scan(a, p, cur, done) == Scan(a, p + 1, [], done');
            } else {
              assert Scan(t, p, cur, done) == Split(done', false) == Scan(a, p, cur, done);
            }
          } else {
            CommentCut(a, b, p + 1, [], done);
          }
        }
      } else {
        CommentCut(a, b, p + 1, cur + [a[p]], done);
      }
    }
  }

  /// A line of blanks, or of blanks and then a comment, has no command, so
  /// `parse_file` skips it.
  lemma BlankLine(spaces: string, rest: string)
    requires forall j :: 0 <= j < |spaces| ==> IsSpace(spaces[j])
    requires rest == [] || rest[0] == '/'
    ensures SplitLine(spaces + rest).command == ""
  {
    var t := spaces + rest;
    assert forall j :: 0 <= j < |spaces| ==> t[j] == spaces[j];
    assert '\0' !in spaces by { assert forall j :: 0 <= j < |spaces| ==> spaces[j] != '\0'; }
    CStringPrefix(spaces, rest);
    var u := CString(t);
    assert forall j :: 0 <= j < |spaces| ==> u[j] == spaces[j];
    SkipBlanks(u, 0, |spaces|, []);
  }
}
