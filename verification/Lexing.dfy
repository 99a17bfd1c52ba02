/** The tokens of written text: whatever separates them, and whatever strings and
    comments hold, the lexer gives back the tokens that were written. */
module Lexing {
  import opened Common
  import opened Lexer
  import opened Declarations

  /** A stretch of program text. A comment runs to the end of its line, to its
      closing mark, or to the end of the text. */
  datatype Chunk =
    | Space(c: char)
    | Line(text: string)
    | Block(text: string)
    | Final(text: string)
    | Ident(text: string)
    | Quote(text: string)
    | Sign(c: char)
  {
    function Spelled(): string {
      match this
      case Space(c) => [c]
      case Line(text) => "//" + text + "\n"
      case Block(text) => "/*" + text + "*/"
      case Final(text) => "//" + text
      case Ident(text) => text
      case Quote(text) => "\"" + text + "\""
      case Sign(c) => [c]
    }

    function Tokens(): seq<string> {
      if Ident? || Quote? || Sign? then [Spelled()] else []
    }

    ghost predicate Fine() {
      match this
      case Space(c) => c == ' ' || 9 <= c as int <= 13
      case Line(text) => '\n' !in text
      case Block(text) => Uninterrupted(text)
      case Final(text) => '\n' !in text
      case Ident(text) => text != "" && text[0] != '.' && forall i :: 0 <= i < |text| ==> Wordly(text[i])
      case Quote(text) => Escaped(text)
      case Sign(c) => (c == '.' || !Wordly(c)) && c != '"' && c != ' ' && !(9 <= c as int <= 13)
    }

    /** Nothing is read across the two. */
    predicate Apart(next: Chunk) {
      && !Final?
      && (Ident? ==> !next.Ident? && next != Sign('.'))
      && (this == Sign('/') ==> !next.Line? && !next.Block? && !next.Final? && next != Sign('/') && next != Sign('*'))
    }
  }

  predicate Wordly(c: char) {
    'a' <= c <= 'z' || 'A' <= c <= 'Z' || '0' <= c <= '9' || c == '_' || c == '.'
  }

  /** No closing mark before the one that follows the text. */
  ghost predicate Uninterrupted(text: string) {
    forall i :: 0 <= i < |text| ==> !(text[i] == '*' && (text + "*")[i + 1] == '/')
  }

  /** A quote is hidden by a backslash, as any character can be. */
  predicate Escaped(text: string)
    decreases |text|
  {
    text == ""
    || (text[0] == '\\' && |text| >= 2 && Escaped(text[2..]))
    || (text[0] != '\\' && text[0] != '"' && Escaped(text[1..]))
  }

  function Written(chunks: seq<Chunk>): string {
    if chunks == [] then "" else chunks[0].Spelled() + Written(chunks[1..])
  }

  function TokensOf(chunks: seq<Chunk>): seq<string> {
    if chunks == [] then [] else chunks[0].Tokens() + TokensOf(chunks[1..])
  }

  ghost predicate WellWritten(chunks: seq<Chunk>) {
    && (forall i :: 0 <= i < |chunks| ==> chunks[i].Fine())
    && forall i :: 0 < i < |chunks| ==> chunks[i - 1].Apart(chunks[i])
  }

  // ----- one chunk in front of a text

  /** What follows a chunk leaves it alone. */
  predicate Ends(chunk: Chunk, rest: string) {
    && (chunk.Final? ==> rest == "")
    && (chunk.Ident? && rest != "" ==> !Wordly(rest[0]))
    && (chunk == Sign('/') && rest != "" ==> rest[0] != '/' && rest[0] != '*')
  }

  lemma {:induction false} LineEndIs(s: string, i: nat, end: nat)
    requires i <= end <= |s| && (end < |s| ==> s[end] == '\n')
    requires forall k :: i <= k < end ==> s[k] != '\n'
    ensures LineEnd(s, i) == end
    decreases end - i
  {
    if i < end {
      LineEndIs(s, i + 1, end);
    }
  }

  lemma {:induction false} CommentEndIs(s: string, i: nat, end: nat)
    requires i <= end && end + 2 <= |s| && s[end] == '*' && s[end + 1] == '/'
    requires forall k :: i <= k < end ==> !(s[k] == '*' && s[k + 1] == '/')
    ensures CommentEnd(s, i) == Some(end + 2)
    decreases end - i
  {
    if i < end {
      CommentEndIs(s, i + 1, end);
    }
  }

  lemma {:induction false} StringEndIs(s: string, i: nat, text: string)
    requires i + |text| < |s| && s[i..i + |text|] == text && s[i + |text|] == '"' && Escaped(text)
    ensures StringEnd(s, i) == Some(i + |text| + 1)
    decreases |text|
  {
    if text != "" {
      assert text[0] == s[i];
      var n := if text[0] == '\\' then 2 else 1;
      assert s[i + n..i + n + |text[n..]|] == s[i..i + |text|][n..];
      StringEndIs(s, i + n, text[n..]);
    }
  }

  /** The lexeme that a chunk is. */
  function Lexed(chunk: Chunk): Lexeme {
    var n := |chunk.Spelled()|;
    if chunk.Line? then Skip(n - 1) else if chunk.Tokens() == [] then Skip(n) else Text(n)
  }

  lemma FirstOfChunk(chunk: Chunk, rest: string)
    requires chunk.Fine() && Ends(chunk, rest)
    ensures chunk.Spelled() + rest != ""
    ensures First(chunk.Spelled() + rest) == Lexed(chunk)
  {
    match chunk
    case Line(text) =>
      FirstOfLine(text, "\n" + rest);
      assert chunk.Spelled() + rest == "//" + text + ("\n" + rest);
    case Final(text) =>
      FirstOfLine(text, "");
      assert chunk.Spelled() + rest == "//" + text + "";
    case Block(text) => FirstOfBlock(text, rest);
    case Quote(text) => FirstOfQuote(text, rest);
    case Ident(text) => FirstOfIdent(text, rest);
    case Space(c) =>
    case Sign(c) =>
      assert rest != "" ==> ([c] + rest)[1] == rest[0];
  }

  lemma FirstOfLine(text: string, rest: string)
    requires '\n' !in text && (rest != "" ==> rest[0] == '\n')
    ensures First("//" + text + rest) == Skip(|text| + 2)
  {
    var s := "//" + text + rest;
    assert s[..2] == "//" && forall k :: 2 <= k < |text| + 2 ==> s[k] == text[k - 2];
    assert rest != "" ==> s[|text| + 2] == rest[0];
    LineEndIs(s, 2, |text| + 2);
  }

  lemma FirstOfBlock(text: string, rest: string)
    requires Uninterrupted(text)
    ensures First("/*" + text + "*/" + rest) == Skip(|text| + 4)
  {
    var s := "/*" + text + "*/" + rest;
    assert s[0] == '/' && s[1] == '*' && s[..2] == "/*" && !("//" <= s);
    assert s[|text| + 2] == '*' && s[|text| + 3] == '/';
    forall k | 2 <= k < |text| + 2 ensures !(s[k] == '*' && s[k + 1] == '/') {
      var i := k - 2;
      assert s[k] == text[i] && s[k + 1] == (text + "*")[i + 1];
    }
    CommentEndIs(s, 2, |text| + 2);
  }

  lemma FirstOfQuote(text: string, rest: string)
    requires Escaped(text)
    ensures First("\"" + text + "\"" + rest) == Text(|text| + 2)
  {
    var s := "\"" + text + "\"" + rest;
    hide Escaped;
    assert s[0] == '"' && s[1 + |text|] == '"' && s[1..1 + |text|] == text;
    StringEndIs(s, 1, text);
  }

  lemma FirstOfIdent(text: string, rest: string)
    requires Ident(text).Fine() && (rest != "" ==> !Wordly(rest[0]))
    ensures First(text + rest) == Text(|text|)
  {
    var s := text + rest;
    assert s[0] == text[0] && (rest != "" ==> s[|text|] == rest[0]);
    assert forall k :: 0 <= k < |text| ==> s[k] == text[k];
    WordEndIs(s, 1, |text|);
  }

  lemma WordsOfChunk(chunk: Chunk, rest: string)
    requires chunk.Fine() && Ends(chunk, rest)
    ensures Words(chunk.Spelled() + rest) == Joined(chunk.Tokens(), Words(rest))
  {
    FirstOfChunk(chunk, rest);
    var text := chunk.Spelled();
    if chunk.Line? {
      WordsOfLine(chunk.text, rest);
    } else {
      assert (text + rest)[|text|..] == rest && (text + rest)[..|text|] == text;
      hide First, Words;
      WordsUnfold(text + rest);
    }
  }

  lemma WordsOfLine(text: string, rest: string)
    requires '\n' !in text
    ensures Words("//" + text + "\n" + rest) == Joined([], Words(rest))
  {
    FirstOfLine(text, "\n" + rest);
    var s, n := "//" + text + ("\n" + rest), |text| + 2;
    assert s == "//" + text + "\n" + rest;
    assert s[n..] == "\n" + rest && ("\n" + rest)[1..] == rest;
    assert First("\n" + rest) == Skip(1);
    JoinedJoined([], [], Words(rest));
    hide First, Words;
    WordsUnfold(s);
    WordsUnfold("\n" + rest);
  }

  // ----- whole texts

  lemma ChunkEnds(chunk: Chunk, next: Chunk, rest: string)
    requires next.Fine() && chunk.Apart(next)
    ensures Ends(chunk, next.Spelled() + rest)
  {
    var s := next.Spelled() + rest;
    assert next.Spelled() != "" && s[0] == next.Spelled()[0];
  }

  /** Written chunks give their tokens, whatever follows them apart. */
  lemma {:induction false} WordsInFront(chunks: seq<Chunk>, rest: string)
    requires WellWritten(chunks) && (chunks != [] ==> Ends(chunks[|chunks| - 1], rest))
    ensures Words(Written(chunks) + rest) == Joined(TokensOf(chunks), Words(rest))
  {
    hide Words, First, Chunk.Fine, Chunk.Spelled, Chunk.Tokens, Ends;
    if chunks == [] {
      assert Written(chunks) + rest == rest;
      JoinedJoined([], [], Words(rest));
    } else {
      var later := chunks[1..];
      LaterWritten(chunks);
      WordsInFront(later, rest);
      if later != [] {
        assert Written(later) + rest == later[0].Spelled() + (Written(later[1..]) + rest);
        ChunkEnds(chunks[0], later[0], Written(later[1..]) + rest);
      } else {
        assert Written(later) + rest == rest;
      }
      assert Written(chunks) + rest == chunks[0].Spelled() + (Written(later) + rest);
      WordsOfChunk(chunks[0], Written(later) + rest);
      JoinedJoined(chunks[0].Tokens(), TokensOf(later), Words(rest));
    }
  }

  lemma LaterWritten(chunks: seq<Chunk>)
    requires WellWritten(chunks) && chunks != []
    ensures WellWritten(chunks[1..]) && chunks[0].Fine()
    ensures |chunks| > 1 ==> chunks[1].Fine() && chunks[0].Apart(chunks[1])
  {
    hide Chunk.Fine, Chunk.Apart;
    assert forall i :: 0 <= i < |chunks[1..]| ==> chunks[1..][i] == chunks[i + 1];
  }

  /** The tokens of written text are those that were written. */
  lemma WordsOfWritten(chunks: seq<Chunk>)
    requires WellWritten(chunks)
    ensures Words(Written(chunks)) == Some(TokensOf(chunks))
  {
    if chunks != [] {
      LastEnds(chunks[|chunks| - 1]);
    }
    WordsOfEmpty();
    hide Words, Ends, WellWritten, TokensOf, Written;
    WordsInFront(chunks, "");
    assert Written(chunks) + "" == Written(chunks);
    assert TokensOf(chunks) + [] == TokensOf(chunks);
  }

  lemma LastEnds(chunk: Chunk)
    ensures Ends(chunk, "")
  {
  }

  lemma WordsOfEmpty()
    ensures Words("") == Some([])
  {
  }

  // ----- what is never closed

  /** Text that opens a comment or a string and does not close it. */
  ghost predicate Unclosed(text: string) {
    || (|text| >= 2 && text[..2] == "/*" && forall k :: 2 <= k < |text| - 1 ==> text[k] != '*' || text[k + 1] != '/')
    || (text != "" && text[0] == '"' && Escapes(text[1..]))
  }

  /** The same as Escaped, or with a backslash left over. */
  predicate Escapes(text: string) {
    Escaped(text) || (text != "" && Escaped(text[..|text| - 1]) && text[|text| - 1] == '\\')
  }

  lemma {:induction false} NoCommentEnd(s: string, i: nat)
    requires i <= |s| && forall k :: i <= k < |s| - 1 ==> s[k] != '*' || s[k + 1] != '/'
    ensures CommentEnd(s, i) == None
    decreases |s| - i
  {
    if i + 1 < |s| {
      NoCommentEnd(s, i + 1);
    }
  }

  lemma {:induction false} NoStringEnd(s: string, i: nat, text: string)
    requires i <= |s| && s[i..] == text && Escapes(text)
    ensures StringEnd(s, i) == None
    decreases |text|
  {
    if text != "" {
      assert text[0] == s[i];
      var n := if text[0] == '\\' then 2 else 1;
      if n <= |text| {
        assert s[i + n..] == text[n..];
        EscapesLater(text, n);
        NoStringEnd(s, i + n, text[n..]);
      } else {
        assert StringEnd(s, i + 2) == None;
      }
    }
  }

  lemma EscapesLater(text: string, n: nat)
    requires text != "" && Escapes(text) && n == (if text[0] == '\\' then 2 else 1) <= |text|
    ensures text[0] != '"' && Escapes(text[n..])
  {
    if !Escaped(text) {
      var front := text[..|text| - 1];
      if |text| > n {
        assert front[0] == text[0] && front[n..] == text[n..][..|text[n..]| - 1];
      } else if n == 2 {
        assert false;
      }
    }
  }

  /** Text that opens a comment or a string and does not close it has no tokens. */
  lemma WordsOfUnclosed(chunks: seq<Chunk>, rest: string)
    requires WellWritten(chunks) && (chunks != [] ==> Ends(chunks[|chunks| - 1], rest)) && Unclosed(rest)
    ensures Words(Written(chunks) + rest) == None
  {
    FirstOfUnclosed(rest);
    assert Words(rest) == None;
    hide Words, First, Ends, WellWritten, Unclosed;
    WordsInFront(chunks, rest);
  }

  lemma FirstOfUnclosed(rest: string)
    requires Unclosed(rest)
    ensures rest != "" && First(rest) == Unterminated
  {
    if rest[0] == '"' {
      NoStringEnd(rest, 1, rest[1..]);
    } else {
      assert rest[0] == rest[..2][0] == '/' && rest[1] == rest[..2][1] == '*' && !("//" <= rest);
      NoCommentEnd(rest, 2);
    }
  }
}
