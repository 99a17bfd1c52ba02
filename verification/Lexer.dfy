/** The OpenQASM lexer of src/Program.cpp: white space and comments separate
    tokens; a token is a quoted string, a word or a single character. */
module Lexer {
  import opened Common

  /** A token and the offset in the source at which its text starts. */
  datatype Token = Token(text: string, start: nat)

  function Texts(tokens: seq<Token>): (texts: seq<string>)
    ensures |texts| == |tokens|
  {
    seq(|tokens|, i requires 0 <= i < |tokens| => tokens[i].text)
  }

  // ----- character classes (the "C" locale)

  predicate IsSpace(c: char) {
    c == ' ' || '\t' <= c <= '\r'
  }

  predicate IsDigit(c: char) {
    '0' <= c <= '9'
  }

  predicate IsAlpha(c: char) {
    'a' <= c <= 'z' || 'A' <= c <= 'Z'
  }

  predicate StartsWord(c: char) {
    IsAlpha(c) || IsDigit(c) || c == '_'
  }

  predicate InWord(c: char) {
    StartsWord(c) || c == '.'
  }

  // ----- the first lexeme of a nonempty text

  /** The next stretch of text: skipped, a token, or unterminated. */
  datatype Lexeme = Skip(length: nat) | Text(length: nat) | Unterminated

  function LineEnd(s: string, i: nat): (end: nat)
    requires i <= |s|
    ensures i <= end <= |s|
    ensures end < |s| ==> s[end] == '\n'
    ensures forall k :: i <= k < end ==> s[k] != '\n'
    decreases |s| - i
  {
    if i == |s| || s[i] == '\n' then i else LineEnd(s, i + 1)
  }

  function CommentEnd(s: string, i: nat): (end: Option<nat>)
    requires i <= |s|
    ensures end.Some? ==> i + 2 <= end.value <= |s|
    decreases |s| - i
  {
    if i + 1 >= |s| then None
    else if s[i] == '*' && s[i + 1] == '/' then Some(i + 2)
    else CommentEnd(s, i + 1)
  }

  /** A backslash hides the character after it. */
  function StringEnd(s: string, i: nat): (end: Option<nat>)
    ensures end.Some? ==> i < end.value <= |s|
    decreases |s| - i
  {
    if i >= |s| then None
    else if s[i] == '"' then Some(i + 1)
    else StringEnd(s, if s[i] == '\\' then i + 2 else i + 1)
  }

  function WordEnd(s: string, i: nat): (end: nat)
    requires i <= |s|
    ensures i <= end <= |s|
    ensures end < |s| ==> !InWord(s[end])
    ensures forall k :: i <= k < end ==> InWord(s[k])
    decreases |s| - i
  {
    if i == |s| || !InWord(s[i]) then i else WordEnd(s, i + 1)
  }

  function First(s: string): (l: Lexeme)
    requires s != ""
    ensures !l.Unterminated? ==> 1 <= l.length <= |s|
  {
    if IsSpace(s[0]) then Skip(1)
    else if "//" <= s then Skip(LineEnd(s, 2))
    else if "/*" <= s then
      match CommentEnd(s, 2)
      case None => Unterminated
      case Some(end) => Skip(end)
    else if s[0] == '"' then
      match StringEnd(s, 1)
      case None => Unterminated
      case Some(end) => Text(end)
    else if StartsWord(s[0]) then Text(WordEnd(s, 1))
    else Text(1)
  }

  // ----- the whole text

  function Prepend(tokens: seq<Token>, rest: Option<seq<Token>>): Option<seq<Token>> {
    match rest
    case None => None
    case Some(more) => Some(tokens + more)
  }

  /** The tokens of a text whose first character has offset `at`; None when a
      string or a block comment is not closed. */
  function Lex(s: string, at: nat): (tokens: Option<seq<Token>>)
    decreases |s|
  {
    if s == "" then Some([])
    else
      match First(s)
      case Unterminated => None
      case Skip(n) => Lex(s[n..], at + n)
      case Text(n) => Prepend([Token(s[..n], at)], Lex(s[n..], at + n))
  }

  /** Token texts do not depend on where the text starts. */
  function Words(s: string): Option<seq<string>> {
    match Lex(s, 0)
    case None => None
    case Some(tokens) => Some(Texts(tokens))
  }

  /** Scans the lexeme that starts at `start`. */
  method Scan(source: string, start: nat) returns (lexeme: Lexeme)
    requires start < |source|
    ensures lexeme == First(source[start..])
  {
    ghost var rest := source[start..];
    var character := source[start];
    var index := start + 1;
    if IsSpace(character) {
      return Skip(1);
    }
    if index < |source| && character == '/' && source[index] == '/' {
      index := index + 1;
      while index < |source| && source[index] != '\n'
        invariant start + 2 <= index <= |source|
        invariant LineEnd(rest, 2) == LineEnd(rest, index - start)
      {
        index := index + 1;
      }
      return Skip(index - start);
    }
    if index < |source| && character == '/' && source[index] == '*' {
      index := index + 1;
      while index + 1 < |source| && !(source[index] == '*' && source[index + 1] == '/')
        invariant start + 2 <= index <= |source|
        invariant CommentEnd(rest, 2) == CommentEnd(rest, index - start)
      {
        index := index + 1;
      }
      return if index + 1 < |source| then Skip(index + 2 - start) else Unterminated;
    }
    if character == '"' {
      while index < |source| && source[index] != '"'
        invariant start + 1 <= index <= |source| + 1
        invariant StringEnd(rest, 1) == StringEnd(rest, index - start)
      {
        if source[index] == '\\' {
          index := index + 1;
        }
        index := index + 1;
      }
      return if index < |source| then Text(index + 1 - start) else Unterminated;
    }
    if StartsWord(character) {
      while index < |source| && InWord(source[index])
        invariant start + 1 <= index <= |source|
        invariant WordEnd(rest, 1) == WordEnd(rest, index - start)
      {
        index := index + 1;
      }
    }
    return Text(index - start);
  }

  /** Fails exactly on an unclosed string or block comment, and otherwise
      returns the tokens with their offsets. */
  method Tokenize(source: string) returns (r: Result<seq<Token>>)
    ensures r == match Lex(source, 0)
                 case None => Err(InvalidArgument)
                 case Some(tokens) => Ok(tokens)
  {
    hide *;
    var tokens: seq<Token> := [];
    var index := 0;
    ghost var whole := Lex(source, 0);
    assert source[0..] == source;
    PrependNothing(Lex(source, 0));
    while index < |source|
      invariant 0 <= index <= |source|
      invariant whole == Prepend(tokens, Lex(source[index..], index))
    {
      var lexeme := Scan(source, index);
      match lexeme {
        case Unterminated =>
          LexUnterminated(tokens, source[index..], index);
          return Err(InvalidArgument);
        case Skip(length) =>
          Advance(source, index, index + length, tokens, tokens);
          index := index + length;
        case Text(length) =>
          var token := Token(source[index..index + length], index);
          Advance(source, index, index + length, tokens, tokens + [token]);
          tokens := tokens + [token];
          index := index + length;
      }
    }
    LexNothing(tokens, source[index..], index);
    return Ok(tokens);
  }

  lemma LexNothing(tokens: seq<Token>, s: string, at: nat)
    requires s == ""
    ensures Lex(s, at) == Some([])
    ensures Prepend(tokens, Lex(s, at)) == Some(tokens)
  {
    assert tokens + [] == tokens;
  }

  lemma LexUnterminated(tokens: seq<Token>, s: string, at: nat)
    requires s != "" && First(s).Unterminated?
    ensures Prepend(tokens, Lex(s, at)) == None
  {
  }

  /** One turn of the lexer's loop: consuming the first lexeme of what is left. */
  lemma Advance(source: string, start: nat, index: nat, before: seq<Token>, tokens: seq<Token>)
    requires start < index <= |source|
    requires
      || (First(source[start..]) == Skip(index - start) && tokens == before)
      || (First(source[start..]) == Text(index - start) && tokens == before + [Token(source[start..index], start)])
    ensures Prepend(before, Lex(source[start..], start)) == Prepend(tokens, Lex(source[index..], index))
  {
    hide *;
    var rest, n := source[start..], index - start;
    assert source[index..] == rest[n..];
    assert source[start..index] == rest[..n];
    LexUnfold(rest, start);
    var head := if tokens == before then [] else [Token(rest[..n], start)];
    assert tokens == before + head;
    HeadIs(rest, start, head);
    PrependPrepend(before, head, Lex(rest[n..], index));
  }

  lemma HeadIs(s: string, at: nat, head: seq<Token>)
    requires s != "" && !First(s).Unterminated?
    requires head == if First(s).Text? then [Token(s[..First(s).length], at)] else []
    ensures Head(s, at) == head
  {
  }

  /** The token, if any, of the first lexeme. */
  function Head(s: string, at: nat): seq<Token>
    requires s != "" && !First(s).Unterminated?
  {
    if First(s).Text? then [Token(s[..First(s).length], at)] else []
  }

  /** The defining equation of Lex on a text that starts with a good lexeme. */
  lemma LexUnfold(s: string, at: nat)
    requires s != "" && !First(s).Unterminated?
    ensures var n := First(s).length;
      Lex(s, at) == Prepend(Head(s, at), Lex(s[n..], at + n))
  {
    PrependNothing(Lex(s[First(s).length..], at + First(s).length));
  }

  lemma PrependNothing(rest: Option<seq<Token>>)
    ensures Prepend([], rest) == rest
  {
    if rest.Some? {
      assert [] + rest.value == rest.value;
    }
  }

  lemma PrependPrepend(a: seq<Token>, b: seq<Token>, rest: Option<seq<Token>>)
    ensures Prepend(a, Prepend(b, rest)) == Prepend(a + b, rest)
  {
    if rest.Some? {
      assert a + (b + rest.value) == a + b + rest.value;
    }
  }

  // ----- what the tokens are

  ghost predicate IsPiece(token: Token, s: string, at: nat) {
    && token.text != ""
    && at <= token.start
    && token.start + |token.text| <= at + |s|
    && token.text == s[token.start - at..token.start - at + |token.text|]
  }

  ghost predicate Pieces(tokens: seq<Token>, s: string, at: nat) {
    && (forall i :: 0 <= i < |tokens| ==> IsPiece(tokens[i], s, at))
    && (forall i, j :: 0 <= i < j < |tokens| ==> tokens[i].start + |tokens[i].text| <= tokens[j].start)
  }

  /** Tokens are nonempty pieces of the text, in order and without overlap. */
  lemma {:induction false} LexSound(s: string, at: nat)
    requires Lex(s, at).Some?
    ensures Pieces(Lex(s, at).value, s, at)
    decreases |s|
  {
    hide Lex, First, Head;
    if s == "" {
      LexNothing([], s, at);
    } else {
      LexProceeds(s, at);
      HeadSound(s, at);
      LexUnfold(s, at);
      var n := First(s).length;
      LexSound(s[n..], at + n);
      PiecesLater(s, at, n, Head(s, at), Lex(s[n..], at + n).value);
    }
  }

  lemma HeadSound(s: string, at: nat)
    requires s != "" && !First(s).Unterminated?
    ensures |Head(s, at)| <= 1 && Pieces(Head(s, at), s, at)
    ensures Head(s, at) != [] ==> Head(s, at)[0].start + |Head(s, at)[0].text| == at + First(s).length
  {
    hide First, Pieces;
    if First(s).Text? {
      OnePiece(s, at, First(s).length);
    } else {
      NoPieces(s, at);
    }
  }

  lemma NoPieces(s: string, at: nat)
    ensures Pieces([], s, at)
  {
  }

  lemma OnePiece(s: string, at: nat, n: nat)
    requires 0 < n <= |s|
    ensures Pieces([Token(s[..n], at)], s, at)
  {
    FirstPiece(s, at, n);
    hide IsPiece;
  }

  lemma FirstPiece(s: string, at: nat, n: nat)
    requires 0 < n <= |s|
    ensures IsPiece(Token(s[..n], at), s, at)
  {
    assert s[0..n] == s[..n];
  }

  lemma PiecesLater(s: string, at: nat, n: nat, head: seq<Token>, later: seq<Token>)
    requires n <= |s| && |head| <= 1
    requires Pieces(head, s, at) && (head != [] ==> head[0].start + |head[0].text| == at + n)
    requires Pieces(later, s[n..], at + n)
    ensures Pieces(head + later, s, at)
  {
    forall i | 0 <= i < |later|
      ensures IsPiece(later[i], s, at) && at + n <= later[i].start
    {
      PieceOfSuffix(later[i], s, at, n);
    }
  }

  lemma PieceOfSuffix(token: Token, s: string, at: nat, n: nat)
    requires n <= |s| && IsPiece(token, s[n..], at + n)
    ensures IsPiece(token, s, at)
  {
    var i := token.start - at - n;
    assert s[n..][i..i + |token.text|] == s[n + i..n + i + |token.text|];
  }

  lemma LexProceeds(s: string, at: nat)
    requires s != "" && Lex(s, at).Some?
    ensures !First(s).Unterminated?
    ensures Lex(s[First(s).length..], at + First(s).length).Some?
  {
  }

  /** Moving a text moves its tokens and leaves their texts alone. */
  lemma {:induction false} LexShift(s: string, at: nat, to: nat)
    ensures Lex(s, at).Some? <==> Lex(s, to).Some?
    ensures Lex(s, at).Some? ==> Texts(Lex(s, at).value) == Texts(Lex(s, to).value)
    decreases |s|
  {
    if s == "" {
    } else if First(s).Unterminated? {
    } else {
      ShiftLater(s, at, to);
    }
  }

  lemma {:induction false} ShiftLater(s: string, at: nat, to: nat)
    requires s != "" && !First(s).Unterminated?
    ensures Lex(s, at).Some? <==> Lex(s, to).Some?
    ensures Lex(s, at).Some? ==> Texts(Lex(s, at).value) == Texts(Lex(s, to).value)
    decreases |s|, 0
  {
    hide Lex, First, Texts;
    LexUnfold(s, at);
    LexUnfold(s, to);
    var n := First(s).length;
    LexShift(s[n..], at + n, to + n);
    if Lex(s[n..], at + n).Some? {
      HeadShift(s, at, to);
      TextsAppend(Head(s, at), Lex(s[n..], at + n).value);
      TextsAppend(Head(s, to), Lex(s[n..], to + n).value);
    }
  }

  lemma HeadShift(s: string, at: nat, to: nat)
    requires s != "" && !First(s).Unterminated?
    ensures Texts(Head(s, at)) == Texts(Head(s, to))
  {
  }

  lemma TextsAppend(a: seq<Token>, b: seq<Token>)
    ensures Texts(a + b) == Texts(a) + Texts(b)
  {
  }

  // ----- locality: the first lexeme depends on one character beyond its end

  lemma {:induction false} LineEndLocal(s: string, s': string, i: nat, k: nat)
    requires i <= |s| && LineEnd(s, i) < k <= |s|
    requires k <= |s'| && s[..k] == s'[..k]
    ensures LineEnd(s', i) == LineEnd(s, i)
    decreases |s| - i
  {
    assert s[i] == s[..k][i] == s'[..k][i] == s'[i];
    if s[i] != '\n' {
      LineEndLocal(s, s', i + 1, k);
    }
  }

  lemma {:induction false} CommentEndLocal(s: string, s': string, i: nat, k: nat)
    requires i <= |s| && CommentEnd(s, i).Some? && CommentEnd(s, i).value <= k <= |s|
    requires k <= |s'| && s[..k] == s'[..k]
    ensures CommentEnd(s', i) == CommentEnd(s, i)
    decreases |s| - i
  {
    assert s[i] == s[..k][i] == s'[..k][i] == s'[i];
    assert s[i + 1] == s[..k][i + 1] == s'[..k][i + 1] == s'[i + 1];
    if !(s[i] == '*' && s[i + 1] == '/') {
      CommentEndLocal(s, s', i + 1, k);
    }
  }

  lemma {:induction false} StringEndLocal(s: string, s': string, i: nat, k: nat)
    requires StringEnd(s, i).Some? && StringEnd(s, i).value <= k <= |s|
    requires k <= |s'| && s[..k] == s'[..k]
    ensures StringEnd(s', i) == StringEnd(s, i)
    decreases |s| - i
  {
    assert s[i] == s[..k][i] == s'[..k][i] == s'[i];
    if s[i] != '"' {
      StringEndLocal(s, s', if s[i] == '\\' then i + 2 else i + 1, k);
    }
  }

  lemma {:induction false} WordEndLocal(s: string, s': string, i: nat, k: nat)
    requires i <= |s| && WordEnd(s, i) < k <= |s|
    requires k <= |s'| && s[..k] == s'[..k]
    ensures WordEnd(s', i) == WordEnd(s, i)
    decreases |s| - i
  {
    assert s[i] == s[..k][i] == s'[..k][i] == s'[i];
    if InWord(s[i]) {
      WordEndLocal(s, s', i + 1, k);
    }
  }

  lemma FirstLocal(s: string, s': string, k: nat)
    requires s != "" && !First(s).Unterminated? && First(s).length < k <= |s|
    requires k <= |s'| && s[..k] == s'[..k]
    ensures First(s') == First(s)
  {
    assert s[0] == s[..k][0] == s'[..k][0] == s'[0];
    assert s[1] == s[..k][1] == s'[..k][1] == s'[1];
    if IsSpace(s[0]) {
    } else if "//" <= s {
      LineEndLocal(s, s', 2, k);
    } else if "/*" <= s {
      CommentEndLocal(s, s', 2, k);
    } else if s[0] == '"' {
      StringEndLocal(s, s', 1, k);
    } else if StartsWord(s[0]) {
      WordEndLocal(s, s', 1, k);
    }
  }

  /** `spliced` are the tokens of a text that had `tail` put behind the first
      character of token n, and `rest` are the tokens of `tail`: a `;` token
      stays whole, so lexing factors at it; any other token keeps its first
      character as long as the tail starts with white space. */
  ghost predicate Factors(tokens: seq<Token>, n: nat, tail: string, rest: Option<seq<Token>>, spliced: Option<seq<Token>>)
    requires n < |tokens|
  {
    && (tokens[n].text == ";" ==> spliced == Prepend(tokens[..n + 1], rest))
    && (tail != "" && IsSpace(tail[0]) && spliced.Some? ==>
          && n < |spliced.value|
          && spliced.value[..n] == tokens[..n]
          && SameStart(spliced.value[n].text, tokens[n].text))
  }

  predicate SameStart(a: string, b: string) {
    a != "" && b != "" && a[0] == b[0]
  }

  lemma {:induction false} Splice(p: string, q: string, tail: string, at: nat, n: nat)
    requires Lex(p + q, at).Some? && n < |Lex(p + q, at).value|
    requires Lex(p + q, at).value[n].start + 1 == at + |p|
    ensures Factors(Lex(p + q, at).value, n, tail, Lex(tail, at + |p|), Lex(p + tail, at))
    decreases |p|, 2
  {
    hide Lex, First, Factors;
    LexNonempty(p + q, at);
    LexProceeds(p + q, at);
    LexUnfold(p + q, at);
    if n < |Head(p + q, at)| {
      SpliceFirst(p, q, tail, at);
    } else {
      SpliceBehind(p, q, tail, at, n);
    }
  }

  lemma {:induction false} SpliceBehind(p: string, q: string, tail: string, at: nat, n: nat)
    requires p + q != "" && !First(p + q).Unterminated? && Lex(p + q, at).Some?
    requires |Head(p + q, at)| <= n < |Lex(p + q, at).value|
    requires Lex(p + q, at).value[n].start + 1 == at + |p|
    ensures Factors(Lex(p + q, at).value, n, tail, Lex(tail, at + |p|), Lex(p + tail, at))
    decreases |p|, 1
  {
    hide Lex, First, Factors, Head;
    LexProceeds(p + q, at);
    LexUnfold(p + q, at);
    LexLater(p + q, at, n);
    var m := First(p + q).length;
    Cut(p, q, m);
    SpliceLater(p, q, tail, at, n, m, Head(p + q, at), Lex(p + q, at).value);
  }

  lemma SpliceFirst(p: string, q: string, tail: string, at: nat)
    requires p + q != "" && Lex(p + q, at).Some? && First(p + q).Text? && |p| == 1
    ensures Lex(p + q, at).value != []
    ensures Factors(Lex(p + q, at).value, 0, tail, Lex(tail, at + |p|), Lex(p + tail, at))
  {
    hide Lex, First, Factors;
    assert (p + q)[..1] == p;
    SpliceHere(p + q, at, tail);
  }

  lemma {:induction false} SpliceLater(p: string, q: string, tail: string, at: nat, n: nat, m: nat, head: seq<Token>, tokens: seq<Token>)
    requires p + q != "" && First(p + q) in {Skip(m), Text(m)} && m < |p|
    requires head == Head(p + q, at) && |head| <= n < |tokens|
    requires Lex(p[m..] + q, at + m).Some? && tokens == head + Lex(p[m..] + q, at + m).value
    requires tokens[n].start + 1 == at + |p|
    ensures Factors(tokens, n, tail, Lex(tail, at + |p|), Lex(p + tail, at))
    decreases |p|, 0
  {
    hide Lex, First, Factors;
    Splice(p[m..], q, tail, at + m, n - |head|);
    assert (p + q)[..|p|] == p && (p + tail)[..|p|] == p;
    FirstLocal(p + q, p + tail, |p|);
    Cut(p, q, m);
    Cut(p, tail, m);
    LexUnfold(p + tail, at);
    FactorsLater(head, Lex(p[m..] + q, at + m).value, n - |head|, tail, Lex(tail, at + |p|), Lex(p[m..] + tail, at + m));
  }

  lemma Cut(p: string, q: string, m: nat)
    requires m <= |p|
    ensures (p + q)[..m] == p[..m]
    ensures (p + q)[m..] == p[m..] + q
  {
  }

  /** A token behind the first lexeme starts behind it. */
  lemma LexLater(s: string, at: nat, n: nat)
    requires s != "" && Lex(s, at).Some? && !First(s).Unterminated?
    requires |Head(s, at)| <= n < |Lex(s, at).value|
    ensures at + First(s).length <= Lex(s, at).value[n].start
  {
    LexProceeds(s, at);
    hide Lex, First;
    LexUnfold(s, at);
    var m := First(s).length;
    LexSound(s[m..], at + m);
    assert IsPiece(Lex(s[m..], at + m).value[n - |Head(s, at)|], s[m..], at + m);
  }

  lemma LexNonempty(s: string, at: nat)
    requires Lex(s, at).Some? && Lex(s, at).value != []
    ensures s != ""
  {
  }

  lemma FactorsLater(first: seq<Token>, later: seq<Token>, n: nat, tail: string, rest: Option<seq<Token>>, spliced: Option<seq<Token>>)
    requires n < |later| && Factors(later, n, tail, rest, spliced)
    ensures Factors(first + later, |first| + n, tail, rest, Prepend(first, spliced))
  {
    var tokens := first + later;
    assert tokens[|first| + n] == later[n];
    if later[n].text == ";" {
      assert tokens[..|first| + n + 1] == first + later[..n + 1];
      PrependPrepend(first, later[..n + 1], rest);
    }
    if spliced.Some? && n < |spliced.value| {
      assert (first + spliced.value)[..|first| + n] == first + spliced.value[..n];
      assert tokens[..|first| + n] == first + later[..n];
    }
  }

  lemma SpliceHere(s: string, at: nat, tail: string)
    requires Lex(s, at).Some? && s != "" && First(s).Text?
    ensures var tokens := Lex(s, at).value;
      && tokens != []
      && tokens[0] == Token(s[..First(s).length], at)
      && Factors(tokens, 0, tail, Lex(tail, at + 1), Lex(s[..1] + tail, at))
  {
    var tokens := Lex(s, at).value;
    var s' := s[..1] + tail;
    assert s'[0] == s[0];
    assert s'[1..] == tail;
    if tokens[0].text == ";" {
      assert s[0] == s[..First(s).length][0] == ';';
      assert First(s') == Text(1);
      assert tokens[..1] == [Token(s'[..1], at)];
    }
    if tail != "" && IsSpace(tail[0]) {
      assert s'[1] == tail[0];
    }
  }
}
