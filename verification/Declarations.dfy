/** The two gate declarations that src/Program.cpp inserts, written as the
    pieces their text is made of, and what lexing that text yields. */
module Declarations {
  import opened Common
  import opened Lexer

  /** The words the declarations use. */
  datatype Name = Gate | Ecr | Rzz | A | B | U | Zero | Two | Pi | Theta | Ctrl | Gphase

  function Spelling(name: Name): (text: string)
    ensures text != "" && StartsWord(text[0])
    ensures forall k :: 0 <= k < |text| ==> InWord(text[k])
  {
    match name
    case Gate => "gate"
    case Ecr => "ecr"
    case Rzz => "rzz"
    case A => "a"
    case B => "b"
    case U => "U"
    case Zero => "0"
    case Two => "2"
    case Pi => "pi"
    case Theta => "theta"
    case Ctrl => "ctrl"
    case Gphase => "gphase"
  }

  /** White space, a word, or a single-character mark. */
  datatype Piece = Gap(c: char) | Word(name: Name) | Mark(c: char) {
    function Spell(): string {
      if Word? then Spelling(name) else [c]
    }

    predicate Valid() {
      match this
      case Gap(c) => IsSpace(c)
      case Word(_) => true
      case Mark(c) => c in {'{', '}', '(', ')', ',', ';', '@', '/', '-'}
    }

    /** No token spans this piece and the next one. */
    predicate Parts(next: Piece) {
      (Word? ==> !next.Word?) && (this == Mark('/') ==> next != Mark('/'))
    }
  }

  type Pieces = seq<Piece>

  function Render(p: Pieces): string {
    if p == [] then "" else p[0].Spell() + Render(p[1..])
  }

  /** The texts of the tokens: all pieces but the white space. */
  function Visible(p: Pieces): seq<string> {
    if p == [] then []
    else if p[0].Gap? then Visible(p[1..])
    else [p[0].Spell()] + Visible(p[1..])
  }

  /** Every piece is lexed on its own. */
  ghost predicate Fits(p: Pieces) {
    && (forall i :: 0 <= i < |p| ==> p[i].Valid())
    && (forall i :: 0 < i < |p| ==> p[i - 1].Parts(p[i]))
  }

  // ----- the declarations

  const SP := Gap(' ')
  const COMMA := Mark(',')
  const SEMI := Mark(';')

  /** U(pi,0,pi) */
  const FLIP: Pieces := [Word(U), Mark('('), Word(Pi), COMMA, Word(Zero), COMMA, Word(Pi), Mark(')')]

  /** ctrl @ U(pi,0,pi) a,b; */
  const CONTROLLED_FLIP: Pieces :=
    [Word(Ctrl), SP, Mark('@'), SP] + FLIP + [SP, Word(A), COMMA, Word(B), SEMI, SP]

  /** U(0,0,pi/2) a; */
  const QUARTER: Pieces :=
    [Word(U), Mark('('), Word(Zero), COMMA, Word(Zero), COMMA, Word(Pi), Mark('/'), Word(Two), Mark(')'),
     SP, Word(A), SEMI, SP]

  /** U(pi/2,-pi/2,pi/2) b; */
  const TILT: Pieces :=
    [Word(U), Mark('('), Word(Pi), Mark('/'), Word(Two), COMMA, Mark('-'), Word(Pi), Mark('/'), Word(Two), COMMA,
     Word(Pi), Mark('/'), Word(Two), Mark(')'), SP, Word(B), SEMI, SP]

  /** gphase(-theta/2); */
  const PHASE: Pieces :=
    [Word(Gphase), Mark('('), Mark('-'), Word(Theta), Mark('/'), Word(Two), Mark(')'), SEMI, SP]

  /** U(0,0,theta) b; */
  const TURN: Pieces :=
    [Word(U), Mark('('), Word(Zero), COMMA, Word(Zero), COMMA, Word(Theta), Mark(')'), SP, Word(B), SEMI, SP]

  /** Behind `gate ecr` up to the brace: ` a,b `; and between the braces:
      ` U(0,0,pi/2) a; U(pi/2,-pi/2,pi/2) b; ctrl @ U(pi,0,pi) a,b; U(pi,0,pi) a; `. */
  const ECR_SIGNATURE: Pieces := [SP, Word(A), COMMA, Word(B), SP]
  const ECR_BODY: Pieces := [SP] + QUARTER + TILT + CONTROLLED_FLIP + FLIP + [SP, Word(A), SEMI, SP]

  /** Behind `gate rzz` up to the brace: `(theta) a,b `; and between the braces:
      ` gphase(-theta/2); ctrl @ U(pi,0,pi) a,b; U(0,0,theta) b; ctrl @ U(pi,0,pi) a,b; `. */
  const RZZ_SIGNATURE: Pieces := [Mark('('), Word(Theta), Mark(')'), SP, Word(A), COMMA, Word(B), SP]
  const RZZ_BODY: Pieces := [SP] + PHASE + CONTROLLED_FLIP + TURN + CONTROLLED_FLIP

  /** A declaration on a line of its own. */
  function Declaration(gate: Name, signature: Pieces, body: Pieces): Pieces {
    [Gap('\n'), Word(Gate), SP, Word(gate)] + signature + [Mark('{')] + body + [Mark('}')]
  }

  const ECR: Pieces := Declaration(Ecr, ECR_SIGNATURE, ECR_BODY)
  const RZZ: Pieces := Declaration(Rzz, RZZ_SIGNATURE, RZZ_BODY)

  // ----- lexing pieces

  /** The token texts of a text followed by a text with the given token texts. */
  function Joined(before: seq<string>, rest: Option<seq<string>>): Option<seq<string>> {
    match rest
    case None => None
    case Some(more) => Some(before + more)
  }

  lemma JoinedJoined(a: seq<string>, b: seq<string>, rest: Option<seq<string>>)
    ensures Joined(a, Joined(b, rest)) == Joined(a + b, rest)
    ensures Joined([], rest) == rest
  {
    if rest.Some? {
      assert a + (b + rest.value) == a + b + rest.value;
      assert [] + rest.value == rest.value;
    }
  }

  lemma WordsJoined(s: string, at: nat, tokens: seq<Token>, tail: string, to: nat)
    requires Lex(s, at) == Prepend(tokens, Lex(tail, to))
    ensures Words(s) == Joined(Texts(tokens), Words(tail))
  {
    hide Lex;
    LexShift(s, at, 0);
    LexShift(tail, to, 0);
    if Lex(tail, to).Some? {
      TextsAppend(tokens, Lex(tail, to).value);
    }
  }

  lemma WordsUnfold(s: string)
    requires s != "" && !First(s).Unterminated?
    ensures var n := First(s).length;
      Words(s) == Joined(if First(s).Text? then [s[..n]] else [], Words(s[n..]))
  {
    var n := First(s).length;
    var head := Head(s, 0);
    assert Texts(head) == if First(s).Text? then [s[..n]] else [];
    hide First, Lex, Head, Words;
    LexUnfold(s, 0);
    WordsJoined(s, 0, head, s[n..], n);
  }

  lemma {:induction false} WordEndIs(s: string, i: nat, end: nat)
    requires i <= end <= |s|
    requires forall k :: i <= k < end ==> InWord(s[k])
    requires end < |s| ==> !InWord(s[end])
    ensures WordEnd(s, i) == end
    decreases end - i
  {
    if i < end {
      WordEndIs(s, i + 1, end);
    }
  }

  /** One piece in front of a text is one lexeme. */
  lemma FirstOfPiece(piece: Piece, rest: string)
    requires rest != "" && piece.Valid()
    requires piece.Word? ==> !InWord(rest[0])
    requires piece == Mark('/') ==> rest[0] != '/' && rest[0] != '*'
    ensures First(piece.Spell() + rest) == if piece.Gap? then Skip(1) else Text(|piece.Spell()|)
  {
    var text := piece.Spell();
    var s := text + rest;
    assert s[0] == text[0] && s[|text|] == rest[0];
    if piece.Word? {
      WordEndIs(s, 1, |text|);
    }
  }

  lemma WordsOfPiece(piece: Piece, rest: string)
    requires rest != "" && piece.Valid()
    requires piece.Word? ==> !InWord(rest[0])
    requires piece == Mark('/') ==> rest[0] != '/' && rest[0] != '*'
    ensures Words(piece.Spell() + rest) == Joined(if piece.Gap? then [] else [piece.Spell()], Words(rest))
  {
    FirstOfPiece(piece, rest);
    var text := piece.Spell();
    assert (text + rest)[|text|..] == rest && (text + rest)[..|text|] == text;
    hide First, Words, Spelling;
    WordsUnfold(text + rest);
  }

  lemma RenderFront(p: Pieces, rest: string)
    requires p != [] && p[0].Valid()
    ensures (Render(p) + rest)[..1] == p[0].Spell()[..1]
  {
  }

  /** Pieces that end in white space lex to their visible texts, whatever
      follows them. */
  lemma {:induction false} WordsOfPieces(p: Pieces, rest: string)
    requires p != [] && Fits(p) && p[|p| - 1].Gap?
    ensures Words(Render(p) + rest) == Joined(Visible(p), Words(rest))
  {
    var later := Render(p[1..]) + rest;
    assert Render(p) + rest == p[0].Spell() + later;
    hide First, Words, Spelling;
    if |p| == 1 {
      assert p[1..] == [] && later == rest;
      WordsOfGap(p[0], rest);
    } else {
      assert p[1..][|p[1..]| - 1] == p[|p| - 1];
      assert Fits(p[1..]) by {
        assert forall i :: 0 <= i < |p[1..]| ==> p[1..][i] == p[i + 1];
      }
      WordsOfPieces(p[1..], rest);
      RenderFront(p[1..], rest);
      assert later[0] == later[..1][0] == p[1].Spell()[0];
      assert p[0].Parts(p[1]);
      PieceStarts(p[1]);
      WordsOfPiece(p[0], later);
      var head := if p[0].Gap? then [] else [p[0].Spell()];
      JoinedJoined(head, Visible(p[1..]), Words(rest));
      assert Visible(p) == head + Visible(p[1..]);
    }
  }

  lemma PieceStarts(piece: Piece)
    requires piece.Valid()
    ensures !piece.Word? ==> !InWord(piece.Spell()[0])
    ensures piece != Mark('/') ==> piece.Spell()[0] != '/'
    ensures piece.Spell()[0] != '*'
  {
  }

  lemma WordsOfGap(piece: Piece, rest: string)
    requires piece.Gap? && piece.Valid()
    ensures Words(piece.Spell() + rest) == Joined([], Words(rest))
  {
    assert (piece.Spell() + rest)[1..] == rest;
    WordsUnfold(piece.Spell() + rest);
  }

  // ----- the shape of a declaration

  /** The tokens that a declaration may hold between its braces. */
  predicate IsPlain(token: string) {
    token != "{" && token != "}" && token != "gate" && token != "ecr" && token != "rzz"
  }

  ghost predicate AllPlain(tokens: seq<string>) {
    forall i :: 0 <= i < |tokens| ==> IsPlain(tokens[i])
  }

  /** Pieces whose tokens are plain. */
  ghost predicate Inner(p: Pieces) {
    && Fits(p)
    && (forall i :: 0 <= i < |p| ==> p[i] !in {Mark('{'), Mark('}'), Word(Gate), Word(Ecr), Word(Rzz)})
  }

  /** Inner pieces with white space at the end, so that anything may follow. */
  ghost predicate Closed(p: Pieces) {
    Inner(p) && p != [] && p[|p| - 1] == SP
  }

  lemma ClosedAppend(a: Pieces, b: Pieces)
    requires Closed(a) && Closed(b)
    ensures Closed(a + b)
  {
  }

  lemma {:induction false} VisibleAppend(a: Pieces, b: Pieces)
    ensures Visible(a + b) == Visible(a) + Visible(b)
  {
    if a == [] {
      assert a + b == b;
    } else {
      assert (a + b)[1..] == a[1..] + b;
      VisibleAppend(a[1..], b);
    }
  }

  lemma VisibleOne(piece: Piece, rest: Pieces)
    ensures Visible([piece] + rest) == (if piece.Gap? then [] else [piece.Spell()]) + Visible(rest)
  {
    assert ([piece] + rest)[1..] == rest;
  }

  lemma {:induction false} VisiblePlain(p: Pieces)
    requires Inner(p)
    ensures AllPlain(Visible(p))
  {
    if p != [] {
      VisiblePlain(p[1..]);
    }
  }

  lemma ControlledFlipClosed()
    ensures Closed(FLIP + [SP, Word(A), SEMI, SP])
    ensures Closed(CONTROLLED_FLIP)
  {
    assert FLIP + [SP, Word(A), SEMI, SP] ==
      [Word(U), Mark('('), Word(Pi), COMMA, Word(Zero), COMMA, Word(Pi), Mark(')'), SP, Word(A), SEMI, SP];
  }

  lemma EcrClosed()
    ensures Closed(ECR_SIGNATURE) && Closed(ECR_BODY)
  {
    assert Closed([SP]) && Closed(QUARTER) && Closed(TILT);
    ControlledFlipClosed();
    hide FLIP, CONTROLLED_FLIP, QUARTER, TILT, Closed;
    var last := FLIP + [SP, Word(A), SEMI, SP];
    ClosedAppend([SP], QUARTER);
    ClosedAppend([SP] + QUARTER, TILT);
    ClosedAppend([SP] + QUARTER + TILT, CONTROLLED_FLIP);
    ClosedAppend([SP] + QUARTER + TILT + CONTROLLED_FLIP, last);
    assert ECR_BODY == [SP] + QUARTER + TILT + CONTROLLED_FLIP + last;
  }

  lemma RzzClosed()
    ensures Closed(RZZ_SIGNATURE) && Closed(RZZ_BODY)
  {
    assert Closed([SP]) && Closed(PHASE) && Closed(TURN);
    ControlledFlipClosed();
    hide FLIP, CONTROLLED_FLIP, PHASE, TURN, Closed;
    ClosedAppend([SP], PHASE);
    ClosedAppend([SP] + PHASE, CONTROLLED_FLIP);
    ClosedAppend([SP] + PHASE + CONTROLLED_FLIP, TURN);
    ClosedAppend([SP] + PHASE + CONTROLLED_FLIP + TURN, CONTROLLED_FLIP);
  }

  // ----- the tokens of an inserted text

  /** The tokens of a gate declaration: the word `gate`, the gate's name, and
      plain tokens but for one brace to open and one to close. */
  ghost predicate IsDeclaration(tokens: seq<string>, gate: string) {
    exists signature: seq<string>, body: seq<string> ::
      && AllPlain(signature) && AllPlain(body)
      && tokens == ["gate", gate] + signature + ["{"] + body + ["}"]
  }

  lemma DeclarationTokens(gate: Name, signature: Pieces, body: Pieces)
    requires Closed(signature) && Closed(body)
    ensures IsDeclaration(Visible(Declaration(gate, signature, body)), Spelling(gate))
  {
    var front := [Gap('\n'), Word(Gate), SP, Word(gate)];
    VisibleAppend(front, signature);
    VisibleAppend(front + signature, [Mark('{')]);
    VisibleAppend(front + signature + [Mark('{')], body);
    VisibleAppend(front + signature + [Mark('{')] + body, [Mark('}')]);
    VisiblePlain(signature);
    VisiblePlain(body);
    assert Visible(front) == ["gate", Spelling(gate)] by {
      assert front == [Gap('\n')] + ([Word(Gate)] + ([SP] + [Word(gate)]));
      VisibleOne(Gap('\n'), [Word(Gate)] + ([SP] + [Word(gate)]));
      VisibleOne(Word(Gate), [SP] + [Word(gate)]);
      VisibleOne(SP, [Word(gate)]);
      assert [Word(gate)] + [] == [Word(gate)];
      VisibleOne(Word(gate), []);
    }
    assert Visible([Mark('{')]) == ["{"] by {
      assert [Mark('{')][1..] == [];
    }
    assert Visible([Mark('}')]) == ["}"] by {
      assert [Mark('}')][1..] == [];
    }
  }

  lemma DeclarationFits(gate: Name, signature: Pieces, body: Pieces, rest: Pieces)
    requires Closed(signature) && Closed(body) && Fits(rest)
    requires signature[0].Parts(Word(gate)) && Word(gate).Parts(signature[0])
    ensures Fits(Declaration(gate, signature, body) + rest)
  {
  }
}
