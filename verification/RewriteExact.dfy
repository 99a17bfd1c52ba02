/** What the gate rewrite of src/Program.cpp does to a program, said of its tokens
    and of the text it inserts. */
module RewriteExact {
  import opened Common
  import opened Lexer
  import opened Declarations
  import opened Program
  import opened Rewrite
  import L = LayoutExact

  // ----- calls and definitions

  /** Behind the version statement, token i is the gate, is not being defined, and
      operands follow. */
  predicate CalledAt(tokens: seq<string>, i: nat, gate: string) {
    && 3 <= i && i + 1 < |tokens|
    && tokens[i] == gate && tokens[i - 1] != "gate"
    && (tokens[i + 1] == "(" || tokens[i + 1] == "$" || L.Identifier(tokens[i + 1]))
  }

  predicate DefinedAt(tokens: seq<string>, i: nat, gate: string) {
    3 <= i && i + 1 < |tokens| && tokens[i] == "gate" && tokens[i + 1] == gate
  }

  ghost predicate Called(tokens: seq<string>, gate: string) {
    exists i :: CalledAt(tokens, i, gate)
  }

  ghost predicate Defined(tokens: seq<string>, gate: string) {
    exists i :: DefinedAt(tokens, i, gate)
  }

  lemma {:induction false} CallsFrom(tokens: seq<string>, i: nat, gate: string)
    requires 3 <= i <= |tokens| && gate in {"ecr", "rzz"}
    ensures Calls(tokens[i - 1], tokens[i..], gate) > 0 <==> exists k :: i <= k && CalledAt(tokens, k, gate)
    decreases |tokens| - i
  {
    hide Calls, L.Identifier, IsName;
    if i + 1 < |tokens| {
      CallsFrom(tokens, i + 1, gate);
      ScanStep(tokens, i, gate);
      L.IdentifierIsName(tokens[i + 1]);
      assert (exists k :: i <= k && CalledAt(tokens, k, gate)) <==>
        CalledAt(tokens, i, gate) || exists k :: i + 1 <= k && CalledAt(tokens, k, gate);
      assert Calls(tokens[i], tokens[i + 1..], gate) == Calls(tokens[i + 1 - 1], tokens[i + 1..], gate);
    } else {
      ScanEnd(tokens, i, gate);
    }
  }

  lemma {:induction false} DefinitionsFrom(tokens: seq<string>, i: nat, gate: string)
    requires 3 <= i <= |tokens|
    ensures Definitions(tokens[i..], gate) > 0 <==> exists k :: i <= k && DefinedAt(tokens, k, gate)
    decreases |tokens| - i
  {
    hide Definitions;
    if i + 1 < |tokens| {
      DefinitionsFrom(tokens, i + 1, gate);
      ScanStep(tokens, i, gate);
      assert (exists k :: i <= k && DefinedAt(tokens, k, gate)) <==>
        DefinedAt(tokens, i, gate) || exists k :: i + 1 <= k && DefinedAt(tokens, k, gate);
    } else {
      ScanEnd(tokens, i, gate);
    }
  }

  lemma LacksExact(tokens: seq<string>, gate: string)
    requires |tokens| >= 3 && gate in {"ecr", "rzz"}
    ensures Lacks(tokens, gate) <==> Called(tokens, gate) && !Defined(tokens, gate)
    ensures Definitions(tokens[3..], gate) > 0 <==> Defined(tokens, gate)
    ensures Calls(tokens[2], tokens[3..], gate) > 0 <==> Called(tokens, gate)
  {
    CallsFrom(tokens, 3, gate);
    DefinitionsFrom(tokens, 3, gate);
    hide Calls, Definitions, CalledAt, DefinedAt;
  }

  // ----- the inserted text

  const FLIP_TEXT := "U(pi,0,pi)"
  const QUARTER_TEXT := "U(0,0,pi/2) a; "
  const TILT_TEXT := "U(pi/2,-pi/2,pi/2) b; "
  const PHASE_TEXT := "gphase(-theta/2); "
  const TURN_TEXT := "U(0,0,theta) b; "
  const CONTROLLED_TEXT := "ctrl @ " + FLIP_TEXT + " a,b; "
  const ECR_TEXT := "\ngate ecr" + " a,b " + "{" + (" " + QUARTER_TEXT + TILT_TEXT + CONTROLLED_TEXT + FLIP_TEXT + " a; ") + "}"
  const RZZ_TEXT := "\ngate rzz" + "(theta) a,b " + "{" + (" " + PHASE_TEXT + CONTROLLED_TEXT + TURN_TEXT + CONTROLLED_TEXT) + "}"

  lemma RenderTwo(a: Piece, b: Piece)
    ensures Render([a, b]) == a.Spell() + b.Spell()
  {
    RenderOne(b);
    assert [a, b][1..] == [b];
  }

  lemma RenderFour(a: Piece, b: Piece, c: Piece, d: Piece)
    ensures Render([a, b, c, d]) == a.Spell() + b.Spell() + c.Spell() + d.Spell()
  {
    RenderTwo(a, b);
    RenderTwo(c, d);
    assert [a, b] + [c, d] == [a, b, c, d];
    RenderAppend([a, b], [c, d]);
  }

  lemma RenderOne(a: Piece)
    ensures Render([a]) == a.Spell()
  {
    assert [a][1..] == [];
    assert a.Spell() + "" == a.Spell();
  }

  lemma RenderThree(a: Piece, b: Piece, c: Piece)
    ensures Render([a, b, c]) == a.Spell() + b.Spell() + c.Spell()
  {
    RenderTwo(a, b);
    RenderOne(c);
    RenderAppend([a, b], [c]);
    assert [a, b] + [c] == [a, b, c];
  }

  lemma RenderBoth(p: Pieces, a: string, q: Pieces, b: string)
    requires Render(p) == a && Render(q) == b
    ensures Render(p + q) == a + b
  {
    RenderAppend(p, q);
  }

  lemma RenderFive(p: Pieces, a: string, q: Pieces, b: string, r: Pieces, c: string, s: Pieces, d: string, t: Pieces, e: string)
    requires Render(p) == a && Render(q) == b && Render(r) == c && Render(s) == d && Render(t) == e
    ensures Render(p + q + r + s + t) == a + b + c + d + e
  {
    hide Render;
    RenderBoth(p, a, q, b);
    RenderBoth(p + q, a + b, r, c);
    RenderBoth(p + q + r, a + b + c, s, d);
    RenderBoth(p + q + r + s, a + b + c + d, t, e);
  }

  lemma FlipText()
    ensures Render(FLIP) == FLIP_TEXT
  {
    RenderFour(Word(U), Mark('('), Word(Pi), COMMA);
    RenderFour(Word(Zero), COMMA, Word(Pi), Mark(')'));
    assert Render([]) == "";
    assert Render([Word(U), Mark('('), Word(Pi), COMMA]) == "U(pi,";
    assert Render([Word(Zero), COMMA, Word(Pi), Mark(')')]) == "0,pi)";
    FlipParts();
    hide Render, FLIP, FLIP_TEXT;
    RenderFive([Word(U), Mark('('), Word(Pi), COMMA], "U(pi,", [Word(Zero), COMMA, Word(Pi), Mark(')')], "0,pi)", [], "", [], "", [], "");
  }

  lemma FlipParts()
    ensures FLIP == [Word(U), Mark('('), Word(Pi), COMMA] + [Word(Zero), COMMA, Word(Pi), Mark(')')] + [] + [] + []
    ensures FLIP_TEXT == "U(pi," + "0,pi)" + "" + "" + ""
  {
  }

  lemma QuarterText()
    ensures Render(QUARTER) == QUARTER_TEXT
  {
    RenderFour(Word(U), Mark('('), Word(Zero), COMMA);
    RenderFour(Word(Zero), COMMA, Word(Pi), Mark('/'));
    RenderFour(Word(Two), Mark(')'), SP, Word(A));
    RenderTwo(SEMI, SP);
    assert Render([]) == "";
    assert Render([Word(U), Mark('('), Word(Zero), COMMA]) == "U(0,";
    assert Render([Word(Zero), COMMA, Word(Pi), Mark('/')]) == "0,pi/";
    assert Render([Word(Two), Mark(')'), SP, Word(A)]) == "2) a";
    assert Render([SEMI, SP]) == "; ";
    QuarterParts();
    hide Render, QUARTER, QUARTER_TEXT;
    RenderFive([Word(U), Mark('('), Word(Zero), COMMA], "U(0,", [Word(Zero), COMMA, Word(Pi), Mark('/')], "0,pi/", [Word(Two), Mark(')'), SP,
        Word(A)], "2) a", [SEMI, SP], "; ", [], "");
  }

  lemma QuarterParts()
    ensures QUARTER == [Word(U), Mark('('), Word(Zero), COMMA] + [Word(Zero), COMMA, Word(Pi), Mark('/')] + [Word(Two), Mark(')'), SP, Word(A)] +
        [SEMI, SP] + []
    ensures QUARTER_TEXT == "U(0," + "0,pi/" + "2) a" + "; " + ""
  {
  }

  lemma TiltText()
    ensures Render(TILT) == TILT_TEXT
  {
    RenderFour(Word(U), Mark('('), Word(Pi), Mark('/'));
    RenderFour(Word(Two), COMMA, Mark('-'), Word(Pi));
    RenderFour(Mark('/'), Word(Two), COMMA, Word(Pi));
    RenderFour(Mark('/'), Word(Two), Mark(')'), SP);
    RenderThree(Word(B), SEMI, SP);
    assert Render([Word(U), Mark('('), Word(Pi), Mark('/')]) == "U(pi/";
    assert Render([Word(Two), COMMA, Mark('-'), Word(Pi)]) == "2,-pi";
    assert Render([Mark('/'), Word(Two), COMMA, Word(Pi)]) == "/2,pi";
    assert Render([Mark('/'), Word(Two), Mark(')'), SP]) == "/2) ";
    assert Render([Word(B), SEMI, SP]) == "b; ";
    TiltParts();
    hide Render, TILT, TILT_TEXT;
    RenderFive([Word(U), Mark('('), Word(Pi), Mark('/')], "U(pi/", [Word(Two), COMMA, Mark('-'), Word(Pi)], "2,-pi", [Mark('/'), Word(Two), COMMA,
        Word(Pi)], "/2,pi", [Mark('/'), Word(Two), Mark(')'), SP], "/2) ", [Word(B), SEMI, SP], "b; ");
  }

  lemma TiltParts()
    ensures TILT == [Word(U), Mark('('), Word(Pi), Mark('/')] + [Word(Two), COMMA, Mark('-'), Word(Pi)] + [Mark('/'), Word(Two), COMMA, Word(Pi)] +
        [Mark('/'), Word(Two), Mark(')'), SP] + [Word(B), SEMI, SP]
    ensures TILT_TEXT == "U(pi/" + "2,-pi" + "/2,pi" + "/2) " + "b; "
  {
  }

  lemma PhaseText()
    ensures Render(PHASE) == PHASE_TEXT
  {
    RenderFour(Word(Gphase), Mark('('), Mark('-'), Word(Theta));
    RenderFour(Mark('/'), Word(Two), Mark(')'), SEMI);
    RenderOne(SP);
    assert Render([]) == "";
    assert Render([Word(Gphase), Mark('('), Mark('-'), Word(Theta)]) == "gphase(-theta";
    assert Render([Mark('/'), Word(Two), Mark(')'), SEMI]) == "/2);";
    assert Render([SP]) == " ";
    PhaseParts();
    hide Render, PHASE, PHASE_TEXT;
    RenderFive([Word(Gphase), Mark('('), Mark('-'), Word(Theta)], "gphase(-theta", [Mark('/'), Word(Two), Mark(')'), SEMI], "/2);", [SP], " ", [],
        "", [], "");
  }

  lemma PhaseParts()
    ensures PHASE == [Word(Gphase), Mark('('), Mark('-'), Word(Theta)] + [Mark('/'), Word(Two), Mark(')'), SEMI] + [SP] + [] + []
    ensures PHASE_TEXT == "gphase(-theta" + "/2);" + " " + "" + ""
  {
  }

  lemma TurnText()
    ensures Render(TURN) == TURN_TEXT
  {
    RenderFour(Word(U), Mark('('), Word(Zero), COMMA);
    RenderFour(Word(Zero), COMMA, Word(Theta), Mark(')'));
    RenderFour(SP, Word(B), SEMI, SP);
    assert Render([]) == "";
    assert Render([Word(U), Mark('('), Word(Zero), COMMA]) == "U(0,";
    assert Render([Word(Zero), COMMA, Word(Theta), Mark(')')]) == "0,theta)";
    assert Render([SP, Word(B), SEMI, SP]) == " b; ";
    TurnParts();
    hide Render, TURN, TURN_TEXT;
    RenderFive([Word(U), Mark('('), Word(Zero), COMMA], "U(0,", [Word(Zero), COMMA, Word(Theta), Mark(')')], "0,theta)", [SP, Word(B), SEMI, SP],
        " b; ", [], "", [], "");
  }

  lemma TurnParts()
    ensures TURN == [Word(U), Mark('('), Word(Zero), COMMA] + [Word(Zero), COMMA, Word(Theta), Mark(')')] + [SP, Word(B), SEMI, SP] + [] + []
    ensures TURN_TEXT == "U(0," + "0,theta)" + " b; " + "" + ""
  {
  }

  lemma ControlledFlipText()
    ensures Render(CONTROLLED_FLIP) == CONTROLLED_TEXT
  {
    FlipText();
    RenderFour(Word(Ctrl), SP, Mark('@'), SP);
    RenderFour(SP, Word(A), COMMA, Word(B));
    RenderTwo(SEMI, SP);
    assert Render([Word(Ctrl), SP, Mark('@'), SP]) == "ctrl @ ";
    assert Render([SP, Word(A), COMMA, Word(B)]) == " a,b" && Render([SEMI, SP]) == "; ";
    hide FLIP, FLIP_TEXT, Render;
    RenderBoth([SP, Word(A), COMMA, Word(B)], " a,b", [SEMI, SP], "; ");
    assert [SP, Word(A), COMMA, Word(B)] + [SEMI, SP] == [SP, Word(A), COMMA, Word(B), SEMI, SP];
    assert " a,b" + "; " == " a,b; ";
    RenderBoth([Word(Ctrl), SP, Mark('@'), SP], "ctrl @ ", FLIP, FLIP_TEXT);
    RenderBoth([Word(Ctrl), SP, Mark('@'), SP] + FLIP, "ctrl @ " + FLIP_TEXT, [SP, Word(A), COMMA, Word(B), SEMI, SP], " a,b; ");
  }

  lemma EcrBodyText()
    ensures Render(ECR_BODY) == " " + QUARTER_TEXT + TILT_TEXT + CONTROLLED_TEXT + FLIP_TEXT + " a; "
  {
    QuarterText();
    TiltText();
    ControlledFlipText();
    FlipText();
    RenderOne(SP);
    RenderFour(SP, Word(A), SEMI, SP);
    assert Render([SP, Word(A), SEMI, SP]) == " a; ";
    hide FLIP, QUARTER, TILT, CONTROLLED_FLIP, Render, FLIP_TEXT, QUARTER_TEXT, TILT_TEXT, CONTROLLED_TEXT;
    RenderFive([SP], " ", QUARTER, QUARTER_TEXT, TILT, TILT_TEXT, CONTROLLED_FLIP, CONTROLLED_TEXT, FLIP, FLIP_TEXT);
    RenderBoth([SP] + QUARTER + TILT + CONTROLLED_FLIP + FLIP, " " + QUARTER_TEXT + TILT_TEXT + CONTROLLED_TEXT + FLIP_TEXT,
               [SP, Word(A), SEMI, SP], " a; ");
  }

  lemma RzzBodyText()
    ensures Render(RZZ_BODY) == " " + PHASE_TEXT + CONTROLLED_TEXT + TURN_TEXT + CONTROLLED_TEXT
  {
    PhaseText();
    TurnText();
    ControlledFlipText();
    RenderOne(SP);
    hide PHASE, TURN, CONTROLLED_FLIP, Render, PHASE_TEXT, TURN_TEXT, CONTROLLED_TEXT;
    RenderFive([SP], " ", PHASE, PHASE_TEXT, CONTROLLED_FLIP, CONTROLLED_TEXT, TURN, TURN_TEXT, CONTROLLED_FLIP, CONTROLLED_TEXT);
  }

  lemma DeclarationText(gate: Name, signature: Pieces, body: Pieces, head: string, front: string, inner: string)
    requires Render(signature) == front && Render(body) == inner && head == "\ngate " + Spelling(gate)
    ensures Render(Declaration(gate, signature, body)) == head + front + "{" + inner + "}"
  {
    RenderFour(Gap('\n'), Word(Gate), SP, Word(gate));
    RenderOne(Mark('{'));
    RenderOne(Mark('}'));
    assert Gap('\n').Spell() + Word(Gate).Spell() + SP.Spell() == "\ngate ";
    hide Render, Spelling;
    RenderFive([Gap('\n'), Word(Gate), SP, Word(gate)], head, signature, front, [Mark('{')], "{", body, inner, [Mark('}')], "}");
  }

  lemma SignatureTexts()
    ensures Render(ECR_SIGNATURE) == " a,b " && Render(RZZ_SIGNATURE) == "(theta) a,b "
  {
    RenderFour(SP, Word(A), COMMA, Word(B));
    RenderOne(SP);
    RenderFour(Mark('('), Word(Theta), Mark(')'), SP);
    RenderFour(Word(A), COMMA, Word(B), SP);
    assert Render([SP, Word(A), COMMA, Word(B)]) == " a,b";
    assert Render([Mark('('), Word(Theta), Mark(')'), SP]) == "(theta) " && Render([Word(A), COMMA, Word(B), SP]) == "a,b ";
    hide Render;
    RenderBoth([SP, Word(A), COMMA, Word(B)], " a,b", [SP], " ");
    assert [SP, Word(A), COMMA, Word(B)] + [SP] == ECR_SIGNATURE;
    RenderBoth([Mark('('), Word(Theta), Mark(')'), SP], "(theta) ", [Word(A), COMMA, Word(B), SP], "a,b ");
    assert [Mark('('), Word(Theta), Mark(')'), SP] + [Word(A), COMMA, Word(B), SP] == RZZ_SIGNATURE;
  }

  /** The two texts, character by character. */
  lemma InsertedTexts()
    ensures Render(ECR) == ECR_TEXT && Render(RZZ) == RZZ_TEXT
  {
    SignatureTexts();
    EcrBodyText();
    RzzBodyText();
    assert "\ngate " + Spelling(Ecr) == "\ngate ecr" && "\ngate " + Spelling(Rzz) == "\ngate rzz";
    hide ECR_BODY, RZZ_BODY, ECR_SIGNATURE, RZZ_SIGNATURE, Render, QUARTER_TEXT, TILT_TEXT, CONTROLLED_TEXT, FLIP_TEXT, PHASE_TEXT, TURN_TEXT;
    DeclarationText(Ecr, ECR_SIGNATURE, ECR_BODY, "\ngate ecr", " a,b ",
                    " " + QUARTER_TEXT + TILT_TEXT + CONTROLLED_TEXT + FLIP_TEXT + " a; ");
    DeclarationText(Rzz, RZZ_SIGNATURE, RZZ_BODY, "\ngate rzz", "(theta) a,b ",
                    " " + PHASE_TEXT + CONTROLLED_TEXT + TURN_TEXT + CONTROLLED_TEXT);
  }

  // ----- the rewrite

  /** A program that lexes to three tokens or more gets the text of each gate that
      it calls and does not define, and a line break, behind the character that
      starts its third token; without such a gate it stays as it is. */
  lemma RewriteExact(program: string)
    ensures Words(program).None? || |Words(program).value| < 3 ==> Prepared(program) == Err(InvalidArgument)
    ensures Words(program).Some? && |Words(program).value| >= 3 ==>
      var tokens := Words(program).value;
      var ecr := Called(tokens, "ecr") && !Defined(tokens, "ecr"); var rzz := Called(tokens, "rzz") && !Defined(tokens, "rzz");
      && Lex(program, 0).Some? && |Lex(program, 0).value| >= 3
      && var at := Lex(program, 0).value[2].start + 1;
      && at <= |program|
      && (!ecr && !rzz ==> Prepared(program) == Ok(program))
      && (ecr || rzz ==>
            Prepared(program) ==
            Ok(program[..at] + ((if ecr then ECR_TEXT else "") + (if rzz then RZZ_TEXT else "")) + "\n" + program[at..]))
  {
    WordsAre(program);
    hide Lex, Words, Render, ECR, RZZ, ECR_TEXT, RZZ_TEXT, Lacks, Called, Defined;
    if Lex(program, 0).Some? && |Lex(program, 0).value| >= 3 {
      var lexed := Lex(program, 0).value;
      var tokens := Texts(lexed);
      LacksExact(tokens, "ecr");
      LacksExact(tokens, "rzz");
      LexSound(program, 0);
      assert IsPiece(lexed[2], program, 0);
      InsertedTexts();
      MissingText(tokens);
    }
  }

  lemma MissingText(tokens: seq<string>)
    requires |tokens| >= 3
    ensures Missing(tokens) == [] <==> !Lacks(tokens, "ecr") && !Lacks(tokens, "rzz")
    ensures Render(Missing(tokens)) ==
      (if Lacks(tokens, "ecr") then Render(ECR) else "") + (if Lacks(tokens, "rzz") then Render(RZZ) else "")
  {
    hide Lacks, ECR, RZZ;
    MissingNothing(tokens);
    RenderAppend(ECR, RZZ);
    assert Render([]) == "";
  }

  /** In the result of the rewrite every called gate is defined, wherever the version
      statement ends as it should; nothing changes when it was so before. */
  lemma CalledGatesDefined(program: string, gate: string)
    requires Prepared(program).Ok? && Words(program).Some? && |Words(program).value| >= 3 && Words(program).value[2] == ";"
    requires gate in {"ecr", "rzz"}
    ensures Words(Prepared(program).value).Some?
    ensures var before, after := Words(program).value, Words(Prepared(program).value).value;
      && (Called(after, gate) <==> Called(before, gate))
      && (Called(before, gate) || Defined(before, gate) <==> Defined(after, gate))
  {
    hide Prepared, Words, Calls, Definitions, Called, Defined;
    RewriteSuppliesDefinitions(program, gate);
    LacksExact(Words(program).value, gate);
    LacksExact(Words(Prepared(program).value).value, gate);
  }
}
