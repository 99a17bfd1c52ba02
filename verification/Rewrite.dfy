/** declareNativeGates of src/Program.cpp: a program that calls `ecr` or `rzz`
    without defining it gets the definition behind its version statement. The
    rewrite leaves the classical layout alone and changes nothing the second
    time. */
module Rewrite {
  import opened Common
  import opened Lexer
  import opened Declarations
  import opened Program

  // ----- which gates a program defines and calls

  /** How often the tokens hold the word `gate` followed by the gate's name. */
  function Definitions(tokens: seq<string>, gate: string): nat {
    if |tokens| < 2 then 0
    else (if tokens[0] == "gate" && tokens[1] == gate then 1 else 0) + Definitions(tokens[1..], gate)
  }

  predicate StartsOperands(token: string) {
    token == "(" || token == "$" || IsName(token)
  }

  /** How often the tokens behind `previous` call the gate. */
  function Calls(previous: string, tokens: seq<string>, gate: string): nat
    decreases |tokens|
  {
    if |tokens| < 2 then 0
    else
      (if tokens[0] != "gate" && previous != "gate" && tokens[0] == gate && StartsOperands(tokens[1]) then 1 else 0)
      + Calls(tokens[0], tokens[1..], gate)
  }

  predicate Lacks(tokens: seq<string>, gate: string)
    requires |tokens| >= 3
  {
    Calls(tokens[2], tokens[3..], gate) > 0 && Definitions(tokens[3..], gate) == 0
  }

  /** The text that supplies the missing definitions, as pieces. */
  function Missing(tokens: seq<string>): Pieces
    requires |tokens| >= 3
  {
    if Lacks(tokens, "ecr") then
      if Lacks(tokens, "rzz") then ECR + RZZ else ECR
    else if Lacks(tokens, "rzz") then RZZ else []
  }

  function Prepared(program: string): Result<string> {
    match Lex(program, 0)
    case None => Err(InvalidArgument)
    case Some(tokens) =>
      if |tokens| < 3 then Err(InvalidArgument)
      else
        var missing := Missing(Texts(tokens));
        if missing == [] then Ok(program)
        else
          var insertion := tokens[2].start + 1;
          LexSound(program, 0);
          assert IsPiece(tokens[2], program, 0);
          Ok(program[..insertion] + Render(missing) + "\n" + program[insertion..])
  }

  method DeclareNativeGates(program: string) returns (r: Result<string>)
    ensures r == Prepared(program)
  {
    hide Lex, Calls, Definitions, Render, ECR, RZZ, Missing;
    var lexed :- Tokenize(program);
    if |lexed| < 3 {
      return Err(InvalidArgument);
    }
    var tokens := Texts(lexed);
    var definesEcr, definesRzz, usesEcr, usesRzz := false, false, false, false;
    var index := 3;
    while index + 1 < |tokens|
      invariant 3 <= index <= |tokens|
      invariant Definitions(tokens[3..], "ecr") > 0 <==> definesEcr || Definitions(tokens[index..], "ecr") > 0
      invariant Definitions(tokens[3..], "rzz") > 0 <==> definesRzz || Definitions(tokens[index..], "rzz") > 0
      invariant Calls(tokens[2], tokens[3..], "ecr") > 0 <==> usesEcr || Calls(tokens[index - 1], tokens[index..], "ecr") > 0
      invariant Calls(tokens[2], tokens[3..], "rzz") > 0 <==> usesRzz || Calls(tokens[index - 1], tokens[index..], "rzz") > 0
    {
      ScanStep(tokens, index, "ecr");
      ScanStep(tokens, index, "rzz");
      if tokens[index] == "gate" {
        definesEcr := definesEcr || tokens[index + 1] == "ecr";
        definesRzz := definesRzz || tokens[index + 1] == "rzz";
      } else if tokens[index - 1] != "gate" {
        var next := tokens[index + 1];
        var call := next == "(" || next == "$" || IsName(next);
        usesEcr := usesEcr || (tokens[index] == "ecr" && call);
        usesRzz := usesRzz || (tokens[index] == "rzz" && call);
      }
      index := index + 1;
    }
    ScanEnd(tokens, index, "ecr");
    ScanEnd(tokens, index, "rzz");
    var declarations := "";
    if usesEcr && !definesEcr {
      declarations := declarations + Render(ECR);
    }
    if usesRzz && !definesRzz {
      declarations := declarations + Render(RZZ);
    }
    r := Insert(program, lexed, declarations);
  }

  /** Puts the declarations behind the version statement. */
  method Insert(program: string, lexed: seq<Token>, declarations: string) returns (r: Result<string>)
    requires Lex(program, 0) == Some(lexed) && |lexed| >= 3
    requires var tokens := Texts(lexed);
      declarations == (if Lacks(tokens, "ecr") then Render(ECR) else "") + (if Lacks(tokens, "rzz") then Render(RZZ) else "")
    ensures r == Prepared(program)
  {
    hide Lex, Lacks, Render;
    DeclarationsRendered(Texts(lexed), declarations);
    if declarations == "" {
      return Ok(program);
    }
    var insertion := lexed[2].start + 1;
    LexSound(program, 0);
    assert IsPiece(lexed[2], program, 0);
    return Ok(program[..insertion] + declarations + "\n" + program[insertion..]);
  }

  lemma ScanStep(tokens: seq<string>, i: nat, gate: string)
    requires 3 <= i && i + 1 < |tokens|
    ensures Definitions(tokens[i..], gate) ==
      (if tokens[i] == "gate" && tokens[i + 1] == gate then 1 else 0) + Definitions(tokens[i + 1..], gate)
    ensures Calls(tokens[i - 1], tokens[i..], gate) ==
      (if tokens[i] != "gate" && tokens[i - 1] != "gate" && tokens[i] == gate && StartsOperands(tokens[i + 1]) then 1 else 0)
      + Calls(tokens[i], tokens[i + 1..], gate)
  {
    assert tokens[i..][1..] == tokens[i + 1..];
  }

  lemma ScanEnd(tokens: seq<string>, i: nat, gate: string)
    requires 3 <= i <= |tokens| <= i + 1
    ensures Definitions(tokens[i..], gate) == 0
    ensures Calls(tokens[i - 1], tokens[i..], gate) == 0
  {
  }

  lemma RenderAppend(a: Pieces, b: Pieces)
    ensures Render(a + b) == Render(a) + Render(b)
  {
    if a == [] {
      assert a + b == b;
    } else {
      assert (a + b)[1..] == a[1..] + b;
      RenderAppend(a[1..], b);
    }
  }

  lemma DeclarationsRendered(tokens: seq<string>, declarations: string)
    requires |tokens| >= 3
    requires declarations == (if Lacks(tokens, "ecr") then Render(ECR) else "") + (if Lacks(tokens, "rzz") then Render(RZZ) else "")
    ensures declarations == Render(Missing(tokens))
    ensures declarations == "" <==> Missing(tokens) == []
  {
    hide ECR_BODY, RZZ_BODY, ECR_SIGNATURE, RZZ_SIGNATURE, Lacks;
    RenderAppend(ECR, RZZ);
    assert Render([]) == "";
    assert ECR[0] == RZZ[0] == Gap('\n');
  }

  // ----- the tokens of a rewritten program

  /** The tokens of the supplied definitions. */
  function Supplied(tokens: seq<string>): seq<string>
    requires |tokens| >= 3
  {
    Visible(Missing(tokens))
  }

  lemma DeclarationsFit()
    ensures Fits(ECR) && Fits(RZZ) && Fits(ECR + RZZ)
    ensures ECR[0] == RZZ[0] == Gap('\n')
    ensures ECR[|ECR| - 1] == RZZ[|RZZ| - 1] == Mark('}')
    ensures (ECR + RZZ)[|ECR + RZZ| - 1] == Mark('}')
    ensures IsDeclaration(Visible(ECR), "ecr") && IsDeclaration(Visible(RZZ), "rzz")
    ensures Visible(ECR + RZZ) == Visible(ECR) + Visible(RZZ)
  {
    EcrClosed();
    RzzClosed();
    assert ECR_SIGNATURE[0] == SP && RZZ_SIGNATURE[0] == Mark('(');
    hide ECR_BODY, RZZ_BODY, ECR_SIGNATURE, RZZ_SIGNATURE, Closed, IsDeclaration;
    DeclarationTokens(Ecr, ECR_SIGNATURE, ECR_BODY);
    DeclarationTokens(Rzz, RZZ_SIGNATURE, RZZ_BODY);
    DeclarationFits(Ecr, ECR_SIGNATURE, ECR_BODY, []);
    DeclarationFits(Rzz, RZZ_SIGNATURE, RZZ_BODY, []);
    assert ECR + [] == ECR && RZZ + [] == RZZ;
    DeclarationFits(Ecr, ECR_SIGNATURE, ECR_BODY, RZZ);
    VisibleAppend(ECR, RZZ);
  }

  lemma MissingFits(tokens: seq<string>)
    requires |tokens| >= 3 && Missing(tokens) != []
    ensures Fits(Missing(tokens) + [Gap('\n')])
    ensures Missing(tokens)[0] == Gap('\n')
  {
    DeclarationsFit();
    hide ECR, RZZ, Lacks, Fits;
    LineFits(Missing(tokens));
  }

  lemma LineFits(p: Pieces)
    requires p != [] && Fits(p) && p[|p| - 1] == Mark('}')
    ensures Fits(p + [Gap('\n')])
  {
  }

  /** A token that starts with a semicolon is a semicolon. */
  lemma {:induction false} SemicolonAlone(s: string, at: nat, tokens: seq<Token>, i: nat)
    requires Lex(s, at) == Some(tokens) && i < |tokens| && tokens[i].text != "" && tokens[i].text[0] == ';'
    ensures tokens[i].text == ";"
    decreases |s|
  {
    hide Lex, First, Head;
    LexNonempty(s, at);
    LexProceeds(s, at);
    LexUnfold(s, at);
    var n := First(s).length;
    var head, later := Head(s, at), Lex(s[n..], at + n).value;
    if i < |head| {
      HeadSemicolon(s, at, i);
    } else {
      SemicolonAlone(s[n..], at + n, later, i - |head|);
    }
  }

  lemma HeadSemicolon(s: string, at: nat, i: nat)
    requires s != "" && !First(s).Unterminated?
    requires i < |Head(s, at)| && Head(s, at)[i].text != "" && Head(s, at)[i].text[0] == ';'
    ensures Head(s, at)[i].text == ";"
  {
    if First(s).Text? {
      assert s[..First(s).length][0] == s[0];
    }
  }

  /** Inserting pieces behind a semicolon that is token 2 inserts their
      visible texts behind token 2. */
  lemma WordsInserted(p: string, q: string, pieces: Pieces)
    requires Lex(p + q, 0).Some? && |Lex(p + q, 0).value| >= 3
    requires Lex(p + q, 0).value[2].start + 1 == |p|
    requires Lex(p + q, 0).value[2].text == ";"
    requires pieces != [] && Fits(pieces) && pieces[|pieces| - 1].Gap?
    ensures var words := Texts(Lex(p + q, 0).value);
      Words(p + (Render(pieces) + q)) == Some(words[..3] + Visible(pieces) + words[3..])
  {
    var tokens := Lex(p + q, 0).value;
    SplitAtSemicolon(p, q, q);
    SplitAtSemicolon(p, q, Render(pieces) + q);
    hide Lex, Fits, Words, Render, Visible;
    WordsJoined(p + q, 0, tokens[..3], q, |p|);
    WordsJoined(p + (Render(pieces) + q), 0, tokens[..3], Render(pieces) + q, |p|);
    WordsOfPieces(pieces, q);
    var words := Texts(tokens);
    WordsAre(p + q);
    assert Texts(tokens[..3]) == words[..3];
    hide Texts, Prepend;
    assert Words(q).value == words[3..];
    JoinedJoined(words[..3], Visible(pieces), Words(q));
  }

  /** Whatever follows the semicolon that is token 2, the tokens up to it stay. */
  lemma SplitAtSemicolon(p: string, q: string, tail: string)
    requires Lex(p + q, 0).Some? && |Lex(p + q, 0).value| >= 3
    requires Lex(p + q, 0).value[2].start + 1 == |p|
    requires Lex(p + q, 0).value[2].text == ";"
    ensures Lex(p + tail, 0) == Prepend(Lex(p + q, 0).value[..3], Lex(tail, |p|))
  {
    hide Lex, Prepend;
    Splice(p, q, tail, 0, 2);
  }

  lemma WordsAre(s: string)
    ensures Lex(s, 0).Some? ==> Words(s) == Some(Texts(Lex(s, 0).value))
    ensures Lex(s, 0).None? ==> Words(s) == None
  {
  }

  /** The tokens of the rewritten program: those of the program with the
      supplied definitions behind the version statement. A program whose third
      token is no semicolon is not given one. */
  lemma PreparedWords(program: string)
    requires Prepared(program).Ok?
    ensures Words(program).Some? && |Words(program).value| >= 3
    ensures var before, after := Words(program).value, Words(Prepared(program).value);
      && (before[2] == ";" ==> after == Some(before[..3] + Supplied(before) + before[3..]))
      && (before[2] != ";" && after.Some? ==> |after.value| >= 3 && after.value[2] != ";")
  {
    PreparedTokens(program);
    WordsAre(program);
    var tokens := Lex(program, 0).value;
    var words := Texts(tokens);
    var missing := Missing(words);
    if missing == [] {
      assert Prepared(program) == Ok(program);
      hide *;
      assert words == words[..3] + [] + words[3..];
      NothingSupplied(words);
    } else {
      PreparedParts(program);
      hide *;
      var at := tokens[2].start + 1;
      PiecesInserted(program[..at], program[at..], missing);
    }
  }

  lemma PreparedTokens(program: string)
    requires Prepared(program).Ok?
    ensures Lex(program, 0).Some? && |Lex(program, 0).value| >= 3
  {
    hide Lex, Missing, Render;
  }

  lemma NothingSupplied(tokens: seq<string>)
    requires |tokens| >= 3 && Missing(tokens) == []
    ensures Supplied(tokens) == []
  {
    hide Lacks;
    MissingNothing(tokens);
  }

  lemma PreparedParts(program: string)
    requires Lex(program, 0).Some? && |Lex(program, 0).value| >= 3 && Missing(Texts(Lex(program, 0).value)) != []
    ensures var at := Lex(program, 0).value[2].start + 1;
      && at <= |program| && program[..at] + program[at..] == program && |program[..at]| == at
      && Prepared(program) ==
           Ok(program[..at] + (Render(Missing(Texts(Lex(program, 0).value)) + [Gap('\n')]) + program[at..]))
  {
    hide Lex, Missing, Render;
    var tokens := Lex(program, 0).value;
    LexSound(program, 0);
    assert IsPiece(tokens[2], program, 0);
    var missing, at := Missing(Texts(tokens)), tokens[2].start + 1;
    RenderAppend(missing, [Gap('\n')]);
    RenderLine();
    assert program[..at] + Render(missing) + "\n" + program[at..] == program[..at] + ((Render(missing) + "\n") + program[at..]);
  }

  lemma PiecesInserted(p: string, q: string, missing: Pieces)
    requires Lex(p + q, 0).Some? && |Lex(p + q, 0).value| >= 3 && Lex(p + q, 0).value[2].start + 1 == |p|
    requires missing == Missing(Texts(Lex(p + q, 0).value)) && missing != []
    ensures var words := Texts(Lex(p + q, 0).value); var after := Words(p + (Render(missing + [Gap('\n')]) + q));
      && (words[2] == ";" ==> after == Some(words[..3] + Supplied(words) + words[3..]))
      && (words[2] != ";" && after.Some? ==> |after.value| >= 3 && after.value[2] != ";")
  {
    hide Lex, Lacks, Fits, Words, Render;
    var words := Texts(Lex(p + q, 0).value);
    var pieces := missing + [Gap('\n')];
    MissingFits(words);
    VisibleAppend(missing, [Gap('\n')]);
    RenderLine();
    if words[2] == ";" {
      WordsInserted(p, q, pieces);
      assert Visible(pieces) == Supplied(words);
    } else {
      MissingGap(words);
      NotSemicolon(p, q, pieces);
    }
  }

  lemma MissingGap(tokens: seq<string>)
    requires |tokens| >= 3 && Missing(tokens) != []
    ensures Missing(tokens)[0] == Gap('\n')
  {
    hide Lacks, ECR_BODY, RZZ_BODY, ECR_SIGNATURE, RZZ_SIGNATURE;
    assert ECR[0] == RZZ[0] == Gap('\n');
  }

  lemma RenderLine()
    ensures Render([Gap('\n')]) == "\n" && Visible([Gap('\n')]) == []
  {
    assert [Gap('\n')][1..] == [];
  }

  lemma NotSemicolon(p: string, q: string, pieces: Pieces)
    requires Lex(p + q, 0).Some? && |Lex(p + q, 0).value| >= 3
    requires Lex(p + q, 0).value[2].start + 1 == |p|
    requires Lex(p + q, 0).value[2].text != ";"
    requires pieces != [] && pieces[0] == Gap('\n')
    ensures var after := Words(p + (Render(pieces) + q));
      after.Some? ==> |after.value| >= 3 && after.value[2] != ";"
  {
    var s' := p + (Render(pieces) + q);
    assert (Render(pieces) + q)[0] == '\n';
    Splice(p, q, Render(pieces) + q, 0, 2);
    if Lex(s', 0).Some? && Lex(s', 0).value[2].text == ";" {
      SemicolonAlone(p + q, 0, Lex(p + q, 0).value, 2);
    }
  }

  // ----- the layout is left alone

  lemma {:induction false} BodyLengthOf(body: seq<string>, rest: seq<string>)
    requires AllPlain(body)
    ensures BodyLength(body + ["}"] + rest, 1) == Some(|body| + 1)
  {
    var tokens := body + ["}"] + rest;
    if body == [] {
      assert tokens[0] == "}";
    } else {
      assert tokens[1..] == body[1..] + ["}"] + rest;
      BodyLengthOf(body[1..], rest);
    }
  }

  lemma {:induction false} GateLengthOf(signature: seq<string>, body: seq<string>, rest: seq<string>)
    requires AllPlain(body) && forall i :: 0 <= i < |signature| ==> signature[i] != "{"
    ensures GateLength(signature + ["{"] + body + ["}"] + rest) == Some(|signature| + |body| + 2)
  {
    var tokens := signature + ["{"] + body + ["}"] + rest;
    if signature == [] {
      assert tokens[1..] == body + ["}"] + rest;
      BodyLengthOf(body, rest);
    } else {
      assert tokens[1..] == signature[1..] + ["{"] + body + ["}"] + rest;
      GateLengthOf(signature[1..], body, rest);
    }
  }

  lemma DeclarationSkipped(declaration: seq<string>, gate: string, rest: seq<string>, registers: seq<Register>)
    requires IsDeclaration(declaration, gate) && gate != "{"
    ensures Statements(declaration + rest, 0, registers) == Statements(rest, 0, registers)
  {
    var signature, body :| AllPlain(signature) && AllPlain(body) && declaration == ["gate", gate] + signature + ["{"] + body + ["}"];
    var tokens := declaration + rest;
    GateLengthOf([gate] + signature, body, rest);
    assert tokens[1..] == [gate] + signature + ["{"] + body + ["}"] + rest;
    assert tokens[|declaration|..] == rest;
    assert tokens[0] == "gate";
    assert Statement(tokens, 0, registers) == Ok(Scope(|declaration|, 0, registers));
  }

  lemma BothSkipped(ecr: seq<string>, rzz: seq<string>, rest: seq<string>)
    requires IsDeclaration(ecr, "ecr") && IsDeclaration(rzz, "rzz")
    ensures Statements(ecr + rzz + rest, 0, []) == Statements(rest, 0, [])
  {
    hide Statements, IsDeclaration;
    DeclarationSkipped(rzz, "rzz", rest, []);
    DeclarationSkipped(ecr, "ecr", rzz + rest, []);
    assert (ecr + rzz) + rest == ecr + (rzz + rest);
  }

  lemma SuppliedSkipped(tokens: seq<string>, rest: seq<string>)
    requires |tokens| >= 3
    ensures Statements(Supplied(tokens) + rest, 0, []) == Statements(rest, 0, [])
  {
    assert Visible([]) + rest == rest;
    hide ECR, RZZ, Lacks, Fits, Visible, Statements, IsDeclaration;
    DeclarationsFit();
    DeclarationSkipped(Visible(ECR), "ecr", rest, []);
    DeclarationSkipped(Visible(RZZ), "rzz", rest, []);
    BothSkipped(Visible(ECR), Visible(RZZ), rest);
  }

  /** The rewrite preserves the layout, and the error of a program without one. */
  lemma RewritePreservesLayout(program: string)
    requires Prepared(program).Ok?
    ensures Layout(Prepared(program).value) == Layout(program)
  {
    hide Prepared, Statements, Supplied;
    PreparedWords(program);
    var before, after := Words(program).value, Words(Prepared(program).value);
    if before[2] == ";" {
      SuppliedSkipped(before, before[3..]);
      assert after.value[3..] == Supplied(before) + before[3..];
      assert after.value[..3] == before[..3];
      assert forall i :: 0 <= i < 3 ==> after.value[i] == after.value[..3][i] == before[..3][i] == before[i];
    }
  }

  // ----- the second rewrite changes nothing

  /** Tokens that neither start a definition nor name the two gates. */
  ghost predicate Quiet(tokens: seq<string>) {
    forall i :: 0 <= i < |tokens| ==> tokens[i] !in {"gate", "ecr", "rzz"}
  }

  lemma {:induction false} QuietSkipped(previous: string, quiet: seq<string>, rest: seq<string>, gate: string)
    requires quiet != [] && Quiet(quiet) && gate in {"ecr", "rzz"}
    ensures Definitions(quiet + rest, gate) == Definitions(rest, gate)
    ensures Calls(previous, quiet + rest, gate) == Calls("}", rest, gate)
    decreases |quiet|
  {
    assert (quiet + rest)[0] == quiet[0] && (quiet + rest)[1..] == quiet[1..] + rest;
    if |quiet| == 1 {
      assert quiet[1..] + rest == rest;
      PreviousQuiet(quiet[0], "}", rest, gate);
    } else {
      QuietSkipped(quiet[0], quiet[1..], rest, gate);
    }
  }

  lemma PreviousQuiet(a: string, b: string, rest: seq<string>, gate: string)
    requires a != "gate" && b != "gate"
    ensures Calls(a, rest, gate) == Calls(b, rest, gate)
  {
  }

  /** A declaration adds one definition of its gate and no call. */
  lemma DeclarationCounted(declaration: seq<string>, declared: string, rest: seq<string>, gate: string)
    requires IsDeclaration(declaration, declared) && declared != "gate" && gate in {"ecr", "rzz"}
    ensures Definitions(declaration + rest, gate) == (if gate == declared then 1 else 0) + Definitions(rest, gate)
    ensures Calls("}", declaration + rest, gate) == Calls("}", rest, gate)
  {
    hide Definitions, Calls, Quiet, IsDeclaration;
    var quiet := QuietPart(declaration, declared);
    assert (["gate", declared] + quiet) + rest == ["gate", declared] + (quiet + rest);
    HeadCounted(declared, quiet, rest, gate);
    QuietSkipped(declared, quiet, rest, gate);
  }

  lemma QuietPart(declaration: seq<string>, declared: string) returns (quiet: seq<string>)
    requires IsDeclaration(declaration, declared)
    ensures quiet != [] && Quiet(quiet) && declaration == ["gate", declared] + quiet
  {
    var signature, body :| AllPlain(signature) && AllPlain(body) && declaration == ["gate", declared] + signature + ["{"] + body + ["}"];
    quiet := signature + (["{"] + (body + ["}"]));
    assert declaration == ["gate", declared] + quiet;
  }

  lemma HeadCounted(declared: string, quiet: seq<string>, rest: seq<string>, gate: string)
    requires declared != "gate" && quiet != [] && gate != "gate"
    ensures Definitions(["gate", declared] + (quiet + rest), gate) == (if gate == declared then 1 else 0) + Definitions(quiet + rest, gate)
    ensures Calls("}", ["gate", declared] + (quiet + rest), gate) == Calls(declared, quiet + rest, gate)
  {
    var tokens := ["gate", declared] + (quiet + rest);
    assert tokens[1..][1..] == quiet + rest;
  }

  lemma BothCounted(ecr: seq<string>, rzz: seq<string>, rest: seq<string>, gate: string)
    requires IsDeclaration(ecr, "ecr") && IsDeclaration(rzz, "rzz") && gate in {"ecr", "rzz"}
    ensures Definitions(ecr + rzz + rest, gate) == 1 + Definitions(rest, gate)
    ensures Calls("}", ecr + rzz + rest, gate) == Calls("}", rest, gate)
  {
    hide Calls, Definitions, IsDeclaration;
    DeclarationCounted(rzz, "rzz", rest, gate);
    DeclarationCounted(ecr, "ecr", rzz + rest, gate);
    assert (ecr + rzz) + rest == ecr + (rzz + rest);
  }

  lemma SuppliedCounted(tokens: seq<string>, rest: seq<string>, gate: string)
    requires |tokens| >= 3 && gate in {"ecr", "rzz"}
    ensures Definitions(Supplied(tokens) + rest, gate) == (if Lacks(tokens, gate) then 1 else 0) + Definitions(rest, gate)
    ensures Calls("}", Supplied(tokens) + rest, gate) == Calls("}", rest, gate)
  {
    assert Visible([]) + rest == rest;
    hide ECR, RZZ, Lacks, Fits, Visible, Calls, Definitions, IsDeclaration;
    DeclarationsFit();
    DeclarationCounted(Visible(ECR), "ecr", rest, gate);
    DeclarationCounted(Visible(RZZ), "rzz", rest, gate);
    BothCounted(Visible(ECR), Visible(RZZ), rest, gate);
  }

  /** In the result every called gate is defined, gates the program defines are
      not declared again, and there are as many calls as before. */
  lemma RewriteSuppliesDefinitions(program: string, gate: string)
    requires Prepared(program).Ok? && Words(program).Some? && |Words(program).value| >= 3
    requires Words(program).value[2] == ";" && gate in {"ecr", "rzz"}
    ensures Words(Prepared(program).value).Some? && |Words(Prepared(program).value).value| >= 3
    ensures var before, after := Words(program).value, Words(Prepared(program).value).value;
      && after[2] == ";"
      && Calls(";", after[3..], gate) == Calls(";", before[3..], gate)
      && Definitions(after[3..], gate) == (if Lacks(before, gate) then 1 else Definitions(before[3..], gate))
      && (Calls(";", after[3..], gate) > 0 ==> Definitions(after[3..], gate) > 0)
  {
    hide Prepared, Supplied, Definitions, Calls;
    PreparedWords(program);
    var before, after := Words(program).value, Words(Prepared(program).value).value;
    assert after[3..] == Supplied(before) + before[3..];
    assert after[2] == after[..3][2] == before[..3][2] == before[2];
    SuppliedCounted(before, before[3..], gate);
    PreviousQuiet(";", "}", before[3..], gate);
    PreviousQuiet(";", "}", after[3..], gate);
  }

  /** A program of at least three tokens is never refused, and the result is the
      program with one insertion, behind the character that starts the third
      token; nothing is inserted exactly when no called gate lacks a definition. */
  lemma RewriteInserts(program: string)
    ensures Prepared(program).Ok? <==> Words(program).Some? && |Words(program).value| >= 3
    ensures Prepared(program).Err? ==> Prepared(program) == Err(InvalidArgument)
    ensures Prepared(program).Ok? ==>
      && Lex(program, 0).Some? && |Lex(program, 0).value| >= 3
      && var at := Lex(program, 0).value[2].start + 1; var words := Words(program).value;
      && at <= |program|
      && exists inserted :: Prepared(program).value == program[..at] + inserted + program[at..]
           && (inserted == "" <==> !Lacks(words, "ecr") && !Lacks(words, "rzz"))
  {
    hide Lex, Lacks, Render;
    WordsAre(program);
    if Prepared(program).Ok? {
      var tokens := Lex(program, 0).value;
      LexSound(program, 0);
      assert IsPiece(tokens[2], program, 0);
      var at := tokens[2].start + 1;
      var missing := Missing(Texts(tokens));
      var inserted := if missing == [] then "" else Render(missing) + "\n";
      MissingNothing(Texts(tokens));
      assert Prepared(program).value == program[..at] + inserted + program[at..];
    }
  }

  lemma MissingNothing(tokens: seq<string>)
    requires |tokens| >= 3
    ensures Missing(tokens) == [] <==> !Lacks(tokens, "ecr") && !Lacks(tokens, "rzz")
  {
    hide Lacks, ECR_BODY, RZZ_BODY, ECR_SIGNATURE, RZZ_SIGNATURE;
    assert ECR[0] == RZZ[0] == Gap('\n');
  }

  /** The rewrite is idempotent wherever the version statement ends as it should. */
  lemma RewriteIdempotent(program: string)
    requires Prepared(program).Ok?
    requires Words(program).Some? && |Words(program).value| >= 3 && Words(program).value[2] == ";"
    ensures Prepared(Prepared(program).value) == Prepared(program)
  {
    RewriteSuppliesDefinitions(program, "ecr");
    RewriteSuppliesDefinitions(program, "rzz");
    hide Calls, Definitions, Lex;
    WordsAre(Prepared(program).value);
  }

  lemma LaidOutHasSemicolon(program: string)
    requires Layout(program).Ok?
    ensures Prepared(program).Ok?
    ensures Words(program).Some? && |Words(program).value| >= 3 && Words(program).value[2] == ";"
  {
    hide Lex, Statements, Missing;
  }
}
