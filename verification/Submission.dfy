/** Exactly when a submission freezes its handle (src/Job.cpp): once the request is
    attempted, and never because the submitted text could not be built. */
module Submission {
  import opened Common
  import opened JsonModel
  import opened Base64
  import opened Lexer
  import opened Declarations
  import opened Program
  import opened Layouts
  import opened Rewrite
  import opened Qpy
  import opened QpyLayout
  import opened Utf8
  import opened JobSpec
  import opened Retrieval
  import opened JobRuns

  // ----- attempted or untouched

  /** A submission freezes the handle exactly when its text can be built; if not,
      it is an error and the handle is as configurable as before. */
  lemma FrozenByAttempt(lib: Library, s: JobState, answer: Answers)
    ensures Submit(lib, s, answer).state.attempted <==> s.attempted || SubmissionBody(lib, s).Ok?
    ensures SubmissionBody(lib, s).Err? ==>
      Submit(lib, s, answer) == Step(s, Err(SubmissionBody(lib, s).error), [])
    ensures Sound(lib, s) && !s.attempted && SubmissionBody(lib, s).Err? ==> Configurable(Submit(lib, s, answer).state)
  {
    hide SubmissionBody, Fetched, Configured, IsIdentifier;
  }

  // ----- which text can be built

  /** Strings and keys are well-formed UTF-8 throughout. */
  ghost predicate Utf8Json(j: Json) {
    match j
    case Str(s) => IsUtf8(s)
    case Arr(items) => forall i :: 0 <= i < |items| ==> Utf8Json(items[i])
    case Obj(fields) => forall key :: key in fields ==> IsUtf8(key) && Utf8Json(fields[key])
    case _ => true
  }

  /** The JSON library dumps exactly the values whose strings are well-formed. */
  ghost predicate DumpsUtf8(lib: Library) {
    forall j :: lib.dump(j).Some? <==> Utf8Json(j)
  }

  /** Every program can be transported: QPY programs compress, and OpenQASM programs
      never fail. */
  ghost predicate AllCompress(lib: Library, s: JobState) {
    s.format == Some(QpyFile) ==> forall k :: 0 <= k < |s.programs| ==> lib.zlib.compress(s.programs[k]).Packed?
  }

  lemma CircuitExact(lib: Library, format: Format, source: string, qubits: nat)
    requires LayoutOf(format, source, qubits).Ok? && (format == Qasm3 || format == QpyFile)
    ensures Circuit(lib, format, source).Ok? <==> (format == QpyFile ==> lib.zlib.compress(source).Packed?)
  {
    if format == QpyFile {
      EmptyHasNoLayout(qubits);
      hide QpyRegisters;
    } else {
      LaidOutHasSemicolon(source);
      hide Layout, Prepared;
    }
  }

  lemma {:induction false} PubsExact(lib: Library, format: Format, sources: seq<string>, shots: nat, qubits: nat)
    requires format == Qasm3 || format == QpyFile
    requires forall k :: 0 <= k < |sources| ==> LayoutOf(format, sources[k], qubits).Ok?
    ensures Pubs(lib, format, sources, shots).Ok? <==>
      (format == QpyFile ==> forall k :: 0 <= k < |sources| ==> lib.zlib.compress(sources[k]).Packed?)
    ensures Pubs(lib, format, sources, shots).Ok? ==>
      forall k :: 0 <= k < |sources| ==>
        && Circuit(lib, format, sources[k]).Ok?
        && Pubs(lib, format, sources, shots).value[k] == Arr([Circuit(lib, format, sources[k]).value, Null, Int(shots)])
  {
    hide Circuit, LayoutOf;
    if sources != [] {
      var n := |sources| - 1;
      PubsExact(lib, format, sources[..n], shots, qubits);
      assert forall k :: 0 <= k < n ==> sources[..n][k] == sources[k];
      CircuitExact(lib, format, sources[n], qubits);
    }
  }

  /** For a configured handle, the text can be built exactly when every QPY program
      compresses and the payload dumps. */
  lemma BuildsExactly(lib: Library, s: JobState)
    requires Configured(lib, s) && Configurable(s) && s.format.Some?
    ensures Payload(lib, s).Ok? <==> AllCompress(lib, s)
    ensures SubmissionBody(lib, s).Ok? <==> AllCompress(lib, s) && lib.dump(Payload(lib, s).value).Some?
  {
    hide Pubs, LayoutOf, ExecutorShots, SamplerParams, Envelope;
    if s.format == Some(Executor) {
      ExecutorParses(lib, s.programs[0]);
    } else {
      PubsExact(lib, s.format.value, s.programs, s.shots, s.qubits);
    }
  }

  lemma ExecutorParses(lib: Library, source: string)
    requires ExecutorShots(lib, source).Ok?
    ensures lib.parse(source).Some?
  {
  }

  // ----- which strings the text holds

  lemma EncodedAscii(bytes: seq<Byte>)
    ensures IsAscii(Encoded(bytes))
  {
    var digits :| EncodesBy(bytes, digits, Encoded(bytes));
    hide Encoded;
    forall i | 0 <= i < |digits| ensures ByteOf(Letters(digits)[i]) < 0x80 {
      LetterAscii(digits[i]);
    }
  }

  lemma LetterAscii(digit: Digit)
    ensures ByteOf(Letter(digit)) < 0x80
  {
  }

  lemma {:induction false} RenderAscii(p: Pieces)
    requires forall i :: 0 <= i < |p| ==> p[i].Valid()
    ensures IsAscii(Render(p))
  {
    if p != [] {
      RenderAscii(p[1..]);
      PieceAscii(p[0]);
    }
  }

  lemma PieceAscii(piece: Piece)
    requires piece.Valid()
    ensures IsAscii(piece.Spell())
  {
    if piece.Word? {
      hide Spelling;
      assert forall k :: 0 <= k < |Spelling(piece.name)| ==> InWord(Spelling(piece.name)[k]);
    }
  }

  /** The rewrite of a program is well-formed UTF-8 exactly when the program is. */
  lemma RewriteUtf8(program: string)
    requires Layout(program).Ok? && Prepared(program).Ok?
    ensures IsUtf8(Prepared(program).value) <==> IsUtf8(program)
  {
    LaidOutHasSemicolon(program);
    PreparedTokens(program);
    WordsAre(program);
    var tokens := Lex(program, 0).value;
    var missing := Missing(Texts(tokens));
    if missing == [] {
      assert Prepared(program) == Ok(program);
    } else {
      PreparedParts(program);
      LexSound(program, 0);
      MissingFits(Texts(tokens));
      InsertedUtf8(program, tokens[2].start + 1, missing + [Gap('\n')]);
    }
  }

  lemma InsertedUtf8(program: string, at: nat, pieces: Pieces)
    requires 0 < at <= |program| && program[at - 1] == ';' && program[..at] + program[at..] == program
    requires Fits(pieces) && pieces != [] && pieces[|pieces| - 1] == Gap('\n')
    ensures IsUtf8(program[..at] + (Render(pieces) + program[at..])) <==> IsUtf8(program)
  {
    hide IsUtf8, Render, Fits;
    var p, q, inserted := program[..at], program[at..], Render(pieces);
    RenderedLine(pieces);
    AsciiIsUtf8(inserted);
    Utf8Concat(p, q);
    Utf8Concat(p, inserted + q);
    Utf8Concat(inserted, q);
  }

  lemma RenderedLine(pieces: Pieces)
    requires Fits(pieces) && pieces != [] && pieces[|pieces| - 1] == Gap('\n')
    ensures IsAscii(Render(pieces)) && Render(pieces) != "" && Render(pieces)[|Render(pieces)| - 1] == '\n'
  {
    hide IsAscii;
    RenderAscii(pieces);
    RenderAppend(pieces[..|pieces| - 1], [Gap('\n')]);
    assert pieces == pieces[..|pieces| - 1] + [Gap('\n')];
  }

  /** Plain text, as every fixed string of the payload is. */
  predicate IsPlainText(s: string) {
    forall i :: 0 <= i < |s| ==> ' ' <= s[i] <= '~'
  }

  lemma PlainUtf8(s: string)
    requires IsPlainText(s)
    ensures IsUtf8(s)
  {
    assert IsAscii(s);
    AsciiIsUtf8(s);
  }

  lemma CircuitUtf8(lib: Library, format: Format, source: string, qubits: nat)
    requires LayoutOf(format, source, qubits).Ok? && (format == Qasm3 || format == QpyFile) && Circuit(lib, format, source).Ok?
    ensures Utf8Json(Circuit(lib, format, source).value) <==> (format == Qasm3 ==> IsUtf8(source))
  {
    hide IsUtf8, IsAscii;
    if format == Qasm3 {
      hide Layout, Prepared;
      RewriteUtf8(source);
    } else {
      hide QpyRegisters, Encoded;
      var encoded := Encoded(lib.zlib.compress(source).bytes);
      EncodedAscii(lib.zlib.compress(source).bytes);
      AsciiIsUtf8(encoded);
      EncodedCircuitUtf8(encoded);
    }
  }

  lemma EncodedCircuitUtf8(encoded: string)
    requires IsUtf8(encoded)
    ensures Utf8Json(Obj(map["__type__" := Str("QuantumCircuit"), "__value__" := Str(encoded)]))
  {
    hide IsUtf8;
    PlainUtf8("QuantumCircuit");
    FixedUtf8(map["__type__" := Str("QuantumCircuit"), "__value__" := Str(encoded)]);
  }

  lemma PubUtf8(circuit: Json, shots: nat)
    ensures Utf8Json(Arr([circuit, Null, Int(shots)])) <==> Utf8Json(circuit)
  {
    var pub := Arr([circuit, Null, Int(shots)]);
    assert pub.items[0] == circuit && pub.items[1] == Null && pub.items[2] == Int(shots);
  }

  /** The options that dynamical decoupling accepts are all ASCII. */
  lemma OptionsUtf8(options: map<string, Json>)
    requires forall key :: key in options ==> IsOption(key, options[key])
    ensures Utf8Json(Obj(options))
  {
    forall key | key in options ensures IsUtf8(key) && Utf8Json(options[key]) {
      OptionUtf8(key, options[key]);
    }
  }

  lemma OptionUtf8(key: string, value: Json)
    requires IsOption(key, value)
    ensures IsUtf8(key) && Utf8Json(value)
  {
    hide IsUtf8;
    OptionPlain(key, value);
    PlainUtf8(key);
    if value.Str? {
      PlainUtf8(value.s);
    }
  }

  lemma OptionPlain(key: string, value: Json)
    requires IsOption(key, value)
    ensures IsPlainText(key) && (value.Str? ==> IsPlainText(value.s)) && (value.Str? || value.Bool?)
  {
  }

  lemma FixedUtf8(fields: map<string, Json>)
    requires forall key :: key in fields ==> IsPlainText(key)
    ensures Utf8Json(Obj(fields)) <==> forall key :: key in fields ==> Utf8Json(fields[key])
  {
    hide IsUtf8, IsPlainText;
    forall key | key in fields ensures IsUtf8(key) {
      PlainUtf8(key);
    }
  }

  lemma ExecutionUtf8()
    ensures Utf8Json(Obj(map["meas_type" := Str("classified")]))
    ensures Utf8Json(Obj(map["enable_gates" := Bool(false), "enable_measure" := Bool(false)]))
  {
    hide IsUtf8;
    PlainUtf8("classified");
    FixedUtf8(map["meas_type" := Str("classified")]);
    FixedUtf8(map["enable_gates" := Bool(false), "enable_measure" := Bool(false)]);
  }

  lemma SamplerOptionsUtf8(execution: Json, options: Json, twirling: Json)
    requires Utf8Json(execution) && Utf8Json(options) && Utf8Json(twirling)
    ensures Utf8Json(Obj(map["execution" := execution, "dynamical_decoupling" := options, "twirling" := twirling]))
  {
    hide IsUtf8, Utf8Json;
    FixedUtf8(map["execution" := execution, "dynamical_decoupling" := options, "twirling" := twirling]);
  }

  lemma ParamsUtf8(s: JobState, pubs: seq<Json>)
    requires OptionsValid(s)
    ensures Utf8Json(SamplerParams(s, pubs)) <==> forall k :: 0 <= k < |pubs| ==> Utf8Json(pubs[k])
  {
    hide IsUtf8, IsOption;
    OptionsUtf8(s.dynamicalDecoupling);
    ExecutionUtf8();
    assert Utf8Json(Arr(pubs)) <==> forall k :: 0 <= k < |pubs| ==> Utf8Json(pubs[k]);
    assert Utf8Json(Int(2)) && Utf8Json(Bool(false));
    hide Utf8Json;
    var execution, twirling := Obj(map["meas_type" := Str("classified")]), Obj(map["enable_gates" := Bool(false), "enable_measure" := Bool(false)]);
    SamplerOptionsUtf8(execution, Obj(s.dynamicalDecoupling), twirling);
    var options := Obj(map["execution" := execution, "dynamical_decoupling" := Obj(s.dynamicalDecoupling), "twirling" := twirling]);
    SamplerFieldsUtf8(Arr(pubs), options);
  }

  lemma SamplerFieldsUtf8(pubs: Json, options: Json)
    requires Utf8Json(options) && Utf8Json(Int(2)) && Utf8Json(Bool(false))
    ensures Utf8Json(Obj(map["version" := Int(2), "support_qiskit" := Bool(false), "pubs" := pubs, "options" := options])) <==> Utf8Json(pubs)
  {
    hide IsUtf8, Utf8Json;
    var fields := map["version" := Int(2), "support_qiskit" := Bool(false), "pubs" := pubs, "options" := options];
    FixedUtf8(fields);
    assert fields["pubs"] == pubs;
  }

  lemma EnvelopeUtf8(s: JobState, program: string, params: Json)
    requires IsPlainText(program)
    ensures Utf8Json(Envelope(s, program, params)) <==> IsUtf8(s.backend) && Utf8Json(params)
  {
    hide IsUtf8;
    PlainUtf8(program);
    assert Utf8Json(Str(program)) && (Utf8Json(Str(s.backend)) <==> IsUtf8(s.backend)) && Utf8Json(Int(s.maxExecutionTime));
    EnvelopeFieldsUtf8(Str(program), Str(s.backend), Int(s.maxExecutionTime), params);
  }

  lemma EnvelopeFieldsUtf8(program: Json, backend: Json, cost: Json, params: Json)
    requires Utf8Json(program) && Utf8Json(cost)
    ensures Utf8Json(Obj(map["program_id" := program, "backend" := backend, "cost" := cost, "params" := params])) <==>
      Utf8Json(backend) && Utf8Json(params)
  {
    hide IsUtf8, Utf8Json;
    var fields := map["program_id" := program, "backend" := backend, "cost" := cost, "params" := params];
    FixedUtf8(fields);
    assert fields["backend"] == backend && fields["params"] == params;
  }

  // ----- the exact condition

  /** What a caller can check of the programs: OpenQASM programs are well-formed
      UTF-8, comments included, QPY programs compress, and an Executor program
      holds well-formed strings. */
  ghost predicate Submittable(lib: Library, s: JobState)
    requires Configured(lib, s) && s.format.Some?
  {
    match s.format.value
    case Qasm3 => forall k :: 0 <= k < |s.programs| ==> IsUtf8(s.programs[k])
    case QpyFile => forall k :: 0 <= k < |s.programs| ==> lib.zlib.compress(s.programs[k]).Packed?
    case _ => lib.parse(s.programs[0]).Some? && Utf8Json(lib.parse(s.programs[0]).value)
  }

  lemma SamplerUtf8(lib: Library, s: JobState)
    requires Sound(lib, s) && (s.format == Some(Qasm3) || s.format == Some(QpyFile)) && Payload(lib, s).Ok?
    ensures Utf8Json(Payload(lib, s).value) <==>
      IsUtf8(s.backend) && (s.format == Some(Qasm3) ==> forall k :: 0 <= k < |s.programs| ==> IsUtf8(s.programs[k]))
  {
    hide IsUtf8, Pubs, LayoutOf, Circuit, Envelope, SamplerParams, Utf8Json, IsOption;
    var format := s.format.value;
    PubsExact(lib, format, s.programs, s.shots, s.qubits);
    var pubs := Pubs(lib, format, s.programs, s.shots).value;
    ParamsUtf8(s, pubs);
    EnvelopeUtf8(s, "sampler", SamplerParams(s, pubs));
    forall k | 0 <= k < |s.programs|
      ensures Utf8Json(pubs[k]) <==> (format == Qasm3 ==> IsUtf8(s.programs[k]))
    {
      PubUtf8(Circuit(lib, format, s.programs[k]).value, s.shots);
      CircuitUtf8(lib, format, s.programs[k], s.qubits);
    }
  }

  lemma BuildsWhenSubmittable(lib: Library, s: JobState)
    requires Sound(lib, s) && Configurable(s) && s.format.Some? && DumpsUtf8(lib)
    ensures Configured(lib, s)
    ensures SubmissionBody(lib, s).Ok? <==> IsUtf8(s.backend) && Submittable(lib, s)
  {
    hide IsUtf8, SubmissionBody, Pubs, LayoutOf, Envelope, SamplerParams, Utf8Json, IsOption;
    BuildsExactly(lib, s);
    if s.format == Some(Executor) {
      ExecutorParses(lib, s.programs[0]);
      EnvelopeUtf8(s, "executor", lib.parse(s.programs[0]).value);
    } else if AllCompress(lib, s) {
      SamplerUtf8(lib, s);
    }
  }

  /** A handle that is frozen or has no programs has no text. */
  lemma NothingToBuild(lib: Library, s: JobState)
    requires Sound(lib, s)
    ensures Configured(lib, s) && (Configurable(s) <==> !s.attempted)
    ensures s.attempted || s.format.None? ==> SubmissionBody(lib, s) == Err(BadState)
  {
    hide Configured, Payload;
  }

  /** A submission freezes a handle exactly when it was frozen before, or has
      programs, a backend whose name is well-formed UTF-8, and programs that are
      submittable. */
  lemma FrozenExactly(lib: Library, s: JobState, answer: Answers)
    requires Sound(lib, s) && DumpsUtf8(lib)
    ensures Configured(lib, s)
    ensures Submit(lib, s, answer).state.attempted <==>
      s.attempted || (s.format.Some? && IsUtf8(s.backend) && Submittable(lib, s))
    ensures !Submit(lib, s, answer).state.attempted ==>
      Submit(lib, s, answer).result.Err? && Submit(lib, s, answer).state == s && Submit(lib, s, answer).asks == []
  {
    hide IsUtf8, Submit, SubmissionBody, Submittable, Sound, Configured, DumpsUtf8;
    NothingToBuild(lib, s);
    FrozenByAttempt(lib, s, answer);
    if !s.attempted && s.format.Some? {
      BuildsWhenSubmittable(lib, s);
    }
  }

  // ----- a submission that fails and does not freeze

  /** A valid program whose comment holds a byte that UTF-8 never uses. */
  const DECLARED: string := "OPENQASM" + (" " + ("3" + (";" + Declaring([Register("c", 1)]))))
  const BROKEN: string := "//" + [0xFF as char] + "\n" + DECLARED

  lemma CommentWords(text: string, rest: string)
    requires '\n' !in text
    ensures Words("//" + text + "\n" + rest) == Words(rest)
  {
    var s := "//" + text + "\n" + rest;
    var n := |text| + 2;
    assert s[n] == '\n' && s[n..] == "\n" + rest && s[n..][1..] == rest;
    assert forall k :: 2 <= k < n ==> s[k] == text[k - 2];
    assert LineEnd(s, 2) == n;
    assert First(s) == Skip(n) && First(s[n..]) == Skip(1);
    JoinedJoined([], [], Words(rest));
    hide First, Words;
    WordsUnfold(s);
    WordsUnfold(s[n..]);
  }

  lemma BrokenLayout()
    ensures Layout(BROKEN) == Ok([Register("c", 1)]) && !IsUtf8(BROKEN)
  {
    var registers := [Register("c", 1)];
    assert Partial(registers) by {
      assert registers[0] == Register("c", 1);
    }
    LayoutOfDeclaring(registers);
    hide Layout, Declaring;
    CommentWords([0xFF as char], DECLARED);
    SameWordsSameLayout(BROKEN, DECLARED);
    NeverUtf8("\n" + DECLARED);
    assert BROKEN == "//" + ([0xFF as char] + ("\n" + DECLARED));
  }

  lemma NeverUtf8(rest: string)
    ensures !IsUtf8("//" + ([0xFF as char] + rest))
  {
    var bad := [0xFF as char] + rest;
    assert !IsUtf8(bad) by {
      assert bad[0] == 0xFF as char;
    }
    hide IsUtf8;
    Utf8Concat("//", bad);
  }

  lemma SameWordsSameLayout(a: string, b: string)
    requires Words(a) == Words(b)
    ensures Layout(a) == Layout(b)
  {
    hide Words;
  }

  /** The handle that has accepted one OpenQASM program. */
  function Holding(program: string): JobState {
    NewJob("ibm_backend", 1).(programs := [program], registers := [[Register("c", 1)]], format := Some(Qasm3))
  }

  lemma OneProgramAccepted(lib: Library, s: JobState, program: string)
    requires s == NewJob("ibm_backend", 1) || s == Holding(BROKEN)
    requires Layout(program) == Ok([Register("c", 1)])
    ensures WithPrograms(lib, s, Qasm3, [program]) == Ok(Holding(program))
  {
    hide Layout, DefaultDynamicalDecoupling;
    assert LayoutsMatch(Qasm3, [program], s.qubits, [[Register("c", 1)]]);
    LayoutsExact(Qasm3, [program], s.qubits, [[Register("c", 1)]]);
  }

  lemma DeclaredLayout()
    ensures Layout(DECLARED) == Ok([Register("c", 1)])
  {
    assert Partial([Register("c", 1)]) by {
      assert [Register("c", 1)][0] == Register("c", 1);
    }
    hide Layout, Declaring, Partial;
    LayoutOfDeclaring([Register("c", 1)]);
  }

  lemma HoldingSound(lib: Library)
    requires WithPrograms(lib, NewJob("ibm_backend", 1), Qasm3, [BROKEN]) == Ok(Holding(BROKEN))
    ensures Sound(lib, Holding(BROKEN)) && Configured(lib, Holding(BROKEN))
  {
    hide WithPrograms, Configured;
    NewJobSound(lib, "ibm_backend", 1);
    ProgramsKeep(lib, NewJob("ibm_backend", 1), Qasm3, [BROKEN]);
  }

  lemma HoldingCannotDump(lib: Library)
    requires Sound(lib, Holding(BROKEN)) && Configured(lib, Holding(BROKEN)) && DumpsUtf8(lib) && !IsUtf8(BROKEN)
    ensures Payload(lib, Holding(BROKEN)).Ok? && lib.dump(Payload(lib, Holding(BROKEN)).value) == None
  {
    hide Layout, IsUtf8, Payload, SubmissionBody, Sound, Configured, DefaultDynamicalDecoupling;
    var s := Holding(BROKEN);
    BuildsExactly(lib, s);
    SamplerUtf8(lib, s);
    assert s.programs[0] == BROKEN;
  }

  /** The documented promise that a failed submission freezes its handle fails here:
      the program is accepted, its payload does not dump, its submission is fatal,
      nothing is sent, and the handle stays as it was, ready for another program. */
  lemma FailedSubmissionStaysOpen(lib: Library, answer: Answers)
    requires DumpsUtf8(lib)
    ensures WithPrograms(lib, NewJob("ibm_backend", 1), Qasm3, [BROKEN]) == Ok(Holding(BROKEN))
    ensures Sound(lib, Holding(BROKEN))
    ensures Payload(lib, Holding(BROKEN)).Ok? && lib.dump(Payload(lib, Holding(BROKEN)).value) == None
    ensures Submit(lib, Holding(BROKEN), answer) == Step(Holding(BROKEN), Err(Fatal), [])
    ensures WithPrograms(lib, Holding(BROKEN), Qasm3, [DECLARED]) == Ok(Holding(DECLARED))
  {
    hide Layout, IsUtf8, Submit, Payload, Sound, Configured, DumpsUtf8, WithPrograms, DefaultDynamicalDecoupling;
    BrokenLayout();
    DeclaredLayout();
    OneProgramAccepted(lib, NewJob("ibm_backend", 1), BROKEN);
    OneProgramAccepted(lib, Holding(BROKEN), DECLARED);
    HoldingSound(lib);
    HoldingCannotDump(lib);
    FrozenByAttempt(lib, Holding(BROKEN), answer);
  }
}
