# A model of the IBM QDMI device

The library turns quantum programs into IBM jobs, sends them over an
authenticated HTTP layer, and rebuilds the results. This project models that
logic in Dafny and proves what its documentation promises of it. `dafny verify
dfyconfig.toml` checks the whole project.

Operations that update state or loop are methods and classes proved against
functions; what the library promises is then proved about those functions, over
every input, every sequence of calls and every interleaving.

- **Programs** (`Lexer`, `Lexing`, `Declarations`, `Program`, `Layouts`,
  `LayoutExact`, `Rewrite`, `RewriteExact`): the OpenQASM lexer, the reader of
  classical layouts, which accepts exactly what a writer of items can write, and the
  rewrite that supplies missing gate definitions. The rewrite preserves every layout
  and is idempotent; both rest on the lexer factoring at the insertion point.
- **Transport** (`Base64`, `Qpy`, `QpyLayout`, `QpyExact`, `QpyRefused`): base64 of sections 3.5
  and 4 of RFC 4648 as a bijection, the doubling decompression loop, and the
  binary reader, which accepts exactly the files that partition the classical
  bits.
- **Results** (`Bits`, `Results`, `ResultsExact`): hexadecimal samples become
  positional bit strings and an ordered histogram, exactly.
- **Jobs** (`JobSpec`, `Job`, `Replies`, `SettersExact`, `SubmitExact`,
  `Submission`, `Utf8`, `Retrieval`, `RetrieveExact`, `RoundTrip`, `JobExact`,
  `JobRuns`, `Traffic`, `Handle`, `Wait`): `JobSpec` says what each operation does
  as a function of the handle and of the server's answers; the class `Job` does
  it, with the replies its requests really got. The `Exact` modules say the same of
  the server's documents, status codes and the handle's fields. A submission freezes
  its handle exactly when its text can be built, a handle submits at most once, a
  retrieved job gives the results of the submitted one, final states and results are
  for good, and waiting keeps its deadline.
- **Authentication** (`Http`, `Auth`, `TokenProtocol`, `TokenRuns`): the retry loop
  under one deadline with an arbitrary transport, the token protocol as a step
  system of any number of threads, and every call of the loop as a run of it.
- **Metadata** (`Metadata`, `MetadataLoops`, `MetadataSound`, `MetadataFields`,
  `MetadataExact`, `MetadataAccepts`, `MetadataTable`): three overlapping documents
  become one support table, accepted and read directly off the documents by an
  independent reference.
- **Handles** (`Registry`, `RegistryExact`, `DeviceRuns`, `Device`) and **locks**
  (`Locks`): what every entry point does, object lifetimes over any run of them, and
  freedom from deadlock.

JSON arrives parsed (`JsonModel`). The JSON library, zlib and the floating-point
conversions are parameters: functions of which a theorem assumes only what it
names, such as that decompression undoes compression for the programs at hand.
Transport answers, the passage of time and allocated addresses are arbitrary. A
failure is a result carrying the device's error code. Times are in nanoseconds.

Where code and documentation differ, the model follows the code.

- A failed submission is to freeze its handle (docs/api.md:251-252). In the code
  it does so exactly when the text of the request can be built
  (`Submission.FrozenByAttempt`, `Submission.FrozenExactly`);
  `Submission.FailedSubmissionStaysOpen` is an input for which it does not.
- Only a timeout of zero is to mean no deadline (docs/api.md:265-266). In the code
  a wait of as many whole seconds as the clock can still show has none either:
  `Wait.DeadlineRepresentable` says exactly when, `Wait.LongestWaitIsUnbounded`
  is such a wait.

## Model

| member | source | states |
|---|---|---|
| `Lexer.Scan` | src/Program.cpp:46-76 | The lexeme at a position: white space, line and block comments, strings with escapes, words with dots, single characters; an unclosed string or block comment is reported as such. |
| `Lexer.Tokenize` | src/Program.cpp:43-79 | The token loop fails exactly on an unclosed string or block comment and otherwise returns every token with its offset, as the recursive reference lexer gives them. |
| `Lexer.LexSound` | src/Program.cpp:43-79 | Tokens are nonempty pieces of the text, in order and without overlap. |
| `Lexer.LexShift` | src/Program.cpp:43-79 | Moving a text moves its tokens and leaves their texts alone, so lexing a suffix does not depend on what precedes it. |
| `Lexer.FirstLocal` | src/Program.cpp:46-76 | Two texts that agree on a prefix longer than the first lexeme start with the same lexeme. |
| `Lexer.Splice` | src/Program.cpp:145-149 | Locality at the insertion point: when new text is put behind the first character of token n, a semicolon token stays whole and lexing factors there; any other token keeps its first character as long as the new text starts with white space. |
| `Lexing.WordsOfWritten` | src/Program.cpp:43-79 | Whatever is written gives its own tokens: words, strings with any escapes, and single characters, with white space, line comments and block comments of any content between them. |
| `Lexing.WordsOfUnclosed` | src/Program.cpp:54-66 | A text that opens a block comment or a string and does not close it has no tokens, whatever comes before. |
| `Program.SkipGate` | src/Program.cpp:80-96 | Skips to the opening brace and past its matching closing brace; fails exactly when either is missing. |
| `Program.Declared` | src/Program.cpp:181-198 | The fields of a bit or creg declaration, or a bit cast, with the errors of each position. |
| `Program.Declare` | src/Program.cpp:200-204 | Adds a register exactly when its declaration ends as asked, its name is an identifier and new, and the running width stays within 64 bits. |
| `Program.ReadStatement` | src/Program.cpp:167-210 | One turn of the layout loop: gate definitions, scopes, includes, bit and creg declarations, bit casts and refused qualifiers, with each error code; the set of names and the running width always match the registers read so far. |
| `Program.OutputRegisters` | src/Program.cpp:153-214 | The whole layout reader computes the layout that the recursive reading of statements defines, including which error comes first. |
| `Layouts.LayoutSound` | src/Program.cpp:181-213 | An accepted layout is nonempty, its names are distinct identifiers, its widths are positive and their sum fits in 64 bits. |
| `Layouts.LayoutOfDeclaring` | src/Program.cpp:153-214 | Completeness: every such layout is read back, in declaration order, from the program that declares it. |
| `LayoutExact.LayoutExact` | src/Program.cpp:153-214 | A program has a given layout exactly when its tokens are one of the three version statements and a sequence of items that declare it: registers in any of the three forms, casts, the standard include, gate definitions with matching braces, nested blocks and other tokens, with every declaration outside all braces; the layout is not empty, names no register twice and fits in 64 bits. |
| `LayoutExact.LayoutOfWritten` | src/Program.cpp:43-214 | Completeness on text: such items, written with any white space, comments and strings around them, are read back as their layout. |
| `LayoutExact.LayoutRefused` | src/Program.cpp:153-214 | Which error a program without a layout gets: by its tokens, its header, or the first statement that offends behind items that do not. |
| `Declarations.EcrClosed` | src/Program.cpp:134-139 | In the inserted ecr definition every piece is lexed on its own, and inside it nothing is a brace, a gate keyword or one of the two gate names. |
| `Declarations.RzzClosed` | src/Program.cpp:140-144 | The same for the inserted rzz definition. |
| `Declarations.WordsOfPieces` | src/Program.cpp:134-149 | The inserted text lexes to exactly the visible words of its pieces, whatever follows it. |
| `Rewrite.DeclarationsFit` | src/Program.cpp:134-144 | The tokens of each inserted text are one definition of its gate with one pair of braces around plain tokens. |
| `Rewrite.DeclareNativeGates` | src/Program.cpp:115-151 | The scanning loop and the insertion compute the specified rewrite: a missing definition is supplied exactly for a gate that is called and not defined. |
| `Rewrite.Insert` | src/Program.cpp:145-150 | Inserts the missing declarations behind the version statement, or nothing. |
| `Rewrite.RewriteInserts` | src/Program.cpp:115-151 | The rewrite refuses only programs that do not lex or have fewer than three tokens; otherwise the result is the program with one contiguous insertion behind the character that starts the third token, empty exactly when nothing is missing. |
| `Rewrite.PreparedWords` | src/Program.cpp:145-149 | The tokens of the rewritten program are those of the program with the supplied definitions behind the version statement. |
| `Rewrite.RewritePreservesLayout` | src/Program.cpp:115-214 | For every program the rewrite accepts, the layout reader gives the same layout, or the same error, before and after it. |
| `Rewrite.RewriteSuppliesDefinitions` | src/Program.cpp:115-151 | After the rewrite every called ecr or rzz has a definition; one is added exactly when it was missing, and there are as many calls as before. |
| `Rewrite.RewriteIdempotent` | src/Program.cpp:115-151 | Rewriting twice is rewriting once, for every program whose version statement ends in a semicolon. |
| `Rewrite.LaidOutHasSemicolon` | src/Program.cpp:155-157 | Every program with a layout is such a program and is accepted by the rewrite. |
| `RewriteExact.RewriteExact` | src/Program.cpp:115-151 | Said of tokens and text alone: a gate is called where its name is not behind the word gate and an opening parenthesis, a dollar sign or an identifier follows; the text of each gate called and nowhere defined, and a line break, go behind the character that starts the third token; without such a gate the program stays as it is, and with fewer than three tokens it is refused. |
| `RewriteExact.CalledGatesDefined` | src/Program.cpp:115-151 | In the result of the rewrite every called gate stands behind the word gate somewhere; the calls are those of the program, and no definition is added without need. |
| `RewriteExact.InsertedTexts` | src/Program.cpp:134-144 | The two inserted definitions, character by character. |
| `Base64.EncodeBase64` | src/Qpy.cpp:138-152 | The loop over three-byte words writes the unique canonical text of sections 3.5 and 4 of RFC 4648. |
| `Base64.DecodeBase64` | src/Qpy.cpp:155-176 | Accepts exactly the canonical texts of nonempty byte strings and returns those bytes; the wrapping 32-bit accumulator agrees with unbounded arithmetic at every step. |
| `Base64.DecodeStep` | src/Qpy.cpp:169-174 | Each step keeps the bytes produced, with the pending bits behind them, equal to the number of the digits read. |
| `Base64.AlphabetExact` | src/Qpy.cpp:37-39 | The 64 digits are the letters A to Z and a to z, the digits 0 to 9, plus and slash, in this order. |
| `Base64.DecodingUnique` | src/Qpy.cpp:155-176 | No text encodes two byte strings. |
| `Base64.EncodingUnique` | src/Qpy.cpp:138-152 | No byte string has two canonical texts: nonzero padding bits and wrong padding are refused. |
| `Base64.Bijection` | src/Qpy.cpp:129-176 | Decoding undoes encoding, and an accepted text encodes what it decodes to. |
| `Qpy.EncodeQpy` | src/Qpy.cpp:129-153 | Refuses the empty program, passes on the two compression errors, and otherwise returns the base64 text of the compressed bytes. |
| `Qpy.DecodeQpy` | src/Qpy.cpp:155-194 | The decompression loop doubles its buffer while it is too small, terminates whatever the library answers, and maps each outcome to its error. |
| `Qpy.TransportRoundTrip` | src/Qpy.cpp:129-194 | If decompression undoes compression, a transported program is restored exactly when a doubled buffer can hold it and is refused as out of memory otherwise; every program up to half the largest string is restored. |
| `Qpy.TransportExact` | src/Qpy.cpp:129-194 | Which program cannot be sent and why; and what is restored, or why not, from the first of the doubling buffers that is not too small. |
| `Qpy.Reader.Take` | src/Qpy.cpp:47-52 | Returns the next bytes or fails without consuming any; never reads past the input. |
| `Qpy.Reader.Integer` | src/Qpy.cpp:53-59 | The shift register holds the big-endian value of up to eight bytes without losing a bit. |
| `QpyLayout.ScanHeader` | src/Qpy.cpp:68-91 | Reads and checks the file header and the circuit header in the source's order. |
| `QpyLayout.ScanCircuit` | src/Qpy.cpp:78-91 | Reads and checks the circuit header and skips its name, phase and metadata. |
| `QpyLayout.ScanEntry` | src/Qpy.cpp:96-123 | Reads one register entry: quantum registers are skipped, classical ones must have a new nonempty UTF-8 name and list the next bits in order. |
| `QpyLayout.ReadQpyRegisters` | src/Qpy.cpp:66-127 | The reader's loop computes the layout that the recursive reading of entries defines. |
| `QpyExact.QpyExact` | src/Qpy.cpp:66-127 | A file has a given layout exactly when it can be written from a valid header and entries that declare those registers and list bits 0 to bits-1 in order with no gap or overlap. |
| `QpyExact.QpySound` | src/Qpy.cpp:92-126 | An accepted layout is nonempty, with distinct nonempty names, positive widths and a sum that fits in 64 bits. |
| `QpyRefused.HeaderRefused` | src/Qpy.cpp:68-76 | Another version, several circuits or a schedule is not supported; any other offence in the file header is an invalid argument. |
| `QpyRefused.CircuitRefused` | src/Qpy.cpp:78-88 | Standalone variables are not supported; a circuit without qubits or bits, or with more qubits than the backend, is an invalid argument. |
| `QpyRefused.EntryRefused` | src/Qpy.cpp:97-122 | Why a classical entry is refused: outside the circuit, of no bits or too many, under a name that is taken, or with a bad name. |
| `QpyRefused.BitsRefused` | src/Qpy.cpp:119-121 | A register whose bits are not the next ones is not supported, wherever the first such bit is. |
| `Utf8.Utf8Exact` | src/Qpy.cpp:108-113 | The names that the JSON library can dump are exactly the encodings of code points of section 3 of RFC 3629. |
| `Bits.ToBits` | src/Job.cpp:96-114 | The digit loop fails exactly on a malformed sample or a value of at least 2 to the width, and otherwise returns the binary numeral of the value in that many bits. |
| `Bits.Resize` | src/Job.cpp:108-113 | Cuts surplus zeros off the front or fills up with zeros, and refuses a 1 among the surplus. |
| `Bits.HexDigitExact` | src/Job.cpp:99-103 | A digit is its place among the sixteen, in either case. |
| `Bits.SampleExact` | src/Job.cpp:96-104 | A sample is the prefix 0x and one hexadecimal digit or more. |
| `Bits.BinaryValue` | src/Job.cpp:108-113 | The padded numeral has the asked width and the sample's value. |
| `Results.PrependColumn` | src/Job.cpp:135-147 | One register's loop puts its bits in front of every shot collected so far, or fails on a wrong width, count or sample. |
| `Results.Summarise` | src/Job.cpp:148-158 | Joining shots, counting them in the ordered map, and listing keys and counts. |
| `Results.DecodeResults` | src/Job.cpp:127-159 | The decoder's loops compute the specified results. |
| `ResultsExact.DecodedAccepts` | src/Job.cpp:130-141 | Decoding succeeds exactly on outputs with one entry a register that provide well-formed samples within the register's width, one a shot. |
| `ResultsExact.DecodedExact` | src/Job.cpp:127-159 | Splitting the shots on commas gives them back in order; each has the summed width and the sum of the register values shifted by the widths declared before; keys are strictly increasing in value, each count is that key's multiplicity, and counts sum to the shots. |
| `ResultsExact.LessIsBelow` | src/Job.cpp:149-153 | On bit strings of one width the map's string order is the numeric order. |
| `ResultsExact.SplitJoin` | src/Job.cpp:119-124 | A comma-separated list of nonempty values without commas splits back into those values. |
| `Job.Job.constructor` | src/Job.cpp:161-163 | A new handle: no identifier, no programs, 1024 shots, 60 seconds, created status, dynamical decoupling off. |
| `Job.Job.SetPrograms` | src/Job.cpp:185-228 | Checks state, support and every program before any field changes, then replaces programs, layouts, format and shots together; on failure nothing changes. |
| `Job.Job.ReadLayouts` | src/Job.cpp:214-221 | One layout a program, or the error of the first program without one. |
| `Job.Job.SetShots` | src/Job.cpp:229-235 | Sets positive shots within the execution limit for a Sampler job, or changes nothing. |
| `Job.Job.SetDynamicalDecoupling` | src/Job.cpp:236-258 | Replaces the options by the defaults overlaid with a fully valid object, or changes nothing. |
| `SettersExact.ProgramsExact` | src/Job.cpp:169-228 | Programs are accepted exactly by a handle never submitted, in a known format, within ten million executions for a Sampler or one program and no Sampler options for an Executor, when every one can be read; the handle then holds them, one layout each or the shots of the Executor document, and nothing cached. |
| `SettersExact.EnvelopeExact` | src/Job.cpp:192-212 | The Executor documents that are accepted and the shots each asks for; an unknown schema is not supported, any other fault an invalid argument. |
| `SettersExact.FirstUnreadable` | src/Job.cpp:215-221 | The first program that cannot be read gives the error. |
| `SettersExact.ProgramsEntryExact` | src/Device.cpp:510-541 | The order of the entry point's refusals; a probe changes nothing. |
| `SettersExact.ShotsExact` | src/Device.cpp:471-489 | Shots are set exactly on a handle never submitted, not for an Executor, positive, and within ten million executions. |
| `SettersExact.MaxExecutionTimeExact` | src/Device.cpp:490-496 | The seconds, from 1 to three hours, are stored on a handle never submitted. |
| `SettersExact.DynamicalDecouplingExact` | src/Job.cpp:236-258 | Options are accepted exactly when all are known and valid; the handle then holds each as given, or with its default. |
| `SettersExact.NewHandle` | src/Job.cpp:161-163 | Every field of a new handle. |
| `Job.Job.Submit` | src/Job.cpp:259-314 | Builds the body first; once the request is attempted the handle is marked and failed, and becomes submitted only when the answer carries a well-formed identifier and the same backend. Here and in every operation below, the answers are the replies that its requests got, one after the other. |
| `Job.Job.BuildPubs` | src/Job.cpp:290-300 | The entries of the parameters: each program encoded for transport with the shots, or the first encoding error. |
| `Job.Job.BuildBody` | src/Job.cpp:260-302 | The submitted text: the Sampler or Executor payload dumped, or the error that prevents it, with nothing changed. |
| `Submission.FrozenByAttempt` | src/Job.cpp:259-305 | A submission freezes its handle exactly when its text can be built; if not, it fails with the error of the text, sends nothing and leaves every field, so a configurable handle stays configurable. |
| `Submission.BuildsExactly` | src/Job.cpp:260-302 | The text of a configured handle can be built exactly when every QPY program compresses and the payload dumps; an OpenQASM program never fails before the dump. |
| `Submission.RewriteUtf8` | src/Program.cpp:134-149 | The rewrite of a program that has a layout is well-formed UTF-8 exactly when the program is. |
| `Submission.SamplerUtf8` | src/Job.cpp:269-302 | Every string of a Sampler payload is well-formed UTF-8 exactly when the backend name is and, for OpenQASM, every program is, comments included; QPY programs always are once encoded. |
| `Submission.FrozenExactly` | src/Job.cpp:259-305 | If the JSON library dumps exactly well-formed strings, a submission of any handle leaves it frozen exactly when it was frozen before, or has programs, a well-formed backend name and programs that can be sent: OpenQASM programs are well-formed, QPY programs compress, or the Executor program holds well-formed strings. Otherwise it fails and changes and sends nothing. |
| `Submission.FailedSubmissionStaysOpen` | src/Job.cpp:302-305 | The failing input: a program with the byte 0xFF in a comment is accepted, its submission is fatal and sends nothing, and the handle accepts another program afterwards. |
| `SubmitExact.PayloadSent` | src/Job.cpp:262-301 | What is sent: the backend, the execution time as the cost, and for a Sampler the version, every program in order as a circuit without bindings and with the shots, the handle's dynamical decoupling, classified measurement and no twirling; for an Executor its parsed program. |
| `SubmitExact.SubmitExact` | src/Job.cpp:259-314 | A handle that may be configured and has programs sends that payload once and is marked; it is submitted exactly when a 200 document names a well-formed identifier and its backend, keeps a good identifier with another backend, and otherwise has failed with the error of the reply; without a payload text it stays as it is. |
| `Job.Job.Retrieve` | src/Job.cpp:315-375 | Builds the handle a job document describes, or reports the first check that fails. |
| `Job.Job.Describe` | src/Job.cpp:318-333 | The checks on a job document and the configuration it gives. |
| `Job.Job.SetSampler` | src/Job.cpp:336-371 | The checks on a Sampler's parameters and the configuration they give. |
| `Job.Job.ReadSources` | src/Job.cpp:349-369 | The programs of all entries, or the error of the first bad one. |
| `Job.Job.ReadSource` | src/Job.cpp:350-368 | One entry: three items, no bindings, the common shots and format, and the program decoded from transport. |
| `Job.Job.Check` | src/Job.cpp:376-384 | Asks for the status only with an identifier and a status that is not final, before the deadline given; only the status changes. |
| `Replies.FetchedExact` | src/Http.cpp:225-245 | A reply brings a document exactly when it is a 200 whose body parses; every other reply is reported by its status code. |
| `Replies.StatusExact` | src/Job.cpp:75-95 | Each status by the texts that report it; any other text is fatal. |
| `JobExact.CheckExact` | src/Job.cpp:376-384 | A handle with an identifier and no final status takes on exactly the status that the document about it reports, by its text; it stays as it is, with the error of the reply or a fatal one, when there is no such document. |
| `Job.Job.Cancel` | src/Job.cpp:385-405 | Every state and answer of a cancellation, including the poll after a conflict. |
| `JobExact.CancelExact` | src/Job.cpp:385-405 | By state and status code: nothing is asked when a cancellation can have no effect, a 204 cancels, a 409 lets the polled status decide, and any other reply is its error. |
| `Job.Job.Results` | src/Job.cpp:406-435 | Reads results only from a completed job, fills the cache only after the whole batch decodes, and answers from the cache afterwards. |
| `Job.Job.DecodeBatch` | src/Job.cpp:419-431 | Every program decoded with its own layout, or the first error. |
| `Job.Job.ExecutorResults` | src/Job.cpp:436-456 | The same for the result document of an Executor job. |
| `JobExact.FetchExact` | src/Job.cpp:406-435 | Results come only after a check that finds the job completed, from the cache if filled and else from the 200 document that holds one entry a program, each decoded with its program's layout; a 204 is a bad state. |
| `JobExact.ExecutorExact` | src/Job.cpp:436-456 | The same for the document of an Executor job, which must have the known schema and is kept as dumped. |
| `JobExact.PerformExact` | src/Device.cpp:545-672 | Each entry point on a submitted handle does what its operation does. |
| `Job.Job.Send` | src/Auth.cpp:236-286 | A request through the retry loop sends to its own resource only, a POST at most once and a GET at most four times, and nothing at or after the deadline; what it returns is the last response to that very request, or says that no time was left or that an exchange granted nothing. |
| `Retrieval.LayoutsExact` | src/Job.cpp:215-220 | Layouts are accepted together exactly when each program has one, and are those, in order. |
| `Retrieval.SamplerRoundTrip` | src/Job.cpp:336-371 | A Sampler's parameters describe the job they were made from: QPY programs come back identical, OpenQASM programs as the rewrite of the original, with the same layouts and shots; refused as out of memory exactly when a QPY program is beyond the doubling buffer. |
| `Retrieval.ExecutorRoundTrip` | src/Job.cpp:329-335 | An Executor's parameters describe the job they were made from. |
| `Retrieval.RetrieveInvertsSubmit` | src/Job.cpp:259-375 | If the server echoes the submitted parameters, a fresh handle with the same backend and qubit count is the twin of the submitted one: format, shots, every layout and the programs as sent, QPY programs identical and OpenQASM programs each the rewrite of its original; the one exception is a QPY program beyond the doubling buffer, and then retrieval is out of memory. |
| `Retrieval.TwinSeesTheSame` | src/Job.cpp:304-313 | After an accepted submission the submitted handle and its twin agree on everything results depend on. |
| `Retrieval.SameResults` | src/Job.cpp:406-456 | Handles that agree and see the same status get the same results, the same errors and the same caches from the same responses. |
| `RoundTrip.RetrievedGivesTheSameResults` | src/Job.cpp:259-456 | Submit, retrieve by the identifier, compare: if the server echoes what was sent, retrieval succeeds exactly when no QPY program is beyond the doubling buffer, and whenever the two handles then see the same status they give the same results or errors for every program and for Executor jobs. |
| `RetrieveExact.RetrieveExact` | src/Job.cpp:315-375 | A handle is retrieved exactly from a 200 document with this identifier and backend that is not private, reports a known status, and whose parameters describe the handle, each field said of the document; everything else is refused. |
| `RetrieveExact.SamplerExact` | src/Job.cpp:336-371 | A Sampler's parameters describe a handle exactly when version and client are known and every entry holds a program of one format with the same shots and no bindings, within ten million executions, that can be read. |
| `RetrieveExact.DescribedRefused` | src/Job.cpp:317-328 | Another job or backend is an invalid argument; another kind of program and a private job are not supported. |
| `JobRuns.AlwaysConfigured` | src/Job.cpp:115-118 | In every state any run of calls reaches, shots are positive; a Sampler job has programs times shots within ten million and one layout a program equal to its parse; an Executor job has one program, no layouts and no Sampler options; a cache belongs to a completed job and has one entry a program. |
| `JobRuns.SettingKeeps` | src/Device.cpp:471-541 | A failing setter leaves every field unchanged, a setter makes no request, and after submission no setter changes anything. |
| `JobRuns.RunKeeps` | src/Job.cpp:164-166 | Over any run the invariant holds, a submitted handle keeps its configuration and identifier, and nothing is sent before submission. |
| `JobRuns.AtMostOneSubmission` | src/Job.cpp:259-314 | Whatever is called and answered, a handle asks to submit at most once, and a retrieved handle never. |
| `JobRuns.FetchSettled` | src/Job.cpp:406-435 | A cache is filled only for a completed job with the decoded whole batch, and a result comes from the cache. |
| `JobRuns.FinalStatusIsForGood` | src/Job.cpp:376-384 | Seen between calls, completed, canceled and failed are absorbing and trigger no further status request. |
| `JobRuns.ResultsAreForGood` | src/Job.cpp:414-434 | Results once read are read again unchanged after any further calls, for every program, with no request at all. |
| `JobRuns.ExecutorResultIsForGood` | src/Job.cpp:443-455 | The result document of an Executor job, once read, is read again unchanged after any further calls with no request at all, from either entry point. |
| `Traffic.RequestCarries` | src/Auth.cpp:236-286 | The sends of one call go to its own resource and number at most one for a POST and four for a GET. |
| `Handle.SetProgramsEntry` | src/Device.cpp:510-541 | The entry point's checks and probe before setting programs; failures change nothing. |
| `Handle.SetShotsEntry` | src/Device.cpp:471-489 | The entry point's checks and probe before setting shots; failures change nothing. |
| `Handle.SetMaxExecutionTimeEntry` | src/Device.cpp:490-496 | Accepts 1 to 10800 seconds on a configurable handle, or changes nothing. |
| `Handle.SetDynamicalDecouplingEntry` | src/Device.cpp:497-503 | The entry point's checks and probe before setting dynamical decoupling; failures change nothing. |
| `Handle.Perform` | src/Device.cpp:471-672 | One call on a handle object does what the specification says, with the replies its requests got for answers, and sends no more than it may. |
| `Handle.Drive` | src/Device.cpp:471-672 | Any sequence of calls on a handle object follows a run of the specification, and the transport itself sees at most one submission POST, none on a handle that was retrieved or has submitted. |
| `Auth.GrantedSafe` | src/Auth.cpp:200-222 | A token is granted exactly for a 200 response with a nonempty bearer without line breaks and an integer lifetime of 1 to 86400 seconds; it is given up a tenth of its lifetime early, or a minute if that is less; every refusal has the error of its status code. |
| `Auth.Auth.Remaining` | src/Auth.cpp:178-185 | Fails at the deadline; otherwise a positive timeout that, added to the clock reading, ends less than a millisecond after the deadline. |
| `Auth.Auth.Refresh` | src/Auth.cpp:187-223 | One exchange with whatever time remains; the token expires as granted, counted from before the exchange. |
| `Auth.Auth.AcquireToken` | src/Auth.cpp:225-234 | Replaces the cached token only when it is absent, invalidated or expired, and only by the token just granted; any failure leaves it in place. |
| `Auth.Auth.Transmit` | src/Auth.cpp:240-256 | One attempt: a send with whatever time remains, or a timeout and nothing sent. |
| `Auth.Auth.Receive` | src/Auth.cpp:259-262 | A refusal costs the token that was used its validity and changes nothing else; any other response changes no token. |
| `Auth.Auth.Backoff` | src/Auth.cpp:277-284 | Sleeps the backoff when it fits in what remains, and otherwise says so without sleeping. |
| `Auth.Auth.Attempts` | src/Auth.cpp:257-286 | The loop that sends, renews a refused token once and retries transient failures twice. |
| `Auth.Auth.Request` | src/Auth.cpp:236-286 | The call starts at its first clock reading, and its limit is the earlier of the caller's deadline and one request timeout after the start, whatever the clock does. It terminates with at most four sends, two exchanges and two sleeps for a GET and one send for a POST; every exchange and send starts before the limit with a timeout as long as the session's timeout and the limit allow, ending less than a millisecond after it; a GET that answers 429, 500, 502, 503, 504 or a passing failure is given up only after two sleeps or when the next would reach the limit; every sleep follows such an answer and lasts 100 and then 200 milliseconds, or as long as the server asks if that is longer, ending before the limit when only the network and sleep take time; exactly the refused tokens are invalidated and none is used again; a GET is given up after a 401 only when a renewed token was refused too; the last response is returned, for a stated reason, and errors are explained. The call is a run of the token protocol. |
| `Auth.Auth.IsProtocolRun` | src/Auth.cpp:187-286 | Every sequential call is a run of one thread of the token protocol from an idle state with the same cached token: the steps show the exchanges, sends and sleeps of the call in order and at their times, count as many of each, and leave the same token in the cache with the same validity and expiry. |
| `Auth.Extend` | src/Auth.cpp:258-285 | What one more exchange, send or sleep adds to everything said of a call. |
| `TokenProtocol.RunsKeep` | src/Auth.cpp:187-286 | Over every interleaving: one mutex holder, a thread about to replace the cached token has found it dead, and only the cached token is alive. |
| `TokenProtocol.ExchangesMatchDeaths` | src/Auth.cpp:225-234 | Over every interleaving, granting exchanges number exactly the tokens that died, plus one when the cached token lives; all exchanges are accounted for, and at most one thread is in the mutex. |
| `TokenProtocol.ReplacedOnlyWhenDead` | src/Auth.cpp:230-233 | Over every interleaving, the cached token changes only by a granted exchange, and only when it is absent, refused or expired at that moment. |
| `TokenProtocol.RequestsBounded` | src/Auth.cpp:257-285 | Over every interleaving each thread's request keeps to its bounds on sends, exchanges and sleeps. |
| `TokenProtocol.ValidUntilRefused` | src/Auth.cpp:260-268 | In any run from any state, a token keeps its expiry and stays valid exactly until a request that used that very token is refused, however late. |
| `TokenProtocol.LiveTokenStays` | src/Auth.cpp:225-268 | Over every interleaving, a live token is the cached one and stays live and cached exactly until it is refused itself or expires; late refusals of older tokens and the failures of other threads do not touch it. |
| `TokenProtocol.OnlyGrantsReplace` | src/Auth.cpp:225-234 | In any run in which no exchange is granted, with any number of failed or abandoned ones, the cache stays as it is and no token appears. |
| `TokenProtocol.RefusedNeverResent` | src/Auth.cpp:260-268 | Over every interleaving, a request never sends the token the server last refused it, and that token is invalid for every thread. |
| `Locks.ProgramsOrdered` | src/Device.cpp:142-156 | Every entry point acquires nested mutexes only from session to registry, session to tokens, and job to tokens, and gives back exactly what it took. |
| `Locks.TransfersSerialized` | src/Device.cpp:568-680 | Everything a job call or wait transfers, it transfers under its job's mutex, and initialization under its session's. |
| `Locks.DeadlockFree` | src/Device.cpp:142-156 | For any number of threads making any calls, in any interleaving and with any failures, a mutex has one holder and while a call is pending some thread can take its next step. |
| `Locks.NeverStuck` | src/Device.cpp:568-680 | From any pending thread, following at most two waits leads to a thread that can step. |
| `Locks.RunsEnd` | src/Device.cpp:312-470 | Every step uses up work, so no run is longer than the work its calls contain. |
| `Wait.DeadlineRepresentable` | src/Device.cpp:622-629 | The deadline is a time the clock can represent: the last time when none is asked for; otherwise the requested seconds away exactly when one second more is representable too, or that time is the last one, and the last time if not. |
| `Wait.LongestWaitIsUnbounded` | src/Device.cpp:622-629 | The failing input: from the clock's origin a wait of 9223372036 seconds, whose end is representable, gets no deadline, while one second less gets its own. |
| `Wait.Poll` | src/Device.cpp:634-634 | One poll under the wait's deadline, at most four sends for the status, whose reply decides; a final or never submitted handle is answered without a request. |
| `Wait.Turn` | src/Device.cpp:632-637 | Locking the job and polling it, or finding that the mutex is not free before the deadline. |
| `Wait.Meanwhile` | src/Device.cpp:639-640 | While the waiting thread sleeps, other threads call the job in any way: the handle stays sound, a submitted handle keeps its identifier, and a final status stays. |
| `Wait.JobWait` | src/Device.cpp:620-646 | Terminates, whatever other threads call on the job between polls; success only in a final status that the last poll gave; failure only when the deadline is over, the handle was never submitted, or the last poll failed so; the waiting thread starts no request at or after the deadline, sends only status requests, at most four a poll, and polls at most timeout plus one times with a finite deadline; on a final or never submitted handle it sends nothing. |
| `MetadataLoops.ReadTuple` | src/Metadata.cpp:60-73 | The loop returns nonempty tuples of distinct indices below the qubit count and refuses everything else. |
| `MetadataLoops.ReadCoupling` | src/Metadata.cpp:141-149 | The coupling loop keeps each pair of distinct sites once, in order. |
| `MetadataLoops.AddTupleList` | src/Metadata.cpp:183-185 | Each tuple is added once and all have one arity. |
| `MetadataLoops.DefineOperation` | src/Metadata.cpp:162-187 | The one gate that names an operation defines it; a second one is refused. |
| `MetadataLoops.DefineGate` | src/Metadata.cpp:169-186 | Parameters must be strings and tuples well formed. |
| `MetadataLoops.ReadBasis` | src/Metadata.cpp:156-189 | Basis gates become operations with new nonempty names, each defined by at most one gate. |
| `MetadataLoops.ReadInstructions` | src/Metadata.cpp:192-217 | Measurement and reset on every site and branching are added once, unless they are basis gates. |
| `MetadataLoops.ReadQubitParameters` | src/Metadata.cpp:226-245 | The times, the fault and the readout that one qubit's parameters give. |
| `MetadataLoops.SurveyQubits` | src/Metadata.cpp:220-254 | Qubit properties set times, faults and readout calibrations. |
| `MetadataLoops.ReadGateEntry` | src/Metadata.cpp:274-296 | The tuple and the calibration of one gate. |
| `MetadataLoops.CollectGates` | src/Metadata.cpp:255-315 | Gate calibrations add tuples and calibrations, once each. |
| `MetadataLoops.Calibrated` | src/Metadata.cpp:275-313 | One entry: contradictions and repeats are refused; a readout is merged once, its values first. |
| `MetadataLoops.EraseFaults` | src/Metadata.cpp:316-330 | Erasing broken tuples and the calibrations without a tuple. |
| `MetadataLoops.ParseMetadata` | src/Metadata.cpp:124-332 | The nested loops compute the specified table, and every table returned is well formed. |
| `MetadataSound.TupleGood` | src/Metadata.cpp:60-73 | A tuple is nonempty and its entries are distinct and in range. |
| `MetadataSound.ParsedGood` | src/Metadata.cpp:124-332 | Every table has distinct operation names, in-range coupling pairs of distinct sites with no repeats, and per operation distinct tuples of its one arity with in-range distinct entries, and calibrations for its tuples only. |
| `MetadataAccepts.ParsedAccepted` | src/Metadata.cpp:124-332 | Exactly which documents are accepted: named backend, version and qubit count; a coupling map of pairs; basis gates with different names, each defined by at most one gate, properly; instructions; at most one readable list a qubit; and calibrations of the table's operations on configured tuples, or of one size, each tuple once. Every refusal is fatal. |
| `MetadataAccepts.CouplingAccepted` | src/Metadata.cpp:137-149 | The coupling map is accepted exactly when every item is a pair of different sites, and gives each pair once, in order and direction. |
| `MetadataAccepts.CollectAccepted` | src/Metadata.cpp:259-315 | Calibrations are accepted one after the other exactly when each fits the table and those before it. |
| `MetadataFields.IndexExact` | src/Metadata.cpp:52-59 | An index is an integer from 0 whose binary64 value is below two to the 64. |
| `MetadataFields.TupleExact` | src/Metadata.cpp:60-73 | The tuple of an array, said of its elements. |
| `MetadataFields.FlagExact` | src/Metadata.cpp:42-51 | A flag is a boolean or the number 0 or 1. |
| `MetadataFields.QubitExact` | src/Metadata.cpp:226-245 | A qubit's properties are read exactly when every parameter is named and every flag is one; times and readout length are those last given, the readout error the last that is valid, and any broken flag is a fault. |
| `MetadataFields.GateExact` | src/Metadata.cpp:272-296 | The same for a gate calibration: its tuple, and duration, fidelity and flag as last given. |
| `MetadataExact.ConfiguredExact` | src/Metadata.cpp:150-217 | An operation's configured tuples are the first occurrences in the list of the gate that defines it, all single sites for added measurement and reset, none for branching. |
| `MetadataExact.CollectExact` | src/Metadata.cpp:259-315 | After any number of calibrations each operation has its configured tuples, or the calibrated ones in order when it has none, no tuple is calibrated twice, and each calibration is its readout and its entry merged. |
| `MetadataExact.SupportExact` | src/Metadata.cpp:150-330 | The final support list of every operation is, in order, its configured tuples or else its calibrated tuples, minus exactly those that touch a faulty qubit or whose calibration is not operational; each has its merged calibration, readout values first. |
| `MetadataTable.TableExact` | src/Metadata.cpp:124-254 | What a table says besides its tuples, read off the documents: name, version, as many sites as qubits; the pairs of the coupling map once each, in order and direction; the operations by name, the basis gates in order and then measurement, reset and branching where first listed and not in the basis; and for every qubit with properties its times, fault and readout. |
| `MetadataTable.SignaturesExact` | src/Metadata.cpp:156-217 | An operation has as many parameters as its gate lists, none if added, and the arity of the tuples it has before faults are removed. |
| `Device.Registrar.DoInitialize` | src/Device.cpp:217-225 | Succeeds once until finalized. |
| `Device.Registrar.DoFinalize` | src/Device.cpp:226-236 | Refuses while anything is registered. |
| `Device.Registrar.SessionAlloc` | src/Device.cpp:237-249 | Registers a new session at an address not in use. |
| `Device.Registrar.SessionFree` | src/Device.cpp:250-259 | Unregisters the session; its memory goes once no job uses it; other handles do nothing. |
| `Device.Registrar.Release` | src/Device.cpp:74-83 | Exactly the sessions that neither the registry nor a job holds leave memory. |
| `Device.Registrar.SessionSetParameter` | src/Device.cpp:260-311 | Changes one setting of a session that is not ready, or nothing. |
| `Device.Registrar.SessionInit` | src/Device.cpp:312-349 | Resolves the session's settings, fetches the two documents of that backend and builds the table; a failure at any point changes nothing; success stores settings, table and handles together, site object i with index i. |
| `Device.Registrar.CreateDeviceJob` | src/Device.cpp:436-451 | Registers a job of a ready session at an address not in use. |
| `Device.Registrar.RetrieveDeviceJob` | src/Device.cpp:452-470 | The job holds its ready session while the server is asked, with the backend and number of qubits of that session, and any calls of other threads in between. It is registered with them exactly if the retrieval succeeds, its session then being in memory unchanged even if its handle was freed meanwhile; if not, it leaves memory and the error is passed on. |
| `Device.Registrar.JobFree` | src/Device.cpp:673-680 | Unregisters the job and frees the session if nothing else holds it. |
| `RegistryExact.FlagExact` | src/Device.cpp:217-236 | Initializing and finalizing by the device's flag and registered handles. |
| `RegistryExact.SessionsExact` | src/Device.cpp:237-259 | A new session with blank settings, and freeing one: memory keeps exactly the sessions that something holds. |
| `RegistryExact.SettingExact` | src/Device.cpp:260-311 | Each parameter sets its own field and mark, and nothing else, on a registered session that is not ready; a timeout is a decimal number of milliseconds from 1 to 2147483647. |
| `RegistryExact.TimeoutExact` | src/Auth.cpp:107-116 | The texts that are timeouts, and their values. |
| `RegistryExact.InitExact` | src/Device.cpp:312-349 | Initialization succeeds exactly when the settings resolve, both documents of that backend arrive, absent properties counting as none, and their table names the backend; what the session then holds, and which error comes first. |
| `RegistryExact.NewJobExact` | src/Device.cpp:436-470 | A job takes on its ready session, that session's backend and number of sites; it is registered at once when created. |
| `RegistryExact.JobsExact` | src/Device.cpp:452-680 | Ending a retrieval, freeing and using a job: which jobs are registered and which sessions stay in memory. |
| `Registry.EnterKeeps` | src/Device.cpp:217-470 | Every call, with a retrieval as two, keeps: exactly the sessions that are registered or used by a job in memory are in memory, sessions are well formed, jobs' sessions are ready, objects are at different addresses, and no session is registered before initialization. |
| `DeviceRuns.FinalizeEmpty` | src/Device.cpp:226-236 | Finalizing succeeds exactly on an initialized device with nothing registered; then the sessions left in memory are exactly those of retrievals under way, none if there are none. |
| `DeviceRuns.LateRegistration` | src/Device.cpp:452-470 | On a device that is not initialized, with nothing registered, a call registers a job exactly when it ends a retrieval that began earlier. |
| `DeviceRuns.RetrievalHolds` | src/Device.cpp:452-470 | Over any calls of other threads, a job being retrieved keeps its session ready and unchanged, and success registers it with that session while failure leaves no trace of it. |
| `DeviceRuns.UnregisteredIgnored` | src/Device.cpp:142-156 | A handle that is not registered is never acted on: frees do nothing and every other call is an invalid argument. |
| `DeviceRuns.ReadyFrozen` | src/Device.cpp:267-267 | A ready session never changes while it is in memory. |
| `DeviceRuns.SessionOutlivesHandle` | src/Device.cpp:62-71 | In any run, a job that is not freed, and whose retrieval does not fail, keeps its session alive and unchanged, even after the session's handle is freed. |
| `DeviceRuns.SiteHandles` | src/Device.cpp:206-212 | In any run, site handle i of a ready session stands for index i, no other address does, and a handle of another live session is refused. |
| `DeviceRuns.QueriesInRange` | src/Device.cpp:403-411 | In any run, every index the coupling and operation queries use into a session's site handles is valid. |

## Left out

- libcurl and cpr, TLS bundles, endpoint URLs, headers and forms: foreign calls; a response is an arbitrary value.
- JSON text: parsing and dumping are parameters, so duplicate keys, number formats and the text of error messages do not appear.
- zlib: compression and inflation are parameters with their documented outcomes; the bound on compressed sizes is not modelled.
- Resolution of credentials from files and the environment, and CRN parsing: initialization takes how a session's settings resolve as a function.
- Rounding in durations and fidelities: both conversions are parameters, so nothing is said about the numbers they give.
- Copying into caller buffers, size queries, null pointers, null terminators and enumeration ranges: one-branch checks.
- Fixed property strings and the thread's last diagnostic.
- Allocation failure, except where the decompression loop itself reports it.
- Locale and non-ASCII characters in the lexer: letters and digits are ASCII, as in the default locale.
- Bytes: a char of a program text stands for the byte of its code modulo 256, and theorems that need every char to be a byte say so.
- The scanning of Retry-After headers: the requested delay is an arbitrary number of milliseconds.
- Overflow of the clock in the retry loop: readings and delays are unbounded there; the deadline of a wait is computed in the clock's range.
- Device.Registrar.RetrieveDeviceJob: takes the outcome of asking the server as a function of the session's backend and number of qubits, because Job.Job.Retrieve models it.
- Auth.Auth.Request: does not model other threads replacing the token between its steps; TokenProtocol does, and Auth.Auth.IsProtocolRun says that the call is a run of one of its threads.
- Locks.DeadlockFree: does not model fairness, because mutexes promise none; it shows that some thread can step and that steps run out.
- Registry.EnterKeeps: does not model calls that overlap in time, other than retrievals, because each other entry point is one step there.
- The Python package, the Qiskit and PennyLane adapters and the simulator front end.
- The quantum meaning of the inserted gate bodies and of circuits.
