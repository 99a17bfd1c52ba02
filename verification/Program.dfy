/** The OpenQASM front end of src/Program.cpp: reading the classical layout of a
    program, and supplying the gate declarations a program lacks. */
module Program {
  import opened Common
  import opened Lexer

  // ----- single tokens

  /** The value of a decimal token that fits in 64 bits. */
  function Number(token: string): Result<nat> {
    if token == "" || !Digits(token) || Decimal(token) > SIZE_MAX then Err(InvalidArgument)
    else Ok(Decimal(token))
  }

  predicate Digits(token: string) {
    forall i :: 0 <= i < |token| ==> IsDigit(token[i])
  }

  function Decimal(token: string): nat
    requires Digits(token)
  {
    if token == "" then 0
    else 10 * Decimal(token[..|token| - 1]) + (token[|token| - 1] as int - '0' as int)
  }

  predicate IsName(token: string) {
    && token != ""
    && (IsAlpha(token[0]) || token[0] == '_')
    && forall i :: 0 <= i < |token| ==> StartsWord(token[i])
  }

  // ----- gate definitions

  function Inside(token: string, depth: nat): nat
    requires depth > 0
  {
    if token == "{" then depth + 1 else if token == "}" then depth - 1 else depth
  }

  /** The number of tokens up to and including the brace that closes `depth`
      open braces. */
  function BodyLength(tokens: seq<string>, depth: nat): (n: Option<nat>)
    ensures n.Some? ==> n.value <= |tokens|
  {
    if depth == 0 then Some(0)
    else if tokens == [] then None
    else
      match BodyLength(tokens[1..], Inside(tokens[0], depth))
      case None => None
      case Some(n) => Some(n + 1)
  }

  /** The number of tokens of a gate definition behind the word `gate`. */
  function GateLength(tokens: seq<string>): (n: Option<nat>)
    ensures n.Some? ==> n.value <= |tokens|
  {
    if tokens == [] then None
    else
      var later := if tokens[0] == "{" then BodyLength(tokens[1..], 1) else GateLength(tokens[1..]);
      match later
      case None => None
      case Some(n) => Some(n + 1)
  }

  method SkipGate(tokens: seq<string>, start: nat) returns (r: Result<nat>)
    requires start <= |tokens|
    ensures r == match GateLength(tokens[start..])
                 case None => Err(InvalidArgument)
                 case Some(n) => Ok(start + n)
  {
    hide GateLength, BodyLength;
    ghost var whole := Shifted(GateLength(tokens[start..]), start);
    var cursor := start;
    while cursor < |tokens| && tokens[cursor] != "{"
      invariant start <= cursor <= |tokens|
      invariant whole == Shifted(GateLength(tokens[cursor..]), cursor)
    {
      GateStep(tokens, cursor);
      cursor := cursor + 1;
    }
    GateStep(tokens, cursor);
    if cursor == |tokens| {
      return Err(InvalidArgument);
    }
    var depth := 1;
    while depth != 0
      invariant start <= cursor < |tokens|
      invariant whole == Shifted(BodyLength(tokens[cursor + 1..], depth), cursor + 1)
      decreases |tokens| - cursor
    {
      cursor := cursor + 1;
      BodyStep(tokens, cursor, depth);
      if cursor >= |tokens| {
        return Err(InvalidArgument);
      }
      if tokens[cursor] == "{" {
        depth := depth + 1;
      } else if tokens[cursor] == "}" {
        depth := depth - 1;
      }
    }
    BodyStep(tokens, cursor + 1, 0);
    return Ok(cursor + 1);
  }

  function Shifted(n: Option<nat>, offset: nat): Option<nat> {
    match n
    case None => None
    case Some(n) => Some(n + offset)
  }

  lemma GateStep(tokens: seq<string>, i: nat)
    requires i <= |tokens|
    ensures Shifted(GateLength(tokens[i..]), i) ==
      if i == |tokens| then None
      else if tokens[i] == "{" then Shifted(BodyLength(tokens[i + 1..], 1), i + 1)
      else Shifted(GateLength(tokens[i + 1..]), i + 1)
  {
    if i < |tokens| {
      assert tokens[i..][1..] == tokens[i + 1..];
    }
  }

  lemma BodyStep(tokens: seq<string>, i: nat, depth: nat)
    requires i <= |tokens|
    ensures Shifted(BodyLength(tokens[i..], depth), i) ==
      if depth == 0 then Some(i)
      else if i == |tokens| then None
      else Shifted(BodyLength(tokens[i + 1..], Inside(tokens[i], depth)), i + 1)
  {
    if i < |tokens| {
      assert tokens[i..][1..] == tokens[i + 1..];
    }
  }

  // ----- the classical layout

  /** What the tokens behind `bit` or `creg` declare: a name, a width, and how
      many tokens they take. */
  datatype Field = Field(name: string, width: nat, length: nat)

  function Get(tokens: seq<string>, i: nat): Result<string> {
    if i < |tokens| then Ok(tokens[i]) else Err(InvalidArgument)
  }

  function ReadField(tokens: seq<string>, legacy: bool): (r: Result<Field>)
    ensures r.Ok? ==> r.value.length <= |tokens|
  {
    var front := if legacy then 1 else 0;
    var first :- Get(tokens, 0);
    var opening :- Get(tokens, front);
    if opening == "[" then
      var digits :- Get(tokens, front + 1);
      var width :- Number(digits);
      var closing :- Get(tokens, front + 2);
      if closing != "]" then Err(InvalidArgument)
      else if legacy then Ok(Field(first, width, 4))
      else
        var name :- Get(tokens, 3);
        Ok(Field(name, width, 4))
    else if legacy then Err(InvalidArgument)
    else Ok(Field(opening, 1, 1))
  }

  /** What one statement does: the tokens it takes, the open braces and the
      declared registers behind it. */
  datatype Scope = Scope(length: nat, depth: nat, registers: seq<Register>)

  function Statement(tokens: seq<string>, depth: nat, registers: seq<Register>): (r: Result<Scope>)
    requires tokens != []
    ensures r.Ok? ==> 0 < r.value.length <= |tokens|
  {
    var token, rest := tokens[0], tokens[1..];
    if token == "gate" then
      if depth != 0 then Err(InvalidArgument)
      else
        match GateLength(rest)
        case None => Err(InvalidArgument)
        case Some(n) => Ok(Scope(n + 1, depth, registers))
    else if token == "{" then Ok(Scope(1, depth + 1, registers))
    else if token == "}" then
      if depth == 0 then Err(InvalidArgument) else Ok(Scope(1, depth - 1, registers))
    else if token == "include" then
      if depth != 0 then Err(NotSupported)
      else
        var file :- Get(rest, 0);
        if file != "\"stdgates.inc\"" then Err(NotSupported)
        else
          var end :- Get(rest, 1);
          if end != ";" then Err(NotSupported) else Ok(Scope(3, depth, registers))
    else if token == "bit" || token == "creg" then
      var field :- ReadField(rest, token == "creg");
      if token == "bit" && field.name == "(" then Ok(Scope(1 + field.length, depth, registers))
      else if depth != 0 then Err(NotSupported)
      else
        var end :- Get(rest, field.length);
        if Declarable(field, end, registers)
        then Ok(Scope(field.length + 2, depth, registers + [Register(field.name, field.width)]))
        else Err(InvalidArgument)
    else if token in {"input", "output", "pragma", "@"} then Err(NotSupported)
    else Ok(Scope(1, depth, registers))
  }

  /** The registers that the tokens declare when `registers` are declared
      already and `depth` braces are open. */
  function Statements(tokens: seq<string>, depth: nat, registers: seq<Register>): Result<seq<Register>>
    decreases |tokens|
  {
    if tokens == [] then
      if depth != 0 then Err(InvalidArgument)
      else if registers == [] then Err(NotSupported)
      else Ok(registers)
    else
      var after :- Statement(tokens, depth, registers);
      Statements(tokens[after.length..], after.depth, after.registers)
  }

  predicate Declarable(field: Field, end: string, registers: seq<Register>) {
    && end == ";"
    && field.width != 0
    && IsName(field.name)
    && field.name !in Names(registers)
    && TotalWidth(registers) + field.width <= SIZE_MAX
  }

  predicate IsHeader(tokens: seq<string>) {
    && |tokens| >= 3
    && tokens[0] == "OPENQASM"
    && tokens[1] in {"3", "3.0", "3.1"}
    && tokens[2] == ";"
  }

  /** The classical layout of a program, or why it has none. */
  function Layout(program: string): Result<seq<Register>> {
    match Words(program)
    case None => Err(InvalidArgument)
    case Some(tokens) =>
      if IsHeader(tokens) then Statements(tokens[3..], 0, []) else Err(InvalidArgument)
  }

  /** The variables of the reader's loop. */
  datatype Cursor = Cursor(index: nat, depth: nat, width: nat, names: set<string>, registers: seq<Register>) {
    ghost predicate Tracks() {
      && names == (set name | name in Names(registers))
      && width == TotalWidth(registers) <= SIZE_MAX
    }
  }

  method Next(tokens: seq<string>, cursor: nat) returns (r: Result<string>)
    ensures r == Get(tokens, cursor)
  {
    return if cursor < |tokens| then Ok(tokens[cursor]) else Err(InvalidArgument);
  }

  method Declared(tokens: seq<string>, start: nat, legacy: bool) returns (r: Result<Field>)
    requires start <= |tokens|
    ensures r == ReadField(tokens[start..], legacy)
  {
    var cursor := start;
    var name := "";
    if legacy {
      name :- Next(tokens, cursor);
      cursor := cursor + 1;
    }
    var field :- Next(tokens, cursor);
    cursor := cursor + 1;
    var count := 1;
    if field == "[" {
      var digits :- Next(tokens, cursor);
      count :- Number(digits);
      var closing :- Next(tokens, cursor + 1);
      if closing != "]" {
        return Err(InvalidArgument);
      }
      cursor := cursor + 2;
      if !legacy {
        name :- Next(tokens, cursor);
        cursor := cursor + 1;
      }
    } else {
      if legacy {
        return Err(InvalidArgument);
      }
      name := field;
    }
    return Ok(Field(name, count, cursor - start));
  }

  /** The checks behind the fields of a declaration, and what it declares. */
  method Declare(at: Cursor, index: nat, field: Field, end: string) returns (r: Result<Cursor>)
    requires at.Tracks()
    ensures Declarable(field, end, at.registers) ==>
      && r.Ok? && r.value.Tracks() && r.value.index == index && r.value.depth == at.depth
      && r.value.registers == at.registers + [Register(field.name, field.width)]
    ensures !Declarable(field, end, at.registers) ==> r == Err(InvalidArgument)
  {
    hide IsName, TotalWidth, Names;
    if end != ";" || field.width == 0 || !IsName(field.name) || field.name in at.names || field.width > SIZE_MAX - at.width {
      return Err(InvalidArgument);
    }
    var register := Register(field.name, field.width);
    TotalWidthAppend(at.registers, register);
    NamesAppend(at.registers, register);
    return Ok(Cursor(index, at.depth, at.width + register.width, at.names + {register.name}, at.registers + [register]));
  }

  lemma NamesAppend(registers: seq<Register>, last: Register)
    ensures Names(registers + [last]) == Names(registers) + [last.name]
  {
  }

  /** Reads one statement: one turn of the reader's loop. */
  method ReadStatement(tokens: seq<string>, at: Cursor) returns (r: Result<Cursor>)
    requires at.index < |tokens| && at.Tracks()
    ensures match Statement(tokens[at.index..], at.depth, at.registers)
            case Err(error) => r == Err(error)
            case Ok(after) =>
              && r.Ok? && r.value.Tracks()
              && r.value.index == at.index + after.length
              && r.value.depth == after.depth
              && r.value.registers == after.registers
  {
    hide GateLength, IsName, TotalWidth, Names;
    ghost var rest := tokens[at.index + 1..];
    assert tokens[at.index..][0] == tokens[at.index] && tokens[at.index..][1..] == rest;
    var token := tokens[at.index];
    var cursor := at.index + 1;
    if token == "gate" {
      if at.depth != 0 {
        return Err(InvalidArgument);
      }
      cursor :- SkipGate(tokens, cursor);
      return Ok(at.(index := cursor));
    } else if token == "{" {
      return Ok(at.(index := cursor, depth := at.depth + 1));
    } else if token == "}" {
      if at.depth == 0 {
        return Err(InvalidArgument);
      }
      return Ok(at.(index := cursor, depth := at.depth - 1));
    } else if token == "include" {
      if at.depth != 0 {
        return Err(NotSupported);
      }
      var file :- Next(tokens, cursor);
      if file != "\"stdgates.inc\"" {
        return Err(NotSupported);
      }
      var end :- Next(tokens, cursor + 1);
      if end != ";" {
        return Err(NotSupported);
      }
      return Ok(at.(index := cursor + 2));
    } else if token == "bit" || token == "creg" {
      var legacy := token == "creg";
      var field :- Declared(tokens, cursor, legacy);
      cursor := cursor + field.length;
      if !legacy && field.name == "(" {
        return Ok(at.(index := cursor));
      }
      if at.depth != 0 {
        return Err(NotSupported);
      }
      var end :- Next(tokens, cursor);
      r := Declare(at, cursor + 1, field, end);
      return r;
    } else if token == "input" || token == "output" || token == "pragma" || token == "@" {
      return Err(NotSupported);
    }
    return Ok(at.(index := cursor));
  }

  lemma StatementsStep(tokens: seq<string>, i: nat, depth: nat, registers: seq<Register>)
    requires i < |tokens|
    ensures match Statement(tokens[i..], depth, registers)
            case Err(error) => Statements(tokens[i..], depth, registers) == Err(error)
            case Ok(after) =>
              && i + after.length <= |tokens|
              && Statements(tokens[i..], depth, registers) == Statements(tokens[i + after.length..], after.depth, after.registers)
  {
    var after := Statement(tokens[i..], depth, registers);
    if after.Ok? {
      assert tokens[i..][after.value.length..] == tokens[i + after.value.length..];
    }
  }

  method OutputRegisters(program: string) returns (r: Result<seq<Register>>)
    ensures r == Layout(program)
  {
    var lexed :- Tokenize(program);
    var tokens := Texts(lexed);
    if !IsHeader(tokens) {
      return Err(InvalidArgument);
    }
    var at := Cursor(3, 0, 0, {}, []);
    while at.index < |tokens|
      invariant 3 <= at.index <= |tokens| && at.Tracks()
      invariant Layout(program) == Statements(tokens[at.index..], at.depth, at.registers)
      decreases |tokens| - at.index
    {
      hide Layout, Statement, Statements, IsHeader;
      StatementsStep(tokens, at.index, at.depth, at.registers);
      at :- ReadStatement(tokens, at);
    }
    if at.depth != 0 {
      return Err(InvalidArgument);
    }
    if at.registers == [] {
      return Err(NotSupported);
    }
    return Ok(at.registers);
  }
}
