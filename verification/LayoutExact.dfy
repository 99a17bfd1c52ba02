/** Exactly which programs have a layout (src/Program.cpp): those whose tokens are a
    version statement and a sequence of items that this module can write. */
module LayoutExact {
  import opened Common
  import opened Lexer
  import opened Program
  import opened Layouts
  import opened Lexing

  // ----- what a program is made of

  /** A declaration of classical bits in one of its three forms, a cast, the
      standard include, a gate definition, a brace, or any other token. */
  datatype Item =
    | Bits(digits: string, name: string)    // bit[n] name;
    | OneBit(name: string)                  // bit name;
    | Creg(name: string, digits: string)    // creg name[n];
    | Cast                                  // bit(
    | WideCast(digits: string)              // bit[n](
    | StdGates                              // include "stdgates.inc";
    | GateDefinition(head: seq<string>, body: seq<string>)
    | Opening
    | Closing
    | Other(token: string)
  {
    function Tokens(): seq<string> {
      match this
      case Bits(digits, name) => ["bit", "[", digits, "]", name, ";"]
      case OneBit(name) => ["bit", name, ";"]
      case Creg(name, digits) => ["creg", name, "[", digits, "]", ";"]
      case Cast => ["bit", "("]
      case WideCast(digits) => ["bit", "[", digits, "]", "("]
      case StdGates => ["include", "\"stdgates.inc\"", ";"]
      case GateDefinition(head, body) => ["gate"] + head + ["{"] + body + ["}"]
      case Opening => ["{"]
      case Closing => ["}"]
      case Other(token) => [token]
    }

    predicate Fine() {
      match this
      case Bits(digits, name) => Numeral(digits) && Identifier(name)
      case OneBit(name) => Identifier(name)
      case Creg(name, digits) => Numeral(digits) && Identifier(name)
      case WideCast(digits) => Numeral(digits) && Value(digits) <= SIZE_MAX
      case GateDefinition(head, body) => "{" !in head && Balanced(body, 0)
      case Other(token) => token !in {"gate", "{", "}", "include", "bit", "creg", "input", "output", "pragma", "@"}
      case _ => true
    }

    /** The registers it declares. */
    function Declares(): seq<Register>
      requires Fine()
    {
      match this
      case Bits(digits, name) => [Register(name, Value(digits))]
      case OneBit(name) => [Register(name, 1)]
      case Creg(name, digits) => [Register(name, Value(digits))]
      case _ => []
    }

    /** Declarations, gate definitions and includes stand outside all braces. */
    predicate Outermost() {
      Bits? || OneBit? || Creg? || StdGates? || GateDefinition?
    }
  }

  predicate Numeral(digits: string) {
    digits != "" && forall i :: 0 <= i < |digits| ==> '0' <= digits[i] <= '9'
  }

  /** The value of decimal digits, read from the left behind a value. */
  function ValueFrom(seen: nat, digits: string): nat
    requires forall i :: 0 <= i < |digits| ==> '0' <= digits[i] <= '9'
    decreases |digits|
  {
    if digits == "" then seen else ValueFrom(10 * seen + (digits[0] as int - '0' as int), digits[1..])
  }

  function Value(digits: string): nat
    requires forall i :: 0 <= i < |digits| ==> '0' <= digits[i] <= '9'
  {
    ValueFrom(0, digits)
  }

  predicate Identifier(name: string) {
    && name != "" && !('0' <= name[0] <= '9')
    && forall i :: 0 <= i < |name| ==>
         'a' <= name[i] <= 'z' || 'A' <= name[i] <= 'Z' || '0' <= name[i] <= '9' || name[i] == '_'
  }

  /** Braces match when this many are open before. */
  predicate Balanced(tokens: seq<string>, depth: nat) {
    if tokens == [] then depth == 0
    else if tokens[0] == "{" then Balanced(tokens[1..], depth + 1)
    else if tokens[0] == "}" then depth > 0 && Balanced(tokens[1..], depth - 1)
    else Balanced(tokens[1..], depth)
  }

  function Spelling(items: seq<Item>): seq<string> {
    if items == [] then [] else items[0].Tokens() + Spelling(items[1..])
  }

  /** The braces open behind an item. */
  function Behind(item: Item, depth: nat): nat {
    if item.Opening? then depth + 1 else if item.Closing? && depth > 0 then depth - 1 else depth
  }

  predicate Stands(item: Item, depth: nat) {
    item.Fine() && (item.Outermost() ==> depth == 0) && (item.Closing? ==> depth > 0)
  }

  /** Braces match across the items, and what must stand outside them does. */
  predicate Nests(items: seq<Item>, depth: nat) {
    if items == [] then depth == 0 else Stands(items[0], depth) && Nests(items[1..], Behind(items[0], depth))
  }

  function Declared(items: seq<Item>): seq<Register>
    requires forall i :: 0 <= i < |items| ==> items[i].Fine()
  {
    if items == [] then [] else items[0].Declares() + Declared(items[1..])
  }

  lemma {:induction false} NestsFine(items: seq<Item>, depth: nat)
    requires Nests(items, depth)
    ensures forall i :: 0 <= i < |items| ==> items[i].Fine()
  {
    if items != [] {
      NestsFine(items[1..], Behind(items[0], depth));
      assert forall i :: 0 < i < |items| ==> items[i] == items[1..][i - 1];
    }
  }

  /** Distinct identifiers and positive widths whose sum fits in 64 bits. */
  ghost predicate Proper(registers: seq<Register>) {
    && (forall i :: 0 <= i < |registers| ==> Identifier(registers[i].name) && registers[i].width > 0)
    && (forall i, j :: 0 <= i < j < |registers| ==> registers[i].name != registers[j].name)
    && TotalWidth(registers) <= SIZE_MAX
  }

  // ----- small parts

  lemma IdentifierIsName(name: string)
    ensures IsName(name) <==> Identifier(name)
  {
  }

  lemma {:induction false} ValueFront(seen: nat, digits: string, last: char)
    requires '0' <= last <= '9' && forall i :: 0 <= i < |digits| ==> '0' <= digits[i] <= '9'
    ensures ValueFrom(seen, digits + [last]) == 10 * ValueFrom(seen, digits) + (last as int - '0' as int)
    decreases |digits|
  {
    if digits != "" {
      assert (digits + [last])[1..] == digits[1..] + [last];
      ValueFront(10 * seen + (digits[0] as int - '0' as int), digits[1..], last);
    } else {
      assert digits + [last] == [last] && [last][1..] == "";
    }
  }

  lemma {:induction false} DecimalIsValue(digits: string)
    requires forall i :: 0 <= i < |digits| ==> '0' <= digits[i] <= '9'
    ensures Digits(digits) && Decimal(digits) == Value(digits)
  {
    if digits != "" {
      var n := |digits| - 1;
      DecimalIsValue(digits[..n]);
      ValueFront(0, digits[..n], digits[n]);
      assert digits[..n] + [digits[n]] == digits;
    }
  }

  lemma NumberExact(digits: string, n: nat)
    ensures Number(digits) == Ok(n) <==> Numeral(digits) && Value(digits) == n && n <= SIZE_MAX
    ensures Number(digits).Err? ==> Number(digits) == Err(InvalidArgument)
  {
    if Numeral(digits) {
      DecimalIsValue(digits);
    }
  }

  lemma ProperIsPartial(registers: seq<Register>)
    ensures Proper(registers) <==> Partial(registers)
  {
    hide IsName, Identifier, TotalWidth;
    forall i | 0 <= i < |registers| ensures IsName(registers[i].name) <==> Identifier(registers[i].name) {
      IdentifierIsName(registers[i].name);
    }
    assert forall i :: 0 <= i < |registers| ==> Names(registers)[i] == registers[i].name;
  }

  // ----- gate definitions

  lemma {:induction false} BodyBalanced(body: seq<string>, depth: nat, rest: seq<string>)
    requires Balanced(body, depth)
    ensures BodyLength(body + ["}"] + rest, depth + 1) == Some(|body| + 1)
  {
    var tokens := body + ["}"] + rest;
    if body == [] {
      assert tokens[0] == "}";
      assert BodyLength(tokens[1..], 0) == Some(0);
    } else {
      assert tokens[1..] == body[1..] + ["}"] + rest;
      BodyBalanced(body[1..], if body[0] == "{" then depth + 1 else if body[0] == "}" then depth - 1 else depth, rest);
    }
  }

  lemma {:induction false} BalancedBody(tokens: seq<string>, depth: nat)
    requires BodyLength(tokens, depth + 1).Some?
    ensures var n := BodyLength(tokens, depth + 1).value;
      0 < n <= |tokens| && tokens[n - 1] == "}" && Balanced(tokens[..n - 1], depth)
  {
    var n := BodyLength(tokens, depth + 1).value;
    var inside := Inside(tokens[0], depth + 1);
    if inside > 0 {
      BalancedBody(tokens[1..], inside - 1);
      assert tokens[..n - 1][1..] == tokens[1..][..n - 2];
    } else {
      assert BodyLength(tokens[1..], 0) == Some(0);
    }
  }

  lemma {:induction false} GateRead(head: seq<string>, body: seq<string>, rest: seq<string>)
    requires "{" !in head && Balanced(body, 0)
    ensures GateLength(head + ["{"] + body + ["}"] + rest) == Some(|head| + |body| + 2)
  {
    var tokens := head + ["{"] + body + ["}"] + rest;
    if head == [] {
      assert tokens[1..] == body + ["}"] + rest;
      BodyBalanced(body, 0, rest);
    } else {
      assert tokens[1..] == head[1..] + ["{"] + body + ["}"] + rest;
      GateRead(head[1..], body, rest);
    }
  }

  lemma {:induction false} GateSplit(tokens: seq<string>) returns (head: seq<string>, body: seq<string>)
    requires GateLength(tokens).Some?
    ensures "{" !in head && Balanced(body, 0)
    ensures tokens[..GateLength(tokens).value] == head + ["{"] + body + ["}"]
  {
    var n := GateLength(tokens).value;
    if tokens[0] == "{" {
      BalancedBody(tokens[1..], 0);
      head, body := [], tokens[1..][..n - 2];
      assert tokens[..n] == ["{"] + tokens[1..][..n - 2] + [tokens[1..][n - 2]];
    } else {
      head, body := GateSplit(tokens[1..]);
      assert tokens[..n] == [tokens[0]] + tokens[1..][..n - 1];
      head := [tokens[0]] + head;
      assert tokens[..n] == head + ["{"] + body + ["}"];
    }
  }

  lemma GateItem(tokens: seq<string>) returns (item: Item)
    requires tokens != [] && tokens[0] == "gate" && GateLength(tokens[1..]).Some?
    ensures item.GateDefinition? && item.Fine() && item.Tokens() == tokens[..GateLength(tokens[1..]).value + 1]
  {
    var n := GateLength(tokens[1..]).value;
    var head, body := GateSplit(tokens[1..]);
    hide GateLength, Balanced;
    item := GateDefinition(head, body);
    assert tokens[..n + 1] == ["gate"] + tokens[1..][..n];
    assert item.Tokens() == ["gate"] + (head + ["{"] + body + ["}"]);
  }

  // ----- reading what was written

  predicate Declaration(item: Item) {
    item.Fine() && (item.Bits? || item.OneBit? || item.Creg?)
  }

  lemma ItemRead(item: Item, depth: nat, done: seq<Register>, rest: seq<string>)
    requires Stands(item, depth) && Proper(done + item.Declares())
    ensures item.Tokens() + rest != []
    ensures Statement(item.Tokens() + rest, depth, done) == Ok(Scope(|item.Tokens()|, Behind(item, depth), done + item.Declares()))
  {
    match item
    case Bits(_, _) => DeclarationRead(item, done, rest);
    case OneBit(_) => DeclarationRead(item, done, rest);
    case Creg(_, _) => DeclarationRead(item, done, rest);
    case GateDefinition(head, body) => GateItemRead(head, body, done, rest);
    case WideCast(digits) =>
      WideCastRead(digits, depth, done, rest);
      assert done + [] == done;
    case _ =>
      hide IsName, Identifier;
      OtherRead(item, depth, done, rest);
  }

  lemma OtherRead(item: Item, depth: nat, done: seq<Register>, rest: seq<string>)
    requires Stands(item, depth) && (item.Cast? || item.StdGates? || item.Opening? || item.Closing? || item.Other?)
    ensures Statement(item.Tokens() + rest, depth, done) == Ok(Scope(|item.Tokens()|, Behind(item, depth), done + item.Declares()))
  {
    var tokens := item.Tokens() + rest;
    assert tokens[1..] == item.Tokens()[1..] + rest;
    assert done + [] == done;
  }

  lemma WideCastRead(digits: string, depth: nat, done: seq<Register>, rest: seq<string>)
    requires WideCast(digits).Fine()
    ensures Statement(WideCast(digits).Tokens() + rest, depth, done) == Ok(Scope(5, depth, done))
  {
    NumberExact(digits, Value(digits));
    hide Number, Numeral, Value;
    var tokens := WideCast(digits).Tokens() + rest;
    assert tokens[1..] == ["[", digits, "]", "("] + rest;
  }

  lemma GateItemRead(head: seq<string>, body: seq<string>, done: seq<Register>, rest: seq<string>)
    requires GateDefinition(head, body).Fine()
    ensures Statement(GateDefinition(head, body).Tokens() + rest, 0, done) == Ok(Scope(|head| + |body| + 3, 0, done))
  {
    GateRead(head, body, rest);
    hide GateLength, Balanced;
    var tokens := GateDefinition(head, body).Tokens() + rest;
    assert tokens[1..] == head + ["{"] + body + ["}"] + rest;
  }

  /** The tokens between the keyword and the semicolon. */
  function Fields(item: Item): seq<string> {
    match item
    case Bits(digits, name) => ["[", digits, "]", name]
    case OneBit(name) => [name]
    case Creg(name, digits) => [name, "[", digits, "]"]
    case _ => []
  }

  function Keyword(item: Item): string {
    if item.Creg? then "creg" else "bit"
  }

  lemma DeclarationParts(item: Item, tail: seq<string>)
    requires Declaration(item)
    ensures item.Tokens() == [Keyword(item)] + Fields(item) + [";"]
    ensures item.Tokens()[..|item.Tokens()| - 1] == [Keyword(item)] + Fields(item)
    ensures ([Keyword(item)] + Fields(item) + tail)[1..] == Fields(item) + tail
  {
  }

  lemma FieldRead(item: Item, tail: seq<string>)
    requires Declaration(item)
    ensures var register := item.Declares()[0];
      ReadField(Fields(item) + tail, item.Creg?) ==
      if register.width <= SIZE_MAX then Ok(Field(register.name, register.width, |Fields(item)|)) else Err(InvalidArgument)
  {
    IdentifierIsName(item.name);
    assert item.name != "[";
    if !item.OneBit? {
      NumberExact(item.digits, Value(item.digits));
      if Number(item.digits).Ok? {
        NumberExact(item.digits, Number(item.digits).value);
      }
    }
    hide IsName, Identifier, Number, Numeral, Value;
  }

  /** What the reader makes of a declaration's fields and of what follows them. */
  lemma FieldStatement(keyword: string, fields: seq<string>, tail: seq<string>, depth: nat, done: seq<Register>)
    requires keyword == "bit" || keyword == "creg"
    requires var field := ReadField(fields + tail, keyword == "creg");
      field.Ok? ==> field.value.name != "(" && field.value.length == |fields|
    ensures var tokens := [keyword] + fields + tail; var field := ReadField(fields + tail, keyword == "creg");
      Statement(tokens, depth, done) ==
      if field.Err? then Err(field.error)
      else if depth != 0 then Err(NotSupported)
      else if tail == [] || !Declarable(field.value, tail[0], done) then Err(InvalidArgument)
      else Ok(Scope(|fields| + 2, 0, done + [Register(field.value.name, field.value.width)]))
  {
    hide ReadField, Declarable;
    assert ([keyword] + fields + tail)[1..] == fields + tail;
  }

  lemma DeclarationRead(item: Item, done: seq<Register>, rest: seq<string>)
    requires Declaration(item) && Proper(done + item.Declares())
    ensures Statement(item.Tokens() + rest, 0, done) == Ok(Scope(|item.Tokens()|, 0, done + item.Declares()))
  {
    ItemDeclarable(item, done);
    FieldRead(item, [";"] + rest);
    DeclarationParts(item, [";"] + rest);
    hide IsName, Identifier, ReadField, Numeral, Value, TotalWidth, Names, Item.Tokens, Fields, Statement, Declarable, Proper;
    FieldStatement(Keyword(item), Fields(item), [";"] + rest, 0, done);
    assert item.Tokens() + rest == [Keyword(item)] + Fields(item) + ([";"] + rest);
  }

  lemma ItemDeclarable(item: Item, done: seq<Register>)
    requires Declaration(item) && Proper(done + item.Declares())
    ensures var register := item.Declares()[0];
      && item.Declares() == [register] && register.width <= SIZE_MAX && register.name != "("
      && forall length :: Declarable(Field(register.name, register.width, length), ";", done)
  {
    LastProper(done, item.Declares()[0]);
    IdentifierIsName(item.name);
    assert item.name != "(";
    hide IsName, Identifier, Numeral, Value, TotalWidth, Names;
  }

  lemma LastProper(done: seq<Register>, register: Register)
    requires Proper(done + [register])
    ensures Proper(done) && Identifier(register.name) && 0 < register.width <= SIZE_MAX
    ensures register.name !in Names(done) && TotalWidth(done) + register.width <= SIZE_MAX
  {
    var all := done + [register];
    assert all[|done|] == register && forall i :: 0 <= i < |done| ==> all[i] == done[i];
    TotalWidthAppend(done, register);
    hide Identifier, TotalWidth;
    assert forall i :: 0 <= i < |done| ==> Names(done)[i] == all[i].name;
  }

  lemma {:induction false} ItemsRead(items: seq<Item>, depth: nat, done: seq<Register>)
    requires Nests(items, depth) && (forall i :: 0 <= i < |items| ==> items[i].Fine())
    requires done + Declared(items) != [] && Proper(done + Declared(items))
    ensures Statements(Spelling(items), depth, done) == Ok(done + Declared(items))
    decreases |items|
  {
    hide Proper, Item.Fine, Item.Declares, Item.Tokens, Statement;
    if items == [] {
      assert done + [] == done;
    } else {
      var item, later := items[0], items[1..];
      assert done + (item.Declares() + Declared(later)) == (done + item.Declares()) + Declared(later);
      ProperFront(done + item.Declares(), Declared(later));
      ItemRead(item, depth, done, Spelling(later));
      var tokens := item.Tokens() + Spelling(later);
      assert tokens[|item.Tokens()|..] == Spelling(later);
      ItemsRead(later, Behind(item, depth), done + item.Declares());
    }
  }

  lemma ProperFront(a: seq<Register>, b: seq<Register>)
    requires Proper(a + b)
    ensures Proper(a)
  {
    TotalWidthConcat(a, b);
    hide Identifier, TotalWidth;
    assert forall i :: 0 <= i < |a| ==> (a + b)[i] == a[i];
  }

  // ----- writing what was read

  lemma StatementSplit(tokens: seq<string>, depth: nat, done: seq<Register>) returns (item: Item)
    requires tokens != [] && Statement(tokens, depth, done).Ok?
    ensures Stands(item, depth)
    ensures var after := Statement(tokens, depth, done).value;
      && tokens[..after.length] == item.Tokens() && after.depth == Behind(item, depth) && after.registers == done + item.Declares()
  {
    var token, rest := tokens[0], tokens[1..];
    var after := Statement(tokens, depth, done).value;
    if token == "gate" {
      item := GateItem(tokens);
      hide GateLength, Item.Fine, Item.Tokens, ReadField;
      assert done + [] == done;
    } else if token == "bit" || token == "creg" {
      item := FieldSplit(tokens, depth, done);
    } else {
      hide ReadField, GateLength;
      item := if token == "{" then Opening else if token == "}" then Closing else if token == "include" then StdGates else Other(token);
      assert done + [] == done;
      if token == "include" {
        assert tokens[..3] == ["include", rest[0], rest[1]];
      } else {
        assert tokens[..1] == [token];
      }
    }
  }

  lemma FieldSplit(tokens: seq<string>, depth: nat, done: seq<Register>) returns (item: Item)
    requires tokens != [] && (tokens[0] == "bit" || tokens[0] == "creg") && Statement(tokens, depth, done).Ok?
    ensures Stands(item, depth)
    ensures var after := Statement(tokens, depth, done).value;
      && tokens[..after.length] == item.Tokens() && after.depth == Behind(item, depth) && after.registers == done + item.Declares()
  {
    var rest, legacy := tokens[1..], tokens[0] == "creg";
    var after := Statement(tokens, depth, done).value;
    var field := ReadField(rest, legacy).value;
    IdentifierIsName(field.name);
    var digits := if field.length == 4 then rest[if legacy then 2 else 1] else "";
    if field.length == 4 {
      NumberExact(digits, field.width);
    }
    hide IsName, Identifier, Number, Numeral, Value, TotalWidth, Names;
    if !legacy && field.name == "(" {
      item := if field.length == 4 then WideCast(digits) else Cast;
      assert done + [] == done;
    } else if legacy {
      item := Creg(field.name, digits);
    } else {
      item := if field.length == 4 then Bits(digits, field.name) else OneBit(field.name);
    }
    assert tokens[..after.length] == item.Tokens();
  }

  lemma {:induction false} ItemsSplit(tokens: seq<string>, depth: nat, done: seq<Register>) returns (items: seq<Item>)
    requires Statements(tokens, depth, done).Ok?
    ensures Nests(items, depth) && Spelling(items) == tokens
    ensures forall i :: 0 <= i < |items| ==> items[i].Fine()
    ensures Statements(tokens, depth, done).value == done + Declared(items)
    decreases |tokens|
  {
    hide Statement, Item.Fine, Item.Declares, Item.Tokens;
    if tokens == [] {
      items := [];
      assert done + [] == done;
    } else {
      var after := Statement(tokens, depth, done).value;
      var item := StatementSplit(tokens, depth, done);
      var later := ItemsSplit(tokens[after.length..], after.depth, after.registers);
      items := [item] + later;
      assert items[1..] == later;
      assert tokens == tokens[..after.length] + tokens[after.length..];
      assert done + (item.Declares() + Declared(later)) == (done + item.Declares()) + Declared(later);
    }
  }

  // ----- the whole program

  ghost predicate WrittenAs(tokens: seq<string>, registers: seq<Register>) {
    exists version: string, items: seq<Item> :: Writes(tokens, version, items, registers)
  }

  /** A version statement and items that declare these registers. */
  ghost predicate Writes(tokens: seq<string>, version: string, items: seq<Item>, registers: seq<Register>) {
    && (version == "3" || version == "3.0" || version == "3.1")
    && tokens == ["OPENQASM", version, ";"] + Spelling(items)
    && Nests(items, 0) && (forall i :: 0 <= i < |items| ==> items[i].Fine())
    && registers == Declared(items)
  }

  /** A program has a layout exactly when its tokens are a version statement and
      items that declare it, and it is not empty, names no register twice, and fits
      in 64 bits. */
  lemma LayoutExact(program: string, registers: seq<Register>)
    ensures Layout(program) == Ok(registers) <==>
      Words(program).Some? && WrittenAs(Words(program).value, registers) && registers != [] && Proper(registers)
  {
    hide Words, Layout, WrittenAs, Proper;
    if Layout(program) == Ok(registers) {
      LayoutWritten(program);
      LayoutProper(program);
    }
    if Words(program).Some? && WrittenAs(Words(program).value, registers) && registers != [] && Proper(registers) {
      WrittenLayout(program, registers);
    }
  }

  lemma LayoutWritten(program: string)
    requires Layout(program).Ok?
    ensures Words(program).Some? && WrittenAs(Words(program).value, Layout(program).value)
  {
    hide Words, Statements, Nests, Item.Fine;
    var tokens := Words(program).value;
    var items := ItemsSplit(tokens[3..], 0, []);
    assert [] + Declared(items) == Declared(items);
    assert tokens == ["OPENQASM", tokens[1], ";"] + tokens[3..];
    assert Writes(tokens, tokens[1], items, Layout(program).value);
  }

  lemma WrittenLayout(program: string, registers: seq<Register>)
    requires Words(program).Some? && WrittenAs(Words(program).value, registers) && registers != [] && Proper(registers)
    ensures Layout(program) == Ok(registers)
  {
    hide Words, Statements, Nests, Item.Fine, Proper;
    var tokens := Words(program).value;
    var version, items :| Writes(tokens, version, items, registers);
    assert [] + Declared(items) == Declared(items);
    ItemsRead(items, 0, []);
    assert tokens[3..] == Spelling(items);
  }

  lemma LayoutProper(program: string)
    requires Layout(program).Ok?
    ensures Layout(program).value != [] && Proper(Layout(program).value)
  {
    hide Words, Statements;
    assert Partial([]);
    StatementsPartial(Words(program).value[3..], 0, []);
    ProperIsPartial(Layout(program).value);
  }

  /** Every layout can be declared in any mix of forms, under any version, with gate
      definitions, the standard include, braces, casts and other tokens in between,
      and with any white space, comments and strings around them. */
  lemma LayoutOfWritten(chunks: seq<Chunk>, version: string, items: seq<Item>, registers: seq<Register>)
    requires WellWritten(chunks) && Writes(TokensOf(chunks), version, items, registers)
    requires registers != [] && Proper(registers)
    ensures Layout(Written(chunks)) == Ok(registers)
  {
    hide Layout, Writes, Proper, Words;
    WordsOfWritten(chunks);
    LayoutExact(Written(chunks), registers);
  }

  // ----- what is refused

  /** Items that stand, up to an open or empty end. */
  predicate Leads(items: seq<Item>, depth: nat, end: nat) {
    if items == [] then depth == end else Stands(items[0], depth) && Leads(items[1..], Behind(items[0], depth), end)
  }

  /** The first statement of the rest is refused, and why. */
  ghost predicate Offends(rest: seq<string>, depth: nat, done: seq<Register>, error: Error) {
    if rest == [] then
      (depth > 0 && error == InvalidArgument) || (depth == 0 && done == [] && error == NotSupported)
    else if rest[0] in {"input", "output", "pragma", "@"} then error == NotSupported
    else if rest[0] == "}" then depth == 0 && error == InvalidArgument
    else if rest[0] == "gate" then
      error == InvalidArgument
      && (depth == 0 ==> forall n :: 0 <= n <= |rest| ==> !IsGate(rest[..n]))
    else if rest[0] == "include" then
      if depth > 0 || (|rest| >= 2 && rest[1] != "\"stdgates.inc\"") || (|rest| >= 3 && rest[2] != ";") then error == NotSupported
      else |rest| <= 2 && error == InvalidArgument
    else
      exists item :: Declaration(item) && Misplaced(item, rest, depth, done, error)
  }

  ghost predicate IsGate(tokens: seq<string>) {
    exists head: seq<string>, body: seq<string> :: GateDefinition(head, body).Fine() && GateDefinition(head, body).Tokens() == tokens
  }

  /** A declaration inside braces, without its semicolon, or of a register that is
      declared already, has no bits or does not fit. */
  ghost predicate Misplaced(item: Item, rest: seq<string>, depth: nat, done: seq<Register>, error: Error)
    requires Declaration(item)
  {
    var n := |item.Tokens()| - 1;
    && n <= |rest| && rest[..n] == item.Tokens()[..n]
    && if depth > 0 && item.Declares()[0].width <= SIZE_MAX then error == NotSupported
       else error == InvalidArgument && (depth > 0 || |rest| == n || rest[n] != ";" || !Proper(done + item.Declares()))
  }

  lemma Refused(rest: seq<string>, depth: nat, done: seq<Register>, error: Error)
    requires Offends(rest, depth, done, error) && Proper(done)
    ensures Statements(rest, depth, done) == Err(error)
  {
    if rest != [] {
      if rest[0] == "gate" {
        GateRefused(rest, depth, done);
      } else if !(rest[0] in {"input", "output", "pragma", "@", "}", "include"}) {
        var item :| Declaration(item) && Misplaced(item, rest, depth, done, error);
        DeclarationRefused(item, rest, depth, done, error);
      } else {
        hide GateLength, ReadField, IsGate;
        assert Statement(rest, depth, done) == Err(error);
      }
    }
  }

  lemma GateRefused(rest: seq<string>, depth: nat, done: seq<Register>)
    requires rest != [] && rest[0] == "gate" && (depth == 0 ==> forall n :: 0 <= n <= |rest| ==> !IsGate(rest[..n]))
    ensures Statement(rest, depth, done) == Err(InvalidArgument)
  {
    if depth == 0 && GateLength(rest[1..]).Some? {
      GateFound(rest);
    }
  }

  lemma GateFound(tokens: seq<string>)
    requires tokens != [] && tokens[0] == "gate" && GateLength(tokens[1..]).Some?
    ensures exists n :: 0 <= n <= |tokens| && IsGate(tokens[..n])
  {
    var item := GateItem(tokens);
    assert IsGate(tokens[..GateLength(tokens[1..]).value + 1]);
  }

  lemma DeclarationRefused(item: Item, rest: seq<string>, depth: nat, done: seq<Register>, error: Error)
    requires Declaration(item) && Misplaced(item, rest, depth, done, error) && Proper(done)
    ensures rest != [] && Statement(rest, depth, done) == Err(error)
  {
    var n := |item.Tokens()| - 1;
    var tail := rest[n..];
    RestParts(rest, n);
    FieldRead(item, tail);
    DeclarationParts(item, tail);
    IdentifierIsName(item.name);
    assert item.name != "(";
    NewProper(done, item.Declares()[0]);
    hide IsName, Identifier, ReadField, Numeral, Value, Proper, TotalWidth, Names, Item.Tokens, Fields, Statement;
    FieldStatement(Keyword(item), Fields(item), tail, depth, done);
  }

  lemma RestParts(rest: seq<string>, n: nat)
    requires n <= |rest|
    ensures rest == rest[..n] + rest[n..]
  {
  }

  lemma NewProper(done: seq<Register>, register: Register)
    requires Proper(done) && Identifier(register.name)
    ensures Proper(done + [register]) <==>
      register.width > 0 && register.name !in Names(done) && TotalWidth(done) + register.width <= SIZE_MAX
  {
    var all := done + [register];
    assert all[|done|] == register && forall i :: 0 <= i < |done| ==> all[i] == done[i];
    TotalWidthAppend(done, register);
    hide Identifier, TotalWidth;
    assert forall i :: 0 <= i < |done| ==> Names(done)[i] == all[i].name;
  }

  lemma {:induction false} LeadsRead(items: seq<Item>, depth: nat, end: nat, done: seq<Register>, rest: seq<string>)
    requires Leads(items, depth, end) && (forall i :: 0 <= i < |items| ==> items[i].Fine()) && Proper(done + Declared(items))
    ensures Statements(Spelling(items) + rest, depth, done) == Statements(rest, end, done + Declared(items))
    decreases |items|
  {
    hide Proper, Item.Fine, Item.Declares, Item.Tokens, Statement;
    if items == [] {
      assert done + [] == done && Spelling(items) + rest == rest;
    } else {
      var item, later := items[0], items[1..];
      assert done + (item.Declares() + Declared(later)) == (done + item.Declares()) + Declared(later);
      ProperFront(done + item.Declares(), Declared(later));
      assert Spelling(items) + rest == item.Tokens() + (Spelling(later) + rest);
      ItemRead(item, depth, done, Spelling(later) + rest);
      var tokens := item.Tokens() + (Spelling(later) + rest);
      assert tokens[|item.Tokens()|..] == Spelling(later) + rest;
      LeadsRead(later, Behind(item, depth), end, done + item.Declares(), rest);
    }
  }

  /** Why a program has no layout: it does not lex, has no version statement, or its
      items are followed by an offending statement or end too early. */
  lemma LayoutRefused(program: string)
    ensures Words(program) == None ==> Layout(program) == Err(InvalidArgument)
    ensures Words(program).Some? && !Headed(Words(program).value) ==> Layout(program) == Err(InvalidArgument)
    ensures forall version: string, items: seq<Item>, end: nat, rest: seq<string>, error: Error ::
      Words(program).Some? && RefusedBehind(Words(program).value, version, items, end, rest, error) ==> Layout(program) == Err(error)
  {
    hide Words, Statements;
    forall version: string, items: seq<Item>, end: nat, rest: seq<string>, error: Error
      | Words(program).Some? && RefusedBehind(Words(program).value, version, items, end, rest, error)
      ensures Layout(program) == Err(error)
    {
      RefusedRead(Words(program).value, version, items, end, rest, error);
    }
  }

  predicate Headed(tokens: seq<string>) {
    |tokens| >= 3 && tokens[0] == "OPENQASM" && (tokens[1] == "3" || tokens[1] == "3.0" || tokens[1] == "3.1") && tokens[2] == ";"
  }

  ghost predicate RefusedBehind(tokens: seq<string>, version: string, items: seq<Item>, end: nat, rest: seq<string>, error: Error) {
    && (version == "3" || version == "3.0" || version == "3.1")
    && tokens == ["OPENQASM", version, ";"] + Spelling(items) + rest
    && Leads(items, 0, end) && (forall i :: 0 <= i < |items| ==> items[i].Fine())
    && Proper(Declared(items)) && Offends(rest, end, Declared(items), error)
  }

  lemma RefusedRead(tokens: seq<string>, version: string, items: seq<Item>, end: nat, rest: seq<string>, error: Error)
    requires RefusedBehind(tokens, version, items, end, rest, error)
    ensures IsHeader(tokens) && Statements(tokens[3..], 0, []) == Err(error)
  {
    hide Statements, Offends, Proper, Leads;
    assert tokens[3..] == Spelling(items) + rest;
    assert [] + Declared(items) == Declared(items);
    LeadsRead(items, 0, end, [], rest);
    Refused(rest, end, Declared(items), error);
  }
}
