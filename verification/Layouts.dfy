/** What the layout reader accepts and returns: its layouts are sound, and every
    sound layout is the layout of the program that declares it. */
module Layouts {
  import opened Common
  import opened Lexer
  import opened Declarations
  import opened Program

  // ----- accepted layouts are sound

  ghost predicate Partial(registers: seq<Register>) {
    && Distinct(Names(registers))
    && (forall i :: 0 <= i < |registers| ==> IsName(registers[i].name) && registers[i].width > 0)
    && TotalWidth(registers) <= SIZE_MAX
  }

  lemma PartialAppend(registers: seq<Register>, last: Register)
    requires Partial(registers)
    requires IsName(last.name) && last.width > 0 && last.name !in Names(registers)
    requires TotalWidth(registers) + last.width <= SIZE_MAX
    ensures Partial(registers + [last])
  {
    TotalWidthAppend(registers, last);
    assert Names(registers + [last]) == Names(registers) + [last.name];
  }

  lemma StatementPartial(tokens: seq<string>, depth: nat, registers: seq<Register>)
    requires tokens != [] && Partial(registers)
    requires Statement(tokens, depth, registers).Ok?
    ensures Partial(Statement(tokens, depth, registers).value.registers)
  {
    hide Partial, GateLength, IsName, TotalWidth;
    var after := Statement(tokens, depth, registers).value;
    if after.registers != registers {
      var last := after.registers[|registers|];
      assert after.registers == registers + [last];
      PartialAppend(registers, last);
    }
  }

  lemma {:induction false} StatementsPartial(tokens: seq<string>, depth: nat, registers: seq<Register>)
    requires Partial(registers) && Statements(tokens, depth, registers).Ok?
    ensures Statements(tokens, depth, registers).value != []
    ensures Partial(Statements(tokens, depth, registers).value)
    decreases |tokens|
  {
    hide Statement, Partial;
    if tokens != [] {
      StatementPartial(tokens, depth, registers);
      var after := Statement(tokens, depth, registers).value;
      StatementsPartial(tokens[after.length..], after.depth, after.registers);
    }
  }

  /** Registers have distinct names that are identifiers, positive widths, and a
      total width that fits in 64 bits; there is at least one. */
  lemma LayoutSound(program: string)
    requires Layout(program).Ok?
    ensures SoundLayout(Layout(program).value)
    ensures forall register <- Layout(program).value :: IsName(register.name)
  {
    hide Words, Statements;
    assert Partial([]);
    StatementsPartial(Words(program).value[3..], 0, []);
  }

  // ----- every sound layout is accepted

  function DecimalText(n: nat): (text: string)
    ensures text != "" && Digits(text)
  {
    if n < 10 then ['0' + n as char] else DecimalText(n / 10) + ['0' + (n % 10) as char]
  }

  lemma {:induction false} DecimalTextValue(n: nat)
    ensures Decimal(DecimalText(n)) == n
  {
    var text := DecimalText(n);
    if n < 10 {
      assert text[..|text| - 1] == "";
    } else {
      DecimalTextValue(n / 10);
      assert text[..|text| - 1] == DecimalText(n / 10);
    }
  }

  /** A program that only declares registers. */
  function Declaring(registers: seq<Register>): string {
    if registers == [] then ""
    else "bit" + ("[" + (DecimalText(registers[0].width) + ("]" + (" " + (registers[0].name + (";" + Declaring(registers[1..])))))))
  }

  function DeclaringTokens(registers: seq<Register>): seq<string> {
    if registers == [] then []
    else ["bit", "[", DecimalText(registers[0].width), "]", registers[0].name, ";"] + DeclaringTokens(registers[1..])
  }

  lemma WordsOfWord(word: string, rest: string)
    requires word != "" && StartsWord(word[0]) && forall k :: 0 <= k < |word| ==> InWord(word[k])
    requires rest != "" && !InWord(rest[0])
    ensures Words(word + rest) == Joined([word], Words(rest))
  {
    var s := word + rest;
    assert s[0] == word[0] && s[|word|] == rest[0];
    WordEndIs(s, 1, |word|);
    assert First(s) == Text(|word|);
    assert s[|word|..] == rest && s[..|word|] == word;
    hide First, Words;
    WordsUnfold(s);
  }

  lemma WordsOfMark(mark: string, rest: string)
    requires mark in {"[", "]", ";"}
    ensures Words(mark + rest) == Joined([mark], Words(rest))
  {
    assert (mark + rest)[1..] == rest && (mark + rest)[..1] == mark;
    assert First(mark + rest) == Text(1);
    hide First, Words;
    WordsUnfold(mark + rest);
  }

  lemma WordsOfSpace(rest: string)
    ensures Words(" " + rest) == Words(rest)
  {
    assert (" " + rest)[1..] == rest;
    assert First(" " + rest) == Skip(1);
    JoinedJoined([], [], Words(rest));
    hide First, Words;
    WordsUnfold(" " + rest);
  }

  lemma {:induction false} DeclaringWords(registers: seq<Register>)
    requires forall i :: 0 <= i < |registers| ==> IsName(registers[i].name)
    ensures Words(Declaring(registers)) == Some(DeclaringTokens(registers))
  {
    hide Words;
    if registers == [] {
      WordsOfNothing();
    } else {
      DeclaringWords(registers[1..]);
      var digits, name, rest := DecimalText(registers[0].width), registers[0].name, Declaring(registers[1..]);
      DeclarationWords(digits, name, rest, DeclaringTokens(registers[1..]));
    }
  }

  lemma WordsOfNothing()
    ensures Words("") == Some([])
  {
  }

  lemma DeclarationWords(digits: string, name: string, rest: string, later: seq<string>)
    requires digits != "" && Digits(digits) && IsName(name)
    requires Words(rest) == Some(later)
    ensures Words("bit" + ("[" + (digits + ("]" + (" " + (name + (";" + rest)))))))
      == Some(["bit", "[", digits, "]", name, ";"] + later)
  {
    hide Words;
    WordsOfMark(";", rest);
    WordsOfWord(name, ";" + rest);
    WordsOfSpace(name + (";" + rest));
    WordsOfMark("]", " " + (name + (";" + rest)));
    WordsOfWord(digits, "]" + (" " + (name + (";" + rest))));
    WordsOfMark("[", digits + ("]" + (" " + (name + (";" + rest)))));
    WordsOfWord("bit", "[" + (digits + ("]" + (" " + (name + (";" + rest))))));
    assert ["bit"] + (["["] + ([digits] + (["]"] + ([name] + ([";"] + later))))) == ["bit", "[", digits, "]", name, ";"] + later;
  }

  lemma {:induction false} DeclaringStatements(done: seq<Register>, registers: seq<Register>)
    requires done + registers != [] && Partial(done + registers)
    ensures Statements(DeclaringTokens(registers), 0, done) == Ok(done + registers)
    decreases |registers|
  {
    if registers == [] {
      assert done + registers == done;
    } else {
      var register := registers[0];
      var tokens, later := DeclaringTokens(registers), DeclaringTokens(registers[1..]);
      assert done + registers == done + [register] + registers[1..];
      DeclaringStatements(done + [register], registers[1..]);
      NewRegister(done, register, registers[1..]);
      DecimalTextValue(register.width);
      hide Statements, Partial, TotalWidth;
      DeclaredFirst(DecimalText(register.width), register, later, done);
      assert tokens[6..] == later;
      StatementsUnfold(tokens, 0, done);
    }
  }

  lemma StatementsUnfold(tokens: seq<string>, depth: nat, registers: seq<Register>)
    requires tokens != [] && Statement(tokens, depth, registers).Ok?
    ensures var after := Statement(tokens, depth, registers).value;
      Statements(tokens, depth, registers) == Statements(tokens[after.length..], after.depth, after.registers)
  {
  }

  lemma NewRegister(done: seq<Register>, register: Register, later: seq<Register>)
    requires Partial(done + [register] + later)
    ensures IsName(register.name) && 0 < register.width <= SIZE_MAX && register.name !in Names(done)
    ensures TotalWidth(done) + register.width <= SIZE_MAX
  {
    var all := done + [register] + later;
    assert all[|done|] == register;
    forall i | 0 <= i < |done|
      ensures Names(done)[i] != register.name
    {
      assert Names(all)[i] == Names(done)[i] && Names(all)[|done|] == register.name;
    }
    TotalWidthConcat(done + [register], later);
    TotalWidthAppend(done, register);
  }

  lemma TotalWidthConcat(a: seq<Register>, b: seq<Register>)
    ensures TotalWidth(a + b) == TotalWidth(a) + TotalWidth(b)
  {
    if a == [] {
      assert a + b == b;
    } else {
      assert (a + b)[1..] == a[1..] + b;
      TotalWidthConcat(a[1..], b);
    }
  }

  lemma DeclaredFirst(digits: string, register: Register, later: seq<string>, done: seq<Register>)
    requires digits != "" && Digits(digits) && Decimal(digits) == register.width
    requires IsName(register.name) && 0 < register.width <= SIZE_MAX && register.name !in Names(done)
    requires TotalWidth(done) + register.width <= SIZE_MAX
    ensures Statement(["bit", "[", digits, "]", register.name, ";"] + later, 0, done) == Ok(Scope(6, 0, done + [register]))
  {
    hide IsName, Names, TotalWidth, Decimal;
    var tokens := ["bit", "[", digits, "]", register.name, ";"] + later;
    assert tokens[1..] == ["[", digits, "]", register.name, ";"] + later;
    assert register.name != "(" by { NameIsNoMark(register.name); }
    assert ReadField(tokens[1..], false) == Ok(Field(register.name, register.width, 4));
  }

  lemma NameIsNoMark(name: string)
    requires IsName(name)
    ensures name != "("
  {
  }

  lemma HeaderWords(text: string, tokens: seq<string>)
    requires Words(text) == Some(tokens)
    ensures Words("OPENQASM" + (" " + ("3" + (";" + text)))) == Some(["OPENQASM", "3", ";"] + tokens)
  {
    hide Words;
    WordsOfMark(";", text);
    WordsOfWord("3", ";" + text);
    WordsOfSpace("3" + (";" + text));
    WordsOfWord("OPENQASM", " " + ("3" + (";" + text)));
    assert ["OPENQASM"] + (["3"] + ([";"] + tokens)) == ["OPENQASM", "3", ";"] + tokens;
  }

  /** Every layout of proper names and positive widths is read back, in
      declaration order, from the program that declares it. */
  lemma LayoutOfDeclaring(registers: seq<Register>)
    requires registers != [] && Partial(registers)
    ensures Layout("OPENQASM" + (" " + ("3" + (";" + Declaring(registers))))) == Ok(registers)
  {
    hide Words, Statements, Declaring, DeclaringTokens, Partial;
    var tokens := DeclaringTokens(registers);
    DeclaringWords(registers) by {
      PartialNames(registers);
    }
    HeaderWords(Declaring(registers), tokens);
    assert [] + registers == registers;
    DeclaringStatements([], registers);
    assert (["OPENQASM", "3", ";"] + tokens)[3..] == tokens;
  }

  lemma PartialNames(registers: seq<Register>)
    requires Partial(registers)
    ensures forall i :: 0 <= i < |registers| ==> IsName(registers[i].name)
  {
  }
}
