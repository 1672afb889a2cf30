/** Worked inputs: the outcome of the scan for a few small sources.

    The proofs walk each source from its end back to its start, one match
    at a time: a source predicate describes the characters, and a lemma
    `<Name>From<k>` states the outcome of the scan from position `k`, from
    the general step lemmas and the lemma for the next match. The scenario
    lemma at the end of each group states the outcome for the source
    written as a string. */
module LexScenarios {
  import opened LexTokens
  import opened LexRules
  import opened LexScan

  // "x = 10;"

  predicate AssignmentSource(s: string)
  {
    |s| == 7 && s[0] == 'x' && s[1] == ' ' && s[2] == '=' && s[3] == ' ' && s[4] == '1' && s[5] == '0' && s[6] == ';'
  }

  lemma AssignmentFrom6(s: string)
    requires AssignmentSource(s)
    ensures ScanFrom(s, 6) ==
              Outcome([Token(End, Text(";"))], None)
  {
    SelectSingle(s, 6);
    ScanStep(s, 6);
    assert s[6..7] == ";";
  }

  lemma AssignmentFrom5(s: string)
    requires AssignmentSource(s)
    ensures ScanFrom(s, 5) ==
              Outcome([Token(IntegerLiteral, Int(0)), Token(End, Text(";"))], None)
  {
    AssignmentFrom6(s);
    SelectDigit(s, 5);
    ScanStep(s, 5);
    assert s[5..6] == "0";
  }

  lemma AssignmentFrom4(s: string)
    requires AssignmentSource(s)
    ensures ScanFrom(s, 4) ==
              Outcome([Token(IntegerLiteral, Int(1)), Token(IntegerLiteral, Int(0)), Token(End, Text(";"))], None)
  {
    AssignmentFrom5(s);
    SelectDigit(s, 4);
    ScanStep(s, 4);
    assert s[4..5] == "1";
  }

  lemma AssignmentFrom3(s: string)
    requires AssignmentSource(s)
    ensures ScanFrom(s, 3) ==
              Outcome([Token(IntegerLiteral, Int(1)), Token(IntegerLiteral, Int(0)), Token(End, Text(";"))], None)
  {
    AssignmentFrom4(s);
    BlankStep(s, 3);
  }

  lemma AssignmentFrom2(s: string)
    requires AssignmentSource(s)
    ensures ScanFrom(s, 2) ==
              Outcome([Token(Assignment, Text("=")), Token(IntegerLiteral, Int(1)), Token(IntegerLiteral, Int(0)), Token(End, Text(";"))], None)
  {
    AssignmentFrom3(s);
    SelectEquals(s, 2);
    ScanStep(s, 2);
    assert s[2..3] == "=";
  }

  lemma AssignmentFrom1(s: string)
    requires AssignmentSource(s)
    ensures ScanFrom(s, 1) ==
              Outcome([Token(Assignment, Text("=")), Token(IntegerLiteral, Int(1)), Token(IntegerLiteral, Int(0)), Token(End, Text(";"))], None)
  {
    AssignmentFrom2(s);
    BlankStep(s, 1);
  }

  lemma AssignmentFrom0(s: string)
    requires AssignmentSource(s)
    ensures ScanFrom(s, 0) ==
              Outcome([Token(Id, Text("x")), Token(Assignment, Text("=")), Token(IntegerLiteral, Int(1)), Token(IntegerLiteral, Int(0)), Token(End, Text(";"))], None)
  {
    AssignmentFrom1(s);
    LoneLetterIsIdentifier(s, 0);
  }

  /** `x = 10;`: the integer rule takes one digit, so `10` is two integer
      tokens, and the spaces give none. */
  lemma AssignmentStatement()
    ensures Scan("x = 10;") ==
              Outcome([Token(Id, Text("x")), Token(Assignment, Text("=")), Token(IntegerLiteral, Int(1)), Token(IntegerLiteral, Int(0)), Token(End, Text(";"))], None)
  {
    AssignmentFrom0("x = 10;");
  }

  // "a <= b"

  predicate ComparisonSource(s: string)
  {
    |s| == 6 && s[0] == 'a' && s[1] == ' ' && s[2] == '<' && s[3] == '=' && s[4] == ' ' && s[5] == 'b'
  }

  lemma ComparisonFrom5(s: string)
    requires ComparisonSource(s)
    ensures ScanFrom(s, 5) ==
              Outcome([Token(Id, Text("b"))], None)
  {
    LoneLetterIsIdentifier(s, 5);
  }

  lemma ComparisonFrom4(s: string)
    requires ComparisonSource(s)
    ensures ScanFrom(s, 4) ==
              Outcome([Token(Id, Text("b"))], None)
  {
    ComparisonFrom5(s);
    BlankStep(s, 4);
  }

  lemma ComparisonFrom2(s: string)
    requires ComparisonSource(s)
    ensures ScanFrom(s, 2) ==
              Outcome([Token(LessThanOrEqualTo, Text("<=")), Token(Id, Text("b"))], None)
  {
    ComparisonFrom4(s);
    CompoundComparisonIsOneToken(s, 2);
    assert s[2..4] == "<=";
  }

  lemma ComparisonFrom1(s: string)
    requires ComparisonSource(s)
    ensures ScanFrom(s, 1) ==
              Outcome([Token(LessThanOrEqualTo, Text("<=")), Token(Id, Text("b"))], None)
  {
    ComparisonFrom2(s);
    BlankStep(s, 1);
  }

  lemma ComparisonFrom0(s: string)
    requires ComparisonSource(s)
    ensures ScanFrom(s, 0) ==
              Outcome([Token(Id, Text("a")), Token(LessThanOrEqualTo, Text("<=")), Token(Id, Text("b"))], None)
  {
    ComparisonFrom1(s);
    LoneLetterIsIdentifier(s, 0);
  }

  /** `a <= b`: the two-character comparison wins over `<` followed by `=`. */
  lemma ComparisonExpression()
    ensures Scan("a <= b") ==
              Outcome([Token(Id, Text("a")), Token(LessThanOrEqualTo, Text("<=")), Token(Id, Text("b"))], None)
  {
    ComparisonFrom0("a <= b");
  }

  // "x and y"

  predicate ConjunctionSource(s: string)
  {
    |s| == 7 && s[0] == 'x' && s[1] == ' ' && s[2] == 'a' && s[3] == 'n' && s[4] == 'd' && s[5] == ' ' && s[6] == 'y'
  }

  lemma ConjunctionFrom6(s: string)
    requires ConjunctionSource(s)
    ensures ScanFrom(s, 6) ==
              Outcome([Token(Id, Text("y"))], None)
  {
    LoneLetterIsIdentifier(s, 6);
  }

  lemma ConjunctionFrom5(s: string)
    requires ConjunctionSource(s)
    ensures ScanFrom(s, 5) ==
              Outcome([Token(Id, Text("y"))], None)
  {
    ConjunctionFrom6(s);
    BlankStep(s, 5);
  }

  lemma ConjunctionFrom2(s: string)
    requires ConjunctionSource(s)
    ensures ScanFrom(s, 2) ==
              Outcome([Token(LogicalAnd, Text("and")), Token(Id, Text("y"))], None)
  {
    ConjunctionFrom5(s);
    WordRunIsOneToken(s, 2, 3);
    assert s[2..5] == "and";
  }

  lemma ConjunctionFrom1(s: string)
    requires ConjunctionSource(s)
    ensures ScanFrom(s, 1) ==
              Outcome([Token(LogicalAnd, Text("and")), Token(Id, Text("y"))], None)
  {
    ConjunctionFrom2(s);
    BlankStep(s, 1);
  }

  lemma ConjunctionFrom0(s: string)
    requires ConjunctionSource(s)
    ensures ScanFrom(s, 0) ==
              Outcome([Token(Id, Text("x")), Token(LogicalAnd, Text("and")), Token(Id, Text("y"))], None)
  {
    ConjunctionFrom1(s);
    LoneLetterIsIdentifier(s, 0);
  }

  /** `x and y`: the keyword table turns the identifier `and` into the
      logical-and kind. */
  lemma ConjunctionExpression()
    ensures Scan("x and y") ==
              Outcome([Token(Id, Text("x")), Token(LogicalAnd, Text("and")), Token(Id, Text("y"))], None)
  {
    ConjunctionFrom0("x and y");
  }

  // ".5 + 1"

  predicate SumSource(s: string)
  {
    |s| == 6 && s[0] == '.' && s[1] == '5' && s[2] == ' ' && s[3] == '+' && s[4] == ' ' && s[5] == '1'
  }

  lemma SumFrom5(s: string)
    requires SumSource(s)
    ensures ScanFrom(s, 5) ==
              Outcome([Token(IntegerLiteral, Int(1))], None)
  {
    SelectDigit(s, 5);
    ScanStep(s, 5);
    assert s[5..6] == "1";
  }

  lemma SumFrom4(s: string)
    requires SumSource(s)
    ensures ScanFrom(s, 4) ==
              Outcome([Token(IntegerLiteral, Int(1))], None)
  {
    SumFrom5(s);
    BlankStep(s, 4);
  }

  lemma SumFrom3(s: string)
    requires SumSource(s)
    ensures ScanFrom(s, 3) ==
              Outcome([Token(Addition, Text("+")), Token(IntegerLiteral, Int(1))], None)
  {
    SumFrom4(s);
    OperatorIsOneToken(s, 3);
  }

  lemma SumFrom2(s: string)
    requires SumSource(s)
    ensures ScanFrom(s, 2) ==
              Outcome([Token(Addition, Text("+")), Token(IntegerLiteral, Int(1))], None)
  {
    SumFrom3(s);
    BlankStep(s, 2);
  }

  lemma SumFrom0(s: string)
    requires SumSource(s)
    ensures ScanFrom(s, 0) ==
              Outcome([Token(FloatingPointLiteral, Float(".5")), Token(Addition, Text("+")), Token(IntegerLiteral, Int(1))], None)
  {
    SumFrom2(s);
    FloatIsOneToken(s, 0, 1);
    assert s[0..2] == ".5";
  }

  /** `.5 + 1`: a leading dot and digits are one float token, and `+` is
      re-classified to the addition kind. */
  lemma SumExpression()
    ensures Scan(".5 + 1") ==
              Outcome([Token(FloatingPointLiteral, Float(".5")), Token(Addition, Text("+")), Token(IntegerLiteral, Int(1))], None)
  {
    SumFrom0(".5 + 1");
  }

  // "a = 1 $"

  predicate StraySource(s: string)
  {
    |s| == 7 && s[0] == 'a' && s[1] == ' ' && s[2] == '=' && s[3] == ' ' && s[4] == '1' && s[5] == ' ' && s[6] == '$'
  }

  lemma StrayFrom6(s: string)
    requires StraySource(s)
    ensures ScanFrom(s, 6) ==
              Outcome([], Some(Unexpected('$')))
  {
    SelectSingle(s, 6);
    ScanStep(s, 6);
    assert s[6..7] == "$";
  }

  lemma StrayFrom5(s: string)
    requires StraySource(s)
    ensures ScanFrom(s, 5) ==
              Outcome([], Some(Unexpected('$')))
  {
    StrayFrom6(s);
    BlankStep(s, 5);
  }

  lemma StrayFrom4(s: string)
    requires StraySource(s)
    ensures ScanFrom(s, 4) ==
              Outcome([Token(IntegerLiteral, Int(1))], Some(Unexpected('$')))
  {
    StrayFrom5(s);
    SelectDigit(s, 4);
    ScanStep(s, 4);
    assert s[4..5] == "1";
  }

  lemma StrayFrom3(s: string)
    requires StraySource(s)
    ensures ScanFrom(s, 3) ==
              Outcome([Token(IntegerLiteral, Int(1))], Some(Unexpected('$')))
  {
    StrayFrom4(s);
    BlankStep(s, 3);
  }

  lemma StrayFrom2(s: string)
    requires StraySource(s)
    ensures ScanFrom(s, 2) ==
              Outcome([Token(Assignment, Text("=")), Token(IntegerLiteral, Int(1))], Some(Unexpected('$')))
  {
    StrayFrom3(s);
    SelectEquals(s, 2);
    ScanStep(s, 2);
    assert s[2..3] == "=";
  }

  lemma StrayFrom1(s: string)
    requires StraySource(s)
    ensures ScanFrom(s, 1) ==
              Outcome([Token(Assignment, Text("=")), Token(IntegerLiteral, Int(1))], Some(Unexpected('$')))
  {
    StrayFrom2(s);
    BlankStep(s, 1);
  }

  lemma StrayFrom0(s: string)
    requires StraySource(s)
    ensures ScanFrom(s, 0) ==
              Outcome([Token(Id, Text("a")), Token(Assignment, Text("=")), Token(IntegerLiteral, Int(1))], Some(Unexpected('$')))
  {
    StrayFrom1(s);
    LoneLetterIsIdentifier(s, 0);
  }

  /** `a = 1 $`: the scan stops at `$` with an error naming it; the tokens
      before it have been emitted (and stay in the lexer's list). */
  lemma StrayCharacter()
    ensures Scan("a = 1 $") ==
              Outcome([Token(Id, Text("a")), Token(Assignment, Text("=")), Token(IntegerLiteral, Int(1))], Some(Unexpected('$')))
  {
    StrayFrom0("a = 1 $");
  }

  // "3.14"

  predicate DecimalSource(s: string)
  {
    |s| == 4 && s[0] == '3' && s[1] == '.' && s[2] == '1' && s[3] == '4'
  }

  lemma DecimalFrom1(s: string)
    requires DecimalSource(s)
    ensures ScanFrom(s, 1) ==
              Outcome([Token(FloatingPointLiteral, Float(".14"))], None)
  {
    FloatIsOneToken(s, 1, 2);
    assert s[1..4] == ".14";
  }

  lemma DecimalFrom0(s: string)
    requires DecimalSource(s)
    ensures ScanFrom(s, 0) ==
              Outcome([Token(IntegerLiteral, Int(3)), Token(FloatingPointLiteral, Float(".14"))], None)
  {
    DecimalFrom1(s);
    SelectDigit(s, 0);
    ScanStep(s, 0);
    assert s[0..1] == "3";
  }

  /** `3.14`: there is no rule for an integer part before the dot, so this
      is the integer 3 followed by the float `.14`. */
  lemma DecimalWithIntegerPart()
    ensures Scan("3.14") ==
              Outcome([Token(IntegerLiteral, Int(3)), Token(FloatingPointLiteral, Float(".14"))], None)
  {
    DecimalFrom0("3.14");
  }

  // "android"

  predicate KeywordPrefixSource(s: string)
  {
    |s| == 7 && s[0] == 'a' && s[1] == 'n' && s[2] == 'd' && s[3] == 'r' && s[4] == 'o' && s[5] == 'i' && s[6] == 'd'
  }

  lemma KeywordPrefixFrom0(s: string)
    requires KeywordPrefixSource(s)
    ensures ScanFrom(s, 0) ==
              Outcome([Token(Id, Text("android"))], None)
  {
    WordRunIsOneToken(s, 0, 7);
    assert s[0..7] == "android";
  }

  /** `android`: the whole letter run is compared with the keyword table,
      so the keyword prefix does not split it. */
  lemma KeywordPrefix()
    ensures Scan("android") ==
              Outcome([Token(Id, Text("android"))], None)
  {
    KeywordPrefixFrom0("android");
  }

}
