/** The scan as a value: the sequence of matches the combined pattern makes
    over the whole source (they follow one another with no gap), the
    classification of one match, and the loop over the matches that emits
    tokens, drops blanks and stops at the first catch-all match. */
module LexScan {
  import opened LexTokens
  import opened LexRules

  /** One match of the combined pattern: the rule that won, where it starts
      and the text it took. */
  datatype Segment = Segment(rule: Kind, start: nat, text: string)

  predicate AllDigits(w: string)
  {
    forall k :: 0 <= k < |w| ==> IsDigit(w[k])
  }

  /** What the classification step needs of a match. */
  predicate Classifiable(rule: Kind, text: string)
  {
    text != [] && (rule == IntegerLiteral ==> AllDigits(text))
  }

  /** Every match of the sequence can be classified. */
  predicate AllClassifiable(segs: seq<Segment>)
  {
    segs == [] || (Classifiable(segs[0].rule, segs[0].text) && AllClassifiable(segs[1..]))
  }

  /** The successive matches of the combined pattern from `i` to the end of
      `s`, each one starting where the previous one ended. */
  function Segments(s: string, i: nat): (segs: seq<Segment>)
    requires i <= |s|
    ensures AllClassifiable(segs)
    decreases |s| - i, 1
  {
    if i == |s| then [] else SegmentsAt(s, i)
  }

  /** The matches from a position inside the source. */
  function SegmentsAt(s: string, i: nat): (segs: seq<Segment>)
    requires i < |s|
    ensures AllClassifiable(segs)
    decreases |s| - i, 0
  {
    var m := Select(s, i);
    [Segment(m.rule, i, s[i..i + m.len])] + Segments(s, i + m.len)
  }

  /** What the loop does with one match. */
  datatype Action = Emit(token: Token) | Discard | Raise(error: LexError)

  /** Classification of one match: integer conversion of a digit, the
      numeral of a float, keyword override of a whole identifier, the
      specific kind of an operator symbol, blanks dropped, and the
      catch-all an error naming its character. Only the catch-all raises
      and only blanks are dropped; no emitted token keeps the blank or
      catch-all kind, and the generic operator kind survives only for a
      symbol outside the seven. */
  function Classify(rule: Kind, text: string): Action
    requires Classifiable(rule, text)
  {
    match rule
    case IntegerLiteral => Emit(Token(IntegerLiteral, Int(NumeralValue(text))))
    case FloatingPointLiteral => Emit(Token(FloatingPointLiteral, Float(text)))
    case Id => Emit(Token(if text in Keywords then Keywords[text] else Id, Text(text)))
    case Op => Emit(Token(OpKind(text[0]), Text(text)))
    case Skip => Discard
    case Mismatch => Raise(Unexpected(text[0]))
    case _ => Emit(Token(rule, Text(text)))
  }

  /** What classification promises: only the catch-all raises, naming the
      character it matched, and only blanks are dropped; no emitted token
      keeps the blank or catch-all kind, the generic operator kind survives
      only for a symbol outside the seven, an identifier keeps its kind
      exactly when it is not a keyword, and every token but a number
      carries the matched text. */
  lemma ClassifyOutcomes(rule: Kind, text: string)
    requires Classifiable(rule, text)
    ensures var a := Classify(rule, text);
            (a.Raise? <==> rule == Mismatch) &&
            (a.Discard? <==> rule == Skip) &&
            (a.Raise? ==> a.error == Unexpected(text[0])) &&
            (a.Emit? ==> a.token.kind != Skip && a.token.kind != Mismatch) &&
            (a.Emit? ==> (a.token.kind == Op <==> rule == Op && !IsOpChar(text[0]))) &&
            (a.Emit? && rule == Id ==> (a.token.kind == Id <==> text !in Keywords)) &&
            (a.Emit? && rule != IntegerLiteral && rule != FloatingPointLiteral ==> a.token.value == Text(text))
  {
  }

  /** The tokens emitted, and the error if the scan stopped at one. */
  datatype Outcome = Outcome(tokens: seq<Token>, error: Option<LexError>)

  function Prepend(ts: seq<Token>, o: Outcome): Outcome
  {
    Outcome(ts + o.tokens, o.error)
  }

  /** The outcome of acting on one match, given the outcome of going on
      after it: an emitted token goes in front, a dropped match adds
      nothing, and an error stops the scan with no further tokens. */
  function Apply(a: Action, rest: Outcome): Outcome
  {
    match a
    case Emit(t) => Prepend([t], rest)
    case Discard => rest
    case Raise(e) => Outcome([], Some(e))
  }

  /** The loop over the matches. */
  function Run(segs: seq<Segment>): Outcome
    requires AllClassifiable(segs)
  {
    if segs == [] then Outcome([], None)
    else Apply(Classify(segs[0].rule, segs[0].text), Run(segs[1..]))
  }

  /** The scan of `s` from position `i`: match at the cursor, act on the
      match, and move the cursor past it. */
  function ScanFrom(s: string, i: nat): Outcome
    requires i <= |s|
    decreases |s| - i, 1
  {
    if i == |s| then Outcome([], None) else ScanAt(s, i)
  }

  /** The scan from a position inside the source. */
  function ScanAt(s: string, i: nat): Outcome
    requires i < |s|
    decreases |s| - i, 0
  {
    var m := Select(s, i);
    assert Classifiable(m.rule, s[i..i + m.len]);
    Apply(Classify(m.rule, s[i..i + m.len]), ScanFrom(s, i + m.len))
  }

  /** One step of the scan at a position inside the source, with the rest
      of the scan left unexpanded: what the match at the cursor classifies
      to decides how the scan from there is made of the scan after it. */
  lemma ScanStep(s: string, i: nat)
    requires i < |s|
    ensures Classifiable(Select(s, i).rule, s[i..i + Select(s, i).len])
    ensures var m := Select(s, i);
            var a := Classify(m.rule, s[i..i + m.len]);
            (a.Emit? ==> ScanFrom(s, i) == Prepend([a.token], ScanFrom(s, i + m.len))) &&
            (a.Discard? ==> ScanFrom(s, i) == ScanFrom(s, i + m.len)) &&
            (a.Raise? ==> ScanFrom(s, i) == Outcome([], Some(a.error)))
  {
  }

  /** The scan of the whole source. */
  function Scan(s: string): Outcome
  {
    ScanFrom(s, 0)
  }

  /** The first match and the matches after it. */
  lemma SegmentsStep(s: string, i: nat)
    requires i < |s|
    ensures var m := Select(s, i);
            var segs := Segments(s, i);
            0 < |segs| && segs[0] == Segment(m.rule, i, s[i..i + m.len]) &&
            segs[1..] == Segments(s, i + m.len)
  {
    var m := Select(s, i);
    assert Segments(s, i) == [Segment(m.rule, i, s[i..i + m.len])] + Segments(s, i + m.len);
  }

  /** The cursor scan is the loop over the successive matches of the
      combined pattern. */
  lemma {:induction false} ScanIsRunOverSegments(s: string, i: nat)
    requires i <= |s|
    ensures ScanFrom(s, i) == Run(Segments(s, i))
    decreases |s| - i
  {
    if i < |s| {
      var m := Select(s, i);
      var segs := Segments(s, i);
      SegmentsStep(s, i);
      ScanIsRunOverSegments(s, i + m.len);
      ScanStep(s, i);
    }
  }

  // ---------------------------------------------------------------------
  // Tiling and priority

  /** Concatenation of the matched texts. */
  function Texts(segs: seq<Segment>): string
  {
    if segs == [] then [] else segs[0].text + Texts(segs[1..])
  }

  /** `segs` cover `s[i..]` exactly: the first starts at `i`, each one is a
      non-empty slice of `s` starting where the previous one ended, and the
      last one ends at the end of `s`. */
  ghost predicate Tiles(segs: seq<Segment>, s: string, i: nat)
    decreases |segs|
  {
    if segs == [] then i == |s|
    else
      var n := |segs[0].text|;
      segs[0].start == i && 0 < n && i + n <= |s| && segs[0].text == s[i..i + n] &&
      Tiles(segs[1..], s, i + n)
  }

  /** The matches tile the source. */
  lemma {:induction false} SegmentsTile(s: string, i: nat)
    requires i <= |s|
    ensures Tiles(Segments(s, i), s, i)
    decreases |s| - i
  {
    var segs := Segments(s, i);
    if i < |s| {
      var m := Select(s, i);
      SegmentsStep(s, i);
      SegmentsTile(s, i + m.len);
    }
  }

  /** Segments that tile `s[i..]` spell it. */
  lemma {:induction false} TilesSpell(segs: seq<Segment>, s: string, i: nat)
    requires Tiles(segs, s, i)
    ensures i <= |s| && Texts(segs) == s[i..]
    decreases |segs|
  {
    if segs != [] {
      var n := |segs[0].text|;
      TilesSpell(segs[1..], s, i + n);
      SuffixSplits(s, i, i + n);
    }
  }

  lemma SuffixSplits(s: string, i: nat, j: nat)
    requires i <= j <= |s|
    ensures s[i..] == s[i..j] + s[j..]
  {
  }

  /** The texts of the matches put together give back the source, skipped
      blanks included: no character is lost or duplicated. */
  lemma SegmentsSpellSource(s: string, i: nat)
    requires i <= |s|
    ensures Texts(Segments(s, i)) == s[i..]
  {
    SegmentsTile(s, i);
    TilesSpell(Segments(s, i), s, i);
  }

  /** Each match is the one the ordered alternation makes at its start: the
      earliest-declared rule that matches there, with its full length. */
  lemma {:induction false} SegmentsArePriorityMatches(s: string, i: nat)
    requires i <= |s|
    ensures forall j :: 0 <= j < |Segments(s, i)| ==>
              var g := Segments(s, i)[j];
              g.start < |s| && Select(s, g.start) == Match(g.rule, |g.text|)
    decreases |s| - i
  {
    if i < |s| {
      var m := Select(s, i);
      var segs := Segments(s, i);
      SegmentsStep(s, i);
      SegmentsArePriorityMatches(s, i + m.len);
      forall j | 0 <= j < |segs|
        ensures segs[j].start < |s| && Select(s, segs[j].start) == Match(segs[j].rule, |segs[j].text|)
      {
        if j > 0 {
          assert segs[j] == Segments(s, i + m.len)[j - 1];
        }
      }
    }
  }

  /** The runs are maximal: an identifier, a float's digits and a blank run
      each end at the end of the source or before a character that could
      not extend them. */
  ghost predicate Maximal(g: Segment, s: string)
  {
    var end := g.start + |g.text|;
    end <= |s| &&
    (g.rule == Id ==> end == |s| || !IsLetter(s[end])) &&
    (g.rule == FloatingPointLiteral ==> end == |s| || !IsDigit(s[end])) &&
    (g.rule == Skip ==> end == |s| || !IsBlank(s[end]))
  }

  lemma MatchIsMaximal(s: string, i: nat)
    requires i < |s|
    ensures Maximal(Segment(Select(s, i).rule, i, s[i..i + Select(s, i).len]), s)
  {
    SelectIsDispatch(s, i);
  }

  lemma {:induction false} SegmentsAreMaximal(s: string, i: nat)
    requires i <= |s|
    ensures forall j :: 0 <= j < |Segments(s, i)| ==> Maximal(Segments(s, i)[j], s)
    decreases |s| - i
  {
    if i < |s| {
      var m := Select(s, i);
      var segs := Segments(s, i);
      SegmentsStep(s, i);
      SegmentsAreMaximal(s, i + m.len);
      MatchIsMaximal(s, i);
      forall j | 0 <= j < |segs|
        ensures Maximal(segs[j], s)
      {
        if j > 0 {
          assert segs[j] == Segments(s, i + m.len)[j - 1];
        } else {
          assert segs[0] == Segment(m.rule, i, s[i..i + m.len]);
        }
      }
    }
  }

  // ---------------------------------------------------------------------
  // The shapes of emitted tokens

  predicate IsWord(w: string)
  {
    |w| > 0 && forall k :: 0 <= k < |w| ==> IsLetter(w[k])
  }

  /** A dot followed by one or more digits. */
  predicate IsDecimalFraction(w: string)
  {
    |w| >= 2 && w[0] == '.' && forall k :: 1 <= k < |w| ==> IsDigit(w[k])
  }

  /** What a token of each kind carries. The generic operator kind, the
      blank kind and the catch-all kind never occur in a token. */
  predicate WellFormed(t: Token)
  {
    match t.kind
    case IntegerLiteral => t.value.Int? && 0 <= t.value.n <= 9
    case FloatingPointLiteral => t.value.Float? && IsDecimalFraction(t.value.numeral)
    case Id => t.value.Text? && IsWord(t.value.text) && t.value.text !in Keywords
    case LogicalAnd => t.value == Text("and")
    case LogicalOr => t.value == Text("or")
    case Equals => t.value == Text("==")
    case LessThanOrEqualTo => t.value == Text("<=")
    case GreaterThanOrEqualTo => t.value == Text(">=")
    case LessThan => t.value == Text("<")
    case GreaterThan => t.value == Text(">")
    case Assignment => t.value == Text("=")
    case End => t.value == Text(";")
    case Newline => t.value == Text("\n")
    case Addition => t.value == Text("+")
    case Subtraction => t.value == Text("-")
    case Multiplication => t.value == Text("*")
    case Division => t.value == Text("/")
    case Modulo => t.value == Text("%")
    case LeftParenthesis => t.value == Text("(")
    case RightParenthesis => t.value == Text(")")
    case Op | Skip | Mismatch => false
  }

  lemma ClassifyNumberWellFormed(s: string, i: nat)
    requires i < |s| && (IsDigit(s[i]) || s[i] == '.')
    ensures var m := Select(s, i);
            Classifiable(m.rule, s[i..i + m.len]) &&
            (Classify(m.rule, s[i..i + m.len]).Emit? ==> WellFormed(Classify(m.rule, s[i..i + m.len]).token))
  {
    SelectIsDispatch(s, i);
    if i + 1 <= |s| { RunLengthInClass(s, i + 1, Digits); }
  }

  lemma ClassifyWordWellFormed(s: string, i: nat)
    requires i < |s| && IsLetter(s[i])
    ensures var m := Select(s, i);
            Classifiable(m.rule, s[i..i + m.len]) &&
            (Classify(m.rule, s[i..i + m.len]).Emit? ==> WellFormed(Classify(m.rule, s[i..i + m.len]).token))
  {
    SelectIsDispatch(s, i);
    RunLengthInClass(s, i, Letters);
  }

  lemma ClassifyComparisonWellFormed(s: string, i: nat)
    requires i < |s| && (s[i] == '=' || s[i] == '<' || s[i] == '>')
    ensures var m := Select(s, i);
            Classifiable(m.rule, s[i..i + m.len]) &&
            (Classify(m.rule, s[i..i + m.len]).Emit? ==> WellFormed(Classify(m.rule, s[i..i + m.len]).token))
  {
    SelectIsDispatch(s, i);
    assert s[i..i + 1] == [s[i]];
    if i + 1 < |s| {
      assert s[i..i + 2] == [s[i], s[i + 1]];
    }
  }

  lemma ClassifySymbolWellFormed(s: string, i: nat)
    requires i < |s| && !IsDigit(s[i]) && s[i] != '.' && !IsLetter(s[i])
    requires s[i] != '=' && s[i] != '<' && s[i] != '>'
    ensures var m := Select(s, i);
            Classifiable(m.rule, s[i..i + m.len]) &&
            (Classify(m.rule, s[i..i + m.len]).Emit? ==> WellFormed(Classify(m.rule, s[i..i + m.len]).token))
  {
    SelectIsDispatch(s, i);
    assert s[i..i + 1] == [s[i]];
  }

  /** Every token the scan emits has the shape its kind promises: integer
      tokens carry one digit's value 0..9, float tokens a dot and a non-empty
      digit run, identifiers a non-empty letter run that is not a keyword,
      every other kind its fixed spelling; no token has the generic
      operator, blank or catch-all kind. */
  lemma {:induction false} TokensWellFormed(s: string, i: nat)
    requires i <= |s|
    ensures forall t :: t in ScanFrom(s, i).tokens ==> WellFormed(t)
    decreases |s| - i
  {
    if i < |s| {
      StepWellFormed(s, i);
      TokensWellFormed(s, i + Select(s, i).len);
    }
  }

  /** The token of one match, if it emits one, is well formed. */
  lemma StepWellFormed(s: string, i: nat)
    requires i < |s|
    ensures var m := Select(s, i);
            Classifiable(m.rule, s[i..i + m.len]) &&
            (Classify(m.rule, s[i..i + m.len]).Emit? ==> WellFormed(Classify(m.rule, s[i..i + m.len]).token))
  {
    if IsDigit(s[i]) || s[i] == '.' {
      ClassifyNumberWellFormed(s, i);
    } else if IsLetter(s[i]) {
      ClassifyWordWellFormed(s, i);
    } else if s[i] == '=' || s[i] == '<' || s[i] == '>' {
      ClassifyComparisonWellFormed(s, i);
    } else {
      ClassifySymbolWellFormed(s, i);
    }
  }

  // ---------------------------------------------------------------------
  // Runs of characters

  /** One integer token per digit of `w`, in order. */
  function IntegerTokens(w: string): (ts: seq<Token>)
    requires AllDigits(w)
    ensures |ts| == |w|
    ensures forall k :: 0 <= k < |w| ==> ts[k] == Token(IntegerLiteral, Int(DigitValue(w[k])))
  {
    if w == [] then [] else [Token(IntegerLiteral, Int(DigitValue(w[0])))] + IntegerTokens(w[1..])
  }

  lemma DigitStep(s: string, i: nat, n: nat, rest: Outcome)
    requires 0 < n && i + n <= |s|
    requires forall k :: i <= k < i + n ==> IsDigit(s[k])
    requires ScanFrom(s, i + 1) == Prepend(IntegerTokens(s[i + 1..i + n]), rest)
    ensures AllDigits(s[i..i + n])
    ensures ScanFrom(s, i) == Prepend(IntegerTokens(s[i..i + n]), rest)
  {
    SelectDigit(s, i);
    assert s[i..i + 1] == [s[i]];
    var t := Token(IntegerLiteral, Int(DigitValue(s[i])));
    assert ScanFrom(s, i) == Prepend([t], ScanFrom(s, i + 1));
    assert s[i..i + n][1..] == s[i + 1..i + n];
  }

  /** Digits are not merged: a run of n digits gives n integer tokens, one
      per digit, before whatever follows the run. */
  lemma {:induction false} DigitRunSplits(s: string, i: nat, n: nat)
    requires i + n <= |s|
    requires forall k :: i <= k < i + n ==> IsDigit(s[k])
    ensures AllDigits(s[i..i + n])
    ensures ScanFrom(s, i) == Prepend(IntegerTokens(s[i..i + n]), ScanFrom(s, i + n))
    decreases n
  {
    if n > 0 {
      DigitRunSplits(s, i + 1, n - 1);
      DigitStep(s, i, n, ScanFrom(s, i + n));
    } else {
      assert s[i..i + n] == [];
    }
  }

  /** A maximal letter run is one token: a keyword token when the whole run
      is `and` or `or`, an identifier otherwise (so `android` stays one
      identifier). */
  lemma WordRunIsOneToken(s: string, i: nat, n: nat)
    requires 0 < n && i + n <= |s|
    requires forall k :: i <= k < i + n ==> IsLetter(s[k])
    requires i + n == |s| || !IsLetter(s[i + n])
    ensures var w := s[i..i + n];
            ScanFrom(s, i) ==
              Prepend([Token(if w == "and" then LogicalAnd else if w == "or" then LogicalOr else Id, Text(w))],
                      ScanFrom(s, i + n))
  {
    SelectLetter(s, i);
    RunLengthExact(s, i, Letters, n);
  }

  /** A single letter between non-letters is an identifier: no keyword
      has one letter. */
  lemma LoneLetterIsIdentifier(s: string, i: nat)
    requires i < |s| && IsLetter(s[i]) && (i + 1 == |s| || !IsLetter(s[i + 1]))
    ensures ScanFrom(s, i) == Prepend([Token(Id, Text([s[i]]))], ScanFrom(s, i + 1))
  {
    WordRunIsOneToken(s, i, 1);
    assert s[i..i + 1] == [s[i]];
  }

  /** A dot and the maximal digit run after it are one float token, whose
      value is that text. */
  lemma FloatIsOneToken(s: string, i: nat, n: nat)
    requires 0 < n && i + 1 + n <= |s| && s[i] == '.'
    requires forall k :: i + 1 <= k < i + 1 + n ==> IsDigit(s[k])
    requires i + 1 + n == |s| || !IsDigit(s[i + 1 + n])
    ensures ScanFrom(s, i) == Prepend([Token(FloatingPointLiteral, Float(s[i..i + 1 + n]))], ScanFrom(s, i + 1 + n))
  {
    SelectFloat(s, i);
    RunLengthExact(s, i + 1, Digits, n);
  }

  /** A run of blanks is matched whole and dropped. */
  lemma SkipRun(s: string, i: nat, j: nat)
    requires i < |s| && IsBlank(s[i]) && j == i + RunLength(s, i, Blanks)
    ensures ScanFrom(s, i) == ScanFrom(s, j)
  {
    SelectBlank(s, i);
    ScanStep(s, i);
  }

  lemma BlankStep(s: string, i: nat)
    requires i < |s| && IsBlank(s[i])
    ensures ScanFrom(s, i) == ScanFrom(s, i + 1)
  {
    var j := i + RunLength(s, i, Blanks);
    SkipRun(s, i, j);
    if j > i + 1 {
      SkipRun(s, i + 1, j);
    }
  }

  /** Spaces and tabs produce no token. */
  lemma {:induction false} BlanksProduceNothing(s: string, i: nat, j: nat)
    requires i <= j <= |s|
    requires forall k :: i <= k < j ==> IsBlank(s[k])
    ensures ScanFrom(s, i) == ScanFrom(s, j)
    decreases j - i
  {
    if i < j {
      BlankStep(s, i);
      BlanksProduceNothing(s, i + 1, j);
    }
  }

  /** `==`, `<=` and `>=` are one compound token each, never a one-character
      comparison or assignment followed by an assignment. */
  lemma CompoundComparisonIsOneToken(s: string, i: nat)
    requires i + 1 < |s| && (s[i] == '=' || s[i] == '<' || s[i] == '>') && s[i + 1] == '='
    ensures ScanFrom(s, i) ==
              Prepend([Token(if s[i] == '=' then Equals
                             else if s[i] == '<' then LessThanOrEqualTo
                             else GreaterThanOrEqualTo, Text(s[i..i + 2]))],
                      ScanFrom(s, i + 2))
  {
    SelectIsDispatch(s, i);
  }

  /** Each operator symbol is one token of its specific kind. */
  lemma OperatorIsOneToken(s: string, i: nat)
    requires i < |s| && IsOpChar(s[i])
    ensures IsOperatorKind(OpKind(s[i]))
    ensures ScanFrom(s, i) == Prepend([Token(OpKind(s[i]), Text([s[i]]))], ScanFrom(s, i + 1))
  {
    SelectOperator(s, i);
    assert s[i..i + 1] == [s[i]];
  }

  // ---------------------------------------------------------------------
  // Errors

  /** The scan at `i` stops with an error exactly when only the catch-all
      rule matches there. */
  lemma MismatchIffBreaks(s: string, i: nat)
    requires i < |s|
    ensures Select(s, i).rule == Mismatch <==> Breaks(s, i)
    ensures Select(s, i).rule == Mismatch ==> Select(s, i).len == 1
  {
    SelectIsDispatch(s, i);
  }

  lemma {:induction false} RunLengthPrefix(s: string, p: nat, j: nat, cls: CharClass)
    requires j <= p < |s| && !InClass(s[p], cls)
    ensures RunLength(s, j, cls) == RunLength(s[..p], j, cls)
    decreases p - j
  {
    if j < p && InClass(s[j], cls) {
      RunLengthPrefix(s, p, j + 1, cls);
    }
  }

  /** Cutting the source just before a character that no run can absorb
      and that does not complete a comparison does not change the match
      at any earlier position. */
  lemma DispatchPrefix(s: string, p: nat, i: nat)
    requires i < p < |s|
    requires !IsDigit(s[p]) && !IsLetter(s[p]) && !IsBlank(s[p]) && s[p] != '='
    ensures Dispatch(s, i) == Dispatch(s[..p], i)
  {
    RunLengthPrefix(s, p, i, Letters);
    RunLengthPrefix(s, p, i, Blanks);
    RunLengthPrefix(s, p, i + 1, Digits);
  }

  lemma SelectPrefix(s: string, p: nat, i: nat)
    requires i < p < |s|
    requires !IsDigit(s[p]) && !IsLetter(s[p]) && !IsBlank(s[p]) && s[p] != '='
    ensures Select(s, i) == Select(s[..p], i)
  {
    SelectIsDispatch(s, i);
    SelectIsDispatch(s[..p], i);
    DispatchPrefix(s, p, i);
  }

  /** Before the first break, one step emits the same tokens whether or not
      the source is cut at the break. */
  lemma PrefixStep(s: string, p: nat, i: nat) returns (ts: seq<Token>)
    requires i < p < |s| && Breaks(s, p) && !Breaks(s, i)
    ensures i + Select(s, i).len <= p
    ensures ScanFrom(s, i) == Prepend(ts, ScanFrom(s, i + Select(s, i).len))
    ensures ScanFrom(s[..p], i) == Prepend(ts, ScanFrom(s[..p], i + Select(s, i).len))
  {
    var cut := s[..p];
    SelectPrefix(s, p, i);
    MismatchIffBreaks(s, i);
    MismatchIffBreaks(cut, i);
    var m := Select(s, i);
    assert s[i..i + m.len] == cut[i..i + m.len];
    CleanStep(s, i);
    CleanStep(cut, i);
    ts := Emitted(Classify(m.rule, s[i..i + m.len]));
  }

  /** Prepending tokens to a failed outcome and to its error-free
      counterpart keeps them apart by the error alone. */
  lemma PrependKeepsError(ts: seq<Token>, failed: Outcome, clean: Outcome)
    requires failed.error.Some? && clean.error == None
    requires failed.tokens == clean.tokens
    ensures Prepend(ts, failed) == Outcome(Prepend(ts, clean).tokens, failed.error)
    ensures Prepend(ts, clean).error == None
  {
  }

  /** At the break itself the scan fails at once, and the cut source has
      nothing left. */
  lemma BreakStep(s: string, p: nat)
    requires p < |s| && Breaks(s, p)
    ensures ScanFrom(s, p) == Outcome([], Some(Unexpected(s[p])))
    ensures ScanFrom(s[..p], p) == Outcome([], None)
  {
    MismatchIffBreaks(s, p);
  }

  /** From a position before the first break, the scan emits exactly the
      tokens of the source cut at the break, then fails naming the break's
      character. */
  lemma {:induction false} ScanStopsAtBreak(s: string, p: nat, i: nat)
    requires i <= p < |s| && Breaks(s, p)
    requires forall q :: i <= q < p ==> !Breaks(s, q)
    ensures ScanFrom(s, i) == Outcome(ScanFrom(s[..p], i).tokens, Some(Unexpected(s[p])))
    ensures ScanFrom(s[..p], i).error == None
    decreases p - i
  {
    if i == p {
      BreakStep(s, p);
    } else {
      var ts := PrefixStep(s, p, i);
      var j := i + Select(s, i).len;
      ScanStopsAtBreak(s, p, j);
      PrependKeepsError(ts, ScanFrom(s, j), ScanFrom(s[..p], j));
    }
  }

  /** The tokens an action adds to the output. */
  function Emitted(a: Action): seq<Token>
  {
    if a.Emit? then [a.token] else []
  }

  /** Away from a break, one step emits the tokens of its action (one or
      none) and goes on after the match. */
  lemma CleanStep(s: string, i: nat)
    requires i < |s| && !Breaks(s, i)
    ensures Classifiable(Select(s, i).rule, s[i..i + Select(s, i).len])
    ensures ScanFrom(s, i) ==
              Prepend(Emitted(Classify(Select(s, i).rule, s[i..i + Select(s, i).len])),
                      ScanFrom(s, i + Select(s, i).len))
  {
    MismatchIffBreaks(s, i);
    ClassifyOutcomes(Select(s, i).rule, s[i..i + Select(s, i).len]);
  }

  /** With no break from `i` on, the scan from `i` ends without an error. */
  lemma {:induction false} ScanSucceedsWithoutBreak(s: string, i: nat)
    requires i <= |s|
    requires forall q :: i <= q < |s| ==> !Breaks(s, q)
    ensures ScanFrom(s, i).error == None
    decreases |s| - i
  {
    if i < |s| {
      var j := i + Select(s, i).len;
      ScanSucceedsWithoutBreak(s, j);
      CleanStep(s, i);
    }
  }

  /** The scan fails at the first break and names its character; the tokens
      it emitted before failing are those of the source up to that break. */
  lemma ScanFailsAtFirstBreak(s: string, p: nat)
    requires p < |s| && Breaks(s, p)
    requires forall q :: 0 <= q < p ==> !Breaks(s, q)
    ensures Scan(s).error == Some(Unexpected(s[p]))
    ensures Scan(s).tokens == Scan(s[..p]).tokens && Scan(s[..p]).error == None
  {
    ScanStopsAtBreak(s, p, 0);
  }

  lemma {:induction false} FirstBreakExists(s: string, k: nat)
    requires k < |s| && Breaks(s, k)
    ensures exists p :: 0 <= p <= k && Breaks(s, p) && forall q :: 0 <= q < p ==> !Breaks(s, q)
    decreases k
  {
    if exists q :: 0 <= q < k && Breaks(s, q) {
      var q :| 0 <= q < k && Breaks(s, q);
      FirstBreakExists(s, q);
    } else {
      assert forall q :: 0 <= q < k ==> !Breaks(s, q);
    }
  }

  /** The scan fails exactly when the source has a break somewhere. */
  lemma ScanFailsIffBreak(s: string)
    ensures Scan(s).error.Some? <==> exists p :: 0 <= p < |s| && Breaks(s, p)
  {
    if exists p :: 0 <= p < |s| && Breaks(s, p) {
      var k :| 0 <= k < |s| && Breaks(s, k);
      FirstBreakExists(s, k);
      var p :| 0 <= p <= k && Breaks(s, p) && forall q :: 0 <= q < p ==> !Breaks(s, q);
      ScanFailsAtFirstBreak(s, p);
    } else {
      ScanSucceedsWithoutBreak(s, 0);
    }
  }

  /** A character outside every character class makes the scan fail, and
      the failure names the first break in source order, at or before it. */
  lemma StrayCharacterFails(s: string, k: nat)
    requires k < |s| && IsStray(s[k])
    ensures exists p :: 0 <= p <= k && Breaks(s, p) && (forall q :: 0 <= q < p ==> !Breaks(s, q)) &&
                        Scan(s).error == Some(Unexpected(s[p]))
  {
    FirstBreakExists(s, k);
    var p :| 0 <= p <= k && Breaks(s, p) && forall q :: 0 <= q < p ==> !Breaks(s, q);
    ScanFailsAtFirstBreak(s, p);
  }
}
