/** The rule table and the first-match scanner step. Each of the fourteen
    patterns is a hand-written "length of the match at position i" function
    (0 when the pattern does not match there); the combined alternation is
    the ordered try-list `Rules`, whose first rule with a non-empty match
    wins. */
module LexRules {
  import opened LexTokens

  datatype CharClass = Digits | Letters | Blanks

  predicate InClass(c: char, cls: CharClass)
  {
    match cls
    case Digits => IsDigit(c)
    case Letters => IsLetter(c)
    case Blanks => IsBlank(c)
  }

  /** Length of the maximal run of `cls` characters starting at `i`
      (a greedy `+` or `*` repetition). */
  function RunLength(s: string, i: nat, cls: CharClass): (n: nat)
    requires i <= |s|
    ensures i + n <= |s|
    ensures i + n == |s| || !InClass(s[i + n], cls)
    decreases |s| - i
  {
    if i < |s| && InClass(s[i], cls) then 1 + RunLength(s, i + 1, cls) else 0
  }

  /** Every character of the run is in the class. */
  lemma {:induction false} RunLengthInClass(s: string, i: nat, cls: CharClass)
    requires i <= |s|
    ensures forall k :: i <= k < i + RunLength(s, i, cls) ==> InClass(s[k], cls)
    decreases |s| - i
  {
    if i < |s| && InClass(s[i], cls) {
      RunLengthInClass(s, i + 1, cls);
    }
  }

  /** A run of class characters ended by the end of the text or by a
      character outside the class is the maximal run. */
  lemma {:induction false} RunLengthExact(s: string, i: nat, cls: CharClass, n: nat)
    requires i + n <= |s|
    requires forall k :: i <= k < i + n ==> InClass(s[k], cls)
    requires i + n == |s| || !InClass(s[i + n], cls)
    ensures RunLength(s, i, cls) == n
    decreases n
  {
    if n > 0 {
      RunLengthExact(s, i + 1, cls, n - 1);
    }
  }

  /** Length of a match of the two-character text `a b` at `i`, or 0. */
  function PairLength(s: string, i: nat, a: char, b: char): (n: nat)
    requires i < |s|
    ensures i + n <= |s|
  {
    if i + 1 < |s| && s[i] == a && s[i + 1] == b then 2 else 0
  }

  /** The rule table, in declaration (priority) order. */
  const Rules: seq<Kind> :=
    [ IntegerLiteral, FloatingPointLiteral, Equals, LessThanOrEqualTo,
      GreaterThanOrEqualTo, LessThan, GreaterThan, Assignment, End, Id, Op,
      Newline, Skip, Mismatch ]

  /** Length of the match of rule `k`'s pattern at position `i`; 0 when it
      does not match (and for the kinds that are not rules at all). */
  function RuleLength(k: Kind, s: string, i: nat): (n: nat)
    requires i < |s|
    ensures i + n <= |s|
  {
    match k
    // a single digit
    case IntegerLiteral => if IsDigit(s[i]) then 1 else 0
    // a dot followed by one or more digits
    case FloatingPointLiteral =>
      var d := RunLength(s, i + 1, Digits);
      if s[i] == '.' && d > 0 then 1 + d else 0
    case Equals => PairLength(s, i, '=', '=')
    case LessThanOrEqualTo => PairLength(s, i, '<', '=')
    case GreaterThanOrEqualTo => PairLength(s, i, '>', '=')
    case LessThan => if s[i] == '<' then 1 else 0
    case GreaterThan => if s[i] == '>' then 1 else 0
    case Assignment => if s[i] == '=' then 1 else 0
    case End => if s[i] == ';' then 1 else 0
    // one or more letters
    case Id => RunLength(s, i, Letters)
    // one of + - * / % ( )
    case Op => if IsOpChar(s[i]) then 1 else 0
    case Newline => if s[i] == '\n' then 1 else 0
    // one or more spaces or tabs
    case Skip => RunLength(s, i, Blanks)
    // any character but a line break
    case Mismatch => if s[i] != '\n' then 1 else 0
    case _ => 0
  }

  /** The kinds that name a rule of the table (the others are only reached
      by re-classification). */
  predicate IsRule(k: Kind)
  {
    match k
    case LogicalAnd | LogicalOr | Addition | Subtraction | Multiplication
       | Division | Modulo | LeftParenthesis | RightParenthesis => false
    case _ => true
  }

  /** The table holds fourteen distinct rules, one for each kind that names
      a rule, and ends with the catch-all. */
  lemma RuleTableIsComplete()
    ensures |Rules| == 14 && Rules[|Rules| - 1] == Mismatch
    ensures forall k :: k in Rules <==> IsRule(k)
    ensures forall a, b :: 0 <= a < b < |Rules| ==> Rules[a] != Rules[b]
  {
  }

  /** A match of the combined pattern: which rule won and how much it took. */
  datatype Match = Match(rule: Kind, len: nat)

  /** Index of the first rule at or after `j` whose pattern matches at `i`
      (the last rule when none before it does). */
  ghost function FirstFrom(s: string, i: nat, j: nat): (r: nat)
    requires i < |s| && j < |Rules|
    ensures j <= r < |Rules|
    decreases |Rules| - j
  {
    if j == |Rules| - 1 || RuleLength(Rules[j], s, i) > 0 then j else FirstFrom(s, i, j + 1)
  }

  /** When some rule at or after `j` matches, `FirstFrom` finds the first. */
  lemma {:induction false} FirstFromIsFirst(s: string, i: nat, j: nat)
    requires i < |s| && j < |Rules|
    requires exists k :: j <= k < |Rules| && RuleLength(Rules[k], s, i) > 0
    ensures RuleLength(Rules[FirstFrom(s, i, j)], s, i) > 0
    ensures forall k :: j <= k < FirstFrom(s, i, j) ==> RuleLength(Rules[k], s, i) == 0
    decreases |Rules| - j
  {
    if j < |Rules| - 1 && RuleLength(Rules[j], s, i) == 0 {
      var k :| j <= k < |Rules| && RuleLength(Rules[k], s, i) > 0;
      assert j + 1 <= k;
      FirstFromIsFirst(s, i, j + 1);
    }
  }

  /** Some rule matches at every position: the line-break rule or the
      catch-all rule. */
  lemma SomeRuleMatches(s: string, i: nat)
    requires i < |s|
    ensures exists k :: 0 <= k < |Rules| && RuleLength(Rules[k], s, i) > 0
    ensures RuleLength(Newline, s, i) > 0 || RuleLength(Mismatch, s, i) > 0
  {
    if s[i] == '\n' {
      assert RuleLength(Rules[11], s, i) > 0;
    } else {
      assert RuleLength(Rules[13], s, i) > 0;
    }
  }

  /** Try the rules from the `j`-th on, in declaration order, and take the
      first that matches at `i` (the last one when none before it does). */
  function SelectFrom(s: string, i: nat, j: nat): Match
    requires i < |s| && j < |Rules|
    decreases |Rules| - j
  {
    if j == |Rules| - 1 || RuleLength(Rules[j], s, i) > 0 then Match(Rules[j], RuleLength(Rules[j], s, i))
    else SelectFrom(s, i, j + 1)
  }

  lemma {:induction false} SelectFromIsFirstFrom(s: string, i: nat, j: nat)
    requires i < |s| && j < |Rules|
    ensures SelectFrom(s, i, j) == Match(Rules[FirstFrom(s, i, j)], RuleLength(Rules[FirstFrom(s, i, j)], s, i))
    decreases |Rules| - j
  {
    if j < |Rules| - 1 && RuleLength(Rules[j], s, i) == 0 {
      SelectFromIsFirstFrom(s, i, j + 1);
    }
  }

  /** The match of the combined alternation at `i`: the earliest-declared
      rule whose pattern matches there. The match is never empty. */
  function Select(s: string, i: nat): (m: Match)
    requires i < |s|
    ensures 0 < m.len && i + m.len <= |s|
    ensures m.rule == IntegerLiteral ==> m.len == 1 && IsDigit(s[i])
  {
    SomeRuleMatches(s, i);
    FirstFromIsFirst(s, i, 0);
    SelectFromIsFirstFrom(s, i, 0);
    SelectFrom(s, i, 0)
  }

  /** The selected rule is a rule of the table whose pattern matches at `i`
      with the selected length, and every rule declared before it fails to
      match there. */
  lemma SelectIsFirstDeclared(s: string, i: nat)
    requires i < |s|
    ensures IsRule(Select(s, i).rule)
    ensures Select(s, i).len == RuleLength(Select(s, i).rule, s, i)
    ensures exists j :: 0 <= j < |Rules| && Rules[j] == Select(s, i).rule &&
                        forall k :: 0 <= k < j ==> RuleLength(Rules[k], s, i) == 0
  {
    SomeRuleMatches(s, i);
    FirstFromIsFirst(s, i, 0);
    SelectFromIsFirstFrom(s, i, 0);
    var j := FirstFrom(s, i, 0);
    assert Rules[j] == Select(s, i).rule;
  }

  /** If rule `j` is the first rule matching at `i`, it is the one selected. */
  lemma SelectIsFirst(s: string, i: nat, j: nat)
    requires i < |s| && j < |Rules|
    requires RuleLength(Rules[j], s, i) > 0
    requires forall k :: 0 <= k < j ==> RuleLength(Rules[k], s, i) == 0
    ensures Select(s, i) == Match(Rules[j], RuleLength(Rules[j], s, i))
  {
    SomeRuleMatches(s, i);
    FirstFromIsFirst(s, i, 0);
    SelectFromIsFirstFrom(s, i, 0);
  }

  /** A hand-written lexer step that looks at the current character (and
      at most one more) instead of trying the rules in turn: the reference
      against which the priority scan is checked. */
  function Dispatch(s: string, i: nat): Match
    requires i < |s|
  {
    var c := s[i];
    var next := if i + 1 < |s| then s[i + 1] else '\n';
    if IsDigit(c) then Match(IntegerLiteral, 1)
    else if c == '.' then
      (if i + 1 < |s| && IsDigit(next)
       then Match(FloatingPointLiteral, 1 + RunLength(s, i + 1, Digits))
       else Match(Mismatch, 1))
    else if c == '=' then (if next == '=' then Match(Equals, 2) else Match(Assignment, 1))
    else if c == '<' then (if next == '=' then Match(LessThanOrEqualTo, 2) else Match(LessThan, 1))
    else if c == '>' then (if next == '=' then Match(GreaterThanOrEqualTo, 2) else Match(GreaterThan, 1))
    else if c == ';' then Match(End, 1)
    else if IsLetter(c) then Match(Id, RunLength(s, i, Letters))
    else if IsOpChar(c) then Match(Op, 1)
    else if c == '\n' then Match(Newline, 1)
    else if IsBlank(c) then Match(Skip, RunLength(s, i, Blanks))
    else Match(Mismatch, 1)
  }

  /** A character outside every character class of the rule table: only
      the catch-all rule can match it. */
  predicate IsStray(c: char)
  {
    !IsDigit(c) && c != '.' && c != '=' && c != '<' && c != '>' && c != ';' && !IsLetter(c) && !IsOpChar(c) && c != '\n' && !IsBlank(c)
  }

  /** Position `i` holds a stray character, or a dot that no digit follows. */
  predicate Breaks(s: string, i: nat)
    requires i < |s|
  {
    IsStray(s[i]) || (s[i] == '.' && !(i + 1 < |s| && IsDigit(s[i + 1])))
  }

  // One lemma per group of first characters keeps each proof small.

  lemma SelectNumber(s: string, i: nat)
    requires i < |s| && (IsDigit(s[i]) || s[i] == '.')
    ensures Select(s, i) == Dispatch(s, i)
  {
    if IsDigit(s[i]) {
      SelectIsFirst(s, i, 0);
    } else if i + 1 < |s| && IsDigit(s[i + 1]) {
      SelectIsFirst(s, i, 1);
    } else {
      SelectIsFirst(s, i, 13);
    }
  }

  lemma SelectEquals(s: string, i: nat)
    requires i < |s| && s[i] == '='
    ensures Select(s, i) == Dispatch(s, i)
  {
    if i + 1 < |s| && s[i + 1] == '=' {
      SelectIsFirst(s, i, 2);
    } else {
      SelectIsFirst(s, i, 7);
    }
  }

  lemma SelectLess(s: string, i: nat)
    requires i < |s| && s[i] == '<'
    ensures Select(s, i) == Dispatch(s, i)
  {
    if i + 1 < |s| && s[i + 1] == '=' {
      SelectIsFirst(s, i, 3);
    } else {
      SelectIsFirst(s, i, 5);
    }
  }

  lemma SelectGreater(s: string, i: nat)
    requires i < |s| && s[i] == '>'
    ensures Select(s, i) == Dispatch(s, i)
  {
    if i + 1 < |s| && s[i + 1] == '=' {
      SelectIsFirst(s, i, 4);
    } else {
      SelectIsFirst(s, i, 6);
    }
  }

  lemma SelectSingle(s: string, i: nat)
    requires i < |s| && !IsDigit(s[i]) && s[i] != '.' && s[i] != '=' && s[i] != '<' && s[i] != '>'
    ensures Select(s, i) == Dispatch(s, i)
  {
    var c := s[i];
    if c == ';' {
      SelectIsFirst(s, i, 8);
    } else if IsLetter(c) {
      SelectIsFirst(s, i, 9);
    } else if IsOpChar(c) {
      SelectIsFirst(s, i, 10);
    } else if c == '\n' {
      SelectIsFirst(s, i, 11);
    } else if IsBlank(c) {
      SelectIsFirst(s, i, 12);
    } else {
      SelectIsFirst(s, i, 13);
    }
  }

  /** The ordered alternation and the character dispatch agree everywhere:
      `==` is one equality match (not two assignments), `<=` and `>=` are the
      compound comparisons, a dot takes the whole digit run after it, a
      letter run is taken whole, and a dot not followed by a digit falls
      through to the catch-all. */
  lemma SelectIsDispatch(s: string, i: nat)
    requires i < |s|
    ensures Select(s, i) == Dispatch(s, i)
  {
    if IsDigit(s[i]) || s[i] == '.' {
      SelectNumber(s, i);
    } else if s[i] == '=' {
      SelectEquals(s, i);
    } else if s[i] == '<' {
      SelectLess(s, i);
    } else if s[i] == '>' {
      SelectGreater(s, i);
    } else {
      SelectSingle(s, i);
    }
  }

  // The selected match for each kind of first character, as consequences
  // of the agreement above.

  /** No rule matches more at the cursor than the rule that is chosen, so
      the first-match choice is also a longest match, with ties going to
      the rule declared first. */
  lemma SelectIsLongest(s: string, i: nat, k: Kind)
    requires i < |s|
    ensures RuleLength(k, s, i) <= Select(s, i).len
  {
    SelectIsDispatch(s, i);
  }

  lemma SelectDigit(s: string, i: nat)
    requires i < |s| && IsDigit(s[i])
    ensures Select(s, i) == Match(IntegerLiteral, 1)
  {
    SelectIsDispatch(s, i);
  }

  lemma SelectFloat(s: string, i: nat)
    requires i + 1 < |s| && s[i] == '.' && IsDigit(s[i + 1])
    ensures Select(s, i) == Match(FloatingPointLiteral, 1 + RunLength(s, i + 1, Digits))
  {
    SelectIsDispatch(s, i);
  }

  lemma SelectLetter(s: string, i: nat)
    requires i < |s| && IsLetter(s[i])
    ensures Select(s, i) == Match(Id, RunLength(s, i, Letters))
  {
    SelectIsDispatch(s, i);
  }

  lemma SelectOperator(s: string, i: nat)
    requires i < |s| && IsOpChar(s[i])
    ensures Select(s, i) == Match(Op, 1)
  {
    SelectIsDispatch(s, i);
  }

  lemma SelectBlank(s: string, i: nat)
    requires i < |s| && IsBlank(s[i])
    ensures Select(s, i) == Match(Skip, RunLength(s, i, Blanks))
  {
    SelectIsDispatch(s, i);
  }
}
