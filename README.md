# A verified model of a rule-table lexer

This project models `Lexer.tokenize` from `lex_analyser_hw3.py` and proves
properties of it. The tokenizer turns a source text into a list of
classified tokens. It does this in three stages:

- **Rule table.** Fourteen ordered (kind, pattern) rules, plus a two-entry
  keyword map (`and`, `or`).
- **Scanner.** The rules are joined into one regular-expression
  alternation and applied with `re.finditer`. The first rule in declaration
  order whose pattern matches at the cursor wins.
- **Classification.** Each match is post-processed:
  - a digit becomes an integer;
  - a dot-and-digits match becomes a float;
  - a whole identifier run that is a keyword gets the keyword's kind;
  - the seven operator symbols get their own kinds;
  - spaces and tabs are dropped;
  - a match of the catch-all rule (a stray character, or a dot that no
    digit follows) raises an error;
  - every other match (the comparisons, `=`, `;`, a newline, a
    non-keyword identifier) is appended with its rule's kind and its text.

The tokens are appended to the lexer's own `tokens` list, which persists
between calls.

The model has five modules, one per file:

- `tokens.dfy` (`LexTokens`): the kinds, token values, the keyword map and
  the operator-symbol map.
- `rules.dfy` (`LexRules`):
  - each pattern as a hand-written "length of the match at position i"
    function;
  - the alternation as the ordered list `Rules`, tried first to last
    (`Select`);
  - a character-lookahead reference step `Dispatch` that the ordered scan
    is proved equal to.
- `scan.dfy` (`LexScan`): the scan as a value, and the lemmas about it.
  - `Segments` is the sequence of matches `finditer` produces.
  - `Classify` is the per-match classification.
  - `Run` is the loop over the matches.
  - `ScanFrom` is the same loop written over a cursor.
- `lexer.dfy` (`Lex`): the `Lexer` class with its `source`, `tokens` and
  `currentToken` fields. Its `Tokenize` method is a cursor loop that
  extends `tokens` and is proved against `Scan`.
- `scenarios.dfy` (`LexScenarios`): the exact outcome for seven small
  sources.

An error is a `Result` value carrying the offending character
(`LexError.Unexpected`) where the original raises `RuntimeError`. The
source is passed in as a string; the original reads it from a file.

A "break" (`Breaks`) is a position that only the catch-all rule can match.
There are two kinds:

- a character outside every class of the rule table;
- a `.` that no digit follows, because the float pattern needs at least one
  digit after the dot.

## Model

| member | source | states |
|---|---|---|
| LexTokens.DigitValue | lex_analyser_hw3.py:36 | The value of one ASCII digit is in 0..9, and adding it to the code of `'0'` gives back the digit. |
| LexTokens.NumeralValue | lex_analyser_hw3.py:35-36 | The integer conversion of the one-digit texts the integer rule produces: the value is that digit's, at most 9. |
| LexTokens.KeywordsAreLetterRuns | lex_analyser_hw3.py:14 | The keyword map (`Keywords`) holds letter runs of two letters or more, so the identifier rule can produce each of them whole and a single letter is never a keyword. Each maps to one of the two logical kinds, and the two keywords map to different kinds. |
| LexTokens.OpKind | lex_analyser_hw3.py:41-55 | The operator-symbol map gives the generic kind exactly for a symbol outside `+ - * / % ( )`, and one of the seven specific operator kinds for each symbol in it. |
| LexTokens.OpKindResolves | lex_analyser_hw3.py:41-55 | Two operator symbols map to the same kind only if they are the same symbol. |
| LexRules.RunLength | lex_analyser_hw3.py:17-28 | A greedy `+`/`*` run stays inside the text and ends at the end of the text or before a character outside the class. |
| LexRules.RunLengthInClass | lex_analyser_hw3.py:17-28 | Every character of the run is in the class. |
| LexRules.RunLengthExact | lex_analyser_hw3.py:17-28 | A run of class characters that ends at the end of the text, or before a character outside the class, is exactly the greedy run. |
| LexRules.RuleTableIsComplete | lex_analyser_hw3.py:15-30 | The rule table (`Rules`) holds fourteen rules with no kind twice, exactly the kinds that name a rule, and ends with the catch-all. |
| LexRules.RuleLength | lex_analyser_hw3.py:16-29 | The match of any pattern at a position never runs past the end of the source. |
| LexRules.SomeRuleMatches | lex_analyser_hw3.py:27-29 | At every position some rule of the table matches; in particular the line-break rule or the catch-all rule does. |
| LexRules.Select | lex_analyser_hw3.py:15-32 | The match of the alternation at the cursor is never empty and stays inside the source. An integer-literal match is exactly one digit. |
| LexRules.SelectIsFirstDeclared | lex_analyser_hw3.py:15-32 | The winning kind is a rule of the table. Its length is that rule's match length, and every rule declared before it fails to match there. |
| LexRules.SelectIsFirst | lex_analyser_hw3.py:15-32 | Conversely, the first declared rule that matches at the cursor is the one chosen, with its own match length. |
| LexRules.SelectIsDispatch | lex_analyser_hw3.py:15-32 | The ordered alternation gives the same match as the reference step `Dispatch` everywhere. For example, `==` is one equality match, `<=`/`>=` are compound, and a dot with no digit after it goes to the catch-all. |
| LexRules.SelectIsLongest | lex_analyser_hw3.py:15-32 | No rule matches more at the cursor than the chosen rule, so first-match is also a longest match here. |
| LexRules.SelectDigit | lex_analyser_hw3.py:16 | At a digit, the match is the integer rule with length 1. |
| LexRules.SelectFloat | lex_analyser_hw3.py:17 | At a dot followed by a digit, the match is the float rule over the dot and the whole digit run after it. |
| LexRules.SelectLetter | lex_analyser_hw3.py:25 | At a letter, the match is the identifier rule over the whole letter run. |
| LexRules.SelectOperator | lex_analyser_hw3.py:26 | At an operator symbol, the match is the generic operator rule with length 1. |
| LexRules.SelectBlank | lex_analyser_hw3.py:28 | At a space or tab, the match is the blank rule over the whole blank run. |
| LexScan.Segments | lex_analyser_hw3.py:31-32 | Every match `finditer` yields can be classified: it is non-empty, and an integer-literal match is all digits. |
| LexScan.Classify | lex_analyser_hw3.py:33-59 | Classification of one match. What it promises is stated by `LexScan.ClassifyOutcomes` and, for the matches the scanner produces, by `LexScan.StepWellFormed`. |
| LexScan.ClassifyOutcomes | lex_analyser_hw3.py:33-59 | Only the catch-all rule raises, with the matched character, and only the blank rule drops a match. No emitted token keeps the blank or catch-all kind. The generic operator kind survives only for a symbol outside the seven. An identifier keeps its kind exactly when it is not a keyword. Every token but a number carries the matched text. |
| LexScan.Apply | lex_analyser_hw3.py:56-60 | The effect of one classified match on the rest of the loop: an emitted token goes in front, a dropped match adds nothing (`continue`), and an error stops with no further tokens. Its uses are characterised by `LexScan.CleanStep` and `LexScan.ScanStopsAtBreak`. |
| LexScan.Run | lex_analyser_hw3.py:32-60 | The loop over the matches `finditer` yields, in order. `LexScan.ScanIsRunOverSegments` shows it equal to the cursor scan. |
| LexScan.ScanFrom | lex_analyser_hw3.py:32-60 | The loop written over a cursor. `LexScan.ScanIsRunOverSegments` ties it to the matches. `LexScan.TokensWellFormed` gives the shape of its tokens, and `LexScan.ScanStopsAtBreak` and `LexScan.ScanSucceedsWithoutBreak` say when it fails. |
| LexScan.ScanAt | lex_analyser_hw3.py:32-60 | The loop at a cursor inside the source: match, classify, act, and go on after the match. Its partner lemmas are those of `LexScan.ScanFrom`. |
| LexScan.Scan | lex_analyser_hw3.py:32-61 | The outcome of tokenizing a whole source. It fails exactly when the source has a break (`LexScan.ScanFailsIffBreak`), naming the first one (`LexScan.ScanFailsAtFirstBreak`). The matches behind it spell the source (`LexScan.SegmentsSpellSource`). |
| LexScan.ScanIsRunOverSegments | lex_analyser_hw3.py:32-60 | The cursor scan equals the loop over the successive `finditer` matches in source order. |
| LexScan.SegmentsTile | lex_analyser_hw3.py:27-32 | The matches tile the source. Each starts where the previous one ended (the first at the starting position), none is empty, each one's text is the source slice it covers, and the last one ends at the end of the source. |
| LexScan.TilesSpell | lex_analyser_hw3.py:31-32 | Matches that tile the source from a position concatenate to the source from that position. |
| LexScan.SegmentsSpellSource | lex_analyser_hw3.py:27-32 | The texts of all matches, skipped blanks included, concatenate to exactly the source from the starting position. |
| LexScan.SegmentsArePriorityMatches | lex_analyser_hw3.py:15-32 | Every match in the sequence is the first-declared-rule match at its own start. |
| LexScan.MatchIsMaximal | lex_analyser_hw3.py:17-28 | An identifier, the digits of a float, and a blank run each end at the end of the source or before a character that could extend them. |
| LexScan.SegmentsAreMaximal | lex_analyser_hw3.py:17-32 | Every match in the sequence is maximal in that sense. |
| LexScan.StepWellFormed | lex_analyser_hw3.py:33-60 | The token a single match emits, if any, has the shape its kind promises. |
| LexScan.TokensWellFormed | lex_analyser_hw3.py:14-60 | Every emitted token has the shape its kind promises: (1) an integer carries one digit's value 0..9; (2) a float carries a dot and a non-empty digit run; (3) an identifier carries a non-empty letter run that is not `and` or `or`; (4) every other kind carries its fixed spelling. No token has the generic operator, blank or catch-all kind. |
| LexScan.IntegerTokens | lex_analyser_hw3.py:35-36 | One integer token per digit, in order, each carrying that digit's value. |
| LexScan.DigitRunSplits | lex_analyser_hw3.py:35-36 | A run of n digits gives n consecutive integer tokens, one per digit, before whatever follows the run. |
| LexScan.WordRunIsOneToken | lex_analyser_hw3.py:39-40 | A maximal letter run is one token. It is logical-and or logical-or exactly when the whole run is `and` or `or`, and an identifier otherwise (so `android` is one identifier). |
| LexScan.LoneLetterIsIdentifier | lex_analyser_hw3.py:39-40 | A single letter between non-letters is an identifier token. |
| LexScan.FloatIsOneToken | lex_analyser_hw3.py:37-38 | A dot and the maximal digit run after it are one float token whose value is that text. |
| LexScan.SkipRun | lex_analyser_hw3.py:56-57 | A blank run is matched whole and produces nothing. |
| LexScan.BlankStep | lex_analyser_hw3.py:56-57 | The scan from a blank is the scan from the next character. |
| LexScan.BlanksProduceNothing | lex_analyser_hw3.py:56-57 | Any stretch of spaces and tabs adds no token: the scan before it equals the scan after it. |
| LexScan.CompoundComparisonIsOneToken | lex_analyser_hw3.py:18-23 | `==`, `<=` and `>=` are one equals, less-or-equal or greater-or-equal token. They are never a one-character comparison or assignment followed by an assignment. |
| LexScan.OperatorIsOneToken | lex_analyser_hw3.py:41-55 | Each operator symbol is one token of its own specific operator kind, carrying the symbol. |
| LexScan.MismatchIffBreaks | lex_analyser_hw3.py:17-29 | The catch-all rule wins at a position exactly when it is a break, and then it takes one character. |
| LexScan.CleanStep | lex_analyser_hw3.py:35-60 | Away from a break, one iteration emits its action's token (one or none) and goes on after the match. |
| LexScan.ScanStopsAtBreak | lex_analyser_hw3.py:32-60 | From before the first break, the scan emits exactly the tokens of the source cut at the break, then fails naming the break's character. |
| LexScan.ScanSucceedsWithoutBreak | lex_analyser_hw3.py:32-60 | With no break from a position on, the scan from there ends without an error. |
| LexScan.ScanFailsAtFirstBreak | lex_analyser_hw3.py:58-60 | The scan of a source fails with the character at its first break. The tokens before the error are those of the source up to the break, which scans without error. |
| LexScan.ScanFailsIffBreak | lex_analyser_hw3.py:58-59 | The scan fails exactly when the source contains a break somewhere. |
| LexScan.StrayCharacterFails | lex_analyser_hw3.py:58-59 | A character outside every class (such as `@` or `$`) makes the scan fail. The error names the first break in source order, at or before that character. |
| Lex.Lexer.constructor | lex_analyser_hw3.py:7-11 | A new lexer holds the given source, an empty token list and no current token. |
| Lex.Lexer.Tokenize | lex_analyser_hw3.py:13-61 | The token list becomes its old contents followed by the tokens of the scan, on success and on failure alike. Success returns the whole list; failure returns the scan's error (the first break, by `LexScan.ScanFailsAtFirstBreak`). The new tokens are well formed. |
| Lex.Advance | lex_analyser_hw3.py:32-59 | One loop turn: the match at the cursor, its action, and where the next match starts, tied to the scan from the cursor. |
| Lex.TokenizeTwice | lex_analyser_hw3.py:60-61 | Two calls on one lexer. On success the second returns the tokens twice over. On failure both return the same error. |
| LexScenarios.AssignmentStatement | lex_analyser_hw3.py:16-36 | `x = 10;` gives identifier `x`, assignment, integers 1 and 0, and the terminator. |
| LexScenarios.ComparisonExpression | lex_analyser_hw3.py:19-28 | `a <= b` gives identifier, less-or-equal, identifier. |
| LexScenarios.ConjunctionExpression | lex_analyser_hw3.py:39-40 | `x and y` gives identifier, logical-and, identifier. |
| LexScenarios.SumExpression | lex_analyser_hw3.py:16-43 | `.5 + 1` gives float `.5`, addition, integer 1. |
| LexScenarios.StrayCharacter | lex_analyser_hw3.py:29-60 | `a = 1 $` emits identifier, assignment and integer 1, then fails naming `$`. |
| LexScenarios.DecimalWithIntegerPart | lex_analyser_hw3.py:16-38 | `3.14` gives integer 3, then float `.14`. |
| LexScenarios.KeywordPrefix | lex_analyser_hw3.py:39-40 | `android` is one identifier, not a keyword followed by letters. |

## Left out

- File reading in `__init__` (`lex_analyser_hw3.py:7-9`): I/O. The constructor takes the source text directly. The original opens the file in text mode, so `\r\n` and `\r` reach the tokenizer as `\n`; the model takes the text after that translation, and a carriage return handed to it directly is a stray character.
- The module-level driver (`lex_analyser_hw3.py:63-66`): one file read and a print loop, only I/O.
- Python's regular-expression engine: only this one alternation is modelled. Each pattern is a hand-written match-length function, and the alternation is the ordered list of rules.
- The `Token` namedtuple (`lex_analyser_hw3.py:4`) is a plain datatype with a kind and a value.
  - The kind strings are one enumeration, holding both the rule names and the names reached by re-classification.
  - The float value is kept as its numeral text, because floating point is not modelled; `float(value)` is not converted.
- Unicode behaviour: digits and letters are ASCII only. Python's `\d` also matches other decimal digits.
- The exception type and its message text: an error carries only the offending character.
- `currentToken` is set by the constructor and never read. The original likewise never uses `current_token` after setting it.
- Lex.Lexer.Tokenize: leaves unmodelled that the original returns the list object itself, so a caller that mutates the returned list also mutates the lexer's list. The model returns a value copy.

Two properties of the code are worth stating on their own:

- The token list persists, so a second call on the same lexer returns the tokens twice over (`Lex.TokenizeTwice`). Tokenizing is not idempotent.
- The alternation is first-alternative-wins. For this table that is also a longest match (`LexRules.SelectIsLongest`), and declaration order settles the rest (`LexRules.SelectIsFirstDeclared`).
