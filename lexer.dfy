/** The lexer object: it holds the source text and a token list that each
    call of the tokenizer appends to. */
module Lex {
  import opened LexTokens
  import opened LexRules
  import opened LexScan

  class Lexer {
    /** The text to tokenize (read from a file by the original). */
    var source: string
    /** The tokens emitted so far, by this call and by earlier ones. */
    var tokens: seq<Token>
    /** Set once and never read afterwards. */
    var currentToken: Option<Token>

    constructor(source: string)
      ensures this.source == source
      ensures tokens == []
      ensures currentToken == None
    {
      this.source := source;
      tokens := [];
      currentToken := None;
    }

    /** Walk the matches of the combined pattern over the source in order,
        appending a token for each one that classifies to a token, skipping
        blanks, and stopping with an error at the first catch-all match.
        Tokens emitted before the error stay in the list. On success the
        result is the whole list, including tokens from earlier calls. */
    method Tokenize() returns (r: Result<seq<Token>, LexError>)
      modifies this`tokens
      ensures tokens == old(tokens) + Scan(source).tokens
      ensures Scan(source).error == None ==> r == Ok(tokens)
      ensures Scan(source).error.Some? ==> r == Err(Scan(source).error.value)
      ensures forall t :: t in tokens[|old(tokens)|..] ==> WellFormed(t)
    {
      var s := source;
      TokensWellFormed(s, 0);
      var i := 0;
      while i < |s|
        invariant i <= |s|
        invariant tokens + ScanFrom(s, i).tokens == old(tokens) + Scan(s).tokens
        invariant ScanFrom(s, i).error == Scan(s).error
        decreases |s| - i
      {
        var action, next := Advance(s, i);
        if action.Raise? {
          return Err(action.error);
        }
        if action.Emit? {
          tokens := tokens + [action.token];
        }
        i := next;
      }
      return Ok(tokens);
    }
  }

  /** One turn of the loop: take the match of the combined pattern at
      cursor `i` and classify it; `next` is where the match ends. The scan
      from `i` is the scan from `next` with the action's effect in front. */
  method Advance(s: string, i: nat) returns (action: Action, next: nat)
    requires i < |s|
    ensures i < next <= |s|
    ensures action.Emit? ==> ScanFrom(s, i) == Prepend([action.token], ScanFrom(s, next))
    ensures action.Discard? ==> ScanFrom(s, i) == ScanFrom(s, next)
    ensures action.Raise? ==> ScanFrom(s, i) == Outcome([], Some(action.error))
  {
    ScanStep(s, i);
    var m := Select(s, i);
    action := Classify(m.rule, s[i..i + m.len]);
    next := i + m.len;
  }

  /** Calling the tokenizer twice on one lexer: the token list is kept
      between calls, so the second successful call returns every token
      twice over; a failing source fails both times with the same error. */
  method TokenizeTwice(source: string) returns (first: Result<seq<Token>, LexError>, second: Result<seq<Token>, LexError>)
    ensures Scan(source).error == None ==>
              first == Ok(Scan(source).tokens) &&
              second == Ok(Scan(source).tokens + Scan(source).tokens)
    ensures Scan(source).error.Some? ==>
              first == Err(Scan(source).error.value) && second == first
  {
    var lexer := new Lexer(source);
    first := lexer.Tokenize();
    assert [] + Scan(source).tokens == Scan(source).tokens;
    second := lexer.Tokenize();
  }
}
