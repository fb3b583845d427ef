/**
 * The lexer's driving loops of lodoovka_vm/lexer.swift as functions of
 * the lexer's state: the value each of `matchRule`, `matchRulesetOnce`,
 * `matchRuleset` and `lex` leaves behind. The methods of `Lexers.Lexer`
 * are proved to compute exactly these.
 */
module Scanning {
  import opened Options
  import opened Streams
  import opened Rules

  /** The part of the lexer's state that matching changes. */
  datatype Scan = Scan(stream: Stream, tokens: seq<Token>)

  /** A committed match: the new state and the matched rule's directive. */
  datatype Moved = Moved(scan: Scan, next: NextState)

  /** How a run of `matchRuleset` ends: with the optional directive it returns, or with no rule matching. */
  datatype Scanned = Returned(next: Option<NextState>, scan: Scan) | NoMatch(scan: Scan)

  /** The lexer's fatal errors. */
  datatype LexError =
    | EmptyStack                    // `stack.tip!` after the last state was popped
    | UnknownState(name: string)    // `states[...]!` on a state never registered
    | NoRuleMatched(snippet: string) // `fatalError` in `matchRuleset`

  datatype Result<T> = Ok(value: T) | Fatal(error: LexError)

  /** How `lex` ends: with the final state and stack, or with a fatal error. */
  datatype Lexed = Done(scan: Scan, stack: seq<string>) | Failed(error: LexError)

  /** Appending the tokenizer's verdict: one token when there is one, none otherwise. */
  function Emit(tokens: seq<Token>, token: Option<Token>): (r: seq<Token>)
    ensures tokens <= r && |r| <= |tokens| + 1
    ensures r == tokens <==> token.None?
    ensures token.Some? ==> r[|tokens|] == token.value
  {
    match token
    case None => tokens
    case Some(t) => tokens + [t]
  }

  /** `matchRule`: commit the rule's stream and emit its token, or change nothing. */
  function RuleStep(rule: Rule, sc: Scan): (r: Option<Moved>)
    requires Valid(sc.stream)
    ensures r.None? <==> ApplyRule(rule, sc.stream).None?
    ensures r.Some? ==> r.value.scan.stream == ApplyRule(rule, sc.stream).value.stream
    ensures r.Some? ==> r.value.scan.tokens == Emit(sc.tokens, ApplyRule(rule, sc.stream).value.token)
    ensures r.Some? ==> r.value.next == rule.next
  {
    match ApplyRule(rule, sc.stream)
    case None => None
    case Some(step) => Some(Moved(Scan(step.stream, Emit(sc.tokens, step.token)), step.next))
  }

  /** `matchRulesetOnce`: the step of the first rule, in declared order, that matches. */
  function RulesetStep(rules: seq<Rule>, sc: Scan): (r: Option<Moved>)
    requires Valid(sc.stream)
    ensures r.None? <==> forall k :: 0 <= k < |rules| ==> RuleStep(rules[k], sc).None?
    ensures r.Some? ==> Valid(r.value.scan.stream) && r.value.scan.stream.text == sc.stream.text
    ensures r.Some? ==> sc.stream.position <= r.value.scan.stream.position && sc.tokens <= r.value.scan.tokens
    ensures r.Some? && AdvancingRules(rules) ==> sc.stream.position < r.value.scan.stream.position
  {
    if rules == [] then None
    else
      match RuleStep(rules[0], sc)
      case Some(m) =>
        assert Advances(rules[0]) ==> sc.stream.position < m.scan.stream.position by {
          if Advances(rules[0]) { AdvancingStep(rules[0], sc.stream); }
        }
        Some(m)
      case None =>
        assert forall k :: 1 <= k < |rules| ==> rules[k] == rules[1..][k - 1];
        RulesetStep(rules[1..], sc)
  }

  /** First match wins: the step taken is that of the first matching rule, whatever later rules would do. */
  lemma {:induction false} FirstMatchWins(rules: seq<Rule>, sc: Scan, i: nat)
    requires Valid(sc.stream) && i < |rules|
    requires RuleStep(rules[i], sc).Some?
    requires forall k :: 0 <= k < i ==> RuleStep(rules[k], sc).None?
    ensures RulesetStep(rules, sc) == RuleStep(rules[i], sc)
  {
    if i > 0 {
      assert RuleStep(rules[0], sc).None?;
      assert rules[1..][i - 1] == rules[i];
      assert forall k :: 0 <= k < i - 1 ==> rules[1..][k] == rules[k + 1];
      FirstMatchWins(rules[1..], sc, i - 1);
    }
  }

  /** A first rule that does not match hands the turn to the rules after it. */
  lemma SkipsUnmatched(rules: seq<Rule>, sc: Scan)
    requires Valid(sc.stream) && rules != [] && RuleStep(rules[0], sc).None?
    ensures RulesetStep(rules, sc) == RulesetStep(rules[1..], sc)
  {
  }

  /** Swapping two rules that both match, with different outcomes, changes which one fires. */
  lemma OrderMatters(r1: Rule, r2: Rule, sc: Scan)
    requires Valid(sc.stream)
    requires RuleStep(r1, sc).Some? && RuleStep(r2, sc).Some? && RuleStep(r1, sc) != RuleStep(r2, sc)
    ensures RulesetStep([r1, r2], sc) == RuleStep(r1, sc)
    ensures RulesetStep([r2, r1], sc) == RuleStep(r2, sc)
    ensures RulesetStep([r1, r2], sc) != RulesetStep([r2, r1], sc)
  {
    FirstMatchWins([r1, r2], sc, 0);
    FirstMatchWins([r2, r1], sc, 0);
  }

  /**
   * `matchRuleset`: keep taking first-match steps while input remains and
   * the directive is `Stay`; return the first other directive, or nothing
   * once the stream is exhausted.
   */
  function RulesetScan(rules: seq<Rule>, sc: Scan): (r: Scanned)
    requires Valid(sc.stream) && AdvancingRules(rules)
    ensures Valid(r.scan.stream) && r.scan.stream.text == sc.stream.text
    ensures sc.stream.position <= r.scan.stream.position && sc.tokens <= r.scan.tokens
    ensures r.Returned? && r.next.None? ==> r.scan.stream.position == |sc.stream.text|
    ensures r.Returned? && r.next.Some? ==> r.next.value != Stay && sc.stream.position < r.scan.stream.position
    ensures r.NoMatch? ==> r.scan.stream.position < |sc.stream.text| && RulesetStep(rules, r.scan).None?
    decreases |sc.stream.text| - sc.stream.position
  {
    if sc.stream.position < |sc.stream.text| then
      match RulesetStep(rules, sc)
      case None => NoMatch(sc)
      case Some(m) =>
        if m.next == Stay then RulesetScan(rules, m.scan) else Returned(Some(m.next), m.scan)
    else
      Returned(None, sc)
  }

  /**
   * `lex` from a given state: look up the ruleset of the stack's tip, run
   * `matchRuleset` on it, pop or push on the directive it returns and go
   * round again; stop when it returns nothing.
   */
  function Run(states: map<string, seq<Rule>>, stack: seq<string>, sc: Scan): (r: Lexed)
    requires Valid(sc.stream) && AdvancingStates(states)
    ensures r.Done? ==> Valid(r.scan.stream) && r.scan.stream.text == sc.stream.text
    ensures r.Done? ==> r.scan.stream.position == |sc.stream.text| && sc.tokens <= r.scan.tokens
    ensures r.Failed? && r.error.NoRuleMatched? ==> 0 < |r.error.snippet| <= SnippetLimit
    decreases |sc.stream.text| - sc.stream.position
  {
    if stack == [] then Failed(EmptyStack)
    else
      var name := stack[|stack| - 1];
      if name !in states then Failed(UnknownState(name))
      else
        var scanned := RulesetScan(states[name], sc);
        match scanned
        case NoMatch(s) => Failed(NoRuleMatched(Snippet(s.stream)))
        case Returned(next, s) =>
          if next == Some(Pop) then
            Run(states, stack[..|stack| - 1], s)
          else if next.Some? && next.value.Push? then
            Run(states, stack + [next.value.state], s)
          else
            assert next.None? && s.stream.position == |sc.stream.text|;
            Done(s, stack)
  }

  /**
   * The stack discipline: a run that succeeds never popped its bottom
   * state, and ends in a state that is registered.
   */
  lemma {:induction false} RunKeepsBottom(states: map<string, seq<Rule>>, stack: seq<string>, sc: Scan)
    requires Valid(sc.stream) && AdvancingStates(states)
    ensures var r := Run(states, stack, sc);
      r.Done? ==> stack != [] && r.stack != [] && r.stack[0] == stack[0] && r.stack[|r.stack| - 1] in states
    decreases |sc.stream.text| - sc.stream.position
  {
    if stack != [] && stack[|stack| - 1] in states {
      var scanned := RulesetScan(states[stack[|stack| - 1]], sc);
      if scanned.Returned? && scanned.next == Some(Pop) {
        var popped := stack[..|stack| - 1];
        assert Run(states, stack, sc) == Run(states, popped, scanned.scan);
        RunKeepsBottom(states, popped, scanned.scan);
      } else if scanned.Returned? && scanned.next.Some? && scanned.next.value.Push? {
        var pushed := stack + [scanned.next.value.state];
        assert Run(states, stack, sc) == Run(states, pushed, scanned.scan);
        RunKeepsBottom(states, pushed, scanned.scan);
      }
    }
  }

  /** A fresh lexer over `text` with `states` registered, run to the end. */
  function Tokenize(states: map<string, seq<Rule>>, text: string): (r: Lexed)
    requires AdvancingStates(states)
    ensures r.Done? ==> r.scan.stream == Stream(text, |text|) && |r.stack| > 0 && r.stack[0] == "root"
    ensures "root" !in states ==> r == Failed(UnknownState("root"))
  {
    RunKeepsBottom(states, ["root"], Scan(Stream(text, 0), []));
    Run(states, ["root"], Scan(Stream(text, 0), []))
  }

  /** A `Stay` move lets `matchRuleset` carry on from where the rule left the stream. */
  lemma ScanStays(rules: seq<Rule>, sc: Scan, m: Scan)
    requires Valid(sc.stream) && AdvancingRules(rules) && sc.stream.position < |sc.stream.text|
    requires RulesetStep(rules, sc) == Some(Moved(m, Stay))
    ensures Valid(m.stream)
    ensures RulesetScan(rules, sc) == RulesetScan(rules, m)
  {
  }

  /** A `Pop` or `Push` move ends `matchRuleset`, which hands the directive to `lex`. */
  lemma ScanReturns(rules: seq<Rule>, sc: Scan, m: Scan, next: NextState)
    requires Valid(sc.stream) && AdvancingRules(rules) && sc.stream.position < |sc.stream.text|
    requires RulesetStep(rules, sc) == Some(Moved(m, next)) && next != Stay
    ensures RulesetScan(rules, sc) == Returned(Some(next), m)
  {
  }

  /** Unconsumed input that no rule accepts stops `matchRuleset` where it is. */
  lemma ScanSticks(rules: seq<Rule>, sc: Scan)
    requires Valid(sc.stream) && AdvancingRules(rules) && sc.stream.position < |sc.stream.text|
    requires RulesetStep(rules, sc).None?
    ensures RulesetScan(rules, sc) == NoMatch(sc)
  {
  }

  /** A fresh lexer starts on the whole text with `root` alone on the stack. */
  lemma TokenizeStarts(states: map<string, seq<Rule>>, text: string)
    requires AdvancingStates(states)
    ensures Tokenize(states, text) == Run(states, ["root"], Scan(Stream(text, 0), []))
  {
  }

  /** When no rule of the tip's ruleset matches, `lex` fails showing what is left. */
  lemma RunSticks(states: map<string, seq<Rule>>, stack: seq<string>, sc: Scan, s: Scan)
    requires Valid(sc.stream) && AdvancingStates(states)
    requires stack != [] && stack[|stack| - 1] in states
    requires RulesetScan(states[stack[|stack| - 1]], sc) == NoMatch(s)
    ensures Run(states, stack, sc) == Failed(NoRuleMatched(Snippet(s.stream)))
  {
  }

  /** A text that `root` alone scans to its end lexes with the stack as it started. */
  lemma TokenizeStops(states: map<string, seq<Rule>>, text: string, s: Scan)
    requires AdvancingStates(states) && "root" in states
    requires RulesetScan(states["root"], Scan(Stream(text, 0), [])) == Returned(None, s)
    ensures Tokenize(states, text) == Done(s, ["root"])
  {
    assert ["root"][0] == "root";
    RunStops(states, ["root"], Scan(Stream(text, 0), []), s);
  }

  /** A text on which `root` gets stuck is a fatal error that shows what is left. */
  lemma TokenizeSticks(states: map<string, seq<Rule>>, text: string, s: Scan)
    requires AdvancingStates(states) && "root" in states
    requires RulesetScan(states["root"], Scan(Stream(text, 0), [])) == NoMatch(s)
    ensures Tokenize(states, text) == Failed(NoRuleMatched(Snippet(s.stream)))
  {
    assert ["root"][0] == "root";
    RunSticks(states, ["root"], Scan(Stream(text, 0), []), s);
  }

  /** When `matchRuleset` returns nothing, `lex` returns with the stack as it is. */
  lemma RunStops(states: map<string, seq<Rule>>, stack: seq<string>, sc: Scan, s: Scan)
    requires Valid(sc.stream) && AdvancingStates(states)
    requires stack != [] && stack[|stack| - 1] in states
    requires RulesetScan(states[stack[|stack| - 1]], sc) == Returned(None, s)
    ensures Run(states, stack, sc) == Done(s, stack)
  {
  }

  /** `Pop` resumes with the state below the tip. */
  lemma RunPops(states: map<string, seq<Rule>>, stack: seq<string>, sc: Scan, s: Scan)
    requires Valid(sc.stream) && AdvancingStates(states)
    requires stack != [] && stack[|stack| - 1] in states
    requires RulesetScan(states[stack[|stack| - 1]], sc) == Returned(Some(Pop), s)
    ensures Run(states, stack, sc) == Run(states, stack[..|stack| - 1], s)
  {
  }

  /** `Push(name)` resumes with `name` on top of the stack. */
  lemma RunPushes(states: map<string, seq<Rule>>, stack: seq<string>, sc: Scan, name: string, s: Scan)
    requires Valid(sc.stream) && AdvancingStates(states)
    requires stack != [] && stack[|stack| - 1] in states
    requires RulesetScan(states[stack[|stack| - 1]], sc) == Returned(Some(Push(name)), s)
    ensures Run(states, stack, sc) == Run(states, stack + [name], s)
  {
  }

  /** On an exhausted stream `lex` stops at once, with nothing emitted, whatever the stack depth. */
  lemma ExhaustedStops(states: map<string, seq<Rule>>, stack: seq<string>, sc: Scan)
    requires Valid(sc.stream) && AdvancingStates(states)
    requires sc.stream.position == |sc.stream.text|
    requires stack != [] && stack[|stack| - 1] in states
    ensures Run(states, stack, sc) == Done(sc, stack)
  {
  }

  /** Empty input lexes to no tokens at position 0 once `root` is registered. */
  lemma EmptyInput(states: map<string, seq<Rule>>)
    requires AdvancingStates(states) && "root" in states
    ensures Tokenize(states, "") == Done(Scan(Stream("", 0), []), ["root"])
  {
  }
}
