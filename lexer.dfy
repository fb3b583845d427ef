/**
 * The `Lexer` class of lodoovka_vm/lexer.swift: the stream, the tokens
 * emitted so far, the registered rulesets and the state stack, updated in
 * place by its methods. Each method is proved to leave exactly the state
 * (and return exactly the value) that the matching function of `Scanning`
 * describes; the Swift crashes come back as `LexError` values.
 */
module Lexers {
  import opened Options
  import opened Streams
  import opened Rules
  import opened Scanning
  import opened Stacks

  class Lexer {
    var stream: Stream
    var tokens: seq<Token>
    var states: map<string, seq<Rule>>
    const stack: Stack<string>

    ghost predicate Valid()
      reads this
    {
      Streams.Valid(stream)
    }

    /** `init(string:)`: the cursor at 0, nothing emitted or registered, and `root` on the stack. */
    constructor (text: string)
      ensures Valid()
      ensures stream == Stream(text, 0) && tokens == [] && states == map[]
      ensures fresh(stack) && stack.elements == ["root"]
    {
      stream := Stream(text, 0);
      tokens := [];
      states := map[];
      stack := new Stack<string>();
      new;
      stack.Push("root");
    }

    /** `registerState`: install (or replace) the ruleset of one state. */
    method RegisterState(name: string, ruleset: seq<Rule>)
      modifies this
      ensures states == old(states)[name := ruleset]
      ensures stream == old(stream) && tokens == old(tokens)
    {
      states := states[name := ruleset];
    }

    /** `matchRule`: commit the rule's stream and emit its token if it matches; otherwise change nothing. */
    method MatchRule(rule: Rule) returns (next: Option<NextState>)
      requires Valid()
      modifies this
      ensures Valid() && states == old(states)
      ensures var m := RuleStep(rule, old(Scan(stream, tokens)));
        if m.Some? then next == Some(m.value.next) && Scan(stream, tokens) == m.value.scan
        else next == None && stream == old(stream) && tokens == old(tokens)
    {
      var step := ApplyRule(rule, stream);
      if step.Some? {
        stream := step.value.stream;
        if step.value.token.Some? {
          tokens := tokens + [step.value.token.value];
        }
        next := Some(step.value.next);
      } else {
        next := None;
      }
    }

    /** `matchRulesetOnce`: try the rules in declared order and stop at the first that matches. */
    method MatchRulesetOnce(ruleset: seq<Rule>) returns (next: Option<NextState>)
      requires Valid()
      modifies this
      ensures Valid() && states == old(states)
      ensures var m := RulesetStep(ruleset, old(Scan(stream, tokens)));
        if m.Some? then next == Some(m.value.next) && Scan(stream, tokens) == m.value.scan
        else next == None && stream == old(stream) && tokens == old(tokens)
    {
      for i := 0 to |ruleset|
        invariant Valid() && states == old(states)
        invariant stream == old(stream) && tokens == old(tokens)
        invariant forall k :: 0 <= k < i ==> RuleStep(ruleset[k], Scan(stream, tokens)).None?
      {
        next := MatchRule(ruleset[i]);
        if next.Some? {
          FirstMatchWins(ruleset, old(Scan(stream, tokens)), i);
          return;
        }
      }
      next := None;
    }

    /**
     * `matchRuleset`: match while input remains, going on after `Stay` and
     * returning any other directive; nothing once the stream is exhausted;
     * a fatal error when no rule matches.
     */
    method MatchRuleset(ruleset: seq<Rule>) returns (r: Result<Option<NextState>>)
      requires Valid() && AdvancingRules(ruleset)
      modifies this
      ensures Valid() && states == old(states)
      ensures match RulesetScan(ruleset, old(Scan(stream, tokens)))
        case Returned(next, sc) => r == Ok(next) && Scan(stream, tokens) == sc
        case NoMatch(sc) => r == Fatal(NoRuleMatched(Snippet(sc.stream))) && Scan(stream, tokens) == sc
    {
      while stream.position < |stream.text|
        invariant Valid() && states == old(states)
        invariant RulesetScan(ruleset, Scan(stream, tokens)) == RulesetScan(ruleset, old(Scan(stream, tokens)))
        decreases |stream.text| - stream.position
      {
        var next := MatchRulesetOnce(ruleset);
        if next.None? {
          return Fatal(NoRuleMatched(Snippet(stream)));
        }
        if next.value != Stay {
          return Ok(next);
        }
      }
      return Ok(None);
    }

    /**
     * `lex`: run `matchRuleset` on the ruleset of the stack's tip, pop or
     * push on the directive it returns, and stop when it returns nothing.
     * The tip and its ruleset are looked up before every round, so a pop of
     * the last state or a push of an unregistered one fails even at the end
     * of the input.
     */
    method Lex() returns (failure: Option<LexError>)
      requires Valid() && AdvancingStates(states)
      modifies this, stack
      ensures Valid() && states == old(states)
      ensures match Run(old(states), old(stack.elements), old(Scan(stream, tokens)))
        case Done(sc, st) => failure == None && Scan(stream, tokens) == sc && stack.elements == st
        case Failed(e) => failure == Some(e)
    {
      while true
        invariant Valid() && states == old(states)
        invariant Run(states, stack.elements, Scan(stream, tokens)) == Run(old(states), old(stack.elements), old(Scan(stream, tokens)))
        decreases |stream.text| - stream.position
      {
        var tip := stack.Tip();
        if tip.None? {
          return Some(EmptyStack);
        }
        if tip.value !in states {
          return Some(UnknownState(tip.value));
        }
        var result := MatchRuleset(states[tip.value]);
        match result
        case Fatal(e) =>
          return Some(e);
        case Ok(Some(Pop)) =>
          var _ := stack.Pop();
        case Ok(Some(Push(state))) =>
          stack.Push(state);
        case Ok(_) =>
          return None;
      }
    }
  }
  /**
   * How lodoovka_vm/main.swift drives the lexer: a fresh `Lexer(string:)`,
   * one `registerState` per state, then `lex`. The outcome is `Tokenize`.
   */
  method LexString(text: string, states: map<string, seq<Rule>>) returns (lexer: Lexer, failure: Option<LexError>)
    requires AdvancingStates(states)
    ensures lexer.states == states
    ensures match Tokenize(states, text)
      case Done(sc, st) => failure == None && Scan(lexer.stream, lexer.tokens) == sc && lexer.stack.elements == st
      case Failed(e) => failure == Some(e)
  {
    lexer := new Lexer(text);
    var pending := states.Keys;
    while pending != {}
      invariant fresh(lexer) && fresh(lexer.stack)
      invariant lexer.stream == Stream(text, 0) && lexer.tokens == [] && lexer.stack.elements == ["root"]
      invariant pending <= states.Keys && lexer.states.Keys == states.Keys - pending
      invariant forall name :: name in lexer.states ==> lexer.states[name] == states[name]
      decreases |pending|
    {
      var name :| name in pending;
      lexer.RegisterState(name, states[name]);
      pending := pending - {name};
    }
    assert lexer.states == states;
    failure := lexer.Lex();
  }
}
