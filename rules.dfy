/**
 * Tokens, state-transition directives and rules of lodoovka_vm/lexer.swift.
 * A Swift `Rule` is a closure built by `rule(...)` from a pattern, a
 * directive and a tokenizer; here it is the record of those three parts,
 * and `ApplyRule` is the closure's body.
 */
module Rules {
  import opened Options
  import opened Streams

  /** What the lexer does with its state stack after a match. */
  datatype NextState = Stay | Pop | Push(state: string)

  datatype Token =
    | Newline
    | Arrow
    | Label(name: string)
    | Symbol(name: string)
    | Macro(name: string)
    | Str(text: string)
    | Number(value: int)

  datatype Rule = Rule(regex: Regex, next: NextState, tokenizer: string -> Option<Token>)

  /** The outcome of a rule that matched. */
  datatype Step = Step(stream: Stream, token: Option<Token>, next: NextState)

  /** The two-argument `rule(regex, tokenizer)`: a rule that stays in the current state. */
  function StayRule(regex: Regex, tokenizer: string -> Option<Token>): (r: Rule)
    ensures r.next == Stay
    ensures r.regex == regex && r.tokenizer == tokenizer
  {
    Rule(regex, Stay, tokenizer)
  }

  /**
   * Applying a rule to a stream: no step when the pattern does not match at
   * the cursor, otherwise a copy of the stream advanced past the match, the
   * tokenizer's verdict on the matched text, and the rule's directive.
   */
  function ApplyRule(rule: Rule, s: Stream): (r: Option<Step>)
    requires Valid(s)
    ensures r.None? <==> MatchRegexAt(rule.regex, s).None?
    ensures r.Some? ==> Valid(r.value.stream) && r.value.stream.text == s.text
    ensures r.Some? ==> r.value.stream.position == s.position + |MatchRegexAt(rule.regex, s).value|
    ensures r.Some? ==> r.value.token == rule.tokenizer(s.text[s.position..r.value.stream.position])
    ensures r.Some? ==> r.value.next == rule.next
  {
    match MatchRegexAt(rule.regex, s)
    case None => None
    case Some(m) => Some(Step(s.(position := s.position + |m|), rule.tokenizer(m), rule.next))
  }

  /** The pattern only ever matches a non-empty prefix. */
  ghost predicate NonEmptyMatches(regex: Regex) {
    forall text :: regex(text).Some? ==> regex(text).value > 0
  }

  /** The pattern of `rule` only ever matches a non-empty prefix, so applying it advances the cursor. */
  ghost predicate Advances(rule: Rule) {
    NonEmptyMatches(rule.regex)
  }

  /** Every rule of a ruleset advances. */
  ghost predicate AdvancingRules(rules: seq<Rule>) {
    forall rule :: rule in rules ==> Advances(rule)
  }

  /** Every registered ruleset advances. */
  ghost predicate AdvancingStates(states: map<string, seq<Rule>>) {
    forall name :: name in states ==> AdvancingRules(states[name])
  }

  lemma AdvancingStep(rule: Rule, s: Stream)
    requires Valid(s) && Advances(rule) && ApplyRule(rule, s).Some?
    ensures s.position < ApplyRule(rule, s).value.stream.position
  {
    assert rule.regex(Remainder(s)).Some?;
    assert rule.regex(Remainder(s)).value > 0;
  }
}
