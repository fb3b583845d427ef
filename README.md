# lodoovka_vm lexer, modelled in Dafny

This project models the state-stack-driven lexer of lodoovka_vm
(`lodoovka_vm/lexer.swift`) and the generic stack it is built on
(`lodoovka_vm/stack.swift`).

The lexer owns a `Stream` (an immutable text and a cursor), the list of
tokens emitted so far, a table from state names to ordered rule lists, and
a stack of state names seeded with `"root"`. `lex` repeatedly looks up the
rule list of the state on top of the stack and hands it to `matchRuleset`.
`matchRuleset` keeps taking the first rule that matches at the cursor
(`matchRulesetOnce`, which commits the match through `matchRule`) while
input remains. On `Stay` it goes on, on `Pop` or `Push(name)` it returns
the directive to `lex`, and when no rule matches it aborts. `lex` then pops
or pushes and goes round again, and it returns once `matchRuleset` reports
that the stream is exhausted.

Layout, one module per file:

- `options.dfy` (`Options`): the `Option` type.
- `stack.dfy` (`Stacks`): `Stack<T>` as a class whose `elements` field
  (Swift's `array`) `Push` and `Pop` update in place.
- `stream.dfy` (`Streams`): `Stream`, `NSRange` as `Range`,
  `substringWithRange`, `matchingRange`, `snippet` and `matchRegexAt`.
  The regular-expression engine is an oracle `Regex`. It maps the text of
  the searched range to the length of the anchored match at its start,
  and it never reports more than that text holds.
- `rules.dfy` (`Rules`): `NextState`, `Token`, and `Rule`. A Swift `Rule`
  is a closure. Here it is the record of the three things it closes over:
  pattern, directive and token action. `ApplyRule` is the closure's body.
  Only closures built by `rule(...)` are modelled (see "## Left out").
  This file also holds the predicates that say a pattern only ever matches
  a non-empty prefix.
- `scanning.dfy` (`Scanning`): one function per lexer method, giving the
  state the method leaves behind and the value it returns:
  - `RuleStep` (`matchRule`);
  - `RulesetStep` (`matchRulesetOnce`);
  - `RulesetScan` (`matchRuleset`);
  - `Run` (`lex`);
  - `Tokenize` (a fresh lexer followed by `lex`).

  Swift's crashes come back as `LexError` values: `stack.tip!` on an empty
  stack, `states[...]!` on an unregistered state, and `fatalError`.
  The lemmas about these functions are here too.
- `lexer.dfy` (`Lexers`): the `Lexer` class with the Swift fields. Its
  methods are proved to leave exactly the state that the `Scanning`
  functions describe. `LexString` drives a fresh lexer as
  `lodoovka_vm/main.swift` does.
- `examples.dfy` (`Examples`): part of the sample grammar of
  `lodoovka_vm/main.swift`, with hand-written prefix matchers for its
  patterns, and the lexer's outcome on a few inputs.

The lexer spins forever when a rule with the directive `Stay` matches
the empty string: `position += match.length` does not move, and
`matchRuleset` takes the same step again. `MatchRuleset`, `Lex`,
`RulesetScan` and `Run` require that every rule in play advances
(`AdvancingRules`, `AdvancingStates`). That means no pattern may ever
match the empty string. The precondition is stronger than termination
needs: it also excludes grammars on which the lexer does end, such as a
single `[a-z]*` rule on `abc`, which matches all three letters at once.

For text inside the Basic Multilingual Plane, each character stands for
one of the UTF-16 code units that `NSString` counts.

Three behaviours of `lodoovka_vm/lexer.swift` worth noting:

- Popping the last state is not refused by `pop`. It empties the stack, and
  the `stack.tip!` of the next round crashes. That round happens even when
  the input is already used up, because `lex` looks up the tip's ruleset
  before `matchRuleset` notices that the stream is exhausted. For the same
  reason, pushing an unregistered state fails even at the end of the input
  (`PopOfLastState`, `Run`).
- The "no rule matched" failure reports only the snippet of at most 20
  characters. It does not report the position or the active state
  (`NoRuleMatched`).
- The cursor never moves past the end of the text. `firstMatchInString`
  searches only `matchingRange`, which ends at the end of the text, so a
  match never reaches beyond it.

## Model

| member | source | states |
|---|---|---|
| Stacks.Last | lodoovka_vm/stack.swift:5 | `array.last` is absent exactly when the array is empty; otherwise the array is everything before it followed by it |
| Stacks.Stack.constructor | lodoovka_vm/stack.swift:2 | a new stack is empty |
| Stacks.Stack.Tip | lodoovka_vm/stack.swift:4-6 | `tip` is nil exactly when the stack is empty, and otherwise is its last element |
| Stacks.Stack.Push | lodoovka_vm/stack.swift:8-10 | `push(x)` appends `x` and leaves the earlier elements as they were, so `x` becomes the tip |
| Stacks.Stack.Pop | lodoovka_vm/stack.swift:12-18 | on a non-empty stack `pop` returns the last element and removes only it; on an empty stack it returns nil and the stack stays empty; in both cases the old array is the new one plus what was returned |
| Stacks.PushPopRoundTrip | lodoovka_vm/stack.swift:8-18 | `push(x)` then `pop()` returns `x` and restores the original array |
| Streams.Substring | lodoovka_vm/lexer.swift:13 | `substringWithRange` of an in-bounds range has the range's length and holds, at each offset `i`, the text's character at `location + i` |
| Streams.MatchingRange | lodoovka_vm/lexer.swift:7-9 | `matchingRange` starts at the cursor, ends at the end of the text, and its substring is exactly the unmatched remainder |
| Streams.Snippet | lodoovka_vm/lexer.swift:11-14 | `snippet` is a prefix of the remainder of length `min(length - position, 20)`, and it is the whole remainder when that is shorter than 20 |
| Streams.MatchRegexAt | lodoovka_vm/lexer.swift:17-26 | `matchRegexAt` matches exactly when the anchored pattern matches the remainder; the result has the engine's match length, is a prefix of the remainder, and ends at or before the end of the text (taking `^` to anchor the whole pattern) |
| Rules.StayRule | lodoovka_vm/lexer.swift:36-38 | the two-argument `rule` keeps the pattern and action and has the directive `Stay` |
| Rules.ApplyRule | lodoovka_vm/lexer.swift:40-50 | a rule yields nothing exactly when its pattern does not match; otherwise it yields the same text with the cursor moved by exactly the match length, the action applied to the matched text, and the rule's own directive |
| Rules.AdvancingStep | lodoovka_vm/lexer.swift:41-45 | a rule whose pattern only matches non-empty prefixes moves the cursor strictly forward |
| Scanning.Emit | lodoovka_vm/lexer.swift:132-134 | the tokens grow by exactly the action's token when there is one, and are unchanged otherwise |
| Scanning.RuleStep | lodoovka_vm/lexer.swift:128-140 | `matchRule` commits the rule's stream and emits its token when the rule matches, and reports no match exactly when it does not |
| Scanning.RulesetStep | lodoovka_vm/lexer.swift:118-126 | `matchRulesetOnce` returns nothing exactly when no rule of the list matches; a step it takes keeps the text, moves the cursor forward (strictly, when the rules advance) and only extends the tokens |
| Scanning.FirstMatchWins | lodoovka_vm/lexer.swift:118-126 | when the rules before rule `i` do not match and rule `i` does, `matchRulesetOnce` takes rule `i`'s step, whatever later rules would do |
| Scanning.OrderMatters | lodoovka_vm/lexer.swift:118-126 | when two rules both match with different outcomes, swapping them changes which step is taken: the first declared match wins, not the longest |
| Scanning.RulesetScan | lodoovka_vm/lexer.swift:103-116 | `matchRuleset` keeps the text and moves forward only; it returns nil only on an exhausted stream; it returns a directive only if that directive is not `Stay` and the cursor has moved; it fails only while input remains and no rule matches there |
| Scanning.Run | lodoovka_vm/lexer.swift:89-101 | `lex` ends with the whole text consumed and the earlier tokens kept, or fails; a "no rule matched" failure shows between 1 and 20 characters |
| Scanning.RunKeepsBottom | lodoovka_vm/lexer.swift:89-101 | a `lex` that returns has never emptied the stack: the bottom state is still there and the final tip is a registered state |
| Scanning.Tokenize | lodoovka_vm/lexer.swift:80-101 | lexing a fresh lexer ends with the cursor at the end of the text and `root` at the bottom of the stack, or fails; an unregistered `root` fails at once with an unknown-state error |
| Scanning.TokenizeStops | lodoovka_vm/lexer.swift:89-98 | when `root` scans the text to its end, `lex` returns with the stack as it started |
| Scanning.TokenizeSticks | lodoovka_vm/lexer.swift:91-93 | when `root` gets stuck, `lex` fails showing the snippet at that point |
| Scanning.ExhaustedStops | lodoovka_vm/lexer.swift:89-104 | on an exhausted stream with a registered tip, `lex` returns at once, whatever the stack depth, emitting nothing |
| Scanning.EmptyInput | lodoovka_vm/lexer.swift:80-104 | empty input lexes to no tokens at position 0 once `root` is registered |
| Lexers.Lexer.constructor | lodoovka_vm/lexer.swift:80-83 | `init` puts the cursor at 0 with no tokens and no states, and a fresh stack holding just `root` |
| Lexers.Lexer.RegisterState | lodoovka_vm/lexer.swift:85-87 | `registerState` installs or replaces one state's list and changes nothing else |
| Lexers.Lexer.MatchRule | lodoovka_vm/lexer.swift:128-140 | the method leaves the stream and tokens that `RuleStep` gives and returns its directive; on no match it changes nothing and returns nil |
| Lexers.Lexer.MatchRulesetOnce | lodoovka_vm/lexer.swift:118-126 | the `for` loop leaves the state of the first matching rule and returns its directive (`RulesetStep`); when none matches, nothing changes and it returns nil |
| Lexers.Lexer.MatchRuleset | lodoovka_vm/lexer.swift:103-116 | the `while` loop ends in the state and with the directive that `RulesetScan` gives, or fails with the snippet where no rule matched |
| Lexers.Lexer.Lex | lodoovka_vm/lexer.swift:89-101 | the `while true` loop ends with the stream, tokens and stack that `Run` gives, or fails with `Run`'s error |
| Lexers.LexString | lodoovka_vm/main.swift:5-52 | a fresh `Lexer(string:)`, one `registerState` per state and then `lex` end with the stream, tokens and stack that `Tokenize` gives, or fail with its error |
| Examples.RootAdvances | lodoovka_vm/main.swift:7-45 | the five patterns of the sample `root` state modelled here (blanks, `->`, the opening quote, labels and words; 5 of the 11 rules of main.swift) match only non-empty prefixes, so lexing with it terminates; `[^\S\n]` is narrowed to blank and tab |
| Examples.QuotedString | lodoovka_vm/main.swift:29-50 | `"hi"` pushes `string`, emits `Str("hi")` (Swift's `.String("hi")`), pops back and ends with only `root` on the stack |
| Examples.UnmatchedInput | lodoovka_vm/lexer.swift:110-112 | a character no rule accepts is a fatal error showing that character |
| Examples.PopOfLastState | lodoovka_vm/lexer.swift:91-95 | a grammar that pops `root` fails with an empty stack even though the input is used up |
| Examples.LabelScenario | lodoovka_vm/main.swift:32-36 | `a:` lexes to `Label("a")`: the label action drops the trailing colon |
| Examples.SwappedLabelScenario | lodoovka_vm/lexer.swift:118-126 | with the word rule before the label rule, `a` is taken as a word and the colon is then left unmatched |

## Left out

- Regular-expression semantics: `NSRegularExpression` is a foreign library (lodoovka_vm/lexer.swift:18-19), so patterns are an abstract prefix-match oracle. The examples use hand-written matchers for a few of the sample patterns.
- Lexers.Lexer.Lex: on a failure the contract gives only the error, not the stream, tokens or stack at that moment. In the code a failure aborts the process, so that state is never observed.
- Lexers.LexString: on a failure the contract gives only the error, for the same reason.
- Termination: the source loops forever when a `Stay` rule matches the empty string. The model requires that no pattern in play can ever match the empty string. It does not describe that loop, and it also leaves out grammars that have such a pattern but on which the source still ends.
- Streams.MatchRegexAt: assumes the `^` that lodoovka_vm/lexer.swift:18 puts in front of the pattern anchors the whole pattern. That fails for a pattern with a top-level `|`. For `a|b` on the remainder `xb`, only the first alternative is anchored, so the engine finds `b` at offset 1, and the lexer skips `x` and emits the token for `b`. The oracle can only report a match that starts at the cursor. No pattern of lodoovka_vm/main.swift has a top-level `|`.
- Swift's fixed-width `Int`: positions and lengths are unbounded integers. They never exceed the text's length, so no overflow arises.
- Hand-written `Rule` closures: lodoovka_vm/lexer.swift:34 lets `Lexer` take any function of type `Stream -> (Stream, Token?, NextState)?`. Such a function could set the cursor anywhere or change the text. The model covers only the closures that `rule(...)` builds, as every rule of lodoovka_vm/main.swift is. The properties that the cursor only moves forward and never passes the end of the text rest on that restriction.
- `Token.description` (lodoovka_vm/lexer.swift:61-71): it only renders tokens as text for printing.
- From `lodoovka_vm/main.swift`:
  - the file reading and the printing of tokens, which are I/O;
  - the number rules, whose decoding goes through `NSScanner` and `strtol`;
  - the newline, comment and macro rules, which other rules already illustrate for the scenarios.
- `Tokenizer.playground/section-1.swift` repeats the lexer and the stack almost line for line, and is not part of this model.
- `Stack<T>` is a value type in Swift and a class here. The lexer never shares its stack, so aliasing plays no part.
- Text outside the Basic Multilingual Plane: a character such as U+1F600 is one `char` here but two UTF-16 code units in `NSString`. On such text the cursor, the match lengths (lodoovka_vm/lexer.swift:44) and the 20-unit snippet cut (lodoovka_vm/lexer.swift:12-13) differ from the model's. The cut can also split a surrogate pair, which the model cannot express.
