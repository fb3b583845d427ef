/**
 * A grammar in the style of lodoovka_vm/main.swift, with its regular
 * expressions replaced by hand-written prefix matchers, and the runs of
 * the lexer on a few inputs worked out from the model.
 */
module Examples {
  import opened Options
  import opened Streams
  import opened Rules
  import opened Scanning

  /** The length of the longest prefix of `text` whose characters all satisfy `p`. */
  function SpanLength(text: string, p: char -> bool): (n: nat)
    ensures n <= |text|
  {
    if text == [] || !p(text[0]) then 0 else 1 + SpanLength(text[1..], p)
  }

  /** A pattern made of one character class and `+`, matched greedily. */
  function SpanMatch(text: string, p: char -> bool): (r: Option<nat>)
    ensures r.Some? ==> 0 < r.value <= |text|
  {
    var n := SpanLength(text, p);
    if n > 0 then Some(n) else None
  }

  /** A word character of `[a-zA-Z_]`. */
  predicate IsWordChar(c: char) {
    ('a' <= c <= 'z') || ('A' <= c <= 'Z') || c == '_'
  }

  /** A character of `[^\S\n]`, here a blank or a tab. */
  predicate IsBlank(c: char) {
    c == ' ' || c == '\t'
  }

  /** A character of `[^"]`. */
  predicate IsNotQuote(c: char) {
    c != '"'
  }

  /** The pattern `[^\S\n]+`. */
  function BlankMatch(text: string): (r: Option<nat>)
    ensures r.Some? ==> 0 < r.value <= |text|
  {
    SpanMatch(text, IsBlank)
  }

  /** The pattern `[a-zA-Z_]+`. */
  function WordMatch(text: string): (r: Option<nat>)
    ensures r.Some? ==> 0 < r.value <= |text|
  {
    SpanMatch(text, IsWordChar)
  }

  /** The pattern `[^"]+`. */
  function NotQuoteMatch(text: string): (r: Option<nat>)
    ensures r.Some? ==> 0 < r.value <= |text|
  {
    SpanMatch(text, IsNotQuote)
  }

  /** The pattern `"`. */
  function QuoteMatch(text: string): (r: Option<nat>)
    ensures r.Some? ==> 0 < r.value <= |text|
  {
    if |text| > 0 && text[0] == '"' then Some(1) else None
  }

  /** The pattern `->`. */
  function ArrowMatch(text: string): (r: Option<nat>)
    ensures r.Some? ==> 0 < r.value <= |text|
  {
    if |text| >= 2 && text[0] == '-' && text[1] == '>' then Some(2) else None
  }

  /** The pattern `[a-zA-Z_]+:`. */
  function LabelMatch(text: string): (r: Option<nat>)
    ensures r.Some? ==> 0 < r.value <= |text|
  {
    var n := SpanLength(text, IsWordChar);
    if 0 < n < |text| && text[n] == ':' then Some(n + 1) else None
  }

  /** A label's name is its match without the trailing `:`. */
  function LabelToken(m: string): (tok: Option<Token>) {
    Some(Label(if |m| > 0 then m[..|m| - 1] else m))
  }

  function NoToken(m: string): (tok: Option<Token>) { None }
  function ArrowToken(m: string): (tok: Option<Token>) { Some(Arrow) }
  function SymbolToken(m: string): (tok: Option<Token>) { Some(Symbol(m)) }
  function StrToken(m: string): (tok: Option<Token>) { Some(Str(m)) }

  function Blanks(): (rule: Rule) { StayRule(BlankMatch, NoToken) }
  function Arrows(): (rule: Rule) { StayRule(ArrowMatch, ArrowToken) }
  function OpenQuote(): (rule: Rule) { Rule(QuoteMatch, Push("string"), NoToken) }
  function Labels(): (rule: Rule) { StayRule(LabelMatch, LabelToken) }
  function Words(): (rule: Rule) { StayRule(WordMatch, SymbolToken) }
  function Chars(): (rule: Rule) { StayRule(NotQuoteMatch, StrToken) }
  function CloseQuote(): (rule: Rule) { Rule(QuoteMatch, Pop, NoToken) }

  /** The `root` state of the grammar: blanks, `->`, an opening quote, labels and words. */
  function RootRules(): (rules: seq<Rule>) {
    [Blanks(), Arrows(), OpenQuote(), Labels(), Words()]
  }

  /** The `string` state: the text up to the closing quote, then the quote. */
  function StringRules(): (rules: seq<Rule>) {
    [Chars(), CloseQuote()]
  }

  function Grammar(): (grammar: map<string, seq<Rule>>) {
    map["root" := RootRules(), "string" := StringRules()]
  }

  /** `root` with the word rule put before the label rule. */
  function SwappedRootRules(): (rules: seq<Rule>) {
    [Blanks(), Arrows(), OpenQuote(), Words(), Labels()]
  }

  lemma StringRulesAt()
    ensures |StringRules()| == 2
    ensures StringRules()[0] == Chars() == Rule(NotQuoteMatch, Stay, StrToken)
    ensures StringRules()[1] == CloseQuote()
  {
  }

  /** Every pattern of the grammar only ever matches a non-empty prefix, so `lex` terminates on it. */
  lemma RootAdvances()
    ensures Advances(Blanks()) && Advances(Arrows()) && Advances(OpenQuote())
    ensures Advances(Labels()) && Advances(Words())
    ensures AdvancingRules(RootRules())
  {
    FiveAdvance(Blanks(), Arrows(), OpenQuote(), Labels(), Words());
  }

  lemma FiveAdvance(a: Rule, b: Rule, c: Rule, d: Rule, e: Rule)
    requires Advances(a) && Advances(b) && Advances(c) && Advances(d) && Advances(e)
    ensures AdvancingRules([a, b, c, d, e])
  {
  }

  lemma StringAdvances()
    ensures AdvancingRules(StringRules())
  {
    assert Advances(Chars()) && Advances(CloseQuote());
  }

  lemma GrammarAdvances()
    ensures AdvancingStates(Grammar())
  {
    RootAdvances();
    StringAdvances();
  }

  /** A rule whose pattern matches `n` characters at the cursor commits them. */
  lemma MatchedStep(rule: Rule, sc: Scan, n: nat)
    requires Valid(sc.stream) && sc.stream.position + n <= |sc.stream.text|
    requires rule.regex(Remainder(sc.stream)) == Some(n)
    ensures var s := sc.stream; var m := s.text[s.position..s.position + n];
      RuleStep(rule, sc) == Some(Moved(Scan(Stream(s.text, s.position + n), Emit(sc.tokens, rule.tokenizer(m))), rule.next))
  {
  }

  /** A rule whose pattern does not match at the cursor changes nothing. */
  lemma UnmatchedStep(rule: Rule, sc: Scan)
    requires Valid(sc.stream) && rule.regex(Remainder(sc.stream)).None?
    ensures RuleStep(rule, sc).None?
  {
  }

  /** A rule on `"` steps over a quote at the cursor and matches nothing else. */
  lemma QuoteStep(next: NextState, tokenizer: string -> Option<Token>, sc: Scan)
    requires Valid(sc.stream)
    ensures var s := sc.stream;
      RuleStep(Rule(QuoteMatch, next, tokenizer), sc)
      == if s.position < |s.text| && s.text[s.position] == '"'
         then Some(Moved(Scan(Stream(s.text, s.position + 1), Emit(sc.tokens, tokenizer("\""))), next))
         else None
  {
    var s := sc.stream;
    var rule := Rule(QuoteMatch, next, tokenizer);
    if s.position < |s.text| && s.text[s.position] == '"' {
      assert Remainder(s)[0] == s.text[s.position];
      assert s.text[s.position..s.position + 1] == "\"";
      MatchedStep(rule, sc, 1);
    } else {
      assert s.position < |s.text| ==> Remainder(s)[0] == s.text[s.position];
      UnmatchedStep(rule, sc);
    }
  }

  /** None of the `root` rules matches at a character that starts no blank, arrow, quote or word. */
  lemma RootMisses(sc: Scan)
    requires Valid(sc.stream) && sc.stream.position < |sc.stream.text|
    requires var c := sc.stream.text[sc.stream.position]; !IsBlank(c) && c != '-' && c != '"' && !IsWordChar(c)
    ensures RuleStep(Blanks(), sc).None? && RuleStep(Arrows(), sc).None? && RuleStep(OpenQuote(), sc).None?
    ensures RuleStep(Labels(), sc).None? && RuleStep(Words(), sc).None?
  {
    var rem := Remainder(sc.stream);
    assert rem[0] == sc.stream.text[sc.stream.position];
    assert SpanLength(rem, IsBlank) == 0 && SpanLength(rem, IsWordChar) == 0;
    UnmatchedStep(Blanks(), sc);
    UnmatchedStep(Arrows(), sc);
    UnmatchedStep(Labels(), sc);
    UnmatchedStep(Words(), sc);
    QuoteStep(Push("string"), NoToken, sc);
  }

  /** In a ruleset of five, the third rule wins when the two before it do not match. */
  lemma ThirdOfFive(a: Rule, b: Rule, c: Rule, d: Rule, e: Rule, sc: Scan)
    requires Valid(sc.stream)
    requires RuleStep(a, sc).None? && RuleStep(b, sc).None? && RuleStep(c, sc).Some?
    ensures RulesetStep([a, b, c, d, e], sc) == RuleStep(c, sc)
  {
    var rules := [a, b, c, d, e];
    SkipsUnmatched(rules, sc);
    assert rules[1..] == [b, c, d, e];
    SkipsUnmatched([b, c, d, e], sc);
    assert [b, c, d, e][1..] == [c, d, e];
    FirstMatchWins([c, d, e], sc, 0);
  }

  /** In a ruleset of five, the fourth rule wins when the three before it do not match. */
  lemma FourthOfFive(a: Rule, b: Rule, c: Rule, d: Rule, e: Rule, sc: Scan)
    requires Valid(sc.stream)
    requires RuleStep(a, sc).None? && RuleStep(b, sc).None? && RuleStep(c, sc).None? && RuleStep(d, sc).Some?
    ensures RulesetStep([a, b, c, d, e], sc) == RuleStep(d, sc)
  {
    var rules := [a, b, c, d, e];
    SkipsUnmatched(rules, sc);
    assert rules[1..] == [b, c, d, e];
    SkipsUnmatched([b, c, d, e], sc);
    assert [b, c, d, e][1..] == [c, d, e];
    SkipsUnmatched([c, d, e], sc);
    assert [c, d, e][1..] == [d, e];
    FirstMatchWins([d, e], sc, 0);
  }

  /** A ruleset of five rules matches nothing when none of its rules does. */
  lemma NoneOfFive(a: Rule, b: Rule, c: Rule, d: Rule, e: Rule, sc: Scan)
    requires Valid(sc.stream)
    requires RuleStep(a, sc).None? && RuleStep(b, sc).None? && RuleStep(c, sc).None?
    requires RuleStep(d, sc).None? && RuleStep(e, sc).None?
    ensures RulesetStep([a, b, c, d, e], sc).None?
  {
    var rules := [a, b, c, d, e];
    SkipsUnmatched(rules, sc);
    assert rules[1..] == [b, c, d, e];
    SkipsUnmatched([b, c, d, e], sc);
    assert [b, c, d, e][1..] == [c, d, e];
    SkipsUnmatched([c, d, e], sc);
    assert [c, d, e][1..] == [d, e];
    SkipsUnmatched([d, e], sc);
    assert [d, e][1..] == [e];
    SkipsUnmatched([e], sc);
    assert [e][1..] == [];
  }

  /** The input `"hi"`, quotes included. */
  function Quoted(): (text: string) { "\"hi\"" }

  lemma QuotedHead(sc: Scan)
    requires sc == Scan(Stream(Quoted(), 0), [])
    ensures RuleStep(Blanks(), sc).None? && RuleStep(Arrows(), sc).None?
    ensures RuleStep(OpenQuote(), sc) == Some(Moved(Scan(Stream(Quoted(), 1), []), Push("string")))
  {
    assert Remainder(sc.stream) == Quoted();
    assert SpanLength(Quoted(), IsBlank) == 0;
    UnmatchedStep(Blanks(), sc);
    assert ArrowMatch(Quoted()).None?;
    UnmatchedStep(Arrows(), sc);
    QuoteStep(Push("string"), NoToken, sc);
  }

  lemma QuotedOpenStep(sc: Scan)
    requires sc == Scan(Stream(Quoted(), 0), [])
    ensures RulesetStep(RootRules(), sc) == Some(Moved(Scan(Stream(Quoted(), 1), []), Push("string")))
  {
    QuotedHead(sc);
    ThirdOfFive(Blanks(), Arrows(), OpenQuote(), Labels(), Words(), sc);
  }

  lemma QuotedOpens(sc: Scan)
    requires sc == Scan(Stream(Quoted(), 0), [])
    ensures AdvancingRules(RootRules())
    ensures RulesetScan(RootRules(), sc) == Returned(Some(Push("string")), Scan(Stream(Quoted(), 1), []))
  {
    RootAdvances();
    QuotedOpenStep(sc);
    ScanReturns(RootRules(), sc, Scan(Stream(Quoted(), 1), []), Push("string"));
  }

  lemma QuotedTextStep(sc: Scan)
    requires sc == Scan(Stream(Quoted(), 1), [])
    ensures RulesetStep(StringRules(), sc) == Some(Moved(Scan(Stream(Quoted(), 3), [Str("hi")]), Stay))
  {
    var rules := StringRules();
    assert Remainder(sc.stream) == "hi\"";
    assert SpanLength("hi\"", IsNotQuote) == 2 by {
      assert "hi\""[1..] == "i\"";
      assert "i\""[1..] == "\"";
    }
    assert Quoted()[1..3] == "hi";
    StringRulesAt();
    MatchedStep(rules[0], sc, 2);
    assert Emit([], StrToken("hi")) == [Str("hi")];
    assert RuleStep(rules[0], sc) == Some(Moved(Scan(Stream(Quoted(), 3), [Str("hi")]), Stay));
    FirstMatchWins(rules, sc, 0);
  }

  lemma QuotedCloseStep(sc: Scan)
    requires sc == Scan(Stream(Quoted(), 3), [Str("hi")])
    ensures RulesetStep(StringRules(), sc) == Some(Moved(Scan(Stream(Quoted(), 4), [Str("hi")]), Pop))
  {
    var rules := StringRules();
    assert Remainder(sc.stream) == "\"";
    assert SpanLength("\"", IsNotQuote) == 0;
    StringRulesAt();
    UnmatchedStep(rules[0], sc);
    QuoteStep(Pop, NoToken, sc);
    assert RuleStep(rules[1], sc) == Some(Moved(Scan(Stream(Quoted(), 4), [Str("hi")]), Pop));
    FirstMatchWins(rules, sc, 1);
  }

  lemma QuotedBody(sc1: Scan)
    requires sc1 == Scan(Stream(Quoted(), 1), [])
    ensures AdvancingRules(StringRules())
    ensures RulesetScan(StringRules(), sc1) == Returned(Some(Pop), Scan(Stream(Quoted(), 4), [Str("hi")]))
  {
    var rules := StringRules();
    var sc3 := Scan(Stream(Quoted(), 3), [Str("hi")]);
    StringAdvances();
    QuotedTextStep(sc1);
    QuotedCloseStep(sc3);
    ScanReturns(rules, sc3, Scan(Stream(Quoted(), 4), [Str("hi")]), Pop);
    ScanStays(rules, sc1, sc3);
  }

  /** Scenario: a quoted string pushes `string`, emits its text and pops back to `root`. */
  lemma QuotedString(text: string)
    requires text == Quoted()
    ensures AdvancingStates(Grammar())
    ensures Tokenize(Grammar(), text) == Done(Scan(Stream(text, 4), [Str("hi")]), ["root"])
  {
    var root, both := ["root"], ["root", "string"];
    assert root + ["string"] == both && both[..1] == root && both[1] == "string";
    var g := Grammar();
    GrammarAdvances();
    assert "root" in g && g["root"] == RootRules();
    assert "string" in g && g["string"] == StringRules();
    var start, sc1, final := Scan(Stream(text, 0), []), Scan(Stream(text, 1), []), Scan(Stream(text, 4), [Str("hi")]);
    ExhaustedStops(g, root, final);
    QuotedBody(sc1);
    RunPops(g, both, sc1, final);
    QuotedOpens(start);
    RunPushes(g, root, start, "string", sc1);
    TokenizeStarts(g, text);
  }

  lemma HashUnmatched(sc: Scan)
    requires sc == Scan(Stream("#", 0), [])
    ensures RulesetStep(RootRules(), sc).None?
  {
    RootMisses(sc);
    NoneOfFive(Blanks(), Arrows(), OpenQuote(), Labels(), Words(), sc);
  }

  /** Scenario: a character no rule of `root` accepts is a fatal error that shows it. */
  lemma UnmatchedInput(text: string)
    requires text == "#"
    ensures AdvancingStates(Grammar())
    ensures Tokenize(Grammar(), text) == Failed(NoRuleMatched("#"))
  {
    var g := Grammar();
    GrammarAdvances();
    assert "root" in g && g["root"] == RootRules();
    var sc := Scan(Stream(text, 0), []);
    HashUnmatched(sc);
    ScanSticks(RootRules(), sc);
    TokenizeSticks(g, text, sc);
    assert Snippet(sc.stream) == "#";
  }

  /** A grammar whose `root` state pops itself on a quote. */
  function SelfPopping(): (grammar: map<string, seq<Rule>>) {
    map["root" := [CloseQuote()]]
  }

  /**
   * Scenario: popping the last state fails, although the input is used up,
   * because the tip is looked up before the lexer notices that.
   */
  lemma PopOfLastState(text: string)
    requires text == "\""
    ensures AdvancingStates(SelfPopping())
    ensures Tokenize(SelfPopping(), text) == Failed(EmptyStack)
  {
    var g := SelfPopping();
    var rules := [CloseQuote()];
    assert Advances(CloseQuote());
    assert AdvancingRules(rules);
    assert "root" in g && g["root"] == rules;
    var sc, fin := Scan(Stream(text, 0), []), Scan(Stream(text, 1), []);
    assert text[0] == '"';
    QuoteStep(Pop, NoToken, sc);
    FirstMatchWins(rules, sc, 0);
    ScanReturns(rules, sc, fin, Pop);
    assert ["root"][..0] == [];
    RunPops(g, ["root"], sc, fin);
    TokenizeStarts(g, text);
  }

  /** The input `a:`, a one-letter label. */
  function LabelLine(): (text: string) { "a:" }

  lemma LabelLineWordLength()
    ensures SpanLength(LabelLine(), IsWordChar) == 1
  {
    var t := LabelLine();
    assert t[1..] == ":";
    assert !IsWordChar(':');
  }

  lemma LabelLineLabel(sc: Scan)
    requires sc == Scan(Stream(LabelLine(), 0), [])
    ensures RuleStep(Labels(), sc) == Some(Moved(Scan(Stream(LabelLine(), 2), [Label("a")]), Stay))
  {
    var t := LabelLine();
    assert Remainder(sc.stream) == t;
    LabelLineWordLength();
    assert LabelMatch(t) == Some(2);
    assert t[0..2] == t && t[..1] == "a";
    assert LabelToken(t) == Some(Label("a"));
    assert Emit([], LabelToken(t)) == [Label("a")];
    MatchedStep(Labels(), sc, 2);
  }

  lemma LabelLineHead(sc: Scan)
    requires sc == Scan(Stream(LabelLine(), 0), [])
    ensures RuleStep(Blanks(), sc).None? && RuleStep(Arrows(), sc).None? && RuleStep(OpenQuote(), sc).None?
  {
    var t := LabelLine();
    assert Remainder(sc.stream) == t;
    assert SpanLength(t, IsBlank) == 0;
    UnmatchedStep(Blanks(), sc);
    assert ArrowMatch(t).None?;
    UnmatchedStep(Arrows(), sc);
    QuoteStep(Push("string"), NoToken, sc);
  }

  lemma LabelLineStep(sc: Scan)
    requires sc == Scan(Stream(LabelLine(), 0), [])
    ensures RulesetStep(RootRules(), sc) == Some(Moved(Scan(Stream(LabelLine(), 2), [Label("a")]), Stay))
  {
    LabelLineHead(sc);
    LabelLineLabel(sc);
    FourthOfFive(Blanks(), Arrows(), OpenQuote(), Labels(), Words(), sc);
  }

  lemma LabelLineScan(sc: Scan, fin: Scan)
    requires sc == Scan(Stream(LabelLine(), 0), []) && fin == Scan(Stream(LabelLine(), 2), [Label("a")])
    ensures AdvancingRules(RootRules())
    ensures RulesetScan(RootRules(), sc) == Returned(None, fin)
  {
    RootAdvances();
    LabelLineStep(sc);
    ScanStays(RootRules(), sc, fin);
    assert RulesetScan(RootRules(), fin) == Returned(None, fin);
  }

  /** Scenario: a label is emitted without its trailing colon. */
  lemma LabelScenario(text: string)
    requires text == LabelLine()
    ensures AdvancingStates(Grammar())
    ensures Tokenize(Grammar(), text) == Done(Scan(Stream(text, 2), [Label("a")]), ["root"])
  {
    var g := Grammar();
    GrammarAdvances();
    assert "root" in g && g["root"] == RootRules();
    var fin := Scan(Stream(text, 2), [Label("a")]);
    LabelLineScan(Scan(Stream(text, 0), []), fin);
    TokenizeStops(g, text, fin);
  }

  lemma LabelLineWordStep(sc: Scan)
    requires sc == Scan(Stream(LabelLine(), 0), [])
    ensures RuleStep(Words(), sc) == Some(Moved(Scan(Stream(LabelLine(), 1), [Symbol("a")]), Stay))
  {
    var t := LabelLine();
    assert Remainder(sc.stream) == t;
    LabelLineWordLength();
    assert t[0..1] == "a";
    assert Emit([], SymbolToken("a")) == [Symbol("a")];
    MatchedStep(Words(), sc, 1);
  }

  lemma SwappedWordStep(sc: Scan)
    requires sc == Scan(Stream(LabelLine(), 0), [])
    ensures RulesetStep(SwappedRootRules(), sc) == Some(Moved(Scan(Stream(LabelLine(), 1), [Symbol("a")]), Stay))
  {
    LabelLineHead(sc);
    LabelLineWordStep(sc);
    FourthOfFive(Blanks(), Arrows(), OpenQuote(), Words(), Labels(), sc);
  }

  lemma ColonUnmatched(sc: Scan)
    requires sc == Scan(Stream(LabelLine(), 1), [Symbol("a")])
    ensures RulesetStep(SwappedRootRules(), sc).None?
  {
    assert LabelLine()[1] == ':';
    RootMisses(sc);
    NoneOfFive(Blanks(), Arrows(), OpenQuote(), Words(), Labels(), sc);
  }

  lemma SwappedScan(sc: Scan, stuck: Scan)
    requires sc == Scan(Stream(LabelLine(), 0), []) && stuck == Scan(Stream(LabelLine(), 1), [Symbol("a")])
    ensures AdvancingRules(SwappedRootRules())
    ensures RulesetScan(SwappedRootRules(), sc) == NoMatch(stuck)
  {
    RootAdvances();
    SwappedWordStep(sc);
    ColonUnmatched(stuck);
    ScanSticks(SwappedRootRules(), stuck);
    ScanStays(SwappedRootRules(), sc, stuck);
  }

  /** The grammar with `root` alone, its word rule put before its label rule. */
  function SwappedGrammar(): (grammar: map<string, seq<Rule>>) {
    map["root" := SwappedRootRules()]
  }

  lemma SwappedAdvances()
    ensures AdvancingStates(SwappedGrammar())
    ensures "root" in SwappedGrammar() && SwappedGrammar()["root"] == SwappedRootRules()
  {
    RootAdvances();
    FiveAdvance(Blanks(), Arrows(), OpenQuote(), Words(), Labels());
  }

  /**
   * Scenario: with the word rule first, `a` is taken as a word (the
   * first rule that matches wins, not the longest match) and the colon
   * is then left with no rule.
   */
  lemma SwappedLabelScenario(text: string)
    requires text == LabelLine()
    ensures AdvancingStates(SwappedGrammar())
    ensures Tokenize(SwappedGrammar(), text) == Failed(NoRuleMatched(":"))
  {
    var g := SwappedGrammar();
    var sc, stuck := Scan(Stream(text, 0), []), Scan(Stream(text, 1), [Symbol("a")]);
    SwappedScan(sc, stuck);
    SwappedAdvances();
    TokenizeSticks(g, text, stuck);
    assert Snippet(stuck.stream) == ":";
  }
}
