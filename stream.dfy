/**
 * The `Stream` of lodoovka_vm/lexer.swift: an immutable text and a cursor
 * into it, and the anchored matching primitive `matchRegexAt`.
 * For text inside the Basic Multilingual Plane, each character stands for
 * one of the UTF-16 code units that `NSString` counts.
 */
module Streams {
  import opened Options

  /** How many characters of the remainder the error message shows. */
  const SnippetLimit := 20

  /** Foundation's `NSRange`: a start location and a length. */
  datatype Range = Range(location: int, length: int)

  datatype Stream = Stream(text: string, position: int)

  /** The cursor lies inside the text (or just past its end). */
  predicate Valid(s: Stream) {
    0 <= s.position <= |s.text|
  }

  /** The range lies inside the text, as `substringWithRange` demands. */
  predicate InBounds(text: string, r: Range) {
    0 <= r.location && 0 <= r.length && r.location + r.length <= |text|
  }

  /** Foundation's `substringWithRange`. */
  function Substring(text: string, r: Range): (sub: string)
    requires InBounds(text, r)
    ensures |sub| == r.length
    ensures forall i :: 0 <= i < r.length ==> sub[i] == text[r.location + i]
  {
    text[r.location..r.location + r.length]
  }

  /** What is left to match. */
  function Remainder(s: Stream): (rest: string)
    requires Valid(s)
  {
    s.text[s.position..]
  }

  function Min(a: int, b: int): (m: int) {
    if a <= b then a else b
  }

  /** `matchingRange`: the range from the cursor to the end of the text. */
  function MatchingRange(s: Stream): (r: Range)
    requires Valid(s)
    ensures InBounds(s.text, r)
    ensures r.location == s.position && r.location + r.length == |s.text|
    ensures Substring(s.text, r) == Remainder(s)
  {
    Range(s.position, |s.text| - s.position)
  }

  /** `snippet`: the first (at most) 20 characters of the remainder. */
  function Snippet(s: Stream): (r: string)
    requires Valid(s)
    ensures |r| == Min(|s.text| - s.position, SnippetLimit)
    ensures r <= Remainder(s)
    ensures |r| < SnippetLimit ==> r == Remainder(s)
  {
    var length := Min(|s.text| - s.position, SnippetLimit);
    Substring(s.text, Range(s.position, length))
  }

  /**
   * The regular-expression engine, seen from the lexer: given the text of
   * the searched range, the length of the match of the `^`-anchored pattern
   * at the start of that range, if there is one. The engine reports only
   * matches inside the range it searched.
   */
  type Regex = f: string -> Option<nat> | forall text :: f(text).Some? ==> f(text).value <= |text|
    witness (text: string) => None

  /** `matchRegexAt`: the anchored match of `regex` within `matchingRange`, as text. */
  function MatchRegexAt(regex: Regex, s: Stream): (r: Option<string>)
    requires Valid(s)
    ensures r.Some? <==> regex(Remainder(s)).Some?
    ensures r.Some? ==> |r.value| == regex(Remainder(s)).value
    ensures r.Some? ==> r.value <= Remainder(s) && s.position + |r.value| <= |s.text|
    ensures r.Some? ==> r.value == s.text[s.position..s.position + |r.value|]
  {
    match regex(Substring(s.text, MatchingRange(s)))
    case None => None
    case Some(length) => Some(Substring(s.text, Range(s.position, length)))
  }
}
