/** The tokenizer of the trainer variant, shared by its lexical retriever,
    its intent miner and its duplicate filter: lower-case the text, turn
    every character outside `[a-z0-9\s]` (case-insensitive) into a space and
    split on runs of white space. Only ASCII letters and digits survive, so
    Cyrillic text has no tokens at all. */
module TrainerTokens {
  import opened JsText

  /** A character that can appear in a token. */
  predicate IsTokenChar(c: char) { IsAsciiLower(c) || IsDigit(c) }

  /** `.replace(/[^a-z0-9\s]/gi, " ")`. */
  function Scrub(s: string): (r: string)
    ensures |r| == |s|
  {
    seq(|s|, i requires 0 <= i < |s| => if IsAsciiAlnum(s[i]) || IsSpace(s[i]) then s[i] else ' ')
  }

  /** The text the splitter sees. */
  function Prepared(s: string): (r: string)
    ensures |r| == |s|
    ensures forall i :: 0 <= i < |s| ==> (IsSpace(r[i]) <==> !IsAsciiAlnum(s[i]))
    ensures forall i :: 0 <= i < |s| ==> (IsSpace(r[i]) <==> !IsTokenChar(r[i]))
  {
    Scrub(Lower(s))
  }

  /** `tokenize` of the retriever: `.split(/\s+/).filter(Boolean)`. Every
      token is a non-empty run of lower-case ASCII letters and digits. */
  function Tokens(s: string): (r: seq<string>)
    ensures forall k :: 0 <= k < |r| ==> r[k] != []
    ensures forall k, i :: 0 <= k < |r| && 0 <= i < |r[k]| ==> IsTokenChar(r[k][i])
  {
    var p := Prepared(s);
    WordsAgree(p, IsSpace, c => !IsTokenChar(c));
    Words(p, IsSpace)
  }

  /** `tokenize` of the intent miner and the duplicate filter, which keep
      only the tokens longer than two characters. */
  function LongTokens(s: string): seq<string>
  {
    LongOnly(Tokens(s))
  }

  /** `.filter((t) => t.length > 2)`. */
  function LongOnly(ts: seq<string>): seq<string>
  {
    if |ts| == 0 then []
    else if |ts[0]| > 2 then [ts[0]] + LongOnly(ts[1..])
    else LongOnly(ts[1..])
  }

  /** The filter keeps exactly the tokens longer than two characters. */
  lemma {:induction false} LongOnlySpec(ts: seq<string>)
    ensures forall t :: t in LongOnly(ts) <==> t in ts && |t| > 2
  {
    if |ts| > 0 {
      LongOnlySpec(ts[1..]);
      assert forall t :: t in ts <==> t == ts[0] || t in ts[1..];
    }
  }

  /** A text has tokens exactly when it holds an ASCII letter or digit, so
      purely Cyrillic text has none. */
  lemma NoTokensIff(s: string)
    ensures Tokens(s) == [] <==> forall i :: 0 <= i < |s| ==> !IsAsciiAlnum(s[i])
  {
    var p := Prepared(s);
    WordsEmptyIff(p, IsSpace);
    assert (forall i :: 0 <= i < |p| ==> IsSpace(p[i])) <==> (forall i :: 0 <= i < |s| ==> !IsAsciiAlnum(s[i]));
  }

  lemma CyrillicHasNoTokens(s: string)
    requires forall i :: 0 <= i < |s| ==> IsCyrillicLower(s[i]) || IsSpace(s[i])
    ensures Tokens(s) == [] && LongTokens(s) == []
  {
    NoTokensIff(s);
  }
}
