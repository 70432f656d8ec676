/**
 * Pulling a JSON object out of a language model's reply: markdown fences are
 * stripped, the whole reply is tried first, and failing that the first
 * brace-delimited span. The JSON parser itself (`json.loads`) is a parameter
 * `loads` that answers `None` where the parser raises.
 */
module JsonExtract {
  import opened Wrappers
  import opened Text

  const Fence := "```"

  /** `{` count minus `}` count; string literals are not skipped. */
  function Depth(s: string): int
  {
    if |s| == 0 then 0
    else Depth(s[..|s| - 1]) + (if s[|s| - 1] == '{' then 1 else if s[|s| - 1] == '}' then -1 else 0)
  }

  lemma {:induction false} DepthAppend(a: string, b: string)
    ensures Depth(a + b) == Depth(a) + Depth(b)
    decreases |b|
  {
    if |b| == 0 {
      assert a + b == a;
    } else {
      DepthAppend(a, b[..|b| - 1]);
      assert (a + b)[..|a + b| - 1] == a + b[..|b| - 1];
    }
  }

  lemma {:induction false} DepthNoBraces(s: string)
    requires '{' !in s && '}' !in s
    ensures Depth(s) == 0
  {
    if |s| > 0 {
      DepthNoBraces(s[..|s| - 1]);
    }
  }

  // ---------------------------------------------------------------------------
  // config.py

  /** The segment after the opening fence, up to the next fence (`text.split('```')[1]`). */
  function FenceBody(t: string): string
    requires StartsWith(t, Fence)
  {
    var rest := t[|Fence|..];
    match Find(rest, Fence)
    case Some(f) => rest[..f]
    case None => rest
  }

  /** `strip_markdown_json`. */
  function StripMarkdownJson(text: string): string
  {
    var t := Strip(text);
    if StartsWith(t, Fence) then
      var pieces := SplitOn(t, Fence);
      assert OccursAt(t, Fence, 0);
      var body := pieces[1];
      Strip(if StartsWith(body, "json") then body[4..] else body)
    else t
  }

  /** The second piece of a split at the fence, for text that opens with one. */
  lemma SecondPiece(t: string)
    requires StartsWith(t, Fence)
    ensures |SplitOn(t, Fence)| >= 2 && SplitOn(t, Fence)[1] == FenceBody(t)
    ensures forall j :: !OccursAt(FenceBody(t), Fence, j)
  {
    assert OccursAt(t, Fence, 0);
    assert t[0 + |Fence|..] == t[|Fence|..];
  }

  /**
   * Unfenced text is only stripped; fenced text keeps the stripped segment
   * between the first two fences, less a leading "json" tag, and that
   * segment holds no fence.
   */
  lemma StripMarkdownJsonSegment(text: string)
    ensures !StartsWith(Strip(text), Fence) ==> StripMarkdownJson(text) == Strip(text)
    ensures StartsWith(Strip(text), Fence) ==>
              var body := FenceBody(Strip(text));
              (forall j :: !OccursAt(body, Fence, j)) &&
              StripMarkdownJson(text) == Strip(if StartsWith(body, "json") then body[4..] else body)
  {
    var t := Strip(text);
    if StartsWith(t, Fence) {
      SecondPiece(t);
    }
  }

  /** A '}' at `i` that brings the running count back to 0 after a '{' was seen. */
  predicate Closes(s: string, i: nat)
  {
    i < |s| && s[i] == '}' && Depth(s[..i + 1]) == 0 && '{' in s[..i]
  }

  /** The first closing position at or after `j`. */
  function FirstClose(s: string, j: nat): (r: Option<nat>)
    ensures r.Some? ==> j <= r.value && Closes(s, r.value) && forall k :: j <= k < r.value ==> !Closes(s, k)
    ensures r.None? ==> forall k :: j <= k ==> !Closes(s, k)
    decreases |s| - j
  {
    if j >= |s| then None
    else if Closes(s, j) then Some(j)
    else FirstClose(s, j + 1)
  }

  /** The span the fallback parses: from the first '{' to the first closing '}'. */
  function BraceSpan(s: string): (r: Option<(nat, nat)>)
    ensures r.Some? ==> r.value.0 < r.value.1 <= |s|
  {
    match FirstClose(s, 0)
    case None => None
    case Some(i) =>
      assert '{' in s[..i] && s[..i] <= s;
      Some((IndexOf(s, '{').value, i + 1))
  }

  /** `parse_claude_json`: the whole cleaned reply, else the first brace span, else nothing. */
  function ParseClaudeJson<J>(text: string, loads: string -> Option<J>): Option<J>
  {
    var cleaned := StripMarkdownJson(text);
    if loads(cleaned).Some? then loads(cleaned)
    else match BraceSpan(cleaned)
      case None => None
      case Some(span) => loads(cleaned[span.0..span.1])
  }

  /** `parse_claude_json`, with the fallback's scan for matching braces. */
  method ParseClaudeJsonLoop<J>(text: string, loads: string -> Option<J>) returns (r: Option<J>)
    ensures r == ParseClaudeJson(text, loads)
  {
    var cleaned := StripMarkdownJson(text);
    r := loads(cleaned);
    if r.Some? {
      return;
    }
    var depth := 0;
    var start: Option<nat> := None;
    for i := 0 to |cleaned|
      invariant depth == Depth(cleaned[..i])
      invariant start == IndexOf(cleaned[..i], '{')
      invariant FirstClose(cleaned, 0) == FirstClose(cleaned, i)
    {
      assert cleaned[..i + 1][..i] == cleaned[..i];
      if cleaned[i] == '{' {
        if start.None? {
          start := Some(i);
        }
        depth := depth + 1;
      } else if cleaned[i] == '}' {
        depth := depth - 1;
        if depth == 0 && start.Some? {
          assert '{' in cleaned[..i + 1][..start.value + 1];
          assert Closes(cleaned, i);
          assert IndexOf(cleaned, '{') == start by {
            IndexOfPrefix(cleaned, i + 1, '{');
          }
          return loads(cleaned[start.value..i + 1]);
        }
      }
      assert !Closes(cleaned, i);
    }
    return None;
  }

  /** The first `c` of a prefix that holds one is the first `c` of the whole. */
  lemma {:induction false} IndexOfPrefix(s: string, n: nat, c: char)
    requires n <= |s| && IndexOf(s[..n], c).Some?
    ensures IndexOf(s, c) == IndexOf(s[..n], c)
  {
    var i := IndexOf(s[..n], c).value;
    assert s[..n][..i] == s[..i];
    assert s[i] == c && s[i] in s;
    var j := IndexOf(s, c).value;
    assert forall k :: 0 <= k < i ==> s[..i][k] == s[k];
    assert forall k :: 0 <= k < j ==> s[..j][k] == s[k];
  }

  /** A reply that parses whole is returned as parsed. */
  lemma ParseClaudeJsonDirect<J>(text: string, loads: string -> Option<J>)
    requires loads(StripMarkdownJson(text)).Some?
    ensures ParseClaudeJson(text, loads) == loads(StripMarkdownJson(text))
  {
  }

  /** Without a '{' there is no fallback: only the whole reply can parse. */
  lemma NoBraceNoFallback<J>(text: string, loads: string -> Option<J>)
    requires '{' !in StripMarkdownJson(text)
    ensures ParseClaudeJson(text, loads) == loads(StripMarkdownJson(text))
  {
    var s := StripMarkdownJson(text);
    forall i | 0 <= i < |s|
      ensures !Closes(s, i)
    {
      assert forall m :: 0 <= m < i ==> s[..i][m] == s[m];
    }
  }

  /** The first position where the count from `b` returns to 0 on a '}'. */
  predicate ClosesFrom(s: string, b: nat, i: nat)
  {
    b <= i < |s| && s[i] == '}' && Depth(s[b..i + 1]) == 0
  }

  function MatchFrom(s: string, b: nat, j: nat): (r: Option<nat>)
    ensures r.Some? ==> j <= r.value && ClosesFrom(s, b, r.value) && forall k :: j <= k < r.value ==> !ClosesFrom(s, b, k)
    ensures r.None? ==> forall k :: j <= k ==> !ClosesFrom(s, b, k)
    decreases |s| - j
  {
    if j >= |s| then None
    else if ClosesFrom(s, b, j) then Some(j)
    else MatchFrom(s, b, j + 1)
  }

  /** One more character changes the count by at most one. */
  lemma DepthStep(s: string, b: nat, m: nat)
    requires b <= m < |s|
    ensures Depth(s[b..m + 1]) == Depth(s[b..m]) + (if s[m] == '{' then 1 else if s[m] == '}' then -1 else 0)
  {
    assert s[b..m + 1][..m - b] == s[b..m];
  }

  /**
   * The span from a '{' to the first '}' that balances it is balanced, and
   * every proper prefix of it holds more '{' than '}'.
   */
  lemma {:induction false} MatchedSpanBalanced(s: string, b: nat, i: nat)
    requires b < |s| && s[b] == '{'
    requires MatchFrom(s, b, b) == Some(i)
    ensures s[b..i + 1][0] == '{' && s[i] == '}'
    ensures Depth(s[b..i + 1]) == 0
    ensures forall m :: b < m <= i ==> Depth(s[b..m]) > 0
  {
    forall m | b < m <= i
      ensures Depth(s[b..m]) > 0
    {
      PrefixPositive(s, b, i, m);
    }
  }

  lemma {:induction false} PrefixPositive(s: string, b: nat, i: nat, m: nat)
    requires b < |s| && s[b] == '{'
    requires MatchFrom(s, b, b) == Some(i)
    requires b < m <= i
    ensures Depth(s[b..m]) > 0
    decreases m
  {
    if m == b + 1 {
      assert s[b..m] == [s[b]];
      assert s[b..m][..0] == [];
    } else {
      PrefixPositive(s, b, i, m - 1);
      DepthStep(s, b, m - 1);
      assert !ClosesFrom(s, b, m - 1);  // i is the first '}' that balances
    }
  }

  /**
   * When no '}' comes before the first '{', the fallback's span is exactly
   * the balanced object that opens there.
   */
  lemma BraceSpanIsMatchedObject(s: string)
    requires IndexOf(s, '{').Some?
    requires '}' !in s[..IndexOf(s, '{').value]
    ensures var a := IndexOf(s, '{').value;
            BraceSpan(s) == match MatchFrom(s, a, a) case None => None case Some(i) => Some((a, (i + 1) as nat))
  {
    var a := IndexOf(s, '{').value;
    DepthNoBraces(s[..a]);
    forall i | a <= i < |s|
      ensures Closes(s, i) <==> ClosesFrom(s, a, i)
    {
      assert s[..i + 1] == s[..a] + s[a..i + 1];
      DepthAppend(s[..a], s[a..i + 1]);
      if i > a {
        assert s[..i][a] == '{';
      }
    }
    forall i | 0 <= i < a
      ensures !Closes(s, i)
    {
      assert forall m :: 0 <= m < i ==> s[..i][m] == s[..a][m];
    }
    SameFirst(s, a);
  }

  lemma SameFirst(s: string, a: nat)
    requires a <= |s|
    requires forall i :: 0 <= i < a ==> !Closes(s, i)
    requires forall i :: a <= i < |s| ==> (Closes(s, i) <==> ClosesFrom(s, a, i))
    ensures FirstClose(s, 0) == MatchFrom(s, a, a)
  {
    var f := FirstClose(s, 0);
    var g := MatchFrom(s, a, a);
    if f.Some? {
      assert ClosesFrom(s, a, f.value);
    }
    if g.Some? {
      assert Closes(s, g.value);
    }
  }

  // ---------------------------------------------------------------------------
  // router.py

  /** `s.split("\n", 1)[-1]`: everything after the first newline, or all of `s`. */
  function AfterFirstLine(s: string): (r: string)
    ensures forall c :: c in r ==> c in s
  {
    match Find(s, "\n")
    case Some(f) => s[f + 1..]
    case None => s
  }

  /** `s.rsplit("```", 1)[0]`: everything before the last fence, or all of `s`. */
  function BeforeLastFence(s: string): (r: string)
    ensures forall c :: c in r ==> c in s
  {
    match FindLast(s, Fence)
    case Some(l) => s[..l]
    case None => s
  }

  /** The text searched for braces after the first `tok`, unfenced when it starts with a fence. */
  function Fragment(text: string, tok: string): (r: Option<string>)
    ensures r.Some? ==> forall c :: c in r.value ==> c in text
  {
    match Find(text, tok)
    case None => None
    case Some(idx) =>
      var f := text[idx..];
      Some(if StartsWith(f, Fence) then BeforeLastFence(AfterFirstLine(f)) else f)
  }

  /** `fragment[brace_start:end]`, empty when no brace balances the first. */
  function ObjectSlice(fragment: string): Option<string>
  {
    match IndexOf(fragment, '{')
    case None => None
    case Some(bs) =>
      match MatchFrom(fragment, bs, bs)
      case None => Some("")
      case Some(i) => Some(fragment[bs..i + 1])
  }

  /** One start token's attempt: `None` where the source continues with the next. */
  function TryToken<J>(text: string, tok: string, loads: string -> Option<J>): Option<J>
  {
    match Fragment(text, tok)
    case None => None
    case Some(fragment) =>
      match ObjectSlice(fragment)
      case None => None
      case Some(slice) => loads(slice)
  }

  /** The start tokens, in the order they are tried. */
  const StartTokens: seq<string> := ["```json", "```", "{"]

  /** The first token attempt from position `k` on that parses. */
  function FirstParsed<J>(text: string, k: nat, loads: string -> Option<J>): Option<J>
    requires k <= |StartTokens|
    decreases |StartTokens| - k
  {
    if k == |StartTokens| then None
    else if TryToken(text, StartTokens[k], loads).Some? then TryToken(text, StartTokens[k], loads)
    else FirstParsed(text, k + 1, loads)
  }

  /** `_parse_json_from`; `None` stands for the empty dict it returns when nothing parses. */
  function ParseJsonFrom<J>(text: string, loads: string -> Option<J>): Option<J>
  {
    if loads(text).Some? then loads(text) else FirstParsed(text, 0, loads)
  }

  /** The brace scan: the end of the slice to parse. */
  method MatchBraces(fragment: string, braceStart: nat) returns (end: nat)
    requires braceStart < |fragment|
    ensures end == match MatchFrom(fragment, braceStart, braceStart) case None => braceStart case Some(i) => i + 1
  {
    var depth := 0;
    end := braceStart;
    for i := braceStart to |fragment|
      invariant depth == Depth(fragment[braceStart..i])
      invariant MatchFrom(fragment, braceStart, braceStart) == MatchFrom(fragment, braceStart, i)
    {
      DepthStep(fragment, braceStart, i);
      if fragment[i] == '{' {
        depth := depth + 1;
      } else if fragment[i] == '}' {
        depth := depth - 1;
        if depth == 0 {
          end := i + 1;
          return;
        }
      }
    }
  }

  /** `_parse_json_from`, token by token. */
  method ParseJsonFromLoop<J>(text: string, loads: string -> Option<J>) returns (r: Option<J>)
    ensures r == ParseJsonFrom(text, loads)
  {
    r := loads(text);
    if r.Some? {
      return;
    }
    for k := 0 to |StartTokens|
      invariant FirstParsed(text, 0, loads) == FirstParsed(text, k, loads)
    {
      var parsed := TryTokenSteps(text, StartTokens[k], loads);
      if parsed.Some? {
        return parsed;
      }
    }
    return None;
  }

  /** One pass of the token loop: find, unfence, match braces, parse. */
  method TryTokenSteps<J>(text: string, tok: string, loads: string -> Option<J>) returns (r: Option<J>)
    ensures r == TryToken(text, tok, loads)
  {
    var found := Find(text, tok);
    if found.None? {
      return None;
    }
    var fragment := text[found.value..];
    if StartsWith(fragment, Fence) {
      fragment := BeforeLastFence(AfterFirstLine(fragment));
    }
    var braceStart := IndexOf(fragment, '{');
    if braceStart.None? {
      return None;
    }
    var end := MatchBraces(fragment, braceStart.value);
    return loads(fragment[braceStart.value..end]);
  }

  /** A reply without any '{' that does not parse whole gives the empty result. */
  lemma NoBraceGivesEmpty<J>(text: string, loads: string -> Option<J>)
    requires '{' !in text && loads(text).None?
    ensures ParseJsonFrom(text, loads) == None
  {
    forall k | 0 <= k < |StartTokens|
      ensures TryToken(text, StartTokens[k], loads) == None
    {
      var f := Fragment(text, StartTokens[k]);
      if f.Some? {
        assert '{' !in f.value;
      }
    }
    assert FirstParsed(text, 2, loads) == None;
  }

  /** Every slice the router parses is empty or a balanced object that opens at its first '{'. */
  lemma ObjectSliceBalanced(fragment: string)
    requires ObjectSlice(fragment).Some? && ObjectSlice(fragment).value != ""
    ensures var x := ObjectSlice(fragment).value;
            x[0] == '{' && x[|x| - 1] == '}' && Depth(x) == 0 &&
            forall m :: 0 < m < |x| ==> Depth(x[..m]) > 0
  {
    var bs := IndexOf(fragment, '{').value;
    var i := MatchFrom(fragment, bs, bs).value;
    MatchedSpanBalanced(fragment, bs, i);
    var x := fragment[bs..i + 1];
    forall m | 0 < m < |x|
      ensures Depth(x[..m]) > 0
    {
      assert x[..m] == fragment[bs..bs + m];
    }
  }
}
