/**
 * The pure parts of the matching engine: the base prompt listing the
 * reference catalog, the star-stripping catalog lookup, and the parser that
 * turns a reply of the completion service into a structured verdict.
 */
module Processor {
  import opened Wrappers
  import opened Claude
  import opened Models
  import ReplyPattern

  // ---- the base prompt ----

  /** What follows the instruction text, before the first reference line. */
  const ReferenceListHeader: string := "\n\nHere is the reference list:\n"

  /** The bulleted line of one reference entry. */
  function ListingLine(name: string): string {
    "- " + name + "\n"
  }

  /** One line per reference entry, in catalog order. */
  function Listing(refs: seq<DensityReferenceRecord>): string {
    if |refs| == 0 then "" else ListingLine(refs[0].normalised) + Listing(refs[1..])
  }

  /** The prompt every conversation starts with: instructions, header, reference listing. */
  function BasePrompt(instructions: string, refs: seq<DensityReferenceRecord>): string {
    instructions + ReferenceListHeader + Listing(refs)
  }

  /** The normalised names of the catalog, in order. */
  function Names(refs: seq<DensityReferenceRecord>): (ns: seq<string>)
    ensures |ns| == |refs|
    ensures forall i :: 0 <= i < |refs| ==> ns[i] == refs[i].normalised
  {
    if |refs| == 0 then [] else [refs[0].normalised] + Names(refs[1..])
  }

  /** A listing read back line by line: None unless every line is `- <name>` ended by a newline. */
  function ParseListing(s: string): Option<seq<string>>
    decreases |s|
  {
    if |s| == 0 then Some([])
    else if |s| < 2 || s[..2] != "- " then None
    else
      var e := ReplyPattern.LineEnd(s, 2);
      if e == |s| then None
      else
        match ParseListing(s[e + 1..])
        case None => None
        case Some(rest) => Some([s[2..e]] + rest)
  }

  /** No entry name spans a line break. */
  predicate SingleLineNames(refs: seq<DensityReferenceRecord>) {
    forall i, j :: 0 <= i < |refs| && 0 <= j < |refs[i].normalised| ==> refs[i].normalised[j] != '\n'
  }

  /** Appending an entry appends its line. */
  lemma {:induction false} ListingSnoc(refs: seq<DensityReferenceRecord>, r: DensityReferenceRecord)
    ensures Listing(refs + [r]) == Listing(refs) + ListingLine(r.normalised)
    decreases |refs|
  {
    if |refs| == 0 {
      assert refs + [r] == [r];
      assert [r][1..] == [];
    } else {
      assert (refs + [r])[1..] == refs[1..] + [r];
      ListingSnoc(refs[1..], r);
    }
  }

  /** Reading the listing back line by line recovers the entry names in catalog order. */
  lemma {:induction false} ListingRoundTrip(refs: seq<DensityReferenceRecord>)
    requires SingleLineNames(refs)
    ensures ParseListing(Listing(refs)) == Some(Names(refs))
    decreases |refs|
  {
    if |refs| > 0 {
      var n := refs[0].normalised;
      var s := Listing(refs);
      var tail := Listing(refs[1..]);
      assert s == "- " + n + "\n" + tail;
      assert s[..2] == "- ";
      assert forall j :: 2 <= j < 2 + |n| ==> s[j] == n[j - 2];
      assert s[2 + |n|] == '\n';
      assert ReplyPattern.LineEnd(s, 2) == 2 + |n|;
      assert s[2 + |n| + 1..] == tail;
      assert s[2..2 + |n|] == n;
      assert SingleLineNames(refs[1..]) by {
        forall i, j | 0 <= i < |refs[1..]| && 0 <= j < |refs[1..][i].normalised|
          ensures refs[1..][i].normalised[j] != '\n'
        {
          assert refs[1..][i] == refs[i + 1];
        }
      }
      ListingRoundTrip(refs[1..]);
    }
  }

  /** The base prompt is the instructions, the header, and a listing that reads back as the catalog's names. */
  lemma BasePromptShape(instructions: string, refs: seq<DensityReferenceRecord>)
    requires SingleLineNames(refs)
    ensures var p := BasePrompt(instructions, refs);
      var h := |instructions| + |ReferenceListHeader|;
      h <= |p| && p[..h] == instructions + ReferenceListHeader && ParseListing(p[h..]) == Some(Names(refs))
  {
    var p := BasePrompt(instructions, refs);
    var h := |instructions| + |ReferenceListHeader|;
    assert p[h..] == Listing(refs);
    ListingRoundTrip(refs);
  }

  /** makeBasePrompt: the header appended to the instructions, then one line per entry in a loop. */
  method MakeBasePrompt(instructions: string, refs: seq<DensityReferenceRecord>) returns (prompt: string)
    ensures prompt == BasePrompt(instructions, refs)
  {
    prompt := instructions;
    prompt := prompt + ReferenceListHeader;
    for i := 0 to |refs|
      invariant prompt == instructions + ReferenceListHeader + Listing(refs[..i])
    {
      assert refs[..i + 1] == refs[..i] + [refs[i]];
      ListingSnoc(refs[..i], refs[i]);
      prompt := prompt + ListingLine(refs[i].normalised);
    }
    assert refs[..|refs|] == refs;
  }

  // ---- catalog lookup ----

  /** Deleting every match of `\**`: all asterisks go, everything else stays in order. */
  function StripStars(s: string): (r: string)
    ensures |r| <= |s|
  {
    if |s| == 0 then ""
    else (if s[0] == '*' then "" else [s[0]]) + StripStars(s[1..])
  }

  /** Stripping leaves no asterisk and keeps every other character, as often as it occurs. */
  lemma {:induction false} StripStarsContents(s: string)
    ensures forall i :: 0 <= i < |StripStars(s)| ==> StripStars(s)[i] != '*'
    ensures multiset(StripStars(s)) == multiset(s)['*' := 0]
    decreases |s|
  {
    if |s| > 0 {
      StripStarsContents(s[1..]);
      assert s == [s[0]] + s[1..];
      assert multiset(s) == multiset([s[0]]) + multiset(s[1..]);
    }
  }

  /** Stripping distributes over concatenation, so the characters kept stay in their order. */
  lemma {:induction false} StripStarsConcat(a: string, b: string)
    ensures StripStars(a + b) == StripStars(a) + StripStars(b)
    decreases |a|
  {
    if |a| > 0 {
      var head := if a[0] == '*' then "" else [a[0]];
      assert (a + b)[0] == a[0] && (a + b)[1..] == a[1..] + b;
      assert StripStars(a + b) == head + StripStars(a[1..] + b);
      StripStarsConcat(a[1..], b);
      assert head + (StripStars(a[1..]) + StripStars(b)) == (head + StripStars(a[1..])) + StripStars(b);
    } else {
      assert a + b == b;
    }
  }

  /** A name without asterisks is searched for unchanged. */
  lemma {:induction false} StripStarsNoStars(s: string)
    requires forall i :: 0 <= i < |s| ==> s[i] != '*'
    ensures StripStars(s) == s
    decreases |s|
  {
    if |s| > 0 {
      StripStarsNoStars(s[1..]);
    }
  }

  /** Stripping twice is stripping once. */
  lemma StripStarsIdempotent(s: string)
    ensures StripStars(StripStars(s)) == StripStars(s)
  {
    StripStarsContents(s);
    StripStarsNoStars(StripStars(s));
  }

  /** The first catalog entry whose normalised name is exactly `key`. */
  function Lookup(refs: seq<DensityReferenceRecord>, key: string): (r: Option<DensityReferenceRecord>)
    ensures r.Some? ==> r.value in refs && r.value.normalised == key
    ensures r.None? <==> forall i :: 0 <= i < |refs| ==> refs[i].normalised != key
  {
    if |refs| == 0 then None
    else if refs[0].normalised == key then Some(refs[0])
    else
      var r := Lookup(refs[1..], key);
      assert forall i :: 1 <= i < |refs| ==> refs[i] == refs[1..][i - 1];
      r
  }

  /** Lookup returns the entry at the first index whose name matches. */
  lemma {:induction false} LookupFirst(refs: seq<DensityReferenceRecord>, key: string, i: nat)
    requires i < |refs| && refs[i].normalised == key
    requires forall j :: 0 <= j < i ==> refs[j].normalised != key
    ensures Lookup(refs, key) == Some(refs[i])
    decreases i
  {
    if i > 0 {
      LookupFirst(refs[1..], key, i - 1);
    }
  }

  /** FindReferenceIngredient: strip the asterisks of the name, then search the catalog in order. */
  method FindReferenceIngredient(refs: seq<DensityReferenceRecord>, name: string) returns (r: Option<DensityReferenceRecord>)
    ensures r == Lookup(refs, StripStars(name))
  {
    var key := StripStars(name);
    for i := 0 to |refs|
      invariant Lookup(refs[i..], key) == Lookup(refs, key)
    {
      assert refs[i..][1..] == refs[i + 1..];
      if refs[i].normalised == key {
        return Some(refs[i]);
      }
    }
    return None;
  }

  /** A query matches an entry exactly when it equals the entry's name once its asterisks are gone. */
  lemma StarredQueryFinds(refs: seq<DensityReferenceRecord>, i: nat, prefix: string, suffix: string)
    requires i < |refs|
    requires forall j :: 0 <= j < |refs[i].normalised| ==> refs[i].normalised[j] != '*'
    requires forall j :: 0 <= j < i ==> refs[j].normalised != refs[i].normalised
    requires forall j :: 0 <= j < |prefix| ==> prefix[j] == '*'
    requires forall j :: 0 <= j < |suffix| ==> suffix[j] == '*'
    ensures Lookup(refs, StripStars(prefix + refs[i].normalised + suffix)) == Some(refs[i])
  {
    var n := refs[i].normalised;
    StripStarsConcat(prefix + n, suffix);
    StripStarsConcat(prefix, n);
    StripStarsNoStars(n);
    OnlyStars(prefix);
    OnlyStars(suffix);
    assert prefix + n + suffix == (prefix + n) + suffix;
    assert StripStars(prefix + n + suffix) == n;
    LookupFirst(refs, StripStars(prefix + n + suffix), i);
  }

  /** A run of asterisks strips to nothing. */
  lemma {:induction false} OnlyStars(s: string)
    requires forall j :: 0 <= j < |s| ==> s[j] == '*'
    ensures StripStars(s) == ""
    decreases |s|
  {
    if |s| > 0 {
      OnlyStars(s[1..]);
    }
  }

  // ---- the reply parser ----

  /** The parsed verdict: a confidence label and, unless it is "NO MATCH", the claimed entry name. */
  datatype StructuredResponse = StructuredResponse(confidence: string, matchTo: Option<string>)

  /** Why a reply could not be parsed. */
  datatype ParseError = EmptyContent | Unparsable(text: string)

  const NoMatch: string := "NO MATCH"
  const ConfidenceLow: string := "LOW"
  const ConfidenceMedium: string := "MEDIUM"
  const ConfidenceHigh: string := "HIGH"

  predicate HasSuffix(s: string, t: string) {
    |t| <= |s| && s[|s| - |t|..] == t
  }

  /** The labels a parsed verdict can carry. */
  predicate IsConfidenceLabel(c: string) {
    c == ConfidenceHigh || c == ConfidenceMedium || c == ConfidenceLow || c == NoMatch
  }

  /** The text of the first content block, when there is a response, a block, and a text in it. */
  function ReplyText(response: Option<ClaudeMessageResponse>): Option<string> {
    if response.None? || |response.value.content| == 0 then None
    else response.value.content[0].text
  }

  /**
   * ParseResponse: the pattern first; failing that, a text ending in
   * "NO MATCH"; anything else is an error.
   */
  function ParseResponse(response: Option<ClaudeMessageResponse>): (r: Result<StructuredResponse, ParseError>)
    ensures r == Failure(EmptyContent) <==> ReplyText(response).None?
    ensures r.Success? ==> IsConfidenceLabel(r.value.confidence)
    ensures r.Success? ==> (r.value.matchTo.None? <==> r.value.confidence == NoMatch)
    ensures r.Failure? && r.error.Unparsable? ==> ReplyText(response) == Some(r.error.text)
  {
    match ReplyText(response)
    case None => Failure(EmptyContent)
    case Some(content) =>
      match ReplyPattern.FindStringSubmatch(content)
      case Some(m) => Success(StructuredResponse(m.confidence, Some(m.matchTo)))
      case None =>
        if content == NoMatch || HasSuffix(content, NoMatch) then Success(StructuredResponse(NoMatch, None))
        else Failure(Unparsable(content))
  }

  /** The pattern matches somewhere in `t`. */
  ghost predicate Matches(t: string) {
    exists k: nat, kw, d: nat :: ReplyPattern.PatternAt(t, k, kw, d)
  }

  /**
   * A verdict with a claimed entry comes from the leftmost match of the
   * pattern: its keyword is the confidence and the rest of that line, from
   * the latest start the pattern allows, is the claimed name.
   */
  lemma ParseResponseMatched(response: Option<ClaudeMessageResponse>, x: ReplyPattern.Site)
    requires ReplyText(response).Some? && ReplyPattern.FindFrom(ReplyText(response).value, 0) == Some(x)
    ensures var t := ReplyText(response).value;
      ParseResponse(response) == Success(StructuredResponse(x.confidence, Some(t[x.bodyStart..ReplyPattern.LineEnd(t, x.bodyStart)])))
      && ReplyPattern.PatternAt(t, x.at, x.confidence, x.bodyStart)
      && (forall k: nat, kw, d: nat :: ReplyPattern.PatternAt(t, k, kw, d) ==> x.at <= k)
      && (forall d: nat :: ReplyPattern.PatternAt(t, x.at, x.confidence, d) ==> d <= x.bodyStart)
  {
    ReplyPattern.FindStringSubmatchSound(ReplyText(response).value, x);
  }

  /** A claimed entry is reported exactly when the pattern matches. */
  lemma ParseResponseClaims(response: Option<ClaudeMessageResponse>)
    ensures (ParseResponse(response).Success? && ParseResponse(response).value.matchTo.Some?)
      <==> (ReplyText(response).Some? && Matches(ReplyText(response).value))
  {
    if ReplyText(response).Some? {
      ReplyPattern.FindStringSubmatchNone(ReplyText(response).value);
    }
  }

  /** "NO MATCH" is the verdict exactly when the pattern matches nowhere and the text ends in "NO MATCH". */
  lemma ParseResponseNoMatch(response: Option<ClaudeMessageResponse>)
    ensures ParseResponse(response) == Success(StructuredResponse(NoMatch, None))
      <==> (ReplyText(response).Some? && !Matches(ReplyText(response).value) && HasSuffix(ReplyText(response).value, NoMatch))
  {
    if ReplyText(response).Some? {
      ReplyPattern.FindStringSubmatchNone(ReplyText(response).value);
    }
  }

  /** A text is unparsable exactly when the pattern matches nowhere and it does not end in "NO MATCH". */
  lemma ParseResponseUnparsable(response: Option<ClaudeMessageResponse>)
    ensures (ParseResponse(response).Failure? && ParseResponse(response).error.Unparsable?)
      <==> (ReplyText(response).Some? && !Matches(ReplyText(response).value) && !HasSuffix(ReplyText(response).value, NoMatch))
  {
    if ReplyText(response).Some? {
      ReplyPattern.FindStringSubmatchNone(ReplyText(response).value);
    }
  }

  /** The equality test before the suffix test never decides anything on its own. */
  lemma NoMatchEqualityImpliesSuffix(t: string)
    requires t == NoMatch
    ensures HasSuffix(t, NoMatch)
  {
    assert t[|t| - |NoMatch|..] == t;
  }

  // ---- worked examples ----

  /** A response whose first block holds `t`. */
  function TextResponse(t: string): ClaudeMessageResponse {
    ClaudeMessageResponse([ContentBlock(TypeText, Some(t), None)])
  }

  lemma ParseNoMatchExample()
    ensures ParseResponse(Some(TextResponse("NO MATCH"))) == Success(StructuredResponse(NoMatch, None))
  {
    var t := "NO MATCH";
    assert ReplyText(Some(TextResponse(t))) == Some(t);
    ReplyPattern.NoKeywordExamples();
    ReplyPattern.NoKeywordNoMatch(t);
  }

  lemma ParseGarbageExample()
    ensures ParseResponse(Some(TextResponse("xyz"))) == Failure(Unparsable("xyz"))
  {
    var t := "xyz";
    assert ReplyText(Some(TextResponse(t))) == Some(t);
    ReplyPattern.NoKeywordExamples();
    ReplyPattern.NoKeywordNoMatch(t);
  }

  lemma ParseNoContentExample()
    ensures ParseResponse(Some(ClaudeMessageResponse([]))) == Failure(EmptyContent)
    ensures ParseResponse(None) == Failure(EmptyContent)
  {
  }

  lemma ParseConfidenceExample()
    ensures ParseResponse(Some(TextResponse(ReplyPattern.ConfidenceReply)))
      == Success(StructuredResponse("HIGH", Some("flour")))
  {
    assert ReplyText(Some(TextResponse(ReplyPattern.ConfidenceReply))) == Some(ReplyPattern.ConfidenceReply);
    ReplyPattern.ConfidenceReplyExample();
  }
}
