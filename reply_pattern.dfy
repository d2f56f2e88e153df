/**
 * A hand-written recogniser for the reply pattern
 *
 *     \s*:*\s*(HIGH|MEDIUM|LOW)\s*,\s*Match\s*:*\s*\**(.+)\**\s*
 *
 * searched unanchored, case-sensitively, with the leftmost-first semantics
 * of Go's regexp.FindStringSubmatch.
 *
 * How the search resolves:
 *  - The leading `\s*:*\s*` only consumes spaces and colons, and no keyword
 *    starts with either, so the leftmost match is the one at the smallest
 *    keyword position from which the rest of the pattern matches
 *    (LeadingRunBeforeSite); that prefix never changes a capture.
 *  - `\s*,` and `\s*Match` are deterministic: a comma and an 'M' are not spaces.
 *  - After "Match" the greedy `\s*`, `:*`, `\s*`, `\**` are tried with
 *    backtracking (stages Lead, Colons, Gap, Stars) until `(.+)` can start
 *    at a character other than a newline; `(.+)` then runs to the end of the
 *    line, so the trailing `\**\s*` always matches empty and any trailing
 *    '*' stays inside the capture.
 */
module ReplyPattern {
  import opened Wrappers
  import opened Text

  // ---- the part after "Match": \s* :* \s* \** (.+) ----

  datatype Stage = Lead | Colons | Gap | Stars | Body

  function Rank(st: Stage): nat {
    match st
    case Lead => 4
    case Colons => 3
    case Gap => 2
    case Stars => 1
    case Body => 0
  }

  function Next(st: Stage): (n: Stage)
    requires !st.Body?
    ensures Rank(n) < Rank(st)
  {
    match st
    case Lead => Colons
    case Colons => Gap
    case Gap => Stars
    case Stars => Body
  }

  /** The character class a repeated stage consumes. */
  predicate InClass(st: Stage, c: char)
    requires !st.Body?
  {
    match st
    case Lead => IsSpace(c)
    case Colons => c == ':'
    case Gap => IsSpace(c)
    case Stars => c == '*'
  }

  /** Where the greedy repetition of stage `st` starting at `i` stops. */
  function RunEnd(s: string, st: Stage, i: nat): (e: nat)
    requires !st.Body? && i <= |s|
    ensures i <= e <= |s|
    ensures forall j :: i <= j < e ==> InClass(st, s[j])
    ensures e < |s| ==> !InClass(st, s[e])
    decreases |s| - i
  {
    if i < |s| && InClass(st, s[i]) then RunEnd(s, st, i + 1) else i
  }

  predicate AllIn(s: string, st: Stage, i: nat, k: nat)
    requires !st.Body? && i <= k <= |s|
  {
    forall j :: i <= j < k ==> InClass(st, s[j])
  }

  /** `(.+)` can start at `d`: RE2's `.` matches any character but a newline. */
  predicate BodyStart(s: string, d: nat) {
    d < |s| && s[d] != '\n'
  }

  /** The first newline at or after `d`, or the end of the text. */
  function LineEnd(s: string, d: nat): (e: nat)
    requires d <= |s|
    ensures d <= e <= |s|
    ensures forall j :: d <= j < e ==> s[j] != '\n'
    ensures e < |s| ==> s[e] == '\n'
    decreases |s| - d
  {
    if d < |s| && s[d] != '\n' then LineEnd(s, d + 1) else d
  }

  /**
   * Backtracking search from stage `st` at `i`: the position where `(.+)`
   * starts on the first path, in leftmost-first priority order, that lets it
   * start at all.
   */
  function Run(s: string, st: Stage, i: nat): (r: Option<nat>)
    requires i <= |s|
    ensures r.Some? ==> i <= r.value && BodyStart(s, r.value)
    decreases Rank(st), 1, 0
  {
    if st.Body? then (if BodyStart(s, i) then Some(i) else None)
    else GiveBack(s, st, i, RunEnd(s, st, i))
  }

  /** The greedy stage `st` gives characters back one at a time: try `k`, then `k - 1`, down to `i`. */
  function GiveBack(s: string, st: Stage, i: nat, k: nat): (r: Option<nat>)
    requires !st.Body? && i <= k <= |s| && k <= RunEnd(s, st, i)
    ensures r.Some? ==> i <= r.value && BodyStart(s, r.value)
    decreases Rank(st), 0, k - i
  {
    match Run(s, Next(st), k)
    case Some(d) => Some(d)
    case None => if k == i then None else GiveBack(s, st, i, k - 1)
  }

  /** Declaratively: `s[i..d]` is in the language of stages `st`..Stars, and `(.+)` can start at `d`. */
  ghost predicate Accepts(s: string, st: Stage, i: nat, d: nat)
    requires i <= d <= |s|
    decreases Rank(st)
  {
    if st.Body? then i == d && BodyStart(s, d)
    else exists k {:trigger Accepts(s, Next(st), k, d)} :: i <= k <= d && AllIn(s, st, i, k) && Accepts(s, Next(st), k, d)
  }

  lemma {:induction false} RunSound(s: string, st: Stage, i: nat)
    requires i <= |s| && Run(s, st, i).Some?
    ensures Accepts(s, st, i, Run(s, st, i).value)
    decreases Rank(st), 1, 0
  {
    if !st.Body? {
      GiveBackSound(s, st, i, RunEnd(s, st, i));
    }
  }

  lemma {:induction false} GiveBackSound(s: string, st: Stage, i: nat, k: nat)
    requires !st.Body? && i <= k <= |s| && k <= RunEnd(s, st, i) && GiveBack(s, st, i, k).Some?
    ensures Accepts(s, st, i, GiveBack(s, st, i, k).value)
    decreases Rank(st), 0, k - i
  {
    var d := GiveBack(s, st, i, k).value;
    if Run(s, Next(st), k).Some? {
      RunSound(s, Next(st), k);
      assert AllIn(s, st, i, k);
      assert Accepts(s, Next(st), k, d);
    } else {
      GiveBackSound(s, st, i, k - 1);
    }
  }

  lemma {:induction false} RunComplete(s: string, st: Stage, i: nat, d: nat)
    requires i <= d <= |s| && Accepts(s, st, i, d)
    ensures Run(s, st, i).Some?
    decreases Rank(st), 1, 0
  {
    if !st.Body? {
      var k :| i <= k <= d && AllIn(s, st, i, k) && Accepts(s, Next(st), k, d);
      AllInWithinRun(s, st, i, k);
      GiveBackComplete(s, st, i, RunEnd(s, st, i), k, d);
    }
  }

  lemma {:induction false} GiveBackComplete(s: string, st: Stage, i: nat, top: nat, k: nat, d: nat)
    requires !st.Body? && i <= k <= top <= |s| && top <= RunEnd(s, st, i) && k <= d <= |s|
    requires Accepts(s, Next(st), k, d)
    ensures GiveBack(s, st, i, top).Some?
    decreases Rank(st), 0, top - k
  {
    if Run(s, Next(st), top).None? {
      if top == k {
        RunComplete(s, Next(st), k, d);
      } else {
        GiveBackComplete(s, st, i, top - 1, k, d);
      }
    }
  }

  /** A stretch of the stage's class starting at `i` never passes the greedy end. */
  lemma AllInWithinRun(s: string, st: Stage, i: nat, k: nat)
    requires !st.Body? && i <= k <= |s| && AllIn(s, st, i, k)
    ensures k <= RunEnd(s, st, i)
  {
  }

  /** A stage may always match empty. */
  lemma SkipStage(s: string, st: Stage, k: nat, d: nat)
    requires !st.Body? && k <= d <= |s| && Accepts(s, Next(st), k, d)
    ensures Accepts(s, st, k, d)
  {
    assert AllIn(s, st, k, k);
  }

  /** When the character at `k` is outside the stage's class, the stage matches empty there. */
  lemma StageEmpty(s: string, st: Stage, k: nat, d: nat)
    requires !st.Body? && k <= d <= |s| && Accepts(s, st, k, d)
    requires k < |s| && !InClass(st, s[k])
    ensures Accepts(s, Next(st), k, d)
  {
    var j :| k <= j <= d && AllIn(s, st, k, j) && Accepts(s, Next(st), j, d);
  }

  /** From Stars on, a position that starts no star run accepts only itself. */
  lemma StarsAtNonStar(s: string, k: nat, d: nat)
    requires k <= d <= |s| && Accepts(s, Stars, k, d)
    requires k < |s| && s[k] != '*'
    ensures d == k
  {
    StageEmpty(s, Stars, k, d);
  }

  /**
   * The exchange argument behind leftmost-first priority: inside the greedy
   * run of stage `st`, whatever the next stage accepts from an earlier
   * position `k` is either before a later position `k2` or also accepted
   * from `k2`.
   */
  lemma Exchange(s: string, st: Stage, i: nat, k: nat, k2: nat, d: nat)
    requires !st.Body? && i <= k < k2 <= |s| && k2 <= RunEnd(s, st, i) && k <= d <= |s|
    requires Accepts(s, Next(st), k, d)
    ensures d < k2 || (k2 <= d && Accepts(s, Next(st), k2, d))
  {
    assert InClass(st, s[k]);
    match st
    case Stars =>
    case Gap =>
      StarsAtNonStar(s, k, d);
    case Colons =>
      StageEmpty(s, Gap, k, d);
      StarsAtNonStar(s, k, d);
    case Lead =>
      StageEmpty(s, Colons, k, d);
      var j :| k <= j <= d && AllIn(s, Gap, k, j) && Accepts(s, Stars, j, d);
      if j < k2 {
        assert InClass(Lead, s[j]);
        StarsAtNonStar(s, j, d);
      } else {
        assert AllIn(s, Gap, k2, j);
        assert Accepts(s, Gap, k2, d);
        SkipStage(s, Colons, k2, d);
      }
  }

  /** Leftmost-first here means: `(.+)` starts at the latest position any path allows. */
  lemma {:induction false} RunMaximal(s: string, st: Stage, i: nat, d2: nat)
    requires i <= d2 <= |s| && Accepts(s, st, i, d2)
    ensures Run(s, st, i).Some? && d2 <= Run(s, st, i).value
    decreases Rank(st), 1, 0
  {
    RunComplete(s, st, i, d2);
    if !st.Body? {
      var k :| i <= k <= d2 && AllIn(s, st, i, k) && Accepts(s, Next(st), k, d2);
      AllInWithinRun(s, st, i, k);
      GiveBackMaximal(s, st, i, RunEnd(s, st, i), k, d2);
    }
  }

  lemma {:induction false} GiveBackMaximal(s: string, st: Stage, i: nat, top: nat, k: nat, d2: nat)
    requires !st.Body? && i <= k <= top <= |s| && top <= RunEnd(s, st, i) && k <= d2 <= |s|
    requires Accepts(s, Next(st), k, d2)
    ensures GiveBack(s, st, i, top).Some? && d2 <= GiveBack(s, st, i, top).value
    decreases Rank(st), 0, top - k
  {
    GiveBackComplete(s, st, i, top, k, d2);
    var r := Run(s, Next(st), top);
    if r.Some? {
      if k == top {
        RunMaximal(s, Next(st), k, d2);
      } else {
        Exchange(s, st, i, k, top, d2);
        if top <= d2 {
          RunMaximal(s, Next(st), top, d2);
        }
      }
    } else {
      if k == top {
        RunComplete(s, Next(st), k, d2);
      } else {
        GiveBackMaximal(s, st, i, top - 1, k, d2);
      }
    }
  }

  // ---- the whole pattern ----

  /** One of the alternatives of `(HIGH|MEDIUM|LOW)`. */
  predicate IsKeyword(w: string) {
    w == "HIGH" || w == "MEDIUM" || w == "LOW"
  }

  /** `w` occurs in `s` at position `k`. */
  predicate Occurs(s: string, k: nat, w: string) {
    k + |w| <= |s| && s[k..k + |w|] == w
  }

  predicate SpacesBetween(s: string, i: nat, j: nat)
    requires i <= j <= |s|
  {
    forall k :: i <= k < j ==> IsSpace(s[k])
  }

  /** An occurrence fixes the character at its start. */
  lemma OccursFirst(s: string, k: nat, w: string)
    requires |w| > 0 && Occurs(s, k, w)
    ensures s[k] == w[0]
  {
    assert s[k..k + |w|][0] == s[k];
  }

  /** The three alternatives start with different letters, so at most one occurs at a position. */
  lemma KeywordsExclusive(s: string, k: nat)
    ensures !(Occurs(s, k, "HIGH") && Occurs(s, k, "MEDIUM"))
    ensures !(Occurs(s, k, "HIGH") && Occurs(s, k, "LOW"))
    ensures !(Occurs(s, k, "MEDIUM") && Occurs(s, k, "LOW"))
  {
    if Occurs(s, k, "HIGH") { OccursFirst(s, k, "HIGH"); }
    if Occurs(s, k, "MEDIUM") { OccursFirst(s, k, "MEDIUM"); }
    if Occurs(s, k, "LOW") { OccursFirst(s, k, "LOW"); }
  }

  /** The alternative that matches at `k`, if any. */
  function KeywordAt(s: string, k: nat): (kw: Option<string>)
    ensures kw.Some? ==> IsKeyword(kw.value) && Occurs(s, k, kw.value)
  {
    if Occurs(s, k, "HIGH") then Some("HIGH")
    else if Occurs(s, k, "MEDIUM") then Some("MEDIUM")
    else if Occurs(s, k, "LOW") then Some("LOW")
    else None
  }

  /** Every alternative that occurs at `k` is the one KeywordAt reports. */
  lemma KeywordAtComplete(s: string, k: nat, w: string)
    requires IsKeyword(w) && Occurs(s, k, w)
    ensures KeywordAt(s, k) == Some(w)
  {
    KeywordsExclusive(s, k);
  }

  /** `\s*,\s*Match` right after a keyword that ends at `e`: the comma is at `c`, "Match" at `w`. */
  ghost predicate Separator(s: string, e: nat, c: nat, w: nat) {
    e <= c < w <= |s| && SpacesBetween(s, e, c) && s[c] == ',' && SpacesBetween(s, c + 1, w) && Occurs(s, w, "Match")
  }

  /** Where "Match" ends, when `\s*,\s*Match` follows position `e`. */
  function AfterMatchWord(s: string, e: nat): (m: Option<nat>)
    requires e <= |s|
    ensures m.Some? ==> e < m.value <= |s|
  {
    var c := SkipSpaces(s, e);
    if c < |s| && s[c] == ',' then
      var w := SkipSpaces(s, c + 1);
      if Occurs(s, w, "Match") then Some(w + 5) else None
    else None
  }

  lemma AfterMatchWordSound(s: string, e: nat)
    requires e <= |s| && AfterMatchWord(s, e).Some?
    ensures exists c: nat, w: nat :: Separator(s, e, c, w) && AfterMatchWord(s, e).value == w + 5
  {
    var c := SkipSpaces(s, e);
    var w := SkipSpaces(s, c + 1);
    SkipSpacesRun(s, e);
    SkipSpacesRun(s, c + 1);
    assert Separator(s, e, c, w);
  }

  /** The separator is deterministic: spaces never give way to a comma or an 'M'. */
  lemma AfterMatchWordComplete(s: string, e: nat, c: nat, w: nat)
    requires Separator(s, e, c, w)
    ensures AfterMatchWord(s, e) == Some(w + 5)
  {
    SkipSpacesExact(s, e, c);
    assert s[w] == s[w..w + 5][0] == 'M';
    SkipSpacesExact(s, c + 1, w);
  }

  /** Where the pattern matched: the keyword's position, the keyword, and where `(.+)` starts. */
  datatype Site = Site(at: nat, confidence: string, bodyStart: nat)

  /** The two capture groups of a match. */
  datatype Submatch = Submatch(confidence: string, matchTo: string)

  /** Where `(.+)` starts when the part after the keyword, which ends at `e`, matches. */
  function BodyAfter(s: string, e: nat): (d: Option<nat>)
    requires e <= |s|
    ensures d.Some? ==> e < d.value < |s|
  {
    match AfterMatchWord(s, e)
    case None => None
    case Some(m) => Run(s, Lead, m)
  }

  /** The pattern tried with its keyword at `k`. */
  function MatchAt(s: string, k: nat): (r: Option<Site>)
    requires k <= |s|
    ensures r.Some? ==> r.value.at == k && r.value.bodyStart < |s| && IsKeyword(r.value.confidence)
  {
    match KeywordAt(s, k)
    case None => None
    case Some(kw) =>
      match BodyAfter(s, k + |kw|)
      case None => None
      case Some(d) => Some(Site(k, kw, d))
  }

  /** The first keyword position at or after `k` where the pattern matches. */
  function FindFrom(s: string, k: nat): (r: Option<Site>)
    requires k <= |s|
    ensures r.Some? ==> k <= r.value.at <= |s| && r.value.bodyStart < |s| && IsKeyword(r.value.confidence)
    decreases |s| - k
  {
    match MatchAt(s, k)
    case Some(r) => Some(r)
    case None => if k == |s| then None else FindFrom(s, k + 1)
  }

  /** regexp.FindStringSubmatch with this pattern: None when nothing matches. */
  function FindStringSubmatch(s: string): (r: Option<Submatch>)
    ensures r.Some? ==> IsKeyword(r.value.confidence)
  {
    match FindFrom(s, 0)
    case None => None
    case Some(x) => Some(Submatch(x.confidence, s[x.bodyStart..LineEnd(s, x.bodyStart)]))
  }

  /** `\s*,\s*Match\s*:*\s*\**` matches from `e` to `d`, and `(.+)` can start at `d`. */
  ghost predicate TailAt(s: string, e: nat, d: nat) {
    d <= |s|
    && exists c: nat, w: nat {:trigger Separator(s, e, c, w)} ::
         Separator(s, e, c, w) && w + 5 <= d && Accepts(s, Lead, w + 5, d)
  }

  /** The pattern, less its leading `\s*:*\s*`, matches with keyword `kw` at `k` and `(.+)` starting at `d`. */
  ghost predicate PatternAt(s: string, k: nat, kw: string, d: nat) {
    IsKeyword(kw) && Occurs(s, k, kw) && TailAt(s, k + |kw|, d)
  }

  lemma BodyAfterSound(s: string, e: nat, d: nat)
    requires e <= |s| && BodyAfter(s, e) == Some(d)
    ensures TailAt(s, e, d)
  {
    var m := AfterMatchWord(s, e).value;
    RunSound(s, Lead, m);
    AfterMatchWordSound(s, e);
    var c: nat, w: nat :| Separator(s, e, c, w) && m == w + 5;
    assert Separator(s, e, c, w) && w + 5 <= d && Accepts(s, Lead, w + 5, d);
  }

  lemma BodyAfterMaximal(s: string, e: nat, d: nat)
    requires e <= |s| && TailAt(s, e, d)
    ensures BodyAfter(s, e).Some? && d <= BodyAfter(s, e).value
  {
    var c: nat, w: nat :| Separator(s, e, c, w) && w + 5 <= d && Accepts(s, Lead, w + 5, d);
    SeparatedBodyMaximal(s, e, c, w, d);
  }

  lemma SeparatedBodyMaximal(s: string, e: nat, c: nat, w: nat, d: nat)
    requires e <= |s| && Separator(s, e, c, w) && w + 5 <= d <= |s| && Accepts(s, Lead, w + 5, d)
    ensures BodyAfter(s, e).Some? && d <= BodyAfter(s, e).value
  {
    AfterMatchWordComplete(s, e, c, w);
    RunMaximal(s, Lead, w + 5, d);
    BodyAfterRun(s, e, w + 5, d);
  }

  lemma BodyAfterRun(s: string, e: nat, m: nat, d: nat)
    requires e <= |s| && AfterMatchWord(s, e) == Some(m)
    requires m <= |s| && Run(s, Lead, m).Some? && d <= Run(s, Lead, m).value
    ensures BodyAfter(s, e).Some? && d <= BodyAfter(s, e).value
  {
  }

  lemma MatchAtSound(s: string, k: nat, x: Site)
    requires k <= |s| && MatchAt(s, k) == Some(x)
    ensures PatternAt(s, k, x.confidence, x.bodyStart)
  {
    MatchAtParts(s, k, x);
    PartsPattern(s, k, x.confidence, x.bodyStart);
  }

  /** A keyword at `k` and the rest of the pattern after it make a match. */
  lemma PartsPattern(s: string, k: nat, kw: string, d: nat)
    requires k + |kw| <= |s| && KeywordAt(s, k) == Some(kw) && BodyAfter(s, k + |kw|) == Some(d)
    ensures PatternAt(s, k, kw, d)
  {
    BodyAfterSound(s, k + |kw|, d);
  }

  /** A match at `k` is the keyword there followed by the rest of the pattern. */
  lemma MatchAtParts(s: string, k: nat, x: Site)
    requires k <= |s| && MatchAt(s, k) == Some(x)
    ensures KeywordAt(s, k) == Some(x.confidence) && k + |x.confidence| <= |s|
    ensures BodyAfter(s, k + |x.confidence|) == Some(x.bodyStart)
  {
  }

  /** Any match with its keyword at `k` is found there, and the reported `(.+)` starts no earlier. */
  lemma MatchAtComplete(s: string, k: nat, kw: string, d: nat)
    requires k <= |s| && PatternAt(s, k, kw, d)
    ensures MatchAt(s, k).Some?
    ensures MatchAt(s, k).value.confidence == kw && d <= MatchAt(s, k).value.bodyStart
  {
    KeywordAtComplete(s, k, kw);
    BodyAfterMaximal(s, k + |kw|, d);
    MatchAtAssembled(s, k, kw, BodyAfter(s, k + |kw|).value);
  }

  lemma MatchAtAssembled(s: string, k: nat, kw: string, d: nat)
    requires k + |kw| <= |s| && KeywordAt(s, k) == Some(kw) && BodyAfter(s, k + |kw|) == Some(d)
    ensures MatchAt(s, k) == Some(Site(k, kw, d))
  {
  }

  lemma {:induction false} FindFromSound(s: string, k: nat)
    requires k <= |s| && FindFrom(s, k).Some?
    ensures MatchAt(s, FindFrom(s, k).value.at) == FindFrom(s, k)
    decreases |s| - k
  {
    if MatchAt(s, k).None? {
      FindFromSound(s, k + 1);
    }
  }

  lemma {:induction false} FindFromFirst(s: string, k: nat, j: nat)
    requires k <= j <= |s| && FindFrom(s, k).Some? && j < FindFrom(s, k).value.at
    ensures MatchAt(s, j).None?
    decreases j - k
  {
    if k < j {
      FindFromFirst(s, k + 1, j);
    }
  }

  lemma {:induction false} FindFromComplete(s: string, k: nat, j: nat)
    requires k <= j <= |s| && MatchAt(s, j).Some?
    ensures FindFrom(s, k).Some? && FindFrom(s, k).value.at <= j
    decreases j - k
  {
    if MatchAt(s, k).None? {
      FindFromComplete(s, k + 1, j);
    }
  }

  /**
   * FindStringSubmatch reports a match at the least keyword position any
   * match has, with `(.+)` starting as late as possible there and running
   * to the end of its line.
   */
  lemma FindStringSubmatchSound(s: string, x: Site)
    requires FindFrom(s, 0) == Some(x)
    ensures PatternAt(s, x.at, x.confidence, x.bodyStart)
    ensures FindStringSubmatch(s) == Some(Submatch(x.confidence, s[x.bodyStart..LineEnd(s, x.bodyStart)]))
    ensures forall k: nat, kw, d: nat :: PatternAt(s, k, kw, d) ==> x.at <= k
    ensures forall d: nat :: PatternAt(s, x.at, x.confidence, d) ==> d <= x.bodyStart
  {
    FindFromSound(s, 0);
    MatchAtSound(s, x.at, x);
    forall k: nat, kw, d: nat | PatternAt(s, k, kw, d)
      ensures x.at <= k
    {
      FirstSiteLeast(s, x, k, kw, d);
    }
    forall d: nat | PatternAt(s, x.at, x.confidence, d)
      ensures d <= x.bodyStart
    {
      MatchAtComplete(s, x.at, x.confidence, d);
    }
  }

  lemma FirstSiteLeast(s: string, x: Site, k: nat, kw: string, d: nat)
    requires FindFrom(s, 0) == Some(x) && PatternAt(s, k, kw, d)
    ensures x.at <= k
  {
    MatchAtComplete(s, k, kw, d);
    FindFromComplete(s, 0, k);
  }

  /** FindStringSubmatch finds nothing exactly when the pattern matches nowhere. */
  lemma FindStringSubmatchNone(s: string)
    ensures FindStringSubmatch(s).None? <==> forall k: nat, kw, d: nat :: !PatternAt(s, k, kw, d)
  {
    if FindStringSubmatch(s).Some? {
      var x := FindFrom(s, 0).value;
      FindFromSound(s, 0);
      MatchAtSound(s, x.at, x);
    } else {
      forall k: nat, kw, d: nat | PatternAt(s, k, kw, d)
        ensures false
      {
        MatchAtComplete(s, k, kw, d);
        FindFromComplete(s, 0, k);
      }
    }
  }

  /** What the leading `\s*:*\s*` consumes between a match start `p` and its keyword at `k`. */
  ghost predicate LeadingRun(s: string, p: nat, k: nat)
    requires p <= k <= |s|
  {
    exists a, b :: p <= a <= b <= k && SpacesBetween(s, p, a)
      && (forall j :: a <= j < b ==> s[j] == ':') && SpacesBetween(s, b, k)
  }

  /**
   * Leftmost-first picks the least match start; a start whose keyword is
   * later lies after every earlier keyword, so the least start belongs to
   * the least keyword position and the leading run never changes a capture.
   */
  lemma LeadingRunBeforeSite(s: string, p1: nat, k1: nat, kw1: string, d1: nat, p2: nat, k2: nat, kw2: string, d2: nat)
    requires p1 <= k1 < k2 <= |s| && p2 <= k2
    requires LeadingRun(s, p1, k1) && PatternAt(s, k1, kw1, d1)
    requires LeadingRun(s, p2, k2) && PatternAt(s, k2, kw2, d2)
    ensures p1 <= k1 < p2
  {
    var a, b :| p2 <= a <= b <= k2 && SpacesBetween(s, p2, a)
      && (forall j :: a <= j < b ==> s[j] == ':') && SpacesBetween(s, b, k2);
    assert s[k1] == s[k1..k1 + |kw1|][0] == kw1[0];
    assert !IsSpace(s[k1]) && s[k1] != ':';
  }

  /** Positions where no alternative occurs are passed over by the search. */
  lemma {:induction false} SkipNoKeyword(s: string, k: nat, j: nat)
    requires k <= j <= |s|
    requires forall i :: k <= i < j ==> KeywordAt(s, i).None?
    ensures FindFrom(s, k) == FindFrom(s, j)
    decreases j - k
  {
    if k < j {
      assert KeywordAt(s, k).None?;
      SkipNoKeyword(s, k + 1, j);
    }
  }

  /** A text in which none of HIGH, MEDIUM, LOW occurs never matches. */
  lemma NoKeywordNoMatch(s: string)
    requires forall i :: 0 <= i <= |s| ==> KeywordAt(s, i).None?
    ensures FindStringSubmatch(s).None?
  {
    SkipNoKeyword(s, 0, |s|);
  }

  /** Only an 'H', 'M' or 'L' can start an alternative. */
  lemma KeywordStart(s: string, k: nat)
    requires KeywordAt(s, k).Some?
    ensures k < |s| && (s[k] == 'H' || s[k] == 'M' || s[k] == 'L')
  {
    OccursFirst(s, k, KeywordAt(s, k).value);
  }

  // ---- worked examples ----

  const PlainReply: string := "HIGH, Match: flour"
  const StarredReply: string := "LOW, Match **flour**"

  lemma PlainReplySite()
    ensures MatchAt(PlainReply, 0) == Some(Site(0, "HIGH", 13))
  {
    var s := PlainReply;
    assert KeywordAt(s, 0) == Some("HIGH");
    PlainReplySeparator();
    PlainReplyBody();
  }

  lemma PlainReplySeparator()
    ensures AfterMatchWord(PlainReply, 4) == Some(11)
  {
    var s := PlainReply;
    assert SkipSpaces(s, 4) == 4;
    assert SkipSpaces(s, 5) == 6;
    assert s[6..11] == "Match";
  }

  lemma PlainReplyBody()
    ensures Run(PlainReply, Lead, 11) == Some(13)
  {
    var s := PlainReply;
    assert RunEnd(s, Lead, 11) == 11;
    assert RunEnd(s, Colons, 11) == 12;
    assert RunEnd(s, Gap, 12) == 13;
    assert RunEnd(s, Stars, 13) == 13;
  }

  lemma PlainReplyExample()
    ensures FindStringSubmatch(PlainReply) == Some(Submatch("HIGH", "flour"))
  {
    PlainReplySite();
    assert FindFrom(PlainReply, 0) == Some(Site(0, "HIGH", 13));
    assert LineEnd(PlainReply, 13) == 18;
    assert PlainReply[13..18] == "flour";
  }

  lemma StarredReplySite()
    ensures MatchAt(StarredReply, 0) == Some(Site(0, "LOW", 13))
  {
    var s := StarredReply;
    assert s[0] == 'L';
    assert !Occurs(s, 0, "HIGH") && !Occurs(s, 0, "MEDIUM") by {
      assert s[0..4][0] == 'L' && s[0..6][0] == 'L';
    }
    assert KeywordAt(s, 0) == Some("LOW");
    StarredReplySeparator();
    StarredReplyBody();
  }

  lemma StarredReplySeparator()
    ensures AfterMatchWord(StarredReply, 3) == Some(10)
  {
    var s := StarredReply;
    assert SkipSpaces(s, 3) == 3;
    assert SkipSpaces(s, 4) == 5;
    assert s[5..10] == "Match";
  }

  lemma StarredReplyBody()
    ensures Run(StarredReply, Lead, 10) == Some(13)
  {
    var s := StarredReply;
    assert RunEnd(s, Lead, 10) == 11;
    assert RunEnd(s, Colons, 11) == 11;
    assert RunEnd(s, Gap, 11) == 11;
    assert RunEnd(s, Stars, 11) == 13;
  }

  /** Markdown emphasis: the greedy `(.+)` keeps the closing stars. */
  lemma StarredReplyExample()
    ensures FindStringSubmatch(StarredReply) == Some(Submatch("LOW", "flour**"))
  {
    StarredReplySite();
    assert FindFrom(StarredReply, 0) == Some(Site(0, "LOW", 13));
    StarredReplyCapture();
  }

  lemma StarredReplyCapture()
    ensures LineEnd(StarredReply, 13) == 20 && StarredReply[13..20] == "flour**"
  {
    assert LineEnd(StarredReply, 17) == 20;
  }

  /** The reply as the service usually words it, with the priming "Confidence:" repeated. */
  const ConfidenceReply: string := "Confidence: HIGH, Match: flour"

  lemma ConfidenceReplyPrefix()
    ensures forall i :: 0 <= i < 12 ==> KeywordAt(ConfidenceReply, i).None?
  {
    var s := ConfidenceReply;
    forall i | 0 <= i < 12
      ensures KeywordAt(s, i).None?
    {
      if KeywordAt(s, i).Some? {
        KeywordStart(s, i);
      }
    }
  }

  lemma ConfidenceReplySeparator()
    ensures AfterMatchWord(ConfidenceReply, 16) == Some(23)
  {
    var s := ConfidenceReply;
    assert SkipSpaces(s, 16) == 16;
    assert SkipSpaces(s, 17) == 18;
    assert s[18..23] == "Match";
  }

  lemma ConfidenceReplyBody()
    ensures Run(ConfidenceReply, Lead, 23) == Some(25)
  {
    var s := ConfidenceReply;
    assert RunEnd(s, Lead, 23) == 23;
    assert RunEnd(s, Colons, 23) == 24;
    assert RunEnd(s, Gap, 24) == 25;
    assert RunEnd(s, Stars, 25) == 25;
  }

  lemma ConfidenceReplySite()
    ensures MatchAt(ConfidenceReply, 12) == Some(Site(12, "HIGH", 25))
  {
    var s := ConfidenceReply;
    assert s[12..16] == "HIGH";
    assert KeywordAt(s, 12) == Some("HIGH");
    ConfidenceReplySeparator();
    ConfidenceReplyBody();
  }

  lemma ConfidenceReplyCapture()
    ensures LineEnd(ConfidenceReply, 25) == 30 && ConfidenceReply[25..30] == "flour"
  {
    assert LineEnd(ConfidenceReply, 27) == 30;
  }

  /** The leading "Confidence: " contains no alternative, so the match starts at HIGH. */
  lemma ConfidenceReplyExample()
    ensures FindStringSubmatch(ConfidenceReply) == Some(Submatch("HIGH", "flour"))
  {
    ConfidenceReplyFound();
    ConfidenceReplyCapture();
  }

  lemma ConfidenceReplyFound()
    ensures FindFrom(ConfidenceReply, 0) == Some(Site(12, "HIGH", 25))
  {
    ConfidenceReplyPrefix();
    SkipNoKeyword(ConfidenceReply, 0, 12);
    ConfidenceReplySite();
  }

  /** Neither "NO MATCH" nor "xyz" contains an alternative: the 'M' and 'H' of "NO MATCH" have no room for MEDIUM or HIGH. */
  lemma NoKeywordExamples()
    ensures forall i :: 0 <= i <= |"NO MATCH"| ==> KeywordAt("NO MATCH", i).None?
    ensures forall i :: 0 <= i <= |"xyz"| ==> KeywordAt("xyz", i).None?
  {
    forall i | 0 <= i <= |"NO MATCH"|
      ensures KeywordAt("NO MATCH", i).None?
    {
      if KeywordAt("NO MATCH", i).Some? {
        KeywordStart("NO MATCH", i);
      }
    }
    forall i | 0 <= i <= |"xyz"|
      ensures KeywordAt("xyz", i).None?
    {
      if KeywordAt("xyz", i).Some? {
        KeywordStart("xyz", i);
      }
    }
  }
}
