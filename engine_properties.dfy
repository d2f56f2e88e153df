/**
 * What the conversation engine promises: how many sends a record costs and
 * when the loop stops, which messages each attempt appends, that only the
 * base prompt is cached, what the loop ends with (its verdict, the most
 * recent LOW candidate as the fallback, the record as updated in place),
 * that every row written either says NO MATCH or names a catalog entry
 * together with that entry's density, and what the batch does to the
 * records it does not process.
 */
module EngineProperties {
  import opened Wrappers
  import opened Claude
  import opened Models
  import opened Processor
  import opened Engine

  // ---- verdicts as the parser and the catalog hand them over ----

  /** What every judged reply satisfies, whatever its text. */
  predicate Sound(refs: seq<DensityReferenceRecord>, v: Verdict) {
    (v.NoMatchVerdict? ==> v.sr == StructuredResponse(NoMatch, None))
    && (v.Listed? ==>
          v.sr.matchTo == Some(v.candidate) && IsConfidenceLabel(v.sr.confidence) && v.sr.confidence != NoMatch
          && Lookup(refs, StripStars(v.candidate)) == Some(v.entry))
  }

  /** Every verdict of `vs` is sound; recalled only where a verdict's soundness is asked for. */
  predicate AllSound(refs: seq<DensityReferenceRecord>, vs: seq<Verdict>) {
    forall k {:trigger Sound(refs, vs[k])} :: 0 <= k < |vs| ==> Sound(refs, vs[k])
  }

  lemma JudgesSound(refs: seq<DensityReferenceRecord>, replies: seq<Reply>, vs: seq<Verdict>)
    requires Judges(refs, replies, vs)
    ensures AllSound(refs, vs)
  {
    forall k | 0 <= k < |vs|
      ensures Sound(refs, vs[k])
    {
      assert vs[k] == Classify(refs, replies[k]);
    }
  }

  lemma SoundAt(refs: seq<DensityReferenceRecord>, vs: seq<Verdict>, pos: nat)
    requires AllSound(refs, vs)
    ensures Sound(refs, VerdictAt(vs, pos))
  {
    if pos < |vs| {
      assert Sound(refs, vs[pos]);
    }
  }

  // ---- sends ----

  /**
   * Every send before the last one was answered with a verdict after which
   * the loop goes on; the last one stops the loop unless the five attempts
   * are used up. A stopping verdict ends the loop at once, without another
   * send.
   */
  lemma {:induction false} ConverseSends(w: Wording, c: Conversation, vs: seq<Verdict>, pos: nat, attempts: nat)
    requires attempts < 5
    ensures var e := Converse(w, c, vs, pos, attempts);
      (forall k :: pos <= k < e.next - 1 ==> !Stops(VerdictAt(vs, k)))
      && (e.next < pos + 5 - attempts ==> Stops(VerdictAt(vs, e.next - 1)))
    ensures Stops(VerdictAt(vs, pos)) ==> Converse(w, c, vs, pos, attempts) == Ended(Attempt(w, c, VerdictAt(vs, pos)).conv, pos + 1)
    decreases 5 - attempts
  {
    var s := Attempt(w, c, VerdictAt(vs, pos));
    if s.stop {
      StepStops(w, c, vs, pos, attempts, s.conv);
    } else {
      StepContinues(w, c, vs, pos, attempts, s.conv);
      if attempts + 1 < 5 {
        ConverseSends(w, s.conv, vs, pos + 1, attempts + 1);
      }
    }
  }

  /** A record's conversation makes between one and five sends, and stops early only on a stopping verdict. */
  lemma ConversationSends(w: Wording, basePrompt: string, record: MissingDensitiesRecord, vs: seq<Verdict>, pos: nat)
    ensures var e := Converse(w, InitialConversation(w, basePrompt, record), vs, pos, 0);
      pos + 1 <= e.next <= pos + 5
      && (forall k :: pos <= k < e.next - 1 ==> !Stops(VerdictAt(vs, k)))
      && (e.next < pos + 5 ==> Stops(VerdictAt(vs, e.next - 1)))
  {
    ConverseSends(w, InitialConversation(w, basePrompt, record), vs, pos, 0);
  }

  // ---- messages ----

  /**
   * A reply that cannot be parsed, or that names an unlisted ingredient,
   * appends the assistant's reply and then one uncached user correction; a
   * listed LOW candidate appends only an uncached user request to look for
   * something more generic; a stopping verdict appends nothing.
   */
  lemma AttemptMessages(w: Wording, c: Conversation, v: Verdict)
    ensures var s := Attempt(w, c, v).conv.stream; var n := |c.stream|;
      (v.Garbled? || v.Unlisted? ==>
         |s| == n + 2
         && s[n].role == RoleAssistant && s[n].content == v.content
         && s[n + 1].role == RoleUser && !CarriesCacheControl(s[n + 1])
         && IsSingleText(s[n + 1], if v.Garbled? then w.parseRetry else NotListedMessage(w, v.candidate)))
      && (v.Listed? && v.sr.confidence == ConfidenceLow ==>
            |s| == n + 1
            && s[n].role == RoleUser && !CarriesCacheControl(s[n])
            && IsSingleText(s[n], GenericCheckMessage(w, c.record.ingredient, v.candidate)))
      && (Stops(v) ==> s == c.stream)
  {
  }

  // ---- the cache hint ----

  /** Only the first message carries a cache hint. */
  predicate OnlyFirstCached(stream: seq<ClaudeMessage>) {
    |stream| > 0 && CarriesCacheControl(stream[0]) && forall k :: 1 <= k < |stream| ==> !CarriesCacheControl(stream[k])
  }

  predicate PlainContent(content: seq<ContentBlock>) {
    forall j :: 0 <= j < |content| ==> content[j].cacheControl.None?
  }

  /** The reply content that a verdict puts back into the stream carries no cache hint. */
  predicate Plain(v: Verdict) {
    (v.Garbled? ==> PlainContent(v.content)) && (v.Unlisted? ==> PlainContent(v.content))
  }

  lemma AttemptCache(w: Wording, c: Conversation, v: Verdict)
    requires OnlyFirstCached(c.stream) && Plain(v)
    ensures OnlyFirstCached(Attempt(w, c, v).conv.stream)
  {
    var s := Attempt(w, c, v).conv.stream;
    AttemptMessages(w, c, v);
    assert s[..|c.stream|] == c.stream;
    if v.Garbled? || v.Unlisted? {
      assert !CarriesCacheControl(s[|c.stream|]);
    }
  }

  predicate AllPlain(vs: seq<Verdict>) {
    forall k {:trigger Plain(vs[k])} :: 0 <= k < |vs| ==> Plain(vs[k])
  }

  lemma PlainAt(vs: seq<Verdict>, pos: nat)
    requires AllPlain(vs)
    ensures Plain(VerdictAt(vs, pos))
  {
    if pos < |vs| {
      assert Plain(vs[pos]);
    }
  }

  lemma {:induction false} ConverseCache(w: Wording, c: Conversation, vs: seq<Verdict>, pos: nat, attempts: nat)
    requires OnlyFirstCached(c.stream)
    requires AllPlain(vs)
    ensures OnlyFirstCached(Converse(w, c, vs, pos, attempts).conv.stream)
    decreases 5 - attempts
  {
    if attempts < 5 {
      var v := VerdictAt(vs, pos);
      var s := Attempt(w, c, v);
      PlainAt(vs, pos);
      AttemptCache(w, c, v);
      if s.stop {
        StepStops(w, c, vs, pos, attempts, s.conv);
      } else {
        StepContinues(w, c, vs, pos, attempts, s.conv);
        ConverseCache(w, s.conv, vs, pos + 1, attempts + 1);
      }
    }
  }

  /** No delivered reply carries a cache hint of its own. */
  predicate PlainReplies(replies: seq<Reply>) {
    forall k :: 0 <= k < |replies| && replies[k].Delivered? ==> PlainContent(replies[k].response.content)
  }

  /**
   * Only the base prompt is ever sent with a cache hint: every later user
   * message is made uncached, and replies fed back are sent as received.
   * The stream only grows, so every stream sent along the way is a prefix
   * of this one.
   */
  lemma ConversationCache(w: Wording, refs: seq<DensityReferenceRecord>, basePrompt: string, record: MissingDensitiesRecord,
                          replies: seq<Reply>, vs: seq<Verdict>, pos: nat)
    requires Judges(refs, replies, vs) && PlainReplies(replies)
    ensures OnlyFirstCached(Converse(w, InitialConversation(w, basePrompt, record), vs, pos, 0).conv.stream)
  {
    forall k | 0 <= k < |vs|
      ensures Plain(vs[k])
    {
      assert vs[k] == Classify(refs, replies[k]);
    }
    assert AllPlain(vs);
    ConverseCache(w, InitialConversation(w, basePrompt, record), vs, pos, 0);
  }

  // ---- what the attempt loop ends with ----

  /** The verdict a reply leaves standing: NO MATCH, or a listed MEDIUM/HIGH candidate. */
  function ResultOf(v: Verdict): (r: Option<StructuredResponse>)
    ensures r.Some? ==> Stops(v)
  {
    match v
    case NoMatchVerdict(sr) => Some(sr)
    case Listed(sr, _, _) => if sr.confidence == ConfidenceLow then None else Some(sr)
    case _ => None
  }

  /**
   * Starting from no verdict, the loop ends with the verdict left by the
   * reply to its last send; a failed last send, or five sends without a
   * stopping verdict, leave none.
   */
  lemma {:induction false} ConverseResult(w: Wording, c: Conversation, vs: seq<Verdict>, pos: nat, attempts: nat)
    requires attempts < 5 && c.result.None?
    ensures var e := Converse(w, c, vs, pos, attempts); e.conv.result == ResultOf(VerdictAt(vs, e.next - 1))
    decreases 5 - attempts
  {
    var s := Attempt(w, c, VerdictAt(vs, pos));
    if s.stop {
      StepStops(w, c, vs, pos, attempts, s.conv);
    } else {
      StepContinues(w, c, vs, pos, attempts, s.conv);
      if attempts + 1 < 5 {
        ConverseResult(w, s.conv, vs, pos + 1, attempts + 1);
      }
    }
  }

  /** A listed LOW candidate. */
  predicate IsLow(v: Verdict) {
    v.Listed? && v.sr.confidence == ConfidenceLow
  }

  /** The fallback after verdict `v`: a listed LOW candidate replaces it. */
  function KeepLow(v: Verdict, f: Option<StructuredResponse>): Option<StructuredResponse> {
    if IsLow(v) then Some(v.sr) else f
  }

  /** The fallback after the sends numbered `from` to `to - 1`, starting from `f`. */
  function LowAfter(vs: seq<Verdict>, from: nat, to: nat, f: Option<StructuredResponse>): Option<StructuredResponse>
    decreases if from < to then to - from else 0
  {
    if to <= from then f else LowAfter(vs, from + 1, to, KeepLow(VerdictAt(vs, from), f))
  }

  /** The most recent LOW candidate wins; with none, the fallback is unchanged. */
  lemma {:induction false} LowAfterLatest(vs: seq<Verdict>, from: nat, to: nat, f: Option<StructuredResponse>)
    ensures (forall k :: from <= k < to ==> !IsLow(VerdictAt(vs, k))) ==> LowAfter(vs, from, to, f) == f
    ensures forall k ::
              from <= k < to && IsLow(VerdictAt(vs, k)) && (forall j :: k < j < to ==> !IsLow(VerdictAt(vs, j)))
              ==> LowAfter(vs, from, to, f) == Some(VerdictAt(vs, k).sr)
    decreases if from < to then to - from else 0
  {
    if from < to {
      LowAfterLatest(vs, from + 1, to, KeepLow(VerdictAt(vs, from), f));
    }
  }

  /** The loop ends with the fallback its sends left. */
  lemma {:induction false} ConverseFallback(w: Wording, c: Conversation, vs: seq<Verdict>, pos: nat, attempts: nat)
    ensures var e := Converse(w, c, vs, pos, attempts); e.conv.fallback == LowAfter(vs, pos, e.next, c.fallback)
    decreases 5 - attempts
  {
    if attempts < 5 {
      var s := Attempt(w, c, VerdictAt(vs, pos));
      assert s.conv.fallback == KeepLow(VerdictAt(vs, pos), c.fallback);
      if s.stop {
        StepStops(w, c, vs, pos, attempts, s.conv);
      } else {
        StepContinues(w, c, vs, pos, attempts, s.conv);
        ConverseFallback(w, s.conv, vs, pos + 1, attempts + 1);
      }
    }
  }

  /** `r` has every column of `input` but the match and the density. */
  predicate KeepsColumns(r: MissingDensitiesRecord, input: MissingDensitiesRecord) {
    r.popularity == input.popularity && r.ingredient == input.ingredient && r.action == input.action
    && r.example == input.example && r.confidence == input.confidence
  }

  /** The record after verdict `v`: a listed candidate sets its match and density. */
  function AdoptFrom(v: Verdict, r: MissingDensitiesRecord): MissingDensitiesRecord {
    if v.Listed? then Adopt(r, v.candidate, v.entry) else r
  }

  /** The record after the sends numbered `from` to `to - 1`. */
  function AdoptAfter(vs: seq<Verdict>, from: nat, to: nat, r: MissingDensitiesRecord): MissingDensitiesRecord
    decreases if from < to then to - from else 0
  {
    if to <= from then r else AdoptAfter(vs, from + 1, to, AdoptFrom(VerdictAt(vs, from), r))
  }

  /** The record is updated in place at every listed candidate, whatever its confidence. */
  lemma {:induction false} ConverseRecord(w: Wording, c: Conversation, vs: seq<Verdict>, pos: nat, attempts: nat)
    ensures var e := Converse(w, c, vs, pos, attempts); e.conv.record == AdoptAfter(vs, pos, e.next, c.record)
    decreases 5 - attempts
  {
    if attempts < 5 {
      var s := Attempt(w, c, VerdictAt(vs, pos));
      assert s.conv.record == AdoptFrom(VerdictAt(vs, pos), c.record);
      if s.stop {
        StepStops(w, c, vs, pos, attempts, s.conv);
      } else {
        StepContinues(w, c, vs, pos, attempts, s.conv);
        ConverseRecord(w, s.conv, vs, pos + 1, attempts + 1);
      }
    }
  }

  /** The updates in place change only the match and the density; with no listed candidate they change nothing. */
  lemma {:induction false} AdoptAfterFrame(vs: seq<Verdict>, from: nat, to: nat, r: MissingDensitiesRecord)
    ensures KeepsColumns(AdoptAfter(vs, from, to, r), r)
    ensures (forall k :: from <= k < to ==> !VerdictAt(vs, k).Listed?) ==> AdoptAfter(vs, from, to, r) == r
    decreases if from < to then to - from else 0
  {
    if from < to {
      AdoptAfterFrame(vs, from + 1, to, AdoptFrom(VerdictAt(vs, from), r));
    }
  }

  // ---- the rows written ----

  /** `sr` names a catalog entry, and the record carries that name and that entry's density. */
  predicate Backs(refs: seq<DensityReferenceRecord>, sr: StructuredResponse, r: MissingDensitiesRecord) {
    sr.matchTo.Some? && Lookup(refs, StripStars(sr.matchTo.value)).Some?
    && r.matchTo == sr.matchTo && r.density == Some(Lookup(refs, StripStars(sr.matchTo.value)).value.density)
  }

  /**
   * The invariant of the attempt loop for the record `input`: the fallback
   * is a LOW candidate; a standing verdict is NO MATCH or a MEDIUM/HIGH
   * candidate; the verdict that finalisation would pick, when it names an
   * ingredient, is backed by the record; while nothing was adopted for
   * good the record is the input; and only the match and the density of
   * the record ever change.
   */
  ghost predicate Grounded(refs: seq<DensityReferenceRecord>, input: MissingDensitiesRecord, c: Conversation) {
    (c.fallback.Some? ==> c.fallback.value.confidence == ConfidenceLow && c.fallback.value.matchTo.Some?)
    && (c.result.Some? ==>
          c.result.value == StructuredResponse(NoMatch, None)
          || ((c.result.value.confidence == ConfidenceMedium || c.result.value.confidence == ConfidenceHigh) && c.result.value.matchTo.Some?))
    && (Resolve(c).Some? && Resolve(c).value.matchTo.Some? ==> Backs(refs, Resolve(c).value, c.record))
    && (c.fallback.None? && (c.result.None? || c.result.value.matchTo.None?) ==> c.record == input)
    && KeepsColumns(c.record, input)
  }

  lemma InitialGrounded(w: Wording, refs: seq<DensityReferenceRecord>, basePrompt: string, input: MissingDensitiesRecord)
    ensures Grounded(refs, input, InitialConversation(w, basePrompt, input))
  {
  }

  lemma AttemptGrounded(w: Wording, refs: seq<DensityReferenceRecord>, input: MissingDensitiesRecord, c: Conversation, v: Verdict)
    requires c.result.None? && Grounded(refs, input, c) && Sound(refs, v)
    ensures Grounded(refs, input, Attempt(w, c, v).conv)
  {
    if v.Listed? {
      assert IsConfidenceLabel(v.sr.confidence) && v.sr.confidence != NoMatch;
    }
  }

  lemma {:induction false} ConverseGrounded(w: Wording, refs: seq<DensityReferenceRecord>, input: MissingDensitiesRecord,
                                            c: Conversation, vs: seq<Verdict>, pos: nat, attempts: nat)
    requires c.result.None? && Grounded(refs, input, c) && AllSound(refs, vs)
    ensures Grounded(refs, input, Converse(w, c, vs, pos, attempts).conv)
    decreases 5 - attempts
  {
    if attempts < 5 {
      var s := Attempt(w, c, VerdictAt(vs, pos));
      SoundAt(refs, vs, pos);
      AttemptGrounded(w, refs, input, c, VerdictAt(vs, pos));
      if s.stop {
        StepStops(w, c, vs, pos, attempts, s.conv);
      } else {
        StepContinues(w, c, vs, pos, attempts, s.conv);
        ConverseGrounded(w, refs, input, s.conv, vs, pos + 1, attempts + 1);
      }
    }
  }

  /**
   * A row as ProcessRecords writes it: a confidence label; NO MATCH with no
   * match and the NO MATCH action; otherwise a name whose star-stripped form
   * is in the catalog, that entry's density, and REVIEW for LOW or
   * AUTO-FILL for MEDIUM and HIGH.
   */
  predicate RowListed(refs: seq<DensityReferenceRecord>, row: MissingDensitiesRecord) {
    IsConfidenceLabel(row.confidence)
    && (row.confidence == NoMatch ==> row.matchTo.None? && row.action == Some(ActionNoMatch))
    && (row.confidence != NoMatch ==>
          row.matchTo.Some? && Lookup(refs, StripStars(row.matchTo.value)).Some?
          && row.density == Some(Lookup(refs, StripStars(row.matchTo.value)).value.density)
          && row.action == Some(if row.confidence == ConfidenceLow then ActionReview else ActionAutoFill))
  }

  /** The row written for the record `input`: listed, keeping the input's other columns, and its density when NO MATCH. */
  predicate RowProper(refs: seq<DensityReferenceRecord>, input: MissingDensitiesRecord, row: MissingDensitiesRecord) {
    RowListed(refs, row)
    && row.popularity == input.popularity && row.ingredient == input.ingredient && row.example == input.example
    && (row.confidence == NoMatch ==> row.density == input.density)
  }

  lemma FinaliseProper(refs: seq<DensityReferenceRecord>, input: MissingDensitiesRecord, c: Conversation)
    requires Grounded(refs, input, c)
    ensures Finalise(c).Some? ==> RowProper(refs, input, Finalise(c).value)
  {
  }

  /** Whatever the replies, a record's conversation writes, if anything, a proper row for it. */
  lemma ConversationRow(w: Wording, refs: seq<DensityReferenceRecord>, basePrompt: string, record: MissingDensitiesRecord,
                        vs: seq<Verdict>, pos: nat)
    requires AllSound(refs, vs)
    ensures var row := Finalise(Converse(w, InitialConversation(w, basePrompt, record), vs, pos, 0).conv);
      row.Some? ==> RowProper(refs, record, row.value)
  {
    InitialGrounded(w, refs, basePrompt, record);
    ConverseGrounded(w, refs, record, InitialConversation(w, basePrompt, record), vs, pos, 0);
    FinaliseProper(refs, record, Converse(w, InitialConversation(w, basePrompt, record), vs, pos, 0).conv);
  }

  // ---- the batch ----

  /** A record's conversation changes only its match and its density. */
  lemma ConversationFrame(w: Wording, basePrompt: string, record: MissingDensitiesRecord, vs: seq<Verdict>, pos: nat)
    ensures var r := Converse(w, InitialConversation(w, basePrompt, record), vs, pos, 0).conv.record;
      KeepsColumns(r, record)
  {
    var c := InitialConversation(w, basePrompt, record);
    ConverseRecord(w, c, vs, pos, 0);
    AdoptAfterFrame(vs, pos, Converse(w, c, vs, pos, 0).next, record);
  }

  /** Record by record, `out` keeps the columns of `ins` but the match and the density. */
  predicate AllKeep(out: seq<MissingDensitiesRecord>, ins: seq<MissingDensitiesRecord>) {
    |out| == |ins| && forall k :: 0 <= k < |ins| ==> KeepsColumns(out[k], ins[k])
  }

  lemma AllKeepSnoc(out: seq<MissingDensitiesRecord>, ins: seq<MissingDensitiesRecord>, r: MissingDensitiesRecord)
    requires |ins| > 0 && AllKeep(out, ins[..|ins| - 1]) && KeepsColumns(r, ins[|ins| - 1])
    ensures AllKeep(out + [r], ins)
  {
    var front := ins[..|ins| - 1];
    assert forall k :: 0 <= k < |front| ==> (out + [r])[k] == out[k] && front[k] == ins[k];
  }

  /** Over the batch, each record keeps every column but its match and its density. */
  lemma {:induction false} BatchFrame(w: Wording, basePrompt: string, records: seq<MissingDensitiesRecord>, vs: seq<Verdict>, pos: nat)
    ensures AllKeep(Batch(w, basePrompt, records, vs, pos).records, records)
    decreases |records|
  {
    if |records| > 0 {
      var n := |records| - 1;
      BatchFrame(w, basePrompt, records[..n], vs, pos);
      ConversationFrame(w, basePrompt, records[n], vs, Batch(w, basePrompt, records[..n], vs, pos).next);
      BatchFrameStep(w, basePrompt, records, vs, pos);
    }
  }

  lemma BatchFrameStep(w: Wording, basePrompt: string, records: seq<MissingDensitiesRecord>, vs: seq<Verdict>, pos: nat)
    requires |records| > 0
    requires var b := Batch(w, basePrompt, records[..|records| - 1], vs, pos);
      var r := Converse(w, InitialConversation(w, basePrompt, records[|records| - 1]), vs, b.next, 0).conv.record;
      AllKeep(b.records, records[..|records| - 1]) && KeepsColumns(r, records[|records| - 1])
    ensures AllKeep(Batch(w, basePrompt, records, vs, pos).records, records)
  {
    var b := Batch(w, basePrompt, records[..|records| - 1], vs, pos);
    var r := Converse(w, InitialConversation(w, basePrompt, records[|records| - 1]), vs, b.next, 0).conv.record;
    AllKeepSnoc(b.records, records, r);
  }

  predicate AllListed(refs: seq<DensityReferenceRecord>, rows: seq<MissingDensitiesRecord>) {
    forall j :: 0 <= j < |rows| ==> RowListed(refs, rows[j])
  }

  lemma AllListedSnoc(refs: seq<DensityReferenceRecord>, rows: seq<MissingDensitiesRecord>, row: Option<MissingDensitiesRecord>)
    requires AllListed(refs, rows) && (row.Some? ==> RowListed(refs, row.value))
    ensures AllListed(refs, rows + RowOf(row))
  {
    assert forall j :: 0 <= j < |rows| ==> (rows + RowOf(row))[j] == rows[j];
  }

  /** Every row the batch writes is listed. */
  lemma {:induction false} BatchRowsListed(w: Wording, refs: seq<DensityReferenceRecord>, basePrompt: string,
                                           records: seq<MissingDensitiesRecord>, vs: seq<Verdict>, pos: nat)
    requires AllSound(refs, vs)
    ensures AllListed(refs, Batch(w, basePrompt, records, vs, pos).rows)
    decreases |records|
  {
    if |records| > 0 {
      var n := |records| - 1;
      BatchRowsListed(w, refs, basePrompt, records[..n], vs, pos);
      ConversationRow(w, refs, basePrompt, records[n], vs, Batch(w, basePrompt, records[..n], vs, pos).next);
      BatchRowsStep(w, refs, basePrompt, records, vs, pos);
    }
  }

  lemma BatchRowsStep(w: Wording, refs: seq<DensityReferenceRecord>, basePrompt: string,
                      records: seq<MissingDensitiesRecord>, vs: seq<Verdict>, pos: nat)
    requires |records| > 0
    requires var b := Batch(w, basePrompt, records[..|records| - 1], vs, pos);
      var row := Finalise(Converse(w, InitialConversation(w, basePrompt, records[|records| - 1]), vs, b.next, 0).conv);
      AllListed(refs, b.rows) && (row.Some? ==> RowListed(refs, row.value))
    ensures AllListed(refs, Batch(w, basePrompt, records, vs, pos).rows)
  {
    var b := Batch(w, basePrompt, records[..|records| - 1], vs, pos);
    var row := Finalise(Converse(w, InitialConversation(w, basePrompt, records[|records| - 1]), vs, b.next, 0).conv);
    AllListedSnoc(refs, b.rows, row);
  }

  /** The CSV rows are the rows, each rendered by MissingDensitiesToCsv, in order. */
  lemma {:induction false} CsvRowsAt(rows: seq<MissingDensitiesRecord>, format: Float32 -> string)
    ensures forall k :: 0 <= k < |rows| ==> CsvRows(rows, format)[k] == MissingDensitiesToCsv(rows[k], format)
    decreases |rows|
  {
    if |rows| > 0 {
      CsvRowsAt(rows[..|rows| - 1], format);
    }
  }

  // ---- conversations worked through ----

  /** Two unparsable replies, then a listed HIGH candidate: three sends, and an AUTO-FILL row for that entry. */
  lemma GarbledTwiceThenHigh(w: Wording, basePrompt: string, record: MissingDensitiesRecord, c1: seq<ContentBlock>,
                             c2: seq<ContentBlock>, sr: StructuredResponse, m: string, entry: DensityReferenceRecord)
    requires sr.confidence == ConfidenceHigh && sr.matchTo == Some(m)
    ensures var e := Converse(w, InitialConversation(w, basePrompt, record), [Garbled(c1), Garbled(c2), Listed(sr, m, entry)], 0, 0);
      e.next == 3 && |e.conv.stream| == 7
      && Finalise(e.conv) == Some(record.(matchTo := Some(m), density := Some(entry.density), confidence := ConfidenceHigh,
                                          action := Some(ActionAutoFill)))
  {
    var vs := [Garbled(c1), Garbled(c2), Listed(sr, m, entry)];
    var c0 := InitialConversation(w, basePrompt, record);
    var c1' := Attempt(w, c0, Garbled(c1)).conv;
    var c2' := Attempt(w, c1', Garbled(c2)).conv;
    StepContinues(w, c0, vs, 0, 0, c1');
    StepContinues(w, c1', vs, 1, 1, c2');
    StepStops(w, c2', vs, 2, 2, Attempt(w, c2', Listed(sr, m, entry)).conv);
  }

  /** A listed LOW candidate, then NO MATCH: the LOW candidate is written, for REVIEW. */
  lemma LowThenNoMatch(w: Wording, basePrompt: string, record: MissingDensitiesRecord, sr: StructuredResponse, m: string,
                       entry: DensityReferenceRecord)
    requires sr.confidence == ConfidenceLow && sr.matchTo == Some(m)
    ensures var vs := [Listed(sr, m, entry), NoMatchVerdict(StructuredResponse(NoMatch, None))];
      var e := Converse(w, InitialConversation(w, basePrompt, record), vs, 0, 0);
      e.next == 2
      && Finalise(e.conv) == Some(record.(matchTo := Some(m), density := Some(entry.density), confidence := ConfidenceLow,
                                          action := Some(ActionReview)))
  {
    var vs := [Listed(sr, m, entry), NoMatchVerdict(StructuredResponse(NoMatch, None))];
    var c0 := InitialConversation(w, basePrompt, record);
    var c1 := Attempt(w, c0, Listed(sr, m, entry)).conv;
    StepContinues(w, c0, vs, 0, 0, c1);
    StepStops(w, c1, vs, 1, 1, Attempt(w, c1, vs[1]).conv);
  }

  /** A listed LOW candidate, then a failed send: the LOW candidate is written, for REVIEW. */
  lemma LowThenTransport(w: Wording, basePrompt: string, record: MissingDensitiesRecord, sr: StructuredResponse, m: string,
                         entry: DensityReferenceRecord)
    requires sr.confidence == ConfidenceLow && sr.matchTo == Some(m)
    ensures var e := Converse(w, InitialConversation(w, basePrompt, record), [Listed(sr, m, entry)], 0, 0);
      e.next == 2
      && Finalise(e.conv) == Some(record.(matchTo := Some(m), density := Some(entry.density), confidence := ConfidenceLow,
                                          action := Some(ActionReview)))
  {
    var vs := [Listed(sr, m, entry)];
    var c0 := InitialConversation(w, basePrompt, record);
    var c1 := Attempt(w, c0, Listed(sr, m, entry)).conv;
    StepContinues(w, c0, vs, 0, 0, c1);
    StepStops(w, c1, vs, 1, 1, c1);
  }

  /** Five replies that are unparsable or name unlisted ingredients: five sends, and no row. */
  lemma NeverResolved(w: Wording, basePrompt: string, record: MissingDensitiesRecord, vs: seq<Verdict>, pos: nat)
    requires forall k :: pos <= k < pos + 5 ==> VerdictAt(vs, k).Garbled? || VerdictAt(vs, k).Unlisted?
    ensures var e := Converse(w, InitialConversation(w, basePrompt, record), vs, pos, 0);
      e.next == pos + 5 && Finalise(e.conv).None?
  {
    var c := InitialConversation(w, basePrompt, record);
    var e := Converse(w, c, vs, pos, 0);
    ConverseSends(w, c, vs, pos, 0);
    ConverseResult(w, c, vs, pos, 0);
    ConverseFallback(w, c, vs, pos, 0);
    LowAfterLatest(vs, pos, e.next, None);
  }
}
