/**
 * The per-ingredient conversation of ProcessRecords, first as a
 * specification (one attempt as a function of the state and the reply, the
 * bounded attempt loop, finalisation, and the batch over the records that
 * the limit admits), then as the imperative method over the array of
 * records that the specification describes.
 *
 * The completion service is a sequence of replies, consumed one per send
 * across the whole batch; a send past the end of the sequence fails like a
 * transport error.
 */
module Engine {
  import opened Wrappers
  import opened Claude
  import opened Models
  import opened Processor

  /** What one send to the completion service yields. */
  datatype Reply = TransportErr | Delivered(response: ClaudeMessageResponse)

  /** The reply to the send numbered `pos`. */
  function ReplyAt(replies: seq<Reply>, pos: nat): Reply {
    if pos < |replies| then replies[pos] else TransportErr
  }

  // ---- the texts the engine sends ----

  /**
   * The fixed wording of the conversation: the question's lead, the priming
   * assistant turn, and the three corrections, the last two split where the
   * ingredient names are put in.
   */
  datatype Wording = Wording(
    questionLead: string,
    priming: string,
    parseRetry: string,
    genericCheckLead: string,
    genericCheckMiddle: string,
    notListedLead: string,
    notListedTail: string)

  const QuestionPrefix: string := "What is the best match for the ingredient: "
  const Priming: string := "Confidence:"
  const ParseRetryMessage: string :=
    "Your response could not be parsed. Please respond in the format 'Confidence: <confidence>, Match <ingredient>' or 'NO MATCH'."

  /** The texts ProcessRecords sends. */
  const Texts: Wording := Wording(
    QuestionPrefix,
    Priming,
    ParseRetryMessage,
    "Check if there are not any more generic matches for '",
    "' that might fit better than '",
    "The ingredient '",
    "' does not appear in the reference list.  Please try again.")

  const ActionReview: string := "REVIEW"
  const ActionNoMatch: string := "NO MATCH"
  const ActionAutoFill: string := "AUTO-FILL"

  function Question(w: Wording, ingredient: string): string {
    w.questionLead + ingredient + "?"
  }

  /** Sent after a LOW candidate that is in the catalog. */
  function GenericCheckMessage(w: Wording, ingredient: string, candidate: string): string {
    w.genericCheckLead + ingredient + w.genericCheckMiddle + candidate + "'"
  }

  /** Sent after a candidate that is not in the catalog. */
  function NotListedMessage(w: Wording, candidate: string): string {
    w.notListedLead + candidate + w.notListedTail
  }

  // ---- the state of one conversation ----

  /**
   * The message stream sent so far, the current verdict, the most recent
   * LOW verdict kept as a fallback, and the record as updated in place.
   */
  datatype Conversation = Conversation(
    stream: seq<ClaudeMessage>,
    result: Option<StructuredResponse>,
    fallback: Option<StructuredResponse>,
    record: MissingDensitiesRecord)

  /** The three opening messages: the cached base prompt, the question, and the priming assistant turn. */
  function InitialConversation(w: Wording, basePrompt: string, record: MissingDensitiesRecord): (c: Conversation)
    ensures |c.stream| == 3 && c.result.None? && c.fallback.None? && c.record == record
    ensures c.stream[0].role == RoleUser && IsSingleText(c.stream[0], basePrompt) && CarriesCacheControl(c.stream[0])
    ensures c.stream[1].role == RoleUser && IsSingleText(c.stream[1], Question(w, record.ingredient)) && !CarriesCacheControl(c.stream[1])
    ensures c.stream[2].role == RoleAssistant && IsSingleText(c.stream[2], w.priming) && !CarriesCacheControl(c.stream[2])
  {
    Conversation(
      [NewClaudeUserMessage(basePrompt, true),
       NewClaudeUserMessage(Question(w, record.ingredient), false),
       NewClaudeAssistantMessage(w.priming)],
      None, None, record)
  }

  /** How one reply is judged, independently of the conversation's state. */
  datatype Verdict =
    | Transport
    | Garbled(content: seq<ContentBlock>)
    | NoMatchVerdict(sr: StructuredResponse)
    | Unlisted(content: seq<ContentBlock>, candidate: string)
    | Listed(sr: StructuredResponse, candidate: string, entry: DensityReferenceRecord)

  function Classify(refs: seq<DensityReferenceRecord>, reply: Reply): (v: Verdict)
    ensures v.NoMatchVerdict? ==> v.sr == StructuredResponse(NoMatch, None)
    ensures v.Listed? ==> v.sr.matchTo == Some(v.candidate) && v.sr.confidence != NoMatch
    ensures v.Listed? ==> IsConfidenceLabel(v.sr.confidence) && Lookup(refs, StripStars(v.candidate)) == Some(v.entry)
  {
    match reply
    case TransportErr => Transport
    case Delivered(response) =>
      match ParseResponse(Some(response))
      case Failure(_) => Garbled(response.content)
      case Success(sr) =>
        match sr.matchTo
        case None => NoMatchVerdict(sr)
        case Some(m) =>
          match Lookup(refs, StripStars(m))
          case None => Unlisted(response.content, m)
          case Some(entry) => Listed(sr, m, entry)
  }

  /** Every reply judged on its own; the judgement never depends on the conversation. */
  function Verdicts(refs: seq<DensityReferenceRecord>, replies: seq<Reply>): (vs: seq<Verdict>)
    ensures |vs| == |replies|
    ensures forall i :: 0 <= i < |replies| ==> vs[i] == Classify(refs, replies[i])
  {
    seq(|replies|, i requires 0 <= i < |replies| => Classify(refs, replies[i]))
  }

  /** The verdict on the send numbered `pos`; past the end, the send fails. */
  function VerdictAt(vs: seq<Verdict>, pos: nat): Verdict {
    if pos < |vs| then vs[pos] else Transport
  }

  /**
   * `vs` judges every reply of `replies`. The verdict on a reply is only
   * recalled where that reply is classified.
   */
  predicate Judges(refs: seq<DensityReferenceRecord>, replies: seq<Reply>, vs: seq<Verdict>) {
    |vs| == |replies|
    && forall k {:trigger Classify(refs, replies[k])} :: 0 <= k < |replies| ==> vs[k] == Classify(refs, replies[k])
  }

  lemma VerdictsJudge(refs: seq<DensityReferenceRecord>, replies: seq<Reply>)
    ensures Judges(refs, replies, Verdicts(refs, replies))
  {
  }

  lemma JudgedAt(refs: seq<DensityReferenceRecord>, replies: seq<Reply>, vs: seq<Verdict>, pos: nat)
    requires Judges(refs, replies, vs)
    ensures VerdictAt(vs, pos) == Classify(refs, ReplyAt(replies, pos))
  {
    if pos < |replies| {
      assert vs[pos] == Classify(refs, replies[pos]);
    }
  }

  /** The verdicts after which the loop sends nothing more: a failed send, NO MATCH, or a listed MEDIUM/HIGH candidate. */
  predicate Stops(v: Verdict) {
    v.Transport? || v.NoMatchVerdict? || (v.Listed? && v.sr.confidence != ConfidenceLow)
  }

  /** The state after one attempt, and whether the loop breaks. */
  datatype Step = Step(conv: Conversation, stop: bool)

  /** The record pointed at by the loop, after a listed candidate `m` with catalog entry `entry`. */
  function Adopt(record: MissingDensitiesRecord, m: string, entry: DensityReferenceRecord): MissingDensitiesRecord {
    record.(matchTo := Some(m), density := Some(entry.density))
  }

  /** One pass of the attempt loop body, given the verdict on the reply to its send. */
  function Attempt(w: Wording, c: Conversation, v: Verdict): (s: Step)
    ensures s.stop == Stops(v)
    ensures !s.stop ==> s.conv.result.None?
    ensures s.stop ==> s.conv.stream == c.stream && s.conv.fallback == c.fallback
    ensures c.stream <= s.conv.stream
    ensures s.conv.record.(matchTo := c.record.matchTo, density := c.record.density) == c.record
  {
    match v
    case Transport => Step(c, true)
    case Garbled(content) =>
      Step(c.(stream := c.stream + [ClaudeMessage(RoleAssistant, content)] + [NewClaudeUserMessage(w.parseRetry, false)],
              result := None), false)
    case NoMatchVerdict(sr) => Step(c.(result := Some(sr)), true)
    case Unlisted(content, m) =>
      Step(c.(stream := c.stream + [ClaudeMessage(RoleAssistant, content)] + [NewClaudeUserMessage(NotListedMessage(w, m), false)],
              result := None), false)
    case Listed(sr, m, entry) =>
      var record := Adopt(c.record, m, entry);
      if sr.confidence == ConfidenceLow then
        Step(c.(stream := c.stream + [NewClaudeUserMessage(GenericCheckMessage(w, c.record.ingredient, m), false)],
                record := record, fallback := Some(sr), result := None), false)
      else
        Step(c.(record := record, result := Some(sr)), true)
  }

  /** Where the attempt loop ends: its final state and the number of the next send. */
  datatype Ended = Ended(conv: Conversation, next: nat)

  /** The attempt loop from attempt number `attempts`, with the next send numbered `pos`. */
  function Converse(w: Wording, c: Conversation, vs: seq<Verdict>, pos: nat, attempts: nat): (e: Ended)
    ensures attempts < 5 ==> pos < e.next <= pos + 5 - attempts
    ensures attempts >= 5 ==> e == Ended(c, pos)
    ensures c.stream <= e.conv.stream
    decreases 5 - attempts
  {
    if attempts >= 5 then Ended(c, pos)
    else
      var s := Attempt(w, c, VerdictAt(vs, pos));
      if s.stop then Ended(s.conv, pos + 1) else Converse(w, s.conv, vs, pos + 1, attempts + 1)
  }

  // ---- finalisation ----

  /**
   * The fallback replaces a missing or NO MATCH verdict: nothing stands only
   * when there is neither; a fallback always leaves something standing; a
   * standing candidate is never displaced; and NO MATCH survives a fallback
   * only if the fallback itself says NO MATCH.
   */
  function Resolve(c: Conversation): (r: Option<StructuredResponse>)
    ensures r.None? <==> c.fallback.None? && c.result.None?
    ensures r.Some? ==> r == c.result || r == c.fallback
    ensures c.fallback.Some? ==> r.Some?
    ensures c.result.Some? && c.result.value.confidence != NoMatch ==> r == c.result
    ensures c.fallback.Some? && r.Some? && r.value.confidence == NoMatch ==> c.fallback.value.confidence == NoMatch
  {
    if c.fallback.Some? && (c.result.None? || c.result.value.confidence == NoMatch) then c.fallback else c.result
  }

  /** The action column for a confidence label; any other label keeps the prior action. */
  function ActionFor(confidence: string, prior: Option<string>): (a: Option<string>)
    ensures confidence == ConfidenceLow ==> a == Some(ActionReview)
    ensures confidence == NoMatch ==> a == Some(ActionNoMatch)
    ensures confidence == ConfidenceMedium || confidence == ConfidenceHigh ==> a == Some(ActionAutoFill)
    ensures !IsConfidenceLabel(confidence) ==> a == prior
  {
    if confidence == ConfidenceLow then Some(ActionReview)
    else if confidence == NoMatch then Some(ActionNoMatch)
    else if confidence == ConfidenceMedium || confidence == ConfidenceHigh then Some(ActionAutoFill)
    else prior
  }

  /** The copy `updated` of the record, carrying the verdict. */
  function Apply(record: MissingDensitiesRecord, sr: StructuredResponse): (u: MissingDensitiesRecord)
    ensures u.matchTo == sr.matchTo && u.confidence == sr.confidence
    ensures u.action == ActionFor(sr.confidence, record.action)
    ensures u.popularity == record.popularity && u.ingredient == record.ingredient
      && u.density == record.density && u.example == record.example
  {
    record.(matchTo := sr.matchTo, confidence := sr.confidence, action := ActionFor(sr.confidence, record.action))
  }

  /** Applying the same verdict to a record that already carries it changes nothing. */
  lemma ApplyIdempotent(record: MissingDensitiesRecord, sr: StructuredResponse)
    ensures Apply(Apply(record, sr), sr) == Apply(record, sr)
  {
  }

  /** The row written for a finished conversation, if any. */
  function Finalise(c: Conversation): (row: Option<MissingDensitiesRecord>)
    ensures row.Some? <==> Resolve(c).Some?
  {
    match Resolve(c)
    case None => None
    case Some(sr) => Some(Apply(c.record, sr))
  }

  // ---- the batch ----

  /** How many records the batch loop processes: `limit > 0` caps the count, anything else admits all. */
  function Bound(limit: int, n: nat): (b: nat)
    ensures b <= n
    ensures b == n || (0 < limit && b == limit)
    ensures limit <= 0 || limit >= n ==> b == n
    ensures 0 < limit <= n ==> b == limit
  {
    if limit > 0 && limit < n then limit else n
  }

  function RowOf(row: Option<MissingDensitiesRecord>): seq<MissingDensitiesRecord> {
    if row.Some? then [row.value] else []
  }

  /** The records after their conversations, the rows written, and the number of the next send. */
  datatype BatchState = BatchState(records: seq<MissingDensitiesRecord>, rows: seq<MissingDensitiesRecord>, next: nat)

  /** The records processed one after another, each with a fresh conversation. */
  function Batch(w: Wording, basePrompt: string, records: seq<MissingDensitiesRecord>, vs: seq<Verdict>, pos: nat): (b: BatchState)
    ensures |b.records| == |records| && |b.rows| <= |records|
    ensures pos <= b.next
    decreases |records|
  {
    if |records| == 0 then BatchState([], [], pos)
    else
      var b := Batch(w, basePrompt, records[..|records| - 1], vs, pos);
      var e := Converse(w, InitialConversation(w, basePrompt, records[|records| - 1]), vs, b.next, 0);
      BatchState(b.records + [e.conv.record], b.rows + RowOf(Finalise(e.conv)), e.next)
  }

  /** The CSV rows handed to the writer, in order. */
  function CsvRows(rows: seq<MissingDensitiesRecord>, format: Float32 -> string): (out: seq<seq<string>>)
    ensures |out| == |rows|
  {
    if |rows| == 0 then [] else CsvRows(rows[..|rows| - 1], format) + [MissingDensitiesToCsv(rows[|rows| - 1], format)]
  }

  // ---- how each way out of the attempt loop's body is judged ----

  lemma StepStops(w: Wording, c: Conversation, vs: seq<Verdict>, pos: nat, attempts: nat, c': Conversation)
    requires attempts < 5 && Attempt(w, c, VerdictAt(vs, pos)) == Step(c', true)
    ensures Converse(w, c, vs, pos, attempts) == Ended(c', pos + 1)
  {
  }

  lemma StepContinues(w: Wording, c: Conversation, vs: seq<Verdict>, pos: nat, attempts: nat, c': Conversation)
    requires attempts < 5 && Attempt(w, c, VerdictAt(vs, pos)) == Step(c', false)
    ensures Converse(w, c, vs, pos, attempts) == Converse(w, c', vs, pos + 1, attempts + 1)
  {
  }

  lemma GarbledReply(refs: seq<DensityReferenceRecord>, reply: Reply)
    requires reply.Delivered? && ParseResponse(Some(reply.response)).Failure?
    ensures Classify(refs, reply) == Garbled(reply.response.content)
  {
  }

  lemma NoMatchReply(refs: seq<DensityReferenceRecord>, reply: Reply, sr: StructuredResponse)
    requires reply.Delivered? && ParseResponse(Some(reply.response)) == Success(sr) && sr.matchTo.None?
    ensures Classify(refs, reply) == NoMatchVerdict(sr)
  {
  }

  lemma CandidateReply(refs: seq<DensityReferenceRecord>, reply: Reply, sr: StructuredResponse, m: string)
    requires reply.Delivered? && ParseResponse(Some(reply.response)) == Success(sr) && sr.matchTo == Some(m)
    ensures Lookup(refs, StripStars(m)).None? ==> Classify(refs, reply) == Unlisted(reply.response.content, m)
    ensures Lookup(refs, StripStars(m)).Some? ==> Classify(refs, reply) == Listed(sr, m, Lookup(refs, StripStars(m)).value)
  {
  }

  lemma ListedLowStep(w: Wording, c: Conversation, sr: StructuredResponse, m: string, entry: DensityReferenceRecord, record: MissingDensitiesRecord,
                      stream: seq<ClaudeMessage>)
    requires sr.confidence == ConfidenceLow && record == Adopt(c.record, m, entry)
    requires stream == c.stream + [NewClaudeUserMessage(GenericCheckMessage(w, c.record.ingredient, m), false)]
    ensures Attempt(w, c, Listed(sr, m, entry)) == Step(Conversation(stream, None, Some(sr), record), false)
  {
  }

  lemma ListedFinalStep(w: Wording, c: Conversation, sr: StructuredResponse, m: string, entry: DensityReferenceRecord, record: MissingDensitiesRecord)
    requires sr.confidence != ConfidenceLow && record == Adopt(c.record, m, entry)
    ensures Attempt(w, c, Listed(sr, m, entry)) == Step(Conversation(c.stream, Some(sr), c.fallback, record), true)
  {
  }

  lemma GarbledStep(w: Wording, c: Conversation, content: seq<ContentBlock>, stream: seq<ClaudeMessage>)
    requires stream == c.stream + [ClaudeMessage(RoleAssistant, content)] + [NewClaudeUserMessage(w.parseRetry, false)]
    ensures Attempt(w, c, Garbled(content)) == Step(Conversation(stream, None, c.fallback, c.record), false)
  {
  }

  lemma UnlistedStep(w: Wording, c: Conversation, content: seq<ContentBlock>, m: string, stream: seq<ClaudeMessage>)
    requires stream == c.stream + [ClaudeMessage(RoleAssistant, content)] + [NewClaudeUserMessage(NotListedMessage(w, m), false)]
    ensures Attempt(w, c, Unlisted(content, m)) == Step(Conversation(stream, None, c.fallback, c.record), false)
  {
  }

  /** The batch grows by one record at a time. */
  lemma BatchStep(w: Wording, basePrompt: string, records: seq<MissingDensitiesRecord>, i: nat, vs: seq<Verdict>, pos: nat)
    requires i < |records|
    ensures var b := Batch(w, basePrompt, records[..i], vs, pos);
      var e := Converse(w, InitialConversation(w, basePrompt, records[i]), vs, b.next, 0);
      Batch(w, basePrompt, records[..i + 1], vs, pos) == BatchState(b.records + [e.conv.record], b.rows + RowOf(Finalise(e.conv)), e.next)
  {
    assert records[..i + 1][..i] == records[..i];
  }

  /** The array after one record's conversation: only entry `i` differs. */
  lemma SpliceRecord(done: seq<MissingDensitiesRecord>, input: seq<MissingDensitiesRecord>, i: nat, r: MissingDensitiesRecord)
    requires |done| == i < |input|
    ensures (done + input[i..])[i := r] == done + [r] + input[i + 1..]
  {
    assert input[i..] == [input[i]] + input[i + 1..];
  }

  lemma CsvRowsSnoc(rows: seq<MissingDensitiesRecord>, row: Option<MissingDensitiesRecord>, format: Float32 -> string)
    ensures CsvRows(rows + RowOf(row), format)
      == CsvRows(rows, format) + (if row.Some? then [MissingDensitiesToCsv(row.value, format)] else [])
  {
    if row.Some? {
      assert (rows + [row.value])[..|rows|] == rows;
    } else {
      assert rows + [] == rows;
    }
  }

  /** One pass of the batch loop advances the batch by one record. */
  lemma Advance(w: Wording, basePrompt: string, input: seq<MissingDensitiesRecord>, i: nat, vs: seq<Verdict>,
                b: BatchState, e: Ended)
    requires i < |input|
    requires b == Batch(w, basePrompt, input[..i], vs, 0)
    requires e == Converse(w, InitialConversation(w, basePrompt, input[i]), vs, b.next, 0)
    ensures Batch(w, basePrompt, input[..i + 1], vs, 0) == BatchState(b.records + [e.conv.record], b.rows + RowOf(Finalise(e.conv)), e.next)
    ensures (b.records + input[i..])[i := e.conv.record] == b.records + [e.conv.record] + input[i + 1..]
  {
    SpliceRecord(b.records, input, i, e.conv.record);
    BatchStep(w, basePrompt, input, i, vs, 0);
  }

  // ---- the imperative loops ----

  /**
   * The body of the attempt loop from its send on: returns with `stop` where
   * the loop breaks, without it where the loop goes on. `record` is the
   * record the loop points at.
   */
  method Exchange(w: Wording, refs: seq<DensityReferenceRecord>, replies: seq<Reply>, ghost vs: seq<Verdict>, pos: nat,
                  stream0: seq<ClaudeMessage>, result0: Option<StructuredResponse>, fallback0: Option<StructuredResponse>,
                  record0: MissingDensitiesRecord)
    returns (stream: seq<ClaudeMessage>, result: Option<StructuredResponse>, fallback: Option<StructuredResponse>,
             record: MissingDensitiesRecord, stop: bool)
    requires Judges(refs, replies, vs)
    ensures Step(Conversation(stream, result, fallback, record), stop)
      == Attempt(w, Conversation(stream0, result0, fallback0, record0), VerdictAt(vs, pos))
  {
    JudgedAt(refs, replies, vs, pos);
    var reply := ReplyAt(replies, pos);
    stream, result, fallback, record := stream0, result0, fallback0, record0;
    if reply.TransportErr? {
      return stream, result, fallback, record, true;
    }
    var parsed := ParseResponse(Some(reply.response));
    if parsed.Failure? {
      GarbledReply(refs, reply);
      result := None;
      stream := stream + [ClaudeMessage(RoleAssistant, reply.response.content)];
      stream := stream + [NewClaudeUserMessage(w.parseRetry, false)];
      GarbledStep(w, Conversation(stream0, result0, fallback0, record0), reply.response.content, stream);
      return stream, result, fallback, record, false;
    }
    result := Some(parsed.value);
    if parsed.value.matchTo.Some? {
      var m := parsed.value.matchTo.value;
      var found := FindReferenceIngredient(refs, m);
      CandidateReply(refs, reply, parsed.value, m);
      if found.Some? {
        record := record.(matchTo := Some(m), density := Some(found.value.density));
        if parsed.value.confidence == ConfidenceLow {
          stream := stream + [NewClaudeUserMessage(GenericCheckMessage(w, record.ingredient, m), false)];
          fallback := result;
          result := None;
          stop := false;
          ListedLowStep(w, Conversation(stream0, result0, fallback0, record0), parsed.value, m, found.value, record, stream);
        } else {
          stop := true;
          ListedFinalStep(w, Conversation(stream0, result0, fallback0, record0), parsed.value, m, found.value, record);
        }
      } else {
        stream := stream + [ClaudeMessage(RoleAssistant, reply.response.content)];
        stream := stream + [NewClaudeUserMessage(NotListedMessage(w, m), false)];
        result := None;
        stop := false;
        UnlistedStep(w, Conversation(stream0, result0, fallback0, record0), reply.response.content, m, stream);
      }
    } else {
      NoMatchReply(refs, reply, parsed.value);
      stop := true;
    }
  }

  /**
   * One record's attempt loop. Returns the stream, verdict, fallback and
   * record it ends with, and the next send's number.
   */
  method Talk(w: Wording, refs: seq<DensityReferenceRecord>, basePrompt: string, record0: MissingDensitiesRecord,
              replies: seq<Reply>, ghost vs: seq<Verdict>, pos0: nat)
    returns (stream: seq<ClaudeMessage>, result: Option<StructuredResponse>, fallback: Option<StructuredResponse>,
             record: MissingDensitiesRecord, pos: nat)
    requires Judges(refs, replies, vs)
    ensures var e := Converse(w, InitialConversation(w, basePrompt, record0), vs, pos0, 0);
      Conversation(stream, result, fallback, record) == e.conv && pos == e.next
  {
    ghost var target := Converse(w, InitialConversation(w, basePrompt, record0), vs, pos0, 0);
    pos := pos0;
    record := record0;
    var prompt := w.questionLead + record.ingredient + "?";
    stream := [NewClaudeUserMessage(basePrompt, true), NewClaudeUserMessage(prompt, false), NewClaudeAssistantMessage(w.priming)];
    result := None;
    fallback := None;

    var attempts := 0;
    while attempts < 5
      invariant attempts <= 5
      invariant Converse(w, Conversation(stream, result, fallback, record), vs, pos, attempts) == target
    {
      ghost var before := Conversation(stream, result, fallback, record);
      var stop;
      stream, result, fallback, record, stop := Exchange(w, refs, replies, vs, pos, stream, result, fallback, record);
      if stop {
        StepStops(w, before, vs, pos, attempts, Conversation(stream, result, fallback, record));
        pos := pos + 1;
        break;
      }
      StepContinues(w, before, vs, pos, attempts, Conversation(stream, result, fallback, record));
      pos := pos + 1;
      attempts := attempts + 1;
    }
  }

  /** The end of one record's conversation: the fallback rule, then the copy `updated` with its action. */
  method Finish(record: MissingDensitiesRecord, result0: Option<StructuredResponse>, fallback: Option<StructuredResponse>)
    returns (row: Option<MissingDensitiesRecord>)
    ensures row == Finalise(Conversation([], result0, fallback, record))
  {
    var result := result0;
    if fallback.Some? && (result.None? || result.value.confidence == NoMatch) {
      result := fallback;
    }
    if result.None? {
      return None;
    }
    var updated := record;
    updated := updated.(matchTo := result.value.matchTo);
    updated := updated.(confidence := result.value.confidence);
    if updated.confidence == ConfidenceLow {
      updated := updated.(action := Some(ActionReview));
    } else if updated.confidence == NoMatch {
      updated := updated.(action := Some(ActionNoMatch));
    } else if updated.confidence == ConfidenceMedium || updated.confidence == ConfidenceHigh {
      updated := updated.(action := Some(ActionAutoFill));
    }
    return Some(updated);
  }

  /** Finalisation never looks at the stream. */
  lemma FinaliseIgnoresStream(c: Conversation)
    ensures Finalise(c) == Finalise(c.(stream := []))
  {
  }

  /** One pass of the batch loop: the conversation about `missing[i]`, then its finalisation. */
  method ProcessRecord(w: Wording, refs: seq<DensityReferenceRecord>, basePrompt: string, missing: array<MissingDensitiesRecord>, i: nat,
                       replies: seq<Reply>, ghost vs: seq<Verdict>, pos0: nat)
    returns (row: Option<MissingDensitiesRecord>, pos: nat)
    requires i < missing.Length && Judges(refs, replies, vs)
    modifies missing
    ensures var e := Converse(w, InitialConversation(w, basePrompt, old(missing[i])), vs, pos0, 0);
      missing[..] == old(missing[..])[i := e.conv.record] && row == Finalise(e.conv) && pos == e.next
  {
    var stream, result, fallback, record;
    stream, result, fallback, record, pos := Talk(w, refs, basePrompt, missing[i], replies, vs, pos0);
    missing[i] := record;
    row := Finish(record, result, fallback);
    FinaliseIgnoresStream(Conversation(stream, result, fallback, record));
  }

  /** One pass of the batch loop, with the batch so far described by `Batch` over the first `i` input records. */
  method Pass(w: Wording, refs: seq<DensityReferenceRecord>, basePrompt: string, missing: array<MissingDensitiesRecord>, i: nat,
              replies: seq<Reply>, ghost vs: seq<Verdict>, ghost input: seq<MissingDensitiesRecord>, pos0: nat,
              hasWriter: bool, format: Float32 -> string, rows0: seq<seq<string>>)
    returns (pos: nat, rows: seq<seq<string>>)
    requires i < missing.Length == |input| && Judges(refs, replies, vs)
    requires var b := Batch(w, basePrompt, input[..i], vs, 0);
      missing[..] == b.records + input[i..] && pos0 == b.next
      && rows0 == (if hasWriter then CsvRows(b.rows, format) else [])
    modifies missing
    ensures var b := Batch(w, basePrompt, input[..i + 1], vs, 0);
      missing[..] == b.records + input[i + 1..] && pos == b.next
      && rows == (if hasWriter then CsvRows(b.rows, format) else [])
  {
    ghost var b := Batch(w, basePrompt, input[..i], vs, 0);
    assert missing[i] == input[i];
    ghost var e := Converse(w, InitialConversation(w, basePrompt, input[i]), vs, pos0, 0);
    var row;
    row, pos := ProcessRecord(w, refs, basePrompt, missing, i, replies, vs, pos0);
    Advance(w, basePrompt, input, i, vs, b, e);
    CsvRowsSnoc(b.rows, row, format);
    rows := rows0;
    if row.Some? && hasWriter {
      rows := rows + [MissingDensitiesToCsv(row.value, format)];
    }
  }

  /**
   * The batch loop of ProcessRecords with the base prompt built: for each
   * admitted record, a conversation of up to five sends; with a writer, one
   * CSV row per record that ends with a verdict.
   */
  method RunBatch(w: Wording, refs: seq<DensityReferenceRecord>, basePrompt: string, missing: array<MissingDensitiesRecord>,
                  limit: int, hasWriter: bool, replies: seq<Reply>, ghost vs: seq<Verdict>, format: Float32 -> string)
    returns (rows: seq<seq<string>>)
    requires Judges(refs, replies, vs)
    modifies missing
    ensures var n := Bound(limit, missing.Length);
      var b := Batch(w, basePrompt, old(missing[..])[..n], vs, 0);
      missing[..] == b.records + old(missing[..])[n..]
      && rows == (if hasWriter then CsvRows(b.rows, format) else [])
  {
    ghost var input := missing[..];
    var pos := 0;
    rows := [];
    var i := 0;
    while i < missing.Length
      invariant i <= missing.Length
      invariant limit > 0 ==> i <= limit
      invariant var b := Batch(w, basePrompt, input[..i], vs, 0);
        missing[..] == b.records + input[i..] && pos == b.next
        && rows == (if hasWriter then CsvRows(b.rows, format) else [])
    {
      if limit > 0 && i >= limit {
        break;
      }
      pos, rows := Pass(w, refs, basePrompt, missing, i, replies, vs, input, pos, hasWriter, format, rows);
      i := i + 1;
    }
  }

  /** ProcessRecords: the base prompt, then the batch loop with the fixed texts. */
  method ProcessRecords(instructions: string, refs: seq<DensityReferenceRecord>, missing: array<MissingDensitiesRecord>,
                        limit: int, hasWriter: bool, replies: seq<Reply>, format: Float32 -> string)
    returns (rows: seq<seq<string>>)
    modifies missing
    ensures var n := Bound(limit, missing.Length);
      var b := Batch(Texts, BasePrompt(instructions, refs), old(missing[..])[..n], Verdicts(refs, replies), 0);
      missing[..] == b.records + old(missing[..])[n..]
      && rows == (if hasWriter then CsvRows(b.rows, format) else [])
  {
    var basePrompt := MakeBasePrompt(instructions, refs);
    VerdictsJudge(refs, replies);
    rows := RunBatch(Texts, refs, basePrompt, missing, limit, hasWriter, replies, Verdicts(refs, replies), format);
  }
}
