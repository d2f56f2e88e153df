# Ingredient density matcher: a Dafny model of its matching core

The program takes two things: a catalog of reference ingredients with known densities, and a list of recipe ingredients whose densities are missing. For each missing ingredient it holds a short conversation with a completion service, asking which catalog entry matches best. It then writes one CSV row per resolved ingredient, recording the matched name, its density, the confidence the service reported and an action: AUTO-FILL, REVIEW or NO MATCH.

This project models the core of that program:

- the base prompt builder;
- the reply parser, including the regular expression it uses;
- the catalog lookup;
- the conversation loop with its LOW-confidence fallback and its action table;
- the batch loop with its record limit;
- the CSV row codecs of both record types;
- the two message constructors.

The model proves what each of these promises.

The project has nine modules:

- `Wrappers`: `Option` and `Result`.
- `Text`: the RE2 character classes `\s`, `\d` and `[\d.]`, and scanning over them.
- `Strconv`: Go's `Itoa` and `Atoi` on a 64-bit `int`.
- `Claude`: the message shapes and constructors of `claude.go`.
- `Models`: the record types and row codecs of `models.go`.
- `ReplyPattern`: a hand-written recogniser for the reply pattern at `processor.go:55`, with Go's leftmost-first semantics. It is proved sound and complete against a declarative reading of the pattern.
- `Processor`: `makeBasePrompt`, `ParseResponse` and `FindReferenceIngredient`.
- `Engine`: the attempt loop and the batch. There are two forms:
  - a specification, with `Attempt`, `Converse`, `Finalise` and `Batch` as functions;
  - the imperative methods (`Talk`, `Finish`, `RunBatch`, `ProcessRecords`), which update an `array` of records in place and are proved equal to that specification.
- `EngineProperties`: lemmas about the specification.

The completion service is modelled as a sequence of replies, one consumed per send and numbered across the whole batch. Each reply is either a delivered response or a transport error. A send past the end of the sequence fails like a transport error.

The model makes these choices:

- Each reply is first judged on its own into a `Verdict` by `Classify`, which runs the parser and then the lookup. The loop is then specified over the sequence of verdicts.
- The texts the loop sends are a `Wording` record. `Texts` holds the program's actual wording.
- The floating-point conversions `strconv.ParseFloat` and `%f` are passed in as functions. Only the two round-trip lemmas assume anything about them: that the rendered density reads back successfully, and, for unresolved rows, that it is not empty.
- The instruction text of the base prompt is a parameter.

Some behaviours of the code are easy to misread, and the model keeps them as written:

- **The pattern is tried before "NO MATCH".** `ParseResponse` tries the pattern first and checks for a text that equals or ends with "NO MATCH" only when the pattern does not match. A reply such as "HIGH, Match: milk ... NO MATCH" is therefore a HIGH candidate.
- **Matching is case-sensitive.** Nothing in the pattern tolerates other letter cases.
- **Stars are stripped from the query only.** The captured name keeps any trailing `*`: the greedy `(.+)` runs to the end of the line. The stars are removed only for the catalog lookup, so the row's match_to holds the name as captured.
- **The NO MATCH action label is spelled "NO MATCH"**, with a space, the same as the confidence label.
- **The record is updated in place at every listed candidate.** Its match_to and density change at each one, including LOW candidates that a later candidate supersedes; the other columns are set on a copy at the end.
- **A NO MATCH row is written**, and it keeps the input's density.

## Model

| member | source | states |
|---|---|---|
| Claude.NewClaudeUserMessage | claude.go:38-52 | role "user"; exactly one "text" block holding the argument; a cache hint present exactly when `cachepoint` holds, and then of type "ephemeral" |
| Claude.NewClaudeAssistantMessage | claude.go:54-63 | role "assistant"; exactly one "text" block holding the argument; never a cache hint |
| Strconv.Itoa | models.go:107 | a non-empty decimal rendering that starts with '-' exactly for negative numbers |
| Strconv.Atoi | models.go:123-126 | accepts only an optional sign followed by digits; the result lies in the 64-bit int range |
| Strconv.AtoiItoa | models.go:107 | Atoi reads back every 64-bit int that Itoa renders |
| Strconv.DecimalRoundTrip | models.go:107 | the digits Itoa produces denote the number rendered |
| Models.DensityReferenceToCsv | models.go:17-25 | five columns in the order id, ingredient, normalised, density, source; the id column reads back through Atoi as the id |
| Models.MissingDensitiesToCsv | models.go:93-115 | seven columns in the order popularity, ingredient, action, match_to, density, example, confidence; an absent value is rendered as "" and a present one as its value |
| Models.SingleTokenSound | models.go:29 | whatever the anchored single-value pattern extracts comes from a text that is blanks, one `[\d.]+` token, blanks |
| Models.SingleTokenComplete | models.go:29 | every text of that shape yields its token |
| Models.LexRangeSound | models.go:28 | a text read as a range `a-b` is exactly blanks, a token, blanks, '-', blanks, a token, blanks |
| Models.LexRangeComplete | models.go:28 | every text of that range shape is read as that range, with those two tokens |
| Models.LexSingleSound | models.go:29-31 | a text read as a single value has the single-value shape around that token |
| Models.LexSingleComplete | models.go:29-38 | every single-value text is read as a single value, not as a range |
| Models.DensityRangeTakesUpper | models.go:31-37 | on a range only the upper bound is converted; a failed conversion is an error carrying that token |
| Models.DensitySingleValue | models.go:38-47 | a single value yields its conversion; a failed conversion is an error carrying the token |
| Models.DensityUnrecognised | models.go:48-50 | text of neither shape is an error, whatever the conversion would do |
| Models.DensityRangeExample | models.go:28-37 | "1.0-2.0" yields the conversion of "2.0" |
| Models.DensitySingleExample | models.go:38-47 | "1.5" yields the conversion of "1.5" |
| Models.DensityRejectExample | models.go:48-50 | "abc" is rejected |
| Models.ParseDensityReferenceRecord | models.go:53-80 | success exactly when there are at least five fields, the id is empty or an integer, and the density parses; fewer than five fields is a field-count error; an empty id gives -1; the text columns are copied |
| Models.ParseMissingDensitiesRecord | models.go:118-163 | success exactly when there are at least six fields, the popularity is an integer, and the density is empty or converts; empty action, match_to and density are absent; confidence is the seventh field when there is one, else "" |
| Models.ReferenceExtraFieldsIgnored | models.go:54-56 | fields after the fifth never change how a catalog row is read |
| Models.MissingExtraFieldsIgnored | models.go:149-152 | fields after the seventh never change how an unresolved row is read |
| Models.DensityReferenceRoundTrip | models.go:17-80 | writing a catalog record and reading it back gives the same record, except that the density is the conversion of its rendered text |
| Models.MissingDensitiesRoundTrip | models.go:93-163 | writing an unresolved record and reading it back recovers every column but the density's value, and whether a density was present, provided that no optional field holds "" and that a present density renders as non-empty text that converts back |
| ReplyPattern.RunEnd | processor.go:55 | a greedy repetition stops at the first character outside its class |
| ReplyPattern.LineEnd | processor.go:55 | `(.+)` runs to the first newline or to the end of the text |
| ReplyPattern.RunSound | processor.go:55 | every start position the backtracking search of `\s*:*\s*\**` reports for `(.+)` is accepted by the declarative reading |
| ReplyPattern.RunComplete | processor.go:55 | when some path accepts, the search finds one |
| ReplyPattern.RunMaximal | processor.go:55 | leftmost-first priority makes `(.+)` start at the latest position any path allows |
| ReplyPattern.KeywordsExclusive | processor.go:55 | at most one of HIGH, MEDIUM and LOW occurs at any position |
| ReplyPattern.KeywordAtComplete | processor.go:55 | any alternative occurring at a position is the one reported there |
| ReplyPattern.AfterMatchWordSound | processor.go:55 | `\s*,\s*Match` is recognised only where blanks, a comma, blanks and "Match" follow |
| ReplyPattern.AfterMatchWordComplete | processor.go:55 | every such separator is recognised, ending right after "Match" |
| ReplyPattern.BodyAfterSound | processor.go:55 | the rest of the pattern after a keyword is recognised only where it matches |
| ReplyPattern.BodyAfterMaximal | processor.go:55 | wherever the rest of the pattern matches, it is recognised, with `(.+)` starting no earlier |
| ReplyPattern.MatchAtSound | processor.go:55 | a match reported at a position is the keyword there followed by the rest of the pattern |
| ReplyPattern.MatchAtComplete | processor.go:55 | every match with its keyword at a position is reported there, with the latest start for `(.+)` |
| ReplyPattern.FindFromSound | processor.go:55 | the search from a position reports the match at the position it names |
| ReplyPattern.FindFromFirst | processor.go:55 | no position before the reported one has a match |
| ReplyPattern.FindFromComplete | processor.go:55 | the search reports a match at or before any position that has one |
| ReplyPattern.FindStringSubmatchSound | processor.go:63 | the submatch is the leftmost match's keyword and the rest of its line from the latest start the pattern allows; no match starts earlier |
| ReplyPattern.FirstSiteLeast | processor.go:63 | the reported match is the leftmost one |
| ReplyPattern.FindStringSubmatchNone | processor.go:63-64 | no submatch exactly when the pattern matches nowhere |
| ReplyPattern.LeadingRunBeforeSite | processor.go:55 | the leading `\s*:*\s*` never reaches back past an earlier match, so the leftmost match is the one with the leftmost keyword |
| ReplyPattern.SkipNoKeyword | processor.go:55 | positions without a keyword are passed over |
| ReplyPattern.NoKeywordNoMatch | processor.go:55 | a text with none of HIGH, MEDIUM and LOW never matches |
| ReplyPattern.KeywordStart | processor.go:55 | only an 'H', 'M' or 'L' can start a keyword |
| ReplyPattern.PlainReplyExample | processor.go:55 | "HIGH, Match: flour" gives HIGH and "flour" |
| ReplyPattern.StarredReplyExample | processor.go:55 | "LOW, Match **flour**" gives LOW and "flour**": the trailing stars stay in the capture |
| ReplyPattern.ConfidenceReplyExample | processor.go:55 | "Confidence: HIGH, Match: flour" gives HIGH and "flour" |
| ReplyPattern.NoKeywordExamples | processor.go:55 | neither "NO MATCH" nor "xyz" contains a keyword |
| Processor.Names | processor.go:42-44 | the catalog's normalised names, in catalog order |
| Processor.ListingSnoc | processor.go:42-44 | each further catalog entry appends exactly its own line "- name\n" |
| Processor.ListingRoundTrip | processor.go:41-44 | the listing, read back line by line, is the catalog's names in order, with one line per entry |
| Processor.BasePromptShape | processor.go:15-47 | the prompt is the instructions, then "\n\nHere is the reference list:\n", then a listing that reads back as the catalog's names |
| Processor.MakeBasePrompt | processor.go:15-47 | the loop builds exactly that prompt |
| Processor.StripStarsContents | processor.go:81-82 | stripping removes every '*' and keeps every other character as often as it occurs |
| Processor.StripStarsConcat | processor.go:81-82 | stripping works piece by piece, so the characters kept stay in order |
| Processor.StripStarsNoStars | processor.go:81-82 | a name without stars is searched for unchanged |
| Processor.StripStarsIdempotent | processor.go:81-82 | stripping twice is stripping once |
| Processor.OnlyStars | processor.go:81-82 | a run of stars strips to nothing |
| Processor.Lookup | processor.go:84-89 | a found entry is in the catalog and has exactly that name; nothing is found exactly when no entry has it |
| Processor.LookupFirst | processor.go:84-89 | the entry found is the first one with that name |
| Processor.FindReferenceIngredient | processor.go:80-90 | the loop returns the lookup of the star-stripped query |
| Processor.StarredQueryFinds | processor.go:80-90 | a query made of an entry's name padded with stars finds that entry, when no earlier entry has the same name |
| Processor.ParseResponse | processor.go:54-78 | an empty-content error exactly when there is no first text block; a parsed label is HIGH, MEDIUM, LOW or NO MATCH; on success the match is absent exactly when the label is NO MATCH; an unparsable error carries the text |
| Processor.ParseResponseMatched | processor.go:63-77 | a claimed match comes from the leftmost match of the pattern: its keyword is the confidence, and the rest of that line is the name |
| Processor.ParseResponseClaims | processor.go:63-75 | a claimed match is reported exactly when the pattern matches |
| Processor.ParseResponseNoMatch | processor.go:64-68 | the verdict is NO MATCH exactly when the pattern matches nowhere and the text ends in "NO MATCH" |
| Processor.ParseResponseUnparsable | processor.go:64-70 | an unparsable error occurs exactly when the pattern matches nowhere and the text does not end in "NO MATCH" |
| Processor.ParseNoMatchExample | processor.go:65-68 | "NO MATCH" gives the NO MATCH verdict |
| Processor.ParseGarbageExample | processor.go:70 | "xyz" is unparsable |
| Processor.ParseNoContentExample | processor.go:58-60 | a missing response, or one without content, is an empty-content error |
| Processor.ParseConfidenceExample | processor.go:63-77 | "Confidence: HIGH, Match: flour" gives HIGH and "flour" |
| Engine.InitialConversation | processor.go:100-109 | three opening messages in this order: the base prompt as a user turn with a cache hint, the question as an uncached user turn, the uncached assistant turn "Confidence:"; no verdict and no fallback |
| Engine.Classify | processor.go:119-165 | NO MATCH carries no match; a listed candidate is a parsed label other than NO MATCH whose star-stripped name the lookup finds |
| Engine.JudgedAt | processor.go:119 | the verdict on send number `pos` is the judgement of its reply; a send past the replies is a transport error |
| Engine.Attempt | processor.go:119-165 | the loop breaks exactly on a transport error, NO MATCH, or a listed MEDIUM or HIGH candidate; on a break the stream and the fallback are unchanged; while it goes on there is no verdict; the stream only grows; only the record's match and density change |
| Engine.Converse | processor.go:111-166 | between one and five sends, numbered from `pos`; the stream only grows |
| Engine.Resolve | processor.go:168-171 | nothing stands exactly when there is neither a verdict nor a fallback; a fallback always leaves something standing; a MEDIUM, HIGH or LOW verdict is never displaced; what stands is the verdict or the fallback; NO MATCH survives a fallback only when the fallback says NO MATCH |
| Engine.Apply | processor.go:174-187 | the copy `updated` takes the verdict's match and confidence and the mapped action, and keeps every other column |
| Engine.ApplyIdempotent | processor.go:174-187 | applying the same verdict again to a record that already carries it changes nothing |
| Engine.Finalise | processor.go:173-196 | a row is produced exactly when a verdict stands after the fallback rule |
| Engine.Bound | processor.go:95-98 | the records processed are all of them or exactly `limit` of them; a limit of zero or less, or one at least the number of records, admits all; a positive limit no larger than that number admits exactly that many |
| Engine.Exchange | processor.go:119-165 | one pass of the attempt-loop body computes the attempt the specification describes |
| Engine.Talk | processor.go:100-166 | the attempt loop ends in the state and at the send number the specification gives |
| Engine.Finish | processor.go:168-187 | the fallback rule and the action switch produce the specified row |
| Engine.FinaliseIgnoresStream | processor.go:168-187 | finalisation never looks at the message stream |
| Engine.ProcessRecord | processor.go:100-196 | only entry `i` of the array changes, to the record as updated in place; the row is the specified finalisation |
| Engine.Pass | processor.go:95-196 | one pass of the batch loop extends the batch by the next record |
| Engine.RunBatch | processor.go:95-197 | the array holds the processed records followed by the untouched rest; with a writer, the rows written are the batch's rows as CSV, in order; without one, nothing is written |
| Engine.ProcessRecords | processor.go:92-198 | the base prompt, then the batch over the records the limit admits, using the program's own texts |
| Engine.CsvRowsSnoc | processor.go:189-192 | each finalised row appends its one CSV line; no row appends nothing |
| EngineProperties.JudgesSound | processor.go:125-165 | every judged reply is sound: NO MATCH carries no match, and a listed candidate names a catalog entry |
| EngineProperties.ConverseSends | processor.go:111-165 | every send but the last is answered by a verdict after which the loop goes on; the last one breaks the loop unless the five attempts are used up; a breaking verdict ends the loop at once |
| EngineProperties.ConversationSends | processor.go:111-123 | a record's conversation makes between one and five sends, and stops early only on a breaking verdict |
| EngineProperties.AttemptMessages | processor.go:125-161 | an unparsable reply or an unlisted candidate appends exactly the assistant reply and one uncached correction; a listed LOW candidate appends exactly one uncached user request and no assistant turn; a breaking verdict appends nothing |
| EngineProperties.AttemptCache | processor.go:128-159 | an attempt keeps the cache hint on the first message only |
| EngineProperties.ConverseCache | processor.go:103-161 | so does the whole attempt loop |
| EngineProperties.ConversationCache | processor.go:102-161 | when no delivered reply carries a cache hint of its own, only the base prompt is ever sent with one |
| EngineProperties.ResultOf | processor.go:136-165 | a standing verdict is left only by a breaking verdict |
| EngineProperties.ConverseResult | processor.go:108-166 | the loop ends with the verdict left by the reply to its last send, which is none after a failed send or five sends without a breaking verdict |
| EngineProperties.LowAfterLatest | processor.go:143-149 | the most recent listed LOW candidate is the fallback; with none, the fallback is unchanged |
| EngineProperties.ConverseFallback | processor.go:109-166 | the loop ends with the fallback its sends left |
| EngineProperties.ConverseRecord | processor.go:137-140 | the record is updated in place at every listed candidate, whatever its confidence |
| EngineProperties.AdoptAfterFrame | processor.go:139-140 | the in-place updates change only the match and the density; without a listed candidate they change nothing |
| EngineProperties.InitialGrounded | processor.go:100-109 | the opening state satisfies the loop invariant: no verdict, no fallback, and the record as input |
| EngineProperties.AttemptGrounded | processor.go:125-165 | an attempt keeps the loop invariant: the fallback is a LOW candidate; a standing verdict is NO MATCH, or a MEDIUM or HIGH candidate; the verdict finalisation would pick is backed by the record's match and density |
| EngineProperties.ConverseGrounded | processor.go:111-166 | the whole attempt loop keeps that invariant |
| EngineProperties.FinaliseProper | processor.go:168-196 | a row written from that invariant is proper |
| EngineProperties.ConversationRow | processor.go:100-196 | whatever the replies, any row a record's conversation writes has a confidence label. A NO MATCH row has no match, the NO MATCH action and the input's density. Any other row names an entry the lookup finds, with that entry's density and the action REVIEW for LOW or AUTO-FILL for MEDIUM and HIGH. Popularity, ingredient and example are the input's |
| EngineProperties.ConversationFrame | processor.go:111-166 | a record's conversation changes only its match and its density |
| EngineProperties.BatchFrame | processor.go:95-197 | over the batch, each record keeps every column but its match and its density |
| EngineProperties.BatchRowsListed | processor.go:95-197 | every row the batch writes is a proper row for its record |
| EngineProperties.CsvRowsAt | processor.go:189-192 | the CSV lines are the rows, each rendered by the unresolved-record codec, in order |
| EngineProperties.GarbledTwiceThenHigh | processor.go:111-187 | two unparsable replies, then a listed HIGH candidate: three sends, seven messages, and an AUTO-FILL row for that entry |
| EngineProperties.LowThenNoMatch | processor.go:143-184 | a listed LOW candidate, then NO MATCH: the LOW candidate is written, for REVIEW |
| EngineProperties.LowThenTransport | processor.go:119-180 | a listed LOW candidate, then a failed send: the LOW candidate is written, for REVIEW |
| EngineProperties.NeverResolved | processor.go:111-173 | five unparsable or unlisted replies: five sends, and no row |

## Left out

- **data.go and main.go** are not part of this model. They hold the file and CSV reader/writer plumbing, the command-line flags and the service client set-up. The loaders skip rows that do not parse, but that is I/O around the codecs modelled here.
- **SendClaudeRequest** and the request, response and usage structures are not modelled. They are a network call and JSON encoding. They are replaced by the sequence of replies: a send past its end is a transport error, and the request parameters (model version, token limit, temperature) are not represented.
- **Floating point**: `strconv.ParseFloat`, the `float32` density values and the `%f` rendering are opaque. The conversions are function parameters, so the density round trip states only what reading back does with whatever the rendering produced.
- **The instruction text** of `makeBasePrompt` is a parameter. Its wording is not modelled.
- **Printing and logging** (`fmt.Printf`, `log.Printf`), `context.Background()` and cancellation have no effect on the model.
- **The CSV writer** is modelled as a flag saying whether one is present, plus the sequence of rows written in order. `Flush` is not modelled.
- **Aliasing**: the records are values in an array, so two entries of `missing` that refer to the same record are not represented.
- **When the record is written**: `Engine.Talk` gives the record back as a value, and `ProcessRecord` writes it into the array once, after the attempt loop. The source writes it at each listed candidate. Nothing reads the array in between, so the final array is the same.
- **Unreachable length checks**: the `len(matches) != 3` and `len(matches) != 2` checks in `ParseDensityValue` never fail once the pattern has matched, so the model has no branch for them.
- **Strings** are sequences of Unicode characters, while Go strings are bytes and `.`, `HasSuffix` and `+` act on their UTF-8 encoding. Nothing changes for valid UTF-8, but invalid byte sequences are not represented; Go's `.` reads each invalid byte as U+FFFD.
- Models.MissingDensitiesRoundTrip: the density's value is excluded, because whether it survives depends on the float rendering, which is opaque here.
- EngineProperties.ConversationCache: it requires that no delivered reply carries a cache hint, because the source sends replies back as received and so cannot promise more.
