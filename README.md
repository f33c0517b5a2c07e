# Support-inbox urgency scoring and message ingestion, in Dafny

This project models the logic core of a support inbox for a lending
product. The core has three parts:

- **The live urgency scorer** (`calculateUrgency` in
  `server/src/services/urgency.ts`). It maps a message text and the hours
  since the previous message to a score and an ordered list of
  `{rule, description}` reasons. There are five additive rules: financial
  keywords +20, explicit urgency +25, critical words +40, "??" or shouting
  +15, and a two-band gap rule (+10 for a gap in (6, 24] hours, +30 for a
  gap over 24). The total is capped at 100.
- **The ingestion scorer** (`calculateUrgency` in `server/scripts/ingest.ts`,
  with the same logic in `ingest.js`). It is a narrower, separate rule set:
  keywords +30, critical words +40, a gap over 24 hours +20.
- **The ingestion driver** (the loop in `ingest()` of both scripts). It
  reads records sorted by user and time. For each record it:
  - upserts the customer;
  - decides whether the record starts a new conversation or continues the
    user's active one (strictly more than 24 hours since the active one's
    `lastMessageAt` starts a new one);
  - scores the text;
  - creates an OPEN conversation with a title of at most 43 characters, or
    merges into the active one (reasons appended without duplicates, score
    `min(100, old + new)`);
  - tracks the conversation in `activeConvos`;
  - stores one unread CUSTOMER message.

  The JavaScript variant stores the reasons as `JSON.stringify` text and
  reads them back with `JSON.parse`.

Layout, one module per file:

- `common.dfy` (`Common`): `Option`, `Min`, `NoDuplicates`, and the
  `Reason` and `UrgencyResult` shapes.
- `text.dfy` (`Text`): ASCII `toLowerCase`/`toUpperCase`, `includes`, and
  lemmas about them.
- `live_urgency.dfy` (`LiveUrgency`): the live scorer.
  - A rule table (`RuleTable`, `Fires`, `Points`, `ReasonOf`) is the
    reference definition.
  - `Assess` filters the table and sums the points.
  - The method `CalculateUrgency` is the rule-by-rule accumulator of the
    source. It is proved to return exactly `Assess`.
- `ingest_urgency.dfy` (`IngestUrgency`): the ingestion scorer, built the
  same way.
- `ingestion.dfy` (`Ingestion`): records, rows, the sort comparator, the
  window, titles, and the reason/score merge. The merge is the method
  `MergeReasons`, proved equal to the function `Merged`.
- `ingest_run.dfy` (`IngestRun`): one loop iteration as a function `Step`
  over the store (`Db`) and the `activeConvos` map, and a run `Run`.
  - The properties of a run are stated over the records alone: who
    appears, when each user last wrote, and which records start a
    conversation.
  - They are proved through a five-part loop invariant.
- `ingest_ts.dfy` (`IngestTs`): the TypeScript driver.
  - `Store` is a class whose fields the upsert, create and update calls
    change in place.
  - `IngestRecord` is proved to be one `Step`.
  - `Ingest` is the loop, proved to leave the store as `Run` says.
- `reason_json.dfy` (`ReasonJson`): `JSON.stringify` of a reason list, a
  decoder for it, and the round trip.
- `ingest_js.dfy` (`IngestJs`): the JavaScript driver.
  - Its `JsStore` keeps reasons as text.
  - Seen through decoding that text, each iteration is proved to be the
    same `Step`.

Time is epoch milliseconds (`int`). The gap in hours is computed as an
exact `real`, `(to - from) / 3_600_000`. For integer milliseconds,
`> 24` hours is exactly more than 86 400 000 ms and `> 6` hours exactly more
than 21 600 000 ms (`Ingestion.GapHoursThresholds`). Ids of conversations
are modelled as a counter handed out by the store.

## Model

| member | source | states |
|---|---|---|
| LiveUrgency.CalculateUrgency | server/src/services/urgency.ts:6-46 | the accumulator returns exactly the rule-table reference `Assess`: the fired rules' points capped at 100, and their reasons in table order |
| LiveUrgency.ScoreIsCappedSum | server/src/services/urgency.ts:7-45 | the score is in [0, 100] and equals min(100, sum of the fired rules' points), i.e. min(100, text points + gap points) |
| LiveUrgency.GapBandsExclusive | server/src/services/urgency.ts:34-40 | a gap of at most 6 h gives no Gap reason; (6, 24] gives "Waiting > 6 hours" and not the other; over 24 gives "Waiting > 24 hours" and not the other; never two Gap reasons |
| LiveUrgency.ReasonsInEvaluationOrder | server/src/services/urgency.ts:13-40 | reasons come in the order financial, explicit urgency, critical, sentiment, gap; there are at most 5 and no pair repeats |
| LiveUrgency.ReasonReportedIffFires | server/src/services/urgency.ts:13-40 | each rule's reason is reported if and only if that rule fires on the text and gap |
| LiveUrgency.ScoreMonotoneInGap | server/src/services/urgency.ts:34-45 | for a fixed text, a longer gap never lowers the score |
| LiveUrgency.KeywordRulesIgnoreCase | server/src/services/urgency.ts:10-26 | two texts that differ only in letter case fire the financial, urgency and critical rules alike |
| LiveUrgency.SentimentIff | server/src/services/urgency.ts:28-31 | the sentiment reason is reported iff the text contains "??" or is longer than 10 with no lower-case letter (also when it has no letters at all) |
| LiveUrgency.NothingFiresIffZero | server/src/services/urgency.ts:7-45 | score 0 iff no reasons iff no keyword, no critical word, not intense and a gap of at most 6 h |
| LiveUrgency.HelloScoresZero | server/src/services/urgency.ts:42-45 | ("hello", 0) scores 0 with no reasons |
| LiveUrgency.EveryRuleExample | server/src/services/urgency.ts:13-45 | a text firing every text rule, 30 h after the last message, reports all five reasons in order and its score of 130 is capped to 100 |
| Text.UpperFixedIff | server/src/services/urgency.ts:28 | a text equals its upper-case form iff it holds no lower-case letter |
| Text.CaseVariantsLowerEqually | server/src/services/urgency.ts:10 | case variants have the same lower-case form |
| IngestUrgency.CalculateUrgency | server/scripts/ingest.ts:14-35 | the accumulator returns exactly the three-rule reference `Assess` (Keyword 30, Critical 40, Gap 20) |
| IngestUrgency.CapNeverBinds | server/scripts/ingest.ts:20-34 | the score is exactly the sum of the fired rules' points and at most 90, so the cap of 100 never binds |
| IngestUrgency.ReasonsInEvaluationOrder | server/scripts/ingest.js:10-31 | reasons are Keyword, Critical, Gap in that order, each present iff its rule fires (Gap iff the gap is over 24 h), at most 3, no repeats |
| IngestUrgency.ScoreMonotoneInGap | server/scripts/ingest.ts:29-34 | for a fixed text, a longer gap never lowers the ingestion score |
| Ingestion.CompareRecordsConsistent | server/scripts/ingest.ts:53-56 | the comparator is antisymmetric in sign and says "equal" only for the same user and the same timestamp |
| Ingestion.CompareTextAntisymmetric | server/scripts/ingest.ts:54 | the user-id order is antisymmetric and only equal ids compare equal |
| Ingestion.CompareTextTransitive | server/scripts/ingest.ts:54 | the user-id order is transitive |
| Ingestion.CompareRecordsTransitive | server/scripts/ingest.ts:53-56 | the comparator is transitive, so together with antisymmetry it is a total preorder the sort can use |
| Ingestion.SortedIsChronological | server/scripts/ingest.ts:53-56 | records sorted by the comparator come, for each user, in time order |
| Ingestion.GapHoursThresholds | server/scripts/ingest.ts:78-82 | the gap in hours is over 24 iff over 86 400 000 ms, over 6 iff over 21 600 000 ms, and non-negative iff the record is not earlier |
| Ingestion.WindowPartition | server/scripts/ingest.js:69-82 | an untracked user starts a new conversation with gap 0; a tracked one starts a new conversation iff more than 24 h passed, with the measured gap |
| Ingestion.TitleShape | server/scripts/ingest.ts:94 | the title is the content when at most 40 long, else its first 40 characters and "..."; never over 43 |
| Ingestion.MergeReasons | server/scripts/ingest.ts:112-117 | the copy-and-push loop returns the reference merge `Merged` |
| Ingestion.MergedSpec | server/scripts/ingest.ts:110-117 | the merge keeps the old list as a prefix, holds exactly the pairs of both lists, appends only pairs not already present, and keeps a duplicate-free list duplicate-free |
| Ingestion.MergedAbsorbsPresent | server/scripts/ingest.ts:113-117 | merging pairs that are all present changes nothing |
| Ingestion.MergedIdempotent | server/scripts/ingest.ts:112-117 | merging the same reasons twice equals merging them once |
| Ingestion.MergedScoreBounds | server/scripts/ingest.ts:119 | min(100, old + new) with old in [0, 100] and new non-negative never drops below old and never passes 100 |
| IngestRun.StepFirstRecord | server/scripts/ingest.ts:74-106 | a user's first record creates an OPEN conversation under the next id with the truncated title, all three timestamps set to the record's, and no Gap reason; in a store whose ids are below the counter that id is fresh and every stored row keeps its contents |
| IngestRun.StepAfterLongGap | server/scripts/ingest.ts:78-106 | a record over 24 h after the tracked conversation creates a new OPEN conversation under the next id that carries the Gap reason; in a store whose ids are below the counter that id is fresh and every stored row keeps its contents, and when the map mirrors the store the conversation left keeps its row |
| IngestRun.StepContinues | server/scripts/ingest.ts:108-130 | a record within 24 h updates only lastMessageAt, updatedAt, score and reasons of the tracked row; the score is min(100, old + new) and does not drop; the old reasons stay a prefix; no duplicate and no Gap reason is added |
| IngestRun.StepRecordsMessage | server/scripts/ingest.ts:133-144 | each record upserts its customer, points its user's map entry at the stored row, leaves other users' entries unchanged, and appends exactly one unread CUSTOMER message to that row's conversation |
| IngestRun.StepKeepsMirror | server/scripts/ingest.ts:132-133 | whatever came before, a step keeps every id below the counter and every entry of `activeConvos` equal to the stored row of its own user's conversation |
| IngestRun.StepDecision | server/scripts/ingest.ts:74-90 | while the map tracks the records read so far, the NEW decision is exactly "user not seen, or more than 24 h after the user's last record" |
| IngestRun.RunInv | server/scripts/ingest.ts:61-145 | after every prefix of the records the loop invariant holds: tracking, growth of customers and ids, messages, per-user counts and well-formed rows |
| IngestRun.IngestKeepsExisting | server/scripts/ingest.ts:61-145 | rows and messages present before the run are unchanged; the customers become the old ones plus every user of the records, existing customers untouched and new ones created as "User" + id |
| IngestRun.IngestOneMessagePerRecord | server/scripts/ingest.ts:135-144 | the run adds exactly one message per record, in record order: unread, CUSTOMER, the record's content and time, in a conversation of this run owned by the record's user |
| IngestRun.NewCountForUser | server/scripts/ingest.ts:80-90 | a user starts one conversation with the first record plus one per gap of over 24 h |
| IngestRun.ConversationsPerUser | server/scripts/ingest.ts:74-106 | the run creates conversations under consecutive fresh ids; a user in the records owns 1 + (number of gaps over 24 h) of them, any other user none |
| IngestRun.IngestWellFormed | server/scripts/ingest.ts:94-129 | every conversation of the run is OPEN, titled in at most 43 characters, scored in [0, 100], without repeated reasons, and each user has one whose lastMessageAt is the user's last record's time |
| IngestRun.SortedGapsNonNegative | server/scripts/ingest.ts:53-56 | when each user's records come in time order, no record precedes its user's previous record, so the measured gap is never negative |
| IngestTs.Store.UpsertCustomer | server/scripts/ingest.ts:67-71 | the customer exists afterwards; an existing row is unchanged; nothing else changes |
| IngestTs.Store.CreateConversation | server/scripts/ingest.ts:95-106 | a row is added under a fresh id with the given fields and all three timestamps equal; nothing else changes |
| IngestTs.Store.UpdateConversation | server/scripts/ingest.ts:121-129 | only the row's lastMessageAt, updatedAt, score and reasons change |
| IngestTs.Store.CreateMessage | server/scripts/ingest.ts:135-144 | exactly the message is appended |
| IngestTs.Store.IngestRecord | server/scripts/ingest.ts:62-144 | one iteration is exactly the model's `Step`; the store stays valid and the map keeps mirroring stored rows |
| IngestTs.Store.Ingest | server/scripts/ingest.ts:58-145 | the loop from an empty `activeConvos` leaves the store as `Run` over the records, so every `IngestRun` property holds of it |
| ReasonJson.ParseStringify | server/scripts/ingest.js:102 | parsing the text stringify wrote gives back the same reasons in the same order |
| ReasonJson.StringifyNotEmpty | server/scripts/ingest.js:102 | stringify never writes the empty text, so the `? JSON.parse(..) : []` test always parses |
| ReasonJson.StringifyInjective | server/scripts/ingest.js:120 | different reason lists are stored as different texts |
| IngestJs.RowRoundTrip | server/scripts/ingest.js:97 | every row the script writes reads back as the conversation written |
| IngestJs.ReadReasons | server/scripts/ingest.js:102 | the empty text reads as no reasons, any other text as its parse |
| IngestJs.JsStore.UpsertCustomer | server/scripts/ingest.js:63-67 | the customer exists afterwards; an existing row is unchanged; nothing else changes |
| IngestJs.JsStore.CreateConversation | server/scripts/ingest.js:88-99 | a row is added under the next id with the given fields, the reasons written as stringify text; in a valid store that id is fresh and the store stays valid; nothing else changes |
| IngestJs.JsStore.UpdateConversation | server/scripts/ingest.js:114-122 | only the row's activity fields, score and reasons text change |
| IngestJs.JsStore.CreateMessage | server/scripts/ingest.js:127-135 | exactly the message is appended |
| IngestJs.JsStore.OpenRow | server/scripts/ingest.js:86-99 | the created row, decoded, is the OPEN conversation of the record under the next id, scored by the record alone; only the rows and the counter change |
| IngestJs.JsStore.ContinueRow | server/scripts/ingest.js:100-122 | the updated row is the tracked conversation continued: its reasons parsed, merged and stringified, its score min(100, old + new); only that row changes |
| IngestJs.JsStore.WriteConversation | server/scripts/ingest.js:69-123 | the row written, decoded, is the conversation the model's step touches, and its reasons text reads back |
| IngestJs.JsStore.IngestRecord | server/scripts/ingest.js:58-136 | seen through decoding, one iteration is exactly the model's `Step`, the same one the TypeScript driver takes |
| IngestJs.JsStore.Ingest | server/scripts/ingest.js:56-136 | the loop leaves the decoded store as `Run` over the records |

## Left out

- Reading the CSV file, the `csv-parse` call, console output and `process.exit` are I/O. The drivers take the parsed records as a sequence.
- Prisma is replaced by an in-memory store. The model has no concurrency, no failing writes, no database-generated string ids (a counter stands in), and no other database columns.
- IngestTs.Store.Ingest: the records are taken in the order given. The library `Array.prototype.sort` call itself is not modelled. Its comparator is modelled (`Ingestion.CompareRecords`), and `Ingestion.SortedIsChronological` shows that input sorted by it (`SortedForIngest`) is `Chronological`: each user's records come in time order, which is what the lemmas about gaps require.
- IngestJs.JsStore.Ingest: the same as above for the JavaScript variant.
- `localeCompare` is replaced by code-point order on user ids. Collation rules are not modelled.
- `new Date(...)` parsing is out: timestamps arrive as epoch milliseconds, and invalid dates (NaN) are not modelled. Floating-point division is modelled as exact real division.
- `toLowerCase`/`toUpperCase` are modelled for ASCII letters only. Other letters and UTF-16 code units are not.
- `normalizeConversation` (ingest.ts:150-152) is the identity, so the map stores the row as returned. The `|| 0` and `|| []` fallbacks for a missing score or reasons are not modelled, because the script never stores either as null.
- IngestTs.Store.UpdateConversation, IngestJs.JsStore.UpdateConversation and IngestJs.JsStore.ContinueRow require the row to exist (ContinueRow also requires its stored text to parse). A Prisma update of a missing row throws, and the loop only updates rows it tracks.
- IngestJs.ReadReasons requires text that `JSON.parse` accepts. The decoder covers the arrays of reason objects that stringify writes, not all of JSON (no whitespace, other keys or other key orders). Lone surrogate escapes are also out, since Dafny characters are Unicode scalar values.
- The live scorer is imported by `server/src/routes/conversations.ts`, which never calls it. The routes, the event stream, the debugging scripts and the client are not part of this model.
- The TypeScript script writes `urgencyReasons` as an array (ingest.ts:104, 127), while `server/debug_backend.ts:23` writes the text `'[]'` and `server/src/routes/conversations.ts:11` applies `JSON.parse` to the column. The model's TypeScript store holds a `seq<Reason>`, as the script writes it. Rows written in the text form by other code are not part of this model.
