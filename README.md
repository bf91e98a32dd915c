# Quizz: a verified model of the live polling session

The quiz server keeps one document per session: a status, the participants
with one free-text answer per category (explorer, introspector, comparer,
recommender), and one vote list per category. Participants submit answers,
then vote on each category in turn. The moderator walks the status through
`collecting → voting1 → results1 → … → results4 → finish`. Each results
page shows a ranked tally. This project models, in Dafny:

- the server's route handlers over a store of documents (`server.dfy`);
- the document, its answer lists and summaries (`schema.dfy`);
- the keyed upsert shared by participants and votes (`keyed.dfy`);
- the tally and its stable ranking (`tally.dfy`);
- the status enumeration and its order (`status.dfy`);
- the participant page's stage rules and state (`join.dfy`);
- the moderator page's phase, advance buttons and countdown (`start.dfy`);
- `apiUrl` (`api.dfy`).

The four copies of each per-category handler are one operation that takes a
`Category`. Values kept per category are a `PerCategory<T>`
(`categories.dfy`). `text.dfy` holds `trim`, `startsWith` and the decimal
rendering the countdown uses.

Stateful parts are classes whose methods state their whole new state. These
are the document store (`Server.QuizStore`), the participant page
(`Join.JoinView`) and the moderator page (`Start.ModeratorView`). The
properties are proved about the pure functions those methods are tied to.

Where the design text and the code differ, the model follows the code:

- The status update stores any non-empty string. The schema's enum
  validator does not run on `findOneAndUpdate` without a validator option,
  so there is no "invalid phase" error. Stored status is a `string`;
  `Status.ParseStatus` maps it onto the ten-value enumeration.
- `save()` does run the schema's validators over the whole loaded document.
  Once a status outside the enumeration is stored, every later answer
  submission and vote fails with a 500 and changes nothing. A vote with an
  empty selection string fails the same way (`required` on each element).
- A result count is the number of occurrences of the id across the
  category's selection lists, not the number of distinct voters.
  `Tallying.OccurrencesCountVoters` shows the two agree when no vote repeats
  a selection. The participant page always sends a `Set`, so its votes never
  repeat one.
- Selections are stored as sent. Nothing checks them against the
  participants; unmatched ones are only ignored by the tally.

## Model

| member | source | states |
|---|---|---|
| `Status.ParseStatus` | server/index.js:35-46 | a string parses only to the status whose name it is; anything else is `None` |
| `Status.ParseStatusName` | server/index.js:35-46 | every status name parses back to its status, so the ten names are distinct |
| `Status.PhaseIndex` | client/src/routes/Start.jsx:6-17 | every status occurs exactly once in the phase order |
| `Keyed.Upsert` | server/index.js:158-179 | the record `(k, v)` is present afterwards, every other record was there before, and the length grows by at most one |
| `Keyed.Find` | server/index.js:158-160 | returns the index of the first record with the key, or -1 exactly when no record has it |
| `Keyed.UpsertAt` | server/index.js:162-168 | when the first match is at `i`, the upsert replaces slot `i` and nothing else |
| `Keyed.UpsertAbsent` | server/index.js:169-179 | when no record has the key, the upsert appends one record at the end |
| `Keyed.UpsertKeys` | server/index.js:158-179 | key order is kept; a new key is appended; the length grows by one only for a new key |
| `Keyed.UpsertKeepsOthers` | server/index.js:158-179 | records with other keys are unchanged and keep their order |
| `Keyed.UpsertLookup` | server/index.js:158-179 | afterwards the key looks up to the new value; every other key looks up as before |
| `Keyed.UpsertUnique` | server/index.js:158-179 | with unique keys before, keys stay unique and exactly one record has the key, holding the new value |
| `Keyed.UpsertTwice` | server/index.js:290-299 | upserting twice under one key leaves only the second value |
| `Schema.NewQuiz` | server/index.js:47-85 | a new document has status `collecting`, no participants and four empty vote lists |
| `Schema.CoerceAnswers` | server/index.js:163-168 | each submitted answer field is kept; a missing field becomes `""` |
| `Text.Trim` | server/index.js:202 | the result is no longer than the input and neither of its ends is whitespace |
| `Text.TrimIsInfix` | server/index.js:202 | `trim()` returns the input less a blank prefix and a blank suffix |
| `Text.TrimEmptyIffBlank` | server/index.js:202 | `trim()` yields `""` exactly when the text is all whitespace |
| `Schema.HasSubmitted` | client/src/routes/Join.jsx:56-60 | true exactly when some category's answer is not blank after trimming |
| `Schema.SaveValidParticipants` | server/index.js:35-46 | with every stored selection filled, a document with new participants passes `save()`'s checks iff its status is in the enumeration |
| `Schema.SaveValidVote` | server/index.js:59-85 | with every stored selection filled, a document with an upserted vote passes `save()`'s checks iff the status is in the enumeration and no new selection is `""` |
| `Schema.SubmittedCount` | server/index.js:128-136 | `submittedCount <= participantsCount`; equal iff everyone submitted; zero iff no one did |
| `Schema.AnswerList` | server/index.js:197-202 | at most one entry per participant, and every entry's text is non-blank |
| `Schema.AnswerListMembers` | server/index.js:197-202 | an entry is listed iff its text is non-blank and it is some participant's id with that untrimmed answer |
| `Schema.AnswerListAppend` | server/index.js:197-202 | the list of a concatenation is the concatenation of the lists, so participant order is kept |
| `Schema.ParticipantSummary` | server/index.js:127-136 | `submittedCount <= participantsCount`, and `participantsCount` is the number of participants |
| `Schema.VoteSummary` | server/index.js:595-596 | in a well-keyed document, `participantsCount` is the number of distinct participant ids and `votesCount` the number of distinct voters of the category |
| `Tallying.CountVotes` | server/index.js:426-437 | the count map has exactly the listed ids as keys, each valued by its occurrences across all selections |
| `Tallying.SortByCount` | server/index.js:444 | the ranking has the input's length and exactly its members |
| `Tallying.SortByCountPermutation` | server/index.js:444 | the ranking is a permutation of its input |
| `Tallying.SortByCountSorted` | server/index.js:444 | the ranking has non-increasing counts |
| `Tallying.SortByCountStable` | server/index.js:444 | entries with equal counts keep their input (participant) order |
| `Tallying.RankingUnique` | server/index.js:439-444 | two stable rankings of the same entries are equal, so the results reply is determined by the document |
| `Tallying.Tally` | server/index.js:419-444 | one entry per listed answer and nothing else, each counted by its occurrences, ranked and stable |
| `Tallying.OccurrencesCountVoters` | server/index.js:431-437 | when no vote repeats a selection, a count equals the number of votes selecting the id |
| `Tallying.UnmatchedSelectionsIgnored` | server/index.js:433-435 | selections naming no listed id change no count and add no entry |
| `Server.QuizStore.Create` | server/index.js:92-102 | a fresh id gets the default document; a duplicate id fails and changes nothing |
| `Server.QuizStore.GetStatus` | server/index.js:104-116 | returns the stored status, or NotFound for an unknown id |
| `Server.QuizStore.SetStatus` | server/index.js:664-687 | empty status is rejected unchanged; unknown id is NotFound; otherwise the status is replaced outright and returned |
| `Server.QuizStore.ParticipantSummaryOf` | server/index.js:118-142 | NotFound for an unknown id, else the participant count and the submitted count |
| `Server.QuizStore.SubmitAnswers` | server/index.js:144-186 | empty id is rejected before the lookup; unknown quiz is NotFound; a stored status outside the enumeration makes the save fail with no change; otherwise the participant is upserted with coerced answers, keeping ids unique |
| `Server.QuizStore.AnswersOf` | server/index.js:188-208 | NotFound for an unknown id, else exactly the participants with a non-blank answer for the category |
| `Server.QuizStore.RecordVote` | server/index.js:276-307 | empty voter id or non-array selections are rejected unchanged; unknown quiz is NotFound; an empty selection string or a stored status outside the enumeration makes the save fail with no change; otherwise the category's vote is upserted; other categories untouched |
| `Server.QuizStore.ResultsOf` | server/index.js:408-450 | NotFound for an unknown id, else a stable ranking of the category's scored answer list |
| `Server.QuizStore.VoteSummaryOf` | server/index.js:584-602 | NotFound for an unknown id, else total participants and the length of the category's vote list |
| `Server.ExplorerScenario` | server/index.js:144-450 | submit `{explorer: "A"}` as p1, vote `["p1"]` as v1: the list is `[p1 "A"]`, the results `[p1 "A" 1]`; a set status reads back |
| `Join.ResolveStageForStatus` | client/src/routes/Join.jsx:64-86 | collecting gives waiting iff answers were submitted; votingN gives the round's waiting stage iff its flag is set, else voteN; resultsN gives resultsN; finish gives finished; anything else gives step1; every stage but step1 keeps polling |
| `Join.VotedRoundStaysWaiting` | client/src/routes/Join.jsx:505-506 | after a round's vote is recorded, the next poll of that round keeps the waiting stage |
| `Join.SubmittedStaysWaiting` | client/src/routes/Join.jsx:428 | after submitting, a collecting poll keeps `waiting` iff some answer is non-blank |
| `Join.Toggle` | client/src/routes/Join.jsx:465-473 | the id's membership flips; every other id is unchanged |
| `Join.ToggleTwice` | client/src/routes/Join.jsx:465-473 | toggling twice restores the selection |
| `Join.JoinView.constructor` | client/src/routes/Join.jsx:33-53 | blank answers, stage step1, empty selections, no round voted |
| `Join.JoinView.EditAnswer` | client/src/routes/Join.jsx:838-843 | replaces one answer field and nothing else |
| `Join.JoinView.ApplyStatus` | client/src/routes/Join.jsx:186 | the stage becomes the resolved stage of the polled status; nothing else changes |
| `Join.JoinView.ToggleSelection` | client/src/routes/Join.jsx:465-473 | toggles the id in that round's selection only |
| `Join.JoinView.CanCastVote` | client/src/routes/Join.jsx:487 | the vote button of a round is enabled iff there is a participant id and the round's flag is unset (no ensures: `VoteSucceeded` requires it and ensures it is false afterwards) |
| `Join.JoinView.SubmitSucceeded` | client/src/routes/Join.jsx:428 | a successful submit moves to `waiting` |
| `Join.JoinView.VoteSucceeded` | client/src/routes/Join.jsx:487-506 | callable only with a participant id and an unset flag; sets the flag, moves to the round's waiting stage, disables the button |
| `Start.PhasesMatchSchema` | client/src/routes/Start.jsx:6-17 | the page's `PHASES` are the schema's ten names in the schema's order |
| `Start.NormalizedPhase` | client/src/routes/Start.jsx:36-39 | a route phase in `PHASES` is kept; any other or absent one becomes `collecting` |
| `Start.NormalizedPhaseRoundTrip` | client/src/routes/Start.jsx:286-291 | navigating to a phase's route gives back that phase |
| `Start.AdvanceTarget` | client/src/routes/Start.jsx:488-712 | every phase but `finish` posts the next phase in the order; `finish` posts nothing |
| `Start.ResultsCategory` | client/src/routes/Start.jsx:103-110 | `resultsN` loads the results of the N-th category; other phases load none |
| `Start.SummaryCategory` | client/src/routes/Start.jsx:193-200 | `votingN` polls the vote summary of the N-th category; other phases poll none |
| `Start.ShowsCountdown` | client/src/routes/Start.jsx:311-315 | the countdown shows exactly in `collecting` and the voting phases |
| `Start.CountdownTick` | client/src/routes/Start.jsx:271 | the countdown never goes negative, drops by at most one second, and stands still only at zero |
| `Start.Ticks` | client/src/routes/Start.jsx:269-275 | after at least one tick the value is non-negative; from a non-negative start it stays between zero and the start |
| `Start.TicksStopAtZero` | client/src/routes/Start.jsx:270-272 | after n ticks the countdown is `max(s - n, 0)`, never negative |
| `Start.MinutesSeconds` | client/src/routes/Start.jsx:283-284 | `minutes * 60 + seconds == secondsLeft` and `seconds < 60` |
| `Text.TwoDigits` | client/src/routes/Start.jsx:284 | seconds below 100 render as exactly two digits that read back as the value |
| `Start.CountdownText` | client/src/routes/Start.jsx:283-313 | the text is `digits:dd`, and sixty times the first number plus the second is `secondsLeft` |
| `Start.ModeratorView.constructor` | client/src/routes/Start.jsx:24-28 | the phase is the normalised route phase and the countdown starts at 120 |
| `Start.ModeratorView.Tick` | client/src/routes/Start.jsx:269-275 | one tick of the countdown, kept within 0..120; the phase is unchanged |
| `Start.ModeratorView.SetPhase` | client/src/routes/Start.jsx:277-291 | the phase is replaced; entering a different voting phase resets the countdown to 120 |
| `Start.ModeratorView.Advance` | client/src/routes/Start.jsx:488-712 | posts the next phase if there is a quiz id; moves to it only when the server accepted |
| `Api.ApiBase` | client/src/lib/api.js:1 | the configured base less one trailing `/`, if there is one |
| `Api.Normalize` | client/src/lib/api.js:7 | `/` is prepended only when missing; the result starts with `/` and is not absolute |
| `Api.StripApiPrefix` | client/src/lib/api.js:11 | exactly one leading `/api` is removed, if present |
| `Api.ApiUrl` | client/src/lib/api.js:3-6 | an `http://` or `https://` URL is returned unchanged |
| `Api.ApiUrlWithoutBase` | client/src/lib/api.js:8-10 | with an empty base, a relative path comes out rooted at `/`, and `apiUrl` is idempotent |
| `Api.ApiUrlWithBase` | client/src/lib/api.js:11 | with a base, the URL is the base plus the rooted path, less its leading `/api` when it starts with one (so `/apiary` gives `ary`) and unchanged otherwise |
| `Api.TrailingSlashIrrelevant` | client/src/lib/api.js:1 | a base with or without its trailing `/` gives the same URLs |

## Left out

- Express routing, JSON body parsing, request logging, the `/:name` greeting route and the 404 fallback: HTTP plumbing.
- MongoDB: connecting, `findOne`, `save`, `findOneAndUpdate` and the `select` projections. The store is a map from quiz id to document. The 500 replies modelled are the duplicate quiz id on create and the schema checks `save()` runs (status enumeration, filled selections). Failures of the database itself are not modelled.
- Concurrency: lost updates between concurrent `save()` calls on one document. Every handler is one atomic step.
- Randomness and clocks: `crypto.randomUUID`, `generateId`, and the random shuffle of the voting list. Ids are inputs.
- Request fields that are not strings, such as numbers, `null` or `false`. `!x` and `|| ""` are modelled for strings only. An absent field is `""`, or `None` for `selections`.
- `Server.QuizStore.SetStatus`: does not model the `findOneAndUpdate` cast of a non-string status to a string.
- `trim` strips a fixed set of whitespace characters: ASCII whitespace, NBSP and BOM. It does not use the Unicode table.
- The client's `Set` of selections is a Dafny `set`, so the insertion order `Array.from` gives is not modelled. The order of the selections sent in a vote is therefore left out.
- Client I/O: `localStorage` persistence and its JSON parsing, `fetch`, effects, two-second polling intervals and the `active` flags. Server replies are inputs: the polled status string, and the `accepted` flag of an advance.
- Request paths the moderator page builds: the page's choice of category is modelled (`Start.ResultsCategory`, `Start.SummaryCategory`), but the URL strings are not.
- The final-results page loads all four categories at `finish`: four plain reads of `Server.QuizStore.ResultsOf`, not modelled separately.
- Rendering: JSX, the QR code, the placeholders, and all of `App.jsx` and `Home.jsx`.
