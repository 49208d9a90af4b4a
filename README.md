# Pod swipe queue and quiz store, modelled in Dafny

This project models the two pieces of logic in the ThinkerDeckAI web app.

**The pod decision queue** (`public/scripts/questionStack.js`). The page keeps a
global `pods` array. The loading callback pushes every fetched pod that shares
at least one tag with the user's interests. When the browser offers geolocation,
a radius step then filters the pods by the user's maximum distance. The page's
guard on that step in effect tests only for geolocation (see Findings); the
model's radius step is the corrected one, which filters only when a maximum is set. The head of the queue
is the card on top of the stack. A pan gesture that is long enough (|dx| ≥ 80)
and fast enough (|vx| ≥ 0.5) sends the head to the love sink (pan to the right)
or the nope sink (pan to the left) and shifts the queue. A shorter or slower pan
keeps the card. The love and nope buttons always commit, unless no card is left.
Each card also shows its time on a 12-hour clock.

**The quiz store** (`utilities/databaseClient.js`). `formatString` normalises a
subject: every space-separated word gets an upper-case first letter and
lower-case rest. `findCategory` finds the category with a given name or creates
it with `numQuizzes = 0`; the schema's required validator rejects an empty name,
and `findCategory` then returns `undefined`. `saveQuiz` formats the subject, finds
or creates its category, and appends a quiz titled `"<Formatted> - <numQuizzes>"`;
with no category, `category._id` throws and nothing is written.

Layout:

- `wrappers.dfy`: `Option`. `None` stands for JavaScript's `undefined` and `NaN`.
- `text.dfy`: the JavaScript built-ins the two scripts use. These are `split`, `join`, ASCII `toUpperCase`/`toLowerCase`, `parseInt` without a radix, and `${n}` for an integral Number.
- `question_stack.dfy`: the pods, the admission filters, the commit rule, the `SwipeQueue` class holding `pods`, a trace model of many gestures, and the time text.
- `database_client.dfy`: `formatString` with a character-level reference definition, the category lookup, and the `Store` class holding the two collections.

Modelling choices:

- Pan displacement `dx` and velocity `vx` are Dafny `real`s. They are exact rationals, so the thresholds 80 and 0.5 are compared exactly.
- The sinks `handleLoveSwipe`/`handleNopeSwipe` become the `Decision` that `PanEnd` and `PressButton` return.
- `pods[0]` on an empty array is `undefined`, so a `Decision` carries an `Option<Pod>`. `pods.shift()` on an empty array does nothing (`Shift`).
- The button listener tests the DOM for cards not yet removed. In the model that test is `pods == []`, because `populateStack` renders one card per pod and every commit removes one card and one pod.
- The Mongo collections are sequences in a `Store` object. A category's `_id` is its position in the collection. Nothing is ever deleted, so positions are unique.
- `Store.Valid()` records what the three operations keep true:
  - ids are positions;
  - every `numQuizzes` stays 0, because nothing increments it;
  - no category name is empty;
  - no two categories share a name;
  - every quiz points at an existing category.

Two behaviours of the code differ from what a reader might expect, and the model follows the code:

- Deciding on an empty queue raises no error. A committed pan passes `undefined` to the sink and leaves the queue empty. A button with no cards returns `false`.
- The category counter is read but never incremented, so all titles end in `- 0`.

## Model

| member | source | states |
|---|---|---|
| `Text.Join` | utilities/databaseClient.js:103 | `join` puts the separator between consecutive pieces; its inverse relation to `Split` is `Text.JoinSplit` and `Text.SplitJoin` |
| `Text.ToUpper` | utilities/databaseClient.js:99 | ASCII `toUpperCase` on one character; its facts are `Text.CaseMapFacts` |
| `Text.ToLower` | utilities/databaseClient.js:99 | ASCII `toLowerCase` on one character; its facts are `Text.CaseMapFacts` |
| `Text.IntToString` | public/scripts/questionStack.js:180 | `${n}` for an integral Number: a minus sign before the digits of a negative value; read back by `Text.ParseIntToString` |
| `Text.ParseInt` | public/scripts/questionStack.js:169 | `parseInt` without a radix: leading white space, an optional sign, a `0x` prefix for hex, the longest digit run, `NaN` (None) without digits; facts in `Text.ParseDecimal` and `Text.ParseIntToString` |
| `Text.Split` | utilities/databaseClient.js:95 | `split` yields at least one piece, and no piece contains the separator |
| `Text.JoinSplit` | utilities/databaseClient.js:95-103 | joining the pieces of a split gives back the original string |
| `Text.SplitJoin` | utilities/databaseClient.js:95-103 | splitting a join of separator-free pieces gives back those pieces |
| `Text.SplitAtFirst` | public/scripts/questionStack.js:169-170 | splitting stops at the first separator: the first field is everything before it |
| `Text.CaseMapFacts` | utilities/databaseClient.js:99 | ASCII case maps send only the space to a space, are idempotent, and invert each other on letters |
| `Text.NatToString` | public/scripts/questionStack.js:180 | the rendering of a number is a non-empty run of decimal digits with no leading zero |
| `Text.TrimStart` | public/scripts/questionStack.js:169 | parseInt's white-space skip removes exactly a prefix of white space and stops at a non-space |
| `Text.ParseDecimal` | public/scripts/questionStack.js:169 | a run of decimal digits (the hour field) parses to its decimal value |
| `Text.ParseIntToString` | public/scripts/questionStack.js:169-180 | parseInt reads back every integer that `${n}` renders (round trip) |
| `QuestionStack.Filter` | public/scripts/questionStack.js:107 | `filter` keeps an element iff it is in the input and passes, and never grows the input |
| `QuestionStack.FilterAppend` | public/scripts/questionStack.js:88-96 | filtering distributes over concatenation, so the order of what passes is kept |
| `QuestionStack.FilterCount` | public/scripts/questionStack.js:88-96 | filtering keeps every copy of a passing value and none of a failing one (no deduplication) |
| `QuestionStack.Admitted` | public/scripts/questionStack.js:88-96 | the pods the loading callback pushes: the fetched pods that share a tag, in order; facts in `QuestionStack.AdmittedMembership` and `QuestionStack.AdmittedOrderAndCopies` |
| `QuestionStack.RadiusFilterAsWritten` | public/scripts/questionStack.js:101-110 | the radius step as written: with geolocation, keep a pod only when a maximum is set and the pod is within it; without, keep all |
| `QuestionStack.RadiusFilter` | public/scripts/questionStack.js:98-116 | the corrected radius step: filter by the maximum only when there is geolocation and a maximum |
| `QuestionStack.SharesTag` | public/scripts/questionStack.js:91 | `tags.some(tag => userTags.includes(tag))` holds iff some tag of the pod is a user tag |
| `QuestionStack.AdmittedMembership` | public/scripts/questionStack.js:88-96 | a fetched pod is admitted iff at least one of its tags is among the user's tags |
| `QuestionStack.AdmittedOrderAndCopies` | public/scripts/questionStack.js:88-96 | admission keeps fetch order (distributes over concatenation) and keeps duplicates |
| `QuestionStack.RadiusFilterAsWrittenDropsAll` | public/scripts/questionStack.js:101-110 | as written, with geolocation and no maximum distance, every pod is filtered out |
| `QuestionStack.RadiusFilterSpec` | public/scripts/questionStack.js:98-116 | corrected step: no geolocation or no maximum leaves the queue alone; otherwise exactly the pods within the radius stay, in order |
| `QuestionStack.Keep` | public/scripts/questionStack.js:312 | the keep test: abs(dx) < 80 or abs(vx) < 0.5; tied to the verdict by `QuestionStack.PanVerdict` |
| `QuestionStack.PanVerdict` | public/scripts/questionStack.js:311-332 | no decision iff `keep`; a commit needs both abs(dx) ≥ 80 and abs(vx) ≥ 0.5; love iff dx ≥ 80, nope iff dx ≤ -80 |
| `QuestionStack.Head` | public/scripts/questionStack.js:318-319 | `pods[0]`: the front pod, or `undefined` (None) on an empty queue |
| `QuestionStack.Shift` | public/scripts/questionStack.js:323 | `shift` removes exactly the head of a non-empty queue and leaves an empty one empty |
| `QuestionStack.Step` | public/scripts/questionStack.js:311-384 | one gesture (a pan end or a button press) on the queue: the new queue and the decision, if any; its effect is stated by `QuestionStack.StepConsumesFront` and by `SwipeQueue.PanEnd`/`PressButton` |
| `QuestionStack.Run` | public/scripts/questionStack.js:311-384 | a sequence of gestures applied in order, collecting the decisions; stated by `QuestionStack.RunConsumesFront` |
| `QuestionStack.StepConsumesFront` | public/scripts/questionStack.js:316-332 | one gesture removes from the queue exactly the pod its decision carries, taken from the front, and nothing else |
| `QuestionStack.RunConsumesFront` | public/scripts/questionStack.js:311-384 | over any gestures, the original queue equals the decided pods in decision order followed by what remains; the queue only shrinks, from the front |
| `QuestionStack.To12Hour` | public/scripts/questionStack.js:171-178 | the 12-hour reading of an hour: pm from 12, minus 12 past 12; facts in `QuestionStack.To12HourRoundTrip` |
| `QuestionStack.To12HourRoundTrip` | public/scripts/questionStack.js:171-178 | below hour 24 the conversion is undone by the 12-hour reading; pm iff hours ≥ 12; clock hour in 0..12; 0 stays 0 |
| `QuestionStack.FormatTime` | public/scripts/questionStack.js:166-181 | the time text is empty iff the time string is empty |
| `QuestionStack.FormatTimeOfClock` | public/scripts/questionStack.js:168-181 | for `hh:mm` (optionally `:ss`): pm from 12, minus 12 past 12, am and unchanged below 12, minutes copied verbatim |
| `QuestionStack.FormatDateTime` | public/scripts/questionStack.js:183 | the card's date-time text starts with the month text and ends with " @ " followed by the time text |
| `QuestionStack.DecisionExamples` | public/scripts/questionStack.js:91-332 | worked examples: (50, 1.0) and (100, 0.3) keep; (100, 0.6) is love and (-100, 0.6) is nope; the tag example admits and rejects |
| `QuestionStack.SwipeQueue.constructor` | public/scripts/questionStack.js:9 | the queue starts empty |
| `QuestionStack.SwipeQueue.LoadPods` | public/scripts/questionStack.js:88-96 | `pods` becomes its old value followed by the admitted fetched pods |
| `QuestionStack.SwipeQueue.ApplyRadius` | public/scripts/questionStack.js:101-113 | `pods` becomes the corrected radius filter of its old value |
| `QuestionStack.SwipeQueue.PanEnd` | public/scripts/questionStack.js:302-336 | a kept pan leaves `pods` unchanged and decides nothing; a commit sends the old head to love (dx > 0) or nope (dx < 0) and shifts once |
| `QuestionStack.SwipeQueue.PressButton` | public/scripts/questionStack.js:357-389 | no cards: no decision and `pods` untouched; otherwise the flag picks love or nope for the old head, `pods` loses exactly its head, with no threshold test |
| `DatabaseClient.FormatWord` | utilities/databaseClient.js:98-100 | one word: first character upper-cased, the rest lower-cased; stated by `DatabaseClient.CapitalisedWord` |
| `DatabaseClient.FormatString` | utilities/databaseClient.js:93-104 | split on spaces, format each word, join with spaces; stated by `DatabaseClient.FormatStringIsCapitalised` and the lemmas after it |
| `DatabaseClient.CapitalisedWord` | utilities/databaseClient.js:98-100 | a word becomes its first character upper-cased, then the rest lower-cased; an empty word stays empty |
| `DatabaseClient.FormatStringIsCapitalised` | utilities/databaseClient.js:93-104 | formatString equals the character-level reference: upper-case at the start and after a space, lower-case elsewhere |
| `DatabaseClient.FormatStringShape` | utilities/databaseClient.js:95-103 | formatString keeps the length and every space in its place |
| `DatabaseClient.FormatStringWords` | utilities/databaseClient.js:95-103 | the words of the result are the input's words formatted one by one, so the word count is kept |
| `DatabaseClient.FormatStringIdempotent` | utilities/databaseClient.js:93-104 | formatting an already formatted string changes nothing |
| `DatabaseClient.FindByName` | utilities/databaseClient.js:109-111 | `findOne({name})` finds the first category with that name, or none when no category has it |
| `DatabaseClient.Found` | utilities/databaseClient.js:106-125 | the category findCategory returns: the one found, a new one with counter 0, or none for an empty new name; stated by `DatabaseClient.FindCategorySpec` |
| `DatabaseClient.AfterFind` | utilities/databaseClient.js:106-125 | the categories after findCategory; stated by `DatabaseClient.FindCategorySpec` and `DatabaseClient.AfterFindIdempotent` |
| `DatabaseClient.FindCategorySpec` | utilities/databaseClient.js:106-125 | an existing name leaves the store unchanged and returns that category; a new non-empty name appends exactly one category with that name and counter 0, and returns it; a new empty name writes nothing and returns nothing |
| `DatabaseClient.AfterFindIdempotent` | utilities/databaseClient.js:106-125 | a second findCategory with the same name creates nothing and returns the same category |
| `DatabaseClient.AfterFindWellFormed` | utilities/databaseClient.js:59-62 | findCategory keeps the store invariant; in a well-formed store it returns nothing exactly for the empty name, and what it returns has counter 0 |
| `DatabaseClient.NewQuiz` | utilities/databaseClient.js:138-143 | the quiz saveQuiz builds from the found category, or none when there is no category; stated by `DatabaseClient.RepeatedSavesShareTitle` |
| `DatabaseClient.FormatStringEmpty` | utilities/databaseClient.js:133 | only the empty subject formats to the empty name |
| `DatabaseClient.RepeatedSavesShareTitle` | utilities/databaseClient.js:138-143 | a quiz is built exactly when the subject is not empty; it is titled "<formatted subject> - 0"; repeated saves under one subject share title and category |
| `DatabaseClient.SubjectsByFormattedName` | utilities/databaseClient.js:133-136 | a subject and its formatted form are saved identically |
| `DatabaseClient.FormatStringCaseInsensitive` | utilities/databaseClient.js:93-104 | two strings of equal length that agree letter for letter up to case format to the same string |
| `DatabaseClient.CaseVariantsShareCategory` | utilities/databaseClient.js:133-143 | subjects that differ only in case are saved under the same category with the same title |
| `DatabaseClient.Store.constructor` | utilities/databaseClient.js:58-86 | the store starts with no categories and no quizzes and satisfies its invariant |
| `DatabaseClient.Store.FindCategory` | utilities/databaseClient.js:106-125 | find-or-create: the returned category has the name, the store grows by at most one, quizzes are untouched, the invariant is kept; nothing is returned or written exactly for the empty name |
| `DatabaseClient.Store.SaveQuiz` | utilities/databaseClient.js:127-148 | for a non-empty subject appends exactly one quiz, whose category is the one found for formatString(subject) and whose title is that subject followed by " - 0"; for the empty subject writes nothing; no counter changes |

## Findings

| source | as written | input that shows it | evidently intended | confidence | as-written member | corrected member |
|---|---|---|---|---|---|---|
| public/scripts/questionStack.js:101 | `typeof maxDist != undefined` compares the string that `typeof` yields with `undefined`, so it is always true; the filter then compares each distance with `undefined`, which is false | geolocation available and `maxDist` holding `undefined`: every admitted pod is dropped and the stack shows "No more pods found."; and as `maxDist` is declared nowhere in the file, reading it on line 109 throws a `ReferenceError` inside the callback, so `pods` is not reassigned and `populateStack` never runs | `typeof maxDist != 'undefined'`: filter only when the user has set a maximum distance, as the comment on line 98 says | not executed; high | `QuestionStack.RadiusFilterAsWrittenDropsAll` | `QuestionStack.RadiusFilterSpec` |

## Left out

- `public/scripts/generateQuiz.js`: it only reads a form and posts it with `fetch`.
- Network calls are not modelled. This covers the two `XMLHttpRequest` loads, the `JSON.parse` of the fetched pods, the bodies of `handleLoveSwipe`/`handleNopeSwipe`, the attenders modal and `reverseGeocode`. The model takes pods already decoded, and the sinks become returned decisions.
- QuestionStack.SwipeQueue.ApplyRadius: applies the corrected guard `RadiusFilter`, not the page's. As written, with geolocation the page filters even without a maximum, and every pod is dropped (`RadiusFilterAsWritten`, `RadiusFilterAsWrittenDropsAll`); when `maxDist` is undeclared the callback throws instead and the stack is never rendered, which the model does not capture.
- Leaflet's `distanceTo` is floating point in a foreign library. It is a function parameter of `ApplyRadius`.
- `formatDistance` and its `toFixed` are floating-point text formatting.
- The geolocation callback runs later, and never if the user refuses permission. The model applies the radius step as one atomic call.
- Event-loop timing is not modelled, and neither is the second `loadPods()` call at line 391. Every operation is atomic and sequential.
- DOM and animation code is not modelled: `initCards`, `populateStack`'s HTML, Hammer.js transforms, the empty-state buttons, modal and loading-screen toggles.
- The DOM card list is not a separate state. It is identified with `pods`, so cards and pods getting out of step is not modelled.
- The date half of `formatDateTime` depends on `Date` parsing and locale rendering. `FormatDateTime` takes the month text and the day as parameters.
- `FormatTime` treats an `undefined` or `null` time like the empty string.
- `parseInt` and `${n}` use unbounded integers. Precision loss beyond 2^53 and exponent notation are not modelled.
- Mongoose is not modelled: the connection, the singleton constructor, `createSchemas`, the schemas and the `User` model. The collections are in-memory sequences.
- DatabaseClient.Store.SaveQuiz: the required validator is modelled only for the category's `name`. The `questionObjects` validation of the quiz schema is not modelled; `SaveQuiz` always succeeds for a non-empty subject.
- DatabaseClient.Store.FindCategory: each store operation is one atomic step. The schema has no unique index on `name`, so two interleaved findCategory calls for a new name could both create it; `UniqueNames` holds only because the model does not interleave.
- Database failures other than the empty-name validation are not modelled. In the source they are caught and logged, and `findCategory` then returns `undefined`, which makes `saveQuiz` fail. The in-memory store fails only on that validation.
- Case mapping is restricted to ASCII letters. Full Unicode mapping is not modelled, including mappings that change length.
