# Interview-question practice app: a Dafny model of its decision logic

This project models the parts of the interview-question practice app that make decisions, and proves properties of them. The data store, the browser and the network are outside the model. Each one appears as an input: a query result, a lookup outcome, a request body or a random draw.

- **AI-answer panel** (`components/ui/QuestionItem.tsx`). The panel's state is the tuple (active tab, AI answer, loading flag, error). The AI answer is null when nothing has been fetched and `""` when the lookup reported `PGRST116`, which `.single()` returns when zero or several rows match.
  - `fetchAiAnswer` is modelled as a start and a completion around the store lookup.
  - `regenerateAiAnswer` is modelled as it is written. Its request code is commented out, so it only sets the loading flag.
  - The model also covers the effect's auto-fetch guard, the action and copy buttons, the order in which the answer area chooses what to show, and the two header labels.
  - The sanitiser schema delta is modelled as well: `className` is added for `code` and `pre`.
  - A small event system (tab switches, clicks, effect runs, lookup completions) shows how the panel behaves over time.
- **Answer-saving route** (`pages/api/user-answers.ts`). It has a method gate, then a field gate, then "look up by question; update if found, else insert". The `user_answers` table is a sequence of rows. The lookup is PostgREST's `.single()`, which finds a row only when exactly one row matches.
- **Question-list route** (`pages/api/questions.ts`): a method gate, then the query result wrapped in the envelope.
- **Home page data** (`pages/index.tsx`): questions are decorated with their formatted date, answer rows are folded into a question-to-answer map, and any failure falls back to empty data.
- **Client fetchers** (`lib/api.ts`): normalisation of received questions, the mock list, and the fallbacks.
  - `Math.random()` is an exact fraction num/den in [0, 1). So `Math.floor(Math.random() * k)` is `num * k / den`.
- **Response envelopes** (`lib/api-response.ts`) and **date formatting** (`lib/dateUtils.ts`).
  - `formatDate` starts from what `new Date(s)` gives: calendar parts, an Invalid Date, or an exception.

`QuestionListFlow` joins the question-list route to the client's `getQuestions`. axios treats non-2xx replies as failed requests. The route puts its rows at `data.content` of the envelope, but the client reads `response.data?.content`, a key the envelope does not have. As written, the client therefore shows no questions after every successful reply (see "## Findings").

In four places the code does something other than what its own comments and names lead a reader to expect. The model follows the code:

- **The effect fetches again after every failed lookup.** The comment on the guard (`components/ui/QuestionItem.tsx:137`) says it fetches "only when tab opened and we have not fetched yet". The guard itself (`:138`) tests only the tab, the null answer and the loading flag, not the error. A failed lookup leaves the answer null and clears loading, so the effect fires again on every round (`QuestionItem.ErrorRefetchLoop`).
- **Regeneration never finishes.** `regenerateAiAnswer` (`:103-133`) sets loading and clears the error. Its request, and the `finally` that would clear loading, are commented out (`:106-132`). Nothing ever clears loading after a regeneration (`QuestionItem.RegenerateNeverSettles`).
- **The save route inserts after a failed lookup.** The lookup's comment (`pages/api/user-answers.ts:23`) and its `.single()` (`:28`) expect at most one answer row per question. The handler does not read the lookup's error: whenever no single row comes back, it inserts (`UserAnswersApi.FailedLookupDuplicates`). What happens next depends on the table schema, which is not part of this model. Without a uniqueness constraint on `question_id`, the insert adds a second row for the question, which is what the lemma describes. With one, the insert fails and the route answers 500 (`UserAnswersApi.WriteErrorReported`).
- **"Not found" also covers duplicates.** The panel's comments (`components/ui/QuestionItem.tsx:84`, `:86`) treat `PGRST116` as "record not found". Under `.single()` the same code also comes back when several rows match. The AI-answer route inserts into `ai_answers` without looking first (`pages/api/ai-answers/[questionId].ts:64-66`), so two rows for a question are possible unless the schema forbids them. The panel then shows the "no answer found" notice, and its button only repeats the lookup. The model takes the lookup outcome as an input, so `QuestionItem.FetchAiAnswer` covers both cases alike.

## Model

| member | source | states |
|---|---|---|
| QuestionItem.AutoFetchFires | components/ui/QuestionItem.tsx:136-141 | The effect fetches on its own only where the user could click "fetch": AI tab, button enabled, no copyable answer. It fires even while an error is on show, and the panel then shows the error or an empty answer. On the AI tab with loading off, it stays quiet only once an answer (possibly `""`) is present. The loop this causes is `QuestionItem.ErrorRefetchLoop`. |
| QuestionItem.Step | components/ui/QuestionItem.tsx:136-346 | The two buttons are rendered only on the AI tab, so a click on the other tab changes nothing. Only a tab switch changes the tab. A lookup starts only from the effect's guard or from an enabled "fetch" click on the AI tab. Loading clears, and the answer changes, only when a lookup in flight completes. The invariant and the long-run behaviour are in the lemmas below. |
| QuestionItem.StartLoading | components/ui/QuestionItem.tsx:72-73 | Starting a fetch or a regeneration sets loading and clears the error. It keeps the tab and the answer. |
| QuestionItem.CompleteFetch | components/ui/QuestionItem.tsx:82-99 | Every completed lookup clears the loading flag (the `finally` block), whatever its outcome. |
| QuestionItem.FetchAiAnswer | components/ui/QuestionItem.tsx:71-100 | Code `PGRST116` (zero or several rows matched) sets the answer to `""` with no error. Any other store error sets the error to `'查询失败: ' + message` and keeps the answer. A row sets the answer to its content verbatim. A rejected call sets the error from the thrown value. Every fetch ends not loading. |
| QuestionItem.RegenerateAiAnswer | components/ui/QuestionItem.tsx:103-133 | Regenerate sets loading and clears the error. It keeps the answer and does nothing else. |
| QuestionItem.ButtonAction | components/ui/QuestionItem.tsx:316-319 | The action button regenerates exactly when the answer is truthy (present and non-empty). Otherwise it fetches. |
| QuestionItem.ActionLabel | components/ui/QuestionItem.tsx:321-333 | The label shows "processing" while loading, "regenerate" when the button would regenerate, and "generate" otherwise. |
| QuestionItem.RenderAi | components/ui/QuestionItem.tsx:290-312 | Precedence: spinner exactly while loading; then the error notice exactly when the error is truthy; then the "no answer" notice exactly for `""`; otherwise markdown of the answer. |
| QuestionItem.StepConsistent | components/ui/QuestionItem.tsx:71-141 | Any event keeps this invariant: a lookup in flight implies loading with no error. |
| QuestionItem.RunConsistent | components/ui/QuestionItem.tsx:71-141 | The invariant holds after every sequence of events. |
| QuestionItem.FetchSettles | components/ui/QuestionItem.tsx:97-98 | A lookup completing on a fetching panel ends loading. The result equals the whole-fetch transition. |
| QuestionItem.ClickRegenerates | components/ui/QuestionItem.tsx:316-319 | Clicking the enabled button on the AI tab of a panel with an answer starts a regeneration. The panel is then loading with no lookup in flight, and the answer is kept. |
| QuestionItem.RegenerateNeverSettles | components/ui/QuestionItem.tsx:103-141 | Once a regeneration starts, no sequence of events clears loading. The button stays disabled, the guard stays false, and nothing is in flight. The area shows the spinner forever. |
| QuestionItem.OpeningTabFetches | components/ui/QuestionItem.tsx:136-141 | On a fresh panel, opening the AI tab and running the effect starts a fetch and shows the spinner. |
| QuestionItem.ErrorRefetchLoop | components/ui/QuestionItem.tsx:136-141 | The guard fires only on (AI tab, null answer, not loading) and does not read the error. After a failed lookup the panel returns to the same state, ready to fetch again, for any number of rounds. |
| QuestionItem.FetchThenDecide | components/ui/QuestionItem.tsx:290-343 | After a fetch, the button is enabled. A found non-empty answer is rendered, can be copied and is regenerated by the button. Not-found shows the notice and fetches. Other store errors show their message. |
| QuestionItem.ActionMatchesCopy | components/ui/QuestionItem.tsx:316-343 | The button regenerates exactly when copy is enabled. A null answer and `""` both fetch and disable copy. |
| QuestionItem.DifficultyText | components/ui/QuestionItem.tsx:37-44 | The label is "unknown" exactly for levels other than 1, 2 and 3. |
| QuestionItem.TypeText | components/ui/QuestionItem.tsx:46-52 | The label is "other type" exactly for types other than 1 and 2. |
| QuestionItem.LabelsDistinguish | components/ui/QuestionItem.tsx:37-52 | Distinct known levels get distinct labels. So do distinct known types. |
| SanitizeSchema.WithCodeClasses | components/ui/QuestionItem.tsx:163-176 | The merged schema keeps every other key. `code` and `pre` get their default list plus `['className']`. Every other tag's list is unchanged. A missing attributes map counts as empty. |
| SanitizeSchema.MergeOnlyAddsClassName | components/ui/QuestionItem.tsx:163-176 | The merged schema lists an attribute for a tag exactly when the default does, or when it is `className` on `code` or `pre`. |
| UserAnswersApi.Handle | pages/api/user-answers.ts:6-49 | The route answers only 405, 400, 500 or 200, and 405 exactly for a non-POST request. It calls the store exactly for a POST with both fields truthy, and then it looks the question up first and writes once. The table changes only on a 200. The lemmas below state each branch and the effect on the table. |
| UserAnswersApi.SingleIdFor | pages/api/user-answers.ts:24-28 | The lookup yields an id exactly when it does not fail and exactly one row answers the question. The id is that row's. |
| UserAnswersApi.UpdateContent | pages/api/user-answers.ts:33-36 | The update replaces the content of the rows with the given id and keeps every other row and the row count. |
| UserAnswersApi.NonPostRejected | pages/api/user-answers.ts:10-12 | A non-POST request gets 405 with a bare `{message}` body. It makes no store call and leaves the table unchanged. |
| UserAnswersApi.MissingFieldRejected | pages/api/user-answers.ts:17-20 | A falsy question id or content gets a 400 envelope with the fixed message. It makes no store call and leaves the table unchanged. |
| UserAnswersApi.WriteErrorReported | pages/api/user-answers.ts:44-48 | A write error gives 500 with the error's message and leaves the table unchanged. The lookup came first. |
| UserAnswersApi.ExistingAnswerUpdated | pages/api/user-answers.ts:24-36 | When the lookup finds the question's one row, the save replaces only that row's content and answers 200 with `{content:'回答保存成功'}`. |
| UserAnswersApi.NotFoundInserts | pages/api/user-answers.ts:37-42 | When the lookup finds nothing, the save appends one row (question, content) and keeps all existing rows. This covers no row, several rows and a failed lookup. |
| UserAnswersApi.FailedLookupDuplicates | pages/api/user-answers.ts:24-42 | A failed lookup of a question that has a row is ignored. The handler inserts, and the table then has two rows for that question. |
| UserAnswersApi.OtherQuestionsUntouched | pages/api/user-answers.ts:24-42 | The rows of every other question are the same after any request. |
| UserAnswersApi.SaveThenRead | pages/api/user-answers.ts:22-45 | With a working lookup, a save into a table with one row per question keeps it that way. Afterwards the question's stored answer is the saved content. |
| QuestionsApi.Handle | pages/api/questions.ts:6-25 | Non-GET requests get 405 `'只支持 GET 请求'` without reading the store. A query error gives 500 with its message. Success gives 200 with `{content: rows}`, the rows unchanged. Status 200 occurs exactly on GET with data. The HTTP status always equals `statusCode`. |
| HomePage.GetServerSideProps | pages/index.tsx:67-114 | The questions query always comes first. The answers query, for the signed-in user's id, is made exactly when there is a user and the questions query succeeded. A page with an error has no questions and no answers. The lemmas below state the contents of a successful page. |
| HomePage.Decorate | pages/index.tsx:75-78 | Null data becomes the empty list. Otherwise length and order are kept, and each question is kept with `formattedCreatedAt = formatDate(created_at)`. |
| HomePage.Fallback | pages/index.tsx:105-113 | The catch block gives no questions, no answers and an error: the message for an Error instance, otherwise the fixed fallback. |
| HomePage.FoldAnswersLastWins | pages/index.tsx:91-96 | The fold keeps the existing keys and adds exactly the rows' question ids. Each such key holds the last row's answer. Other keys keep their values. |
| HomePage.AnswerMapLastWriteWins | pages/index.tsx:90-96 | The answers map has a key for exactly the question ids in the rows. For duplicate ids the later row wins. |
| HomePage.SignedOutSkipsAnswers | pages/index.tsx:81-82 | With no signed-in user, only the questions are queried and the answers map is empty. |
| HomePage.SuccessKeepsQuestions | pages/index.tsx:72-104 | On success there is no error field. Every queried question appears in order, decorated, and a signed-in user gets the folded answers. |
| HomePage.AnyFailureFallsBack | pages/index.tsx:67-113 | There is an error exactly when the questions query or a made answers query fails. The page then has no questions and no answers. |
| Api.Scaled | lib/api.ts:30-31 | `Math.floor(Math.random() * k)` lies in [0, k). |
| Api.Normalize | lib/api.ts:26-31 | Duration lies in [5, 24] and views in [100, 2099]. |
| Api.NormalizeFaithful | lib/api.ts:26-29 | The id becomes text that reads back as the id. Content, difficulty and carried fields are kept. Type 1, and only type 1, becomes `'frontend'`; everything else becomes `'backend'`. |
| Api.NonArrayIsEmpty | lib/api.ts:24 | A `content` that is not an array, or is missing, yields the empty list. |
| Api.GetQuestions | lib/api.ts:20-38 | A failed request gives the ten mock questions, and so does an array with a null item. An array without null items gives one question per item. Anything that is not an array gives none. |
| Api.ListNormalized | lib/api.ts:24-32 | An array without null items gives a list of the same length. Element i is item i normalised with draws 2i and 2i+1: its id is the item's id as text and reads back as it; content, difficulty and the carried fields are kept; the type is tagged; duration and views are bounded. |
| Api.EveryQuestionTimed | lib/api.ts:20-38 | Whichever path produces the list (received, mock or empty), every question on it has a duration and a view count. |
| Api.ListFallsBackToMocks | lib/api.ts:33-37 | A failed list request, or a null item that makes the mapping throw, yields exactly the mock list. |
| Api.MockQuestions | lib/api.ts:63-146 | The mock list has 10 questions with ids "1" to "10", each with a duration and a view count. |
| Api.MockIdsDistinct | lib/api.ts:63-146 | The mock questions have distinct ids. |
| Api.GetQuestionById | lib/api.ts:43-58 | The result is a question exactly when the body is one. Its duration lies in [5, 24] and its views in [100, 2099]. |
| Api.ByIdMatchesList | lib/api.ts:43-58 | The single-question request normalises a question exactly as the list request normalises the first element of an array. |
| Api.ByIdNullOnFailure | lib/api.ts:43-58 | The single-question request yields a question exactly when the body is a question. A failed request or a null body yields null. |
| QuestionListFlow.Receive | lib/api.ts:20-24 | The client gets a response exactly for a 2xx status, and otherwise a failed request. A 2xx body never yields an array, because neither the envelope nor a bare `{message}` has a top-level `content`. |
| QuestionListFlow.ListShowsNothing | lib/api.ts:20-37 | As written, a successful GET reaches the client as no questions, whatever rows the store returned. A non-GET request or a query error reaches it as the mock list. |
| QuestionListFlow.OneRowLost | lib/api.ts:24 | For a GET whose query returns one question, the client as written shows nothing. The client reading the nested key shows that question. |
| QuestionListFlow.ReceiveNested | lib/api.ts:20-24 | With `response.data?.data?.content` read instead, the client gets an array exactly when a 2xx envelope carries one, and the array is the route's rows unchanged. |
| QuestionListFlow.NestedListReachesClient | lib/api.ts:20-37 | Reading the nested key, a GET answered with rows without nulls shows one question per row, in order. Each id reads back as the row's id; content, difficulty and carried fields are kept; the type is tagged; duration and views are bounded. A non-GET request or a query error shows the mock list, and null rows give the empty list. |
| ApiResponse.SuccessResponse | lib/api-response.ts:5-16 | HTTP status 200 equals the body's `statusCode`. The data is carried and `error` is null. The message is `'success'` when omitted. |
| ApiResponse.ErrorResponse | lib/api-response.ts:19-31 | HTTP status equals the body's `statusCode` and data is null. `error` is the error argument when it is truthy, otherwise the message. |
| DateUtils.FormatDate | lib/dateUtils.ts:7-19 | A date's text starts with its year and a dash. An Invalid Date gives `NaN-NaN-NaN`, and an exception gives `'未知日期'`. The full layout is stated by the round trip below. |
| DateUtils.PadStart | lib/dateUtils.ts:12-13 | Padding gives at least the target width. The original text is the suffix, and only the pad character precedes it. |
| DateUtils.TwoDigitsOfSmall | lib/dateUtils.ts:12-13 | A month (1-12) or day (1-31) padded to 2 takes exactly two characters and reads back as itself. |
| DateUtils.TwoDigitValuesUnpadded | lib/dateUtils.ts:12-13 | Two-digit values are unchanged by padding. |
| DateUtils.FormatDateRoundTrip | lib/dateUtils.ts:11-14 | The output is year, `-`, month (0-based plus 1), `-`, day, in that order. Reading it back gives the original date parts. |
| DateUtils.FormatDateOutcomesDistinct | lib/dateUtils.ts:8-18 | A valid date, an Invalid Date (`NaN-NaN-NaN`) and a thrown exception (`'未知日期'`) never give the same text. |
| Decimal.NatToString | lib/api.ts:28 | `String(n)` of a natural number is non-empty and made of digits. It has no leading zero unless n is 0, and has one character exactly when n < 10. |
| Decimal.IntToStringRoundTrip | lib/api.ts:28 | `String(i)` of an integer reads back as i. |

## Left out

- Supabase client construction, environment checks and auth. The signed-in user and every query or lookup result are inputs. `lib/supabase-client.ts` and `lib/supabase-server.ts` are not part of this model.
- The store's own work: the `created_at` ordering of the question queries, and id assignment, which is modelled as one more than the largest id. The table schemas are not modelled either: the home page reads the columns `answer` and `user_id` of `user_answers`, while the save route writes `question_id` and `content`, and each query's result is taken as given.
- UserAnswersApi.Handle: the `updated_at` timestamp written by the update is not modelled, because it comes from the clock.
- Request body fields that are not integers (a question id sent as a string, NaN) are not modelled. The question id is an optional integer and the content an optional string.
- JavaScript `Date` parsing and time zones. `formatDate` starts from the `Date`'s calendar parts, an Invalid Date, or a thrown exception.
- UserAnswersApi.SaveThenRead: requests are modelled one at a time. The lookup (`pages/api/user-answers.ts:24-28`) and the write (`:33-42`) are separate awaits. Two overlapping saves for a question with no row can both see no row and both insert. This check-then-insert race is not modelled, so the one-row-per-question promise covers saves that do not overlap.
- Decimal.NatToString: `String(n)` is modelled only for integers a JavaScript number holds exactly (|n| ≤ 2^53 − 1). Above that, `String` prints the shortest digits that round-trip the double, and from 10^21 on it uses exponent form (`1e+21`). Question ids outside the safe range are not modelled.
- Decimal.IntToStringRoundTrip: the read-back holds for the same safe-integer range only, for the reason above.
- Api.NormalizeFaithful: the id read-back holds for ids in the safe-integer range only, for the reason above.
- Api.Scaled: floating-point rounding of `Math.random() * k` is not modelled. The random value is an exact fraction.
- The markdown renderer, remark-gfm, the sanitiser and the highlighter are foreign libraries. Only the schema delta is modelled, as a list of attribute entries. What `['className']` permits is the sanitiser's own semantics.
- The "my answer" area (`handleTextChange`, `onAnswerChange`, the character counter), the fade-in timer, clipboard writes and console logging. These are UI side effects with no decision logic.
- `lib/tongyi.ts` and the AI-answer route (`pages/api/ai-answers/[questionId].ts`), which generates an answer and stores it in `ai_answers`, are not part of this model. Nothing in the modelled code calls them.
- Static presentational components, `_app`, `_document`, the login page and the Tailwind configuration.

## Findings

| source | as written | input that shows it | evidently intended | confidence | as-written member | corrected member |
|---|---|---|---|---|---|---|
| lib/api.ts:24 | `getQuestions` reads `response.data?.content`. The list route answers with the envelope `{statusCode, message, data: {content: rows}, error}` (pages/api/questions.ts:21, lib/api-response.ts:10-15), which has no top-level `content`, so every successful reply yields `[]`. | A GET whose query returns one question: the client shows no question. | Read `response.data?.data?.content`, so that the route's rows are shown, normalised and in order. | high; not executed | QuestionListFlow.ListShowsNothing, QuestionListFlow.OneRowLost | QuestionListFlow.ReceiveNested, QuestionListFlow.NestedListReachesClient |
