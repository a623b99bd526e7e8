# Exam preparation app — verified model of its core logic

The application lets users take timed multiple-choice tests, review their
results, and author tests from typed topics or from an uploaded document. A
language model generates draft questions. Administrators moderate questions,
tests and users. The frontend is React over a Supabase backend; a FastAPI
service extracts document text, prompts the model and wraps sign-up and
sign-in.

This Dafny project models the logic of those pages and routers. Everything
remote is an input to the model: Supabase queries, `fetch` calls and the
identity provider's answers are passed in as success values or error
messages. Pure code becomes datatypes, functions and lemmas. Page state that
handlers update step by step becomes a class whose methods change only the
fields they name.

| file | module | models |
|---|---|---|
| `wrappers.dfy` | `Wrappers` | `Option` (null/undefined/None) and `Result` (value or thrown error) |
| `http.dfy` | `Http` | FastAPI's `HTTPException(status_code, detail)` |
| `strings.dfy` | `Strings` | `toLowerCase`/`lower`, `trim`/`strip`, `lstrip(chars)`, `split` on one character, "text after the last dot", the `\.[^/.]+$` stem, `toString` of a number |
| `take_test.dfy` | `TakeTest` | `frontend/src/pages/TakeTest.js`: test visibility, answer seeding, navigation, countdown, scoring, `formatTime`, the `Runner` page state |
| `test_results.dfy` | `TestResults` | `frontend/src/pages/TestResults.js`: answer status, score colour, correct count; relation to the runner's score |
| `auth_helpers.dfy` | `AuthHelpers` | `frontend/src/utils/authHelpers.js` over a `LocalStorage` map |
| `protected_route.dfy` | `ProtectedRoute` | `frontend/src/components/ProtectedRoute.js`: `checkUser` and the render decision |
| `drafts.dfy` | `Drafts` | the file and draft-question records and the generation reply shared by the two authoring pages; JavaScript's `or` operator and `or ''` default on optional strings |
| `create_test.dfy` | `CreateTest` | `frontend/src/pages/CreateTest.js`: allow-list, guards, topics, filename stem, draft-to-row mapping, the writes of `handleCreateTest`, the `TestForm` state |
| `question_generator.dfy` | `QuestionGenerator` | `frontend/src/pages/QuestionGenerator.js`: file checks, size units, revealed answers, draft editing, the `Generator` state |
| `admin_panel.dfy` | `AdminPanel` | `frontend/src/pages/AdminPanel.js`: the admin gate, the initial load, the list updates, the `Panel` state |
| `questions_router.dfy` | `QuestionsRouter` | `backend/routers/questions.py`: extractor dispatch, `question_types` fallback, length check, truncation, instruction precedence, code-fence cleaning |
| `auth_router.dfy` | `AuthRouter` | `backend/routers/auth.py`: the error classification of `register` and `login`, the session check, the live `check_supabase_connection`, the placeholder user |

Some behaviour of the code as written is stated as proved properties rather
than corrected:

- The countdown's `timeLeft <= 0` submit branch can never run (`TakeTest.CountdownEffect`).
- The review page can count fewer correct answers than the runner scored
  (`TestResults.ResultsCountVsRunner`).
- `lstrip("json")` strips a set of letters, so a fenced `null` loses its `n`
  (`QuestionsRouter.LetterSetQuirk`).
- Two of `register`'s error branches are dead (`AuthRouter.RegisterDeadBranches`).

The reply cleaning is written twice in `questions.py`, at lines 264-268 and
313-319. The two copies are identical, and `QuestionsRouter.CleanResponse`
models both.

## Model

| member | source | states |
|---|---|---|
| Strings.Lower | frontend/src/pages/TakeTest.js:149 | lower-casing keeps the length and folds each character on its own |
| Strings.Trim | frontend/src/pages/CreateTest.js:85 | the result is no longer than the input, has no whitespace at either end, is empty iff the input is all whitespace, and holds only characters of the input |
| Strings.LStripChars | backend/routers/questions.py:268 | `lstrip(chars)` removes a leading run of characters from the set and stops at the first one outside it |
| Strings.Split | frontend/src/pages/CreateTest.js:85 | a split always has at least one part |
| Strings.JoinSplit | frontend/src/pages/CreateTest.js:85 | joining the parts of a split with the separator gives back the text |
| Strings.SplitPartsFree | frontend/src/pages/CreateTest.js:85 | no part of a split contains the separator |
| Strings.SplitSingle | frontend/src/pages/CreateTest.js:85 | a split has exactly one part iff the separator does not occur |
| Strings.SplitAround | frontend/src/pages/CreateTest.js:85 | splitting `a + sep + b` gives the parts of `a` followed by the parts of `b` |
| Strings.AfterLast | frontend/src/pages/CreateTest.js:33 | the text after the last `c` holds no `c` and is preceded by a `c` unless it is the whole text |
| Strings.AfterLastIsLastPart | frontend/src/pages/CreateTest.js:33 | `split(c).pop()` is the text after the last `c`, or all of it when there is none |
| Strings.FileExtension | frontend/src/pages/QuestionGenerator.js:54 | the extension tested contains no dot |
| Strings.StripExtensionSpec | frontend/src/pages/CreateTest.js:131 | the stem differs from the name iff the name ends in `.ext` with a non-empty `ext` free of `.` and `/`; then exactly that ending is removed |
| Strings.DecimalDigits | frontend/src/pages/TakeTest.js:115 | `toString()` of a natural number gives at least one decimal digit, exactly one below 10, and no leading zero from 10 on |
| Strings.DecimalRoundTrip | frontend/src/pages/TakeTest.js:115 | reading back the decimal digits gives the number |
| TakeTest.VisibleIff | frontend/src/pages/TakeTest.js:34-54 | a test row is returned iff it is published, or the viewer is signed in and is an admin or its owner |
| TakeTest.InitialAnswers | frontend/src/pages/TakeTest.js:79-83 | the seeded answers have exactly the question ids as keys, each mapped to `''` |
| TakeTest.NextIndex | frontend/src/pages/TakeTest.js:127-131 | the index moves up by one iff it is below the last index, and stays in range |
| TakeTest.PreviousIndex | frontend/src/pages/TakeTest.js:133-137 | the index moves down by one iff it is above 0, and stays in range |
| TakeTest.CountdownEffect | frontend/src/pages/TakeTest.js:97-109 | a tick is scheduled iff the time left is positive and the test is not submitted; the automatic submit is never triggered |
| TakeTest.CountdownFrom | frontend/src/pages/TakeTest.js:97-102 | from `t > 0` seconds, `k` ticks leave `t - k` seconds, never below 0; at 0 no tick is scheduled and nothing is submitted |
| TakeTest.SubmittedStopsCountdown | frontend/src/pages/TakeTest.js:98 | once submitted, the time left never changes |
| TakeTest.CorrectCount | frontend/src/pages/TakeTest.js:145-152 | the correct count never exceeds the number of questions |
| TakeTest.CountCorrect | frontend/src/pages/TakeTest.js:145-152 | the counting loop computes the correct count, at most one per question |
| TakeTest.Score | frontend/src/pages/TakeTest.js:154 | with at least one question the score is in [0, 100]; it is 100 iff all answers are correct and 0 iff none is |
| TakeTest.CorrectCountExtremes | frontend/src/pages/TakeTest.js:148-152 | the count equals the number of questions iff every question matches, and is 0 iff none does |
| TakeTest.ScoreExtremes | frontend/src/pages/TakeTest.js:145-154 | full marks iff every lower-cased answer equals the lower-cased key; zero iff none does |
| TakeTest.CountIgnoresCase | frontend/src/pages/TakeTest.js:149 | answers that agree after lower-casing give the same count |
| TakeTest.Pad2 | frontend/src/pages/TakeTest.js:115 | `padStart(2, '0')` of `toString()` gives at least two digits denoting the number, exactly two below 100, and no leading zero when longer than two |
| TakeTest.FormatTime | frontend/src/pages/TakeTest.js:112-116 | the clock text has at least five characters with `:` before the last two |
| TakeTest.FormatTimeRoundTrip | frontend/src/pages/TakeTest.js:112-116 | splitting the clock at `:` gives a minutes part of at least two digits, zero-padded only up to two (7200 seconds read `120`), and exactly two seconds digits below 60; minutes * 60 + seconds is the input |
| TakeTest.Runner.constructor | frontend/src/pages/TakeTest.js:9-16 | the initial state: no test, no questions, index 0, no answers, no timer, loading |
| TakeTest.Runner.View | frontend/src/pages/TakeTest.js:184-210 | the question screen, and with it the Submit button, is shown only with a test, at least one question and no error, so the score never divides by zero |
| TakeTest.Runner.Load | frontend/src/pages/TakeTest.js:19-94 | a query error or an invisible row sets the error; otherwise the row is kept, a non-zero time limit starts the timer at limit * 60 seconds, and fetched questions are seeded with `''` answers; on the three error paths the answers are left as they were |
| TakeTest.Runner.AnswerChange | frontend/src/pages/TakeTest.js:119-124 | the answer for one id is overwritten without validation and every other entry is kept |
| TakeTest.Runner.GoToNextQuestion | frontend/src/pages/TakeTest.js:127-131 | the index follows `NextIndex`; the answers are untouched |
| TakeTest.Runner.GoToPreviousQuestion | frontend/src/pages/TakeTest.js:133-137 | the index follows `PreviousIndex`; the answers are untouched |
| TakeTest.Runner.Tick | frontend/src/pages/TakeTest.js:100-102 | each tick lowers the time left by exactly one second |
| TakeTest.Runner.SubmitTest | frontend/src/pages/TakeTest.js:140-182 | a result is saved iff a user is signed in and the insert succeeds; it carries the exact score of the current answers; otherwise the error is shown and the test stays unsubmitted |
| TestResults.AnswerStatus | frontend/src/pages/TestResults.js:76-80 | exactly one status: unanswered iff the answer is empty, else correct iff it matches the key ignoring case |
| TestResults.MissingAnswerIsUnanswered | frontend/src/pages/TestResults.js:163 | a question with no stored answer is reported unanswered |
| TestResults.ColorOf | frontend/src/pages/TestResults.js:70-74 | success at 80 or more, warning from 60 below 80, danger below 60 |
| TestResults.ColorMonotone | frontend/src/pages/TestResults.js:70-74 | a higher score never gets a worse colour |
| TestResults.ResultsCorrectCount | frontend/src/pages/TestResults.js:149-151 | the displayed correct count is between 0 and the number of questions |
| TestResults.StatusAgreesWithRunner | frontend/src/pages/TestResults.js:76-80 | a question is shown correct iff the runner counted it and the answer is not an empty answer meeting an empty key |
| TestResults.ResultsCountVsRunner | frontend/src/pages/TestResults.js:149-151 | the displayed count is the runner's count less the empty-meets-empty questions, so never larger |
| TestResults.HalfMarksExample | frontend/src/pages/TestResults.js:76-80 | answers `a` and `''` against keys `A` and `B` score 50, and the second is shown unanswered |
| AuthHelpers.SessionUserWins | frontend/src/utils/authHelpers.js:18-20 | a session user is returned and storage is neither read nor changed |
| AuthHelpers.StoredUserFallback | frontend/src/utils/authHelpers.js:25-28 | without a session user, a stored record that parses is returned as parsed |
| AuthHelpers.CorruptedRecordRemoved | frontend/src/utils/authHelpers.js:29-34 | a stored record that fails to parse is removed and nothing is returned |
| AuthHelpers.NoIdentityAnywhere | frontend/src/utils/authHelpers.js:25-34 | with no session user and no stored record the result is null and storage is unchanged |
| AuthHelpers.Cleared | frontend/src/utils/authHelpers.js:41-58 | after logging out, `user` and every `sb-` key are gone and every other key keeps its value |
| AuthHelpers.ClearedIdempotent | frontend/src/utils/authHelpers.js:41-58 | logging out twice leaves the same storage as logging out once |
| AuthHelpers.ClearedResolvesToNull | frontend/src/utils/authHelpers.js:25-34 | after logging out, without a session user the identity is null and storage is untouched |
| AuthHelpers.ClearedKeepsTheme | frontend/src/utils/authHelpers.js:53-57 | a `theme` entry survives logging out unchanged |
| AuthHelpers.LocalStorage.GetCurrentUser | frontend/src/utils/authHelpers.js:13-35 | the user returned and the storage left are those of `ResolveUser` |
| AuthHelpers.LocalStorage.ClearStoredUser | frontend/src/utils/authHelpers.js:41-58 | the key loop leaves exactly the `Cleared` storage, whether or not the sign-out throws |
| ProtectedRoute.AdminFlag | frontend/src/components/ProtectedRoute.js:17-26 | the admin flag is set iff the lookup returned a profile with a truthy `is_admin` |
| ProtectedRoute.Decide | frontend/src/components/ProtectedRoute.js:34-46 | the loading view iff loading; the login redirect iff no user; children for any user of a plain route; the dashboard redirect iff a non-admin on an admin route |
| ProtectedRoute.AdminGateFailsClosed | frontend/src/components/ProtectedRoute.js:13-46 | an admin route renders iff the user has an id and the lookup returned a truthy `is_admin`; any other signed-in user is sent to the dashboard, never to the login page |
| ProtectedRoute.PlainGate | frontend/src/components/ProtectedRoute.js:34-46 | a plain route renders for any user and redirects to the login page otherwise |
| ProtectedRoute.Gate.constructor | frontend/src/components/ProtectedRoute.js:7-9 | the initial state: no user, loading, not admin |
| ProtectedRoute.Gate.CheckUser | frontend/src/components/ProtectedRoute.js:12-29 | the user is resolved through `getCurrentUser`; the profile is read iff the route is admin-only and the user has an id; loading ends with the settled decision |
| Drafts.Or | frontend/src/pages/CreateTest.js:163 | `a` or `b` is truthy iff either is, and is `a` when `a` is truthy |
| Drafts.Shown | frontend/src/pages/QuestionGenerator.js:341 | `a` or `''` is empty iff `a` is falsy, and is `a` otherwise |
| Drafts.At | frontend/src/pages/CreateTest.js:164 | indexing an array is defined iff the index is below its length |
| CreateTest.AcceptsLastPart | frontend/src/pages/CreateTest.js:33-36 | a document is accepted iff the lower-cased last `.`-separated part of its name is pdf, doc, docx, ppt or pptx |
| CreateTest.NoDotWholeName | frontend/src/pages/CreateTest.js:33-36 | a name without a dot is judged as a whole |
| CreateTest.RequestTopics | frontend/src/pages/CreateTest.js:85 | one entry per comma-separated part, entry i being part i trimmed; entries are comma-free and may be empty |
| CreateTest.RequestTopicsAround | frontend/src/pages/CreateTest.js:85 | the entries of `a,b` are those of `a` followed by those of `b` |
| CreateTest.NonEmptyOnly | frontend/src/pages/CreateTest.js:132 | the filter keeps exactly the non-empty entries and changes a list without empty entries not at all |
| CreateTest.NonEmptyOnlySingle | frontend/src/pages/CreateTest.js:132 | one entry is dropped iff it is empty |
| CreateTest.NonEmptyOnlyAppend | frontend/src/pages/CreateTest.js:132 | filtering a concatenation concatenates the filtered halves, so order and repeats are kept |
| CreateTest.CreateTopics | frontend/src/pages/CreateTest.js:132 | the stored topics are non-empty and comma-free, and are exactly the non-empty trimmed parts |
| CreateTest.CreateTopicsAround | frontend/src/pages/CreateTest.js:132 | the stored topics of `a,b` are those of `a` followed by those of `b`; with `SingleTopic` this fixes the ordered list for every input |
| CreateTest.SingleTopic | frontend/src/pages/CreateTest.js:130-132 | without a comma the request carries one trimmed topic, and the stored list is that topic or empty when it is blank |
| CreateTest.DocumentTopic | frontend/src/pages/CreateTest.js:130-131 | in document mode the topic list is the single filename stem |
| CreateTest.GenerateRefusal | frontend/src/pages/CreateTest.js:47-57 | generation is refused iff in document mode there is no file, or in topic mode the title or topics are empty; with the matching message |
| CreateTest.CreateRefusal | frontend/src/pages/CreateTest.js:115-123 | creation is refused iff the title is empty or, in topic mode, the topics are; the title is reported first |
| CreateTest.TopicGenerationImpliesCreation | frontend/src/pages/CreateTest.js:115-123 | in topic mode whatever may be generated may also be created |
| CreateTest.DraftToRow | frontend/src/pages/CreateTest.js:161-173 | the row is approved and attached to the test; text is `content`, or `question_text` when `content` is falsy; when `options` is present `option_a..d` are its elements 0 to 3, undefined past its end (a two-option true/false draft leaves `option_c` and `option_d` undefined), otherwise the draft's own `option_*`; answer, explanation and type are copied; difficulty falls back to the form's |
| CreateTest.DraftsToRows | frontend/src/pages/CreateTest.js:160-173 | one row per draft, in order, all approved and attached to the test |
| CreateTest.Issue | frontend/src/pages/CreateTest.js:135-180 | the test row, published and owned by the user, is always the first write |
| CreateTest.RefusalWritesNothing | frontend/src/pages/CreateTest.js:114-147 | the form is refused iff the guard fails, and nothing is written iff it is refused or no user is signed in |
| CreateTest.CreatedTestShape | frontend/src/pages/CreateTest.js:130-180 | a created test is its row, then its topics, then one approved row per draft iff there are drafts |
| CreateTest.NoRollback | frontend/src/pages/CreateTest.js:135-183 | whenever anything was written, the published test row was, even if a later step failed |
| CreateTest.TestForm.constructor | frontend/src/pages/CreateTest.js:7-18 | the initial form: empty texts, medium difficulty, 10 questions, 60 minutes, no drafts, no file, topic mode |
| CreateTest.TestForm.FileChange | frontend/src/pages/CreateTest.js:30-44 | a rejected document sets the error and keeps the selected file; an accepted one replaces it and clears the error |
| CreateTest.TestForm.SetUseDocument | frontend/src/pages/CreateTest.js:227-232 | switching to document mode clears the typed topics |
| CreateTest.TestForm.GenerateQuestions | frontend/src/pages/CreateTest.js:46-112 | no request iff the guard refuses; otherwise the document or topic request and the drafts or error the reply gives |
| CreateTest.TestForm.CreateTest | frontend/src/pages/CreateTest.js:114-188 | the writes and the error follow `CreatePlan`; the page navigates iff the test was created |
| QuestionGenerator.CheckFile | frontend/src/pages/QuestionGenerator.js:51-64 | unsupported iff the extension is not among the ten; too large iff supported and over 10 MiB; accepted otherwise |
| QuestionGenerator.SizeLimitInclusive | frontend/src/pages/QuestionGenerator.js:61-64 | exactly 10 MiB passes and one byte more does not; an unsupported file is reported as such whatever its size |
| QuestionGenerator.FormDocumentsAccepted | frontend/src/pages/QuestionGenerator.js:20-21 | every document the test form accepts passes here too, within the size cap |
| QuestionGenerator.FormatFileSize | frontend/src/pages/QuestionGenerator.js:135-138 | B below 1024 bytes, KB below 1024², MB otherwise; the amount times the unit is the size |
| QuestionGenerator.Toggled | frontend/src/pages/QuestionGenerator.js:113-118 | toggling negates the truthiness of one index and leaves the others |
| QuestionGenerator.ToggleTwice | frontend/src/pages/QuestionGenerator.js:113-118 | toggling twice restores what is shown for every index |
| QuestionGenerator.EditText | frontend/src/pages/QuestionGenerator.js:342-346 | typing sets `content` and `question_text` to the same text and changes nothing else |
| QuestionGenerator.EditedTextIsKept | frontend/src/pages/QuestionGenerator.js:341-346 | the box shows what was typed, and a test created from the draft stores exactly that text |
| QuestionGenerator.EditOption | frontend/src/pages/QuestionGenerator.js:358-362 | only the edited option changes |
| QuestionGenerator.EditCorrectAnswer | frontend/src/pages/QuestionGenerator.js:371-375 | the answer box shows what was typed and nothing else changes |
| QuestionGenerator.EditExplanation | frontend/src/pages/QuestionGenerator.js:384-388 | the explanation box shows what was typed and nothing else changes |
| QuestionGenerator.Generator.constructor | frontend/src/pages/QuestionGenerator.js:8-16 | the initial page state |
| QuestionGenerator.Generator.FileSelect | frontend/src/pages/QuestionGenerator.js:51-70 | no file is a no-op; a rejected file only sets the error; an accepted one is selected and clears the error, the drafts and the revealed answers |
| QuestionGenerator.Generator.GenerateQuestions | frontend/src/pages/QuestionGenerator.js:77-111 | no request without a file; otherwise the upload sent and the drafts or error the reply gives |
| QuestionGenerator.Generator.ToggleAnswer | frontend/src/pages/QuestionGenerator.js:113-118 | the revealed map becomes `Toggled` of the old one |
| QuestionGenerator.Generator.EditQuestion | frontend/src/pages/QuestionGenerator.js:120-123 | the modal opens on the question and its index |
| QuestionGenerator.Generator.ChangeText | frontend/src/pages/QuestionGenerator.js:342-346 | the edited draft becomes `EditText` of the old one |
| QuestionGenerator.Generator.SaveEdit | frontend/src/pages/QuestionGenerator.js:125-133 | only the element at the edited index is replaced and the length is kept; nothing happens when nothing is being edited |
| AdminPanel.RemoveById | frontend/src/pages/AdminPanel.js:97 | exactly the entries with the id are removed, the others kept |
| AdminPanel.RemoveByIdAppend | frontend/src/pages/AdminPanel.js:97 | removal works piecewise, so the kept entries stay in order |
| AdminPanel.RemoveByIdIdempotent | frontend/src/pages/AdminPanel.js:114 | removing the same id twice changes nothing more |
| AdminPanel.SetPublished | frontend/src/pages/AdminPanel.js:131-133 | only tests with the id get the new flag; the length and other tests are unchanged |
| AdminPanel.PublishTwiceRestores | frontend/src/pages/AdminPanel.js:121-133 | with the flag the button passes, publishing flips the test, and doing it again restores the list |
| AdminPanel.SetAdmin | frontend/src/pages/AdminPanel.js:150-152 | only users with the id get the new flag; the length and other users are unchanged |
| AdminPanel.ToggleAdminTwiceRestores | frontend/src/pages/AdminPanel.js:140-152 | toggling a user's admin flag twice restores the list |
| AdminPanel.GateError | frontend/src/pages/AdminPanel.js:16-34 | the gate passes iff a user is present and the profile read returned a truthy `is_admin`; otherwise its message |
| AdminPanel.Panel.constructor | frontend/src/pages/AdminPanel.js:6-11 | the initial state: loading, no error, not admin, empty lists |
| AdminPanel.Panel.CheckAdminStatus | frontend/src/pages/AdminPanel.js:16-85 | data is loaded only after the gate passes; the first failed read stops the load and records its message |
| AdminPanel.Panel.ApproveQuestion | frontend/src/pages/AdminPanel.js:87-102 | on success the question leaves the pending list; on error the list is unchanged and the error recorded |
| AdminPanel.Panel.RejectQuestion | frontend/src/pages/AdminPanel.js:104-119 | on success the question leaves the pending list; on error the list is unchanged and the error recorded |
| AdminPanel.Panel.PublishTest | frontend/src/pages/AdminPanel.js:121-138 | on success the test list becomes `SetPublished`; on error it is unchanged and the error recorded |
| AdminPanel.Panel.ToggleAdmin | frontend/src/pages/AdminPanel.js:140-157 | on success the user list becomes `SetAdmin`; on error it is unchanged and the error recorded |
| QuestionsRouter.ExtractorFor | backend/routers/questions.py:158-172 | each of the ten extensions goes to one extractor (spreadsheets keep theirs); anything else is a 400 naming it |
| QuestionsRouter.DispatchMatchesFrontend | backend/routers/questions.py:156-172 | the backend dispatches exactly what the generator page accepts, and every test-form document; the extension is the lower-cased last `.`-part |
| QuestionsRouter.SupportedEverywhere | backend/routers/questions.py:158-167 | the dispatched extensions are the generator page's ten and include the test form's five |
| QuestionsRouter.QuestionTypes | backend/routers/questions.py:186-189 | a `question_types` text that fails to parse becomes `['multiple_choice', 'true_false']` |
| QuestionsRouter.InstructionFor | backend/routers/questions.py:212-234 | `open_ended` beats `true_false`, which beats the multiple-choice default |
| QuestionsRouter.DefaultIsTrueFalse | backend/routers/questions.py:186-227 | the default list, which the test form always sends, yields the true/false instruction |
| QuestionsRouter.TooShortIsStrippedLength | backend/routers/questions.py:200-204 | the text is rejected iff its stripped length is under 100; trailing whitespace never helps |
| QuestionsRouter.TrimSpaceSuffix | backend/routers/questions.py:200 | `strip()` removes appended whitespace |
| QuestionsRouter.Truncate | backend/routers/questions.py:207-209 | text over 10000 characters becomes its first 10000 plus `... [truncated]`; shorter text is unchanged |
| QuestionsRouter.TruncateIdempotent | backend/routers/questions.py:207-209 | truncating twice is truncating once |
| QuestionsRouter.PreparePrompt | backend/routers/questions.py:186-234 | an unsupported extension or a failed extraction gives its error, a short text gives 400; otherwise the prompt holds exactly the truncated text and the instruction for the requested types |
| QuestionsRouter.UpToFence | backend/routers/questions.py:267 | the part before the first fence holds no fence and is followed by one unless it is the whole text |
| QuestionsRouter.UpToFenceAt | backend/routers/questions.py:267 | the part before the first fence ends where the first fence starts |
| QuestionsRouter.CleanResponse | backend/routers/questions.py:264-268 | a reply not starting with a fence is only stripped |
| QuestionsRouter.ClosingFenceFirst | backend/routers/questions.py:267 | in a fenced `json` block the closing fence is the first one |
| QuestionsRouter.TagStripped | backend/routers/questions.py:268 | `lstrip("json")` removes the tag and stops at the newline |
| QuestionsRouter.TrimNewlines | backend/routers/questions.py:268 | the newline on each side of the payload is stripped, nothing more |
| QuestionsRouter.FencedJsonRoundTrip | backend/routers/questions.py:264-268 | a payload wrapped in a fenced `json` block comes back exactly, whatever letters it starts with, if it holds no fence and has no whitespace at its ends |
| QuestionsRouter.FenceAfterPayload | backend/routers/questions.py:267 | a payload without fences, not ending in a backtick, is cut exactly at the fence after it |
| QuestionsRouter.UnlabelledFence | backend/routers/questions.py:266-268 | a reply fenced without a language line loses the leading letters of its payload that are in {j, s, o, n} |
| QuestionsRouter.NullLosesItsN | backend/routers/questions.py:268 | `"null".lstrip("json")` is `"ull"` |
| QuestionsRouter.LetterSetQuirk | backend/routers/questions.py:266-268 | a reply of `null` between two fences is cleaned to `ull` |
| AuthRouter.CurrentActiveUser | backend/routers/auth.py:57-64 | always the placeholder user `dummy_user_id` / `user@example.com` |
| AuthRouter.CheckSupabaseConnection | backend/routers/auth.py:161-165 | the live connection check passes iff a client exists |
| AuthRouter.RegisterOuter | backend/routers/auth.py:149-159 | the outer handler gives 503 with its connection detail iff the message names `getaddrinfo failed` or `11001`, and 400 with the message otherwise |
| AuthRouter.RegisterSignUpError | backend/routers/auth.py:119-159 | an existing account gives 400 with its detail; otherwise name resolution gives 503 with the unreachable detail, then a timeout 503 with the registration time-out detail; any other message gives 400 with the message |
| AuthRouter.Register | backend/routers/auth.py:94-159 | no client gives 503; success iff `sign_up` returned a response, with the success message and the response's user; a throw is classified as above; no response gives 400 |
| AuthRouter.RegisterDeadBranches | backend/routers/auth.py:97-159 | every 503 comes from the connection check or the inner handler: the second configuration check and the outer name-resolution 503 never fire |
| AuthRouter.LoginRuleFor | backend/routers/auth.py:191-230 | the first rule matching wins: credentials, name resolution, timeout, TLS, refused, generic |
| AuthRouter.LoginSignInError | backend/routers/auth.py:181-230 | 401 iff the message names bad credentials, 500 iff no rule matches, 503 otherwise; each 503 rule (name resolution with the class name and URL, timeout, TLS, refused) gives its own detail |
| AuthRouter.CredentialsWinOverTransport | backend/routers/auth.py:192-210 | a message naming bad credentials gives 401 even when it also names a timeout or a refusal |
| AuthRouter.LoginOuter | backend/routers/auth.py:245-266 | the outer handler gives only 401, 500 or 503: 503 with its detail iff name resolution or, past the credential test, a timeout; 401 with the message iff no name-resolution failure and bad credentials or an unconfirmed email; 500 with the message otherwise |
| AuthRouter.Login | backend/routers/auth.py:167-266 | no client gives 503; success iff a session was returned, with its tokens; a returned response without a session gives 401; a throw is classified by `LoginSignInError`, and a later failure by `LoginOuter` |
| AuthRouter.LoginStatuses | backend/routers/auth.py:167-266 | every failed login is a 401, a 500 or a 503 |

## Left out

- JSX rendering, routing, the navigation bar's auth subscription and the dark-mode toggle: they are presentation, not logic.
- Supabase queries, `fetch` calls, the FastAPI request parsing and the identity provider's SDK: their answers are inputs to the model (a value, an error message, or a thrown error).
- Timers, clocks and the asynchronous interleaving of handlers: one countdown tick is one call to `TakeTest.Runner.Tick`, and a handler runs to completion before the next starts.
- `Math.round`, `toFixed(2)` and the progress percentage: floating point display; scores and sizes are exact `real` values.
- Unicode case folding and whitespace: `toLowerCase`/`lower()` fold only `A`-`Z`, and `trim`/`strip` remove only space, tab, newline, carriage return, vertical tab and form feed. Python's `strip()` also removes the separators `\x1c`-`\x1f`, and both remove non-ASCII spaces; one whitespace set serves both languages here.
- `JSON.parse` and `json.loads`: a parse function passed in (a parsed user record or a failure; a list of question types or a failure); `json.loads` of the cleaned reply is not modelled.
- The text extractors (PDF, Word, slides, spreadsheets, OCR), their own error messages, and the language-model call: foreign libraries, so extraction is a function passed to `QuestionsRouter.PreparePrompt`.
- QuestionsRouter.PreparePrompt: `questions.py` never imports `time` or `genai`. As written, `/generate-from-document` fails at line 182 and `/generate` fails at line 308. The model describes the steps after those names.
- `questions.py`'s own `create` and `test/{test_id}` endpoints, `auth.py`'s `logout`, `reset-password` and `test-connection`: pass-throughs to the database or the identity provider with a generic error.
- AuthRouter.CheckSupabaseConnection: the first, DNS-resolving definition in `auth.py` is replaced by the later one at import, so it never runs and is not modelled.
- AuthRouter.Register: an exception raised after `sign_up` returned (for instance while reading `response.user`) is not modelled.
- AuthRouter.Login: the outer handler is reached only through an abstract later failure; the details of what raises it are not modelled.
- A null `correct_answer`: the model takes the key to be a string always. A null key makes `TestResults.js` throw at line 78; that case is not modelled.
- TakeTest.FormatTime: defined on non-negative seconds only; a negative time left is never counted down but would be formatted.
- TakeTest.Runner.Load: the first load on mount only. A change of the test id re-runs the fetch without resetting the question index.
- The `tests` row read by the runner names its limit `time_limit` while the form writes `time_limit_minutes`; both are kept as the code has them.
- The results page's fetch of the test, the latest result and the questions is network glue, and so is the page's render.
- QuestionGenerator.Generator.EditQuestion: the page stores `{...question, index}`, so a saved draft also carries an `index` key; the draft record here has no such field.
- QuestionGenerator.Generator.SaveEdit: requires the edited index to be inside the list, as it always is when the index comes from the rendered list; an out-of-range assignment that would grow a JavaScript array is not modelled.
- QuestionGenerator.FormatFileSize: states the unit and the exact amount, not the two-decimal text.
- The generation reply's `data.questions` is taken as a list of drafts or absent; a non-list value is not modelled.
- The other pages (dashboard, home, login, sign-up) and the client set-up: network calls and local-storage writes with no further logic.
