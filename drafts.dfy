/** Records shared by the two authoring pages (frontend/src/pages/CreateTest.js
    and frontend/src/pages/QuestionGenerator.js): the chosen file, a generated
    draft question, and the reply of the generation endpoint. */
module Drafts {
  import opened Wrappers

  /** A browser `File`: its name and its size in bytes. */
  datatype File = File(name: string, size: nat)

  /** A question as the generator returns it. Every field may be absent; the
      backend fills either `content` or `question_text`, and either `options`
      or the four `option_*` fields. */
  datatype Draft = Draft(
    content: Option<string>,
    questionText: Option<string>,
    options: Option<seq<string>>,
    optionA: Option<string>,
    optionB: Option<string>,
    optionC: Option<string>,
    optionD: Option<string>,
    correctAnswer: Option<string>,
    explanation: Option<string>,
    difficulty: Option<string>,
    questionType: Option<string>)

  /** JavaScript truthiness of an optional string: present and not `''`. */
  predicate Truthy(s: Option<string>)
  {
    s.Some? && s.value != ""
  }

  /** `a || b` on optional strings. */
  function Or(a: Option<string>, b: Option<string>): (r: Option<string>)
    ensures Truthy(r) <==> Truthy(a) || Truthy(b)
    ensures Truthy(a) ==> r == a
  {
    if Truthy(a) then a else b
  }

  /** `a || ''`: the text a form field shows. */
  function Shown(a: Option<string>): (s: string)
    ensures s == "" <==> !Truthy(a)
    ensures Truthy(a) ==> s == a.value
  {
    if Truthy(a) then a.value else ""
  }

  /** `arr[i]`: `undefined` past the end. */
  function At(arr: seq<string>, i: nat): (r: Option<string>)
    ensures r.Some? <==> i < |arr|
  {
    if i < |arr| then Some(arr[i]) else None
  }

  /** The answer of `POST /questions/generate` or `/generate-from-document`:
      a 2xx body with its `questions` (absent when the body has none), an error
      status with the body's `detail`, or a thrown network error. */
  datatype GenerationReply =
    | Generated(questions: Option<seq<Draft>>)
    | HttpError(detail: Option<string>)
    | NetworkError(message: string)
}
