/** The test authoring form (frontend/src/pages/CreateTest.js): the document
    allow-list, the validation of both actions, topic parsing, the filename
    stem used as topic, and the draft-to-row mapping of the created test. */
module CreateTest {
  import opened Wrappers
  import opened Strings
  import opened Drafts
  import TakeTest

  // ---------------------------------------------------------------------------
  // Choosing a document
  // ---------------------------------------------------------------------------

  const DocumentExtensions: set<string> := {"pdf", "doc", "docx", "ppt", "pptx"}

  const BadDocumentError: string := "Please upload a PDF, Word document (DOC/DOCX), or PowerPoint (PPT/PPTX) file"

  /** `allowedExtensions.includes(file.name.split('.').pop().toLowerCase())`. */
  predicate AcceptsDocument(name: string)
  {
    FileExtension(name) in DocumentExtensions
  }

  /** The extension tested is exactly the lower-cased last `.`-separated part. */
  lemma AcceptsLastPart(name: string)
    ensures var parts := Split(name, '.');
      AcceptsDocument(name) <==> Lower(parts[|parts| - 1]) in DocumentExtensions
  {
    AfterLastIsLastPart(name, '.');
  }

  /** A name without any dot is judged as a whole: a file called `PDF` passes. */
  lemma NoDotWholeName(name: string)
    requires '.' !in name
    ensures AcceptsDocument(name) <==> Lower(name) in DocumentExtensions
  {
    AfterLastWhole(name, '.');
  }

  // ---------------------------------------------------------------------------
  // Topics
  // ---------------------------------------------------------------------------

  /** `topics.split(',').map(topic => topic.trim())`, the list sent with a
      generation request: every comma starts a new entry, entries may be empty. */
  function RequestTopics(topics: string): (r: seq<string>)
    ensures |r| == |Split(topics, ',')| >= 1
    ensures forall i :: 0 <= i < |r| ==> ',' !in r[i] && (r[i] == [] || (!IsSpace(r[i][0]) && !IsSpace(r[i][|r[i]| - 1])))
    ensures forall i :: 0 <= i < |r| ==> r[i] == Trim(Split(topics, ',')[i])
  {
    var parts := Split(topics, ',');
    SplitPartsFree(topics, ',');
    seq(|parts|, i requires 0 <= i < |parts| => Trim(parts[i]))
  }

  /** `.filter(t => t.length > 0)`. */
  function NonEmptyOnly(xs: seq<string>): (r: seq<string>)
    ensures |r| <= |xs|
    ensures forall i :: 0 <= i < |r| ==> r[i] != ""
    ensures forall x :: x in r <==> x in xs && x != ""
    ensures (forall i :: 0 <= i < |xs| ==> xs[i] != "") ==> r == xs
  {
    if xs == [] then []
    else if xs[0] == "" then NonEmptyOnly(xs[1..])
    else [xs[0]] + NonEmptyOnly(xs[1..])
  }

  /** Each comma separates the entries before it from those after it. */
  lemma {:induction false} RequestTopicsAround(a: string, b: string)
    ensures RequestTopics(a + "," + b) == RequestTopics(a) + RequestTopics(b)
  {
    SplitAround(a, ',', b);
    assert a + "," + b == a + [','] + b;
  }

  /** The filter works entry by entry: an empty entry is dropped, any other
      kept. */
  lemma NonEmptyOnlySingle(x: string)
    ensures NonEmptyOnly([x]) == if x == "" then [] else [x]
  {
    assert [x][1..] == [];
  }

  /** The filter keeps order: filtering a concatenation concatenates the
      filtered halves. */
  lemma {:induction false} NonEmptyOnlyAppend(xs: seq<string>, ys: seq<string>)
    ensures NonEmptyOnly(xs + ys) == NonEmptyOnly(xs) + NonEmptyOnly(ys)
    decreases |xs|
  {
    if xs == [] {
      assert xs + ys == ys;
    } else {
      assert (xs + ys)[0] == xs[0];
      assert (xs + ys)[1..] == xs[1..] + ys;
      NonEmptyOnlyAppend(xs[1..], ys);
    }
  }

  /** The topic list stored with a test made from typed topics: split on `,`,
      trimmed, empty entries dropped. */
  function CreateTopics(topics: string): (r: seq<string>)
    ensures forall i :: 0 <= i < |r| ==> r[i] != "" && ',' !in r[i]
    ensures forall t :: t in r <==> t in RequestTopics(topics) && t != ""
  {
    var xs := RequestTopics(topics);
    var r := NonEmptyOnly(xs);
    assert forall i :: 0 <= i < |r| ==> r[i] in xs;
    r
  }

  /** The stored topics of `a,b` are those of `a` followed by those of `b`;
      with SingleTopic this fixes the list of every input, in order. */
  lemma CreateTopicsAround(a: string, b: string)
    ensures CreateTopics(a + "," + b) == CreateTopics(a) + CreateTopics(b)
  {
    RequestTopicsAround(a, b);
    NonEmptyOnlyAppend(RequestTopics(a), RequestTopics(b));
  }

  /** Without a comma there is one topic, unless the text is blank; then the
      request still carries one empty topic while the stored list is empty. */
  lemma SingleTopic(topics: string)
    requires ',' !in topics
    ensures RequestTopics(topics) == [Trim(topics)]
    ensures CreateTopics(topics) == (if Trim(topics) == "" then [] else [Trim(topics)])
  {
    SplitWhole(topics, ',');
  }

  /** The stored topic list: the filename stem in document mode with a file,
      otherwise the parsed topics. */
  function TopicsFor(useDocument: bool, file: Option<File>, topics: string): seq<string>
  {
    if useDocument && file.Some? then [StripExtension(file.value.name)] else CreateTopics(topics)
  }

  /** In document mode the topic list is one element: the filename with its
      final `.ext` removed (ext non-empty, free of `.` and `/`), or the whole
      name when it has no such ending. */
  lemma DocumentTopic(file: File, topics: string)
    ensures var r := TopicsFor(true, Some(file), topics);
      && |r| == 1
      && (r[0] == file.name <==> forall k :: !ExtensionAt(file.name, k))
      && (r[0] != file.name ==> ExtensionAt(file.name, |r[0]|) && r[0] == file.name[..|r[0]|])
  {
    StripExtensionSpec(file.name);
  }

  // ---------------------------------------------------------------------------
  // Validation
  // ---------------------------------------------------------------------------

  const NoDocumentError: string := "Please select a document file"
  const TitleAndTopicError: string := "Please provide a title and at least one topic"
  const NoTitleError: string := "Please provide a test title"
  const NoTopicError: string := "Please provide at least one topic or upload a document"

  /** The guard of `handleGenerateQuestions`: the message it refuses with, if any. */
  function GenerateRefusal(useDocument: bool, hasFile: bool, title: string, topics: string): (r: Option<string>)
    ensures r.None? <==> (if useDocument then hasFile else title != "" && topics != "")
    ensures r.Some? ==> r.value == (if useDocument then NoDocumentError else TitleAndTopicError)
  {
    if useDocument then (if hasFile then None else Some(NoDocumentError))
    else if title == "" || topics == "" then Some(TitleAndTopicError)
    else None
  }

  /** The guard of `handleCreateTest`. A missing title is reported first. */
  function CreateRefusal(useDocument: bool, title: string, topics: string): (r: Option<string>)
    ensures r.None? <==> title != "" && (useDocument || topics != "")
    ensures title == "" ==> r == Some(NoTitleError)
    ensures title != "" && r.Some? ==> r == Some(NoTopicError)
  {
    if title == "" then Some(NoTitleError)
    else if !useDocument && topics == "" then Some(NoTopicError)
    else None
  }

  /** In topic mode, whatever may be generated may also be created. */
  lemma TopicGenerationImpliesCreation(hasFile: bool, title: string, topics: string)
    requires GenerateRefusal(false, hasFile, title, topics).None?
    ensures CreateRefusal(false, title, topics).None?
  {
  }

  // ---------------------------------------------------------------------------
  // Rows written for a new test
  // ---------------------------------------------------------------------------

  /** A row of the `questions` table. */
  datatype QuestionRow = QuestionRow(
    testId: string,
    questionText: Option<string>,
    optionA: Option<string>,
    optionB: Option<string>,
    optionC: Option<string>,
    optionD: Option<string>,
    correctAnswer: Option<string>,
    explanation: Option<string>,
    difficulty: string,
    questionType: Option<string>,
    approved: bool)

  /** `q.options ? q.options[i] : own`. */
  function OptionField(q: Draft, i: nat, own: Option<string>): Option<string>
  {
    if q.options.Some? then At(q.options.value, i) else own
  }

  /** The row one generated draft becomes. */
  function DraftToRow(testId: string, formDifficulty: string, q: Draft): (row: QuestionRow)
    ensures row.testId == testId && row.approved
    ensures Truthy(row.questionText) <==> Truthy(q.content) || Truthy(q.questionText)
    ensures row.questionText == (if Truthy(q.content) then q.content else q.questionText)
    ensures q.options.Some? ==>
      var o := q.options.value;
      row.optionA == At(o, 0) && row.optionB == At(o, 1) && row.optionC == At(o, 2) && row.optionD == At(o, 3)
    ensures q.options.Some? && |q.options.value| >= 4 ==>
      var o := q.options.value;
      row.optionA == Some(o[0]) && row.optionB == Some(o[1]) && row.optionC == Some(o[2]) && row.optionD == Some(o[3])
    ensures q.options.Some? && |q.options.value| == 2 ==> row.optionC.None? && row.optionD.None?
    ensures q.options.None? ==>
      row.optionA == q.optionA && row.optionB == q.optionB && row.optionC == q.optionC && row.optionD == q.optionD
    ensures row.correctAnswer == q.correctAnswer && row.explanation == q.explanation
    ensures row.questionType == q.questionType
    ensures row.difficulty == (if Truthy(q.difficulty) then q.difficulty.value else formDifficulty)
  {
    QuestionRow(
      testId,
      Or(q.content, q.questionText),
      OptionField(q, 0, q.optionA),
      OptionField(q, 1, q.optionB),
      OptionField(q, 2, q.optionC),
      OptionField(q, 3, q.optionD),
      q.correctAnswer,
      q.explanation,
      Or(q.difficulty, Some(formDifficulty)).value,
      q.questionType,
      true)
  }

  /** `generatedQuestions.map(...)`: one row per draft, in order, all approved
      and all attached to the new test. */
  function DraftsToRows(testId: string, formDifficulty: string, qs: seq<Draft>): (rows: seq<QuestionRow>)
    ensures |rows| == |qs|
    ensures forall i :: 0 <= i < |qs| ==> rows[i] == DraftToRow(testId, formDifficulty, qs[i])
    ensures forall i :: 0 <= i < |rows| ==> rows[i].approved && rows[i].testId == testId
  {
    if qs == [] then []
    else [DraftToRow(testId, formDifficulty, qs[0])] + DraftsToRows(testId, formDifficulty, qs[1..])
  }

  // ---------------------------------------------------------------------------
  // The form
  // ---------------------------------------------------------------------------

  /** The payload of `supabase.from('tests').insert(...)`. */
  datatype NewTest = NewTest(
    title: string, description: string, difficulty: string, questionCount: int,
    timeLimitMinutes: int, isPublished: bool, userId: string)

  /** The remote writes `handleCreateTest` issues, in order. */
  datatype Write =
    | InsertTest(test: NewTest)
    | UpdateTopics(testId: string, topics: seq<string>)
    | InsertQuestions(rows: seq<QuestionRow>)

  /** What the three remote writes answer: the new test's id or an error
      message, then the errors of the topic update and the question insert. */
  datatype Backend = Backend(insertTest: Result<string, string>, updateTopicsError: Option<string>,
                             insertQuestionsError: Option<string>)

  /** The form fields `handleCreateTest` reads. `generated` is `None` when the
      last generation reply had no `questions` field. */
  datatype Form = Form(
    title: string, description: string, topics: string, difficulty: string,
    questionCount: int, timeLimit: int, useDocument: bool, selectedFile: Option<File>,
    userId: Option<string>, generated: Option<seq<Draft>>)

  datatype CreateOutcome =
    | Refused(message: string)
    | Failed(writes: seq<Write>, message: string)
    | Created(writes: seq<Write>)

  /** `generatedQuestions.length` when `generatedQuestions` is undefined. */
  const UndefinedLengthError: string := "Cannot read properties of undefined (reading 'length')"

  /** `handleCreateTest` as a function of the form and the backend's answers. */
  function CreatePlan(f: Form, b: Backend): CreateOutcome
  {
    var refusal := CreateRefusal(f.useDocument, f.title, f.topics);
    if refusal.Some? then Refused(refusal.value)
    else if f.userId.None? then Failed([], TakeTest.NoUserError)
    else Issue(f, f.userId.value, b)
  }

  /** The writes of a form that passed the guard, for the signed-in user:
      the test row always comes first. */
  function Issue(f: Form, userId: string, b: Backend): (r: CreateOutcome)
    ensures !r.Refused? && |r.writes| >= 1
    ensures r.writes[0] == InsertTest(NewTest(f.title, f.description, f.difficulty, f.questionCount, f.timeLimit, true, userId))
  {
    var test := NewTest(f.title, f.description, f.difficulty, f.questionCount, f.timeLimit, true, userId);
    match b.insertTest
    case Failure(m) => Failed([InsertTest(test)], m)
    case Success(id) =>
      var written := [InsertTest(test), UpdateTopics(id, TopicsFor(f.useDocument, f.selectedFile, f.topics))];
      if b.updateTopicsError.Some? then Failed(written, b.updateTopicsError.value)
      else if f.generated.None? then Failed(written, UndefinedLengthError)
      else if |f.generated.value| == 0 then Created(written)
      else
        var all := written + [InsertQuestions(DraftsToRows(id, f.difficulty, f.generated.value))];
        if b.insertQuestionsError.Some? then Failed(all, b.insertQuestionsError.value) else Created(all)
  }

  /** Nothing is written exactly when the form is refused or no user is signed in. */
  lemma RefusalWritesNothing(f: Form, b: Backend)
    ensures CreatePlan(f, b).Refused? <==> CreateRefusal(f.useDocument, f.title, f.topics).Some?
    ensures CreatePlan(f, b).Refused? || f.userId.None? <==>
      (CreatePlan(f, b).Refused? || CreatePlan(f, b).writes == [])
  {
  }

  /** A created test is a published test of the signed-in user whose topics
      were stored, followed by exactly one approved row per generated draft
      when there are drafts. */
  lemma CreatedTestShape(f: Form, b: Backend)
    requires CreatePlan(f, b).Created?
    ensures var w := CreatePlan(f, b).writes;
      && f.userId.Some? && f.generated.Some? && b.insertTest.Success?
      && (|w| == 3 <==> |f.generated.value| > 0) && 2 <= |w| <= 3
      && w[0] == InsertTest(NewTest(f.title, f.description, f.difficulty, f.questionCount, f.timeLimit, true, f.userId.value))
      && w[1] == UpdateTopics(b.insertTest.value, TopicsFor(f.useDocument, f.selectedFile, f.topics))
      && (|w| == 3 ==> w[2].InsertQuestions? && |w[2].rows| == |f.generated.value|
                       && forall i :: 0 <= i < |w[2].rows| ==> w[2].rows[i].approved && w[2].rows[i].testId == b.insertTest.value)
  {
    assert CreateRefusal(f.useDocument, f.title, f.topics).None?;
    var u := f.userId.value;
    assert CreatePlan(f, b) == Issue(f, u, b);
    var id := b.insertTest.value;
    var written := [InsertTest(NewTest(f.title, f.description, f.difficulty, f.questionCount, f.timeLimit, true, u)),
      UpdateTopics(id, TopicsFor(f.useDocument, f.selectedFile, f.topics))];
    if |f.generated.value| > 0 {
      var rows := DraftsToRows(id, f.difficulty, f.generated.value);
      assert Issue(f, u, b).writes == written + [InsertQuestions(rows)];
    } else {
      assert Issue(f, u, b).writes == written;
    }
  }

  /** There is no rollback: whenever any write was issued, the first one is the
      test row, even if a later step failed. */
  lemma NoRollback(f: Form, b: Backend)
    requires !CreatePlan(f, b).Refused? && |CreatePlan(f, b).writes| > 0
    ensures CreatePlan(f, b).writes[0].InsertTest? && CreatePlan(f, b).writes[0].test.isPublished
  {
  }

  /** The request `handleGenerateQuestions` sends. */
  datatype GenerationRequest =
    | DocumentRequest(file: File, difficulty: string, count: int, questionTypes: seq<string>)
    | TopicRequest(topics: seq<string>, difficulty: string, count: int, questionTypes: seq<string>)

  const DefaultQuestionTypes: seq<string> := ["multiple_choice", "true_false"]
  const DocumentFailure: string := "Failed to generate questions from document"
  const TopicFailure: string := "Failed to generate questions"

  class TestForm {
    var title: string
    var description: string
    var topics: string
    var difficulty: string
    var questionCount: int
    var timeLimit: int
    var loading: bool
    var error: string
    const userId: Option<string>
    var generated: Option<seq<Draft>>
    var selectedFile: Option<File>
    var useDocument: bool

    /** The form as first shown; `userId` is the session user read on mount. */
    constructor (userId: Option<string>)
      ensures this.userId == userId
      ensures title == "" && description == "" && topics == "" && difficulty == "medium"
      ensures questionCount == 10 && timeLimit == 60 && !loading && error == ""
      ensures generated == Some([]) && selectedFile == None && !useDocument
    {
      this.userId := userId;
      title, description, topics, difficulty := "", "", "", "medium";
      questionCount, timeLimit, loading, error := 10, 60, false, "";
      generated, selectedFile, useDocument := Some([]), None, false;
    }

    function Snapshot(): Form
      reads this
    {
      Form(title, description, topics, difficulty, questionCount, timeLimit, useDocument, selectedFile, userId, generated)
    }

    /** `handleFileChange`. */
    method FileChange(file: Option<File>)
      modifies this`selectedFile, this`error
      ensures file.None? ==> selectedFile == old(selectedFile) && error == old(error)
      ensures file.Some? && !AcceptsDocument(file.value.name) ==>
        selectedFile == old(selectedFile) && error == BadDocumentError
      ensures file.Some? && AcceptsDocument(file.value.name) ==> selectedFile == file && error == ""
    {
      if file.Some? {
        if !AcceptsDocument(file.value.name) {
          error := BadDocumentError;
          return;
        }
        selectedFile := file;
        error := "";
      }
    }

    /** The document switch: turning it on clears the typed topics. */
    method SetUseDocument(checked: bool)
      modifies this`useDocument, this`topics
      ensures useDocument == checked
      ensures topics == (if checked then "" else old(topics))
    {
      useDocument := checked;
      if checked {
        topics := "";
      }
    }

    /** `handleGenerateQuestions`: `request` is what is sent, `None` when the
        guard refuses; `reply` is the endpoint's answer. */
    method GenerateQuestions(reply: GenerationReply) returns (request: Option<GenerationRequest>)
      modifies this`error, this`loading, this`generated
      ensures request.None? <==> GenerateRefusal(useDocument, selectedFile.Some?, title, topics).Some?
      ensures request.None? ==>
        && error == GenerateRefusal(useDocument, selectedFile.Some?, title, topics).value
        && generated == old(generated) && loading == old(loading)
      ensures request.Some? ==> (
        && !loading
        && request.value == (
          if useDocument then DocumentRequest(selectedFile.value, difficulty, questionCount, DefaultQuestionTypes)
          else TopicRequest(RequestTopics(topics), difficulty, questionCount, DefaultQuestionTypes)))
      ensures request.Some? && reply.Generated? ==> generated == reply.questions && error == ""
      ensures request.Some? && reply.HttpError? ==> (
        && generated == old(generated)
        && error == (if useDocument then Shown(Or(reply.detail, Some(DocumentFailure))) else TopicFailure))
      ensures request.Some? && reply.NetworkError? ==> generated == old(generated) && error == reply.message
    {
      var refusal := GenerateRefusal(useDocument, selectedFile.Some?, title, topics);
      if refusal.Some? {
        error := refusal.value;
        return None;
      }
      loading := true;
      error := "";
      if useDocument && selectedFile.Some? {
        request := Some(DocumentRequest(selectedFile.value, difficulty, questionCount, DefaultQuestionTypes));
        match reply {
          case Generated(qs) => generated := qs;
          case HttpError(detail) => error := Shown(Or(detail, Some(DocumentFailure)));
          case NetworkError(m) => error := m;
        }
      } else {
        request := Some(TopicRequest(RequestTopics(topics), difficulty, questionCount, DefaultQuestionTypes));
        match reply {
          case Generated(qs) => generated := qs;
          case HttpError(_) => error := TopicFailure;
          case NetworkError(m) => error := m;
        }
      }
      loading := false;
    }

    /** `handleCreateTest`: the writes issued and the error shown follow
        `CreatePlan`; `navigated` is the move to the dashboard. */
    method CreateTest(b: Backend) returns (outcome: CreateOutcome, navigated: bool)
      modifies this`error, this`loading
      ensures outcome == CreatePlan(old(Snapshot()), b)
      ensures navigated <==> outcome.Created?
      ensures outcome.Refused? ==> error == outcome.message && loading == old(loading)
      ensures outcome.Failed? ==> error == outcome.message && !loading
      ensures outcome.Created? ==> error == "" && !loading
    {
      var refusal := CreateRefusal(useDocument, title, topics);
      if refusal.Some? {
        error := refusal.value;
        return Refused(refusal.value), false;
      }
      loading := true;
      error := "";
      var topicsList := TopicsFor(useDocument, selectedFile, topics);
      if userId.None? {
        outcome := Failed([], TakeTest.NoUserError);
      } else {
        var test := NewTest(title, description, difficulty, questionCount, timeLimit, true, userId.value);
        match b.insertTest {
          case Failure(m) =>
            outcome := Failed([InsertTest(test)], m);
          case Success(id) =>
            var written := [InsertTest(test), UpdateTopics(id, topicsList)];
            if b.updateTopicsError.Some? {
              outcome := Failed(written, b.updateTopicsError.value);
            } else if generated.None? {
              outcome := Failed(written, UndefinedLengthError);
            } else if |generated.value| > 0 {
              written := written + [InsertQuestions(DraftsToRows(id, difficulty, generated.value))];
              if b.insertQuestionsError.Some? {
                outcome := Failed(written, b.insertQuestionsError.value);
              } else {
                outcome := Created(written);
              }
            } else {
              outcome := Created(written);
            }
        }
        assert outcome == Issue(Snapshot(), userId.value, b);
      }
      navigated := outcome.Created?;
      if outcome.Failed? {
        error := outcome.message;
      }
      loading := false;
    }
  }
}
