/** The document question generator page (frontend/src/pages/QuestionGenerator.js):
    the file check, the size display, revealing answers, and editing a draft. */
module QuestionGenerator {
  import opened Wrappers
  import opened Strings
  import opened Drafts
  import CreateTest

  // ---------------------------------------------------------------------------
  // Choosing a file
  // ---------------------------------------------------------------------------

  const AllowedExtensions: set<string> :=
    {"pdf", "doc", "docx", "ppt", "pptx", "xls", "xlsx", "jpg", "jpeg", "png"}

  /** 10 MiB. */
  const MaxFileSize: nat := 10 * 1024 * 1024

  const UnsupportedTypeError: string :=
    "Unsupported file type. Supported formats: PDF, DOC, DOCX, PPT, PPTX, XLS, XLSX, JPG, PNG"
  const TooLargeError: string := "File size exceeds 10MB limit"

  datatype FileVerdict = UnsupportedType | TooLarge | Accepted

  /** The checks of `handleFileSelect`, extension first, then size. */
  function CheckFile(f: File): (v: FileVerdict)
    ensures v == UnsupportedType <==> FileExtension(f.name) !in AllowedExtensions
    ensures v == TooLarge <==> FileExtension(f.name) in AllowedExtensions && f.size > MaxFileSize
    ensures v == Accepted <==> FileExtension(f.name) in AllowedExtensions && f.size <= MaxFileSize
  {
    if FileExtension(f.name) !in AllowedExtensions then UnsupportedType
    else if f.size > MaxFileSize then TooLarge
    else Accepted
  }

  /** The limit is inclusive: exactly 10 MiB passes, one byte more does not;
      an unsupported file is reported as such however large it is. */
  lemma SizeLimitInclusive(name: string, size: nat)
    ensures FileExtension(name) in AllowedExtensions ==>
      CheckFile(File(name, 10485760)) == Accepted && CheckFile(File(name, 10485761)) == TooLarge
    ensures FileExtension(name) !in AllowedExtensions ==> CheckFile(File(name, size)) == UnsupportedType
  {
  }

  /** Every document the test form accepts is accepted here too, up to the size cap. */
  lemma FormDocumentsAccepted(f: File)
    requires CreateTest.AcceptsDocument(f.name) && f.size <= MaxFileSize
    ensures CheckFile(f) == Accepted
  {
  }

  datatype SizeUnit = B | KB | MB

  function UnitBytes(u: SizeUnit): real
  {
    match u
    case B => 1.0
    case KB => 1024.0
    case MB => 1048576.0
  }

  /** `formatFileSize`: the unit and the exact amount shown in it (the
      rounding of `toFixed(2)` aside). */
  function FormatFileSize(bytes: nat): (r: (real, SizeUnit))
    ensures r.1 == B <==> bytes < 1024
    ensures r.1 == KB <==> 1024 <= bytes < 1048576
    ensures r.1 == MB <==> bytes >= 1048576
    ensures r.0 * UnitBytes(r.1) == bytes as real
    ensures r.1 != B ==> 1.0 <= r.0
    ensures r.1 == KB ==> r.0 < 1024.0
  {
    if bytes < 1024 then (bytes as real, B)
    else if bytes < 1024 * 1024 then (bytes as real / 1024.0, KB)
    else (bytes as real / 1048576.0, MB)
  }

  // ---------------------------------------------------------------------------
  // Revealed answers
  // ---------------------------------------------------------------------------

  /** The truthiness of `revealedAnswers[i]`; a missing entry is falsy. */
  predicate Revealed(m: map<int, bool>, i: int)
  {
    i in m && m[i]
  }

  /** `{...prev, [index]: !prev[index]}`. */
  function Toggled(m: map<int, bool>, index: int): (r: map<int, bool>)
    ensures Revealed(r, index) == !Revealed(m, index)
    ensures forall j :: j != index ==> (j in r <==> j in m) && (j in m ==> r[j] == m[j])
  {
    m[index := !Revealed(m, index)]
  }

  /** Toggling twice restores what is shown for every index. */
  lemma ToggleTwice(m: map<int, bool>, index: int)
    ensures forall j :: Revealed(Toggled(Toggled(m, index), index), j) == Revealed(m, j)
  {
  }

  // ---------------------------------------------------------------------------
  // Editing a draft
  // ---------------------------------------------------------------------------

  /** The question being edited, with the list position it came from. */
  datatype Editing = Editing(draft: Draft, index: nat)

  /** The question text the edit box shows: `content || question_text || ''`. */
  function DisplayedText(q: Draft): string
  {
    Shown(Or(q.content, q.questionText))
  }

  /** Typing in the question box writes the same text to both text fields. */
  function EditText(q: Draft, v: string): (r: Draft)
    ensures r.content == r.questionText == Some(v)
    ensures r.(content := q.content, questionText := q.questionText) == q
  {
    q.(content := Some(v), questionText := Some(v))
  }

  /** The box shows what was typed, and a test created from the edited draft
      stores exactly that text, empty or not. */
  lemma EditedTextIsKept(q: Draft, v: string, testId: string, formDifficulty: string)
    ensures DisplayedText(EditText(q, v)) == v
    ensures CreateTest.DraftToRow(testId, formDifficulty, EditText(q, v)).questionText == Some(v)
  {
  }

  /** `newOptions[idx] = value`: only that option changes. */
  function EditOption(q: Draft, idx: nat, v: string): (r: Draft)
    requires q.options.Some? && idx < |q.options.value|
    ensures r.options.Some? && |r.options.value| == |q.options.value|
    ensures r.options.value[idx] == v
    ensures forall j :: 0 <= j < |q.options.value| && j != idx ==> r.options.value[j] == q.options.value[j]
    ensures r.(options := q.options) == q
  {
    q.(options := Some(q.options.value[idx := v]))
  }

  /** The answer box. */
  function EditCorrectAnswer(q: Draft, v: string): (r: Draft)
    ensures Shown(r.correctAnswer) == v
    ensures r.(correctAnswer := q.correctAnswer) == q
  {
    q.(correctAnswer := Some(v))
  }

  /** The explanation box. */
  function EditExplanation(q: Draft, v: string): (r: Draft)
    ensures Shown(r.explanation) == v
    ensures r.(explanation := q.explanation) == q
  {
    q.(explanation := Some(v))
  }

  // ---------------------------------------------------------------------------
  // The page
  // ---------------------------------------------------------------------------

  /** The upload `handleGenerateQuestions` sends. */
  datatype UploadRequest = UploadRequest(file: File, difficulty: string, count: int, questionTypes: seq<string>)

  const NoFileError: string := "Please select a file first"
  const GenerationFailure: string := "Failed to generate questions"

  class Generator {
    var selectedFile: Option<File>
    var questionType: string
    var generated: seq<Draft>
    var loading: bool
    var error: string
    var revealed: map<int, bool>
    var editing: Option<Editing>
    var editModalShow: bool

    constructor ()
      ensures selectedFile == None && questionType == "multiple_choice" && generated == []
      ensures !loading && error == "" && revealed == map[] && editing == None && !editModalShow
    {
      selectedFile, questionType, generated := None, "multiple_choice", [];
      loading, error, revealed, editing, editModalShow := false, "", map[], None, false;
    }

    /** `handleFileSelect`. A rejected file only sets the error. */
    method FileSelect(file: Option<File>)
      modifies this`selectedFile, this`error, this`generated, this`revealed
      ensures file.None? ==> selectedFile == old(selectedFile) && error == old(error)
      ensures file.None? || CheckFile(file.value) != Accepted ==>
        generated == old(generated) && revealed == old(revealed)
      ensures file.Some? && CheckFile(file.value) == UnsupportedType ==>
        selectedFile == old(selectedFile) && error == UnsupportedTypeError
      ensures file.Some? && CheckFile(file.value) == TooLarge ==>
        selectedFile == old(selectedFile) && error == TooLargeError
      ensures file.Some? && CheckFile(file.value) == Accepted ==>
        selectedFile == file && error == "" && generated == [] && revealed == map[]
    {
      if file.None? {
        return;
      }
      var f := file.value;
      if FileExtension(f.name) !in AllowedExtensions {
        error := UnsupportedTypeError;
        return;
      }
      if f.size > MaxFileSize {
        error := TooLargeError;
        return;
      }
      selectedFile := file;
      error := "";
      generated := [];
      revealed := map[];
    }

    /** `handleGenerateQuestions`: `request` is the upload sent, `None` without a file. */
    method GenerateQuestions(reply: GenerationReply) returns (request: Option<UploadRequest>)
      modifies this`error, this`loading, this`generated, this`revealed
      ensures request.None? <==> selectedFile.None?
      ensures request.None? ==> (
        && error == NoFileError && loading == old(loading)
        && generated == old(generated) && revealed == old(revealed))
      ensures request.Some? ==> (
        && !loading
        && request.value == UploadRequest(selectedFile.value, "medium", 10, [questionType]))
      ensures request.Some? && reply.Generated? ==> (
        && generated == reply.questions.GetOr([])
        && revealed == map[] && error == "")
      ensures request.Some? && reply.HttpError? ==> (
        && generated == old(generated) && revealed == old(revealed)
        && error == Shown(Or(reply.detail, Some(GenerationFailure))))
      ensures request.Some? && reply.NetworkError? ==> (
        && generated == old(generated) && revealed == old(revealed)
        && error == reply.message)
    {
      if selectedFile.None? {
        error := NoFileError;
        return None;
      }
      loading := true;
      error := "";
      request := Some(UploadRequest(selectedFile.value, "medium", 10, [questionType]));
      match reply {
        case Generated(qs) =>
          generated := qs.GetOr([]);
          revealed := map[];
        case HttpError(detail) =>
          error := Shown(Or(detail, Some(GenerationFailure)));
        case NetworkError(m) =>
          error := m;
      }
      loading := false;
    }

    /** `toggleAnswer`. */
    method ToggleAnswer(index: int)
      modifies this`revealed
      ensures revealed == Toggled(old(revealed), index)
    {
      revealed := revealed[index := !Revealed(revealed, index)];
    }

    /** `handleEditQuestion`: opens the modal on a copy of the question. */
    method EditQuestion(q: Draft, index: nat)
      modifies this`editing, this`editModalShow
      ensures editing == Some(Editing(q, index)) && editModalShow
    {
      editing := Some(Editing(q, index));
      editModalShow := true;
    }

    /** The question box's `onChange`. */
    method ChangeText(v: string)
      requires editing.Some?
      modifies this`editing
      ensures editing == Some(old(editing).value.(draft := EditText(old(editing).value.draft, v)))
    {
      editing := Some(editing.value.(draft := EditText(editing.value.draft, v)));
    }

    /** `handleSaveEdit`: the list is copied and the edited question written at
        its index; nothing happens when no question is being edited. */
    method SaveEdit()
      requires editing.Some? ==> editing.value.index < |generated|
      modifies this`generated, this`editing, this`editModalShow
      ensures old(editing).None? ==>
        generated == old(generated) && editing == None && editModalShow == old(editModalShow)
      ensures old(editing).Some? ==> (
        && |generated| == |old(generated)|
        && generated[old(editing).value.index] == old(editing).value.draft
        && (forall j :: 0 <= j < |generated| && j != old(editing).value.index ==> generated[j] == old(generated)[j])
        && editing == None && !editModalShow)
    {
      if editing.Some? {
        var src := generated;
        var updated := new Draft[|src|](i requires 0 <= i < |src| => src[i]);
        updated[editing.value.index] := editing.value.draft;
        generated := updated[..];
        editModalShow := false;
        editing := None;
      }
    }
  }
}
