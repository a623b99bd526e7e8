/** The question-generation router (backend/routers/questions.py): choosing the
    text extractor, reading the requested question types, checking and
    truncating the extracted text, choosing the prompt instruction, and
    cleaning the model's reply before it is parsed as JSON. */
module QuestionsRouter {
  import opened Wrappers
  import opened Strings
  import opened Http
  import QuestionGenerator
  import CreateTest

  // ---------------------------------------------------------------------------
  // Extractor dispatch
  // ---------------------------------------------------------------------------

  /** The `extract_text_from_*` function a file goes to; spreadsheets keep
      their extension, which the spreadsheet reader needs. */
  datatype Extractor = PdfText | WordText | SlidesText | SheetText(ext: string) | ImageText

  const UnsupportedPrefix: string := "Unsupported file type: "
  const UnsupportedSuffix: string := ". Supported types: PDF, DOC, DOCX, PPT, PPTX, XLS, XLSX, JPG, PNG"

  /** The extensions some extractor accepts. */
  const SupportedExtensions: set<string> :=
    {"pdf", "doc", "docx", "ppt", "pptx", "xls", "xlsx", "jpg", "jpeg", "png"}

  /** The branch chain of `extract_text_from_document` on an extension. */
  function ExtractorFor(ext: string): (r: Result<Extractor, HttpError>)
    ensures r.Success? <==> ext in SupportedExtensions
    ensures r == Success(PdfText) <==> ext == "pdf"
    ensures r == Success(WordText) <==> ext in {"doc", "docx"}
    ensures r == Success(SlidesText) <==> ext in {"ppt", "pptx"}
    ensures r.Success? && r.value.SheetText? <==> ext in {"xls", "xlsx"}
    ensures r.Success? && r.value.SheetText? ==> r.value.ext == ext
    ensures r == Success(ImageText) <==> ext in {"jpg", "jpeg", "png"}
    ensures r.Failure? ==> r.error == HttpError(400, UnsupportedPrefix + ext + UnsupportedSuffix)
  {
    if ext == "pdf" then Success(PdfText)
    else if ext in {"doc", "docx"} then Success(WordText)
    else if ext in {"ppt", "pptx"} then Success(SlidesText)
    else if ext in {"xls", "xlsx"} then Success(SheetText(ext))
    else if ext in {"jpg", "jpeg", "png"} then Success(ImageText)
    else Failure(HttpError(400, UnsupportedPrefix + ext + UnsupportedSuffix))
  }

  /** `extract_text_from_document`'s choice, on `filename.split('.')[-1].lower()`. */
  function ChooseExtractor(filename: string): Result<Extractor, HttpError>
  {
    ExtractorFor(FileExtension(filename))
  }

  /** The backend dispatches exactly the ten extensions the generator page lets
      through, and the test form's five are among them; the extension is the
      lower-cased last `.`-separated part. */
  lemma DispatchMatchesFrontend(filename: string)
    ensures ChooseExtractor(filename).Success? <==> FileExtension(filename) in QuestionGenerator.AllowedExtensions
    ensures CreateTest.AcceptsDocument(filename) ==> ChooseExtractor(filename).Success?
    ensures var parts := Split(filename, '.'); FileExtension(filename) == Lower(parts[|parts| - 1])
  {
    SupportedEverywhere();
    AfterLastIsLastPart(filename, '.');
  }

  lemma SupportedEverywhere()
    ensures SupportedExtensions == QuestionGenerator.AllowedExtensions
    ensures CreateTest.DocumentExtensions <= SupportedExtensions
  {
  }

  // ---------------------------------------------------------------------------
  // Question types and the prompt instruction
  // ---------------------------------------------------------------------------

  const DefaultQuestionTypes: seq<string> := ["multiple_choice", "true_false"]

  /** `json.loads(question_types)`, falling back to the default list when it
      fails; `parse` stands for `json.loads` on a list of strings. */
  function QuestionTypes(raw: string, parse: string -> Option<seq<string>>): (types: seq<string>)
    ensures parse(raw).None? ==> types == DefaultQuestionTypes
    ensures parse(raw).Some? ==> types == parse(raw).value
  {
    parse(raw).GetOr(DefaultQuestionTypes)
  }

  datatype Instruction = OpenEndedInstruction | TrueFalseInstruction | MultipleChoiceInstruction

  /** The instruction block of the prompt. */
  function InstructionFor(types: seq<string>): (i: Instruction)
    ensures i == OpenEndedInstruction <==> "open_ended" in types
    ensures i == TrueFalseInstruction <==> "open_ended" !in types && "true_false" in types
    ensures i == MultipleChoiceInstruction <==> "open_ended" !in types && "true_false" !in types
  {
    if "open_ended" in types then OpenEndedInstruction
    else if "true_false" in types then TrueFalseInstruction
    else MultipleChoiceInstruction
  }

  /** The default list, and so the list the test form always sends, asks for
      true/false questions: multiple choice is chosen only when neither
      `open_ended` nor `true_false` is requested. */
  lemma DefaultIsTrueFalse(raw: string, parse: string -> Option<seq<string>>)
    requires parse(raw).None? || parse(raw) == Some(CreateTest.DefaultQuestionTypes)
    ensures InstructionFor(QuestionTypes(raw, parse)) == TrueFalseInstruction
  {
    assert "true_false" == DefaultQuestionTypes[1];
  }

  // ---------------------------------------------------------------------------
  // The extracted text
  // ---------------------------------------------------------------------------

  const MinTextLength: nat := 100
  const MaxChars: nat := 10000
  const TruncationMarker: string := "... [truncated]"
  const TooShortDetail: string :=
    "Document appears to be empty or too short. Please upload a document with sufficient content."

  /** `not document_text or len(document_text.strip()) < 100`. */
  predicate TooShort(text: string)
  {
    text == "" || |Trim(text)| < MinTextLength
  }

  /** Only the stripped length matters: the emptiness test is subsumed, and
      surrounding whitespace never helps a text pass. */
  lemma TooShortIsStrippedLength(text: string, pad: string)
    requires forall i :: 0 <= i < |pad| ==> IsSpace(pad[i])
    ensures TooShort(text) <==> |Trim(text)| < MinTextLength
    ensures TooShort(pad) && (TooShort(text + pad) <==> TooShort(text))
  {
    TrimSpaceSuffix(text, pad);
  }

  /** Whitespace appended to a text is removed by stripping it. */
  lemma TrimSpaceSuffix(text: string, pad: string)
    requires forall i :: 0 <= i < |pad| ==> IsSpace(pad[i])
    ensures Trim(text + pad) == Trim(text)
  {
    TrimStartAppend(text, pad);
    var t := TrimStart(text);
    if t != [] {
      TrimEndSpaceSuffix(t, pad);
    } else {
      TrimStartSuffix(pad);
      assert TrimStart(pad) == [];
    }
  }

  lemma {:induction false} TrimEndSpaceSuffix(x: string, pad: string)
    requires forall i :: 0 <= i < |pad| ==> IsSpace(pad[i])
    ensures TrimEnd(x + pad) == TrimEnd(x)
    decreases |pad|
  {
    if pad == [] {
      assert x + pad == x;
    } else {
      var shorter := pad[..|pad| - 1];
      assert (x + pad)[..|x + pad| - 1] == x + shorter;
      assert (x + pad)[|x + pad| - 1] == pad[|pad| - 1];
      TrimEndSpaceSuffix(x, shorter);
    }
  }

  /** Trimming the start of `a + b` trims the start of `a` first, unless `a`
      is all whitespace. */
  lemma {:induction false} TrimStartAppend(a: string, b: string)
    ensures TrimStart(a) != [] ==> TrimStart(a + b) == TrimStart(a) + b
    ensures TrimStart(a) == [] ==> TrimStart(a + b) == TrimStart(b)
    decreases |a|
  {
    if a == [] {
      assert a + b == b;
    } else {
      assert (a + b)[0] == a[0];
      assert (a + b)[1..] == a[1..] + b;
      TrimStartAppend(a[1..], b);
    }
  }

  /** `document_text[:10000] + "... [truncated]"` when longer than 10000. */
  function Truncate(text: string): (r: string)
    ensures |r| <= MaxChars + |TruncationMarker|
    ensures |text| <= MaxChars ==> r == text
    ensures |text| > MaxChars ==> (
      && |r| == MaxChars + |TruncationMarker|
      && r[..MaxChars] == text[..MaxChars]
      && r[MaxChars..] == TruncationMarker)
  {
    if |text| > MaxChars then text[..MaxChars] + TruncationMarker else text
  }

  /** Truncating a truncated text changes nothing. */
  lemma TruncateIdempotent(text: string)
    ensures Truncate(Truncate(text)) == Truncate(text)
  {
    if |text| > MaxChars {
      var r := Truncate(text);
      assert r[..MaxChars] + TruncationMarker == r;
    }
  }

  /** What the endpoint would put in the prompt: the text kept and the
      instruction. `extract` stands for the chosen extractor, which may fail
      with its own error. */
  datatype Prompt = Prompt(documentText: string, instruction: Instruction)

  function PreparePrompt(filename: string, extract: Extractor -> Result<string, HttpError>,
                         typesRaw: string, parse: string -> Option<seq<string>>): (r: Result<Prompt, HttpError>)
    ensures ChooseExtractor(filename).Failure? ==> r == Failure(ChooseExtractor(filename).error)
    ensures r.Success? ==> (
      && ChooseExtractor(filename).Success?
      && extract(ChooseExtractor(filename).value).Success?
      && !TooShort(extract(ChooseExtractor(filename).value).value)
      && |r.value.documentText| <= MaxChars + |TruncationMarker|
      && r.value.instruction == InstructionFor(QuestionTypes(typesRaw, parse)))
    ensures (
      && ChooseExtractor(filename).Success?
      && extract(ChooseExtractor(filename).value).Success?
      && TooShort(extract(ChooseExtractor(filename).value).value)) ==> r == Failure(HttpError(400, TooShortDetail))
    ensures ChooseExtractor(filename).Success? && extract(ChooseExtractor(filename).value).Failure? ==>
      r == Failure(extract(ChooseExtractor(filename).value).error)
    ensures (
      && ChooseExtractor(filename).Success?
      && extract(ChooseExtractor(filename).value).Success?
      && !TooShort(extract(ChooseExtractor(filename).value).value)) ==>
      r == Success(Prompt(Truncate(extract(ChooseExtractor(filename).value).value), InstructionFor(QuestionTypes(typesRaw, parse))))
  {
    var types := QuestionTypes(typesRaw, parse);
    match ChooseExtractor(filename)
    case Failure(e) => Failure(e)
    case Success(x) =>
      match extract(x)
      case Failure(e) => Failure(e)
      case Success(text) =>
        if TooShort(text) then Failure(HttpError(400, TooShortDetail))
        else Success(Prompt(Truncate(text), InstructionFor(types)))
  }

  // ---------------------------------------------------------------------------
  // Cleaning the model's reply
  // ---------------------------------------------------------------------------

  const Fence: string := "```"

  /** The characters `lstrip("json")` removes: a set, not a prefix. */
  const JsonLetters: set<char> := {'j', 's', 'o', 'n'}

  /** A fence (three backticks) starts at position `i` of `s`. */
  predicate FenceAt(s: string, i: int)
  {
    0 <= i && i + 3 <= |s| && s[i] == '`' && s[i + 1] == '`' && s[i + 2] == '`'
  }

  /** The text before the first fence of `s`, all of `s` when there is none:
      `s.split("```", 1)[0]`. */
  function UpToFence(s: string): (r: string)
    ensures |r| <= |s|
    ensures forall i :: 0 <= i < |r| ==> !FenceAt(s, i)
    ensures |r| < |s| ==> FenceAt(s, |r|)
  {
    if |s| < 3 then s
    else if FenceAt(s, 0) then []
    else
      var rest := UpToFence(s[1..]);
      assert forall i :: 1 <= i <= |rest| ==> (FenceAt(s, i) <==> FenceAt(s[1..], i - 1));
      [s[0]] + rest
  }

  /** The first fence found is the one before which nothing else starts. */
  lemma UpToFenceAt(s: string, k: nat)
    requires FenceAt(s, k)
    requires forall i :: 0 <= i < k ==> !FenceAt(s, i)
    ensures UpToFence(s) == s[..k]
  {
    assert |UpToFence(s)| == k;
    UpToFencePrefix(s);
  }

  /** What `UpToFence` keeps is a prefix of its input. */
  lemma {:induction false} UpToFencePrefix(s: string)
    ensures UpToFence(s) == s[..|UpToFence(s)|]
    decreases |s|
  {
    if |s| >= 3 && !FenceAt(s, 0) {
      UpToFencePrefix(s[1..]);
      assert s == [s[0]] + s[1..];
    }
  }

  /** The reply as `json.loads` receives it: stripped, and when it starts with
      a fence, the segment up to the next fence with leading `j`, `s`, `o`,
      `n` characters and then surrounding whitespace removed. */
  function CleanResponse(text: string): (r: string)
    ensures !StartsWith(Trim(text), Fence) ==> r == Trim(text)
  {
    var raw := Trim(text);
    if StartsWith(raw, Fence) then Trim(LStripChars(UpToFence(raw[3..]), JsonLetters)) else raw
  }

  /** `Trim` leaves a text alone whose ends are not whitespace. */
  lemma TrimNoop(s: string)
    requires s == [] || (!IsSpace(s[0]) && !IsSpace(s[|s| - 1]))
    ensures Trim(s) == s
  {
  }

  /** One newline on each side of a text is stripped, and nothing more. */
  lemma TrimNewlines(p: string)
    requires p == [] || (!IsSpace(p[0]) && !IsSpace(p[|p| - 1]))
    ensures Trim("\n" + p + "\n") == p
  {
    var s := "\n" + p + "\n";
    assert s[1..] == p + "\n";
    assert TrimStart(s) == TrimStart(p + "\n");
    if p == [] {
      assert TrimStart("\n") == TrimStart("");
    } else {
      assert (p + "\n")[0] == p[0];
      assert TrimStart(p + "\n") == p + "\n";
      assert (p + "\n")[..|p|] == p;
      assert TrimEnd(p + "\n") == TrimEnd(p);
    }
  }

  /** In a fenced `json` block the closing fence is the first one. */
  lemma ClosingFenceFirst(p: string)
    requires forall i :: !FenceAt(p, i)
    ensures UpToFence("json\n" + p + "\n```") == "json\n" + p + "\n"
  {
    var u := "json\n" + p + "\n```";
    var k := |u| - 3;
    assert u[5 + |p|] == '\n';
    forall i | 0 <= i < k ensures !FenceAt(u, i) {
      if i < 5 {
        assert u[i] != '`';
      } else if i + 3 <= 5 + |p| {
        assert u[i] == p[i - 5] && u[i + 1] == p[i - 4] && u[i + 2] == p[i - 3];
        assert !FenceAt(p, i - 5);
      }
    }
    assert u[k] == '`' && u[k + 1] == '`' && u[k + 2] == '`';
    UpToFenceAt(u, k);
    assert u[..k] == "json\n" + p + "\n";
  }

  /** `lstrip("json")` removes the tag and stops at the newline. */
  lemma TagStripped(p: string)
    ensures LStripChars("json\n" + p + "\n", JsonLetters) == "\n" + p + "\n"
  {
    var v := "json\n" + p + "\n";
    var w := LStripChars(v, JsonLetters);
    LStripSuffix(v, JsonLetters);
    assert v[4] == '\n';
    assert v[0] in JsonLetters && v[1] in JsonLetters && v[2] in JsonLetters && v[3] in JsonLetters;
    assert |v| - |w| == 4;
  }

  /** A reply wrapped as a fenced `json` block is unwrapped exactly, whatever
      letters the payload starts with, as long as the payload holds no fence
      and has no whitespace at its ends. */
  lemma FencedJsonRoundTrip(p: string)
    requires forall i :: !FenceAt(p, i)
    requires p == [] || (!IsSpace(p[0]) && !IsSpace(p[|p| - 1]))
    ensures CleanResponse("```json\n" + p + "\n```") == p
  {
    var tail := "json\n" + p + "\n```";
    var s := Fence + tail;
    assert s == "```json\n" + p + "\n```";
    TrimNoop(s);
    assert s[..3] == Fence && s[3..] == tail;
    ClosingFenceFirst(p);
    TagStripped(p);
    TrimNewlines(p);
    CleanFenced(s, s, tail);
  }

  /** The fenced branch of `CleanResponse`: `raw` is the stripped reply. */
  lemma CleanFenced(s: string, raw: string, tail: string)
    requires Trim(s) == raw && |raw| >= 3 && raw[..3] == Fence && raw[3..] == tail
    ensures CleanResponse(s) == Trim(LStripChars(UpToFence(tail), JsonLetters))
  {
    assert StartsWith(raw, Fence);
  }

  /** No fence starts inside a payload that holds none and does not end in a
      backtick, even when a fence follows it. */
  lemma NoFenceBeforeClosing(p: string)
    requires forall i :: !FenceAt(p, i)
    requires p == [] || p[|p| - 1] != '`'
    ensures forall i :: 0 <= i < |p| ==> !FenceAt(p + Fence, i)
  {
    var tail := p + Fence;
    forall i | 0 <= i < |p| ensures !FenceAt(tail, i) {
      if i + 3 <= |p| {
        assert tail[i] == p[i] && tail[i + 1] == p[i + 1] && tail[i + 2] == p[i + 2];
        assert !FenceAt(p, i);
      } else {
        assert tail[|p| - 1] == p[|p| - 1];
      }
    }
  }

  /** A payload followed by a fence: the fence is the first one, provided
      the payload holds none and does not end in a backtick. */
  lemma FenceAfterPayload(p: string)
    requires forall i :: !FenceAt(p, i)
    requires p == [] || p[|p| - 1] != '`'
    ensures UpToFence(p + Fence) == p
  {
    NoFenceBeforeClosing(p);
    FenceClosing(p);
    UpToFenceAt(p + Fence, |p|);
  }

  /** The fence appended to a text starts right after it. */
  lemma FenceClosing(p: string)
    ensures FenceAt(p + Fence, |p|) && (p + Fence)[..|p|] == p
  {
    var tail := p + Fence;
    assert tail[|p|] == '`' && tail[|p| + 1] == '`' && tail[|p| + 2] == '`';
  }

  /** A reply fenced without a language line loses the leading letters of
      its payload that spell out `json` (as a set, not as a word). */
  lemma UnlabelledFence(p: string)
    requires forall i :: !FenceAt(p, i)
    requires p != [] && !IsSpace(p[0]) && p[|p| - 1] != '`'
    ensures CleanResponse(Fence + p + Fence) == Trim(LStripChars(p, JsonLetters))
  {
    var tail := p + Fence;
    var s := Fence + tail;
    assert s == Fence + p + Fence;
    assert s[0] == '`' && s[|s| - 1] == '`';
    TrimNoop(s);
    assert s[..3] == Fence && s[3..] == tail;
    CleanFenced(s, s, tail);
    FenceAfterPayload(p);
  }

  /** A text without backticks holds no fence. */
  lemma NoBacktickNoFence(p: string)
    requires '`' !in p
    ensures forall i :: !FenceAt(p, i)
  {
    forall i ensures !FenceAt(p, i) {
      if 0 <= i < |p| {
        assert p[i] in p;
      }
    }
  }

  /** `"null".lstrip("json")` is `"ull"`. */
  lemma NullLosesItsN()
    ensures LStripChars("null", JsonLetters) == "ull"
  {
    var w := LStripChars("null", JsonLetters);
    assert 'u' !in JsonLetters && 'n' in JsonLetters;
    assert |w| == 3;
    assert w == "ull";
  }

  /** Without the newline after the opening fence the letter set bites: a
      fenced `null` loses its `n`. */
  lemma LetterSetQuirk()
    ensures CleanResponse(Fence + "null" + Fence) == "ull"
  {
    var p := "null";
    assert '`' !in p;
    NoBacktickNoFence(p);
    UnlabelledFence(p);
    NullLosesItsN();
    TrimNoop("ull");
  }
}
