/** The session controller (App.tsx): the page's state, its event handlers
    as state transitions, and the history log kept newest first and
    mirrored into browser storage. */
module AppSession {
  import opened Types
  import GeminiService

  const ValidationMessage: string := "Vui lòng nhập nội dung hoặc tải lên một tệp."
  const UnknownErrorMessage: string := "An unknown error occurred."

  /** The form's initial values. */
  const InitialForm: FormData := FormData("", "Giới thiệu dịch vụ", "Facebook", "Khách hàng cá nhân", "Gần gũi")

  // ---------------------------------------------------------------------
  // Form fields
  // ---------------------------------------------------------------------

  /** The `name` attributes of the form's inputs. */
  datatype Field = Context | Goal | Platform | Audience | Tone

  function FieldValue(form: FormData, name: Field): string
  {
    match name
    case Context => form.context
    case Goal => form.goal
    case Platform => form.platform
    case Audience => form.audience
    case Tone => form.tone
  }

  /** `{ ...prev, [name]: value }`. */
  function WithField(form: FormData, name: Field, value: string): (r: FormData)
    ensures FieldValue(r, name) == value
    ensures forall other :: other != name ==> FieldValue(r, other) == FieldValue(form, other)
  {
    match name
    case Context => form.(context := value)
    case Goal => form.(goal := value)
    case Platform => form.(platform := value)
    case Audience => form.(audience := value)
    case Tone => form.(tone := value)
  }

  /** Writing a field its current value changes nothing. */
  lemma WithFieldSameValue(form: FormData, name: Field)
    ensures WithField(form, name, FieldValue(form, name)) == form
  {
  }

  // ---------------------------------------------------------------------
  // The history list
  // ---------------------------------------------------------------------

  /** `items.filter(item => item.id !== id)`. */
  function WithoutId(items: seq<HistoryItem>, id: string): (r: seq<HistoryItem>)
    ensures |r| <= |items|
    ensures forall x :: x in r <==> x in items && x.id != id
  {
    if |items| == 0 then []
    else if items[0].id == id then WithoutId(items[1..], id)
    else [items[0]] + WithoutId(items[1..], id)
  }

  /** Filtering works piecewise: the kept items stay in their original order. */
  lemma {:induction false} WithoutIdAppend(a: seq<HistoryItem>, b: seq<HistoryItem>, id: string)
    ensures WithoutId(a + b, id) == WithoutId(a, id) + WithoutId(b, id)
    decreases |a|
  {
    if |a| > 0 {
      var rest := WithoutId(a[1..], id);
      assert (a + b)[0] == a[0] && (a + b)[1..] == a[1..] + b;
      WithoutIdAppend(a[1..], b, id);
      if a[0].id != id {
        assert [a[0]] + (rest + WithoutId(b, id)) == ([a[0]] + rest) + WithoutId(b, id);
      }
    } else {
      assert a + b == b;
    }
  }

  /** Deleting an id no item has leaves the list as it was. */
  lemma {:induction false} WithoutAbsentId(items: seq<HistoryItem>, id: string)
    requires forall i :: 0 <= i < |items| ==> items[i].id != id
    ensures WithoutId(items, id) == items
    decreases |items|
  {
    if |items| > 0 {
      WithoutAbsentId(items[1..], id);
      assert items == [items[0]] + items[1..];
    }
  }

  /** The list shrinks exactly when some item has the id. */
  lemma {:induction false} WithoutIdShrinks(items: seq<HistoryItem>, id: string)
    ensures |WithoutId(items, id)| < |items| <==> exists i :: 0 <= i < |items| && items[i].id == id
    decreases |items|
  {
    if |items| > 0 {
      WithoutIdShrinks(items[1..], id);
      if items[0].id != id {
        assert forall i :: 1 <= i < |items| ==> items[i] == items[1..][i - 1];
        if exists i :: 0 <= i < |items| && items[i].id == id {
          var i :| 0 <= i < |items| && items[i].id == id;
          assert items[1..][i - 1].id == id;
        }
      }
    }
  }

  /** Deleting the same id twice is the same as deleting it once. */
  lemma WithoutIdIdempotent(items: seq<HistoryItem>, id: string)
    ensures WithoutId(WithoutId(items, id), id) == WithoutId(items, id)
  {
  }

  /** Deleting a newly prepended item's id removes it (and any older item
      that happened to share the id). */
  lemma WithoutIdOfPrepended(item: HistoryItem, items: seq<HistoryItem>)
    ensures WithoutId([item] + items, item.id) == WithoutId(items, item.id)
  {
  }

  /** The item a successful submission records. */
  function NewHistoryItem(id: string, timestamp: int, call: GenerationCall, generated: GenerationResult): (item: HistoryItem)
    ensures WithoutFileName(item.inputs) == call.form
    ensures item.inputs.fileName.Some? <==> call.file.Some?
    ensures call.file.Some? ==> item.inputs.fileName == Some(call.file.value.name)
    ensures item.result == generated
    ensures item.id == id && item.timestamp == timestamp
  {
    HistoryItem(id, timestamp,
      WithFileName(call.form, if call.file.Some? then Some(call.file.value.name) else None),
      generated)
  }

  // ---------------------------------------------------------------------
  // Session state
  // ---------------------------------------------------------------------

  /** What `generateContent` is called with: the form and file captured
      when the submission started. */
  datatype GenerationCall = GenerationCall(form: FormData, file: Option<UploadedFile>)

  /** The storage key's content, as `JSON.parse` sees it: missing (or
      empty), not parseable, or a parsed list. */
  datatype StoredHistory = Absent | Unparsable | Parsed(items: seq<HistoryItem>)

  /** The message the page shows for a thrown value. */
  function ErrorMessage(thrown: Thrown): (m: string)
    ensures thrown.ErrorObject? ==> m == thrown.message
    ensures thrown.NonError? ==> m == "An unknown error occurred."
  {
    match thrown
    case ErrorObject(message) => message
    case NonError => UnknownErrorMessage
  }

  /** A `FileReader` error event rejects `fileToBase64` with a value that is
      not an `Error`; it escapes `generateContent` unchanged and the page
      shows the unknown-error message. */
  lemma ReaderErrorShowsUnknownError(data: FormData, f: UploadedFile, response: GeminiService.ApiResponse)
    requires GeminiService.Classify(f.mimeType) == GeminiService.BinaryPart
    requires f.dataUrlRead == ReadFailed(NonError)
    ensures GeminiService.Generate(data, Some(f), response) == Err(NonError)
    ensures ErrorMessage(GeminiService.Generate(data, Some(f), response).error) == "An unknown error occurred."
  {
  }

  /** The submission is refused iff there is neither context nor a file. */
  predicate MissingInput(form: FormData, file: Option<UploadedFile>)
  {
    form.context == "" && file.None?
  }

  class App {
    var formData: FormData
    var file: Option<UploadedFile>
    var result: Option<GenerationResult>
    var error: Option<string>
    var isLoading: bool
    var showHistory: bool
    /** Newest first. */
    var history: seq<HistoryItem>
    /** The browser storage entry that mirrors `history`. */
    ghost var stored: StoredHistory
    /** Every call made to `generateContent`, oldest first. */
    ghost var generationCalls: seq<GenerationCall>

    /** Mounting the page. The first render runs the load effect and then
        the persist effect, which still sees the initial empty list. A parsed
        list is set as the history, which renders again and persists it.
        `payload` is what the storage entry held; `firstWriteFails` and
        `secondWriteFails` say whether each of the two writes throws. */
    constructor (payload: StoredHistory, firstWriteFails: bool, secondWriteFails: bool)
      ensures formData == InitialForm && file == None && result == None && error == None
      ensures !isLoading && !showHistory && generationCalls == []
      ensures history == if payload.Parsed? then payload.items else []
      ensures stored ==
                if payload.Parsed? && !secondWriteFails then Parsed(history)
                else if !firstWriteFails then Parsed([])
                else if payload.Unparsable? then Absent
                else payload
    {
      formData := InitialForm;
      file := None;
      result := None;
      error := None;
      isLoading := false;
      showHistory := false;
      history := [];
      stored := payload;
      generationCalls := [];
      new;
      var loaded := LoadHistory(payload);
      PersistHistory(firstWriteFails);
      if loaded.Some? {
        history := loaded.value;
        PersistHistory(secondWriteFails);
      }
    }

    /** The load effect: a parsed list is handed to `setHistory` (applied on
        the next render); an unparsable entry is removed from storage and no
        list is set, so the history stays empty. */
    method LoadHistory(payload: StoredHistory) returns (loaded: Option<seq<HistoryItem>>)
      requires payload == stored
      modifies this`stored
      ensures loaded == if payload.Parsed? then Some(payload.items) else None
      ensures stored == if payload.Unparsable? then Absent else old(stored)
    {
      match payload {
        case Absent =>
          loaded := None;
        case Unparsable =>
          stored := Absent;
          loaded := None;
        case Parsed(items) =>
          loaded := Some(items);
      }
    }

    /** The persist effect: the whole list is written, overwriting the entry. */
    method PersistHistory(writeFails: bool)
      modifies this`stored
      ensures stored == if writeFails then old(stored) else Parsed(history)
    {
      if !writeFails {
        stored := Parsed(history);
      }
    }

    method HandleFormChange(name: Field, value: string)
      modifies this`formData
      ensures formData == WithField(old(formData), name, value)
    {
      formData := WithField(formData, name, value);
    }

    /** `selected` is the first file of the input, if the user picked one. */
    method HandleFileChange(selected: Option<UploadedFile>)
      modifies this`file
      ensures file == if selected.Some? then selected else old(file)
    {
      if selected.Some? {
        file := selected;
      }
    }

    method HandleFileRemove()
      modifies this`file
      ensures file == None
    {
      file := None;
    }

    method HandleToggleHistory()
      modifies this`showHistory
      ensures showHistory == !old(showHistory)
    {
      showHistory := !showHistory;
    }

    method HandleDeleteHistoryItem(id: string, writeFails: bool)
      modifies this`history, this`stored
      ensures history == WithoutId(old(history), id)
      ensures forall x :: x in history <==> x in old(history) && x.id != id
      ensures stored == if writeFails then old(stored) else Parsed(history)
    {
      history := WithoutId(history, id);
      PersistHistory(writeFails);
    }

    method HandleClearHistory(writeFails: bool)
      modifies this`history, this`stored
      ensures history == []
      ensures stored == if writeFails then old(stored) else Parsed([])
    {
      history := [];
      PersistHistory(writeFails);
    }

    /** Restore the form from a history item; the file cannot be restored. */
    method HandleReuseInputs(inputs: HistoryInput)
      modifies this`formData, this`file, this`result, this`error, this`showHistory
      ensures formData == WithoutFileName(inputs)
      ensures WithFileName(formData, inputs.fileName) == inputs
      ensures file == None && result == None && error == None && !showHistory
    {
      formData := WithoutFileName(inputs);
      file := None;
      result := None;
      error := None;
      showHistory := false;
    }

    /** `handleSubmit` up to the `await`: validate, then start loading.
        Nothing stops a second submission while one is loading. */
    method BeginSubmit() returns (call: Option<GenerationCall>)
      modifies this`error, this`isLoading, this`result, this`generationCalls
      ensures call.None? <==> MissingInput(formData, file)
      ensures call.None? ==>
                && error == Some(ValidationMessage)
                && isLoading == old(isLoading) && result == old(result)
                && generationCalls == old(generationCalls)
      ensures call.Some? ==>
                && call.value == GenerationCall(formData, file)
                && isLoading && error == None && result == None
                && generationCalls == old(generationCalls) + [call.value]
    {
      if formData.context == "" && file.None? {
        error := Some(ValidationMessage);
        return None;
      }
      isLoading := true;
      error := None;
      result := None;
      call := Some(GenerationCall(formData, file));
      generationCalls := generationCalls + [call.value];
    }

    /** `handleSubmit` after the `await`: record a success, show a failure,
        and stop loading either way. `now` and `id` are the clock reading
        and the random id of the new item. */
    method CompleteSubmit(call: GenerationCall, outcome: Result<GenerationResult, Thrown>,
                          now: int, id: string, writeFails: bool)
      requires call in generationCalls
      modifies this`result, this`history, this`error, this`isLoading, this`stored
      ensures !isLoading
      ensures outcome.Ok? ==>
                && result == Some(outcome.value)
                && history == [NewHistoryItem(id, now, call, outcome.value)] + old(history)
                && error == old(error)
                && stored == if writeFails then old(stored) else Parsed(history)
      ensures outcome.Err? ==>
                && error == Some(ErrorMessage(outcome.error))
                && result == old(result) && history == old(history) && stored == old(stored)
    {
      if outcome.Ok? {
        result := Some(outcome.value);
        var item := NewHistoryItem(id, now, call, outcome.value);
        history := [item] + history;
        PersistHistory(writeFails);
      } else {
        error := Some(ErrorMessage(outcome.error));
      }
      isLoading := false;
    }

    /** A whole submission with nothing interleaved: `outcome` is what
        `generateContent` settles with for the captured form and file. */
    method Submit(outcome: Result<GenerationResult, Thrown>, now: int, id: string, writeFails: bool)
      modifies this`error, this`isLoading, this`result, this`history, this`stored, this`generationCalls
      // refused: only the error changes, and no call is made
      ensures MissingInput(old(formData), old(file)) ==>
                && error == Some(ValidationMessage)
                && isLoading == old(isLoading) && result == old(result)
                && history == old(history) && stored == old(stored)
                && generationCalls == old(generationCalls)
      // accepted: exactly one call, with the current form and file, and loading ends
      ensures !MissingInput(old(formData), old(file)) ==>
                && generationCalls == old(generationCalls) + [GenerationCall(old(formData), old(file))]
                && !isLoading
      // success: the result is shown and one item is prepended
      ensures !MissingInput(old(formData), old(file)) && outcome.Ok? ==>
                && result == Some(outcome.value) && error == None
                && |history| == |old(history)| + 1
                && history[1..] == old(history)
                && history[0].id == id && history[0].timestamp == now
                && history[0].result == outcome.value
                && WithoutFileName(history[0].inputs) == old(formData)
                && history[0].inputs.fileName == (if old(file).Some? then Some(old(file).value.name) else None)
                && stored == if writeFails then old(stored) else Parsed(history)
      // failure: the message is shown, no result is left, the history is untouched
      ensures !MissingInput(old(formData), old(file)) && outcome.Err? ==>
                && error == Some(ErrorMessage(outcome.error)) && result == None
                && history == old(history) && stored == old(stored)
    {
      var call := BeginSubmit();
      if call.Some? {
        CompleteSubmit(call.value, outcome, now, id, writeFails);
      }
    }
  }

  /** Example sessions, followed through the contracts. */
  method Scenarios(generated: GenerationResult, report: UploadedFile)
    requires report.name == "report.txt"
  {
    var app := new App(Absent, false, false);
    assert app.history == [] && app.stored == Parsed([]);

    // nothing typed and no file: refused, no call, no history
    app.Submit(Ok(generated), 1, "a", false);
    assert app.error == Some(ValidationMessage) && app.history == [] && app.generationCalls == [];

    // context and a text file: one item, recording the file's name
    app.HandleFormChange(Context, "ra mắt thẻ mới");
    app.HandleFileChange(Some(report));
    app.Submit(Ok(generated), 2, "b", false);
    assert |app.history| == 1 && app.history[0].inputs.fileName == Some("report.txt");
    assert app.result == Some(generated) && app.error == None && !app.isLoading;

    // a failed call leaves the history and shows the message
    app.Submit(Err(ErrorObject("Failed")), 3, "c", false);
    assert |app.history| == 1 && app.result == None && app.error == Some("Failed");

    // reuse drops the file; with an empty context the next submission is refused
    app.HandleReuseInputs(app.history[0].inputs.(context := ""));
    assert app.file == None;
    app.Submit(Ok(generated), 4, "d", false);
    assert app.error == Some(ValidationMessage) && |app.history| == 1;

    // what was written is what a reload reads back
    assert app.stored == Parsed(app.history);
    var again := new App(Parsed(app.history), false, false);
    assert again.history == app.history;

    // deleting the only item empties both the list and storage
    app.HandleDeleteHistoryItem("b", false);
    assert app.history == [] && app.stored == Parsed([]);

    // a corrupt entry is dropped on load
    var reloaded := new App(Unparsable, true, true);
    assert reloaded.history == [] && reloaded.stored == Absent;

    // a loaded list whose own write fails leaves the empty list written first
    var partial := new App(Parsed(app.history), false, true);
    assert partial.stored == Parsed([]);
  }
}
