/** Records shared by the session controller and the generation service
    (types.ts), plus the few runtime values the two exchange: optional
    values, results, the value a JavaScript `throw` carries, and the
    user's uploaded file as the browser presents it. */
module Types {

  datatype Option<+T> = None | Some(value: T)

  datatype Result<+T, +E> = Ok(value: T) | Err(error: E)

  /** What a JavaScript `throw` or promise rejection carries: an `Error`
      instance with its message, or any other value (a `ProgressEvent`
      from a failed `FileReader`, say). */
  datatype Thrown = ErrorObject(message: string) | NonError

  /** The form the user fills in: free-text context and four selections. */
  datatype FormData = FormData(
    context: string,
    goal: string,
    platform: string,
    audience: string,
    tone: string)

  /** The generated marketing copy. */
  datatype GenerationResult = GenerationResult(
    title: string,
    post: string,
    hashtags: seq<string>)

  /** The form fields recorded in a history item, plus the attached file's
      name when there was one (never its bytes). */
  datatype HistoryInput = HistoryInput(
    context: string,
    goal: string,
    platform: string,
    audience: string,
    tone: string,
    fileName: Option<string>)

  datatype HistoryItem = HistoryItem(
    id: string,
    timestamp: int,
    inputs: HistoryInput,
    result: GenerationResult)

  /** The outcome of one asynchronous browser read of a file. */
  datatype FileRead = Loaded(data: string) | ReadFailed(reason: Thrown)

  /** A file picked by the user. Reading it is browser I/O, so the outcome
      of each of the two reads the service may perform (`file.text()` and
      `FileReader.readAsDataURL`) is part of the value. */
  datatype UploadedFile = UploadedFile(
    name: string,
    mimeType: string,
    textRead: FileRead,
    dataUrlRead: FileRead)

  /** `{ ...formData, fileName }`: the form with the file name added. */
  function WithFileName(form: FormData, fileName: Option<string>): HistoryInput
  {
    HistoryInput(form.context, form.goal, form.platform, form.audience, form.tone, fileName)
  }

  /** `const { fileName, ...formInputs } = inputs`: the form without it. */
  function WithoutFileName(inputs: HistoryInput): FormData
  {
    FormData(inputs.context, inputs.goal, inputs.platform, inputs.audience, inputs.tone)
  }

  /** Dropping the file name undoes adding it. */
  lemma DropAfterAddFileName(form: FormData, fileName: Option<string>)
    ensures WithoutFileName(WithFileName(form, fileName)) == form
  {
  }

  /** A history input is its form fields plus its file name, and nothing else. */
  lemma AddAfterDropFileName(inputs: HistoryInput)
    ensures WithFileName(WithoutFileName(inputs), inputs.fileName) == inputs
  {
  }
}
