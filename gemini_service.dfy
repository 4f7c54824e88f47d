/** The generation service (services/geminiService.ts): how an attachment is
    folded into the request, which request shape is sent, how the model's
    reply is checked, and how failures reach the caller. The network call
    itself is an oracle: its reply is a parameter. */
module GeminiService {
  import opened Types

  /** Header placed between the typed context and an inlined text file. */
  const AttachmentHeaderOpen: string := "\n\n[Dữ liệu từ tệp đính kèm "
  const AttachmentHeaderClose: string := "]:\n"
  /** What the prompt says when the context is empty. */
  const NoContext: string := "Không có"
  const Base64Failure: string := "Failed to convert file to base64"
  const ShapeMismatch: string := "AI response did not match the expected format."
  const GenerationFailure: string := "Failed to generate content. Please check your input and try again."
  /** The engine's own message when a property of `null` is read. */
  const NullPropertyRead: string := "Cannot read properties of null (reading 'title')"

  const TextPrefix: string := "text/"
  const ImagePrefix: string := "image/"
  const PdfType: string := "application/pdf"

  predicate StartsWith(s: string, prefix: string)
  {
    |prefix| <= |s| && s[..|prefix|] == prefix
  }

  // ---------------------------------------------------------------------
  // fileToBase64: the payload field of a data URL
  // ---------------------------------------------------------------------

  /** `s.split(sep)` for a one-character separator. */
  function SplitOn(s: string, sep: char): (parts: seq<string>)
    ensures |parts| >= 1
    ensures forall i :: 0 <= i < |parts| ==> sep !in parts[i]
    ensures sep !in s ==> parts == [s]
    decreases |s|
  {
    if |s| == 0 then [""]
    else
      var rest := SplitOn(s[1..], sep);
      if s[0] == sep then [""] + rest
      else
        assert s == [s[0]] + s[1..];
        [[s[0]] + rest[0]] + rest[1..]
  }

  /** `parts.join(sep)`. */
  function Join(parts: seq<string>, sep: char): string
    requires |parts| >= 1
  {
    if |parts| == 1 then parts[0] else parts[0] + [sep] + Join(parts[1..], sep)
  }

  /** Splitting and joining back gives the original string. */
  lemma {:induction false} JoinSplit(s: string, sep: char)
    ensures Join(SplitOn(s, sep), sep) == s
    decreases |s|
  {
    if |s| > 0 {
      JoinSplit(s[1..], sep);
      var rest := SplitOn(s[1..], sep);
      if s[0] != sep {
        if |rest| == 1 {
          assert s == [s[0]] + s[1..];
        } else {
          assert Join(rest, sep) == rest[0] + [sep] + Join(rest[1..], sep);
          assert s == [s[0]] + s[1..];
        }
      }
    }
  }

  /** Joining separator-free parts and splitting gives the parts back. */
  lemma {:induction false} SplitJoin(parts: seq<string>, sep: char)
    requires |parts| >= 1
    requires forall i :: 0 <= i < |parts| ==> sep !in parts[i]
    ensures SplitOn(Join(parts, sep), sep) == parts
    decreases |parts|
  {
    if |parts| > 1 {
      SplitJoin(parts[1..], sep);
      SplitBeforeSeparator(parts[0], Join(parts[1..], sep), sep);
      assert parts == [parts[0]] + parts[1..];
    }
  }

  /** A separator-free head followed by a separator splits off as one part. */
  lemma {:induction false} SplitBeforeSeparator(head: string, tail: string, sep: char)
    requires sep !in head
    ensures SplitOn(head + [sep] + tail, sep) == [head] + SplitOn(tail, sep)
    decreases |head|
  {
    if |head| == 0 {
      assert head + [sep] + tail == [sep] + tail;
      assert ([sep] + tail)[1..] == tail;
    } else {
      var s := head + [sep] + tail;
      assert s[1..] == head[1..] + [sep] + tail;
      SplitBeforeSeparator(head[1..], tail, sep);
      assert [head[0]] + head[1..] == head;
    }
  }

  /** The payload of a data URL: the second `,`-separated field, refused
      when it is missing or empty. */
  function DataUrlPayload(url: string): (r: Result<string, Thrown>)
    ensures r.Ok? ==> r.value != "" && ',' !in r.value
    ensures r.Err? ==> r.error == ErrorObject(Base64Failure)
    ensures ',' !in url ==> r.Err?
  {
    var fields := SplitOn(url, ',');
    if |fields| >= 2 && fields[1] != "" then Ok(fields[1]) else Err(ErrorObject(Base64Failure))
  }

  /** The first field of `field + tail` is `field` when `tail` is empty or
      starts with the separator. */
  lemma {:induction false} SplitFirstField(field: string, tail: string, sep: char)
    requires sep !in field
    requires tail == [] || tail[0] == sep
    ensures SplitOn(field + tail, sep)[0] == field
    decreases |field|
  {
    if |field| == 0 {
      assert field + tail == tail;
    } else {
      assert (field + tail)[1..] == field[1..] + tail;
      SplitFirstField(field[1..], tail, sep);
      assert [field[0]] + field[1..] == field;
    }
  }

  /** A data URL `header,payload` followed by nothing or by further fields
      yields its payload. */
  lemma DataUrlPayloadOfFields(header: string, payload: string, tail: string)
    requires ',' !in header && ',' !in payload && payload != ""
    requires tail == "" || tail[0] == ','
    ensures DataUrlPayload(header + "," + payload + tail) == Ok(payload)
  {
    assert header + "," + payload + tail == header + [','] + (payload + tail);
    SplitBeforeSeparator(header, payload + tail, ',');
    SplitFirstField(payload, tail, ',');
  }

  /** A data URL whose payload field is empty is refused. */
  lemma DataUrlPayloadEmpty(header: string, tail: string)
    requires ',' !in header
    requires tail == "" || tail[0] == ','
    ensures DataUrlPayload(header + "," + tail) == Err(ErrorObject(Base64Failure))
  {
    SplitBeforeSeparator(header, tail, ',');
    SplitFirstField("", tail, ',');
    assert "" + tail == tail;
  }

  /** `fileToBase64`: read the file as a data URL and keep its payload. A
      failed read rejects with whatever the reader reported. */
  function FileToBase64(file: UploadedFile): (r: Result<string, Thrown>)
    // it never resolves with an empty payload, and only after a successful read
    ensures r.Ok? ==> file.dataUrlRead.Loaded? && r.value != "" && ',' !in r.value
    // a failed read rejects with the reader's own value; otherwise the rejection is the base64 error
    ensures r.Err? && file.dataUrlRead.ReadFailed? ==> r.error == file.dataUrlRead.reason
    ensures r.Err? && file.dataUrlRead.Loaded? ==> r.error == ErrorObject(Base64Failure)
    // a loaded data URL settles exactly as its payload field does
    ensures file.dataUrlRead.Loaded? ==> r == DataUrlPayload(file.dataUrlRead.data)
  {
    match file.dataUrlRead
    case ReadFailed(reason) => Err(reason)
    case Loaded(url) => DataUrlPayload(url)
  }

  // ---------------------------------------------------------------------
  // Attachment dispatch
  // ---------------------------------------------------------------------

  datatype AttachmentKind = InlineText | BinaryPart | Ignored

  /** Which way the service treats a file of the given MIME type. */
  function Classify(mimeType: string): (k: AttachmentKind)
    ensures k == InlineText <==> StartsWith(mimeType, TextPrefix)
    ensures k == BinaryPart <==> !StartsWith(mimeType, TextPrefix) &&
                                 (StartsWith(mimeType, ImagePrefix) || mimeType == PdfType)
    ensures k == Ignored <==> !StartsWith(mimeType, TextPrefix) && !StartsWith(mimeType, ImagePrefix) &&
                              mimeType != PdfType
  {
    if StartsWith(mimeType, TextPrefix) then InlineText
    else if StartsWith(mimeType, ImagePrefix) || mimeType == PdfType then BinaryPart
    else Ignored
  }

  /** The binary part of a two-part request (`inlineData`). */
  datatype FilePart = FilePart(mimeType: string, data: string)

  /** The two locals `generateContent` builds before calling the model. */
  datatype PreparedInput = PreparedInput(promptContext: string, filePart: Option<FilePart>)

  function AttachmentHeader(fileName: string): string
  {
    AttachmentHeaderOpen + fileName + AttachmentHeaderClose
  }

  /** What `generateContent` makes of the context and the attachment. */
  function Prepare(data: FormData, file: Option<UploadedFile>): (r: Result<PreparedInput, Thrown>)
    // the typed context is only ever extended, never replaced
    ensures r.Ok? ==> data.context <= r.value.promptContext
    // a binary part carries the file's own MIME type and leaves the context alone
    ensures r.Ok? && r.value.filePart.Some? ==>
              file.Some? && Classify(file.value.mimeType) == BinaryPart &&
              r.value.filePart.value.mimeType == file.value.mimeType &&
              r.value.promptContext == data.context
    // only a text file changes the context
    ensures r.Ok? && r.value.promptContext != data.context ==>
              file.Some? && Classify(file.value.mimeType) == InlineText
    // failures come only from reading a file that is not ignored
    ensures r.Err? ==> file.Some? && Classify(file.value.mimeType) != Ignored
    // and a failed read always fails the step with its own error: nothing is silently dropped
    ensures file.Some? && Classify(file.value.mimeType) == InlineText && file.value.textRead.ReadFailed? ==>
              r == Err(file.value.textRead.reason)
    ensures file.Some? && Classify(file.value.mimeType) == BinaryPart && FileToBase64(file.value).Err? ==>
              r == Err(FileToBase64(file.value).error)
    // a successful read always yields its content: the text inlined, or a part carrying the payload
    ensures file.Some? && Classify(file.value.mimeType) == InlineText && file.value.textRead.Loaded? ==>
              r == Ok(PreparedInput(data.context + AttachmentHeader(file.value.name) + file.value.textRead.data, None))
    ensures file.Some? && Classify(file.value.mimeType) == BinaryPart && FileToBase64(file.value).Ok? ==>
              r == Ok(PreparedInput(data.context, Some(FilePart(file.value.mimeType, FileToBase64(file.value).value))))
  {
    match file
    case None => Ok(PreparedInput(data.context, None))
    case Some(f) =>
      match Classify(f.mimeType)
      case InlineText =>
        (match f.textRead
         case Loaded(text) => Ok(PreparedInput(data.context + AttachmentHeader(f.name) + text, None))
         case ReadFailed(reason) => Err(reason))
      case BinaryPart =>
        (match FileToBase64(f)
         case Ok(encoded) => Ok(PreparedInput(data.context, Some(FilePart(f.mimeType, encoded))))
         case Err(reason) => Err(reason))
      case Ignored => Ok(PreparedInput(data.context, None))
  }

  lemma PrepareWithoutFile(data: FormData)
    ensures Prepare(data, None) == Ok(PreparedInput(data.context, None))
  {
  }

  /** A text file is inlined under its header; no binary part is built. */
  lemma PrepareTextFile(data: FormData, f: UploadedFile, text: string)
    requires StartsWith(f.mimeType, TextPrefix) && f.textRead == Loaded(text)
    ensures Prepare(data, Some(f)) ==
              Ok(PreparedInput(data.context + "\n\n[Dữ liệu từ tệp đính kèm " + f.name + "]:\n" + text, None))
  {
    assert data.context + AttachmentHeader(f.name) + text ==
           data.context + AttachmentHeaderOpen + f.name + AttachmentHeaderClose + text;
  }

  /** An image or PDF becomes a binary part carrying its MIME type and the
      data URL's second field, whatever further fields follow it. */
  lemma PrepareBinaryFile(data: FormData, f: UploadedFile, header: string, payload: string, tail: string)
    requires !StartsWith(f.mimeType, TextPrefix)
    requires StartsWith(f.mimeType, ImagePrefix) || f.mimeType == PdfType
    requires ',' !in header && ',' !in payload && payload != ""
    requires tail == "" || tail[0] == ','
    requires f.dataUrlRead == Loaded(header + "," + payload + tail)
    ensures Prepare(data, Some(f)) == Ok(PreparedInput(data.context, Some(FilePart(f.mimeType, payload))))
  {
    DataUrlPayloadOfFields(header, payload, tail);
  }

  /** Any other MIME type is silently ignored. */
  lemma PrepareIgnoredFile(data: FormData, f: UploadedFile)
    requires !StartsWith(f.mimeType, TextPrefix) && !StartsWith(f.mimeType, ImagePrefix)
    requires f.mimeType != PdfType
    ensures Prepare(data, Some(f)) == Ok(PreparedInput(data.context, None))
  {
  }

  /** The text and image prefixes exclude each other, so the order of the
      two tests does not matter. */
  lemma TextAndImageDisjoint(mimeType: string)
    ensures !(StartsWith(mimeType, TextPrefix) && StartsWith(mimeType, ImagePrefix))
  {
    if StartsWith(mimeType, TextPrefix) {
      assert mimeType[0] == mimeType[..|TextPrefix|][0] == 't';
      assert |mimeType| < |ImagePrefix| || mimeType[..|ImagePrefix|][0] == 't';
    }
  }

  /** `generateContent` up to the model call: the two locals are updated in
      place, branch by branch. */
  method PrepareInput(data: FormData, file: Option<UploadedFile>) returns (r: Result<PreparedInput, Thrown>)
    ensures r == Prepare(data, file)
  {
    var promptContext := data.context;
    var filePart: Option<FilePart> := None;
    if file.Some? {
      var f := file.value;
      if StartsWith(f.mimeType, TextPrefix) {
        match f.textRead {
          case ReadFailed(reason) =>
            return Err(reason);
          case Loaded(text) =>
            promptContext := promptContext + AttachmentHeader(f.name) + text;
        }
      } else if StartsWith(f.mimeType, ImagePrefix) || f.mimeType == PdfType {
        var encoded := FileToBase64(f);
        if encoded.Err? {
          return Err(encoded.error);
        }
        filePart := Some(FilePart(f.mimeType, encoded.value));
      }
    }
    r := Ok(PreparedInput(promptContext, filePart));
  }

  // ---------------------------------------------------------------------
  // Request shape
  // ---------------------------------------------------------------------

  /** The prompt, reduced to the parts that vary: the context line and the
      four selections (the rest of the template is fixed text). */
  datatype Prompt = Prompt(contextLine: string, goal: string, platform: string, audience: string, tone: string)

  datatype Part = TextPart(text: Prompt) | InlineData(inlineData: FilePart)

  /** `contents`: the prompt alone, or `{ parts: [prompt, filePart] }`. */
  datatype Contents = PromptText(prompt: Prompt) | Parts(parts: seq<Part>)

  function BuildPrompt(data: FormData, promptContext: string): (p: Prompt)
    ensures p.contextLine != ""
    ensures promptContext != "" ==> p.contextLine == promptContext
    ensures promptContext == "" ==> p.contextLine == "Không có"
    ensures (p.goal, p.platform, p.audience, p.tone) == (data.goal, data.platform, data.audience, data.tone)
  {
    Prompt(if promptContext == "" then NoContext else promptContext, data.goal, data.platform, data.audience, data.tone)
  }

  /** The prompt a request carries, whatever its shape. */
  function PromptOf(c: Contents): Option<Prompt>
  {
    match c
    case PromptText(p) => Some(p)
    case Parts(ps) => if |ps| >= 1 && ps[0].TextPart? then Some(ps[0].text) else None
  }

  /** The binary part a request carries, if any. */
  function AttachedPart(c: Contents): Option<FilePart>
  {
    match c
    case PromptText(_) => None
    case Parts(ps) => if |ps| == 2 && ps[1].InlineData? then Some(ps[1].inlineData) else None
  }

  function RequestContents(data: FormData, prepared: PreparedInput): (c: Contents)
    ensures c.Parts? <==> prepared.filePart.Some?
    ensures c.Parts? ==> |c.parts| == 2
    ensures PromptOf(c) == Some(BuildPrompt(data, prepared.promptContext))
    ensures AttachedPart(c) == prepared.filePart
  {
    var prompt := BuildPrompt(data, prepared.promptContext);
    match prepared.filePart
    case Some(part) => Parts([TextPart(prompt), InlineData(part)])
    case None => PromptText(prompt)
  }

  /** With an empty context and only an image or PDF, the prompt says
      "Không có" and the request has two parts. */
  lemma EmptyContextWithBinaryFile(data: FormData, f: UploadedFile)
    requires data.context == ""
    requires Prepare(data, Some(f)).Ok? && Classify(f.mimeType) == BinaryPart
    ensures var c := RequestContents(data, Prepare(data, Some(f)).value);
            c.Parts? && PromptOf(c).value.contextLine == "Không có"
  {
  }

  // ---------------------------------------------------------------------
  // Response check
  // ---------------------------------------------------------------------

  /** A value `JSON.parse` can produce. */
  datatype Json =
    | JNull
    | JBool(b: bool)
    | JNumber(n: real)
    | JString(s: string)
    | JArray(items: seq<Json>)
    | JObject(fields: map<string, Json>)

  /** `value[key]` for a parsed value other than `null`: defined only on
      objects that hold the key. */
  function Property(j: Json, key: string): Option<Json>
  {
    if j.JObject? && key in j.fields then Some(j.fields[key]) else None
  }

  predicate IsStringProperty(j: Json, key: string)
  {
    Property(j, key).Some? && Property(j, key).value.JString?
  }

  /** The shape the service accepts, stated declaratively. */
  ghost predicate WellShaped(j: Json)
  {
    && IsStringProperty(j, "title")
    && IsStringProperty(j, "post")
    && Property(j, "hashtags").Some?
    && Property(j, "hashtags").value.JArray?
    && forall i :: 0 <= i < |Property(j, "hashtags").value.items| ==>
         Property(j, "hashtags").value.items[i].JString?
  }

  /** `items.every(h => typeof h === 'string')`, keeping the strings. */
  function StringsOf(items: seq<Json>): (r: Option<seq<string>>)
    ensures r.Some? <==> forall i :: 0 <= i < |items| ==> items[i].JString?
    ensures r.Some? ==> |r.value| == |items| && forall i :: 0 <= i < |items| ==> items[i] == JString(r.value[i])
  {
    if |items| == 0 then Some([])
    else if !items[0].JString? then None
    else match StringsOf(items[1..])
      case None => None
      case Some(rest) => Some([items[0].s] + rest)
  }

  function JsonStrings(strings: seq<string>): (items: seq<Json>)
    ensures |items| == |strings|
    ensures forall i :: 0 <= i < |strings| ==> items[i] == JString(strings[i])
  {
    seq(|strings|, i requires 0 <= i < |strings| => JString(strings[i]))
  }

  /** The JSON object a well-formed reply carries for a result. */
  function ToJson(g: GenerationResult): Json
  {
    JObject(map["title" := JString(g.title), "post" := JString(g.post), "hashtags" := JArray(JsonStrings(g.hashtags))])
  }

  /** The field-by-field check on the parsed reply, before any error is
      collapsed. Reading a property of `null` throws the engine's TypeError. */
  function CheckShape(parsed: Json): (r: Result<GenerationResult, Thrown>)
    ensures r.Ok? <==> WellShaped(parsed)
    ensures r.Ok? ==>
              && Property(parsed, "title") == Property(ToJson(r.value), "title")
              && Property(parsed, "post") == Property(ToJson(r.value), "post")
              && Property(parsed, "hashtags") == Property(ToJson(r.value), "hashtags")
    ensures r.Err? ==> r.error == ErrorObject(if parsed.JNull? then NullPropertyRead else ShapeMismatch)
  {
    if parsed.JNull? then Err(ErrorObject(NullPropertyRead))
    else if IsStringProperty(parsed, "title") && IsStringProperty(parsed, "post")
            && Property(parsed, "hashtags").Some? && Property(parsed, "hashtags").value.JArray?
    then
      match StringsOf(Property(parsed, "hashtags").value.items)
      case Some(hashtags) =>
        var g := GenerationResult(Property(parsed, "title").value.s, Property(parsed, "post").value.s, hashtags);
        assert JsonStrings(hashtags) == Property(parsed, "hashtags").value.items;
        Ok(g)
      case None => Err(ErrorObject(ShapeMismatch))
    else Err(ErrorObject(ShapeMismatch))
  }

  /** Every result, sent as the schema asks, passes the check unchanged. */
  lemma CheckShapeOfToJson(g: GenerationResult)
    ensures CheckShape(ToJson(g)) == Ok(g)
  {
    var j := ToJson(g);
    assert Property(j, "hashtags").value.items == JsonStrings(g.hashtags);
    var strings := StringsOf(JsonStrings(g.hashtags));
    assert strings.Some?;
    assert strings.value == g.hashtags;
  }

  /** A reply with an empty hashtag list is accepted. */
  lemma EmptyHashtagsAccepted(title: string, post: string)
    ensures CheckShape(JObject(map["title" := JString(title), "post" := JString(post), "hashtags" := JArray([])]))
            == Ok(GenerationResult(title, post, []))
  {
  }

  /** A hashtag that is not a string rejects the whole reply. */
  lemma NonStringHashtagRejected(parsed: Json, i: nat)
    requires Property(parsed, "hashtags").Some? && Property(parsed, "hashtags").value.JArray?
    requires i < |Property(parsed, "hashtags").value.items|
    requires !Property(parsed, "hashtags").value.items[i].JString?
    ensures CheckShape(parsed) == Err(ErrorObject(ShapeMismatch))
  {
  }

  // ---------------------------------------------------------------------
  // The model call and its error handling
  // ---------------------------------------------------------------------

  /** The text of the model's reply after `JSON.parse`: a parsed value, or
      the error thrown (text missing or not JSON). */
  datatype ReplyBody = Malformed(reason: Thrown) | WellFormed(value: Json)

  /** The outcome of the network call: rejected by the client, or a reply. */
  datatype ApiResponse = Rejected(reason: Thrown) | Replied(body: ReplyBody)

  /** The body of the `try` block: the call, the parse, the check. */
  function ResponseOutcome(response: ApiResponse): Result<GenerationResult, Thrown>
  {
    match response
    case Rejected(reason) => Err(reason)
    case Replied(Malformed(reason)) => Err(reason)
    case Replied(WellFormed(parsed)) => CheckShape(parsed)
  }

  /** The `catch` block: every error becomes the one generic error. */
  function Collapsed(r: Result<GenerationResult, Thrown>): (c: Result<GenerationResult, Thrown>)
    ensures c.Ok? <==> r.Ok?
    ensures c.Ok? ==> c == r
    ensures c.Err? ==> c.error == ErrorObject(GenerationFailure)
  {
    match r
    case Ok(_) => r
    case Err(_) => Err(ErrorObject(GenerationFailure))
  }

  /** What `generateContent` resolves or rejects with. */
  function Generate(data: FormData, file: Option<UploadedFile>, response: ApiResponse): (r: Result<GenerationResult, Thrown>)
    // a result is returned only when the reply parsed and passed the check, and it is that reply's content
    ensures r.Ok? <==> Prepare(data, file).Ok? && response.Replied? && response.body.WellFormed?
                       && WellShaped(response.body.value)
    ensures r.Ok? ==> CheckShape(response.body.value) == Ok(r.value)
    // once the attachment is prepared, every failure is the generic one
    ensures Prepare(data, file).Ok? && r.Err? ==> r.error == ErrorObject(GenerationFailure)
    // attachment failures escape before the `try` and keep their own error
    ensures Prepare(data, file).Err? ==> r == Err(Prepare(data, file).error)
  {
    match Prepare(data, file)
    case Err(reason) => Err(reason)
    case Ok(_) => Collapsed(ResponseOutcome(response))
  }

  /** The shape-mismatch message is never what the caller sees once the
      attachment step has succeeded. */
  lemma ShapeMismatchNeverSurfaces(data: FormData, file: Option<UploadedFile>, response: ApiResponse)
    requires Prepare(data, file).Ok?
    ensures Generate(data, file, response) != Err(ErrorObject(ShapeMismatch))
  {
  }

  /** `generateContent`: prepare the input, send the request, check the
      reply. `sent` is the request handed to the model, if it got that far. */
  method GenerateContent(data: FormData, file: Option<UploadedFile>, response: ApiResponse)
    returns (r: Result<GenerationResult, Thrown>, ghost sent: Option<Contents>)
    ensures r == Generate(data, file, response)
    ensures sent.Some? <==> Prepare(data, file).Ok?
    ensures sent.Some? ==> sent.value == RequestContents(data, Prepare(data, file).value)
  {
    var prepared := PrepareInput(data, file);
    if prepared.Err? {
      return Err(prepared.error), None;
    }
    var contents := RequestContents(data, prepared.value);
    sent := Some(contents);
    r := Collapsed(ResponseOutcome(response));
  }
}
