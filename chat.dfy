/** The AI chat session of src/components/ai/GeminiAI.tsx: an append-only
    transcript, a send guard, the request payload (text part, then inline
    image part), the extraction of the reply text with its fixed fallback,
    the fixed apology on failure, and the reset that ends every cycle.

    The session is a two-state machine, Idle (generatingAnswer false) and
    Generating (true). `Send` is handleSend together with generateAnswer up
    to the HTTP call, which it runs in two steps, `HandleSend` and
    `BeginAnswer`; `Complete` is the rest of generateAnswer, given the
    outcome of that call. */
module Chat {
  import opened Common

  /** MessageType.type (src/components/ai/ChatMessage.tsx). */
  datatype Role = User | Bot | Answer

  /** MessageType; the timestamp is the clock reading in milliseconds. */
  datatype Message = Message(role: Role, content: string, timestamp: int, imageUrl: Option<string>)

  /** The file chosen in the file input; only its declared type is used. */
  datatype ImageFile = ImageFile(name: string, mimeType: string)

  /** One element of the request's `parts`: `{ text }` or
      `{ inlineData: { mimeType, data } }`. A `data` of None is the
      `undefined` that indexing past the end of the split yields. */
  datatype Part = TextPart(text: string) | InlineDataPart(mimeType: string, data: Option<string>)

  /** The response body, every level optional, as GeminiResponse declares. */
  datatype ResponsePart = ResponsePart(text: Option<string>)
  datatype ResponseContent = ResponseContent(parts: Option<seq<ResponsePart>>)
  datatype Candidate = Candidate(content: Option<ResponseContent>)
  datatype GeminiResponse = GeminiResponse(candidates: Option<seq<Candidate>>)

  const NoResponse: string := "No response received."
  const Apology: string := "Sorry - Something went wrong. Please try again!"

  // ---------------------------------------------------------------------
  // Send guard

  /** Nothing to send: the trimmed input is empty and no image is chosen.
      handleSend returns early on it, and the send button is disabled. */
  predicate IsBlank(input: string, image: Option<ImageFile>): (blank: bool)
    ensures blank <==> AllWhitespace(input) && image.None?
  {
    TrimEmptyIff(input);
    Trim(input) == "" && image.None?
  }

  /** The user message's imageUrl: `imagePreviewUrl || undefined`. */
  function ImageRef(preview: Option<string>): (r: Option<string>)
    ensures r.Some? <==> preview.Some? && preview.value != ""
    ensures r.Some? ==> r == preview
  {
    if preview.Some? && preview.value != "" then preview else None
  }

  /** The message handleSend appends for the input `input`. */
  function UserMessage(input: string, now: int, preview: Option<string>): Message
  {
    Message(User, Trim(input), now, ImageRef(preview))
  }

  // ---------------------------------------------------------------------
  // Data URLs (section 3 of RFC 2397) and base64 (section 4 of RFC 4648)

  /** The data URL that a successful read produced, "" otherwise. */
  function ReadUrl(encoded: Result<string>): string
  {
    if encoded.Ok? then encoded.value else ""
  }

  /** What FileReader.readAsDataURL yields for a file of the given type. */
  function DataUrl(mimeType: string, payload: string): string
  {
    "data:" + mimeType + ";base64," + payload
  }

  /** The base64 alphabet with its padding character. */
  predicate IsBase64Char(c: char)
  {
    ('A' <= c <= 'Z') || ('a' <= c <= 'z') || ('0' <= c <= '9') || c == '+' || c == '/' || c == '='
  }

  /** `dataUrl.split(",")[1]`: the piece after the first comma, up to the
      next comma if there is one; undefined when there is no comma. */
  function DataField(dataUrl: string): (r: Option<string>)
    ensures r.Some? <==> ',' in dataUrl
    ensures r.Some? ==> ',' !in r.value
  {
    var pieces := Split(dataUrl, ',');
    SplitIsSingleIff(dataUrl, ',');
    SplitPiecesLackSep(dataUrl, ',');
    if |pieces| > 1 then Some(pieces[1]) else None
  }

  /** Stripping the header gives back the base64 payload that the data URL
      carries, whenever the declared type has no comma. */
  lemma {:induction false} DataFieldStripsHeader(mimeType: string, payload: string)
    requires ',' !in mimeType
    requires forall k :: 0 <= k < |payload| ==> IsBase64Char(payload[k])
    ensures DataField(DataUrl(mimeType, payload)) == Some(payload)
  {
    var header := "data:" + mimeType + ";base64";
    assert DataUrl(mimeType, payload) == header + [','] + payload;
    assert ',' !in header by {
      assert header == "data:" + mimeType + ";base64";
      forall k | 0 <= k < |header| ensures header[k] != ',' {
        if 5 <= k < 5 + |mimeType| {
          assert header[k] == mimeType[k - 5];
        }
      }
    }
    assert ',' !in payload by {
      forall k | 0 <= k < |payload| ensures payload[k] != ',' {
        assert IsBase64Char(payload[k]);
      }
    }
    SplitAt(header, payload, ',');
    SplitNoSep(header, ',');
    SplitNoSep(payload, ',');
  }

  // ---------------------------------------------------------------------
  // Request payload

  /** The request parts for the trimmed text, the chosen image and the data
      URL read from it: a text part exactly when the text is non-empty,
      then an inline-data part exactly when an image is chosen. */
  ghost predicate IsPayload(parts: seq<Part>, text: string, image: Option<ImageFile>, dataUrl: string)
  {
    && |parts| == (if text != "" then 1 else 0) + (if image.Some? then 1 else 0)
    && (text != "" ==> parts[0] == TextPart(text))
    && match image
       case Some(file) => parts[|parts| - 1] == InlineDataPart(file.mimeType, DataField(dataUrl))
       case None => true
  }

  /** The payload is determined by the text, the image and the data URL. */
  lemma PayloadIsDetermined(p: seq<Part>, q: seq<Part>, text: string, image: Option<ImageFile>, dataUrl: string)
    requires IsPayload(p, text, image, dataUrl) && IsPayload(q, text, image, dataUrl)
    ensures p == q
  {
    if text != "" && image.Some? {
      assert p == [p[0], p[1]] && q == [q[0], q[1]];
    }
  }

  /** The parts list of generateAnswer, built by pushing. `encoded` is the
      outcome of reading the image as a data URL; it is not read when no
      image is chosen, and its failure is the exception that sends
      generateAnswer to its catch block. */
  method BuildParts(userInput: string, image: Option<ImageFile>, encoded: Result<string>)
    returns (parts: Result<seq<Part>>)
    ensures parts.Err? <==> image.Some? && encoded.Err?
    ensures parts.Ok? ==> IsPayload(parts.value, userInput, image, ReadUrl(encoded))
    ensures parts.Ok? ==> |parts.value| <= 2
  {
    var ps: seq<Part> := [];
    if userInput != "" {
      ps := ps + [TextPart(userInput)];
    }
    if image.Some? {
      if encoded.Err? {
        return Err(encoded.message);
      }
      ps := ps + [InlineDataPart(image.value.mimeType, DataField(encoded.value))];
    }
    parts := Ok(ps);
  }

  // ---------------------------------------------------------------------
  // Response

  /** `data?.candidates?.[0]?.content?.parts?.[0]?.text`. */
  function FirstText(data: GeminiResponse): (r: Option<string>)
    ensures data.candidates.None? || data.candidates.value == [] ==> r.None?
  {
    match data.candidates
    case None => None
    case Some(cs) =>
      if |cs| == 0 then None
      else match cs[0].content
        case None => None
        case Some(content) =>
          match content.parts
          case None => None
          case Some(ps) => if |ps| == 0 then None else ps[0].text
  }

  /** extractTextFromGemini: the first text, or the fallback when it is
      missing or empty (`||` treats "" as missing). */
  function ExtractText(data: GeminiResponse): (r: string)
    ensures r != ""
  {
    match FirstText(data)
    case Some(t) => if t != "" then t else NoResponse
    case None => NoResponse
  }

  /** The smallest well-formed reply carrying `t`. */
  function Reply(t: string): GeminiResponse
  {
    GeminiResponse(Some([Candidate(Some(ResponseContent(Some([ResponsePart(Some(t))]))))]))
  }

  /** Extraction recovers the text of a well-formed reply. */
  lemma ExtractReply(t: string)
    ensures t != "" ==> ExtractText(Reply(t)) == t
    ensures t == "" ==> ExtractText(Reply(t)) == NoResponse
  {
  }

  /** The fallback is returned exactly when no level of the path holds a
      non-empty text (or the text is the fallback itself); a missing
      `candidates` is one such case. */
  lemma ExtractFallbackIff(data: GeminiResponse)
    ensures ExtractText(data) == NoResponse <==>
      FirstText(data) == None || FirstText(data) == Some("") || FirstText(data) == Some(NoResponse)
    ensures data.candidates == None ==> ExtractText(data) == NoResponse
  {
  }

  /** The content of the answer message of a completed cycle. */
  function AnswerText(response: Result<GeminiResponse>): (r: string)
    ensures r != ""
    ensures response.Err? ==> r == Apology
    ensures response.Ok? ==> r == ExtractText(response.value)
  {
    match response
    case Ok(data) => ExtractText(data)
    case Err(_) => Apology
  }

  // ---------------------------------------------------------------------
  // The session

  class ChatSession {
    var chatHistory: seq<Message>
    var generatingAnswer: bool
    var input: string
    var selectedImage: Option<ImageFile>
    var imagePreviewUrl: Option<string>

    /** An image is chosen exactly when it has a preview. */
    ghost predicate Valid()
      reads this
    {
      selectedImage.Some? <==> imagePreviewUrl.Some?
    }

    constructor ()
      ensures Valid()
      ensures chatHistory == [] && !generatingAnswer && input == ""
      ensures selectedImage.None? && imagePreviewUrl.None?
    {
      chatHistory := [];
      generatingAnswer := false;
      input := "";
      selectedImage := None;
      imagePreviewUrl := None;
    }

    /** `disabled` of the send button: while generating, or with nothing to
        send. (The textarea is disabled exactly while generating.) */
    predicate SendDisabled()
      reads this
    {
      generatingAnswer || IsBlank(input, selectedImage)
    }

    /** Typing in the textarea, which is disabled while generating. */
    method SetInput(text: string)
      requires !generatingAnswer
      modifies this`input
      ensures input == text
    {
      input := text;
    }

    /** handleImageChange: a chosen file becomes the selection, with the
        object URL made for it as its preview; no file changes nothing. */
    method HandleImageChange(file: Option<ImageFile>, objectUrl: string)
      requires Valid()
      modifies this`selectedImage, this`imagePreviewUrl
      ensures Valid()
      ensures file.Some? ==> selectedImage == file && imagePreviewUrl == Some(objectUrl)
      ensures file.None? ==> selectedImage == old(selectedImage) && imagePreviewUrl == old(imagePreviewUrl)
    {
      if file.Some? {
        selectedImage := file;
        imagePreviewUrl := Some(objectUrl);
      }
    }

    /** removeImage. */
    method RemoveImage()
      modifies this`selectedImage, this`imagePreviewUrl
      ensures Valid()
      ensures selectedImage.None? && imagePreviewUrl.None?
    {
      selectedImage := None;
      imagePreviewUrl := None;
    }

    /** The catch block and the final reset of generateAnswer. */
    method FinishCycle(content: string, now: int)
      requires generatingAnswer
      modifies this`chatHistory, this`generatingAnswer, this`selectedImage, this`imagePreviewUrl
      ensures Valid()
      ensures chatHistory == old(chatHistory) + [Message(Answer, content, now, None)]
      ensures !generatingAnswer && selectedImage.None? && imagePreviewUrl.None?
    {
      chatHistory := chatHistory + [Message(Answer, content, now, None)];
      generatingAnswer := false;
      RemoveImage();
    }

    /** The first step of `Send`, handleSend up to its call of
        generateAnswer. With nothing to send, nothing happens. Otherwise one
        user message with the trimmed input and the preview is appended,
        the input is cleared, and the trimmed input is handed on. */
    method HandleSend(now: int) returns (userInput: Option<string>)
      requires !generatingAnswer
      modifies this`chatHistory, this`input
      ensures userInput.None? <==> IsBlank(old(input), selectedImage)
      ensures userInput.None? ==> chatHistory == old(chatHistory) && input == old(input)
      ensures userInput.Some? ==>
        && userInput.value == Trim(old(input))
        && input == ""
        && chatHistory == old(chatHistory) + [Message(User, userInput.value, now, ImageRef(imagePreviewUrl))]
    {
      var text := Trim(input);
      if text == "" && selectedImage.None? {
        return None;
      }
      chatHistory := chatHistory + [Message(User, text, now, ImageRef(imagePreviewUrl))];
      input := "";
      userInput := Some(text);
    }

    /** The second step of `Send`, generateAnswer up to the HTTP call, with
        the outcome of the file read: the session enters Generating
        and the returned payload is the body of the call. If the image
        cannot be read, the catch path runs at once: the apology is
        appended and the session is back to Idle with the image cleared. */
    method BeginAnswer(userInput: string, now: int, encoded: Result<string>) returns (request: Option<seq<Part>>)
      requires Valid()
      modifies this`chatHistory, this`generatingAnswer, this`selectedImage, this`imagePreviewUrl
      ensures Valid()
      ensures old(selectedImage).Some? && encoded.Err? ==>
        && request.None?
        && chatHistory == old(chatHistory) + [Message(Answer, Apology, now, None)]
        && !generatingAnswer && selectedImage.None? && imagePreviewUrl.None?
      ensures old(selectedImage).None? || encoded.Ok? ==>
        && request.Some?
        && IsPayload(request.value, userInput, old(selectedImage), ReadUrl(encoded))
        && chatHistory == old(chatHistory)
        && generatingAnswer
        && selectedImage == old(selectedImage) && imagePreviewUrl == old(imagePreviewUrl)
    {
      generatingAnswer := true;
      var parts := BuildParts(userInput, selectedImage, encoded);
      if parts.Err? {
        FinishCycle(Apology, now);
        return None;
      }
      request := Some(parts.value);
    }

    /** handleSend, which calls generateAnswer at once: with nothing to
        send nothing happens. Otherwise the user message (trimmed input,
        preview) is appended, the input is cleared and the session enters
        Generating, so no second send can start before `Complete`. If the
        chosen image cannot be read, the apology follows the user message
        at once and the session is back to Idle with the image cleared, and
        no request is made; otherwise the request carries the payload of
        the trimmed input and the image. Both callers (the Enter key in the
        textarea and the send button) are disabled while generating, hence
        the precondition. */
    method Send(now: int, encoded: Result<string>) returns (request: Option<seq<Part>>)
      requires Valid() && !generatingAnswer
      modifies this`chatHistory, this`input, this`generatingAnswer, this`selectedImage, this`imagePreviewUrl
      ensures Valid()
      ensures IsBlank(old(input), old(selectedImage)) ==>
        && request.None? && chatHistory == old(chatHistory) && input == old(input) && !generatingAnswer
        && selectedImage == old(selectedImage) && imagePreviewUrl == old(imagePreviewUrl)
      ensures !IsBlank(old(input), old(selectedImage)) ==>
        input == "" && |chatHistory| > |old(chatHistory)|
      ensures !IsBlank(old(input), old(selectedImage)) && old(selectedImage).Some? && encoded.Err? ==>
        && request.None?
        && chatHistory == old(chatHistory) + [UserMessage(old(input), now, old(imagePreviewUrl)), Message(Answer, Apology, now, None)]
        && !generatingAnswer && selectedImage.None? && imagePreviewUrl.None?
      ensures !IsBlank(old(input), old(selectedImage)) && (old(selectedImage).None? || encoded.Ok?) ==>
        && request.Some?
        && IsPayload(request.value, Trim(old(input)), old(selectedImage), ReadUrl(encoded))
        && chatHistory == old(chatHistory) + [UserMessage(old(input), now, old(imagePreviewUrl))]
        && generatingAnswer
        && selectedImage == old(selectedImage) && imagePreviewUrl == old(imagePreviewUrl)
    {
      ghost var before := chatHistory;
      var sent := HandleSend(now);
      if sent.None? {
        return None;
      }
      request := BeginAnswer(sent.value, now, encoded);
      if request.None? {
        AppendPair(before, UserMessage(old(input), now, old(imagePreviewUrl)), Message(Answer, Apology, now, None));
      }
    }

    /** The rest of generateAnswer, given the outcome of the HTTP call: one
        answer message (the extracted text, or the apology on any failure)
        is appended, nothing is rethrown, the session returns to Idle and
        the image is cleared. */
    method Complete(response: Result<GeminiResponse>, now: int)
      requires generatingAnswer
      modifies this
      ensures Valid()
      ensures chatHistory == old(chatHistory) + [Message(Answer, AnswerText(response), now, None)]
      ensures !generatingAnswer && selectedImage.None? && imagePreviewUrl.None?
      ensures input == old(input)
    {
      FinishCycle(AnswerText(response), now);
    }
  }

  /** While an answer is being generated the send button is disabled; once
      the session is Idle again (image cleared) it is disabled exactly when
      the input is all white space. */
  lemma SendDisabledStates(s: ChatSession)
    ensures s.generatingAnswer ==> s.SendDisabled()
    ensures !s.generatingAnswer && s.selectedImage.None? ==> (s.SendDisabled() <==> AllWhitespace(s.input))
  {
    TrimEmptyIff(s.input);
  }

  /** A whole text-only turn from Idle: typing a text with something to
      send, sending it and completing the call appends the user's message
      and then its answer, in that order and nothing else; the session is
      Idle again. `encoded` stands for whatever a file read would yield;
      with no image chosen it is never consulted. */
  method Converse(session: ChatSession, text: string, now: int, encoded: Result<string>, later: int, response: Result<GeminiResponse>)
    requires session.Valid() && !session.generatingAnswer && session.selectedImage.None?
    requires Trim(text) != ""
    modifies session
    ensures session.Valid() && !session.generatingAnswer
    ensures session.chatHistory == old(session.chatHistory) + [
      Message(User, Trim(text), now, None),
      Message(Answer, AnswerText(response), later, None)]
  {
    ghost var before := session.chatHistory;
    session.SetInput(text);
    var request := session.Send(now, encoded);
    session.Complete(response, later);
    AppendPair(before, Message(User, Trim(text), now, None), Message(Answer, AnswerText(response), later, None));
  }

  /** A whole turn with an image chosen and readable: the user's message
      (the trimmed text and the preview) and then the answer are appended,
      in that order and nothing else, and the session is Idle again with
      the image cleared. */
  method ConverseWithImage(session: ChatSession, now: int, encoded: Result<string>, later: int, response: Result<GeminiResponse>)
    requires session.Valid() && !session.generatingAnswer && session.selectedImage.Some? && encoded.Ok?
    modifies session
    ensures session.Valid() && !session.generatingAnswer && session.selectedImage.None?
    ensures session.chatHistory == old(session.chatHistory) + [
      UserMessage(old(session.input), now, old(session.imagePreviewUrl)),
      Message(Answer, AnswerText(response), later, None)]
  {
    ghost var before := session.chatHistory;
    ghost var asked := UserMessage(session.input, now, session.imagePreviewUrl);
    var request := session.Send(now, encoded);
    session.Complete(response, later);
    AppendPair(before, asked, Message(Answer, AnswerText(response), later, None));
  }

  lemma AppendPair<T>(s: seq<T>, x: T, y: T)
    ensures s + [x] + [y] == s + [x, y]
  {
  }
}
