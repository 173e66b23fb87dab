/**
 The recommendation endpoint (`POST /v1/users/{user_id}/recommendations`):
 the prompt built from the preferences, the chat-completion request, the
 walk down the completion envelope to the reply text, and the way every
 failure becomes an HTTP error (504 for a timeout, 502 for everything else).
 The HTTP exchange itself is a parameter: `send` maps the request to what
 came back.
 */
module Recommendations {
  import opened Basics
  import opened Text
  import opened Numbers
  import opened Json
  import opened Books
  import opened Extraction

  // ---------------------------------------------------------------------------
  // Settings read from the environment at import time
  // ---------------------------------------------------------------------------

  const DefaultModel := "deepseek/deepseek-chat-v3.1:free"

  datatype Settings = Settings(apiKey: string, model: string)

  /**
   `OPENROUTER_API_KEY` must be set and non-empty, or importing the router
   raises; `OPENROUTER_MODEL` falls back to the default only when unset.
   */
  function LoadSettings(keyEnv: Option<string>, modelEnv: Option<string>): (r: Option<Settings>)
    ensures r.Some? <==> keyEnv.Some? && |keyEnv.value| > 0
    ensures r.Some? ==> r.value.apiKey == keyEnv.value
    ensures r.Some? ==> r.value.model == (if modelEnv.Some? then modelEnv.value else DefaultModel)
  {
    if keyEnv.None? || |keyEnv.value| == 0 then None
    else Some(Settings(keyEnv.value, if modelEnv.Some? then modelEnv.value else DefaultModel))
  }

  /**
   An empty API key is refused as a missing one is (`if not OPENROUTER_API_KEY`),
   while an empty model name is kept: `getenv` falls back to the default only
   for an unset variable.
   */
  lemma KeyRequiredModelKept(key: string, modelEnv: Option<string>)
    ensures LoadSettings(None, modelEnv).None? && LoadSettings(Some(""), modelEnv).None?
    ensures |key| > 0 ==> LoadSettings(Some(key), Some("")) == Some(Settings(key, ""))
    ensures |key| > 0 ==> LoadSettings(Some(key), None) == Some(Settings(key, DefaultModel))
  {
  }

  // ---------------------------------------------------------------------------
  // Prompt
  // ---------------------------------------------------------------------------

  const PromptIntro := "Ты книжный ассистент. Дай 5 рекомендаций."
  const FavoritesLabel := "Любимые книги: "
  const GenresLabel := "Жанры: "
  const AuthorsLabel := "Авторы: "
  const FormatLabel := "Ответ строго JSON-массивом: "
  const ShapeTitle := "[{\"title\":\"...\","
  const ShapeAuthor := "\"author\":\"...\","
  const ShapeReason := "\"reason\":\"...\"}, ...]"
  const FormatShape := ShapeTitle + ShapeAuthor + ShapeReason
  const PromptFormat := FormatLabel + FormatShape

  /** The five lines of `PROMPT` once the three lists are filled in. */
  function PromptLines(p: Prefs): seq<string>
  {
    [PromptIntro,
     FavoritesLabel + JoinOrDash(p.favorites),
     GenresLabel + JoinOrDash(p.genres),
     AuthorsLabel + JoinOrDash(p.authors),
     PromptFormat]
  }

  /** `PROMPT.format(...)`: the template's lines joined by newlines. */
  function Prompt(p: Prefs): string
  {
    Join("\n", PromptLines(p))
  }

  /** No element of the list has a line break in it. */
  predicate SingleLine(xs: seq<string>)
  {
    forall i :: 0 <= i < |xs| ==> NoneOf(xs[i], IsNewline)
  }

  lemma DashedSingleLine(xs: seq<string>)
    requires SingleLine(xs)
    ensures NoneOf(JoinOrDash(xs), IsNewline)
  {
    if !(xs == [] || xs == [""]) {
      JoinNoneOf(", ", xs, IsNewline);
    }
  }

  lemma LabelledSingleLine(tag: string, xs: seq<string>)
    requires NoneOf(tag, IsNewline)
    requires SingleLine(xs)
    ensures NoneOf(tag + JoinOrDash(xs), IsNewline)
  {
    DashedSingleLine(xs);
    NoneOfConcat(tag, JoinOrDash(xs), IsNewline);
  }

  /**
   When no preference contains a line break, the prompt reads back as exactly
   five lines: the fixed first and last line, and one line per list showing
   its `", "`-join, or `-` when that join is empty.
   */
  lemma PromptReadsBack(p: Prefs)
    requires SingleLine(p.favorites) && SingleLine(p.genres) && SingleLine(p.authors)
    ensures Split(Prompt(p), IsNewline) == PromptLines(p)
    ensures PromptLines(p)[1] == FavoritesLabel + (if p.favorites == [] || p.favorites == [""] then "-" else Join(", ", p.favorites))
    ensures PromptLines(p)[2] == GenresLabel + (if p.genres == [] || p.genres == [""] then "-" else Join(", ", p.genres))
    ensures PromptLines(p)[3] == AuthorsLabel + (if p.authors == [] || p.authors == [""] then "-" else Join(", ", p.authors))
  {
    var lines := PromptLines(p);
    LabelledSingleLine(FavoritesLabel, p.favorites);
    LabelledSingleLine(GenresLabel, p.genres);
    LabelledSingleLine(AuthorsLabel, p.authors);
    FixedLinesSingle();
    assert SingleLine(lines);
    SplitJoin(lines, '\n', IsNewline);
  }

  /** The template's fixed text has no line break except the four between its lines. */
  lemma FixedLinesSingle()
    ensures NoneOf(PromptIntro, IsNewline) && NoneOf(PromptFormat, IsNewline)
    ensures NoneOf(FavoritesLabel, IsNewline) && NoneOf(GenresLabel, IsNewline) && NoneOf(AuthorsLabel, IsNewline)
  {
    assert NoneOf(FormatLabel, IsNewline);
    assert NoneOf(ShapeTitle, IsNewline) && NoneOf(ShapeAuthor, IsNewline) && NoneOf(ShapeReason, IsNewline);
    NoneOfConcat(ShapeTitle, ShapeAuthor, IsNewline);
    NoneOfConcat(ShapeTitle + ShapeAuthor, ShapeReason, IsNewline);
    NoneOfConcat(FormatLabel, FormatShape, IsNewline);
  }

  // ---------------------------------------------------------------------------
  // Request and what came back
  // ---------------------------------------------------------------------------

  const Endpoint := "https://openrouter.ai/api/v1/chat/completions"
  const SystemInstruction := "Отвечай только JSON, без преамбулы."
  const TimeoutSeconds := 60

  datatype Message = Message(role: string, content: string)

  datatype Request = Request(
    url: string,
    authorization: string,
    contentType: string,
    model: string,
    messages: seq<Message>,
    timeoutSeconds: nat)

  /** The POST `_call_llm` sends: a system instruction, then the prompt as the user's message. */
  function ChatRequest(s: Settings, p: Prefs): Request
  {
    Request(Endpoint, "Bearer " + s.apiKey, "application/json", s.model,
            [Message("system", SystemInstruction), Message("user", Prompt(p))],
            TimeoutSeconds)
  }

  /**
   The exchange as `_call_llm` sees it: no answer within the timeout, any
   other exception of the client, or a status with the response text.
   */
  datatype Upstream = TimedOut | Broken | Replied(status: int, body: string)

  // ---------------------------------------------------------------------------
  // Envelope: (data.get("choices") or [{}])[0].get("message", {}).get("content", "")
  // ---------------------------------------------------------------------------

  /** The reply content, or `Stuck` where one of the lookups raises. */
  datatype Lookup = Found(content: Json) | Stuck

  /** `x or fallback` for an optional value. */
  function OrElse(v: Option<Json>, fallback: Json): Json
  {
    if v.Some? && Truthy(v.value) then v.value else fallback
  }

  /** `d.get(key, fallback)`. */
  function GetOr(fields: map<string, Json>, key: string, fallback: Json): Json
  {
    if key in fields then fields[key] else fallback
  }

  /**
   The chain of lookups. `.get` raises on anything but an object, and `[0]`
   gives an element only for a list (a truthy list is never empty); a string,
   a number or an object there raises.
   */
  function ReplyContent(data: Json): (r: Lookup)
    ensures !data.Obj? ==> r == Stuck
  {
    if !data.Obj? then Stuck
    else
      var choices := OrElse(Get(data.fields, "choices"), Arr([Obj(map[])]));
      if !choices.Arr? || |choices.items| == 0 then Stuck
      else
        var first := choices.items[0];
        if !first.Obj? then Stuck
        else
          var message := GetOr(first.fields, "message", Obj(map[]));
          if !message.Obj? then Stuck
          else Found(GetOr(message.fields, "content", Str("")))
  }

  /** The shape of a completion: `choices[0].message.content` exists and is `c`. */
  predicate Carries(data: Json, c: Json)
  {
    && data.Obj?
    && "choices" in data.fields
    && data.fields["choices"].Arr?
    && |data.fields["choices"].items| > 0
    && data.fields["choices"].items[0].Obj?
    && "message" in data.fields["choices"].items[0].fields
    && data.fields["choices"].items[0].fields["message"].Obj?
    && "content" in data.fields["choices"].items[0].fields["message"].fields
    && data.fields["choices"].items[0].fields["message"].fields["content"] == c
  }

  /**
   A truthy content is found exactly when the envelope has the completion
   shape with that content: every default along the way ends in `""`.
   */
  lemma FoundIffCarries(data: Json, c: Json)
    requires Truthy(c)
    ensures ReplyContent(data) == Found(c) <==> Carries(data, c)
  {
    if ReplyContent(data) == Found(c) {
      var choices := OrElse(Get(data.fields, "choices"), Arr([Obj(map[])]));
      if choices == Arr([Obj(map[])]) {
        assert false;
      }
      var first := choices.items[0];
      assert "message" in first.fields;
    }
  }

  /** Any content at `choices[0].message.content` is found as it is, a falsy one included. */
  lemma CarriesIsFound(data: Json, c: Json)
    requires Carries(data, c)
    ensures ReplyContent(data) == Found(c)
  {
  }

  /**
   A first choice that is an object but has no `message`, or a `message`
   object with no `content`, gives the empty content through the defaults.
   */
  lemma MissingMessageIsEmpty(data: Json)
    requires data.Obj? && "choices" in data.fields
    requires data.fields["choices"].Arr? && |data.fields["choices"].items| > 0
    requires data.fields["choices"].items[0].Obj?
    requires var first := data.fields["choices"].items[0].fields;
             "message" !in first || (first["message"].Obj? && "content" !in first["message"].fields)
    ensures ReplyContent(data) == Found(Str(""))
  {
  }

  /**
   A truthy `choices` that is not a list, a first choice that is not an
   object, or a `message` that is not an object makes the lookup raise.
   */
  lemma MalformedChoicesAreStuck(data: Json)
    requires data.Obj? && "choices" in data.fields && Truthy(data.fields["choices"])
    requires var ch := data.fields["choices"];
             || !ch.Arr?
             || !ch.items[0].Obj?
             || ("message" in ch.items[0].fields && !ch.items[0].fields["message"].Obj?)
    ensures ReplyContent(data) == Stuck
  {
  }

  /** An object without a (truthy) `choices` has empty content. */
  lemma NoChoicesIsEmpty(data: Json)
    requires data.Obj?
    requires "choices" !in data.fields || !Truthy(data.fields["choices"])
    ensures ReplyContent(data) == Found(Str(""))
  {
  }

  // ---------------------------------------------------------------------------
  // Outcome
  // ---------------------------------------------------------------------------

  /** The `detail` of each `HTTPException` the endpoint can answer with. */
  datatype Detail =
    | LlmHttp(status: int, body: string)   // "LLM HTTP {status}: {txt}"
    | LlmBadJson(excerpt: string)          // "LLM bad JSON response: {txt[:400]}"
    | LlmEmpty                             // "LLM returned empty content"
    | LlmTimeout                           // "LLM timeout"
    | LlmUnexpected                        // "LLM unexpected error: {e}"

  datatype HttpError = HttpError(code: int, detail: Detail)

  /** The detail text; `errorText` stands for `str(e)` of the unexpected exception. */
  function DetailText(d: Detail, errorText: string): string
  {
    match d
    case LlmHttp(status, body) => "LLM HTTP " + ShowInt(status) + ": " + body
    case LlmBadJson(excerpt) => "LLM bad JSON response: " + excerpt
    case LlmEmpty => "LLM returned empty content"
    case LlmTimeout => "LLM timeout"
    case LlmUnexpected => "LLM unexpected error: " + errorText
  }

  /** What `_call_llm` raises: its own `HTTPException`, a timeout, or any other exception. */
  datatype Raised = Raise(error: HttpError) | TimeoutError | OtherError

  /** How much of an unparsable envelope the error detail quotes. */
  const ExcerptLength := 400

  /** `txt[:400]`. */
  function Excerpt(body: string): (r: string)
    ensures |r| == Min(ExcerptLength, |body|)
    ensures r == body[..|r|]
  {
    body[..Min(ExcerptLength, |body|)]
  }

  /** `_call_llm` once the exchange `up` is known. */
  function CallLlm(up: Upstream, host: Host): (r: Result<seq<Book>, Raised>)
    ensures r.Success? ==> 1 <= |r.value| <= MaxBooks
    ensures r.Failure? && r.error.Raise? ==> r.error.error.code == 502
  {
    match up
    case TimedOut => Failure(TimeoutError)
    case Broken => Failure(OtherError)
    case Replied(status, body) =>
      if status >= 400 then Failure(Raise(HttpError(502, LlmHttp(status, body))))
      else
        match host.parse(body)
        case None => Failure(Raise(HttpError(502, LlmBadJson(Excerpt(body)))))
        case Some(data) =>
          match ReplyContent(data)
          case Stuck => Failure(OtherError)
          case Found(content) =>
            if !Truthy(content) then Failure(Raise(HttpError(502, LlmEmpty)))
            else if !content.Str? then Failure(OtherError)
            else
              match Extract(content.s, host)
              case None => Failure(OtherError)
              case Some(books) => Success(books)
  }

  /**
   `recommend` once the exchange `up` is known: its own errors pass through,
   a timeout is 504, anything else 502. A success carries one to five titled
   books and comes only from a well-shaped envelope with non-empty text.
   */
  function Respond(up: Upstream, host: Host): (r: Result<seq<Book>, HttpError>)
    ensures r.Success? ==> 1 <= |r.value| <= MaxBooks
    ensures r.Success? ==> forall k :: 0 <= k < |r.value| ==> HasTitle(r.value[k]) && IsTrimmed(r.value[k].title)
    ensures r.Failure? ==> r.error.code == 502 || r.error.code == 504
    ensures r.Failure? ==> (r.error.code == 504 <==> up.TimedOut?)
    ensures up.TimedOut? ==> r == Failure(HttpError(504, LlmTimeout))
    ensures r.Success? ==>
              && up.Replied? && up.status < 400 && host.parse(up.body).Some?
              && exists text :: && |text| > 0 && Carries(host.parse(up.body).value, Str(text))
                                && Extract(text, host) == Some(r.value)
  {
    match CallLlm(up, host)
    case Success(books) =>
      var data := host.parse(up.body).value;
      var text := ReplyContent(data).content.s;
      FoundIffCarries(data, Str(text));
      assert Extract(text, host) == Some(books);
      Success(books)
    case Failure(Raise(e)) => Failure(e)
    case Failure(TimeoutError) => Failure(HttpError(504, LlmTimeout))
    case Failure(OtherError) => Failure(HttpError(502, LlmUnexpected))
  }

  /** The endpoint: the request built from the settings and preferences, sent, and its outcome answered. */
  function Recommend(s: Settings, p: Prefs, send: Request -> Upstream, host: Host): Result<seq<Book>, HttpError>
  {
    Respond(send(ChatRequest(s, p)), host)
  }

  /** An upstream status of 400 or more is reported as 502 with the status and the whole body. */
  lemma UpstreamStatusIs502(up: Upstream, host: Host)
    requires up.Replied? && up.status >= 400
    ensures Respond(up, host) == Failure(HttpError(502, LlmHttp(up.status, up.body)))
  {
  }

  /** An envelope that is not JSON is reported as 502 quoting its first 400 characters. */
  lemma BadEnvelopeIs502(up: Upstream, host: Host)
    requires up.Replied? && up.status < 400
    requires host.parse(up.body).None?
    ensures Respond(up, host) == Failure(HttpError(502, LlmBadJson(Excerpt(up.body))))
  {
  }

  /** A parsed envelope whose content is missing or falsy is reported as empty content. */
  lemma EmptyContentIs502(up: Upstream, host: Host)
    requires up.Replied? && up.status < 400
    requires host.parse(up.body).Some?
    requires ReplyContent(host.parse(up.body).value).Found?
    requires !Truthy(ReplyContent(host.parse(up.body).value).content)
    ensures Respond(up, host) == Failure(HttpError(502, LlmEmpty))
  {
  }

  /** Any other exception of the client, before a status is known, is reported as 502. */
  lemma BrokenIs502(host: Host)
    ensures Respond(Broken, host) == Failure(HttpError(502, LlmUnexpected))
  {
  }

  /**
   Model text that is not JSON never fails the request: with a well-shaped
   envelope and a non-empty reply whose candidate does not parse, the
   answer is the line fallback.
   */
  lemma NonJsonReplySucceeds(up: Upstream, host: Host, text: string)
    requires up.Replied? && up.status < 400
    requires host.parse(up.body).Some?
    requires Carries(host.parse(up.body).value, Str(text))
    requires |text| > 0
    requires host.parse(Candidate(text)).None?
    ensures Respond(up, host) == Success(Normalise(FallbackItems(text), host.show))
  {
    var data := host.parse(up.body).value;
    FoundIffCarries(data, Str(text));
    assert ReplyContent(data) == Found(Str(text));
    FallbackAccepted(text, host.show);
    assert Extract(text, host) == Some(Normalise(FallbackItems(text), host.show));
  }
}
