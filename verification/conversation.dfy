/**
 The chat bot's handlers and the dispatcher that picks one per incoming text
 message. The bot keeps two per-user maps (the recommendation wizard and the
 quiz); the backend is reached over HTTP, modelled as a function from a
 request to its outcome. A turn is what one message does: the new state, the
 replies sent, and the requests made, in order.
 */
module Conversation {
  import opened Basics
  import opened Text
  import opened Numbers
  import opened Json
  import opened Books
  import opened Extraction
  import opened Frontend

  // ---------------------------------------------------------------------------
  // Messages, users and state
  // ---------------------------------------------------------------------------

  datatype User = User(id: int, username: Option<string>, firstName: Option<string>, lastName: Option<string>)

  /** An incoming text message. */
  datatype Msg = Msg(user: User, text: string)

  /** The step of the recommendation wizard, with the answers given so far (`s.get(key, [])`). */
  datatype Step = BooksStep | GenresStep | AuthorsStep
  datatype Wizard = Wizard(step: Step, favorites: seq<string>, genres: seq<string>)

  /** `quiz_state[uid]`: waiting for the first answer, or for the second with the first kept. */
  datatype QuizState = AskFirst | AskSecond(favorite: string)

  /** `user_session` and `quiz_state`, keyed by the Telegram user id. */
  datatype BotState = BotState(sessions: map<int, Wizard>, quizzes: map<int, QuizState>)

  /** A request to the backend. */
  datatype Call = Get(url: string) | Post(url: string, payload: Json) | Put(url: string, payload: Json)

  /** What `requests` hands back: an exception (refused, timed out), or a status with its body, if that is JSON. */
  datatype Response = NoResponse | Response(status: int, body: Option<Json>)

  /** A message sent back: a text, or the error message with the given prefix (the exception text is not modelled). */
  datatype Reply = Say(text: string) | Fail(prefix: string)

  /**
   What a turn runs against: `API_V1`, the bot's own username, the backend
   (the outcome of each request), `str()` of a non-string value, and whether
   Telegram takes a message of the given text (it refuses, for instance, one
   longer than its message-length limit, and then `send` raises).
   */
  datatype Env = Env(base: string, botName: string, http: Call -> Response, show: Json -> string,
                     accepts: string -> bool)

  datatype Turn = Turn(state: BotState, replies: seq<Reply>, calls: seq<Call>)

  // ---------------------------------------------------------------------------
  // Texts
  // ---------------------------------------------------------------------------

  const RecLabel := "📚 Рекомендации"
  const QuizLabel := "🧩 Викторина"
  const ProfileLabel := "👤 Профиль"

  const Greeting := "Привет! Выбери действие:"
  const EmptyProfile := "Профиль пока пуст. Пройди «📚 Рекомендации» или «🧩 Викторина»."
  const ProfileFailed := "Не удалось получить профиль: "
  const Preparing := "Готовлю рекомендации…"
  const NothingToSuggest := "Пока нечего посоветовать 😔"
  const RequestFailed := "Ошибка запроса: "
  const AskBooks := "Напиши 2–3 любимые книги через запятую (например: Маленький принц, Дюна, Три товарища)"
  const AskGenres := "Окей! Теперь жанры (через запятую): фантастика, классика, детектив ..."
  const AskAuthors := "И пару любимых авторов (через запятую), или '-' если нет:"
  const AskFirstQuestion := "Вопрос 1: Какая твоя любимая книга?"
  const AskSecondQuestion := "Вопрос 2: Сколько книг ты читаешь в год? (цифрой)"
  const NeedNumber := "Нужно число. Например: 5"
  const QuizSaveFailed := "Не удалось сохранить результаты викторины: "
  const QuizDone := "Готово! Теперь можешь нажать «📚 Рекомендации». Я буду учитывать твою любимую книгу."

  /** The texts the authors step ignores (after trimming): the menu buttons and two commands. */
  predicate IsMenuText(t: string)
  {
    t == RecLabel || t == QuizLabel || t == ProfileLabel || t == "/start" || t == "/cancel"
  }

  // ---------------------------------------------------------------------------
  // The /start command filter
  // ---------------------------------------------------------------------------

  /** The longest prefix of `s` without a character of `stop`. */
  function TakeUntil(s: string, stop: char -> bool): (r: string)
    ensures |r| <= |s| && r == s[..|r|]
    ensures NoneOf(r, stop)
    ensures |r| < |s| ==> stop(s[|r|])
    decreases |s|
  {
    if s == [] || stop(s[0]) then [] else [s[0]] + TakeUntil(s[1..], stop)
  }

  /** `s.split()[0]`, or "" when there is no word. */
  function FirstWord(s: string): string
  {
    TakeUntil(LStrip(s, IsSpace), IsSpace)
  }

  predicate IsAt(c: char)
  {
    c == '@'
  }

  /** Lower-casing of the ASCII letters; every other character is kept. */
  function LowerAscii(s: string): (r: string)
    ensures |r| == |s|
    ensures forall k :: 0 <= k < |s| && 'A' <= s[k] <= 'Z' ==>
              'a' <= r[k] <= 'z' && r[k] as int - 'a' as int == s[k] as int - 'A' as int
    ensures forall k :: 0 <= k < |s| && !('A' <= s[k] <= 'Z') ==> r[k] == s[k]
    ensures forall k :: 0 <= k < |r| ==> !('A' <= r[k] <= 'Z')
  {
    seq(|s|, k requires 0 <= k < |s| => if 'A' <= s[k] <= 'Z' then (s[k] as int + 32) as char else s[k])
  }

  /** Lower-casing twice is lower-casing once. */
  lemma LowerAsciiIdempotent(s: string)
    ensures LowerAscii(LowerAscii(s)) == LowerAscii(s)
  {
  }

  /**
   The `commands=['start']` filter: the first word is `/start` (any letter
   case), optionally followed by `@` and a mention, which when non-empty must
   name this bot (any letter case).
   */
  predicate IsStartCommand(text: string, botName: string)
  {
    var w := FirstWord(text);
    && |w| > 0
    && w[0] == '/'
    && var rest := w[1..];
       var command := TakeUntil(rest, IsAt);
       var mention := if |command| < |rest| then rest[|command| + 1..] else "";
       && LowerAscii(command) == "start"
       && (mention == "" || LowerAscii(mention) == LowerAscii(botName))
  }

  /** A text none of the four command or button handlers ahead of the state handlers takes. */
  predicate Plain(text: string, botName: string)
  {
    !IsStartCommand(text, botName) && text != ProfileLabel && text != RecLabel
  }

  // ---------------------------------------------------------------------------
  // HTTP
  // ---------------------------------------------------------------------------

  /** `raise_for_status()` raises for client and server errors. */
  predicate Raises(status: int)
  {
    400 <= status < 600
  }

  /** The response passed `raise_for_status()` and `r.json()`. */
  predicate Answered(resp: Response)
  {
    resp.Response? && !Raises(resp.status) && resp.body.Some?
  }

  /** `_safe_get`: the decoded body, or None for 404, an error status, an exception or a body that is not JSON. */
  function SafeGet(resp: Response): (r: Option<Json>)
    ensures r.Some? <==> Answered(resp) && resp.status != 404
    ensures r.Some? ==> r.value == resp.body.value
  {
    if resp.NoResponse? || resp.status == 404 then None
    else if Raises(resp.status) || resp.body.None? then None
    else resp.body
  }

  /** `/users/{uid}/...` under the API base. */
  function UserPath(env: Env, uid: int, tail: string): string
  {
    UserUrl(env.base, uid, tail)
  }

  /** The body of the profile update the bot sends after a successful recommendation. */
  function ProfileUpdate(user: User, genres: Json, authors: Json): Json
  {
    Obj(map["username" := OptStr(user.username),
            "first_name" := OptStr(user.firstName),
            "last_name" := OptStr(user.lastName),
            "lang" := Str("ru"),
            "preferred_genres" := genres,
            "preferred_authors" := authors])
  }

  function OptStr(v: Option<string>): Json
  {
    if v.Some? then Str(v.value) else Null
  }

  // ---------------------------------------------------------------------------
  // Handlers
  // ---------------------------------------------------------------------------

  function Start(state: BotState, uid: int): (r: Turn)
    ensures uid !in r.state.sessions && uid !in r.state.quizzes
    ensures r.replies == [Say(Greeting)] && r.calls == []
    ensures forall u :: u != uid ==> SameFor(state, r.state, u)
  {
    Turn(BotState(state.sessions - {uid}, state.quizzes - {uid}), [Say(Greeting)], [])
  }

  /**
   The profile button: one GET and one reply; the state is not touched. Both
   sends sit inside the handler's `try`, so a text Telegram refuses is
   answered with the failure notice instead.
   */
  function ProfileShow(env: Env, state: BotState, uid: int): (r: Turn)
    ensures r.state == state && |r.replies| == 1
    ensures r.calls == [Get(UserPath(env, uid, "/profile"))]
    ensures var resp := env.http(r.calls[0]);
            && (resp.Response? && resp.status == 404 ==>
                  r.replies[0] == if env.accepts(EmptyProfile) then Say(EmptyProfile) else Fail(ProfileFailed))
            && (resp.Response? && resp.status != 404 && Answered(resp) && ProfileText(resp.body.value, env.show).Some? ==>
                  var text := ProfileText(resp.body.value, env.show).value;
                  r.replies[0] == if env.accepts(text) then Say(text) else Fail(ProfileFailed))
            && (r.replies[0].Say? <==>
                  resp.Response? &&
                  ((resp.status == 404 && env.accepts(EmptyProfile)) ||
                   (resp.status != 404 && Answered(resp) && ProfileText(resp.body.value, env.show).Some? &&
                    env.accepts(ProfileText(resp.body.value, env.show).value))))
    ensures r.replies[0].Fail? ==> r.replies[0].prefix == ProfileFailed
    ensures forall u :: u != uid ==> SameFor(state, r.state, u)
  {
    var call := Get(UserPath(env, uid, "/profile"));
    var resp := env.http(call);
    var text :=
      if resp.Response? && resp.status == 404 then Some(EmptyProfile)
      else if !Answered(resp) then None
      else ProfileText(resp.body.value, env.show);
    var reply := if text.Some? && env.accepts(text.value) then Say(text.value) else Fail(ProfileFailed);
    Turn(state, [reply], [call])
  }

  /** What asking for recommendations gave: the reply, the requests made, and whether an exception was caught. */
  datatype Delivery = Delivery(reply: Reply, calls: seq<Call>, failed: bool)

  /** The `books` value of a response that passed, or None where reading it raises. */
  function BooksField(resp: Response): (r: Option<Json>)
    ensures r.Some? <==> Answered(resp) && resp.body.value.Obj?
  {
    if Answered(resp) && resp.body.value.Obj? then
      var f := resp.body.value.fields;
      Some(if "books" in f then f["books"] else Arr([]))
    else None
  }

  /**
   The text the shared `try` block sends for the `books` value of the answer:
   the "nothing to suggest" note for a falsy value, the rendered list
   otherwise; None where reading or rendering the answer raises.
   */
  function AnswerText(books: Option<Json>, show: Json -> string): (r: Option<string>)
    ensures books.None? ==> r.None?
    ensures books.Some? && !Truthy(books.value) ==> r == Some(NothingToSuggest)
    ensures books.Some? && Truthy(books.value) ==> r == RenderBooks(books.value, show)
  {
    if books.None? then None
    else if !Truthy(books.value) then Some(NothingToSuggest)
    else RenderBooks(books.value, show)
  }

  /**
   The shared `try` block of both recommendation handlers: POST the payload;
   on an empty answer say so; otherwise PUT the profile (when asked to; its
   outcome is ignored) and show the books. Anything that raises is caught and
   reported, a `send` that Telegram refuses included.
   */
  function Deliver(env: Env, user: User, payload: Payload, save: bool, genres: Json, authors: Json): (r: Delivery)
    ensures |r.calls| >= 1 && r.calls[0] == Post(UserPath(env, user.id, "/recommendations"), PayloadJson(payload))
    ensures var books := BooksField(env.http(r.calls[0]));
            var text := AnswerText(books, env.show);
            && (r.failed <==> text.None? || !env.accepts(text.value))
            && (r.failed <==> r.reply.Fail?)
            && (r.failed ==> r.reply == Fail(RequestFailed))
            && (!r.failed ==> r.reply == Say(text.value))
            && (|r.calls| == 2 <==> save && books.Some? && Truthy(books.value))
    ensures |r.calls| == 2 ==> r.calls[1] == Put(UserPath(env, user.id, "/profile"), ProfileUpdate(user, genres, authors))
    ensures |r.calls| <= 2
  {
    var post := Post(UserPath(env, user.id, "/recommendations"), PayloadJson(payload));
    var books := BooksField(env.http(post));
    if books.None? then Delivery(Fail(RequestFailed), [post], true)
    else if !Truthy(books.value) then
      if env.accepts(NothingToSuggest) then Delivery(Say(NothingToSuggest), [post], false)
      else Delivery(Fail(RequestFailed), [post], true)
    else
      var puts := if save then [Put(UserPath(env, user.id, "/profile"), ProfileUpdate(user, genres, authors))] else [];
      var text := RenderBooks(books.value, env.show);
      if text.None? || !env.accepts(text.value) then Delivery(Fail(RequestFailed), [post] + puts, true)
      else Delivery(Say(text.value), [post] + puts, false)
  }

  /** `user_session[uid] = {"step": "books"}` and the first wizard question. */
  function StartWizard(state: BotState, uid: int, replies: seq<Reply>, calls: seq<Call>): (r: Turn)
    ensures uid in r.state.sessions && r.state.sessions[uid] == Wizard(BooksStep, [], [])
    ensures r.state.quizzes == state.quizzes
    ensures r.replies == replies + [Say(AskBooks)] && r.calls == calls
  {
    Turn(state.(sessions := state.sessions[uid := Wizard(BooksStep, [], [])]), replies + [Say(AskBooks)], calls)
  }

  /**
   The recommendations button: fetch the stored quiz and profile; if they
   hold anything, ask for recommendations at once and stop unless that raised;
   otherwise (or after the error) start the wizard. A stored value that is
   not an object makes the handler raise before anything else happens.
   */
  function RecEntry(env: Env, state: BotState, user: User): (r: Turn)
    ensures |r.calls| >= 2
    ensures r.calls[0] == Get(UserPath(env, user.id, "/quiz")) && r.calls[1] == Get(UserPath(env, user.id, "/profile"))
    ensures r.state.quizzes == state.quizzes
    ensures var p := Assemble(SafeGet(env.http(r.calls[0])), SafeGet(env.http(r.calls[1])));
            && (p.None? ==> r.state == state && r.replies == [] && |r.calls| == 2)
            && (|r.calls| > 2 <==> p.Some? && WorthAsking(p.value))
            && (p.Some? && WorthAsking(p.value) ==>
                  && |r.replies| >= 2 && r.replies[0] == Say(Preparing)
                  && r.calls[2] == Post(UserPath(env, user.id, "/recommendations"), PayloadJson(p.value)))
            && (p.Some? && !WorthAsking(p.value) ==> r.replies == [Say(AskBooks)])
    ensures forall u :: u != user.id ==> SameFor(state, r.state, u)
  {
    var qCall := Get(UserPath(env, user.id, "/quiz"));
    var pCall := Get(UserPath(env, user.id, "/profile"));
    var gets := [qCall, pCall];
    var p := Assemble(SafeGet(env.http(qCall)), SafeGet(env.http(pCall)));
    if p.None? then Turn(state, [], gets)
    else if WorthAsking(p.value) then
      var prefs := p.value;
      var d := Deliver(env, user, prefs, Truthy(prefs.genres) || Truthy(prefs.authors), prefs.genres, prefs.authors);
      if d.failed then StartWizard(state, user.id, [Say(Preparing), d.reply], gets + d.calls)
      else Turn(state, [Say(Preparing), d.reply], gets + d.calls)
    else StartWizard(state, user.id, [], gets)
  }

  /**
   After the recommendations button the wizard starts afresh exactly when
   nothing was worth asking or the request raised; otherwise the sessions are
   left as they were (a wizard already under way stays at its step).
   */
  lemma RecEntryWizard(env: Env, state: BotState, user: User)
    ensures var r := RecEntry(env, state, user);
            var p := Assemble(SafeGet(env.http(r.calls[0])), SafeGet(env.http(r.calls[1])));
            var asked := p.Some? && WorthAsking(p.value);
            var books := if asked then BooksField(env.http(r.calls[2])) else None;
            var text := AnswerText(books, env.show);
            var restarted := p.Some? && (!asked || text.None? || !env.accepts(text.value));
            r.state.sessions == if restarted then state.sessions[user.id := Wizard(BooksStep, [], [])] else state.sessions
  {
    var r := RecEntry(env, state, user);
    var p := Assemble(SafeGet(env.http(r.calls[0])), SafeGet(env.http(r.calls[1])));
    if p.Some? && WorthAsking(p.value) {
      var prefs := p.value;
      var d := Deliver(env, user, prefs, Truthy(prefs.genres) || Truthy(prefs.authors), prefs.genres, prefs.authors);
      assert r.calls[2] == d.calls[0];
      if !d.failed {
        assert r.state == state;
      }
    }
  }

  /** The first wizard step: the answer, read as a comma list, is the favourite books. */
  function RecBooks(state: BotState, uid: int, favorites: seq<string>): (r: Turn)
    requires uid in state.sessions
    ensures uid in r.state.sessions && r.state.sessions[uid] == Wizard(GenresStep, favorites, state.sessions[uid].genres)
    ensures r.state.quizzes == state.quizzes
    ensures r.replies == [Say(AskGenres)] && r.calls == []
    ensures forall u :: u != uid ==> SameFor(state, r.state, u)
  {
    var w := state.sessions[uid];
    Turn(state.(sessions := state.sessions[uid := w.(step := GenresStep, favorites := favorites)]), [Say(AskGenres)], [])
  }

  /** The second wizard step: the answer, read as a comma list, is the genres. */
  function RecGenres(state: BotState, uid: int, genres: seq<string>): (r: Turn)
    requires uid in state.sessions
    ensures uid in r.state.sessions && r.state.sessions[uid] == Wizard(AuthorsStep, state.sessions[uid].favorites, genres)
    ensures r.state.quizzes == state.quizzes
    ensures r.replies == [Say(AskAuthors)] && r.calls == []
    ensures forall u :: u != uid ==> SameFor(state, r.state, u)
  {
    var w := state.sessions[uid];
    Turn(state.(sessions := state.sessions[uid := w.(step := AuthorsStep, genres := genres)]), [Say(AskAuthors)], [])
  }

  /**
   The last wizard step, given the trimmed answer `txt`: a menu text is
   ignored; any other answer gives the authors and finishes the wizard.
   */
  function RecAuthors(env: Env, state: BotState, user: User, txt: string): (r: Turn)
    requires user.id in state.sessions
    ensures IsMenuText(txt) ==> r == Turn(state, [], [])
    ensures !IsMenuText(txt) ==> user.id !in r.state.sessions && r.state.quizzes == state.quizzes
    ensures forall u :: u != user.id ==> SameFor(state, r.state, u)
  {
    if IsMenuText(txt) then Turn(state, [], [])
    else FinishWizard(env, state, user, ParseAuthors(txt))
  }

  /**
   The collected lists are sent, the profile is updated when books came back,
   and the session ends whatever happened.
   */
  function FinishWizard(env: Env, state: BotState, user: User, authors: seq<string>): (r: Turn)
    requires user.id in state.sessions
    ensures var w := state.sessions[user.id];
            && user.id !in r.state.sessions
            && r.state.quizzes == state.quizzes
            && |r.replies| == 2 && r.replies[0] == Say(Preparing)
            && 1 <= |r.calls| <= 2
            && r.calls[0] == Post(UserPath(env, user.id, "/recommendations"),
                                  PayloadJson(Payload(StrList(w.favorites), StrList(w.genres), StrList(authors))))
    ensures forall u :: u != user.id ==> SameFor(state, r.state, u)
  {
    var w := state.sessions[user.id];
    var payload := Payload(StrList(w.favorites), StrList(w.genres), StrList(authors));
    var d := Deliver(env, user, payload, true, payload.genres, payload.authors);
    Turn(state.(sessions := state.sessions - {user.id}), [Say(Preparing), d.reply], d.calls)
  }

  function QuizStart(state: BotState, uid: int): (r: Turn)
    ensures uid in r.state.quizzes && r.state.quizzes[uid] == AskFirst
    ensures r.state.sessions == state.sessions
    ensures r.replies == [Say(AskFirstQuestion)] && r.calls == []
    ensures forall u :: u != uid ==> SameFor(state, r.state, u)
  {
    Turn(state.(quizzes := state.quizzes[uid := AskFirst]), [Say(AskFirstQuestion)], [])
  }

  /** The first answer, trimmed by the dispatcher, is kept and the second question asked. */
  function QuizFirst(state: BotState, uid: int, answer: string): (r: Turn)
    ensures uid in r.state.quizzes && r.state.quizzes[uid] == AskSecond(answer)
    ensures r.state.sessions == state.sessions
    ensures r.replies == [Say(AskSecondQuestion)] && r.calls == []
    ensures forall u :: u != uid ==> SameFor(state, r.state, u)
  {
    Turn(state.(quizzes := state.quizzes[uid := AskSecond(answer)]), [Say(AskSecondQuestion)], [])
  }

  /** The quiz answers as the bot posts them. */
  function QuizJson(favorite: string, perYear: int): Json
  {
    Obj(map["q1_favorite_book" := Str(favorite), "q2_books_per_year" := Int(perYear)])
  }

  /**
   The second answer must be a whole number (`n` is `int()` of the trimmed
   text, None where it raises); if it is not, the question stays open.
   Otherwise the answers are posted, a failure is reported, the quiz ends and
   the closing message is sent either way.
   */
  function QuizSecond(env: Env, state: BotState, uid: int, favorite: string, n: Option<int>): (r: Turn)
    ensures n.None? ==> r == Turn(state, [Say(NeedNumber)], [])
    ensures n.Some? ==>
              && uid !in r.state.quizzes
              && r.state.sessions == state.sessions
              && r.calls == [Post(UserPath(env, uid, "/quiz"), QuizJson(favorite, n.value))]
              && |r.replies| >= 1 && r.replies[|r.replies| - 1] == Say(QuizDone)
              && (|r.replies| == 2 <==> env.http(r.calls[0]).NoResponse? || Raises(env.http(r.calls[0]).status))
              && (|r.replies| == 2 ==> r.replies[0] == Fail(QuizSaveFailed))
    ensures forall u :: u != uid ==> SameFor(state, r.state, u)
  {
    if n.None? then Turn(state, [Say(NeedNumber)], [])
    else
      var call := Post(UserPath(env, uid, "/quiz"), QuizJson(favorite, n.value));
      var resp := env.http(call);
      var failed := resp.NoResponse? || Raises(resp.status);
      Turn(state.(quizzes := state.quizzes - {uid}), (if failed then [Fail(QuizSaveFailed)] else []) + [Say(QuizDone)], [call])
  }

  // ---------------------------------------------------------------------------
  // Dispatch
  // ---------------------------------------------------------------------------

  /** Nothing about user `u` differs between the two states. */
  predicate SameFor(a: BotState, b: BotState, u: int)
  {
    && (u in a.sessions <==> u in b.sessions)
    && (u in a.sessions ==> a.sessions[u] == b.sessions[u])
    && (u in a.quizzes <==> u in b.quizzes)
    && (u in a.quizzes ==> a.quizzes[u] == b.quizzes[u])
  }

  /** `user_session.get(uid, {}).get("step") == step`. */
  predicate AtStep(state: BotState, uid: int, step: Step)
  {
    uid in state.sessions && state.sessions[uid].step == step
  }

  /**
   One message: the first handler, in registration order, whose filter
   accepts it runs; a message no filter accepts changes nothing. Only the
   sender's entries can change.
   */
  function Handle(env: Env, state: BotState, msg: Msg): (r: Turn)
    ensures forall u :: u != msg.user.id ==> SameFor(state, r.state, u)
  {
    var uid := msg.user.id;
    var text := msg.text;
    if IsStartCommand(text, env.botName) then Start(state, uid)
    else if text == ProfileLabel then ProfileShow(env, state, uid)
    else if text == RecLabel then RecEntry(env, state, msg.user)
    else if AtStep(state, uid, BooksStep) then RecBooks(state, uid, ParseCommaList(text))
    else if AtStep(state, uid, GenresStep) then RecGenres(state, uid, ParseCommaList(text))
    else if AtStep(state, uid, AuthorsStep) then RecAuthors(env, state, msg.user, Strip(text))
    else if text == QuizLabel then QuizStart(state, uid)
    else if uid in state.quizzes && state.quizzes[uid].AskFirst? then QuizFirst(state, uid, Strip(text))
    else if uid in state.quizzes && state.quizzes[uid].AskSecond? then
      QuizSecond(env, state, uid, state.quizzes[uid].favorite, ParseInt(Strip(text)))
    else Turn(state, [], [])
  }

  // ---------------------------------------------------------------------------
  // Conversations
  // ---------------------------------------------------------------------------

  /** A word that starts with a non-blank character is the first word's start. */
  lemma FirstWordStart(s: string)
    requires |s| > 0 && !IsSpace(s[0])
    ensures |FirstWord(s)| > 0 && FirstWord(s)[0] == s[0]
  {
    assert LStrip(s, IsSpace) == s;
  }

  /** The menu buttons are never taken for the start command. */
  lemma ButtonsAreNotCommands(botName: string)
    ensures !IsStartCommand(RecLabel, botName)
    ensures !IsStartCommand(QuizLabel, botName)
    ensures !IsStartCommand(ProfileLabel, botName)
  {
    FirstWordStart(RecLabel);
    FirstWordStart(QuizLabel);
    FirstWordStart(ProfileLabel);
  }

  /** A prefix search that never meets a stop character takes the whole text. */
  lemma {:induction false} TakeUntilAll(s: string, stop: char -> bool)
    requires NoneOf(s, stop)
    ensures TakeUntil(s, stop) == s
  {
  }

  /** `/` and a word without blanks or `@` that lower-cases to `start` is the start command. */
  lemma StartWord(cmd: string, botName: string)
    requires NoneOf(cmd, IsSpace) && NoneOf(cmd, IsAt)
    requires LowerAscii(cmd) == "start"
    ensures IsStartCommand("/" + cmd, botName)
  {
    var w := "/" + cmd;
    assert NoneOf(w, IsSpace) by {
      assert forall k :: 1 <= k < |w| ==> w[k] == cmd[k - 1];
    }
    assert LStrip(w, IsSpace) == w;
    TakeUntilAll(w, IsSpace);
    assert w[1..] == cmd;
    TakeUntilAll(cmd, IsAt);
  }

  /** `/start` is the start command. */
  lemma StartCommandLower(botName: string)
    ensures IsStartCommand("/start", botName)
  {
    assert LowerAscii("start") == "start";
    StartWord("start", botName);
  }

  /** The command filter ignores letter case: `/START` is the start command too. */
  lemma StartCommandUpper(botName: string)
    ensures IsStartCommand("/START", botName)
  {
    var cmd := "START";
    var low := LowerAscii(cmd);
    assert low[0] == 's' && low[1] == 't' && low[2] == 'a' && low[3] == 'r' && low[4] == 't';
    assert low == "start";
    assert "/" + cmd == "/START";
    StartWord(cmd, botName);
  }

  /** The start command, whatever state the user is in, ends both the wizard and the quiz and greets. */
  lemma StartResets(env: Env, state: BotState, msg: Msg)
    requires IsStartCommand(msg.text, env.botName)
    ensures var r := Handle(env, state, msg);
            && msg.user.id !in r.state.sessions && msg.user.id !in r.state.quizzes
            && r.replies == [Say(Greeting)] && r.calls == []
  {
  }

  /**
   The wizard from the button to the last answer, for a user the backend
   knows nothing about: three questions, then one request carrying exactly
   the three answers as read, and the session is gone. The quiz is not touched.
   */
  lemma WizardRun(env: Env, s0: BotState, user: User, a: string, b: string, c: string)
    requires SafeGet(env.http(Get(UserPath(env, user.id, "/quiz")))).None?
    requires SafeGet(env.http(Get(UserPath(env, user.id, "/profile")))).None?
    requires Plain(a, env.botName) && Plain(b, env.botName) && Plain(c, env.botName)
    requires !IsMenuText(Strip(c))
    ensures var t1 := Handle(env, s0, Msg(user, RecLabel));
            var t2 := Handle(env, t1.state, Msg(user, a));
            var t3 := Handle(env, t2.state, Msg(user, b));
            var t4 := Handle(env, t3.state, Msg(user, c));
            && t1.replies == [Say(AskBooks)]
            && t2.replies == [Say(AskGenres)]
            && t3.replies == [Say(AskAuthors)]
            && |t4.replies| >= 1 && t4.replies[0] == Say(Preparing)
            && |t4.calls| >= 1 && t4.calls[0] == Post(UserPath(env, user.id, "/recommendations"),
                                   PayloadJson(Payload(StrList(ParseCommaList(a)), StrList(ParseCommaList(b)),
                                                       StrList(ParseAuthors(Strip(c))))))
            && user.id !in t4.state.sessions
            && t4.state.quizzes == s0.quizzes
  {
    var t1 := Handle(env, s0, Msg(user, RecLabel));
    RecButtonStartsWizard(env, s0, user);
    var t2 := Handle(env, t1.state, Msg(user, a));
    AtBooks(env, t1.state, Msg(user, a));
    var t3 := Handle(env, t2.state, Msg(user, b));
    AtGenres(env, t2.state, Msg(user, b));
    var t4 := Handle(env, t3.state, Msg(user, c));
    AtAuthors(env, t3.state, Msg(user, c));
  }

  lemma RecButtonStartsWizard(env: Env, s0: BotState, user: User)
    requires SafeGet(env.http(Get(UserPath(env, user.id, "/quiz")))).None?
    requires SafeGet(env.http(Get(UserPath(env, user.id, "/profile")))).None?
    ensures var t := Handle(env, s0, Msg(user, RecLabel));
            && t.replies == [Say(AskBooks)]
            && t.state == s0.(sessions := s0.sessions[user.id := Wizard(BooksStep, [], [])])
  {
    ButtonsAreNotCommands(env.botName);
    assert Assemble(None, None) == Some(Payload(Arr([]), Arr([]), Arr([])));
  }

  /** Dispatch while the wizard waits for books. */
  lemma AtBooks(env: Env, state: BotState, msg: Msg)
    requires AtStep(state, msg.user.id, BooksStep) && Plain(msg.text, env.botName)
    ensures Handle(env, state, msg) == RecBooks(state, msg.user.id, ParseCommaList(msg.text))
  {
  }

  /** Dispatch while the wizard waits for genres. */
  lemma AtGenres(env: Env, state: BotState, msg: Msg)
    requires AtStep(state, msg.user.id, GenresStep) && Plain(msg.text, env.botName)
    ensures Handle(env, state, msg) == RecGenres(state, msg.user.id, ParseCommaList(msg.text))
  {
  }

  /** Dispatch while the wizard waits for authors. */
  lemma AtAuthors(env: Env, state: BotState, msg: Msg)
    requires AtStep(state, msg.user.id, AuthorsStep) && Plain(msg.text, env.botName)
    ensures Handle(env, state, msg) == RecAuthors(env, state, msg.user, Strip(msg.text))
  {
  }

  /**
   The quiz from the button to the second answer, outside the wizard: two
   questions, then one request with the trimmed first answer and the number,
   the quiz ends and the closing message comes last.
   */
  lemma QuizRun(env: Env, s0: BotState, user: User, a: string, b: string)
    requires user.id !in s0.sessions
    requires Plain(a, env.botName) && a != QuizLabel && Plain(b, env.botName) && b != QuizLabel
    requires ParseInt(Strip(b)).Some?
    ensures var t1 := Handle(env, s0, Msg(user, QuizLabel));
            var t2 := Handle(env, t1.state, Msg(user, a));
            var t3 := Handle(env, t2.state, Msg(user, b));
            && t1.replies == [Say(AskFirstQuestion)]
            && t2.replies == [Say(AskSecondQuestion)]
            && t3.calls == [Post(UserPath(env, user.id, "/quiz"), QuizJson(Strip(a), ParseInt(Strip(b)).value))]
            && |t3.replies| >= 1 && t3.replies[|t3.replies| - 1] == Say(QuizDone)
            && user.id !in t3.state.quizzes
            && t3.state.sessions == s0.sessions
  {
    var t1 := Handle(env, s0, Msg(user, QuizLabel));
    var t2 := Handle(env, t1.state, Msg(user, a));
    QuizOpening(env, s0, user, a);
    QuizClosing(env, t2.state, user, Strip(a), b);
  }

  /** With the first answer kept, a number closes the quiz with one request carrying both answers. */
  lemma QuizClosing(env: Env, st: BotState, user: User, favorite: string, b: string)
    requires user.id !in st.sessions
    requires user.id in st.quizzes && st.quizzes[user.id] == AskSecond(favorite)
    requires Plain(b, env.botName) && b != QuizLabel
    requires ParseInt(Strip(b)).Some?
    ensures var t := Handle(env, st, Msg(user, b));
            && t.calls == [Post(UserPath(env, user.id, "/quiz"), QuizJson(favorite, ParseInt(Strip(b)).value))]
            && |t.replies| >= 1 && t.replies[|t.replies| - 1] == Say(QuizDone)
            && user.id !in t.state.quizzes
            && t.state.sessions == st.sessions
  {
    AtSecondQuestion(env, st, Msg(user, b));
  }

  /** The quiz button and a first answer leave the quiz waiting for the number. */
  lemma QuizOpening(env: Env, s0: BotState, user: User, a: string)
    requires user.id !in s0.sessions
    requires Plain(a, env.botName) && a != QuizLabel
    ensures var t1 := Handle(env, s0, Msg(user, QuizLabel));
            var t2 := Handle(env, t1.state, Msg(user, a));
            && t1.replies == [Say(AskFirstQuestion)]
            && t2 == QuizFirst(t1.state, user.id, Strip(a))
            && user.id !in t2.state.sessions
            && t2.state.sessions == s0.sessions
            && t2.state.quizzes[user.id] == AskSecond(Strip(a))
  {
    var t1 := Handle(env, s0, Msg(user, QuizLabel));
    QuizButton(env, s0, user);
    AtFirstQuestion(env, t1.state, Msg(user, a));
  }

  /** Outside the wizard the quiz button starts the quiz. */
  lemma QuizButton(env: Env, s0: BotState, user: User)
    requires user.id !in s0.sessions
    ensures Handle(env, s0, Msg(user, QuizLabel)) == QuizStart(s0, user.id)
  {
    ButtonsAreNotCommands(env.botName);
  }

  /** Dispatch while the quiz waits for its first answer. */
  lemma AtFirstQuestion(env: Env, state: BotState, msg: Msg)
    requires msg.user.id !in state.sessions
    requires msg.user.id in state.quizzes && state.quizzes[msg.user.id] == AskFirst
    requires Plain(msg.text, env.botName) && msg.text != QuizLabel
    ensures Handle(env, state, msg) == QuizFirst(state, msg.user.id, Strip(msg.text))
  {
  }

  /** Dispatch while the quiz waits for its second answer. */
  lemma AtSecondQuestion(env: Env, state: BotState, msg: Msg)
    requires msg.user.id !in state.sessions
    requires msg.user.id in state.quizzes && state.quizzes[msg.user.id].AskSecond?
    requires Plain(msg.text, env.botName) && msg.text != QuizLabel
    ensures Handle(env, state, msg)
            == QuizSecond(env, state, msg.user.id, state.quizzes[msg.user.id].favorite, ParseInt(Strip(msg.text)))
  {
  }

  /** An answer to the second question that is not a whole number changes nothing and asks again. */
  lemma QuizWaitsForNumber(env: Env, state: BotState, msg: Msg)
    requires msg.user.id !in state.sessions
    requires msg.user.id in state.quizzes && state.quizzes[msg.user.id].AskSecond?
    requires Plain(msg.text, env.botName) && msg.text != QuizLabel
    requires ParseInt(Strip(msg.text)).None?
    ensures Handle(env, state, msg) == Turn(state, [Say(NeedNumber)], [])
  {
  }

  /** In the authors step a menu text (after trimming) is ignored: no reply, no request, no change. */
  lemma AuthorsIgnoresMenu(env: Env, state: BotState, msg: Msg)
    requires AtStep(state, msg.user.id, AuthorsStep)
    requires Plain(msg.text, env.botName)
    requires IsMenuText(Strip(msg.text))
    ensures Handle(env, state, msg) == Turn(state, [], [])
  {
    AtAuthors(env, state, msg);
  }

  /** So the quiz button does nothing while the wizard waits for authors. */
  lemma QuizButtonIgnoredForAuthors(env: Env, state: BotState, msg: Msg)
    requires AtStep(state, msg.user.id, AuthorsStep) && msg.text == QuizLabel
    ensures Handle(env, state, msg) == Turn(state, [], [])
  {
    QuizLabelIsMenu(env.botName);
    AuthorsIgnoresMenu(env, state, msg);
  }

  lemma QuizLabelIsMenu(botName: string)
    ensures Plain(QuizLabel, botName) && IsMenuText(Strip(QuizLabel))
  {
    ButtonsAreNotCommands(botName);
    QuizLabelClean();
  }

  /**
   While the wizard waits for books, the quiz button is not a button: it is
   taken as the answer, the one favourite book "🧩 Викторина", and no quiz starts.
   */
  lemma WizardSwallowsQuizButton(env: Env, state: BotState, user: User)
    requires AtStep(state, user.id, BooksStep)
    ensures var r := Handle(env, state, Msg(user, QuizLabel));
            && AtStep(r.state, user.id, GenresStep)
            && r.state.sessions[user.id].favorites == [QuizLabel]
            && r.state.quizzes == state.quizzes
  {
    ButtonsAreNotCommands(env.botName);
    QuizLabelClean();
    SingleEntry(QuizLabel);
  }

  lemma QuizLabelClean()
    ensures Entry(QuizLabel)
  {
    assert NoneOf(QuizLabel, IsComma);
  }

  /**
   When the backend answers with books it built, the reader sees each book's
   text in order, separated by blank lines, if Telegram takes that text; if
   it does not, the request counts as failed and the error is reported.
   */
  lemma DeliverShowsBooks(env: Env, user: User, payload: Payload, save: bool, genres: Json, authors: Json,
                          status: int, bs: seq<Book>)
    requires !Raises(status) && |bs| > 0
    requires env.http(Post(UserPath(env, user.id, "/recommendations"), PayloadJson(payload)))
             == Response(status, Some(Obj(map["books" := Arr(BooksJson(bs))])))
    ensures var d := Deliver(env, user, payload, save, genres, authors);
            var shown := Join("\n\n", seq(|bs|, i requires 0 <= i < |bs| => BookText(bs[i])));
            && (env.accepts(shown) ==> !d.failed && d.reply == Say(shown))
            && (!env.accepts(shown) ==> d.failed && d.reply == Fail(RequestFailed))
  {
    RenderServiceBooks(bs, env.show);
  }
}
