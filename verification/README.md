# ai-book: a Dafny model of the recommendation pipeline, the profile store and the chat bot's logic

ai-book recommends books through a Telegram bot. The bot collects preferences either from a small
wizard or from the stored quiz and profile. A FastAPI backend turns those preferences into a prompt,
asks an LLM chat-completion endpoint, and turns the free-form reply into at most five books.

This project models three pure cores of that system in Dafny and proves properties about them.

- **Recommendation pipeline** (`app/routers/recommendations.py`; modules `Recommendations` and `Extraction`):
  - the prompt built from the three preference lists;
  - the chat request;
  - the walk down the completion envelope to the reply text;
  - the candidate span cut by the greedy pattern `\[.*\]`;
  - parsing that span, or the line fallback when parsing fails;
  - normalising every item into a book, dropping the untitled ones and capping the list at five, or
    answering with the placeholder;
  - mapping every failure to 502, or to 504 for a timeout.
- **Profile and quiz store** (`app/db.py`; module `Store`):
  - the `","`-join / `split(",")` codec of the preference columns;
  - the insert-or-overwrite semantics of the two tables, as maps keyed by `user_id`.
- **Chat front-end** (`ai-book-bot/bot.py`; modules `Frontend` and `Conversation`):
  - backend-URL normalisation;
  - comma-list parsing of answers;
  - rendering of books and of the profile;
  - preference assembly for an immediate recommendation;
  - every message handler as a pure transition over the two per-user maps (the recommendation wizard
    and the quiz), and the dispatcher that picks the handler in registration order.

The supporting modules are:

- `Basics`: `Option`, `Result`.
- `Text`: Python's `strip`/`rstrip`/`lstrip`, `join` and `split` over `seq<char>`.
- `Numbers`: `int()` for base-10 text, and `str()` of an integer.
- `Json`: decoded JSON values, Python truthiness, and `str()`.
- `Books`: `BookPref` and `BookOut`.

`json.loads` and `str()` of a non-string value are not reimplemented. They are the two fields of
`Json.Host` (`parse` and `show`). Every property of the pipeline holds for any choice of them.

Network exchanges are parameters, so nothing in the model performs I/O:

- The OpenRouter exchange is an `Upstream` value: timed out, broken, or a status with a body.
- Every bot request is answered by `Env.http`, a function from the request to its outcome.
- Whether Telegram takes a message is `Env.accepts`. It refuses, for instance, a text over its
  length limit.

## Behaviour worth noting

- **Order of extraction.** The span from the first `[` to the last `]` of the reply is always cut
  out and parsed first.
  - The whole reply text is parsed only when no such span exists.
  - Objects are not searched for keys such as `items` or `books`.
  - A parsed value that is not an array becomes a one-element list.
- **When the line fallback runs.** It runs only when parsing raises. A reply that parses but keeps
  no titled item gives the single placeholder `(нет рекомендаций)`.
- **Line fallback contents.** The fallback takes the first five non-blank lines. Each has `-`, `•`,
  space and newline cut from both ends and becomes a title-only item, with no author or reason.
- **Author and reason are kept verbatim.** Any truthy string is kept as it is, including one made
  only of blanks.
- **Upstream errors.** A status of 400 or more is an error whose detail quotes the whole body. An
  envelope that is not JSON is quoted to its first 400 characters.
- **Reply shapes that raise.** These shapes raise, and all of them end as 502:
  - an envelope that is not an object;
  - a non-string content;
  - a kept item whose `author` or `reason` is truthy but not a string, which fails `BookOut`
    validation.
- **Integer width of the store.** `user_id` and the books-per-year answer are bound as SQLite
  INTEGERs. `sqlite3` raises `OverflowError` for a value outside the signed 64-bit range, and the
  bot's `int()` accepts wider numbers.

## Model

| member | source | states |
|---|---|---|
| Recommendations.PromptReadsBack | ai-book-backend/app/routers/recommendations.py:27-41 | when no preference holds a line break, the prompt splits back into exactly its five lines; each list line is its label followed by the `", "`-join, or `-` exactly for `[]` and `[""]` |
| Recommendations.KeyRequiredModelKept | ai-book-backend/app/routers/recommendations.py:8-12 | an empty API key is refused like a missing one; an empty model name is kept and the default model is used only when the variable is unset |
| Recommendations.FixedLinesSingle | ai-book-backend/app/routers/recommendations.py:27-34 | the template's fixed text has no line break besides the four between its lines |
| Recommendations.ReplyContent | ai-book-backend/app/routers/recommendations.py:64 | the lookup chain raises on an envelope that is not an object |
| Recommendations.FoundIffCarries | ai-book-backend/app/routers/recommendations.py:64 | a truthy content is found exactly when the envelope has `choices[0].message.content` equal to it |
| Recommendations.NoChoicesIsEmpty | ai-book-backend/app/routers/recommendations.py:64 | an object without a truthy `choices` yields the empty content |
| Recommendations.CarriesIsFound | ai-book-backend/app/routers/recommendations.py:64 | any value at `choices[0].message.content`, falsy ones included, is the content found |
| Recommendations.MissingMessageIsEmpty | ai-book-backend/app/routers/recommendations.py:64 | a first choice that is an object without `message`, or with a `message` object without `content`, gives the empty content |
| Recommendations.MalformedChoicesAreStuck | ai-book-backend/app/routers/recommendations.py:64 | a truthy `choices` that is not a list, a first choice that is not an object, or a `message` that is not an object makes the lookup raise |
| Recommendations.CallLlm | ai-book-backend/app/routers/recommendations.py:36-94 | a success carries one to five books; every `HTTPException` it raises itself has code 502 |
| Recommendations.Respond | ai-book-backend/app/routers/recommendations.py:96-106 | a success holds 1–5 titled, trimmed books and comes only from a status below 400, a parseable envelope and a non-empty string content whose extraction gives exactly those books; a failure is 502 or 504, and 504 exactly for a timeout |
| Recommendations.UpstreamStatusIs502 | ai-book-backend/app/routers/recommendations.py:57-58 | a status of 400 or more is a 502 carrying that status and the whole body |
| Recommendations.BadEnvelopeIs502 | ai-book-backend/app/routers/recommendations.py:59-62 | an envelope `json.loads` rejects is a 502 quoting its first 400 characters |
| Recommendations.EmptyContentIs502 | ai-book-backend/app/routers/recommendations.py:64-66 | a missing or falsy content is a 502 "empty content" |
| Recommendations.BrokenIs502 | ai-book-backend/app/routers/recommendations.py:105-106 | any other client exception is a 502 "unexpected error" |
| Recommendations.NonJsonReplySucceeds | ai-book-backend/app/routers/recommendations.py:71-77 | reply text whose candidate does not parse never fails the request: the answer is the normalised line fallback |
| Extraction.FirstIndex | ai-book-backend/app/routers/recommendations.py:68 | the result is the first position of the character, or none when it does not occur |
| Extraction.LastIndex | ai-book-backend/app/routers/recommendations.py:68 | the result is the last position of the character, or none when it does not occur |
| Extraction.BracketSpan | ai-book-backend/app/routers/recommendations.py:68 | a span exists exactly when some `[`…`]` substring matches; it matches and contains every other match (leftmost, then longest) |
| Extraction.NoMatchAcross | ai-book-backend/app/routers/recommendations.py:68 | when the first `[` does not come before the last `]`, nothing matches |
| Extraction.Candidate | ai-book-backend/app/routers/recommendations.py:68-69 | the candidate is the whole content or a bracketed substring, and the whole content whenever nothing matches |
| Extraction.EmbeddedArray | ai-book-backend/app/routers/recommendations.py:68-69 | an array between prose with no `[` before it and no `]` after it is cut out exactly |
| Extraction.BracketedReplyIsCandidate | ai-book-backend/app/routers/recommendations.py:68-69 | a reply that starts with `[` and ends with `]` is parsed whole |
| Extraction.NonBlank | ai-book-backend/app/routers/recommendations.py:76 | every kept line is a line of the input with a non-blank character |
| Extraction.NonBlankAll | ai-book-backend/app/routers/recommendations.py:76 | lines that are all non-blank pass the filter unchanged |
| Extraction.NonBlankAppend | ai-book-backend/app/routers/recommendations.py:76 | the filter distributes over concatenation, so it keeps the input order |
| Extraction.Undecorated | ai-book-backend/app/routers/recommendations.py:76 | one result per line, and each is its line with `-`, `•`, space and newline stripped from both ends |
| Extraction.FallbackTitles | ai-book-backend/app/routers/recommendations.py:76-77 | there are `min(5, non-blank lines)` titles, and title k is non-blank line k with `-`, `•`, space and newline stripped from both ends |
| Extraction.BulletedTitles | ai-book-backend/app/routers/recommendations.py:76-77 | a two-line reply such as `- Dune` / `• Solaris` falls back to the titles `Dune` and `Solaris` |
| Extraction.ReplyLinesAround | ai-book-backend/app/routers/recommendations.py:76 | a line break splits the reply's non-blank lines into those of both sides |
| Extraction.FirstFiveAppend | ai-book-backend/app/routers/recommendations.py:77 | with five or more lines, what follows them does not change `lines[:5]` |
| Extraction.FallbackReadsFiveLines | ai-book-backend/app/routers/recommendations.py:76-77 | once the reply has five non-blank lines, anything after the next line break is never read (truncation comes before the title filter) |
| Extraction.ToBook | ai-book-backend/app/routers/recommendations.py:80-87 | every normalised title is trimmed |
| Extraction.ObjectTitleAbsent | ai-book-backend/app/routers/recommendations.py:82 | an object with a missing or falsy `title` gets the empty title |
| Extraction.ObjectTitlePresent | ai-book-backend/app/routers/recommendations.py:82 | an object's truthy `title` becomes the trimmed text of that value; for a string, the trimmed string |
| Extraction.ObjectAuthorReason | ai-book-backend/app/routers/recommendations.py:83-84 | for an object `BookOut` accepts, author and reason are present exactly when truthy, and are then the string verbatim |
| Extraction.ScalarFields | ai-book-backend/app/routers/recommendations.py:85-87 | a non-object item has no author or reason, and a string item is its own trimmed text |
| Extraction.Titled | ai-book-backend/app/routers/recommendations.py:88-89 | every kept book has a non-empty title, and none are added |
| Extraction.TitledInOrder | ai-book-backend/app/routers/recommendations.py:88-89 | the kept books are the titled ones at increasing positions, and every titled position is kept |
| Extraction.KeptInOrder | ai-book-backend/app/routers/recommendations.py:79-89 | an item is kept iff its normalised title is non-empty, and kept items keep their relative order |
| Extraction.KeptTrimmed | ai-book-backend/app/routers/recommendations.py:82-89 | every kept title is trimmed |
| Extraction.Normalise | ai-book-backend/app/routers/recommendations.py:91-94 | 1 to 5 titled books: the placeholder alone when nothing was kept, otherwise the first `min(5, kept)` kept books |
| Extraction.FallbackAccepted | ai-book-backend/app/routers/recommendations.py:77-89 | items built by the line fallback never fail `BookOut` validation |
| Extraction.TitleOnlyAccepted | ai-book-backend/app/routers/recommendations.py:77 | a title-only object never fails validation |
| Extraction.Extract | ai-book-backend/app/routers/recommendations.py:68-94 | a result holds 1 to 5 titled, trimmed books and is the kept items of the parsed or fallback list, cut to five or replaced by the placeholder; there is no result (a validation error) exactly when the candidate parsed and some item fails `BookOut` validation |
| Extraction.SingleObjectReply | ai-book-backend/app/routers/recommendations.py:72-74 | a candidate that parses to one well-formed book object, not a list, yields exactly that book |
| Extraction.BookJsonRoundTrip | ai-book-backend/app/routers/recommendations.py:19-22 | normalising the JSON of a well-formed `BookOut` gives the same book |
| Extraction.BookJsonAccepted | ai-book-backend/app/routers/recommendations.py:19-22 | the JSON of any book passes validation |
| Extraction.BooksJsonAccepted | ai-book-backend/app/routers/recommendations.py:79-89 | a list of book JSON objects passes validation item by item |
| Extraction.TitledAll | ai-book-backend/app/routers/recommendations.py:88-89 | a list of titled books passes the title filter unchanged |
| Extraction.KeptAll | ai-book-backend/app/routers/recommendations.py:79-89 | normalising the JSON of well-formed books keeps every one, unchanged and in order |
| Extraction.ArrayOfBooksRoundTrip | ai-book-backend/app/routers/recommendations.py:68-94 | a reply whose candidate parses to an array of well-formed books yields exactly the first five of them |
| Text.RStrip | ai-book-bot/bot.py:7 | the result is a prefix of the text, everything cut is in the class, and the result does not end with one |
| Text.StripWith | ai-book-backend/app/routers/recommendations.py:76 | the result neither starts nor ends with a stripped character, and it is a slice of the input with only stripped characters around it |
| Text.StripWithEmpty | ai-book-backend/app/routers/recommendations.py:76 | stripping leaves nothing exactly when every character is stripped, which is what `if l.strip()` tests |
| Text.StripWithNoop | ai-book-bot/bot.py:151 | a text already without surrounding stripped characters is left alone |
| Text.StripWithDropsHead | ai-book-bot/bot.py:136 | a leading stripped character does not change the result |
| Text.JoinEmptyIff | ai-book-backend/app/routers/recommendations.py:38-40 | a join with a non-empty separator is empty exactly for `[]` and `[""]` |
| Text.JoinOrDash | ai-book-backend/app/routers/recommendations.py:38-40 | never empty: `-` exactly for `[]` and `[""]`, otherwise the `", "`-join |
| Text.Split | ai-book-backend/app/db.py:71-72 | at least one piece, and no piece contains the separator |
| Text.SplitAround | ai-book-backend/app/db.py:71-72 | a separator splits the text into the pieces of both sides |
| Text.SplitJoin | ai-book-backend/app/db.py:40-41 | splitting a join gives the list back when no element holds the separator |
| Text.JoinSplit | ai-book-backend/app/db.py:40-41 | joining the pieces of a split restores the text |
| Store.Decode | ai-book-backend/app/db.py:71-72 | NULL or `""` reads as `[]`; no element read back contains a comma |
| Store.ListRoundTrip | ai-book-backend/app/db.py:40-41 | a list reads back unchanged if and only if it is not `[""]` and no element holds a comma |
| Store.EmptyListRoundTrip | ai-book-backend/app/db.py:40-41 | `[]` reads back as `[]` |
| Store.TextRoundTrip | ai-book-backend/app/db.py:71-72 | a stored text survives being read and written back |
| Store.LossyCases | ai-book-backend/app/db.py:40-41 | `["a,b"]` reads back as `["a", "b"]`, and `[""]` as `[]` |
| Store.UpsertProfile | ai-book-backend/app/db.py:39-54 | raises exactly when `user_id` is outside the 64-bit range; otherwise the user's row becomes the given fields with the lists encoded, and every other row and the quiz table are unchanged |
| Store.GetProfile | ai-book-backend/app/db.py:56-73 | raises exactly for an id outside the 64-bit range; None exactly for an unknown user; otherwise the row's scalar columns copied and both list columns decoded (`split(",")`, or `[]` for NULL or `""`) |
| Store.UpsertThenGetProfile | ai-book-backend/app/db.py:39-73 | the upsert fails exactly when the read of the same id fails; after a successful upsert the profile reads back with the new fields and the decoded lists, and other users and the quiz table read as before |
| Store.UpsertKeepsLists | ai-book-backend/app/db.py:39-73 | after a successful upsert, comma-free lists other than `[""]` read back exactly as written |
| Store.ProfileLastWriteWins | ai-book-backend/app/db.py:43-53 | after a successful upsert, a second upsert for the same user leaves no trace of the first |
| Store.UpsertQuiz | ai-book-backend/app/db.py:75-84 | raises exactly when `user_id` or the books-per-year answer is outside the 64-bit range; otherwise the user's row holds exactly the two answers, and every other row and the profiles are unchanged |
| Store.GetQuiz | ai-book-backend/app/db.py:86-92 | raises exactly for an id outside the 64-bit range; None exactly for an unknown user; otherwise the stored favourite book and books-per-year answer |
| Store.UpsertThenGetQuiz | ai-book-backend/app/db.py:75-92 | the upsert fails exactly when an int is outside the 64-bit range; after a successful `upsert_quiz(u, q1, q2)` the quiz reads back as `(u, q1, q2)`, and other users and the profiles are untouched |
| Store.TwentyDigitAnswerOverflows | ai-book-backend/app/db.py:75-84 | a twenty-digit books-per-year answer cannot be stored |
| Numbers.ParseInt | ai-book-bot/bot.py:223 | a number is read only from text ending in a digit, and unsigned text gives a non-negative number |
| Numbers.ShowNat | ai-book-bot/bot.py:37 | the decimal form is a non-empty run of digits with no leading zero |
| Numbers.ShowInt | ai-book-bot/bot.py:37 | the decimal form is non-empty and starts with `-` exactly for negative numbers |
| Numbers.ParseShow | ai-book-bot/bot.py:223 | `int(str(n)) == n` |
| Numbers.ShowIntInjective | ai-book-bot/bot.py:37 | different numbers have different decimal forms |
| Frontend.ApiBase | ai-book-bot/bot.py:7-8 | the slash-stripped address is kept when it already ends in `/v1`, and gets `/v1` appended otherwise |
| Frontend.ApiBaseIdempotent | ai-book-bot/bot.py:7-8 | normalising an already normalised base changes nothing |
| Frontend.ApiBaseOfVersioned | ai-book-bot/bot.py:7-8 | trailing slashes after `/v1` are cut and `/v1` is never doubled |
| Frontend.RStripDropsTail | ai-book-bot/bot.py:7 | a tail of slashes after a text that does not end in one is removed exactly |
| Frontend.UserUrlInjective | ai-book-bot/bot.py:37 | different users never share an address |
| Frontend.Filled | ai-book-bot/bot.py:136 | the kept texts are all non-empty, and none are added |
| Frontend.FilledKeeps | ai-book-bot/bot.py:136 | any property every input has survives the filter |
| Frontend.StrippedClean | ai-book-bot/bot.py:136 | stripping comma-free pieces gives texts with no comma and no surrounding blank |
| Frontend.StripNoneOf | ai-book-bot/bot.py:136 | stripping adds no character of any class |
| Frontend.ParseCommaList | ai-book-bot/bot.py:136 | every entry is non-empty, comma-free and has no surrounding whitespace |
| Frontend.CommaSplitsEntries | ai-book-bot/bot.py:136 | a comma splits the answer into the entries of both sides |
| Frontend.LeadingSpaceIgnored | ai-book-bot/bot.py:136 | a leading space does not change the entries |
| Frontend.SingleEntry | ai-book-bot/bot.py:144 | a clean non-empty text is read as itself alone |
| Frontend.EmptyAnswer | ai-book-bot/bot.py:136 | an empty answer is the empty list |
| Frontend.CommaListRoundTrip | ai-book-bot/bot.py:136 | the `", "`-join of clean entries reads back as the same list |
| Frontend.ParseAuthors | ai-book-bot/bot.py:156 | a trimmed `-` gives `[]`; anything else is read as a comma list, every entry clean and non-empty |
| Frontend.AuthorsRoundTrip | ai-book-bot/bot.py:151-156 | what the profile shows for a list (`", ".join(xs) or "-"`) reads back through the authors step as that list, except for the list `["-"]` |
| Frontend.JoinTrimmed | ai-book-bot/bot.py:49-50 | a `", "`-join of clean entries is non-empty and has no surrounding whitespace |
| Frontend.RenderBooks | ai-book-bot/bot.py:114-122 | rendering succeeds exactly when `books` is a list of objects |
| Frontend.RenderServiceBooks | ai-book-bot/bot.py:114-122 | the backend's books are shown in order as `📖 title`, then ` — author` and `\n🛈 reason` when present, separated by blank lines |
| Frontend.BookLineOfBookJson | ai-book-bot/bot.py:116-120 | the line for a book's JSON is the book's text, with author and reason only when non-empty |
| Frontend.JoinStrings | ai-book-bot/bot.py:49-50 | the join succeeds exactly for a string or a list of strings: a list gives the `", "`-join of its strings, a string the join of its characters; None, numbers, bools and lists holding a non-string raise |
| Frontend.JoinStringsOfStr | ai-book-bot/bot.py:49-50 | a string where a list was expected is joined as the list of its characters would be |
| Frontend.JoinStringsOfWord | ai-book-bot/bot.py:49-50 | the string `"ab"` shows as `a, b` |
| Frontend.ProfileText | ai-book-bot/bot.py:44-51 | an answer that is not an object makes the view raise; for an object the view succeeds exactly when both list fields (default `[]`) can be joined, and the text starts with the profile header |
| Frontend.JoinStringsOfStrList | ai-book-bot/bot.py:49-50 | joining the JSON of a list of strings is their `", "`-join |
| Frontend.ProfileOfStored | ai-book-bot/bot.py:45-51 | a stored profile shows the name line as `- `, an empty language as `ru`, and each list as its `", "`-join or `-` |
| Frontend.ListOr | ai-book-bot/bot.py:82-83 | the profile's value for the key when it is present and truthy, and `[]` otherwise |
| Frontend.Assemble | ai-book-bot/bot.py:74-83 | favorites is `[q1]` exactly when the stored answer is truthy; with a truthy profile, genres and authors are its `preferred_genres` and `preferred_authors`, or `[]` when absent or falsy; without one both are `[]`; the handler raises exactly when a stored value is truthy but not an object |
| Conversation.TakeUntil | ai-book-bot/bot.py:28 | the result is the longest prefix without a stop character |
| Conversation.LowerAscii | ai-book-bot/bot.py:28 | same length; each ASCII capital becomes the matching small letter, every other character is kept, and no capital remains |
| Conversation.LowerAsciiIdempotent | ai-book-bot/bot.py:28 | lower-casing twice is lower-casing once |
| Conversation.FirstWordStart | ai-book-bot/bot.py:28 | a text starting with a non-blank character has a first word starting with it |
| Conversation.ButtonsAreNotCommands | ai-book-bot/bot.py:28 | none of the three menu buttons is the start command |
| Conversation.StartWord | ai-book-bot/bot.py:28 | `/` followed by a word without blanks or `@` that lower-cases to `start` is the start command |
| Conversation.StartCommandLower | ai-book-bot/bot.py:28 | `/start` is the start command |
| Conversation.StartCommandUpper | ai-book-bot/bot.py:28 | `/START` is the start command too |
| Conversation.SafeGet | ai-book-bot/bot.py:57-65 | a value exactly for an answer that passed `raise_for_status` with a JSON body and a status other than 404; it is that body |
| Conversation.Start | ai-book-bot/bot.py:28-32 | the user leaves both the wizard and the quiz and is greeted; other users are unchanged |
| Conversation.ProfileShow | ai-book-bot/bot.py:35-54 | one GET, one reply, no state change; 404 gives the empty-profile text and a readable profile its text, each only when Telegram accepts it; everything else, a refused send included, gives the failure prefix |
| Conversation.BooksField | ai-book-bot/bot.py:92-94 | `books` is read exactly when the answer passed and its body is an object |
| Conversation.Deliver | ai-book-bot/bot.py:88-125 | the POST comes first; an error reply exactly when reading or rendering the answer raised or Telegram refused the text; otherwise the text sent is "nothing to suggest" for an empty list and the rendered books for a non-empty one; the profile PUT follows exactly when asked for and books came back |
| Conversation.StartWizard | ai-book-bot/bot.py:127-130 | the session restarts at the books step and the first question is asked |
| Conversation.RecEntry | ai-book-bot/bot.py:67-130 | the quiz and profile GETs come first; a recommendation is asked for exactly when the assembled lists hold something; otherwise the wizard starts |
| Conversation.RecEntryWizard | ai-book-bot/bot.py:86-130 | the wizard restarts exactly when nothing was worth asking, the request raised or Telegram refused the answer's text; otherwise sessions are left as they were |
| Conversation.RecBooks | ai-book-bot/bot.py:132-138 | the books answer is stored and the step moves to genres |
| Conversation.RecGenres | ai-book-bot/bot.py:140-146 | the genres answer is stored and the step moves to authors |
| Conversation.RecAuthors | ai-book-bot/bot.py:148-157 | a menu text or command changes nothing; any other answer ends the session |
| Conversation.FinishWizard | ai-book-bot/bot.py:155-200 | the session ends whatever happens; the POST carries the stored favourites and genres and the parsed authors |
| Conversation.QuizStart | ai-book-bot/bot.py:203-208 | the quiz (re)starts at the first question |
| Conversation.QuizFirst | ai-book-bot/bot.py:210-216 | the first answer is kept and the second question asked |
| Conversation.QuizSecond | ai-book-bot/bot.py:218-236 | a non-number leaves the state and asks again; a number is posted with the first answer, the quiz ends and the closing text comes last, after a failure notice exactly when the POST failed |
| Conversation.Handle | ai-book-bot/bot.py:28-219 | one message changes only its sender's wizard and quiz entries |
| Conversation.StartResets | ai-book-bot/bot.py:28-31 | the start command, in any state, ends both the wizard and the quiz and greets |
| Conversation.WizardRun | ai-book-bot/bot.py:67-200 | for a user the backend knows nothing about: three questions, then one POST with exactly the three answers as read, and the session is gone |
| Conversation.RecButtonStartsWizard | ai-book-bot/bot.py:127-130 | with nothing stored, the button starts the wizard at the books step |
| Conversation.AtBooks | ai-book-bot/bot.py:132 | a plain message at the books step is handled as the books answer |
| Conversation.AtGenres | ai-book-bot/bot.py:140 | a plain message at the genres step is handled as the genres answer |
| Conversation.AtAuthors | ai-book-bot/bot.py:148 | a plain message at the authors step is handled as the trimmed authors answer |
| Conversation.QuizRun | ai-book-bot/bot.py:203-236 | outside the wizard: two questions, then one POST with the trimmed first answer and the number; the quiz ends and the closing text comes last |
| Conversation.QuizOpening | ai-book-bot/bot.py:203-216 | the button and a first answer leave the quiz waiting for the number, with the trimmed answer kept |
| Conversation.QuizButton | ai-book-bot/bot.py:203 | outside the wizard the quiz button starts the quiz |
| Conversation.AtFirstQuestion | ai-book-bot/bot.py:210 | while the first question is open, a plain message is its trimmed answer |
| Conversation.AtSecondQuestion | ai-book-bot/bot.py:218 | while the second question is open, a plain message is read as `int()` of its trimmed text |
| Conversation.QuizWaitsForNumber | ai-book-bot/bot.py:222-226 | an answer that is not a whole number changes nothing and asks again |
| Conversation.AuthorsIgnoresMenu | ai-book-bot/bot.py:151-153 | at the authors step a menu text (after trimming) gets no reply, no request and no change |
| Conversation.QuizButtonIgnoredForAuthors | ai-book-bot/bot.py:148-153 | the quiz button does nothing while the wizard waits for authors |
| Conversation.QuizLabelIsMenu | ai-book-bot/bot.py:152 | the quiz label is a plain text that the authors step ignores |
| Conversation.WizardSwallowsQuizButton | ai-book-bot/bot.py:132-137 | at the books step the quiz button is taken as the answer: the favourite book becomes the label, and no quiz starts |
| Conversation.QuizLabelClean | ai-book-bot/bot.py:136 | the quiz label is a clean comma-list entry |
| Conversation.DeliverShowsBooks | ai-book-bot/bot.py:114-125 | books the backend built are shown each as its text, in order, when Telegram takes that text; when it does not, the error reply is sent instead |

## Left out

- Network I/O: the aiohttp POST to OpenRouter and every `requests` call are parameters (`Upstream`, `Env.http`). Timeouts are outcomes, not wall-clock behaviour.
- The HTTP headers of the chat request are carried as data (`ChatRequest`); nothing is stated about them beyond their construction.
- SQL text, `init_db` and `_column_exists` (db.py lines 7-37): DDL and migrations. Only the map semantics of the two tables is kept.
- `json.loads` and Python's `str()` of non-string values are the `Host` oracle and are not reimplemented. Every property holds for any oracle. `Json.Float` holds a real number, so the `NaN` and `±Infinity` that `json.loads` also accepts are not representable.
- Pydantic coercion of `author`/`reason`: a truthy value that is not a string is modelled as a validation error, which ends as 502 (`Rejected`). Which values pydantic would coerce is not modelled.
- `str.splitlines()` is modelled as a split at each line-boundary character. `\r\n` therefore yields an extra empty piece, which the `if l.strip()` filter drops, so the fallback's lines are the same.
- Numbers.ParseInt: only ASCII digits, an optional sign and single underscores between digits are accepted. Python's `int()` also accepts other Unicode decimal digits.
- Conversation.IsStartCommand approximates aiogram's `commands=['start']` filter: first word, case-insensitive, optional `@mention` of this bot. The filter's other options are not modelled.
- Non-text messages (`message.text` is None) are not modelled. Every `Msg` carries a text.
- The exception texts appended to the bot's error replies are not modelled; a `Fail` reply keeps only its fixed prefix.
- Concurrency and interleaving of async handlers are not modelled. Every handler is one atomic turn.
- profile.py, quiz.py, schemas.py, models.py, main.py, init.py and crud.py are not part of this model. They are endpoint wrappers, declarations and wiring. `write_profile` calls `upsert_profile` without its required name arguments. The one fact used from them is that the profile answer has no name fields (`Frontend.ProfileOutJson`).
- Recommendations.CallLlm: its ensures states only the size of a success and the code of its own errors. The full classification is stated on `Respond` and the `…Is502` lemmas.
- Recommendations.ReplyContent: its ensures states only the non-object case. The object cases are the lemmas `FoundIffCarries`, `CarriesIsFound`, `NoChoicesIsEmpty`, `MissingMessageIsEmpty` and `MalformedChoicesAreStuck`, which together cover every envelope.
- Frontend.JoinStrings: an object is modelled as raising. Python joins its keys in insertion order, which a map does not keep. The profile answer always carries lists, so this shape does not arise from the backend.
- Telegram sends outside a `try` block are taken as delivered: the greeting, the questions, the failure notices and the closing texts. Only the sends inside a `try` block consult `Env.accepts`: the two of the profile view and the two of the recommendation step. There a refusal changes what the handler does next.
