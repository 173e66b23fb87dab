/**
 The profile and quiz tables of the backend's SQLite store, as two maps keyed
 by `user_id`: `upsert_*` inserts or overwrites one row, `get_*` reads it
 back. Preference lists are kept in a TEXT column as their `","`-join and
 split on `","` when read.
 */
module Store {
  import opened Basics
  import opened Text

  // ---------------------------------------------------------------------------
  // The list codec of the preferred_genres / preferred_authors columns
  // ---------------------------------------------------------------------------

  /** What a caller passes for `genres` or `authors`: a list, or a text (possibly None) taken as it is. */
  datatype ColumnArg = ListArg(items: seq<string>) | TextArg(text: Option<string>)

  /** `",".join(v) if isinstance(v, list) else (v or "")`. */
  function Encode(v: ColumnArg): string
  {
    match v
    case ListArg(xs) => Join(",", xs)
    case TextArg(t) => if t.Some? then t.value else ""
  }

  /** `col.split(",") if col else []`, for a column that may be NULL. */
  function Decode(col: Option<string>): (r: seq<string>)
    ensures col.None? || col.value == "" ==> r == []
    ensures forall i :: 0 <= i < |r| ==> NoneOf(r[i], IsComma)
  {
    if col.None? || |col.value| == 0 then [] else Split(col.value, IsComma)
  }

  /** No element holds the separator. */
  predicate CommaFree(xs: seq<string>)
  {
    forall i :: 0 <= i < |xs| ==> NoneOf(xs[i], IsComma)
  }

  /**
   A list reads back exactly as it was written if and only if none of its
   elements holds a comma and it is not the one-element list `[""]`
   (which is stored as the empty text and so reads back as `[]`).
   */
  lemma ListRoundTrip(xs: seq<string>)
    ensures Decode(Some(Encode(ListArg(xs)))) == xs <==> xs != [""] && CommaFree(xs)
  {
    var stored := Join(",", xs);
    JoinEmptyIff(",", xs);
    if xs != [] && xs != [""] && CommaFree(xs) {
      assert "," == [','];
      SplitJoin(xs, ',', IsComma);
    }
  }

  /** `[]` reads back as `[]`. */
  lemma EmptyListRoundTrip()
    ensures Decode(Some(Encode(ListArg([])))) == []
  {
  }

  /** A stored text survives a read followed by a write: nothing is lost in that direction. */
  lemma TextRoundTrip(col: string)
    ensures Encode(ListArg(Decode(Some(col)))) == col
  {
    if col != "" {
      assert "," == [','];
      JoinSplit(col, ',', IsComma);
    }
  }

  /** The lossy cases: an element with a comma comes back as two, and `[""]` comes back as `[]`. */
  lemma LossyCases()
    ensures Decode(Some(Encode(ListArg(["a,b"])))) == ["a", "b"]
    ensures Decode(Some(Encode(ListArg([""])))) == []
  {
    assert Encode(ListArg(["a,b"])) == "a,b";
    SplitAround("a", ',', "b", IsComma);
    assert "a" + [','] + "b" == "a,b";
    SplitNoSep("a", IsComma);
    SplitNoSep("b", IsComma);
  }

  // ---------------------------------------------------------------------------
  // Tables
  // ---------------------------------------------------------------------------

  /** The range of an SQLite INTEGER: Python's `sqlite3` raises `OverflowError` when it binds an int outside it. */
  const MinInt64: int := -0x8000_0000_0000_0000
  const MaxInt64: int := 0x7FFF_FFFF_FFFF_FFFF

  predicate FitsInt64(n: int)
  {
    MinInt64 <= n <= MaxInt64
  }

  /** The one error a statement of this store raises on its own: an int parameter too wide to bind. */
  datatype StoreError = Overflow

  /** A row of `profiles`; NULL is `None`. */
  datatype ProfileRow = ProfileRow(
    username: Option<string>,
    firstName: Option<string>,
    lastName: Option<string>,
    lang: Option<string>,
    genres: Option<string>,
    authors: Option<string>)

  /** A row of `quiz`. */
  datatype QuizRow = QuizRow(favoriteBook: Option<string>, booksPerYear: int)

  datatype Db = Db(profiles: map<int, ProfileRow>, quiz: map<int, QuizRow>)

  /** The dict `get_profile` returns. */
  datatype Profile = Profile(
    userId: int,
    username: Option<string>,
    firstName: Option<string>,
    lastName: Option<string>,
    lang: Option<string>,
    genres: seq<string>,
    authors: seq<string>)

  /** The dict `get_quiz` returns. */
  datatype Quiz = Quiz(userId: int, favoriteBook: Option<string>, booksPerYear: int)

  /**
   `INSERT ... ON CONFLICT(user_id) DO UPDATE`: every column of the user's row
   is replaced, the lists by their encoded text. A `user_id` outside the
   64-bit range cannot be bound and the statement raises.
   */
  function UpsertProfile(db: Db, userId: int, username: Option<string>, firstName: Option<string>,
                         lastName: Option<string>, lang: Option<string>,
                         genres: ColumnArg, authors: ColumnArg): (r: Result<Db, StoreError>)
    ensures r.Failure? <==> !FitsInt64(userId)
    ensures r.Success? ==> userId in r.value.profiles
    ensures r.Success? ==> r.value.profiles[userId]
                           == ProfileRow(username, firstName, lastName, lang, Some(Encode(genres)), Some(Encode(authors)))
    ensures r.Success? ==> r.value.profiles.Keys == db.profiles.Keys + {userId}
    ensures r.Success? ==> forall u :: u in db.profiles && u != userId ==> r.value.profiles[u] == db.profiles[u]
    ensures r.Success? ==> r.value.quiz == db.quiz
  {
    if !FitsInt64(userId) then Failure(Overflow)
    else
      Success(db.(profiles := db.profiles[userId := ProfileRow(username, firstName, lastName, lang,
                                                               Some(Encode(genres)), Some(Encode(authors)))]))
  }

  /**
   `SELECT ... WHERE user_id=?`: None for an unknown user, otherwise the row
   with its scalar columns copied and its list columns decoded.
   */
  function GetProfile(db: Db, userId: int): (r: Result<Option<Profile>, StoreError>)
    ensures r.Failure? <==> !FitsInt64(userId)
    ensures r.Success? ==> (r.value.None? <==> userId !in db.profiles)
    ensures r.Success? && r.value.Some? ==>
      var p := r.value.value;
      var row := db.profiles[userId];
      && p.userId == userId
      && p.username == row.username && p.firstName == row.firstName
      && p.lastName == row.lastName && p.lang == row.lang
      && p.genres == Decode(row.genres) && p.authors == Decode(row.authors)
  {
    if !FitsInt64(userId) then Failure(Overflow)
    else if userId !in db.profiles then Success(None)
    else
      var row := db.profiles[userId];
      Success(Some(Profile(userId, row.username, row.firstName, row.lastName, row.lang,
                           Decode(row.genres), Decode(row.authors))))
  }

  /**
   After an upsert the profile reads back with the new scalar fields and the
   decoded lists, and every other user's profile and quiz reads as before; an
   upsert for an id too wide to bind fails and so does the read.
   */
  lemma UpsertThenGetProfile(db: Db, userId: int, username: Option<string>, firstName: Option<string>,
                             lastName: Option<string>, lang: Option<string>,
                             genres: ColumnArg, authors: ColumnArg, other: int)
    ensures var after := UpsertProfile(db, userId, username, firstName, lastName, lang, genres, authors);
      && (after.Failure? <==> GetProfile(db, userId).Failure?)
      && (after.Success? ==>
            && GetProfile(after.value, userId)
               == Success(Some(Profile(userId, username, firstName, lastName, lang,
                                       Decode(Some(Encode(genres))), Decode(Some(Encode(authors))))))
            && (other != userId ==> GetProfile(after.value, other) == GetProfile(db, other))
            && GetQuiz(after.value, other) == GetQuiz(db, other))
  {
  }

  /** Lists that meet the round-trip condition read back unchanged. */
  lemma UpsertKeepsLists(db: Db, userId: int, username: Option<string>, firstName: Option<string>,
                         lastName: Option<string>, lang: Option<string>,
                         genres: seq<string>, authors: seq<string>)
    requires genres != [""] && CommaFree(genres)
    requires authors != [""] && CommaFree(authors)
    ensures var after := UpsertProfile(db, userId, username, firstName, lastName, lang, ListArg(genres), ListArg(authors));
      after.Success? ==>
        GetProfile(after.value, userId) == Success(Some(Profile(userId, username, firstName, lastName, lang, genres, authors)))
  {
    ListRoundTrip(genres);
    ListRoundTrip(authors);
  }

  /** The last upsert wins: an earlier one for the same user leaves no trace. */
  lemma ProfileLastWriteWins(db: Db, userId: int,
                             username1: Option<string>, firstName1: Option<string>, lastName1: Option<string>,
                             lang1: Option<string>, genres1: ColumnArg, authors1: ColumnArg,
                             username2: Option<string>, firstName2: Option<string>, lastName2: Option<string>,
                             lang2: Option<string>, genres2: ColumnArg, authors2: ColumnArg)
    ensures var first := UpsertProfile(db, userId, username1, firstName1, lastName1, lang1, genres1, authors1);
      first.Success? ==>
        UpsertProfile(first.value, userId, username2, firstName2, lastName2, lang2, genres2, authors2)
        == UpsertProfile(db, userId, username2, firstName2, lastName2, lang2, genres2, authors2)
  {
    var first := UpsertProfile(db, userId, username1, firstName1, lastName1, lang1, genres1, authors1);
    if first.Success? {
      var once := UpsertProfile(db, userId, username2, firstName2, lastName2, lang2, genres2, authors2);
      var twice := UpsertProfile(first.value, userId, username2, firstName2, lastName2, lang2, genres2, authors2);
      assert twice.value.profiles == once.value.profiles;
    }
  }

  /**
   The quiz upsert: the user's answers replace any earlier ones. Both
   `user_id` and the books-per-year answer are bound as SQLite INTEGERs, so
   either one outside the 64-bit range makes the statement raise.
   */
  function UpsertQuiz(db: Db, userId: int, favoriteBook: Option<string>, booksPerYear: int): (r: Result<Db, StoreError>)
    ensures r.Failure? <==> !FitsInt64(userId) || !FitsInt64(booksPerYear)
    ensures r.Success? ==> userId in r.value.quiz && r.value.quiz[userId] == QuizRow(favoriteBook, booksPerYear)
    ensures r.Success? ==> r.value.quiz.Keys == db.quiz.Keys + {userId}
    ensures r.Success? ==> forall u :: u in db.quiz && u != userId ==> r.value.quiz[u] == db.quiz[u]
    ensures r.Success? ==> r.value.profiles == db.profiles
  {
    if !FitsInt64(userId) || !FitsInt64(booksPerYear) then Failure(Overflow)
    else Success(db.(quiz := db.quiz[userId := QuizRow(favoriteBook, booksPerYear)]))
  }

  /** `SELECT ... FROM quiz WHERE user_id=?`: None for an unknown user, otherwise the stored answers. */
  function GetQuiz(db: Db, userId: int): (r: Result<Option<Quiz>, StoreError>)
    ensures r.Failure? <==> !FitsInt64(userId)
    ensures r.Success? ==> (r.value.None? <==> userId !in db.quiz)
    ensures r.Success? && r.value.Some? ==>
      && r.value.value.userId == userId
      && r.value.value.favoriteBook == db.quiz[userId].favoriteBook
      && r.value.value.booksPerYear == db.quiz[userId].booksPerYear
  {
    if !FitsInt64(userId) then Failure(Overflow)
    else if userId !in db.quiz then Success(None)
    else Success(Some(Quiz(userId, db.quiz[userId].favoriteBook, db.quiz[userId].booksPerYear)))
  }

  /**
   After `upsert_quiz(u, q1, q2)` with both ints in range, `get_quiz(u)` gives
   those answers and other users and the profiles are untouched; with either
   int out of range the upsert fails and nothing is written.
   */
  lemma UpsertThenGetQuiz(db: Db, userId: int, favoriteBook: Option<string>, booksPerYear: int, other: int)
    ensures var after := UpsertQuiz(db, userId, favoriteBook, booksPerYear);
      && (after.Failure? <==> !FitsInt64(userId) || !FitsInt64(booksPerYear))
      && (after.Success? ==>
            && GetQuiz(after.value, userId) == Success(Some(Quiz(userId, favoriteBook, booksPerYear)))
            && (other != userId ==> GetQuiz(after.value, other) == GetQuiz(db, other))
            && GetProfile(after.value, other) == GetProfile(db, other))
  {
  }

  /** A books-per-year answer of twenty digits, which `int()` accepts, cannot be stored. */
  lemma TwentyDigitAnswerOverflows(db: Db, userId: int, favoriteBook: Option<string>)
    ensures UpsertQuiz(db, userId, favoriteBook, 99_999_999_999_999_999_999).Failure?
  {
  }
}
