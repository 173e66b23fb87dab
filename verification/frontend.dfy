/**
 The pure text logic of the chat front-end: where the backend lives, how a
 comma-separated answer becomes a list, how books and the profile are
 rendered, and which preferences are sent for an immediate recommendation.
 */
module Frontend {
  import opened Basics
  import opened Text
  import opened Numbers
  import opened Json
  import opened Books
  import opened Extraction

  // ---------------------------------------------------------------------------
  // Backend address: BACKEND_URL, trailing slashes cut, "/v1" appended once
  // ---------------------------------------------------------------------------

  const DefaultBackend := "http://127.0.0.1:8000"
  const VersionSuffix := "/v1"

  predicate IsSlash(c: char)
  {
    c == '/'
  }

  /** `API_V1`, from the value of `BACKEND_URL` (None when unset). */
  function ApiBase(env: Option<string>): (r: string)
    ensures EndsWith(r, VersionSuffix)
    ensures var b := RStrip(if env.Some? then env.value else DefaultBackend, IsSlash);
            && (EndsWith(b, VersionSuffix) ==> r == b)
            && (!EndsWith(b, VersionSuffix) ==> r == b + VersionSuffix)
  {
    var b := RStrip(if env.Some? then env.value else DefaultBackend, IsSlash);
    if EndsWith(b, VersionSuffix) then b else b + VersionSuffix
  }

  /** Normalising an address that is already normalised changes nothing. */
  lemma ApiBaseIdempotent(env: Option<string>)
    ensures ApiBase(Some(ApiBase(env))) == ApiBase(env)
  {
    var r := ApiBase(env);
    assert r[|r| - 1] == '1';
    assert RStrip(r, IsSlash) == r;
  }

  /** Slashes typed after the address do not matter, and "/v1" is never doubled. */
  lemma ApiBaseOfVersioned(host: string, slashes: string)
    requires AllOf(slashes, IsSlash)
    ensures ApiBase(Some(host + VersionSuffix + slashes)) == host + VersionSuffix
  {
    RStripDropsTail(host + VersionSuffix, slashes);
  }

  /** Cutting a tail of slashes from text that does not end in one gives back that text. */
  lemma {:induction false} RStripDropsTail(s: string, slashes: string)
    requires s != [] && !IsSlash(s[|s| - 1])
    requires AllOf(slashes, IsSlash)
    ensures RStrip(s + slashes, IsSlash) == s
    decreases |slashes|
  {
    if slashes == [] {
      assert s + slashes == s;
    } else {
      var init := slashes[..|slashes| - 1];
      assert (s + slashes)[..|s + slashes| - 1] == s + init;
      RStripDropsTail(s, init);
    }
  }

  /** `api(path)`. */
  function Api(base: string, path: string): (r: string)
    ensures StartsWith(r, base) && r[|base|..] == path
  {
    base + path
  }

  /** `api(f"/users/{uid}{tail}")`. */
  function UserUrl(base: string, uid: int, tail: string): string
  {
    Api(base, "/users/" + ShowInt(uid) + tail)
  }

  lemma UserUrlParts(base: string, uid: int, tail: string)
    ensures UserUrl(base, uid, tail) == (base + "/users/") + ShowInt(uid) + tail
  {
  }

  /** Different users never share an address. */
  lemma UserUrlInjective(base: string, a: int, b: int, tail: string)
    requires UserUrl(base, a, tail) == UserUrl(base, b, tail)
    ensures a == b
  {
    var p := base + "/users/";
    UserUrlParts(base, a, tail);
    UserUrlParts(base, b, tail);
    ConcatCancel(p, ShowInt(a), ShowInt(b), tail);
    ShowIntInjective(a, b);
  }

  // ---------------------------------------------------------------------------
  // Comma lists: [x.strip() for x in text.split(",") if x.strip()]
  // ---------------------------------------------------------------------------

  /** Text a comma list can carry through unchanged: no comma, nothing for `strip()` to remove. */
  predicate Clean(x: string)
  {
    NoneOf(x, IsComma) && IsTrimmed(x)
  }

  /** An entry of a parsed comma list: clean and non-empty. */
  predicate Entry(x: string)
  {
    |x| > 0 && Clean(x)
  }

  /** `[f(x) for x in xs]`. */
  function Mapped(xs: seq<string>, f: string -> string): (r: seq<string>)
    ensures |r| == |xs|
    ensures forall i :: 0 <= i < |xs| ==> r[i] == f(xs[i])
  {
    seq(|xs|, i requires 0 <= i < |xs| => f(xs[i]))
  }

  lemma MappedAppend(a: seq<string>, b: seq<string>, f: string -> string)
    ensures Mapped(a + b, f) == Mapped(a, f) + Mapped(b, f)
  {
  }

  /** Two first elements with the same image give the same mapped list. */
  lemma MappedSameHead(a: string, b: string, rest: seq<string>, f: string -> string)
    requires f(a) == f(b)
    ensures Mapped([a] + rest, f) == Mapped([b] + rest, f)
  {
    assert forall i :: 1 <= i < |rest| + 1 ==> ([a] + rest)[i] == ([b] + rest)[i];
  }

  /** `[x.strip() for x in pieces]`. */
  function Stripped(pieces: seq<string>): (r: seq<string>)
    ensures |r| == |pieces|
  {
    Mapped(pieces, Strip)
  }

  /** `[x for x in xs if x]`: the non-empty texts, in order. */
  function Filled(xs: seq<string>): (r: seq<string>)
    ensures |r| <= |xs|
    ensures forall i :: 0 <= i < |r| ==> |r[i]| > 0
    decreases |xs|
  {
    if xs == [] then []
    else if |xs[0]| > 0 then [xs[0]] + Filled(xs[1..])
    else Filled(xs[1..])
  }

  /** Filtering keeps only elements of the input, so any property all of them share survives. */
  lemma {:induction false} FilledKeeps(xs: seq<string>, p: string -> bool)
    requires forall i :: 0 <= i < |xs| ==> p(xs[i])
    ensures forall i :: 0 <= i < |Filled(xs)| ==> p(Filled(xs)[i])
    decreases |xs|
  {
    if xs != [] {
      FilledKeeps(xs[1..], p);
    }
  }

  lemma {:induction false} FilledAppend(a: seq<string>, b: seq<string>)
    ensures Filled(a + b) == Filled(a) + Filled(b)
    decreases |a|
  {
    if a == [] {
      assert a + b == b;
    } else {
      assert (a + b)[0] == a[0];
      assert (a + b)[1..] == a[1..] + b;
      FilledAppend(a[1..], b);
      if |a[0]| > 0 {
        assert [a[0]] + (Filled(a[1..]) + Filled(b)) == ([a[0]] + Filled(a[1..])) + Filled(b);
      }
    }
  }

  /** `[x.strip() for x in pieces if x.strip()]`. */
  function Entries(pieces: seq<string>): seq<string>
  {
    Filled(Stripped(pieces))
  }

  /** Stripping comma-free pieces gives clean texts. */
  lemma StrippedClean(pieces: seq<string>)
    requires forall i :: 0 <= i < |pieces| ==> NoneOf(pieces[i], IsComma)
    ensures forall i :: 0 <= i < |Stripped(pieces)| ==> Clean(Stripped(pieces)[i])
  {
    var s := Stripped(pieces);
    forall i | 0 <= i < |s|
      ensures Clean(s[i])
    {
      StripNoneOf(pieces[i], IsComma);
      StripIsTrimmed(pieces[i]);
    }
  }

  /** Stripping keeps a slice of the text, so it adds no character of any class. */
  lemma StripNoneOf(s: string, p: char -> bool)
    requires NoneOf(s, p)
    ensures NoneOf(Strip(s), p)
  {
    var r := Strip(s);
    var i := Lead(s, IsSpace, 0);
    forall k | 0 <= k < |r|
      ensures !p(r[k])
    {
      assert r[k] == s[i + k];
    }
  }

  /** Every answer in the wizard's books and genres steps is read this way. */
  function ParseCommaList(text: string): (r: seq<string>)
    ensures forall i :: 0 <= i < |r| ==> Entry(r[i])
  {
    var pieces := Split(text, IsComma);
    StrippedClean(pieces);
    FilledKeeps(Stripped(pieces), Clean);
    Entries(pieces)
  }

  lemma EntriesAppend(a: seq<string>, b: seq<string>)
    ensures Entries(a + b) == Entries(a) + Entries(b)
  {
    MappedAppend(a, b, Strip);
    FilledAppend(Stripped(a), Stripped(b));
  }

  /** A comma splits the answer into the entries of both sides. */
  lemma CommaSplitsEntries(a: string, b: string)
    ensures ParseCommaList(a + "," + b) == ParseCommaList(a) + ParseCommaList(b)
  {
    assert a + "," + b == a + [','] + b;
    SplitAround(a, ',', b, IsComma);
    EntriesAppend(Split(a, IsComma), Split(b, IsComma));
  }

  /** Spaces in front of an answer are ignored. */
  lemma LeadingSpaceIgnored(s: string)
    ensures ParseCommaList(" " + s) == ParseCommaList(s)
  {
    assert " " + s == [' '] + s;
    SplitConsOther(' ', s, IsComma);
    HeadSpaceEntries(Split(s, IsComma));
  }

  lemma HeadSpaceEntries(pieces: seq<string>)
    requires |pieces| >= 1
    ensures Entries([[' '] + pieces[0]] + pieces[1..]) == Entries(pieces)
  {
    var head, rest := pieces[0], pieces[1..];
    StripDropsSpace(head);
    SameHeadEntries([' '] + head, head, rest);
    assert [head] + rest == pieces;
  }

  /** Two first pieces that strip to the same text give the same entries. */
  lemma SameHeadEntries(a: string, b: string, rest: seq<string>)
    requires Strip(a) == Strip(b)
    ensures Entries([a] + rest) == Entries([b] + rest)
  {
    MappedSameHead(a, b, rest, Strip);
  }

  lemma SingleEntry(x: string)
    requires Entry(x)
    ensures ParseCommaList(x) == [x]
  {
    SplitNoSep(x, IsComma);
    StripTrimmed(x);
    assert Stripped([x]) == [x];
    assert Filled([x]) == [x] + Filled([]);
  }

  /** Writing a list as `", "`-joined text and reading it back gives the list, when its entries are clean. */
  lemma {:induction false} CommaListRoundTrip(xs: seq<string>)
    requires forall i :: 0 <= i < |xs| ==> Entry(xs[i])
    ensures ParseCommaList(Join(", ", xs)) == xs
    decreases |xs|
  {
    if xs == [] {
      EmptyAnswer();
    } else if |xs| == 1 {
      SingleEntry(xs[0]);
    } else {
      CommaListRoundTrip(xs[1..]);
      ConsRoundTrip(xs[0], xs[1..]);
      assert [xs[0]] + xs[1..] == xs;
    }
  }

  /** The step of the round trip: one more clean entry in front of a list that already reads back. */
  lemma ConsRoundTrip(x: string, tail: seq<string>)
    requires Entry(x) && |tail| >= 1
    requires ParseCommaList(Join(", ", tail)) == tail
    ensures ParseCommaList(Join(", ", [x] + tail)) == [x] + tail
  {
    var rest := Join(", ", tail);
    JoinCons(", ", x, tail);
    CommaThenSpace(x, rest);
    EntryThenRest(x, rest);
  }

  lemma CommaThenSpace(x: string, rest: string)
    ensures x + ", " + rest == x + "," + (" " + rest)
  {
  }

  /** An empty answer is the empty list. */
  lemma EmptyAnswer()
    ensures ParseCommaList("") == []
  {
    SplitNoSep("", IsComma);
    assert Strip("") == "" by {
      StripWithEmpty("", IsSpace);
    }
    assert Stripped([""]) == [""];
  }

  /** One entry, a comma, a blank and more text parse as that entry followed by the text's entries. */
  lemma EntryThenRest(x: string, rest: string)
    requires Entry(x)
    ensures ParseCommaList(x + "," + (" " + rest)) == [x] + ParseCommaList(rest)
  {
    CommaSplitsEntries(x, " " + rest);
    LeadingSpaceIgnored(rest);
    SingleEntry(x);
  }

  const Dash := "-"

  /** The authors step, given the trimmed answer `txt`: a lone `-` means no authors. */
  function ParseAuthors(txt: string): (r: seq<string>)
    ensures txt == Dash ==> r == []
    ensures txt != Dash ==> r == ParseCommaList(txt)
    ensures forall i :: 0 <= i < |r| ==> Entry(r[i])
  {
    if txt == Dash then [] else ParseCommaList(txt)
  }

  /**
   The way lists are shown (`", ".join(xs) or "-"`) reads back through the
   authors step as the same list, for clean entries other than the list `["-"]`.
   */
  lemma AuthorsRoundTrip(xs: seq<string>)
    requires forall i :: 0 <= i < |xs| ==> Entry(xs[i])
    requires xs != [Dash]
    ensures ParseAuthors(Strip(JoinOrDash(xs))) == xs
  {
    if xs == [] {
      assert JoinOrDash(xs) == Dash;
      StripTrimmed(Dash);
    } else {
      var j := Join(", ", xs);
      assert xs != [""];
      assert JoinOrDash(xs) == j;
      JoinTrimmed(xs);
      StripTrimmed(j);
      if |xs| >= 2 {
        assert j == xs[0] + ", " + Join(", ", xs[1..]);
        assert |j| >= 3;
      } else {
        assert j == xs[0];
      }
      assert j != Dash;
      CommaListRoundTrip(xs);
    }
  }

  /** A `", "`-join of clean entries is non-empty and trimmed: it starts with the first entry and ends with the last. */
  lemma {:induction false} JoinTrimmed(xs: seq<string>)
    requires |xs| >= 1
    requires forall i :: 0 <= i < |xs| ==> Entry(xs[i])
    ensures |Join(", ", xs)| > 0 && IsTrimmed(Join(", ", xs))
    decreases |xs|
  {
    var x := xs[0];
    assert Entry(x);
    if |xs| >= 2 {
      JoinTrimmed(xs[1..]);
      var rest := Join(", ", xs[1..]);
      var j := x + ", " + rest;
      assert Join(", ", xs) == j;
      assert j[0] == x[0];
      assert j[|j| - 1] == rest[|rest| - 1];
    }
  }

  // ---------------------------------------------------------------------------
  // Rendering of books
  // ---------------------------------------------------------------------------

  const BookMark := "📖 "
  const AuthorDash := " — "
  const ReasonMark := "\n🛈 "

  /** `f"{v}"` for a value the backend sent. */
  function Show(v: Json, show: Json -> string): string
  {
    PyStr(v, show)
  }

  /** One book of the backend's answer, from its JSON object. */
  function BookLine(b: map<string, Json>, show: Json -> string): string
  {
    BookMark + Show(if "title" in b then b["title"] else Null, show)
    + (if "author" in b && Truthy(b["author"]) then AuthorDash + Show(b["author"], show) else "")
    + (if "reason" in b && Truthy(b["reason"]) then ReasonMark + Show(b["reason"], show) else "")
  }

  /** Every element is an object, so every `b.get` succeeds. */
  predicate AllObjects(items: seq<Json>)
  {
    forall i :: 0 <= i < |items| ==> items[i].Obj?
  }

  /**
   `"\n\n".join(lines)` over the books, in order; None where the loop raises,
   because `books` is not a list or one of its elements is not an object.
   */
  function RenderBooks(books: Json, show: Json -> string): (r: Option<string>)
    ensures r.Some? <==> books.Arr? && AllObjects(books.items)
  {
    if books.Arr? && AllObjects(books.items) then
      Some(Join("\n\n", seq(|books.items|, i requires 0 <= i < |books.items| => BookLine(books.items[i].fields, show))))
    else None
  }

  /** A book as the reader sees it: title, then " — author" and a reason line when present. */
  function BookText(b: Book): string
  {
    BookMark + b.title
    + (if b.author.Some? && |b.author.value| > 0 then AuthorDash + b.author.value else "")
    + (if b.reason.Some? && |b.reason.value| > 0 then ReasonMark + b.reason.value else "")
  }

  /** The books of a backend answer are shown each as its text, in order, separated by a blank line. */
  lemma RenderServiceBooks(bs: seq<Book>, show: Json -> string)
    ensures RenderBooks(Arr(BooksJson(bs)), show)
            == Some(Join("\n\n", seq(|bs|, i requires 0 <= i < |bs| => BookText(bs[i]))))
  {
    var items := BooksJson(bs);
    forall i | 0 <= i < |bs|
      ensures items[i].Obj? && BookLine(items[i].fields, show) == BookText(bs[i])
    {
      BookLineOfBookJson(bs[i], show);
    }
    assert seq(|items|, i requires 0 <= i < |items| => BookLine(items[i].fields, show))
        == seq(|bs|, i requires 0 <= i < |bs| => BookText(bs[i]));
  }

  lemma BookLineOfBookJson(b: Book, show: Json -> string)
    ensures BookLine(BookJson(b).fields, show) == BookText(b)
  {
    var m := BookJson(b).fields;
    assert m["title"] == Str(b.title);
    assert Truthy(m["author"]) <==> b.author.Some? && |b.author.value| > 0;
    assert Truthy(m["reason"]) <==> b.reason.Some? && |b.reason.value| > 0;
  }

  // ---------------------------------------------------------------------------
  // Profile view
  // ---------------------------------------------------------------------------

  /** The one-character strings a Python string yields when iterated. */
  function Chars(s: string): (r: seq<string>)
    ensures |r| == |s|
    ensures forall i :: 0 <= i < |s| ==> r[i] == [s[i]]
  {
    seq(|s|, i requires 0 <= i < |s| => [s[i]])
  }

  /** Every element of the list is a string. */
  predicate AllStrings(items: seq<Json>)
  {
    forall i :: 0 <= i < |items| ==> items[i].Str?
  }

  /** The texts of a list of strings. */
  function Texts(items: seq<Json>): (r: seq<string>)
    requires AllStrings(items)
    ensures |r| == |items|
    ensures forall i :: 0 <= i < |items| ==> items[i] == Str(r[i])
  {
    seq(|items|, i requires 0 <= i < |items| && items[i].Str? => items[i].s)
  }

  /**
   `", ".join(v)`: a list of strings is joined, a string is joined character
   by character; None where `join` raises (a list holding a non-string, None,
   a number or a bool). An object, which Python iterates by its keys in
   insertion order, is also None here: a map does not keep that order.
   */
  function JoinStrings(v: Json): (r: Option<string>)
    ensures r.Some? <==> v.Str? || (v.Arr? && AllStrings(v.items))
    ensures v.Arr? && AllStrings(v.items) ==> r == Some(Join(", ", Texts(v.items)))
    ensures v.Str? ==> r == Some(Join(", ", Chars(v.s)))
  {
    if v.Str? then Some(Join(", ", Chars(v.s)))
    else if v.Arr? && AllStrings(v.items) then Some(Join(", ", Texts(v.items)))
    else None
  }

  /** A string where a list was expected is joined as the list of its characters would be. */
  lemma JoinStringsOfStr(s: string)
    ensures JoinStrings(Str(s)) == JoinStrings(StrList(Chars(s)))
  {
    assert Texts(StrList(Chars(s)).items) == Chars(s);
  }

  /** So a two-letter string shows as its letters, comma-separated. */
  lemma JoinStringsOfWord()
    ensures JoinStrings(Str("ab")) == Some("a, b")
  {
    var cs := Chars("ab");
    assert cs[0] == "a" && cs[1] == "b";
    assert cs == ["a"] + ["b"];
    JoinCons(", ", "a", ["b"]);
    assert Join(", ", ["b"]) == "b";
    assert "a" + ", " + "b" == "a, b";
  }

  /** `d.get(key, [])`. */
  function ListGet(f: map<string, Json>, key: string): Json
  {
    if key in f then f[key] else Arr([])
  }

  /** `x or fallback` rendered as text. */
  function ShowOr(v: Option<Json>, fallback: string, show: Json -> string): string
  {
    if v.Some? && Truthy(v.value) then Show(v.value, show) else fallback
  }

  /** The strings as the JSON list the backend sends. */
  function StrList(xs: seq<string>): (r: Json)
    ensures r.Arr? && |r.items| == |xs|
    ensures forall i :: 0 <= i < |xs| ==> r.items[i] == Str(xs[i])
  {
    Arr(seq(|xs|, i requires 0 <= i < |xs| => Str(xs[i])))
  }

  /** The profile message, from its five filled-in parts. */
  function ProfileMessage(name: string, surname: string, lang: string, genres: string, authors: string): string
  {
    "Профиль:\nИмя: " + name + " " + surname + "\nЯзык: " + lang + "\nЖанры: " + genres + "\nАвторы: " + authors
  }

  /** `s or "-"`. */
  function OrDash(s: string): string
  {
    if s == "" then Dash else s
  }

  /** The text of the profile message for the decoded answer `p`; None where it raises. */
  function ProfileText(p: Json, show: Json -> string): (r: Option<string>)
    ensures !p.Obj? ==> r.None?
    ensures p.Obj? ==> (r.Some? <==> JoinStrings(ListGet(p.fields, "preferred_genres")).Some?
                                     && JoinStrings(ListGet(p.fields, "preferred_authors")).Some?)
    ensures r.Some? ==> StartsWith(r.value, "Профиль:\nИмя: ")
  {
    if !p.Obj? then None
    else
      var f := p.fields;
      var genres := JoinStrings(ListGet(f, "preferred_genres"));
      var authors := JoinStrings(ListGet(f, "preferred_authors"));
      if genres.None? || authors.None? then None
      else
        Some(ProfileMessage(ShowOr(Get(f, "first_name"), Dash, show), ShowOr(Get(f, "last_name"), "", show),
                            ShowOr(Get(f, "lang"), "ru", show), OrDash(genres.value), OrDash(authors.value)))
  }

  /** A `ProfileOut` as the backend serialises it: no first or last name. */
  function ProfileOutJson(userId: int, username: Option<string>, lang: string,
                          genres: seq<string>, authors: seq<string>): Json
  {
    Obj(map["user_id" := Int(userId),
            "username" := if username.Some? then Str(username.value) else Null,
            "lang" := Str(lang),
            "preferred_genres" := StrList(genres),
            "preferred_authors" := StrList(authors)])
  }

  lemma JoinStringsOfStrList(xs: seq<string>)
    ensures JoinStrings(StrList(xs)) == Some(Join(", ", xs))
  {
    assert Texts(StrList(xs).items) == xs;
  }

  /**
   What the profile message shows for a stored profile: the name line is
   always "- " (the backend's answer has no name fields), an empty language
   shows "ru", and each list shows as `", ".join(xs) or "-"`.
   */
  lemma ProfileOfStored(userId: int, username: Option<string>, lang: string,
                        genres: seq<string>, authors: seq<string>, show: Json -> string)
    ensures ProfileText(ProfileOutJson(userId, username, lang, genres, authors), show)
            == Some(ProfileMessage(Dash, "", if lang == "" then "ru" else lang, JoinOrDash(genres), JoinOrDash(authors)))
  {
    var f := ProfileOutJson(userId, username, lang, genres, authors).fields;
    JoinStringsOfStrList(genres);
    JoinStringsOfStrList(authors);
    assert "first_name" !in f && "last_name" !in f;
    assert ShowOr(Get(f, "lang"), "ru", show) == (if lang == "" then "ru" else lang);
  }

  // ---------------------------------------------------------------------------
  // Preferences for an immediate recommendation
  // ---------------------------------------------------------------------------

  /** The three lists of the request body, as the JSON values they are. */
  datatype Payload = Payload(favorites: Json, genres: Json, authors: Json)

  function PayloadJson(p: Payload): Json
  {
    Obj(map["favorites" := p.favorites, "genres" := p.genres, "authors" := p.authors])
  }

  /** `prof.get(key, []) or []`. */
  function ListOr(f: map<string, Json>, key: string): (r: Json)
    ensures key in f && Truthy(f[key]) ==> r == f[key]
    ensures !(key in f && Truthy(f[key])) ==> r == Arr([])
    ensures Truthy(r) <==> key in f && Truthy(f[key])
  {
    if key in f && Truthy(f[key]) then f[key] else Arr([])
  }

  /**
   The preferences gathered from the stored quiz and profile (each None when
   it could not be fetched); None where a `.get` on a value that is not an
   object raises.
   */
  function Assemble(quiz: Option<Json>, prof: Option<Json>): (r: Option<Payload>)
    ensures r.Some? ==> r.value.favorites.Arr? && |r.value.favorites.items| <= 1
    ensures r.Some? ==> (Truthy(r.value.favorites) <==>
              quiz.Some? && quiz.value.Obj? && "q1_favorite_book" in quiz.value.fields
              && Truthy(quiz.value.fields["q1_favorite_book"]))
    ensures r.Some? && Truthy(r.value.favorites) ==> r.value.favorites.items == [quiz.value.fields["q1_favorite_book"]]
    ensures r.Some? && (prof.None? || !Truthy(prof.value)) ==> r.value.genres == Arr([]) && r.value.authors == Arr([])
    ensures r.Some? && prof.Some? && Truthy(prof.value) ==>
              && prof.value.Obj?
              && r.value.genres == ListOr(prof.value.fields, "preferred_genres")
              && r.value.authors == ListOr(prof.value.fields, "preferred_authors")
    ensures r.None? <==> (quiz.Some? && Truthy(quiz.value) && !quiz.value.Obj?)
                         || (prof.Some? && Truthy(prof.value) && !prof.value.Obj?)
  {
    if quiz.Some? && Truthy(quiz.value) && !quiz.value.Obj? then None
    else if prof.Some? && Truthy(prof.value) && !prof.value.Obj? then None
    else
      var favorites :=
        if quiz.Some? && Truthy(quiz.value) && "q1_favorite_book" in quiz.value.fields
           && Truthy(quiz.value.fields["q1_favorite_book"])
        then Arr([quiz.value.fields["q1_favorite_book"]])
        else Arr([]);
      var genres := if prof.Some? && Truthy(prof.value) then ListOr(prof.value.fields, "preferred_genres") else Arr([]);
      var authors := if prof.Some? && Truthy(prof.value) then ListOr(prof.value.fields, "preferred_authors") else Arr([]);
      Some(Payload(favorites, genres, authors))
  }

  /** Whether any list is worth an immediate request: `favorites or genres or authors`. */
  predicate WorthAsking(p: Payload)
  {
    Truthy(p.favorites) || Truthy(p.genres) || Truthy(p.authors)
  }
}
