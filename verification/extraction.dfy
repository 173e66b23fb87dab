/**
 Turning the model's reply text into the list of books the service returns
 (the second half of `_call_llm`): cut the bracketed span, parse it or fall
 back to a line heuristic, normalise every item, keep the ones with a title,
 and cap the list at five (or answer with a single placeholder).
 */
module Extraction {
  import opened Basics
  import opened Text
  import opened Json
  import opened Books

  /** The most books a response carries. */
  const MaxBooks := 5

  // ---------------------------------------------------------------------------
  // Candidate span: re.search(r"\[.*\]", content, re.S)
  // ---------------------------------------------------------------------------

  /** Position of the first `c` in `s`. */
  function FirstIndex(s: string, c: char): (r: Option<nat>)
    ensures r.Some? ==> r.value < |s| && s[r.value] == c
    ensures r.Some? ==> forall k :: 0 <= k < r.value ==> s[k] != c
    ensures r.None? ==> forall k :: 0 <= k < |s| ==> s[k] != c
    decreases |s|
  {
    if s == [] then None
    else if s[0] == c then Some(0)
    else match FirstIndex(s[1..], c)
      case None => None
      case Some(i) => Some(i + 1)
  }

  /** Position of the last `c` in `s`. */
  function LastIndex(s: string, c: char): (r: Option<nat>)
    ensures r.Some? ==> r.value < |s| && s[r.value] == c
    ensures r.Some? ==> forall k :: r.value < k < |s| ==> s[k] != c
    ensures r.None? ==> forall k :: 0 <= k < |s| ==> s[k] != c
    decreases |s|
  {
    if s == [] then None
    else if s[|s| - 1] == c then Some(|s| - 1)
    else LastIndex(s[..|s| - 1], c)
  }

  /** `s[i..j]` is a text the pattern `\[.*\]` (dot matching newlines) matches in full. */
  predicate IsMatch(s: string, i: int, j: int)
  {
    0 <= i && i + 2 <= j <= |s| && s[i] == '[' && s[j - 1] == ']'
  }

  /**
   The span `re.search` reports for the greedy pattern: it exists exactly when
   some match exists, and it is a match that contains every other match, so it
   is both the leftmost and, among those, the longest.
   */
  function BracketSpan(s: string): (r: Option<(nat, nat)>)
    ensures r.None? <==> forall i, j :: !IsMatch(s, i, j)
    ensures r.Some? ==> IsMatch(s, r.value.0, r.value.1)
    ensures r.Some? ==> forall i, j :: IsMatch(s, i, j) ==> r.value.0 <= i && j <= r.value.1
  {
    match (FirstIndex(s, '['), LastIndex(s, ']'))
    case (Some(i), Some(k)) =>
      if i < k then
        assert IsMatch(s, i, k + 1);
        Some((i, k + 1))
      else
        NoMatchAcross(s, i, k);
        None
    case _ => None
  }

  /** With the first `[` at or after the last `]`, no span of the text matches. */
  lemma NoMatchAcross(s: string, i: nat, k: nat)
    requires i < |s| && s[i] == '[' && forall a :: 0 <= a < i ==> s[a] != '['
    requires k < |s| && s[k] == ']' && forall b :: k < b < |s| ==> s[b] != ']'
    requires k <= i
    ensures forall a, b :: !IsMatch(s, a, b)
  {
  }

  /** `m.group(0) if m else content`. */
  function Candidate(content: string): (r: string)
    ensures r == content || (|r| >= 2 && r[0] == '[' && r[|r| - 1] == ']')
    ensures (forall i, j :: !IsMatch(content, i, j)) ==> r == content
  {
    match BracketSpan(content)
    case Some((i, j)) => content[i..j]
    case None => content
  }

  /**
   An array embedded in prose is cut out exactly, provided the prose before it
   has no `[` and the prose after it has no `]`.
   */
  lemma EmbeddedArray(before: string, arr: string, after: string)
    requires forall k :: 0 <= k < |before| ==> before[k] != '['
    requires |arr| >= 2 && arr[0] == '[' && arr[|arr| - 1] == ']'
    requires forall k :: 0 <= k < |after| ==> after[k] != ']'
    ensures Candidate(before + arr + after) == arr
  {
    var s := before + arr + after;
    var i, j := |before|, |before| + |arr|;
    assert IsMatch(s, i, j);
    var span := BracketSpan(s).value;
    assert s[span.0] == '[' && s[span.1 - 1] == ']';
    assert span.0 == i;
    assert span.1 == j;
    assert s[i..j] == arr;
  }

  /** A reply that is itself bracketed is parsed whole. */
  lemma BracketedReplyIsCandidate(content: string)
    requires |content| >= 2 && content[0] == '[' && content[|content| - 1] == ']'
    ensures Candidate(content) == content
  {
    EmbeddedArray("", content, "");
    assert "" + content + "" == content;
  }

  // ---------------------------------------------------------------------------
  // Line fallback
  // ---------------------------------------------------------------------------

  /** The characters `l.strip("-• \n")` removes. */
  predicate IsDecoration(c: char)
  {
    c == '-' || c == '•' || c == ' ' || c == '\n'
  }

  /** `[l for l in lines if l.strip()]`. */
  function NonBlank(lines: seq<string>): (r: seq<string>)
    ensures |r| <= |lines|
    ensures forall k :: 0 <= k < |r| ==> |Strip(r[k])| > 0 && r[k] in lines
    decreases |lines|
  {
    if lines == [] then []
    else if |Strip(lines[0])| > 0 then [lines[0]] + NonBlank(lines[1..])
    else NonBlank(lines[1..])
  }

  /** Lines that all have some non-blank character pass the filter unchanged. */
  lemma {:induction false} NonBlankAll(lines: seq<string>)
    requires forall k :: 0 <= k < |lines| ==> |Strip(lines[k])| > 0
    ensures NonBlank(lines) == lines
    decreases |lines|
  {
    if lines != [] {
      NonBlankAll(lines[1..]);
      assert [lines[0]] + lines[1..] == lines;
    }
  }

  lemma {:induction false} NonBlankAppend(a: seq<string>, b: seq<string>)
    ensures NonBlank(a + b) == NonBlank(a) + NonBlank(b)
    decreases |a|
  {
    if a == [] {
      assert a + b == b;
    } else {
      assert (a + b)[0] == a[0];
      assert (a + b)[1..] == a[1..] + b;
      NonBlankAppend(a[1..], b);
      if |Strip(a[0])| > 0 {
        calc {
          NonBlank(a + b);
          [a[0]] + NonBlank(a[1..] + b);
          [a[0]] + (NonBlank(a[1..]) + NonBlank(b));
          ([a[0]] + NonBlank(a[1..])) + NonBlank(b);
        }
      }
    }
  }

  /** The non-blank lines of the reply, in order. */
  function ReplyLines(content: string): seq<string>
  {
    NonBlank(Split(content, IsLineBreak))
  }

  /** Each line with dashes, bullets, spaces and newlines cut from both ends. */
  function Undecorated(lines: seq<string>): (r: seq<string>)
    ensures |r| == |lines|
    ensures forall k :: 0 <= k < |r| ==> TrimmedBy(r[k], IsDecoration)
    ensures forall k :: 0 <= k < |r| ==> r[k] == StripWith(lines[k], IsDecoration)
  {
    seq(|lines|, k requires 0 <= k < |lines| => StripWith(lines[k], IsDecoration))
  }

  /**
   The titles of the line fallback: the first five non-blank lines of the
   reply (not the first five that keep a title), each undecorated.
   */
  function FallbackTitles(content: string): (r: seq<string>)
    ensures |r| == Min(MaxBooks, |ReplyLines(content)|)
    ensures forall k :: 0 <= k < |r| ==> TrimmedBy(r[k], IsDecoration)
    ensures forall k :: 0 <= k < |r| ==> r[k] == StripWith(ReplyLines(content)[k], IsDecoration)
  {
    Undecorated(FirstFive(ReplyLines(content)))
  }

  /** A line a reply may hold a title on: no line break, nothing strippable at either end. */
  predicate BareTitle(t: string)
  {
    && t != [] && NoneOf(t, IsLineBreak)
    && TrimmedBy(t, IsDecoration) && !IsSpace(t[|t| - 1])
  }

  /**
   A reply of two bulleted lines, such as "- Dune" then "• Solaris", falls back
   to the two titles without their bullets.
   */
  lemma BulletedTitles(c1: char, t1: string, c2: char, t2: string)
    requires c1 in "-•" && c2 in "-•"
    requires BareTitle(t1) && BareTitle(t2)
    ensures FallbackTitles([c1, ' '] + t1 + ['\n'] + [c2, ' '] + t2) == [t1, t2]
  {
    var a, b := [c1, ' '] + t1, [c2, ' '] + t2;
    assert [c1, ' '] + t1 + ['\n'] + [c2, ' '] + t2 == a + ['\n'] + b;
    BulletedLine(c1, t1);
    BulletedLine(c2, t2);
    ReplyLinesAround(a, '\n', b);
    assert [a] + [b] == [a, b];
    TwoLineFallback(a, b);
    Unbulleted(c1, t1);
    Unbulleted(c2, t2);
  }

  /** Two reply lines are both kept and each loses its decoration. */
  lemma TwoLineFallback(a: string, b: string)
    ensures Undecorated(FirstFive([a, b])) == [StripWith(a, IsDecoration), StripWith(b, IsDecoration)]
  {
    var lines := [a, b];
    assert FirstFive(lines) == lines by { assert Min(MaxBooks, |lines|) == 2; }
    var r := Undecorated(lines);
    assert r[0] == StripWith(a, IsDecoration);
    assert r[1] == StripWith(b, IsDecoration);
  }

  lemma BulletedLine(c: char, t: string)
    requires c in "-•" && BareTitle(t)
    ensures ReplyLines([c, ' '] + t) == [[c, ' '] + t]
  {
    var s := [c, ' '] + t;
    assert s[|s| - 1] == t[|t| - 1];
    forall k | 0 <= k < |s|
      ensures !IsLineBreak(s[k])
    {
      if k >= 2 { assert s[k] == t[k - 2]; }
    }
    OneLine(s);
  }

  /** A bullet and a space in front of a title are stripped and nothing else is. */
  lemma Unbulleted(c: char, t: string)
    requires IsDecoration(c) && t != [] && TrimmedBy(t, IsDecoration)
    ensures StripWith([c, ' '] + t, IsDecoration) == t
  {
    var s := [c, ' '] + t;
    assert Lead(s, IsDecoration, 2) == 2;
    assert Lead(s, IsDecoration, 0) == 2;
    assert Trail(s, IsDecoration, 2, |s|) == |s|;
    assert s[2..] == t;
  }

  /** A text with no line break whose first and last characters are not blank is its own only line. */
  lemma OneLine(s: string)
    requires |s| > 0 && !IsSpace(s[0]) && !IsSpace(s[|s| - 1])
    requires NoneOf(s, IsLineBreak)
    ensures ReplyLines(s) == [s]
  {
    SplitNoSep(s, IsLineBreak);
    StripWithNoop(s, IsSpace);
    assert NonBlank([s]) == [s] + NonBlank([]);
  }

  /** `lines[:5]`. */
  function FirstFive(lines: seq<string>): (r: seq<string>)
    ensures |r| == Min(MaxBooks, |lines|)
    ensures r == lines[..|r|]
  {
    lines[..Min(MaxBooks, |lines|)]
  }

  /** `[{"title": l} for l in lines[:5]]`. */
  function FallbackItems(content: string): seq<Json>
  {
    TitleItems(FallbackTitles(content))
  }

  /** Every title as a title-only object, in order. */
  function TitleItems(titles: seq<string>): (r: seq<Json>)
    ensures |r| == |titles|
    ensures forall k :: 0 <= k < |r| ==> r[k] == TitleOnly(titles[k])
  {
    seq(|titles|, k requires 0 <= k < |titles| => TitleOnly(titles[k]))
  }

  /** `{"title": t}`. */
  function TitleOnly(t: string): Json
  {
    Obj(map["title" := Str(t)])
  }

  /** A line break splits the reply into the lines of both sides. */
  lemma ReplyLinesAround(a: string, c: char, b: string)
    requires IsLineBreak(c)
    ensures ReplyLines(a + [c] + b) == ReplyLines(a) + ReplyLines(b)
  {
    SplitAround(a, c, b, IsLineBreak);
    NonBlankAppend(Split(a, IsLineBreak), Split(b, IsLineBreak));
  }

  lemma FirstFiveAppend(la: seq<string>, lb: seq<string>)
    requires |la| >= MaxBooks
    ensures FirstFive(la + lb) == FirstFive(la)
  {
    assert (la + lb)[..MaxBooks] == la[..MaxBooks];
  }

  /** Only the first five non-blank lines matter: whatever follows them is never read. */
  lemma FallbackReadsFiveLines(a: string, c: char, b: string)
    requires IsLineBreak(c)
    requires |ReplyLines(a)| >= MaxBooks
    ensures FallbackTitles(a + [c] + b) == FallbackTitles(a)
  {
    ReplyLinesAround(a, c, b);
    FirstFiveAppend(ReplyLines(a), ReplyLines(b));
  }

  // ---------------------------------------------------------------------------
  // Parse or fall back
  // ---------------------------------------------------------------------------

  /**
   The list the normaliser walks: the parsed candidate when `json.loads`
   accepts it (a list as it is, any other value as a one-element list), and
   the line fallback over the whole reply only when it raises.
   */
  function Items(content: string, host: Host): (r: seq<Json>)
    ensures host.parse(Candidate(content)).None? ==> r == FallbackItems(content)
    ensures host.parse(Candidate(content)).Some? ==>
              var v := host.parse(Candidate(content)).value;
              r == if v.Arr? then v.items else [v]
  {
    match host.parse(Candidate(content))
    case Some(v) => if v.Arr? then v.items else [v]
    case None => FallbackItems(content)
  }

  // ---------------------------------------------------------------------------
  // Normalisation
  // ---------------------------------------------------------------------------

  /** `x or ""` for the value of `d.get(key)`. */
  function OrEmpty(v: Option<Json>): Json
  {
    if v.Some? && Truthy(v.value) then v.value else Str("")
  }

  /**
   `d.get(key) or None`, as the optional string of a book. Only a string can
   reach a `BookOut`: any other truthy value makes its validation fail (see `Rejected`).
   */
  function OrNone(v: Option<Json>): Option<string>
  {
    if v.Some? && Truthy(v.value) && v.value.Str? then Some(v.value.s) else None
  }

  /**
   One item as a book. An object gives the trimmed text of its truthy "title"
   (else "") and its truthy string "author" and "reason", untrimmed; any other value
   gives its own trimmed text as the title and nothing else.
   */
  function ToBook(it: Json, show: Json -> string): (b: Book)
    ensures IsTrimmed(b.title)
  {
    if it.Obj? then
      Book(Strip(PyStr(OrEmpty(Get(it.fields, "title")), show)),
           OrNone(Get(it.fields, "author")),
           OrNone(Get(it.fields, "reason")))
    else
      Book(Strip(PyStr(it, show)), None, None)
  }

  /** An object without a truthy "title" normalises to an empty title, so it is dropped. */
  lemma ObjectTitleAbsent(m: map<string, Json>, show: Json -> string)
    requires "title" !in m || !Truthy(m["title"])
    ensures ToBook(Obj(m), show).title == ""
  {
    assert OrEmpty(Get(m, "title")) == Str("");
    StripWithEmpty("", IsSpace);
  }

  /**
   An object's truthy "title" is trimmed into the book's title: a string
   as it is, any other value through its text.
   */
  lemma ObjectTitlePresent(m: map<string, Json>, show: Json -> string)
    requires "title" in m && Truthy(m["title"])
    ensures ToBook(Obj(m), show).title == Strip(PyStr(m["title"], show))
    ensures m["title"].Str? ==> ToBook(Obj(m), show).title == Strip(m["title"].s)
  {
    assert OrEmpty(Get(m, "title")) == m["title"];
  }

  /** A truthy value that is not a string, which `BookOut`'s `str | None` field refuses. */
  predicate BadField(v: Option<Json>)
  {
    v.Some? && Truthy(v.value) && !v.value.Str?
  }

  /** An object item whose author or reason makes `BookOut(...)` raise a validation error. */
  predicate Rejected(it: Json)
  {
    it.Obj? && (BadField(Get(it.fields, "author")) || BadField(Get(it.fields, "reason")))
  }

  /**
   For an object `BookOut` accepts, author and reason are present exactly
   when their field is truthy, and then they are that string verbatim, untrimmed.
   */
  lemma ObjectAuthorReason(m: map<string, Json>, show: Json -> string)
    requires !Rejected(Obj(m))
    ensures var b := ToBook(Obj(m), show);
      && (b.author.Some? <==> "author" in m && Truthy(m["author"]))
      && (b.reason.Some? <==> "reason" in m && Truthy(m["reason"]))
      && (b.author.Some? ==> "author" in m && m["author"] == Str(b.author.value))
      && (b.reason.Some? ==> "reason" in m && m["reason"] == Str(b.reason.value))
  {
  }

  /** Any other item gives its own trimmed text as the title, and no author or reason. */
  lemma ScalarFields(it: Json, show: Json -> string)
    requires !it.Obj?
    ensures ToBook(it, show).author == None && ToBook(it, show).reason == None
    ensures it.Str? ==> ToBook(it, show).title == Strip(it.s)
  {
  }

  /** `if title:`, the test a normalised book must pass to be kept. */
  predicate HasTitle(b: Book)
  {
    |b.title| > 0
  }

  /** Every item of the list as a book, in order. */
  function BooksOf(items: seq<Json>, show: Json -> string): (r: seq<Book>)
    ensures |r| == |items|
    ensures forall k :: 0 <= k < |items| ==> r[k] == ToBook(items[k], show)
  {
    seq(|items|, k requires 0 <= k < |items| => ToBook(items[k], show))
  }

  /** The books with a non-empty title, in their original order. */
  function Titled(bs: seq<Book>): (r: seq<Book>)
    ensures |r| <= |bs|
    ensures forall k :: 0 <= k < |r| ==> HasTitle(r[k])
    decreases |bs|
  {
    if bs == [] then []
    else if HasTitle(bs[0]) then [bs[0]] + Titled(bs[1..])
    else Titled(bs[1..])
  }

  /** The loop over the items: every item normalised, the ones without a title dropped. */
  function Kept(items: seq<Json>, show: Json -> string): seq<Book>
  {
    Titled(BooksOf(items, show))
  }

  /** Position `idx[k]` of `bs` holds the `k`-th book of `out`. */
  predicate Positions(bs: seq<Book>, out: seq<Book>, idx: seq<nat>)
  {
    && |idx| == |out|
    && (forall k :: 0 <= k < |idx| ==> idx[k] < |bs| && out[k] == bs[idx[k]])
  }

  predicate Increasing(idx: seq<nat>)
  {
    forall k, l :: 0 <= k < l < |idx| ==> idx[k] < idx[l]
  }

  /** `idx` holds exactly the positions of `bs` whose book has a title. */
  predicate TitledAt(bs: seq<Book>, idx: seq<nat>)
  {
    forall i :: 0 <= i < |bs| ==> (HasTitle(bs[i]) <==> i in idx)
  }

  /** `idx` lists, in increasing order, exactly the titled positions of `bs`, and `out` holds their books. */
  predicate Picks(bs: seq<Book>, out: seq<Book>, idx: seq<nat>)
  {
    Positions(bs, out, idx) && Increasing(idx) && TitledAt(bs, idx)
  }

  lemma {:induction false} TitledInOrder(bs: seq<Book>) returns (idx: seq<nat>)
    ensures Picks(bs, Titled(bs), idx)
    decreases |bs|
  {
    if bs == [] {
      return [];
    }
    var tail := TitledInOrder(bs[1..]);
    idx := Step(bs, tail);
    StepPositions(bs, Titled(bs[1..]), tail);
    StepIncreasing(bs, tail);
    StepTitledAt(bs, tail);
  }

  /** The positions for `bs` from those for its tail: shifted, and 0 in front when the head is titled. */
  function Step(bs: seq<Book>, tail: seq<nat>): seq<nat>
    requires bs != []
  {
    if HasTitle(bs[0]) then [0] + Shift(tail) else Shift(tail)
  }

  lemma StepPositions(bs: seq<Book>, out: seq<Book>, tail: seq<nat>)
    requires bs != []
    requires Positions(bs[1..], out, tail)
    ensures Positions(bs, if HasTitle(bs[0]) then [bs[0]] + out else out, Step(bs, tail))
  {
    var idx := Step(bs, tail);
    var o := if HasTitle(bs[0]) then [bs[0]] + out else out;
    var d := if HasTitle(bs[0]) then 1 else 0;
    forall k | d <= k < |idx|
      ensures idx[k] == tail[k - d] + 1 && o[k] == out[k - d]
    {
    }
  }

  lemma StepIncreasing(bs: seq<Book>, tail: seq<nat>)
    requires bs != []
    requires Increasing(tail)
    ensures Increasing(Step(bs, tail))
  {
    var idx := Step(bs, tail);
    var d := if HasTitle(bs[0]) then 1 else 0;
    forall k | d <= k < |idx|
      ensures idx[k] == tail[k - d] + 1
    {
    }
  }

  lemma StepTitledAt(bs: seq<Book>, tail: seq<nat>)
    requires bs != []
    requires TitledAt(bs[1..], tail)
    ensures TitledAt(bs, Step(bs, tail))
  {
    var idx := Step(bs, tail);
    forall i | 0 <= i < |bs|
      ensures HasTitle(bs[i]) <==> i in idx
    {
      if i == 0 {
        assert 0 !in Shift(tail);
      } else {
        ShiftMember(tail, i);
        assert bs[i] == bs[1..][i - 1];
        assert i in idx <==> i in Shift(tail);
      }
    }
  }

  lemma ShiftMember(xs: seq<nat>, i: int)
    requires i >= 1
    ensures i in Shift(xs) <==> i - 1 in xs
  {
    var r := Shift(xs);
    if i in r {
      var k :| 0 <= k < |r| && r[k] == i;
      assert xs[k] == i - 1;
    }
    if i - 1 in xs {
      var k :| 0 <= k < |xs| && xs[k] == i - 1;
      assert r[k] == i;
    }
  }

  /** Every position moved one place on. */
  function Shift(xs: seq<nat>): (r: seq<nat>)
    ensures |r| == |xs|
    ensures forall k :: 0 <= k < |xs| ==> r[k] == xs[k] + 1
    decreases |xs|
  {
    if xs == [] then [] else [xs[0] + 1] + Shift(xs[1..])
  }

  /**
   The loop keeps, in input order, exactly the items whose normalised title
   is not empty: `idx` lists their positions.
   */
  lemma KeptInOrder(items: seq<Json>, show: Json -> string) returns (idx: seq<nat>)
    ensures |idx| == |Kept(items, show)|
    ensures forall k :: 0 <= k < |idx| ==> idx[k] < |items| && Kept(items, show)[k] == ToBook(items[idx[k]], show)
    ensures forall k, l :: 0 <= k < l < |idx| ==> idx[k] < idx[l]
    ensures forall i :: 0 <= i < |items| ==> (HasTitle(ToBook(items[i], show)) <==> i in idx)
  {
    idx := TitledInOrder(BooksOf(items, show));
  }

  /** Every kept title is trimmed, since it is the title of some normalised item. */
  lemma KeptTrimmed(items: seq<Json>, show: Json -> string)
    ensures forall k :: 0 <= k < |Kept(items, show)| ==> IsTrimmed(Kept(items, show)[k].title)
  {
    var idx := KeptInOrder(items, show);
  }

  /**
   The final list: the first five kept books, or the single placeholder when
   no item kept a title. It always holds one to five books, each titled.
   */
  function Normalise(items: seq<Json>, show: Json -> string): (r: seq<Book>)
    ensures 1 <= |r| <= MaxBooks
    ensures forall k :: 0 <= k < |r| ==> HasTitle(r[k]) && IsTrimmed(r[k].title)
    ensures Kept(items, show) == [] ==> r == [Placeholder]
    ensures Kept(items, show) != [] ==>
              |r| == Min(MaxBooks, |Kept(items, show)|) && r == Kept(items, show)[..|r|]
  {
    KeptTrimmed(items, show);
    var out := Kept(items, show);
    if out == [] then [Placeholder] else out[..Min(MaxBooks, |out|)]
  }

  /** Every `BookOut` the loop builds passes validation. */
  predicate Accepted(items: seq<Json>, show: Json -> string)
  {
    forall k :: 0 <= k < |items| ==> HasTitle(ToBook(items[k], show)) ==> !Rejected(items[k])
  }

  /** The line fallback builds title-only objects, which validation always accepts. */
  lemma FallbackAccepted(content: string, show: Json -> string)
    ensures Accepted(FallbackItems(content), show)
  {
    var items := FallbackItems(content);
    forall k | 0 <= k < |items|
      ensures !Rejected(items[k])
    {
      TitleOnlyAccepted(FallbackTitles(content)[k]);
    }
  }

  lemma TitleOnlyAccepted(t: string)
    ensures !Rejected(TitleOnly(t))
  {
    assert "author" !in TitleOnly(t).fields && "reason" !in TitleOnly(t).fields;
  }

  /**
   The whole extraction from the model's reply text: one to five titled books,
   or None when a titled item carries an author or reason `BookOut` refuses,
   which only a reply that parsed can do.
   */
  function Extract(content: string, host: Host): (r: Option<seq<Book>>)
    ensures r.Some? ==> 1 <= |r.value| <= MaxBooks
    ensures r.Some? ==> forall k :: 0 <= k < |r.value| ==> HasTitle(r.value[k]) && IsTrimmed(r.value[k].title)
    ensures r.None? <==> host.parse(Candidate(content)).Some? && !Accepted(Items(content, host), host.show)
    ensures r.Some? ==> r.value == Normalise(Items(content, host), host.show)
  {
    var items := Items(content, host);
    if host.parse(Candidate(content)).None? then
      FallbackAccepted(content, host.show);
      Some(Normalise(items, host.show))
    else if Accepted(items, host.show) then Some(Normalise(items, host.show))
    else None
  }

  // ---------------------------------------------------------------------------
  // Round trip: books serialised the way the service serialises `BookOut`
  // ---------------------------------------------------------------------------

  /** A book as a JSON object: `{"title": …, "author": … or null, "reason": … or null}`. */
  function BookJson(b: Book): Json
  {
    Obj(map["title" := Str(b.title),
            "author" := if b.author.Some? then Str(b.author.value) else Null,
            "reason" := if b.reason.Some? then Str(b.reason.value) else Null])
  }

  /** A book the normaliser can produce: trimmed non-empty title, no empty optional field. */
  predicate WellFormed(b: Book)
  {
    HasTitle(b) && IsTrimmed(b.title) && b.author != Some("") && b.reason != Some("")
  }

  lemma BookJsonRoundTrip(b: Book, show: Json -> string)
    requires WellFormed(b)
    ensures ToBook(BookJson(b), show) == b
  {
    var m := BookJson(b).fields;
    assert OrEmpty(Get(m, "title")) == Str(b.title);
    StripTrimmed(b.title);
    assert OrNone(Get(m, "author")) == b.author;
    assert OrNone(Get(m, "reason")) == b.reason;
  }

  /** The books as the JSON array the service would send for them. */
  function BooksJson(books: seq<Book>): seq<Json>
  {
    seq(|books|, k requires 0 <= k < |books| => BookJson(books[k]))
  }

  /** The service's own JSON for a book never fails validation. */
  lemma BookJsonAccepted(b: Book)
    ensures !Rejected(BookJson(b))
  {
    var m := BookJson(b).fields;
    assert Get(m, "author").value.Str? || Get(m, "author").value == Null;
    assert Get(m, "reason").value.Str? || Get(m, "reason").value == Null;
  }

  lemma BooksJsonAccepted(books: seq<Book>, show: Json -> string)
    ensures Accepted(BooksJson(books), show)
  {
    var items := BooksJson(books);
    forall k | 0 <= k < |items|
      ensures !Rejected(items[k])
    {
      BookJsonAccepted(books[k]);
    }
  }

  /** A list of titled books passes the title filter unchanged. */
  lemma {:induction false} TitledAll(bs: seq<Book>)
    requires forall k :: 0 <= k < |bs| ==> HasTitle(bs[k])
    ensures Titled(bs) == bs
    decreases |bs|
  {
    if bs != [] {
      TitledAll(bs[1..]);
      assert [bs[0]] + bs[1..] == bs;
    }
  }

  /** Normalising the JSON of well-formed books gives the books back, all of them kept. */
  lemma KeptAll(books: seq<Book>, show: Json -> string)
    requires forall k :: 0 <= k < |books| ==> WellFormed(books[k])
    ensures Kept(BooksJson(books), show) == books
  {
    var bs := BooksOf(BooksJson(books), show);
    forall k | 0 <= k < |books|
      ensures bs[k] == books[k]
    {
      BookJsonRoundTrip(books[k], show);
    }
    assert bs == books;
    TitledAll(books);
  }

  /**
   A reply whose candidate parses to an array of well-formed books yields
   exactly the first five of them, fields verbatim and in order.
   */
  lemma ArrayOfBooksRoundTrip(content: string, host: Host, books: seq<Book>)
    requires books != []
    requires forall k :: 0 <= k < |books| ==> WellFormed(books[k])
    requires host.parse(Candidate(content)) == Some(Arr(BooksJson(books)))
    ensures Extract(content, host) == Some(books[..Min(MaxBooks, |books|)])
  {
    KeptAll(books, host.show);
    BooksJsonAccepted(books, host.show);
  }

  /** A reply whose candidate parses to one well-formed book object, not in a list, yields exactly that book. */
  lemma SingleObjectReply(content: string, host: Host, b: Book)
    requires WellFormed(b)
    requires host.parse(Candidate(content)) == Some(BookJson(b))
    ensures Extract(content, host) == Some([b])
  {
    assert Items(content, host) == [BookJson(b)];
    assert BooksJson([b]) == [BookJson(b)];
    KeptAll([b], host.show);
    BooksJsonAccepted([b], host.show);
  }
}
