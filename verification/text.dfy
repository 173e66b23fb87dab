/**
 The handful of Python `str` operations the services rely on: `strip`/`rstrip`
 with a character class, `sep.join(xs)` and `s.split(sep)`, written over
 `seq<char>` together with the facts about them the other modules need.
 */
module Text {

  /** Python's `str.isspace`: exactly the characters a bare `strip()` removes. */
  predicate IsSpace(c: char)
  {
    || ('\t' <= c <= '\r')
    || ('\U{1C}' <= c <= '\U{1F}')
    || c == ' '
    || c == '\U{85}'
    || c == '\U{A0}'
    || c == '\U{1680}'
    || ('\U{2000}' <= c <= '\U{200A}')
    || c == '\U{2028}'
    || c == '\U{2029}'
    || c == '\U{202F}'
    || c == '\U{205F}'
    || c == '\U{3000}'
  }

  /** The line boundaries Python's `str.splitlines` breaks at. */
  predicate IsLineBreak(c: char)
  {
    || c == '\n'
    || c == '\r'
    || c == '\U{0B}'
    || c == '\U{0C}'
    || ('\U{1C}' <= c <= '\U{1E}')
    || c == '\U{85}'
    || c == '\U{2028}'
    || c == '\U{2029}'
  }

  predicate IsComma(c: char)
  {
    c == ','
  }

  predicate IsNewline(c: char)
  {
    c == '\n'
  }

  /** No character of `s` is in the class `p`. */
  predicate NoneOf(s: string, p: char -> bool)
  {
    forall k :: 0 <= k < |s| ==> !p(s[k])
  }

  /** Every character of `s` is in the class `p`. */
  predicate AllOf(s: string, p: char -> bool)
  {
    forall k :: 0 <= k < |s| ==> p(s[k])
  }

  predicate StartsWith(s: string, prefix: string)
  {
    |prefix| <= |s| && s[..|prefix|] == prefix
  }

  predicate EndsWith(s: string, suffix: string)
  {
    |suffix| <= |s| && s[|s| - |suffix|..] == suffix
  }

  /** The first index at or after `i` whose character is not in `drop` (`|s|` if none). */
  function Lead(s: string, drop: char -> bool, i: nat): (n: nat)
    requires i <= |s|
    ensures i <= n <= |s|
    ensures forall k :: i <= k < n ==> drop(s[k])
    ensures n < |s| ==> !drop(s[n])
    decreases |s| - i
  {
    if i < |s| && drop(s[i]) then Lead(s, drop, i + 1) else i
  }

  /** The end of `s[lo..j]` once the longest suffix made of characters in `drop` is cut off. */
  function Trail(s: string, drop: char -> bool, lo: nat, j: nat): (n: nat)
    requires lo <= j <= |s|
    ensures lo <= n <= j
    ensures forall k :: n <= k < j ==> drop(s[k])
    ensures lo < n ==> !drop(s[n - 1])
    decreases j
  {
    if lo < j && drop(s[j - 1]) then Trail(s, drop, lo, j - 1) else j
  }

  /** `s.lstrip(chars)`: removes the longest prefix made of characters in `drop`. */
  function LStrip(s: string, drop: char -> bool): (r: string)
    ensures |r| <= |s| && r == s[|s| - |r|..]
    ensures forall k :: 0 <= k < |s| - |r| ==> drop(s[k])
    ensures r != [] ==> !drop(r[0])
  {
    s[Lead(s, drop, 0)..]
  }

  /** `s.rstrip(chars)`: removes the longest suffix made of characters in `drop`. */
  function RStrip(s: string, drop: char -> bool): (r: string)
    ensures |r| <= |s| && r == s[..|r|]
    ensures forall k :: |r| <= k < |s| ==> drop(s[k])
    ensures r != [] ==> !drop(r[|r| - 1])
  {
    s[..Trail(s, drop, 0, |s|)]
  }

  /**
   `s.strip(chars)`: the result is a slice of `s` that neither starts nor ends
   with a character of `drop`, and everything cut away on either side is in `drop`.
   */
  function StripWith(s: string, drop: char -> bool): (r: string)
    ensures TrimmedBy(r, drop)
    ensures CutAt(s, Lead(s, drop, 0), r, drop)
  {
    var i := Lead(s, drop, 0);
    s[i..Trail(s, drop, i, |s|)]
  }

  /** Stripping leaves nothing exactly when every character is in the stripped class. */
  lemma StripWithEmpty(s: string, drop: char -> bool)
    ensures StripWith(s, drop) == [] <==> AllOf(s, drop)
  {
    var i := Lead(s, drop, 0);
    if StripWith(s, drop) != [] {
      assert !drop(s[i]);
    }
  }

  /** `r` is the slice of `s` at offset `i`, and everything around it is in `drop`. */
  predicate CutAt(s: string, i: int, r: string, drop: char -> bool)
  {
    && 0 <= i <= |s| - |r|
    && r == s[i..i + |r|]
    && (forall k :: 0 <= k < i ==> drop(s[k]))
    && (forall k :: i + |r| <= k < |s| ==> drop(s[k]))
  }

  /** Python's bare `s.strip()`. */
  function Strip(s: string): string
  {
    StripWith(s, IsSpace)
  }

  /** `s` neither starts nor ends with a character of `drop`. */
  predicate TrimmedBy(s: string, drop: char -> bool)
  {
    s == [] || (!drop(s[0]) && !drop(s[|s| - 1]))
  }

  /** `s` has no surrounding whitespace, i.e. it is what `strip()` leaves. */
  predicate IsTrimmed(s: string)
  {
    TrimmedBy(s, IsSpace)
  }

  lemma StripIsTrimmed(s: string)
    ensures IsTrimmed(Strip(s))
  {
  }

  /** A string without surrounding characters of `drop` is left alone. */
  lemma StripWithNoop(s: string, drop: char -> bool)
    requires TrimmedBy(s, drop)
    ensures StripWith(s, drop) == s
  {
    if s != [] {
      assert Lead(s, drop, 0) == 0;
      assert Trail(s, drop, 0, |s|) == |s|;
    }
  }

  lemma StripTrimmed(s: string)
    requires IsTrimmed(s)
    ensures Strip(s) == s
  {
    StripWithNoop(s, IsSpace);
  }

  /** A leading character of the stripped class does not change the result. */
  lemma StripWithDropsHead(c: char, s: string, drop: char -> bool)
    requires drop(c)
    ensures StripWith([c] + s, drop) == StripWith(s, drop)
  {
    var t := [c] + s;
    var i := Lead(s, drop, 0);
    var j := Trail(s, drop, i, |s|);
    LeadShift(c, s, drop, 0);
    assert Lead(t, drop, 0) == Lead(t, drop, 1);
    TrailShift(c, s, drop, i, |s|);
    SliceShift(c, s, i, j);
  }

  lemma SliceShift(c: char, s: string, i: nat, j: nat)
    requires i <= j <= |s|
    ensures ([c] + s)[i + 1..j + 1] == s[i..j]
  {
  }

  /** Putting a character in front shifts every `Lead` index by one. */
  lemma {:induction false} LeadShift(c: char, s: string, drop: char -> bool, i: nat)
    requires i <= |s|
    ensures Lead([c] + s, drop, i + 1) == Lead(s, drop, i) + 1
    decreases |s| - i
  {
    var t := [c] + s;
    if i < |s| {
      assert t[i + 1] == s[i];
      if drop(s[i]) {
        LeadShift(c, s, drop, i + 1);
      }
    }
  }

  /** Putting a character in front shifts every `Trail` index by one. */
  lemma {:induction false} TrailShift(c: char, s: string, drop: char -> bool, lo: nat, j: nat)
    requires lo <= j <= |s|
    ensures Trail([c] + s, drop, lo + 1, j + 1) == Trail(s, drop, lo, j) + 1
    decreases j
  {
    var t := [c] + s;
    if lo < j {
      assert t[j] == s[j - 1];
      if drop(s[j - 1]) {
        TrailShift(c, s, drop, lo, j - 1);
      }
    }
  }

  /** A leading blank does not change what `strip()` leaves. */
  lemma StripDropsSpace(s: string)
    ensures Strip([' '] + s) == Strip(s)
  {
    StripWithDropsHead(' ', s, IsSpace);
  }

  /** A common prefix and suffix can be cancelled. */
  lemma ConcatCancel(pre: string, x: string, y: string, post: string)
    requires pre + x + post == pre + y + post
    ensures x == y
  {
    assert x == (pre + x + post)[|pre|..|pre| + |x|];
    assert y == (pre + y + post)[|pre|..|pre| + |y|];
  }

  /** `sep.join(xs)`. */
  function Join(sep: string, xs: seq<string>): string
  {
    if |xs| == 0 then ""
    else if |xs| == 1 then xs[0]
    else xs[0] + sep + Join(sep, xs[1..])
  }

  /** Joining a list with a head puts the separator between the head and the join of the rest. */
  lemma JoinCons(sep: string, x: string, tail: seq<string>)
    requires |tail| >= 1
    ensures Join(sep, [x] + tail) == x + sep + Join(sep, tail)
  {
    assert ([x] + tail)[1..] == tail;
  }

  /** Joining with a non-empty separator gives "" exactly for `[]` and `[""]`. */
  lemma JoinEmptyIff(sep: string, xs: seq<string>)
    requires sep != ""
    ensures Join(sep, xs) == "" <==> xs == [] || xs == [""]
  {
    if |xs| >= 2 {
      assert |Join(sep, xs)| >= |sep|;
    }
  }

  /** Joining adds no character of a class that neither the separator nor any element has. */
  lemma {:induction false} JoinNoneOf(sep: string, xs: seq<string>, p: char -> bool)
    requires NoneOf(sep, p)
    requires forall i :: 0 <= i < |xs| ==> NoneOf(xs[i], p)
    ensures NoneOf(Join(sep, xs), p)
    decreases |xs|
  {
    if |xs| >= 2 {
      JoinNoneOf(sep, xs[1..], p);
      NoneOfConcat(xs[0] + sep, Join(sep, xs[1..]), p);
      NoneOfConcat(xs[0], sep, p);
    }
  }

  lemma NoneOfConcat(a: string, b: string, p: char -> bool)
    ensures NoneOf(a + b, p) <==> NoneOf(a, p) && NoneOf(b, p)
  {
    if NoneOf(a, p) && NoneOf(b, p) {
      forall k | 0 <= k < |a + b|
        ensures !p((a + b)[k])
      {
        if k >= |a| {
          assert (a + b)[k] == b[k - |a|];
        }
      }
    }
    if NoneOf(a + b, p) {
      forall k | 0 <= k < |a|
        ensures !p(a[k])
      {
        assert (a + b)[k] == a[k];
      }
      forall k | 0 <= k < |b|
        ensures !p(b[k])
      {
        assert (a + b)[|a| + k] == b[k];
      }
    }
  }

  /** `", ".join(xs) or "-"`: the rendering of a preference list in prompts and profiles. */
  function JoinOrDash(xs: seq<string>): (r: string)
    ensures r != ""
    ensures r == (if xs == [] || xs == [""] then "-" else Join(", ", xs))
  {
    JoinEmptyIff(", ", xs);
    var joined := Join(", ", xs);
    if joined == "" then "-" else joined
  }

  /** `s.split(sep)`, with the separator given as a character class. */
  function Split(s: string, isSep: char -> bool): (r: seq<string>)
    ensures |r| >= 1
    ensures forall i :: 0 <= i < |r| ==> NoneOf(r[i], isSep)
    decreases |s|
  {
    if s == [] then [""]
    else
      var rest := Split(s[1..], isSep);
      if isSep(s[0]) then [""] + rest else [[s[0]] + rest[0]] + rest[1..]
  }

  lemma {:induction false} SplitNoSep(s: string, isSep: char -> bool)
    requires NoneOf(s, isSep)
    ensures Split(s, isSep) == [s]
    decreases |s|
  {
    if s != [] {
      SplitNoSep(s[1..], isSep);
      assert [s[0]] + s[1..] == s;
    }
  }

  /** A leading character that is not a separator joins the first piece. */
  lemma SplitConsOther(c: char, s: string, isSep: char -> bool)
    requires !isSep(c)
    ensures Split([c] + s, isSep) == [[c] + Split(s, isSep)[0]] + Split(s, isSep)[1..]
  {
    assert ([c] + s)[1..] == s;
  }

  /** A separator character splits the text into the pieces of both sides. */
  lemma {:induction false} SplitAround(a: string, c: char, b: string, isSep: char -> bool)
    requires isSep(c)
    ensures Split(a + [c] + b, isSep) == Split(a, isSep) + Split(b, isSep)
    decreases |a|
  {
    var s := a + [c] + b;
    if a == [] {
      assert s[1..] == b;
    } else {
      assert s[1..] == a[1..] + [c] + b;
      SplitAround(a[1..], c, b, isSep);
    }
  }

  /** Splitting a join undoes it when no element contains the separator. */
  lemma {:induction false} SplitJoin(xs: seq<string>, c: char, isSep: char -> bool)
    requires isSep(c)
    requires |xs| >= 1
    requires forall i :: 0 <= i < |xs| ==> NoneOf(xs[i], isSep)
    ensures Split(Join([c], xs), isSep) == xs
    decreases |xs|
  {
    if |xs| == 1 {
      SplitNoSep(xs[0], isSep);
    } else {
      SplitJoin(xs[1..], c, isSep);
      SplitAround(xs[0], c, Join([c], xs[1..]), isSep);
      SplitNoSep(xs[0], isSep);
      assert [xs[0]] + xs[1..] == xs;
    }
  }

  /** Joining the pieces of a split restores the text, when the separator class is one character. */
  lemma {:induction false} JoinSplit(s: string, c: char, isSep: char -> bool)
    requires forall ch :: isSep(ch) <==> ch == c
    ensures Join([c], Split(s, isSep)) == s
    decreases |s|
  {
    if s != [] {
      var rest := Split(s[1..], isSep);
      JoinSplit(s[1..], c, isSep);
      if isSep(s[0]) {
        assert ([""] + rest)[1..] == rest;
        assert Join([c], [""] + rest) == [c] + Join([c], rest);
      } else {
        var pieces := [[s[0]] + rest[0]] + rest[1..];
        if |rest| == 1 {
          assert Join([c], pieces) == [s[0]] + rest[0];
        } else {
          assert pieces[1..] == rest[1..];
          assert Join([c], rest) == rest[0] + [c] + Join([c], rest[1..]);
        }
        assert [s[0]] + s[1..] == s;
      }
    }
  }
}
