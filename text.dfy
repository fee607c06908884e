/** String operations of Python's `str` that the bot relies on, restricted to
    what the model needs: `sep.join`, `split(sep)`, `strip`/`rstrip` with a
    character set, ASCII `lower()`, the substring test `a in b` and slicing
    `s[:n]`. */
module Text {

  /** `sep.join(parts)`. */
  function Join(parts: seq<string>, sep: char): string
  {
    if |parts| == 0 then ""
    else if |parts| == 1 then parts[0]
    else parts[0] + [sep] + Join(parts[1..], sep)
  }

  /** `s.split(sep)`: the pieces between separators; there is always at least
      one piece, none contains the separator, and joining them gives back `s`. */
  function Split(s: string, sep: char): (pieces: seq<string>)
    ensures |pieces| >= 1
    ensures forall i :: 0 <= i < |pieces| ==> sep !in pieces[i]
    ensures Join(pieces, sep) == s
  {
    if |s| == 0 then [""]
    else if s[0] == sep then
      var rest := Split(s[1..], sep);
      assert Join([""] + rest, sep) == [sep] + Join(rest, sep) by {
        assert ([""] + rest)[1..] == rest;
      }
      [""] + rest
    else
      var rest := Split(s[1..], sep);
      var pieces := [[s[0]] + rest[0]] + rest[1..];
      assert pieces[1..] == rest[1..];
      assert Join(pieces, sep) == [s[0]] + Join(rest, sep);
      assert [s[0]] + s[1..] == s;
      pieces
  }

  /** A piece free of the separator splits to itself, and a separator splits
      off everything before it. */
  lemma {:induction false} SplitAtSeparator(a: string, b: string, sep: char)
    requires sep !in a
    ensures Split(a, sep) == [a]
    ensures Split(a + [sep] + b, sep) == [a] + Split(b, sep)
    decreases |a|
  {
    if |a| == 0 {
      assert a + [sep] + b == [sep] + b;
      assert ([sep] + b)[1..] == b;
    } else {
      assert (a + [sep] + b)[1..] == a[1..] + [sep] + b;
      assert (a + [sep] + b)[0] == a[0];
      SplitAtSeparator(a[1..], b, sep);
      assert [a[0]] + a[1..] == a;
    }
  }

  /** Round trip: splitting a join gives back the parts when no part holds
      the separator. */
  lemma {:induction false} SplitJoin(parts: seq<string>, sep: char)
    requires |parts| >= 1
    requires forall i :: 0 <= i < |parts| ==> sep !in parts[i]
    ensures Split(Join(parts, sep), sep) == parts
  {
    if |parts| == 1 {
      SplitAtSeparator(parts[0], "", sep);
    } else {
      SplitJoin(parts[1..], sep);
      SplitAtSeparator(parts[0], Join(parts[1..], sep), sep);
      assert [parts[0]] + parts[1..] == parts;
    }
  }

  /** A join starts with the first part, and with two or more parts the
      separator follows it. */
  lemma JoinFirst(parts: seq<string>, sep: char)
    ensures |parts| > 0 ==> |parts[0]| <= |Join(parts, sep)| && Join(parts, sep)[..|parts[0]|] == parts[0]
    ensures |parts| > 1 ==> |parts[0]| < |Join(parts, sep)| && Join(parts, sep)[|parts[0]|] == sep
  {
  }

  /** A join is empty exactly when there is nothing to join or a single empty
      part: two or more parts always leave a separator behind. */
  lemma JoinEmpty(parts: seq<string>, sep: char)
    ensures Join(parts, sep) == "" <==> parts == [] || parts == [""]
  {
    if |parts| >= 2 {
      assert Join(parts, sep)[|parts[0]|] == sep;
    }
  }

  /** `s.rstrip(chars)`: drops the longest run of trailing characters that all
      belong to `chars` (a character set, not a suffix). */
  function RStrip(s: string, chars: set<char>): (r: string)
    ensures |r| <= |s| && r == s[..|r|]
    ensures |r| == 0 || r[|r| - 1] !in chars
    ensures forall i :: |r| <= i < |s| ==> s[i] in chars
  {
    if |s| > 0 && s[|s| - 1] in chars then RStrip(s[..|s| - 1], chars) else s
  }

  /** The three properties of `RStrip` pin it down: any prefix that keeps no
      stripped character at its end and drops only characters of the set is
      the `RStrip`. */
  lemma {:induction false} RStripUnique(s: string, chars: set<char>, r: string)
    requires |r| <= |s| && r == s[..|r|]
    requires |r| == 0 || r[|r| - 1] !in chars
    requires forall i :: |r| <= i < |s| ==> s[i] in chars
    ensures RStrip(s, chars) == r
  {
  }

  /** `s.lstrip(chars)`: drops the longest run of leading characters that all
      belong to `chars`. */
  function LStrip(s: string, chars: set<char>): (r: string)
    ensures |r| <= |s| && r == s[|s| - |r|..]
    ensures |r| == 0 || r[0] !in chars
    ensures forall i :: 0 <= i < |s| - |r| ==> s[i] in chars
  {
    if |s| > 0 && s[0] in chars then LStrip(s[1..], chars) else s
  }

  /** The characters Python's `str.strip()` removes, restricted to ASCII:
      space, tab, line feed, vertical tab, form feed, carriage return and the
      four information separators 0x1C to 0x1F. */
  const Whitespace: set<char> :=
    {' ', '\t', '\n', '\r', 11 as char, 12 as char, 28 as char, 29 as char, 30 as char, 31 as char}

  /** `s.strip()`: leading whitespace is dropped one character at a time,
      then the trailing run is cut off. */
  function Strip(s: string): string
  {
    if |s| > 0 && s[0] in Whitespace then Strip(s[1..]) else RStrip(s, Whitespace)
  }

  /** `strip()` is `lstrip()` followed by `rstrip()`. */
  lemma {:induction false} StripBothEnds(s: string)
    ensures Strip(s) == RStrip(LStrip(s, Whitespace), Whitespace)
  {
    if |s| > 0 && s[0] in Whitespace {
      StripBothEnds(s[1..]);
    }
  }

  /** `strip()` never lengthens its input, what is left neither starts nor
      ends with whitespace, and nothing is left exactly when the input is all
      whitespace. */
  lemma StripTrims(s: string)
    ensures |Strip(s)| <= |s|
    ensures |Strip(s)| == 0 || (Strip(s)[0] !in Whitespace && Strip(s)[|Strip(s)| - 1] !in Whitespace)
    ensures Strip(s) == "" <==> forall i :: 0 <= i < |s| ==> s[i] in Whitespace
  {
    StripBothEnds(s);
    var l := LStrip(s, Whitespace);
    if l != "" {
      assert l[0] !in Whitespace && s[|s| - |l|] == l[0];
      assert RStrip(l, Whitespace) != "";
    }
  }

  /** Stripping a padded word gives back the word: surrounding whitespace goes,
      the word itself is kept whole. */
  lemma {:induction false} StripPadded(left: string, word: string, right: string)
    requires forall i :: 0 <= i < |left| ==> left[i] in Whitespace
    requires forall i :: 0 <= i < |right| ==> right[i] in Whitespace
    requires |word| > 0 && word[0] !in Whitespace && word[|word| - 1] !in Whitespace
    ensures Strip(left + word + right) == word
  {
    var s := left + word + right;
    if |left| > 0 {
      assert s[0] == left[0] && s[1..] == left[1..] + word + right;
      StripPadded(left[1..], word, right);
    } else {
      assert s == word + right && s[0] == word[0];
      assert s[..|word|] == word;
      assert forall i :: |word| <= i < |s| ==> s[i] == right[i - |word|];
      RStripUnique(s, Whitespace, word);
    }
  }


  /** ASCII `str.lower()` of one character. */
  function LowerChar(c: char): char
  {
    if 'A' <= c <= 'Z' then (c as int + 32) as char else c
  }

  /** ASCII `str.lower()`. */
  function Lower(s: string): (r: string)
    ensures |r| == |s|
    ensures forall i :: 0 <= i < |s| ==> r[i] == LowerChar(s[i])
  {
    if |s| == 0 then "" else [LowerChar(s[0])] + Lower(s[1..])
  }

  /** `needle` occurs in `hay` starting at index `i`. */
  predicate OccursAt(needle: string, hay: string, i: nat)
  {
    i + |needle| <= |hay| && hay[i..i + |needle|] == needle
  }

  /** `needle in hay` for strings: `needle` occurs contiguously in `hay`. */
  predicate IsSubstring(needle: string, hay: string)
  {
    exists i: nat :: i <= |hay| && OccursAt(needle, hay, i)
  }

  /** `s[:n]` for `n >= 0`. */
  function Take<T>(s: seq<T>, n: nat): (r: seq<T>)
    ensures |r| == if |s| <= n then |s| else n
    ensures r == s[..|r|]
  {
    if |s| <= n then s else s[..n]
  }
}
