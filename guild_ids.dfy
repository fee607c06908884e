/** `get_active_guild_ids`: the guild ids the bot registers its commands in,
    read from the `ACTIVE_GUILDS` variable as a comma-separated list of
    integers. */
module GuildIds {
  import opened Wrappers
  import opened Text

  predicate IsDigit(c: char)
  {
    '0' <= c <= '9'
  }

  function DigitValue(c: char): nat
    requires IsDigit(c)
  {
    c as int - '0' as int
  }

  function DigitChar(d: nat): (c: char)
    requires d < 10
    ensures IsDigit(c) && DigitValue(c) == d
  {
    ('0' as int + d) as char
  }

  /** The unsigned part Python's `int()` accepts in base 10: decimal digits,
      where an underscore may stand between two digits. */
  predicate IsDigitGroup(s: string)
  {
    |s| > 0 && forall i :: 0 <= i < |s| ==> GroupCharAt(s, i)
  }

  /** The `i`-th character of a digit group: a digit, or an underscore with a
      digit on either side. */
  predicate GroupCharAt(s: string, i: nat)
    requires i < |s|
  {
    IsDigit(s[i]) || (s[i] == '_' && 0 < i < |s| - 1 && IsDigit(s[i - 1]) && IsDigit(s[i + 1]))
  }

  /** The value of a digit group: its digits read in base 10, the
      underscores skipped. */
  function DigitsValue(s: string): nat
  {
    if s == [] then 0
    else if IsDigit(s[|s| - 1]) then DigitsValue(s[..|s| - 1]) * 10 + DigitValue(s[|s| - 1])
    else DigitsValue(s[..|s| - 1])
  }

  /** Python's `int(s)` on an already stripped string, in base 10: an optional
      sign, then a digit group; anything else is a `ValueError` (`None`). */
  function ParseInt(s: string): (r: Option<int>)
    ensures r.Some? ==> |s| > 0
  {
    if |s| > 0 && (s[0] == '+' || s[0] == '-') then
      if IsDigitGroup(s[1..]) then
        var magnitude: int := DigitsValue(s[1..]);
        Some(if s[0] == '-' then -magnitude else magnitude)
      else None
    else if IsDigitGroup(s) then Some(DigitsValue(s))
    else None
  }

  /** The grammar `int()` accepts: a digit group, or a sign followed by one;
      only a leading `-` gives a negative value. */
  lemma ParseIntGrammar(s: string)
    ensures ParseInt(s).Some? <==>
      IsDigitGroup(s) || (|s| > 0 && (s[0] == '+' || s[0] == '-') && IsDigitGroup(s[1..]))
    ensures ParseInt(s).Some? && s[0] == '-' ==> ParseInt(s).value <= 0
    ensures ParseInt(s).Some? && s[0] != '-' ==> ParseInt(s).value >= 0
  {
    if |s| > 0 && (s[0] == '+' || s[0] == '-') {
      NotDigitGroupAt(s, 0);
    }
  }

  /** A character that is neither a digit nor an underscore between two
      digits spoils the digit group. */
  lemma NotDigitGroupAt(s: string, i: nat)
    requires i < |s| && !IsDigit(s[i])
    requires s[i] != '_' || i == 0 || i == |s| - 1 || !IsDigit(s[i - 1]) || !IsDigit(s[i + 1])
    ensures !IsDigitGroup(s)
  {
    assert !GroupCharAt(s, i);
  }

  /** Underscores may only sit singly between digits: `1_000` is a thousand,
      while a doubled, leading or trailing underscore, a lone sign, a doubled
      sign or an empty string is a `ValueError`. */
  lemma ParseIntUnderscores()
    ensures ParseInt("1_000") == Some(1000)
    ensures ParseInt("-4_2") == Some(-42)
    ensures ParseInt("1__0") == None
    ensures ParseInt("_1") == None && ParseInt("1_") == None
    ensures ParseInt("+") == None && ParseInt("+-1") == None && ParseInt("") == None
  {
    NotDigitGroupAt("1__0", 1);
    NotDigitGroupAt("_1", 0);
    NotDigitGroupAt("1_", 1);
    NotDigitGroupAt("-1", 0);
    assert DigitsValue("1_000") == 1000 by {
      assert "1_000"[..4] == "1_00" && "1_00"[..3] == "1_0" && "1_0"[..2] == "1_";
      assert "1_"[..1] == "1" && "1"[..0] == "";
    }
    assert DigitsValue("4_2") == 42 by {
      assert "4_2"[..2] == "4_" && "4_"[..1] == "4" && "4"[..0] == "";
    }
  }

  /** `int(piece.strip())`. */
  function ParseGuildId(piece: string): Option<int>
  {
    ParseInt(Strip(piece))
  }

  /** The parse of each piece, in order. */
  function Parsed(pieces: seq<string>): (parsed: seq<Option<int>>)
    ensures |parsed| == |pieces|
  {
    seq(|pieces|, i requires 0 <= i < |pieces| => ParseGuildId(pieces[i]))
  }

  /** The values of the parses that succeeded, in order. */
  function Somes(parsed: seq<Option<int>>): (ids: seq<int>)
    ensures |ids| <= |parsed|
  {
    if parsed == [] then []
    else Somes(parsed[..|parsed| - 1]) + (if parsed[|parsed| - 1].Some? then [parsed[|parsed| - 1].value] else [])
  }

  /** The ids of the pieces that parse, in order, failed pieces skipped. */
  function ParseAll(pieces: seq<string>): (ids: seq<int>)
    ensures |ids| <= |pieces|
  {
    Somes(Parsed(pieces))
  }

  /** `get_active_guild_ids()`, given the value of `ACTIVE_GUILDS` (`None`
      when the variable is not set). */
  method GetActiveGuildIds(env: Option<string>) returns (ids: seq<int>)
    ensures env.None? ==> ids == []
    ensures env.Some? ==> ids == ParseAll(Split(env.value, ','))
  {
    if env.None? {
      return [];
    }
    var pieces := Split(env.value, ',');
    ghost var parsed := Parsed(pieces);
    ids := [];
    var i := 0;
    while i < |pieces|
      invariant 0 <= i <= |pieces|
      invariant ids == Somes(parsed[..i])
    {
      var id := ParseGuildId(pieces[i]);
      assert id == parsed[i];
      if id.Some? {
        ids := ids + [id.value];
      }
      assert parsed[..i + 1][..i] == parsed[..i];
      i := i + 1;
    }
    assert parsed[..i] == parsed;
  }

  /** Parsing is piece by piece: the ids of two runs of pieces are the ids of
      each run, in order, duplicates kept. */
  lemma ParseAllAppend(a: seq<string>, b: seq<string>)
    ensures ParseAll(a + b) == ParseAll(a) + ParseAll(b)
  {
    var pa, pb := Parsed(a), Parsed(b);
    forall i | 0 <= i < |a + b| ensures Parsed(a + b)[i] == (pa + pb)[i] {
      if i < |a| {
        assert (a + b)[i] == a[i];
      } else {
        assert (a + b)[i] == b[i - |a|];
      }
    }
    assert Parsed(a + b) == pa + pb;
    SomesAppend(pa, pb);
  }

  lemma {:induction false} SomesAppend(a: seq<Option<int>>, b: seq<Option<int>>)
    ensures Somes(a + b) == Somes(a) + Somes(b)
    decreases |b|
  {
    if b == [] {
      assert a + b == a;
    } else {
      var init := b[..|b| - 1];
      SomesAppend(a, init);
      assert (a + b)[..|a + b| - 1] == a + init;
      assert (a + b)[|a + b| - 1] == b[|b| - 1];
    }
  }

  /** Every id in the result is the parse of a piece, and every piece that
      parses contributes its id. */
  lemma ParseAllMembers(pieces: seq<string>)
    ensures forall x :: x in ParseAll(pieces) <==> exists i :: 0 <= i < |pieces| && ParseGuildId(pieces[i]) == Some(x)
  {
    var parsed := Parsed(pieces);
    SomesMembers(parsed);
    forall x ensures x in ParseAll(pieces) <==> exists i :: 0 <= i < |pieces| && ParseGuildId(pieces[i]) == Some(x)
    {
      if exists i :: 0 <= i < |pieces| && ParseGuildId(pieces[i]) == Some(x) {
        var i :| 0 <= i < |pieces| && ParseGuildId(pieces[i]) == Some(x);
        assert parsed[i] == Some(x);
      }
    }
  }

  lemma {:induction false} SomesMembers(parsed: seq<Option<int>>)
    ensures forall x :: x in Somes(parsed) <==> Some(x) in parsed
  {
    if parsed != [] {
      var init := parsed[..|parsed| - 1];
      SomesMembers(init);
      assert forall o :: o in parsed <==> o in init || o == parsed[|parsed| - 1];
    }
  }

  /** An empty variable, and an empty piece anywhere, yield no id. */
  lemma EmptyValueYieldsNothing()
    ensures ParseAll(Split("", ',')) == []
    ensures ParseGuildId("") == None
  {
    assert Split("", ',') == [""];
    assert Strip("") == "";
  }

  /** An optionally signed run of decimal digits, with whitespace around it,
      parses to exactly its value. */
  lemma ParseSignedDigits(left: string, sign: string, digits: string, right: string)
    requires forall i :: 0 <= i < |left| ==> left[i] in Whitespace
    requires forall i :: 0 <= i < |right| ==> right[i] in Whitespace
    requires sign == "" || sign == "+" || sign == "-"
    requires |digits| > 0 && forall i :: 0 <= i < |digits| ==> IsDigit(digits[i])
    ensures ParseGuildId(left + sign + digits + right) == Some(if sign == "-" then 0 - DigitsValue(digits) else DigitsValue(digits))
  {
    StripSignedDigits(left, sign, digits, right);
    ParseSignedWord(sign, digits);
  }

  lemma StripSignedDigits(left: string, sign: string, digits: string, right: string)
    requires forall i :: 0 <= i < |left| ==> left[i] in Whitespace
    requires forall i :: 0 <= i < |right| ==> right[i] in Whitespace
    requires sign == "" || sign == "+" || sign == "-"
    requires |digits| > 0 && forall i :: 0 <= i < |digits| ==> IsDigit(digits[i])
    ensures Strip(left + sign + digits + right) == sign + digits
  {
    var word := sign + digits;
    assert word[|word| - 1] == digits[|digits| - 1];
    assert word[0] !in Whitespace;
    assert left + sign + digits + right == left + word + right;
    StripPadded(left, word, right);
  }

  /** A run of digits with no underscore is a digit group. */
  lemma DigitsAreGroup(s: string)
    requires |s| > 0 && forall i :: 0 <= i < |s| ==> IsDigit(s[i])
    ensures IsDigitGroup(s)
  {
    forall i | 0 <= i < |s| ensures GroupCharAt(s, i) {
      assert IsDigit(s[i]);
    }
  }

  lemma ParseSignedWord(sign: string, digits: string)
    requires sign == "" || sign == "+" || sign == "-"
    requires |digits| > 0 && forall i :: 0 <= i < |digits| ==> IsDigit(digits[i])
    ensures ParseInt(sign + digits) == Some(if sign == "-" then 0 - DigitsValue(digits) else DigitsValue(digits))
  {
    DigitsAreGroup(digits);
    var word := sign + digits;
    if sign == "" {
      assert word == digits;
      assert word[0] != '+' && word[0] != '-';
    } else {
      assert word[0] == sign[0];
      assert word[1..] == digits;
    }
  }

  /** `str(n)` for a natural number: its decimal digits. */
  function NatToDecimal(n: nat): (s: string)
    ensures |s| > 0 && forall i :: 0 <= i < |s| ==> IsDigit(s[i])
  {
    if n < 10 then [DigitChar(n)] else NatToDecimal(n / 10) + [DigitChar(n % 10)]
  }

  /** `str(n)`. */
  function IntToDecimal(n: int): string
  {
    if n < 0 then "-" + NatToDecimal(-n) else NatToDecimal(n)
  }

  /** The digits of `str(n)` read back as `n`. */
  lemma {:induction false} NatToDecimalValue(n: nat)
    ensures DigitsValue(NatToDecimal(n)) == n
  {
    var s := NatToDecimal(n);
    if n >= 10 {
      NatToDecimalValue(n / 10);
      assert s[..|s| - 1] == NatToDecimal(n / 10);
    }
  }

  /** Round trip: `int(str(n)) == n`. */
  lemma ParseIntRoundTrip(n: int)
    ensures ParseInt(IntToDecimal(n)) == Some(n)
  {
    var d := NatToDecimal(if n < 0 then -n else n);
    NatToDecimalValue(if n < 0 then -n else n);
    if n < 0 {
      ParseSignedWord("-", d);
    } else {
      ParseSignedWord("", d);
      assert "" + d == d;
    }
  }

  /** `str(i)` of each id. */
  function Rendered(ids: seq<int>): (parts: seq<string>)
    ensures |parts| == |ids|
  {
    seq(|ids|, i requires 0 <= i < |ids| => IntToDecimal(ids[i]))
  }

  /** `','.join(str(i) for i in ids)`. */
  function Render(ids: seq<int>): string
  {
    Join(Rendered(ids), ',')
  }

  /** A rendered id holds no comma. */
  lemma RenderedHasNoComma(n: int)
    ensures ',' !in IntToDecimal(n)
  {
    var d := NatToDecimal(if n < 0 then -n else n);
    assert forall j :: 0 <= j < |d| ==> d[j] != ',';
    assert IntToDecimal(n) == d || IntToDecimal(n) == "-" + d;
  }

  /** A rendered id parses back to the id. */
  lemma ParseRenderedId(n: int)
    ensures ParseGuildId(IntToDecimal(n)) == Some(n)
  {
    var d := NatToDecimal(if n < 0 then -n else n);
    var sign := if n < 0 then "-" else "";
    StripSignedDigits("", sign, d, "");
    assert "" + sign + d + "" == sign + d == IntToDecimal(n);
    ParseIntRoundTrip(n);
  }

  /** Round trip: a variable written as the ids joined by commas reads back
      as exactly those ids, in order. */
  lemma GuildIdsRoundTrip(ids: seq<int>)
    ensures ParseAll(Split(Render(ids), ',')) == ids
  {
    var parts := Rendered(ids);
    if ids == [] {
      EmptyValueYieldsNothing();
    } else {
      forall i | 0 <= i < |parts| ensures ',' !in parts[i] {
        RenderedHasNoComma(ids[i]);
      }
      SplitJoin(parts, ',');
      forall i | 0 <= i < |ids| ensures Parsed(parts)[i] == Some(ids[i]) {
        ParseRenderedId(ids[i]);
      }
      AllParsed(Parsed(parts), ids);
    }
  }

  /** When every parse succeeds, all the values are kept. */
  lemma {:induction false} AllParsed(parsed: seq<Option<int>>, ids: seq<int>)
    requires |parsed| == |ids|
    requires forall i :: 0 <= i < |ids| ==> parsed[i] == Some(ids[i])
    ensures Somes(parsed) == ids
  {
    if ids != [] {
      AllParsed(parsed[..|parsed| - 1], ids[..|ids| - 1]);
    }
  }
}
