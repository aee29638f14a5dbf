/**
 * The parts of java.lang.String, Integer and Boolean that the parking-lot
 * core relies on: trim, isBlank, case-insensitive comparison, split on a
 * comma or on runs of whitespace, and the decimal and boolean text forms.
 * Case mapping is ASCII only, and one predicate, IsSpace, stands for every
 * notion of whitespace (it is the one String.trim uses).
 */
module JavaText {
  import opened Wrappers

  // ---------------------------------------------------------------------
  // 32-bit integers
  // ---------------------------------------------------------------------

  const MinInt: int := -0x8000_0000
  const MaxInt: int := 0x7fff_ffff

  /** Java's `int`. */
  type int32 = x: int | MinInt <= x <= MaxInt

  /** The `int` that Java's 32-bit arithmetic yields for the exact value `x`. */
  function Wrap32(x: int): (r: int32)
    ensures MinInt <= x <= MaxInt ==> r == x
    ensures x == MaxInt + 1 ==> r == MinInt
  {
    (x - MinInt) % 0x1_0000_0000 + MinInt
  }

  // ---------------------------------------------------------------------
  // Whitespace, trim and blankness
  // ---------------------------------------------------------------------

  /** String.trim removes exactly the characters at or below U+0020. */
  predicate IsSpace(c: char) {
    c <= ' '
  }

  predicate NoSpace(s: string) {
    forall k :: 0 <= k < |s| ==> !IsSpace(s[k])
  }

  /** String.isBlank: empty or only whitespace. */
  predicate IsBlank(s: string) {
    forall k :: 0 <= k < |s| ==> IsSpace(s[k])
  }

  /** Index of the first non-space character, or |s| if there is none. */
  function TrimStart(s: string): (i: nat)
    ensures i <= |s|
    ensures forall k :: 0 <= k < i ==> IsSpace(s[k])
    ensures i < |s| ==> !IsSpace(s[i])
  {
    if s == [] || !IsSpace(s[0]) then 0 else 1 + TrimStart(s[1..])
  }

  /** One past the last non-space character, or 0 if there is none. */
  function TrimEnd(s: string): (j: nat)
    ensures j <= |s|
    ensures forall k :: j <= k < |s| ==> IsSpace(s[k])
    ensures 0 < j ==> !IsSpace(s[j - 1])
  {
    if s == [] || !IsSpace(s[|s| - 1]) then |s| else TrimEnd(s[..|s| - 1])
  }

  /** String.trim: `s` without its leading and trailing whitespace. */
  function Trim(s: string): (r: string)
    ensures r == [] <==> IsBlank(s)
    ensures r != [] ==> !IsSpace(r[0]) && !IsSpace(r[|r| - 1])
    ensures r != [] ==> r == s[TrimStart(s)..TrimEnd(s)]
    ensures |r| <= |s|
  {
    var i, j := TrimStart(s), TrimEnd(s);
    if i < j then s[i..j] else []
  }

  /** A string that starts and ends with a non-space character is its own trim. */
  lemma TrimNoop(s: string)
    requires s == [] || (!IsSpace(s[0]) && !IsSpace(s[|s| - 1]))
    ensures Trim(s) == s
  {
    if s != [] {
      assert TrimStart(s) == 0;
      assert TrimEnd(s) == |s|;
    }
  }

  /** After the leading whitespace comes the trimmed string, then only whitespace. */
  lemma TrimSplit(s: string)
    requires !IsBlank(s)
    ensures s[TrimStart(s)..] == Trim(s) + s[TrimEnd(s)..]
    ensures IsBlank(s[TrimEnd(s)..])
  {
    var i, j := TrimStart(s), TrimEnd(s);
    assert s[i..] == s[i..j] + s[j..];
    var tail := s[j..];
    forall k | 0 <= k < |tail| ensures IsSpace(tail[k]) {
      assert tail[k] == s[j + k];
    }
  }

  /** Trimming twice is trimming once. */
  lemma TrimIdempotent(s: string)
    ensures Trim(Trim(s)) == Trim(s)
  {
    TrimNoop(Trim(s));
  }

  /** One trailing space disappears under trim when the rest is already trimmed. */
  lemma TrimDropsTrailingSpace(s: string)
    requires s != [] && !IsSpace(s[0]) && !IsSpace(s[|s| - 1])
    ensures Trim(s + " ") == s
  {
    var t := s + " ";
    assert t[..|t| - 1] == s;
    assert TrimStart(t) == 0;
    assert TrimEnd(s) == |s|;
    assert TrimEnd(t) == |s|;
    assert t[0..|s|] == s;
  }

  // ---------------------------------------------------------------------
  // Case
  // ---------------------------------------------------------------------

  /** Character.toLowerCase, restricted to ASCII letters. */
  function ToLower(c: char): (r: char)
    ensures IsSpace(r) <==> IsSpace(c)
    ensures r != ',' <==> c != ','
  {
    if 'A' <= c <= 'Z' then (c as int + 32) as char else c
  }

  /** Character.toUpperCase, restricted to ASCII letters. */
  function ToUpper(c: char): (r: char)
    ensures IsSpace(r) <==> IsSpace(c)
    ensures r != ',' <==> c != ','
  {
    if 'a' <= c <= 'z' then (c as int - 32) as char else c
  }

  /** String.toLowerCase. */
  function LowerCase(s: string): (r: string)
    ensures |r| == |s|
  {
    if s == [] then [] else [ToLower(s[0])] + LowerCase(s[1..])
  }

  /** Lower-casing works character by character. */
  lemma {:induction false} LowerCaseAt(s: string)
    ensures forall k :: 0 <= k < |s| ==> LowerCase(s)[k] == ToLower(s[k])
  {
    if s != [] {
      LowerCaseAt(s[1..]);
      assert forall k :: 1 <= k < |s| ==> LowerCase(s)[k] == LowerCase(s[1..])[k - 1];
    }
  }

  /** String.equalsIgnoreCase: equal after folding case, character by character. */
  predicate EqualsIgnoreCase(a: string, b: string) {
    LowerCase(a) == LowerCase(b)
  }

  /** Lower-casing is idempotent: a lower-cased string is its own lower case. */
  lemma LowerCaseIdempotent(s: string)
    ensures LowerCase(LowerCase(s)) == LowerCase(s)
  {
    LowerCaseAt(s);
    LowerCaseAt(LowerCase(s));
  }

  /** Lower-casing distributes over concatenation. */
  lemma LowerCaseAppend(a: string, b: string)
    ensures LowerCase(a + b) == LowerCase(a) + LowerCase(b)
  {
    LowerCaseAt(a + b);
    LowerCaseAt(a);
    LowerCaseAt(b);
    assert forall k :: 0 <= k < |a + b| ==> LowerCase(a + b)[k] == (LowerCase(a) + LowerCase(b))[k];
  }

  // ---------------------------------------------------------------------
  // Splitting on a separator character, and joining
  // ---------------------------------------------------------------------

  /** The fields joined with single `sep` characters. */
  function JoinWith(fields: seq<string>, sep: char): string {
    if |fields| == 0 then []
    else if |fields| == 1 then fields[0]
    else fields[0] + [sep] + JoinWith(fields[1..], sep)
  }

  /** Joining a field in front of a non-empty list puts one separator after it. */
  lemma JoinCons(f: string, rest: seq<string>, sep: char)
    requires rest != []
    ensures JoinWith([f] + rest, sep) == f + [sep] + JoinWith(rest, sep)
  {
    assert ([f] + rest)[1..] == rest;
  }

  /** Every field between separators, empty ones included: the inverse of JoinWith. */
  function SplitOn(s: string, sep: char): (r: seq<string>)
    ensures |r| >= 1
    ensures forall k :: 0 <= k < |r| ==> sep !in r[k]
    ensures JoinWith(r, sep) == s
  {
    if s == [] then [[]]
    else
      var rest := SplitOn(s[1..], sep);
      if s[0] == sep then
        assert JoinWith([[]] + rest, sep) == [] + [sep] + JoinWith(rest, sep) by {
          assert ([[]] + rest)[1..] == rest;
        }
        assert s == [sep] + s[1..];
        [[]] + rest
      else
        var r := [[s[0]] + rest[0]] + rest[1..];
        assert JoinWith(r, sep) == [s[0]] + JoinWith(rest, sep) by {
          if |rest| > 1 {
            assert r[1..] == rest[1..];
          }
        }
        assert s == [s[0]] + s[1..];
        r
  }

  /** The leading field and the separator come off first. */
  lemma {:induction false} SplitOnField(a: string, rest: string, sep: char)
    requires sep !in a
    ensures SplitOn(a + [sep] + rest, sep) == [a] + SplitOn(rest, sep)
    decreases |a|
  {
    if a == [] {
      assert a + [sep] + rest == [sep] + rest;
      assert ([sep] + rest)[1..] == rest;
    } else {
      var s := a + [sep] + rest;
      assert s[0] == a[0];
      assert s[1..] == a[1..] + [sep] + rest;
      SplitOnField(a[1..], rest, sep);
      assert [a[0]] + a[1..] == a;
    }
  }

  /** A string without the separator is one field. */
  lemma {:induction false} SplitOnNoSep(a: string, sep: char)
    requires sep !in a
    ensures SplitOn(a, sep) == [a]
    decreases |a|
  {
    if a != [] {
      SplitOnNoSep(a[1..], sep);
      assert [a[0]] + a[1..] == a;
    }
  }

  /** Splitting a join of separator-free fields gives the fields back. */
  lemma {:induction false} SplitOnJoin(fields: seq<string>, sep: char)
    requires |fields| >= 1
    requires forall k :: 0 <= k < |fields| ==> sep !in fields[k]
    ensures SplitOn(JoinWith(fields, sep), sep) == fields
    decreases |fields|
  {
    if |fields| == 1 {
      SplitOnNoSep(fields[0], sep);
    } else {
      SplitOnJoin(fields[1..], sep);
      SplitOnField(fields[0], JoinWith(fields[1..], sep), sep);
      assert [fields[0]] + fields[1..] == fields;
    }
  }

  /** The fields of `fs` up to and including the last non-empty one. */
  function DropTrailingEmpty(fs: seq<string>): (r: seq<string>)
    ensures |r| <= |fs| && r == fs[..|r|]
    ensures r == [] || r[|r| - 1] != []
    ensures forall k :: |r| <= k < |fs| ==> fs[k] == []
  {
    if fs == [] then []
    else if fs[|fs| - 1] == [] then DropTrailingEmpty(fs[..|fs| - 1])
    else fs
  }

  /**
   * String.split with a one-character literal pattern: all fields between
   * separators, with trailing empty fields removed; a string without the
   * separator comes back whole, even when it is empty.
   */
  function JavaSplit(s: string, sep: char): (r: seq<string>)
    ensures sep !in s ==> r == [s]
    ensures forall k :: 0 <= k < |r| ==> sep !in r[k]
    ensures sep in s ==> r == [] || r[|r| - 1] != []
  {
    if sep !in s then [s] else DropTrailingEmpty(SplitOn(s, sep))
  }

  /** The fields of a split, joined again, give the string without its trailing run of separators. */
  lemma JavaSplitRejoin(s: string, sep: char)
    ensures var j := JoinWith(JavaSplit(s, sep), sep);
      |j| <= |s| && s[..|j|] == j && forall k :: |j| <= k < |s| ==> s[k] == sep
  {
    if sep in s {
      DropTrailingJoin(SplitOn(s, sep), sep);
    }
  }

  /** Dropping trailing empty fields shortens the join by a run of separators only. */
  lemma {:induction false} DropTrailingJoin(fs: seq<string>, sep: char)
    requires |fs| >= 1
    ensures var j, s := JoinWith(DropTrailingEmpty(fs), sep), JoinWith(fs, sep);
      |j| <= |s| && s[..|j|] == j && forall k :: |j| <= k < |s| ==> s[k] == sep
    decreases |fs|
  {
    if fs[|fs| - 1] == [] && |fs| >= 2 {
      var init := fs[..|fs| - 1];
      assert fs == init + [[]];
      DropTrailingJoin(init, sep);
      JoinSnoc(init, [], sep);
    }
  }

  /** Separator-free fields, at least two, the last non-empty: split recovers them. */
  lemma JavaSplitJoin(fields: seq<string>, sep: char)
    requires |fields| >= 2 && fields[|fields| - 1] != []
    requires forall k :: 0 <= k < |fields| ==> sep !in fields[k]
    ensures JavaSplit(JoinWith(fields, sep), sep) == fields
  {
    var s := JoinWith(fields, sep);
    SplitOnJoin(fields, sep);
    assert s == fields[0] + [sep] + JoinWith(fields[1..], sep);
    assert s[|fields[0]|] == sep;
  }

  /** Two or more fields joined by a non-space separator are not blank. */
  lemma JoinNotBlank(fields: seq<string>, sep: char)
    requires |fields| >= 2 && !IsSpace(sep)
    ensures !IsBlank(JoinWith(fields, sep))
  {
    var s := JoinWith(fields, sep);
    assert s == fields[0] + [sep] + JoinWith(fields[1..], sep);
    assert s[|fields[0]|] == sep;
  }

  /** An empty last field is lost: split yields fewer fields than were joined. */
  lemma JavaSplitDropsEmptyLast(fields: seq<string>, sep: char)
    requires |fields| >= 2 && fields[|fields| - 1] == []
    requires forall k :: 0 <= k < |fields| ==> sep !in fields[k]
    ensures |JavaSplit(JoinWith(fields, sep), sep)| < |fields|
  {
    var s := JoinWith(fields, sep);
    SplitOnJoin(fields, sep);
    assert s == fields[0] + [sep] + JoinWith(fields[1..], sep);
    assert s[|fields[0]|] == sep;
  }

  // ---------------------------------------------------------------------
  // Splitting on runs of whitespace
  // ---------------------------------------------------------------------

  /** Length of the leading run of non-space characters. */
  function WordLength(s: string): (n: nat)
    ensures n <= |s|
    ensures forall k :: 0 <= k < n ==> !IsSpace(s[k])
    ensures n < |s| ==> IsSpace(s[n])
  {
    if s == [] || IsSpace(s[0]) then 0 else 1 + WordLength(s[1..])
  }

  /**
   * The maximal runs of non-space characters, in order. On a string that
   * does not start with whitespace this is String.split("\\s+").
   */
  function Words(s: string): (ws: seq<string>)
    ensures forall k :: 0 <= k < |ws| ==> ws[k] != [] && NoSpace(ws[k])
    ensures ws == [] <==> IsBlank(s)
    decreases |s|
  {
    if s == [] then []
    else if IsSpace(s[0]) then Words(s[1..])
    else
      var n := WordLength(s);
      [s[..n]] + Words(s[n..])
  }

  /** Words of a trimmed string: the first starts at its first character. */
  lemma {:induction false} WordLengthOfWord(w: string, rest: string)
    requires NoSpace(w)
    requires rest == [] || IsSpace(rest[0])
    ensures WordLength(w + rest) == |w|
    decreases |w|
  {
    if w != [] {
      assert (w + rest)[1..] == w[1..] + rest;
      WordLengthOfWord(w[1..], rest);
    }
  }

  /** Joining non-empty, space-free words with single spaces and splitting again gives them back. */
  lemma {:induction false} WordsOfJoin(ws: seq<string>)
    requires forall k :: 0 <= k < |ws| ==> ws[k] != [] && NoSpace(ws[k])
    ensures Words(JoinWith(ws, ' ')) == ws
    decreases |ws|
  {
    if |ws| == 1 {
      WordLengthOfWord(ws[0], []);
      assert ws[0] + [] == ws[0];
      assert ws[0][|ws[0]|..] == [];
    } else if |ws| > 1 {
      var w, tail := ws[0], JoinWith(ws[1..], ' ');
      var s := w + [' '] + tail;
      WordLengthOfWord(w, [' '] + tail);
      assert s == w + ([' '] + tail);
      assert s[..|w|] == w;
      assert s[|w|..] == [' '] + tail;
      assert ([' '] + tail)[1..] == tail;
      WordsOfJoin(ws[1..]);
      assert [ws[0]] + ws[1..] == ws;
    }
  }

  /** The ends of a join of non-empty, space-free words are not spaces. */
  lemma {:induction false} JoinWordsEnds(ws: seq<string>)
    requires |ws| >= 1
    requires forall k :: 0 <= k < |ws| ==> ws[k] != [] && NoSpace(ws[k])
    ensures var s := JoinWith(ws, ' '); s != [] && !IsSpace(s[0]) && !IsSpace(s[|s| - 1])
    decreases |ws|
  {
    if |ws| > 1 {
      JoinWordsEnds(ws[1..]);
    }
  }

  /** Each word joined with a space after it (a StringBuilder appending `w + " "`). */
  function SpaceTerminated(ws: seq<string>): string {
    if ws == [] then [] else SpaceTerminated(ws[..|ws| - 1]) + ws[|ws| - 1] + " "
  }

  /** The space-terminated concatenation is the single-space join plus one trailing space. */
  lemma {:induction false} SpaceTerminatedJoin(ws: seq<string>)
    requires |ws| >= 1
    ensures SpaceTerminated(ws) == JoinWith(ws, ' ') + " "
    decreases |ws|
  {
    if |ws| > 1 {
      var init := ws[..|ws| - 1];
      SpaceTerminatedJoin(init);
      JoinSnoc(init, ws[|ws| - 1], ' ');
      assert init + [ws[|ws| - 1]] == ws;
    }
  }

  /** Appending a field to a non-empty join appends the separator and that field. */
  lemma {:induction false} JoinSnoc(fs: seq<string>, f: string, sep: char)
    requires |fs| >= 1
    ensures JoinWith(fs + [f], sep) == JoinWith(fs, sep) + [sep] + f
    decreases |fs|
  {
    if |fs| == 1 {
      assert (fs + [f])[1..] == [f];
    } else {
      assert (fs + [f])[1..] == fs[1..] + [f];
      JoinSnoc(fs[1..], f, sep);
    }
  }

  // ---------------------------------------------------------------------
  // Lines of a text file
  // ---------------------------------------------------------------------

  /** The characters that end a line for BufferedReader.readLine. */
  predicate IsLineBreak(c: char) {
    c == '\n' || c == '\r'
  }

  predicate NoLineBreak(s: string) {
    forall k :: 0 <= k < |s| ==> !IsLineBreak(s[k])
  }

  /** The text of write(line) followed by newLine() for each line, with "\n" as the line separator. */
  function WriteLines(lines: seq<string>): string {
    if lines == [] then [] else lines[0] + "\n" + WriteLines(lines[1..])
  }

  /** Writing one more line appends it and its separator. */
  lemma {:induction false} WriteLinesSnoc(lines: seq<string>, l: string)
    ensures WriteLines(lines + [l]) == WriteLines(lines) + l + "\n"
    decreases |lines|
  {
    if lines == [] {
      assert [] + [l] == [l];
    } else {
      assert (lines + [l])[1..] == lines[1..] + [l];
      WriteLinesSnoc(lines[1..], l);
    }
  }

  /** The index of the first line break of `t`, or its length when it has none. */
  function LineEnd(t: string): (i: nat)
    ensures i <= |t| && (i < |t| ==> IsLineBreak(t[i]))
    ensures forall k :: 0 <= k < i ==> !IsLineBreak(t[k])
  {
    if t == [] || IsLineBreak(t[0]) then 0 else 1 + LineEnd(t[1..])
  }

  /**
   * readLine repeated until it returns null: a line ends at '\n', at '\r'
   * or at "\r\n"; a last line without a terminator still counts; an empty
   * text has no lines.
   */
  function ReadLines(t: string): (lines: seq<string>)
    ensures forall k :: 0 <= k < |lines| ==> NoLineBreak(lines[k])
    ensures t != [] ==> lines != []
    decreases |t|
  {
    if t == [] then []
    else
      var i := LineEnd(t);
      if i == |t| then [t]
      else
        var next := if t[i] == '\r' && i + 1 < |t| && t[i + 1] == '\n' then i + 2 else i + 1;
        [t[..i]] + ReadLines(t[next..])
  }

  /** A line without breaks ends where the text after it begins with one. */
  lemma {:induction false} LineEndAfter(l: string, rest: string)
    requires NoLineBreak(l) && rest != [] && IsLineBreak(rest[0])
    ensures LineEnd(l + rest) == |l|
    decreases |l|
  {
    if l != [] {
      assert (l + rest)[1..] == l[1..] + rest;
      LineEndAfter(l[1..], rest);
    } else {
      assert l + rest == rest;
    }
  }

  /** Lines without breaks, written and read back, come back as they were. */
  lemma {:induction false} ReadWriteLines(lines: seq<string>)
    requires forall k :: 0 <= k < |lines| ==> NoLineBreak(lines[k])
    ensures ReadLines(WriteLines(lines)) == lines
    decreases |lines|
  {
    if lines != [] {
      var l, rest := lines[0], WriteLines(lines[1..]);
      var t := WriteLines(lines);
      assert t == l + ("\n" + rest);
      LineEndAfter(l, "\n" + rest);
      assert t[..|l|] == l && t[|l|] == '\n';
      assert t[|l| + 1..] == rest;
      ReadWriteLines(lines[1..]);
      assert [l] + lines[1..] == lines;
    }
  }

  /** A line holding a '\n' is read back as two lines. */
  lemma LineBreakSplitsLine(a: string, b: string)
    requires NoLineBreak(a) && NoLineBreak(b)
    ensures ReadLines(WriteLines([a + "\n" + b])) == [a, b]
  {
    var t := WriteLines([a + "\n" + b]);
    assert t == a + ("\n" + (b + "\n"));
    LineEndAfter(a, "\n" + (b + "\n"));
    assert t[..|a|] == a && t[|a|] == '\n';
    assert t[|a| + 1..] == WriteLines([b]);
    ReadWriteLines([b]);
  }

  /** Joining fields without breaks by a separator that is not one gives a line without breaks. */
  lemma {:induction false} JoinNoLineBreak(fields: seq<string>, sep: char)
    requires !IsLineBreak(sep)
    requires forall k :: 0 <= k < |fields| ==> NoLineBreak(fields[k])
    ensures NoLineBreak(JoinWith(fields, sep))
    decreases |fields|
  {
    if |fields| > 1 {
      JoinNoLineBreak(fields[1..], sep);
    }
  }

  // ---------------------------------------------------------------------
  // Decimal integers
  // ---------------------------------------------------------------------

  predicate IsDigit(c: char) {
    '0' <= c <= '9'
  }

  predicate AllDigits(s: string) {
    forall k :: 0 <= k < |s| ==> IsDigit(s[k])
  }

  /** The value of a string of decimal digits, most significant first. */
  function DigitsValue(s: string): (v: nat)
    requires AllDigits(s)
  {
    if s == [] then 0 else DigitsValue(s[..|s| - 1]) * 10 + (s[|s| - 1] as int - '0' as int)
  }

  /** The shortest decimal digits of `n` (Integer.toString of a non-negative value). */
  function NatToDigits(n: nat): (s: string)
    ensures s != [] && AllDigits(s)
    ensures DigitsValue(s) == n
    ensures s[0] == '0' <==> n == 0
  {
    var d := ['0' + ((n % 10) as char)];
    if n < 10 then d
    else
      var init := NatToDigits(n / 10);
      var s := init + d;
      assert s[..|s| - 1] == init;
      s
  }

  /** Integer.toString. */
  function IntToString(n: int): (s: string)
    ensures s != [] && NoSpace(s) && ',' !in s
  {
    if n < 0 then "-" + NatToDigits(-n) else NatToDigits(n)
  }

  /**
   * Integer.parseInt (ASCII digits): an optional sign, then at least one
   * digit, and the value must fit in an `int`; otherwise it throws, which
   * is `None` here.
   */
  function ParseInt(s: string): (r: Option<int32>)
    ensures s == [] ==> r.None?
    ensures r.Some? ==> !IsSpace(s[0]) && !IsSpace(s[|s| - 1])
    ensures r.Some? <==>
      || (s != [] && AllDigits(s) && DigitsValue(s) <= MaxInt)
      || (|s| >= 2 && s[0] == '+' && AllDigits(s[1..]) && DigitsValue(s[1..]) <= MaxInt)
      || (|s| >= 2 && s[0] == '-' && AllDigits(s[1..]) && DigitsValue(s[1..]) <= -MinInt)
    ensures r.Some? && AllDigits(s) ==> r.value == DigitsValue(s)
    ensures r.Some? && s[0] == '+' ==> r.value == DigitsValue(s[1..])
    ensures r.Some? && s[0] == '-' ==> r.value == 0 - DigitsValue(s[1..]) as int
  {
    if s == [] then None
    else
      var signed := s[0] == '-' || s[0] == '+';
      var digits := if signed then s[1..] else s;
      if digits == [] || !AllDigits(digits) then None
      else
        var v: int := if s[0] == '-' then 0 - (DigitsValue(digits) as int) else DigitsValue(digits);
        if MinInt <= v <= MaxInt then
          assert s[|s| - 1] == digits[|digits| - 1];
          Some(v)
        else None
  }

  /** Every `int` written by Integer.toString reads back as itself. */
  lemma IntRoundTrip(n: int32)
    ensures ParseInt(IntToString(n)) == Some(n)
  {
    var s, m := IntToString(n), n as int;
    if m < 0 {
      assert s[1..] == NatToDigits(-m);
    }
  }

  // ---------------------------------------------------------------------
  // Booleans
  // ---------------------------------------------------------------------

  /** String.valueOf(boolean). */
  function BoolToString(b: bool): string {
    if b then "true" else "false"
  }

  /** Boolean.parseBoolean: true exactly for "true" in any case; never throws. */
  function ParseBoolean(s: string): bool {
    EqualsIgnoreCase(s, "true")
  }

  /** A written boolean reads back as itself. */
  lemma BoolRoundTrip(b: bool)
    ensures ParseBoolean(BoolToString(b)) == b
  {
    if !b {
      assert LowerCase("false")[0] == 'f' != LowerCase("true")[0];
    }
  }
}
