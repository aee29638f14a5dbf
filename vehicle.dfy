/**
 * A registered vehicle: plate, type, owner name and owner phone, all fixed
 * at construction. The constructor stores the owner name in a canonical
 * form (capitalised words, single spaces) and the phone with its
 * whitespace removed; toString is the vehicle's line in the vehicles file.
 */
module Vehicles {
  import opened Wrappers
  import opened JavaText
  import Seqs

  // ---------------------------------------------------------------------
  // Vehicle types
  // ---------------------------------------------------------------------

  predicate IsIdentifierStart(c: char) {
    'A' <= c <= 'Z' || 'a' <= c <= 'z' || c == '_' || c == '$'
  }

  predicate IsIdentifierPart(c: char) {
    IsIdentifierStart(c) || IsDigit(c)
  }

  /** The text of an enum constant: a Java identifier. */
  predicate IsConstantName(s: string) {
    s != [] && IsIdentifierStart(s[0]) && forall k :: 1 <= k < |s| ==> IsIdentifierPart(s[k])
  }

  /** An enum constant, represented by its name (what Enum.toString returns). */
  type VehicleType = s: string | IsConstantName(s) witness "A"

  /** VehicleType.valueOf: the constant with exactly this name; otherwise it throws. */
  function ValueOf(s: string): (r: Option<VehicleType>)
    ensures r.Some? <==> IsConstantName(s)
    ensures r.Some? ==> r.value == s
  {
    if IsConstantName(s) then Some(s) else None
  }

  /** The name of a constant survives being written, trimmed and looked up again. */
  lemma ConstantNameRoundTrip(t: VehicleType)
    ensures NoSpace(t) && ',' !in t
    ensures Trim(t) == t && ValueOf(Trim(t)) == Some(t)
  {
    assert forall k :: 0 <= k < |t| ==> IsIdentifierPart(t[k]);
    TrimNoop(t);
  }

  // ---------------------------------------------------------------------
  // Owner name
  // ---------------------------------------------------------------------

  /** A word with its first character upper-cased and the rest lower-cased. */
  function Capitalize(w: string): string {
    if w == [] then [] else [ToUpper(w[0])] + LowerCase(w[1..])
  }

  /** An upper-case (or caseless) first character followed by no upper-case letter. */
  predicate IsCapitalized(w: string) {
    w != [] && ToUpper(w[0]) == w[0] && LowerCase(w[1..]) == w[1..]
  }

  /** Upper-casing a character and then changing its case again forgets the first change. */
  lemma UpperThenCase(ch: char)
    ensures ToLower(ToUpper(ch)) == ToLower(ch)
    ensures ToUpper(ToUpper(ch)) == ToUpper(ch)
  {
  }

  /** Capitalising a word changes only the case of its letters, and is idempotent. */
  lemma CapitalizeWord(w: string)
    requires w != [] && NoSpace(w)
    ensures Capitalize(w) != [] && NoSpace(Capitalize(w))
    ensures IsCapitalized(Capitalize(w))
    ensures EqualsIgnoreCase(Capitalize(w), w)
    ensures Capitalize(Capitalize(w)) == Capitalize(w)
  {
    var c := Capitalize(w);
    UpperThenCase(w[0]);
    LowerCaseIdempotent(w[1..]);
    LowerCaseAt(w);
    LowerCaseAt(c);
    LowerCaseAt(w[1..]);
    assert c[0] == ToUpper(w[0]) && c[1..] == LowerCase(w[1..]);
    forall k | 0 <= k < |w|
      ensures LowerCase(c)[k] == LowerCase(w)[k]
    {
      if k > 0 {
        assert c[k] == c[1..][k - 1] == ToLower(w[k]);
      }
    }
    assert LowerCase(c) == LowerCase(w);
  }

  /** Capitalising each of a list of words keeps them non-empty and space-free. */
  lemma CapitalizeWords(ws: seq<string>)
    requires forall k :: 0 <= k < |ws| ==> ws[k] != [] && NoSpace(ws[k])
    ensures var cs := Seqs.Map(ws, Capitalize);
      forall k :: 0 <= k < |cs| ==> cs[k] != [] && NoSpace(cs[k]) && IsCapitalized(cs[k])
  {
    forall k | 0 <= k < |ws| {
      CapitalizeWord(ws[k]);
    }
  }

  /**
   * The owner name in stored form: null and blank names become "", any
   * other name becomes its words, each capitalised, joined by one space.
   */
  function NormalizedName(name: Option<string>): (r: string)
    ensures r == [] <==> name.None? || IsBlank(name.value)
  {
    match name
    case None => []
    case Some(x) =>
      var t := Trim(x);
      if t == [] then []
      else
        var ws := Words(t);
        CapitalizeWords(ws);
        JoinWordsEnds(Seqs.Map(ws, Capitalize));
        JoinWith(Seqs.Map(ws, Capitalize), ' ')
  }

  /**
   * The imperative normaliser: split the trimmed name into words, append
   * each capitalised word and a space to a buffer, and trim the buffer.
   */
  method NormalizeOwnerName(name: Option<string>) returns (r: string)
    ensures r == NormalizedName(name)
  {
    if name.None? {
      return "";
    }
    var trimmed := Trim(name.value);
    if trimmed == [] {
      return "";
    }
    var a := Words(trimmed);
    var result := "";
    for k := 0 to |a|
      invariant result == SpaceTerminated(Seqs.Map(a[..k], Capitalize))
    {
      var x := a[k];
      result := result + ([ToUpper(x[0])] + LowerCase(x[1..])) + " ";
      assert Seqs.Map(a[..k + 1], Capitalize) == Seqs.Map(a[..k], Capitalize) + [Capitalize(x)];
    }
    assert a[..|a|] == a;
    var caps := Seqs.Map(a, Capitalize);
    CapitalizeWords(a);
    SpaceTerminatedJoin(caps);
    JoinWordsEnds(caps);
    TrimDropsTrailingSpace(JoinWith(caps, ' '));
    r := Trim(result);
  }

  /** Stripping leading whitespace does not change the words. */
  lemma {:induction false} WordsSkipLeadingSpaces(s: string, i: nat)
    requires i <= |s| && forall k :: 0 <= k < i ==> IsSpace(s[k])
    ensures Words(s[i..]) == Words(s)
    decreases i
  {
    if i > 0 {
      WordsSkipLeadingSpaces(s[1..], i - 1);
      assert s[1..][i - 1..] == s[i..];
    }
  }

  /** Appending whitespace does not change the words. */
  lemma {:induction false} WordsAppendSpaces(s: string, sp: string)
    requires IsBlank(sp)
    ensures Words(s + sp) == Words(s)
    decreases |s|
  {
    var t := s + sp;
    if s == [] {
      assert t == sp;
    } else if IsSpace(s[0]) {
      assert t[1..] == s[1..] + sp;
      WordsAppendSpaces(s[1..], sp);
    } else {
      var n := WordLength(s);
      WordLengthAppendSpaces(s, sp);
      assert t[..n] == s[..n];
      assert t[n..] == s[n..] + sp;
      WordsAppendSpaces(s[n..], sp);
    }
  }

  lemma {:induction false} WordLengthAppendSpaces(s: string, sp: string)
    requires IsBlank(sp)
    ensures WordLength(s + sp) == WordLength(s)
    decreases |s|
  {
    if s != [] && !IsSpace(s[0]) {
      assert (s + sp)[1..] == s[1..] + sp;
      WordLengthAppendSpaces(s[1..], sp);
    }
  }

  /** Trimming does not change the words. */
  lemma WordsOfTrim(s: string)
    ensures Words(Trim(s)) == Words(s)
  {
    if !IsBlank(s) {
      TrimSplit(s);
      WordsSkipLeadingSpaces(s, TrimStart(s));
      WordsAppendSpaces(Trim(s), s[TrimEnd(s)..]);
    }
  }

  /**
   * The normalised name has no leading or trailing whitespace, its words
   * are separated by exactly one space, and every word is capitalised.
   */
  lemma NormalizedNameForm(name: Option<string>)
    ensures var r := NormalizedName(name);
      && Trim(r) == r
      && JoinWith(Words(r), ' ') == r
      && forall k :: 0 <= k < |Words(r)| ==> IsCapitalized(Words(r)[k])
  {
    var r := NormalizedName(name);
    if r != [] {
      var ws := Words(Trim(name.value));
      var caps := Seqs.Map(ws, Capitalize);
      CapitalizeWords(ws);
      WordsOfJoin(caps);
      JoinWordsEnds(caps);
      TrimNoop(r);
    } else {
      TrimNoop(r);
    }
  }

  /** Normalising changes only case and spacing: the words match the input's, ignoring case. */
  lemma NormalizedNameWords(x: string)
    ensures var r := NormalizedName(Some(x));
      && |Words(r)| == |Words(x)|
      && forall k :: 0 <= k < |Words(x)| ==> EqualsIgnoreCase(Words(r)[k], Words(x)[k])
  {
    var r := NormalizedName(Some(x));
    var ws := Words(Trim(x));
    WordsOfTrim(x);
    if r != [] {
      var caps := Seqs.Map(ws, Capitalize);
      CapitalizeWords(ws);
      WordsOfJoin(caps);
      forall k | 0 <= k < |ws| ensures EqualsIgnoreCase(caps[k], ws[k]) {
        CapitalizeWord(ws[k]);
      }
    } else {
      assert IsBlank(Trim(x));
    }
  }

  /** The normalised name agrees, ignoring case, with the input's words joined by single spaces. */
  lemma NormalizedNameMatches(x: string)
    ensures EqualsIgnoreCase(NormalizedName(Some(x)), JoinWith(Words(x), ' '))
  {
    var r := NormalizedName(Some(x));
    NormalizedNameForm(Some(x));
    NormalizedNameWords(x);
    JoinIgnoreCase(Words(r), Words(x));
  }

  /** A normalised name normalises to itself. */
  lemma NormalizedNameIdempotent(name: Option<string>)
    ensures NormalizedName(Some(NormalizedName(name))) == NormalizedName(name)
  {
    var r := NormalizedName(name);
    if r != [] {
      var ws := Words(Trim(name.value));
      var caps := Seqs.Map(ws, Capitalize);
      CapitalizeWords(ws);
      WordsOfJoin(caps);
      JoinWordsEnds(caps);
      TrimNoop(r);
      assert Words(Trim(r)) == caps;
      forall k | 0 <= k < |caps| ensures Capitalize(caps[k]) == caps[k] {
        CapitalizeWord(ws[k]);
      }
      assert Seqs.Map(caps, Capitalize) == caps;
    }
  }

  // ---------------------------------------------------------------------
  // Owner phone
  // ---------------------------------------------------------------------

  /** The phone in stored form: every whitespace character removed. */
  function NormalizedPhone(s: string): (r: string)
    ensures NoSpace(r)
    ensures |r| <= |s|
    ensures forall k :: 0 <= k < |r| ==> r[k] in s
    ensures forall k :: 0 <= k < |s| && !IsSpace(s[k]) ==> s[k] in r
  {
    if s == [] then []
    else
      var rest := NormalizedPhone(s[1..]);
      assert forall k :: 1 <= k < |s| ==> s[k] == s[1..][k - 1];
      (if IsSpace(s[0]) then [] else [s[0]]) + rest
  }

  /** Removing whitespace works piecewise, so the kept characters stay in order. */
  lemma {:induction false} NormalizedPhoneAppend(a: string, b: string)
    ensures NormalizedPhone(a + b) == NormalizedPhone(a) + NormalizedPhone(b)
    decreases |a|
  {
    if a != [] {
      assert (a + b)[1..] == a[1..] + b;
      NormalizedPhoneAppend(a[1..], b);
    } else {
      assert a + b == b;
    }
  }

  /** A phone without whitespace is already in stored form. */
  lemma {:induction false} NormalizedPhoneNoop(s: string)
    requires NoSpace(s)
    ensures NormalizedPhone(s) == s
    decreases |s|
  {
    if s != [] {
      NormalizedPhoneNoop(s[1..]);
      assert [s[0]] + s[1..] == s;
    }
  }

  // ---------------------------------------------------------------------
  // Vehicle
  // ---------------------------------------------------------------------

  datatype Vehicle = Vehicle(licensePlate: string, vehicleType: VehicleType, ownerName: string, ownerPhone: string)

  /** Owner name and phone are in the form the constructor stores. */
  predicate IsStoredForm(v: Vehicle) {
    NormalizedName(Some(v.ownerName)) == v.ownerName && NormalizedPhone(v.ownerPhone) == v.ownerPhone
  }

  /** The constructor: plate and type verbatim, owner name and phone normalised. */
  function NewVehicle(plate: string, vehicleType: VehicleType, ownerName: string, ownerPhone: string): (v: Vehicle)
    ensures v.licensePlate == plate && v.vehicleType == vehicleType
    ensures EqualsIgnoreCase(JoinWith(Words(v.ownerName), ' '), JoinWith(Words(ownerName), ' '))
    ensures NoSpace(v.ownerPhone) && |v.ownerPhone| <= |ownerPhone|
    ensures v.ownerName == NormalizedName(Some(ownerName)) && v.ownerPhone == NormalizedPhone(ownerPhone)
    ensures IsStoredForm(v)
  {
    var name := NormalizedName(Some(ownerName));
    NormalizedNameWords(ownerName);
    JoinIgnoreCase(Words(name), Words(ownerName));
    NormalizedNameIdempotent(Some(ownerName));
    NormalizedPhoneNoop(NormalizedPhone(ownerPhone));
    Vehicle(plate, vehicleType, name, NormalizedPhone(ownerPhone))
  }

  /** The constructor leaves a vehicle already in stored form as it is. */
  lemma NewVehicleStored(v: Vehicle)
    requires IsStoredForm(v)
    ensures NewVehicle(v.licensePlate, v.vehicleType, v.ownerName, v.ownerPhone) == v
  {
  }

  /** Joining word lists that agree word by word ignoring case gives strings that agree ignoring case. */
  lemma {:induction false} JoinIgnoreCase(xs: seq<string>, ys: seq<string>)
    requires |xs| == |ys|
    requires forall k :: 0 <= k < |xs| ==> EqualsIgnoreCase(xs[k], ys[k])
    ensures EqualsIgnoreCase(JoinWith(xs, ' '), JoinWith(ys, ' '))
    decreases |xs|
  {
    if |xs| > 1 {
      JoinIgnoreCase(xs[1..], ys[1..]);
      LowerCaseAppend(xs[0] + " ", JoinWith(xs[1..], ' '));
      LowerCaseAppend(ys[0] + " ", JoinWith(ys[1..], ' '));
      LowerCaseAppend(xs[0], " ");
      LowerCaseAppend(ys[0], " ");
    }
  }

  /** Vehicle.toString: the four fields joined by single commas. */
  function VehicleToString(v: Vehicle): (line: string)
    ensures line == JoinWith([v.licensePlate, v.vehicleType, v.ownerName, v.ownerPhone], ',')
  {
    var a, b, c, d := v.licensePlate, v.vehicleType, v.ownerName, v.ownerPhone;
    JoinCons(c, [d], ',');
    JoinCons(b, [c, d], ',');
    JoinCons(a, [b, c, d], ',');
    assert [a] + [b, c, d] == [a, b, c, d];
    a + "," + (b + "," + (c + "," + d))
  }
}
