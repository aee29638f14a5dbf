/**
 * The persistence adapter: each list is saved as one toString line per
 * record, and loaded back by splitting each line on commas. A file is
 * its text: written with write and newLine per record, and read back line
 * by line with readLine. Opening, creating and closing files is not part
 * of this model.
 */
module DataManager {
  import opened Wrappers
  import opened JavaText
  import opened Vehicles
  import opened ParkingSpots
  import opened Tickets
  import Seqs

  /** What a load throws on a malformed record; any of them aborts the whole load. */
  datatype LoadError =
    | NumberFormat      // Integer.parseInt
    | UnknownConstant   // VehicleType.valueOf
    | DateTimeParse     // LocalDateTime.parse

  /** What the load loop does with one line: skip it, add a record, or throw. */
  datatype LineResult<T> = Skipped | Parsed(record: T) | Failed(error: LoadError)

  // ---------------------------------------------------------------------
  // One line
  // ---------------------------------------------------------------------

  /**
   * A vehicles-file line: blank lines and lines with fewer than four comma
   * fields are skipped; the fields are trimmed and passed to the Vehicle
   * constructor, which normalises name and phone again.
   */
  function ParseVehicleLine(line: string): (r: LineResult<Vehicle>)
    ensures r.Skipped? <==> IsBlank(line) || |JavaSplit(line, ',')| < 4
    ensures r.Failed? ==> r.error == UnknownConstant
    ensures !r.Skipped? ==> |JavaSplit(line, ',')| >= 4 && (r.Failed? <==> ValueOf(Trim(JavaSplit(line, ',')[1])).None?)
    ensures r.Parsed? ==>
      var parts := JavaSplit(line, ',');
      && IsStoredForm(r.record)
      && r.record.licensePlate == Trim(parts[0])
      && Some(r.record.vehicleType) == ValueOf(Trim(parts[1]))
      && r.record.ownerName == NormalizedName(Some(Trim(parts[2])))
      && r.record.ownerPhone == NormalizedPhone(Trim(parts[3]))
  {
    if Trim(line) == [] then Skipped
    else
      var parts := JavaSplit(line, ',');
      if |parts| < 4 then Skipped
      else
        match ValueOf(Trim(parts[1]))
        case None => Failed(UnknownConstant)
        case Some(t) => Parsed(NewVehicle(Trim(parts[0]), t, Trim(parts[2]), Trim(parts[3])))
  }

  /**
   * A spots-file line: fields trimmed; the plate token `null` means no
   * plate, any other token is kept; the flag is true exactly for `true`
   * in any case.
   */
  function ParseSpotLine(line: string): (r: LineResult<Spot>)
    ensures r.Skipped? <==> IsBlank(line) || |JavaSplit(line, ',')| < 4
    ensures !r.Skipped? ==>
      var parts := JavaSplit(line, ',');
      && |parts| >= 4
      && (ParseInt(Trim(parts[0])).None? ==> r == Failed(NumberFormat))
      && (ParseInt(Trim(parts[0])).Some? && ValueOf(Trim(parts[1])).None? ==> r == Failed(UnknownConstant))
      && (r.Parsed? <==> ParseInt(Trim(parts[0])).Some? && ValueOf(Trim(parts[1])).Some?)
    ensures r.Parsed? ==>
      var parts := JavaSplit(line, ',');
      && Some(r.record.spotId) == ParseInt(Trim(parts[0]))
      && Some(r.record.allowedType) == ValueOf(Trim(parts[1]))
      && (r.record.licensePlate.None? <==> Trim(parts[2]) == "null")
      && (r.record.licensePlate.Some? ==> r.record.licensePlate.value == Trim(parts[2]))
      && (r.record.occupied <==> EqualsIgnoreCase(Trim(parts[3]), "true"))
  {
    if Trim(line) == [] then Skipped
    else
      var parts := JavaSplit(line, ',');
      if |parts| < 4 then Skipped
      else
        match ParseInt(Trim(parts[0]))
        case None => Failed(NumberFormat)
        case Some(id) =>
          match ValueOf(Trim(parts[1]))
          case None => Failed(UnknownConstant)
          case Some(t) =>
            var raw := Trim(parts[2]);
            var plate := if raw == "null" then None else Some(raw);
            Parsed(Spot(id, t, plate, ParseBoolean(Trim(parts[3]))))
  }

  /** A time field as the ticket loader reads it: `null` is absent, anything else must parse. */
  function ParseTimeField(s: string, parseTime: string -> Option<LocalDateTime>): (r: Result<Option<LocalDateTime>, LoadError>)
    ensures s == "null" ==> r == Success(None)
    ensures s != "null" ==> (r.Success? <==> parseTime(s).Some?)
    ensures r.Success? && s != "null" ==> r.value == parseTime(s)
  {
    if s == "null" then Success(None)
    else
      match parseTime(s)
      case None => Failure(DateTimeParse)
      case Some(t) => Success(Some(t))
  }

  /**
   * A tickets-file line: at least five fields, NOT trimmed; the two times
   * are read first, then the ticket id and the spot id.
   */
  function ParseTicketLine(line: string, parseTime: string -> Option<LocalDateTime>): (r: LineResult<Ticket>)
    ensures r.Skipped? <==> IsBlank(line) || |JavaSplit(line, ',')| < 5
    ensures !r.Skipped? ==> |JavaSplit(line, ',')| >= 5
    ensures !r.Skipped? ==>
      var parts := JavaSplit(line, ',');
      var entry, exit := ParseTimeField(parts[3], parseTime), ParseTimeField(parts[4], parseTime);
      && (entry.Failure? ==> r == Failed(entry.error))
      && (entry.Success? && exit.Failure? ==> r == Failed(exit.error))
      && (entry.Success? && exit.Success? && (ParseInt(parts[0]).None? || ParseInt(parts[1]).None?) ==> r == Failed(NumberFormat))
      && (r.Parsed? <==> entry.Success? && exit.Success? && ParseInt(parts[0]).Some? && ParseInt(parts[1]).Some?)
    ensures r.Parsed? ==>
      var parts := JavaSplit(line, ',');
      && Some(r.record.ticketId) == ParseInt(parts[0])
      && Some(r.record.spotId) == ParseInt(parts[1])
      && r.record.licensePlate == parts[2]
      && Success(r.record.entryTime) == ParseTimeField(parts[3], parseTime)
      && Success(r.record.exitTime) == ParseTimeField(parts[4], parseTime)
  {
    if Trim(line) == [] then Skipped
    else
      var parts := JavaSplit(line, ',');
      if |parts| < 5 then Skipped
      else
        var entry := ParseTimeField(parts[3], parseTime);
        var exit := ParseTimeField(parts[4], parseTime);
        if entry.Failure? then Failed(entry.error)
        else if exit.Failure? then Failed(exit.error)
        else
          match ParseInt(parts[0])
          case None => Failed(NumberFormat)
          case Some(id) =>
            match ParseInt(parts[1])
            case None => Failed(NumberFormat)
            case Some(spotId) => Parsed(Ticket(id, spotId, parts[2], entry.value, exit.value))
  }

  // ---------------------------------------------------------------------
  // A whole file
  // ---------------------------------------------------------------------

  /**
   * The result of loading a file: the records of its lines in order, or
   * the error of the first line that throws.
   */
  function ParseAll<T>(lines: seq<string>, parseLine: string -> LineResult<T>): (r: Result<seq<T>, LoadError>)
    ensures r.Failure? <==> exists i :: 0 <= i < |lines| && parseLine(lines[i]).Failed?
    ensures r.Failure? ==> exists i :: 0 <= i < |lines| && parseLine(lines[i]) == Failed(r.error)
                                   && forall j :: 0 <= j < i ==> !parseLine(lines[j]).Failed?
    ensures r.Success? ==> |r.value| <= |lines|
  {
    if lines == [] then Success([])
    else
      var init, last := lines[..|lines| - 1], lines[|lines| - 1];
      assert forall i :: 0 <= i < |init| ==> init[i] == lines[i];
      match ParseAll(init, parseLine)
      case Failure(e) => Failure(e)
      case Success(acc) =>
        match parseLine(last)
        case Skipped => Success(acc)
        case Parsed(x) => Success(acc + [x])
        case Failed(e) => Failure(e)
  }

  /** Loading two pieces of a file: the first failure wins, otherwise the records are concatenated. */
  function Combine<T>(a: Result<seq<T>, LoadError>, b: Result<seq<T>, LoadError>): Result<seq<T>, LoadError> {
    match a
    case Failure(e) => Failure(e)
    case Success(xs) =>
      match b
      case Failure(e) => Failure(e)
      case Success(ys) => Success(xs + ys)
  }

  /** Loading is line by line: the load of a concatenation combines the loads of its parts. */
  lemma {:induction false} ParseAllAppend<T>(a: seq<string>, b: seq<string>, parseLine: string -> LineResult<T>)
    ensures ParseAll(a + b, parseLine) == Combine(ParseAll(a, parseLine), ParseAll(b, parseLine))
    decreases |b|
  {
    if b == [] {
      assert a + b == a;
      match ParseAll(a, parseLine)
      case Failure(_) =>
      case Success(xs) => assert xs + [] == xs;
    } else {
      var b' := b[..|b| - 1];
      assert (a + b)[..|a + b| - 1] == a + b';
      assert (a + b)[|a + b| - 1] == b[|b| - 1];
      ParseAllAppend(a, b', parseLine);
      match ParseAll(a, parseLine)
      case Failure(_) =>
      case Success(xs) =>
        match ParseAll(b', parseLine)
        case Failure(_) =>
        case Success(ys) =>
          match parseLine(b[|b| - 1])
          case Skipped =>
          case Failed(_) =>
          case Parsed(x) => assert xs + ys + [x] == xs + (ys + [x]);
    }
  }

  /** A line the loader skips (blank or too short) can be removed without changing the load. */
  lemma SkippedLineIgnored<T>(a: seq<string>, line: string, b: seq<string>, parseLine: string -> LineResult<T>)
    requires parseLine(line).Skipped?
    ensures ParseAll(a + [line] + b, parseLine) == ParseAll(a + b, parseLine)
  {
    ParseAllAppend(a + [line], b, parseLine);
    ParseAllAppend(a, [line], parseLine);
    ParseAllAppend(a, b, parseLine);
    assert [line][..0] == [];
    match ParseAll(a, parseLine)
    case Failure(_) =>
    case Success(xs) => assert xs + [] == xs;
  }

  /** Once a prefix of the file fails, the whole load fails with the same error. */
  lemma FailedPrefix<T>(lines: seq<string>, n: nat, parseLine: string -> LineResult<T>)
    requires n <= |lines| && ParseAll(lines[..n], parseLine).Failure?
    ensures ParseAll(lines, parseLine) == ParseAll(lines[..n], parseLine)
  {
    ParseAllAppend(lines[..n], lines[n..], parseLine);
    assert lines[..n] + lines[n..] == lines;
  }

  /** The load loop: read the lines in order, skip, append, or abort on the first error. */
  method Load<T>(lines: seq<string>, parseLine: string -> LineResult<T>) returns (r: Result<seq<T>, LoadError>)
    ensures r == ParseAll(lines, parseLine)
  {
    var list: seq<T> := [];
    for i := 0 to |lines|
      invariant ParseAll(lines[..i], parseLine) == Success(list)
    {
      assert lines[..i + 1][..i] == lines[..i];
      var line := lines[i];
      match parseLine(line)
      case Skipped =>
      case Parsed(x) =>
        list := list + [x];
      case Failed(e) =>
        FailedPrefix(lines, i + 1, parseLine);
        return Failure(e);
    }
    assert lines[..|lines|] == lines;
    return Success(list);
  }

  /** loadVehicles, given the text of the vehicles file. */
  method LoadVehicles(text: string) returns (r: Result<seq<Vehicle>, LoadError>)
    ensures r == ParseAll(ReadLines(text), ParseVehicleLine)
  {
    r := Load(ReadLines(text), ParseVehicleLine);
  }

  /** loadSpots, given the text of the spots file. */
  method LoadSpots(text: string) returns (r: Result<seq<Spot>, LoadError>)
    ensures r == ParseAll(ReadLines(text), ParseSpotLine)
  {
    r := Load(ReadLines(text), ParseSpotLine);
  }

  /** loadTickets, given the text of the tickets file, with LocalDateTime.parse passed in. */
  method LoadTickets(text: string, parseTime: string -> Option<LocalDateTime>) returns (r: Result<seq<Ticket>, LoadError>)
    ensures r == ParseAll(ReadLines(text), line => ParseTicketLine(line, parseTime))
  {
    r := Load(ReadLines(text), line => ParseTicketLine(line, parseTime));
  }

  /** saveList: the text of one toString line per record, in list order, each ended by newLine. */
  method SaveList<T>(list: seq<T>, show: T -> string) returns (text: string)
    ensures text == WriteLines(Seqs.Map(list, show))
  {
    text := [];
    for i := 0 to |list|
      invariant text == WriteLines(Seqs.Map(list[..i], show))
    {
      assert Seqs.Map(list[..i + 1], show) == Seqs.Map(list[..i], show) + [show(list[i])];
      WriteLinesSnoc(Seqs.Map(list[..i], show), show(list[i]));
      text := text + show(list[i]) + "\n";
    }
    assert list[..|list|] == list;
  }

  // ---------------------------------------------------------------------
  // Round trips
  // ---------------------------------------------------------------------

  /** Saving records that each read back as themselves, then loading, gives the same list. */
  lemma {:induction false} LoadAfterSave<T>(xs: seq<T>, show: T -> string, parseLine: string -> LineResult<T>)
    requires forall i :: 0 <= i < |xs| ==> parseLine(show(xs[i])) == Parsed(xs[i])
    ensures ParseAll(Seqs.Map(xs, show), parseLine) == Success(xs)
    decreases |xs|
  {
    if xs != [] {
      var init := xs[..|xs| - 1];
      var lines := Seqs.Map(xs, show);
      assert lines[..|lines| - 1] == Seqs.Map(init, show);
      LoadAfterSave(init, show, parseLine);
      assert init + [xs[|xs| - 1]] == xs;
    }
  }

  /** A vehicle whose line reads back as itself. */
  predicate VehicleSaveable(v: Vehicle) {
    && IsStoredForm(v)
    && Trim(v.licensePlate) == v.licensePlate
    && ',' !in v.licensePlate && ',' !in v.ownerName && ',' !in v.ownerPhone
    && v.ownerPhone != []
  }

  /** A line contains a comma, so it is not blank. */
  lemma CommaNotBlank(line: string, i: nat)
    requires i < |line| && line[i] == ','
    ensures !IsBlank(line)
  {
  }

  /** A line that splits into the fields of such a vehicle parses back to it. */
  lemma VehicleFieldsParse(v: Vehicle, line: string)
    requires VehicleSaveable(v) && !IsBlank(line)
    requires JavaSplit(line, ',') == [v.licensePlate, v.vehicleType, v.ownerName, v.ownerPhone]
    ensures ParseVehicleLine(line) == Parsed(v)
  {
    var parts := JavaSplit(line, ',');
    ConstantNameRoundTrip(v.vehicleType);
    NormalizedNameForm(Some(v.ownerName));
    assert Trim(parts[2]) == v.ownerName;
    assert NoSpace(v.ownerPhone);
    TrimNoop(v.ownerPhone);
    assert Trim(parts[3]) == v.ownerPhone;
    NewVehicleStored(v);
    assert Trim(line) != [];
  }

  /** The line of a vehicle with comma-free fields and a phone is not blank and splits into its four fields. */
  lemma VehicleLineSplits(v: Vehicle)
    requires ',' !in v.licensePlate && ',' !in v.ownerName && ',' !in v.ownerPhone && v.ownerPhone != []
    ensures !IsBlank(VehicleToString(v))
    ensures JavaSplit(VehicleToString(v), ',') == [v.licensePlate, v.vehicleType, v.ownerName, v.ownerPhone]
  {
    var fields := [v.licensePlate, v.vehicleType, v.ownerName, v.ownerPhone];
    ConstantNameRoundTrip(v.vehicleType);
    assert forall k :: 0 <= k < 4 ==> ',' !in fields[k];
    JavaSplitJoin(fields, ',');
    JoinNotBlank(fields, ',');
  }

  /** A vehicle in stored form, without commas and with a phone, survives save and load. */
  lemma VehicleLineRoundTrip(v: Vehicle)
    requires VehicleSaveable(v)
    ensures ParseVehicleLine(VehicleToString(v)) == Parsed(v)
  {
    VehicleLineSplits(v);
    VehicleFieldsParse(v, VehicleToString(v));
  }

  /** An empty phone is written as an empty last field, which split drops: the record is lost. */
  lemma EmptyPhoneLost(v: Vehicle)
    requires ',' !in v.licensePlate && ',' !in v.ownerName && v.ownerPhone == []
    ensures ParseVehicleLine(VehicleToString(v)) == Skipped
  {
    var fields := [v.licensePlate, v.vehicleType, v.ownerName, v.ownerPhone];
    ConstantNameRoundTrip(v.vehicleType);
    JavaSplitDropsEmptyLast(fields, ',');
  }

  /** A vehicle whose text fields have no line break is written as a single line. */
  lemma VehicleLineNoBreak(v: Vehicle)
    requires NoLineBreak(v.licensePlate) && NoLineBreak(v.ownerName) && NoLineBreak(v.ownerPhone)
    ensures NoLineBreak(VehicleToString(v))
  {
    var fields := [v.licensePlate, v.vehicleType, v.ownerName, v.ownerPhone];
    ConstantNameNoBreak(v.vehicleType);
    assert forall k :: 0 <= k < 4 ==> NoLineBreak(fields[k]);
    JoinNoLineBreak(fields, ',');
  }

  /** The owner name and phone of a stored-form vehicle have no line break. */
  lemma StoredFormNoBreak(v: Vehicle)
    requires IsStoredForm(v)
    ensures NoLineBreak(v.ownerName) && NoLineBreak(v.ownerPhone)
  {
    NormalizedNameNoBreak(v.ownerName);
    NoSpaceNoBreak(NormalizedPhone(v.ownerPhone));
  }

  /** A normalised owner name is single words joined by single spaces, so it has no line break. */
  lemma NormalizedNameNoBreak(name: string)
    ensures NoLineBreak(NormalizedName(Some(name)))
  {
    var r := NormalizedName(Some(name));
    NormalizedNameForm(Some(name));
    var words := Words(r);
    assert forall k :: 0 <= k < |words| ==> NoSpace(words[k]);
    JoinNoLineBreak(words, ' ');
  }

  /** A string without whitespace has no line break. */
  lemma NoSpaceNoBreak(s: string)
    requires NoSpace(s)
    ensures NoLineBreak(s)
  {
    forall k | 0 <= k < |s| ensures !IsLineBreak(s[k]) {
      assert !IsSpace(s[k]);
    }
  }

  /** A constant name has no line break. */
  lemma ConstantNameNoBreak(t: VehicleType)
    ensures NoLineBreak(t)
  {
    forall k | 0 <= k < |t| ensures !IsLineBreak(t[k]) {
      assert k == 0 || IsIdentifierPart(t[k]);
    }
  }

  /**
   * A saved file of such vehicles, whose plates also hold no line break
   * (readLine would cut the line there), loads back as the same list.
   */
  lemma VehiclesRoundTrip(vs: seq<Vehicle>)
    requires forall i :: 0 <= i < |vs| ==> VehicleSaveable(vs[i]) && NoLineBreak(vs[i].licensePlate)
    ensures ParseAll(ReadLines(WriteLines(Seqs.Map(vs, VehicleToString))), ParseVehicleLine) == Success(vs)
  {
    var lines := Seqs.Map(vs, VehicleToString);
    forall i | 0 <= i < |vs|
      ensures ParseVehicleLine(VehicleToString(vs[i])) == Parsed(vs[i]) && NoLineBreak(lines[i])
    {
      VehicleLineRoundTrip(vs[i]);
      StoredFormNoBreak(vs[i]);
      VehicleLineNoBreak(vs[i]);
    }
    ReadWriteLines(lines);
    LoadAfterSave(vs, VehicleToString, ParseVehicleLine);
  }

  /** A spot whose line reads back as itself: its plate, if any, is a trimmed comma-free token other than `null`. */
  predicate SpotSaveable(s: Spot) {
    match s.licensePlate
    case None => true
    case Some(p) => ',' !in p && Trim(p) == p && p != "null"
  }

  /** The text fields of a spot line hold no commas and are their own trim. */
  lemma SpotFieldsClean(s: Spot)
    requires SpotSaveable(s)
    ensures var fields := [IntToString(s.spotId), s.allowedType, PlateText(s.licensePlate), BoolToString(s.occupied)];
      (forall k :: 0 <= k < 4 ==> ',' !in fields[k]) && fields[3] != []
    ensures Trim(IntToString(s.spotId)) == IntToString(s.spotId)
    ensures Trim(PlateText(s.licensePlate)) == PlateText(s.licensePlate)
    ensures Trim(BoolToString(s.occupied)) == BoolToString(s.occupied)
  {
    var fields := [IntToString(s.spotId), s.allowedType, PlateText(s.licensePlate), BoolToString(s.occupied)];
    ConstantNameRoundTrip(s.allowedType);
    TrimNoop(IntToString(s.spotId));
    TrimNoop("null");
    TrimNoop(BoolToString(s.occupied));
    assert ',' !in "null" && ',' !in "true" && ',' !in "false";
    assert ',' !in fields[2];
    assert ',' !in fields[3];
  }

  /** A spot with such a plate survives save and load. */
  lemma SpotLineRoundTrip(s: Spot)
    requires SpotSaveable(s)
    ensures ParseSpotLine(SpotToString(s)) == Parsed(s)
  {
    var fields := [IntToString(s.spotId), s.allowedType, PlateText(s.licensePlate), BoolToString(s.occupied)];
    var line := SpotToString(s);
    SpotFieldsClean(s);
    ConstantNameRoundTrip(s.allowedType);
    JavaSplitJoin(fields, ',');
    assert line[|fields[0]|] == ',';
    CommaNotBlank(line, |fields[0]|);
    IntRoundTrip(s.spotId);
    BoolRoundTrip(s.occupied);
    SpotFieldsParse(line, fields, s);
  }

  /** The four trimmed fields of a spot line parse back to the spot. */
  lemma SpotFieldsParse(line: string, fields: seq<string>, s: Spot)
    requires !IsBlank(line) && JavaSplit(line, ',') == fields && |fields| == 4
    requires ParseInt(Trim(fields[0])) == Some(s.spotId)
    requires ValueOf(Trim(fields[1])) == Some(s.allowedType)
    requires (if Trim(fields[2]) == "null" then None else Some(Trim(fields[2]))) == s.licensePlate
    requires ParseBoolean(Trim(fields[3])) == s.occupied
    ensures ParseSpotLine(line) == Parsed(s)
  {
  }

  /** A plate that is literally `null` reads back as no plate. */
  lemma NullPlateLost(s: Spot)
    requires s.licensePlate == Some("null")
    ensures ParseSpotLine(SpotToString(s)) == Parsed(s.(licensePlate := None))
  {
    var fields := [IntToString(s.spotId), s.allowedType, PlateText(s.licensePlate), BoolToString(s.occupied)];
    var line := SpotToString(s);
    SpotFieldsClean(s.(licensePlate := None));
    ConstantNameRoundTrip(s.allowedType);
    JavaSplitJoin(fields, ',');
    assert line[|fields[0]|] == ',';
    CommaNotBlank(line, |fields[0]|);
    IntRoundTrip(s.spotId);
    BoolRoundTrip(s.occupied);
    SpotFieldsParse(line, fields, s.(licensePlate := None));
  }

  /** A spot whose plate, if any, has no line break is written as a single line. */
  lemma SpotLineNoBreak(s: Spot)
    requires s.licensePlate.Some? ==> NoLineBreak(s.licensePlate.value)
    ensures NoLineBreak(SpotToString(s))
  {
    JoinNoLineBreak([IntToString(s.spotId), s.allowedType, PlateText(s.licensePlate), BoolToString(s.occupied)], ',');
  }

  /** A saved file of such spots, whose plates also hold no line break, loads back as the same list. */
  lemma SpotsRoundTrip(ss: seq<Spot>)
    requires forall i :: 0 <= i < |ss| ==> SpotSaveable(ss[i]) && (ss[i].licensePlate.Some? ==> NoLineBreak(ss[i].licensePlate.value))
    ensures ParseAll(ReadLines(WriteLines(Seqs.Map(ss, SpotToString))), ParseSpotLine) == Success(ss)
  {
    var lines := Seqs.Map(ss, SpotToString);
    forall i | 0 <= i < |ss|
      ensures ParseSpotLine(SpotToString(ss[i])) == Parsed(ss[i]) && NoLineBreak(lines[i])
    {
      SpotLineRoundTrip(ss[i]);
      SpotLineNoBreak(ss[i]);
    }
    ReadWriteLines(lines);
    LoadAfterSave(ss, SpotToString, ParseSpotLine);
  }

  /**
   * The text form of a time reads back as that time, holds no comma, is
   * not empty and is not the token `null` (LocalDateTime's ISO 8601 form has
   * these properties).
   */
  predicate TimeWritable(time: Option<LocalDateTime>, format: LocalDateTime -> string, parseTime: string -> Option<LocalDateTime>) {
    match time
    case None => true
    case Some(d) => parseTime(format(d)) == Some(d) && ',' !in format(d) && format(d) != [] && format(d) != "null"
  }

  /** A ticket whose plate has no comma survives save and load; its fields are not trimmed, so spaces survive too. */
  lemma TicketLineRoundTrip(t: Ticket, format: LocalDateTime -> string, parseTime: string -> Option<LocalDateTime>)
    requires ',' !in t.licensePlate
    requires TimeWritable(t.entryTime, format, parseTime) && TimeWritable(t.exitTime, format, parseTime)
    ensures ParseTicketLine(TicketToString(t, format), parseTime) == Parsed(t)
  {
    var fields := [IntToString(t.ticketId), IntToString(t.spotId), t.licensePlate,
                   TimeText(t.entryTime, format), TimeText(t.exitTime, format)];
    var line := TicketToString(t, format);
    TimeFieldRoundTrip(t.entryTime, format, parseTime);
    TimeFieldRoundTrip(t.exitTime, format, parseTime);
    assert forall k :: 0 <= k < 5 ==> ',' !in fields[k];
    JavaSplitJoin(fields, ',');
    assert line[|fields[0]|] == ',';
    CommaNotBlank(line, |fields[0]|);
    IntRoundTrip(t.ticketId);
    IntRoundTrip(t.spotId);
    TicketFieldsParse(line, fields, t, parseTime);
  }

  /** A writable time's field is comma-free, non-empty and reads back as that time. */
  lemma TimeFieldRoundTrip(time: Option<LocalDateTime>, format: LocalDateTime -> string, parseTime: string -> Option<LocalDateTime>)
    requires TimeWritable(time, format, parseTime)
    ensures ',' !in TimeText(time, format) && TimeText(time, format) != []
    ensures ParseTimeField(TimeText(time, format), parseTime) == Success(time)
  {
    assert ',' !in "null";
  }

  /** The five untrimmed fields of a ticket line parse back to the ticket. */
  lemma TicketFieldsParse(line: string, fields: seq<string>, t: Ticket, parseTime: string -> Option<LocalDateTime>)
    requires !IsBlank(line) && JavaSplit(line, ',') == fields && |fields| == 5
    requires ParseInt(fields[0]) == Some(t.ticketId) && ParseInt(fields[1]) == Some(t.spotId)
    requires fields[2] == t.licensePlate
    requires ParseTimeField(fields[3], parseTime) == Success(t.entryTime)
    requires ParseTimeField(fields[4], parseTime) == Success(t.exitTime)
    ensures ParseTicketLine(line, parseTime) == Parsed(t)
  {
  }

  /** A ticket whose plate and time texts have no line break is written as a single line. */
  lemma TicketLineNoBreak(t: Ticket, format: LocalDateTime -> string)
    requires NoLineBreak(t.licensePlate)
    requires NoLineBreak(TimeText(t.entryTime, format)) && NoLineBreak(TimeText(t.exitTime, format))
    ensures NoLineBreak(TicketToString(t, format))
  {
    JoinNoLineBreak([IntToString(t.ticketId), IntToString(t.spotId), t.licensePlate,
                     TimeText(t.entryTime, format), TimeText(t.exitTime, format)], ',');
  }

  /**
   * A saved file of such tickets, whose plates and time texts also hold no
   * line break, loads back as the same list.
   */
  lemma TicketsRoundTrip(ts: seq<Ticket>, format: LocalDateTime -> string, parseTime: string -> Option<LocalDateTime>)
    requires forall i :: 0 <= i < |ts| ==>
      && ',' !in ts[i].licensePlate && TimeWritable(ts[i].entryTime, format, parseTime) && TimeWritable(ts[i].exitTime, format, parseTime)
      && NoLineBreak(ts[i].licensePlate)
      && NoLineBreak(TimeText(ts[i].entryTime, format)) && NoLineBreak(TimeText(ts[i].exitTime, format))
    ensures ParseAll(ReadLines(WriteLines(Seqs.Map(ts, t => TicketToString(t, format)))), line => ParseTicketLine(line, parseTime)) == Success(ts)
  {
    var show := t => TicketToString(t, format);
    var parseLine := line => ParseTicketLine(line, parseTime);
    var lines := Seqs.Map(ts, show);
    forall i | 0 <= i < |ts| ensures parseLine(show(ts[i])) == Parsed(ts[i]) && NoLineBreak(lines[i]) {
      TicketLineRoundTrip(ts[i], format, parseTime);
      TicketLineNoBreak(ts[i], format);
    }
    ReadWriteLines(lines);
    LoadAfterSave(ts, show, parseLine);
  }

  /** Unlike spot ids, a ticket id with a space before it is not trimmed and aborts the load. */
  lemma PaddedTicketIdFails(line: string, parseTime: string -> Option<LocalDateTime>)
    requires !IsBlank(line)
    requires var parts := JavaSplit(line, ',');
      |parts| >= 5 && parts[3] == "null" && parts[4] == "null" && parts[0] != [] && parts[0][0] == ' '
    ensures ParseTicketLine(line, parseTime) == Failed(NumberFormat)
  {
  }
}
