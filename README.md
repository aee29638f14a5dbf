# Parking lot core, in Dafny

This project models the `logic` package of the Parking_Manager desktop application. That package has three parts:

- **the parking-lot store** (`ParkingLot`): three in-memory lists of vehicles, parking spots and tickets.
- **the record classes** (`Vehicle`, `ParkingSpot`, `Ticket`), whose `toString` is the on-disk line format.
- **the CSV codec** (`DataManager`), which reads those lines back.

It proves the following:

- Every store operation checks before it changes anything. A refused operation leaves the lot exactly as it was.
- A successful operation makes exactly the change the Java code makes.
- The cross-list invariants hold:
  - plates are unique ignoring case;
  - a spot is occupied exactly when it holds a plate;
  - spot ids are distinct;
  - there is at most one open ticket per plate;
  - occupied spots and open tickets agree one to one.
- Each store operation preserves those invariants.
- Parking then retrieving undoes the park, apart from the closed ticket it leaves behind.
- Records written by `toString` load back as themselves. The edge cases where they do not are also proved.

Files:

| file | what it models |
|---|---|
| `wrappers.dfy` | `Option`, `Result`; `Option` stands for Java `null` |
| `seqs.dfy` | first-match search, order-preserving filter and map over lists |
| `java_text.dfy` | the `String`/`Integer`/`Boolean` behaviour the core relies on: `trim`, `isBlank`, ASCII case folding and `equalsIgnoreCase`, `split(",")` (trailing empty fields dropped), `split("\\s+")`, `Integer.toString`/`parseInt` (32-bit range), `Boolean.parseBoolean`, 32-bit wrap-around |
| `vehicle.dfy` | `Vehicle`: name and phone normalisers, constructor, `toString` |
| `parking_spot.dfy`, `ticket.dfy` | `ParkingSpot`, `Ticket`: setters as field updates, `toString` |
| `data_manager.dfy` | per-line parsing of the three files, the load loop, `saveList`, and the round trips |
| `parking_lot_spec.dfy` | the store as a value: every lookup as a function, every mutator as a function from the old lists to a success flag and the new lists |
| `parking_lot_invariants.dfy` | the cross-list invariant `Consistent` and the lemmas that each operation keeps it |
| `parking_lot.dfy` | the `ParkingLot` class: its lists are `seq` fields, its lookups are loops proved equal to the spec functions, and its mutators are proved to leave the state the spec function computes and to keep `Consistent` |

### Modelling choices

- A lookup whose result the Java code later mutates returns an index into its list. This is how the Java code reaches a spot or ticket object that the list shares: `getVehicleByLicensePlate`, `getSpotBySpotID`, `getTicketByLicensePlate` and `findFirstAvailableSpot` work this way.
- Setting a field of a shared spot or ticket is an index update of the list.
- `parkVehicleAuto`, `removeVehicle` and `retrieveVehicle` each run their checks before changing anything. Each of those check sequences is its own read-only method: `SpotToParkFor`, `VehicleToRemoveFor` and `TicketToCloseFor`. It is specified by a function (`SpotToPark`, `VehicleToRemove`, `TicketToClose`), and the mutator calls it and then applies the change.
- `addSpot`'s max-id loop is the method `LargestSpotId`.
- `LocalDateTime.now()` is the parameter `now`.
- `LocalDateTime`'s text form and its parser are the function parameters `format` and `parseTime`.
- A file is its text. `saveList` writes each line followed by a `\n`, and the loaders split the text into lines by `readLine`'s rules.
- A loader exception is a `Failure` carrying `NumberFormat`, `UnknownConstant` or `DateTimeParse`, and the whole load aborts with it.

## Model

| member | source | states |
|---|---|---|
| JavaText.Wrap32 | src/logic/ParkingLot.java:196 | in-range values are unchanged and `MAX_VALUE + 1` wraps to `MIN_VALUE`, as Java `int` addition does |
| JavaText.Trim | src/logic/ParkingLot.java:39 | the result is empty exactly for a blank string; otherwise it starts and ends with non-whitespace and is the slice between the first and last non-whitespace characters |
| JavaText.TrimIdempotent | src/logic/ParkingLot.java:274 | trimming an already trimmed plate changes nothing |
| JavaText.LowerCaseIdempotent | src/logic/ParkingLot.java:42 | lower-casing twice is lower-casing once, so `equalsIgnoreCase` is a comparison of lower-cased forms |
| JavaText.SplitOn | src/logic/DataManager.java:66 | every field between separators, none containing the separator, and joining them with the separator gives the line back |
| JavaText.JavaSplit | src/logic/DataManager.java:66 | `split(",")`: no field holds a comma; a line without a comma is one field; otherwise the last field, if any, is non-empty |
| JavaText.JavaSplitRejoin | src/logic/DataManager.java:66 | joining the fields with commas gives the line minus a trailing run of commas, so only trailing empty fields are dropped |
| JavaText.JavaSplitJoin | src/logic/DataManager.java:66 | joining at least two comma-free fields, the last non-empty, with commas and splitting gives exactly those fields |
| JavaText.JavaSplitDropsEmptyLast | src/logic/DataManager.java:66-69 | when the last joined field is empty, split returns fewer fields than were joined |
| JavaText.WriteLinesSnoc | src/logic/DataManager.java:36-40 | writing one more record appends its line and a newline to the text |
| JavaText.LineEnd | src/logic/DataManager.java:60 | the first line break of the text, or its end, with no break before it |
| JavaText.ReadLines | src/logic/DataManager.java:60 | the lines `readLine` returns hold no line break, and a non-empty text has at least one |
| JavaText.ReadWriteLines | src/logic/DataManager.java:37-39 | lines without breaks, written with a newline after each and read back by `readLine`, come back unchanged |
| JavaText.LineBreakSplitsLine | src/logic/DataManager.java:60 | a written line holding a `\n` is read back as two lines |
| JavaText.Words | src/logic/Vehicle.java:23 | the words are non-empty and whitespace-free, and there are none exactly when the text is blank |
| JavaText.WordsOfJoin | src/logic/Vehicle.java:23-32 | splitting a single-space join of non-empty space-free words on whitespace gives the same words |
| JavaText.SpaceTerminatedJoin | src/logic/Vehicle.java:25-32 | appending each word and a space is the single-space join plus one trailing space, which the final `trim` removes |
| JavaText.NatToDigits | src/logic/ParkingSpot.java:43 | the decimal text of an id is non-empty, all digits, and denotes the id; it starts with `0` only for zero, so there are no leading zeros |
| JavaText.IntRoundTrip | src/logic/DataManager.java:102 | every 32-bit int written by `toString` is read back by `parseInt` as itself |
| JavaText.ParseInt | src/logic/DataManager.java:102 | succeeds exactly on one or more ASCII digits, optionally after one `+` or `-`, whose value fits in an `int`, and then gives that value, negated after `-`; so an empty or padded field throws |
| JavaText.BoolRoundTrip | src/logic/DataManager.java:109 | `parseBoolean` of a written flag gives the flag back |
| Vehicles.ValueOf | src/logic/DataManager.java:72 | `valueOf` succeeds exactly on a constant name and returns that constant |
| Vehicles.ConstantNameRoundTrip | src/logic/DataManager.java:72 | a constant's name has no whitespace or comma, is its own trim, and `valueOf` maps it back to the constant |
| Vehicles.CapitalizeWord | src/logic/Vehicle.java:28-30 | a capitalised word is capitalised (upper first character, no upper-case letter after), equals the original ignoring case, and capitalising again changes nothing |
| Vehicles.NormalizedName | src/logic/Vehicle.java:17-22 | the normalised name is empty exactly for a null or blank input |
| Vehicles.NormalizeOwnerName | src/logic/Vehicle.java:17-33 | the StringBuilder loop and final trim compute `NormalizedName` |
| Vehicles.WordsOfTrim | src/logic/Vehicle.java:20-23 | trimming before splitting on whitespace does not change the words |
| Vehicles.NormalizedNameForm | src/logic/Vehicle.java:23-32 | the normalised name has no surrounding whitespace, its words are joined by exactly one space, and every word is capitalised |
| Vehicles.NormalizedNameWords | src/logic/Vehicle.java:23-32 | the normalised name has as many words as the input, each equal to the input's word ignoring case |
| Vehicles.NormalizedNameMatches | src/logic/Vehicle.java:17-33 | the normalised name equals, ignoring case, the input's words joined by single spaces |
| Vehicles.NormalizedNameIdempotent | src/logic/Vehicle.java:17-33 | normalising a normalised name returns it unchanged |
| Vehicles.NormalizedPhone | src/logic/Vehicle.java:36-38 | the result has no whitespace, contains only characters of the input, and keeps every non-whitespace character of the input |
| Vehicles.NormalizedPhoneAppend | src/logic/Vehicle.java:36-38 | removing whitespace works piecewise, so the kept characters stay in their order |
| Vehicles.NormalizedPhoneNoop | src/logic/Vehicle.java:36-38 | a phone without whitespace is left unchanged |
| Vehicles.NewVehicle | src/logic/Vehicle.java:9-14 | plate and type are stored verbatim; the name is the input passed through the name normaliser, equal ignoring case to the input's single-spaced words; the phone is the input passed through the phone normaliser, so it has no whitespace and is no longer than the input |
| Vehicles.NewVehicleStored | src/logic/Vehicle.java:9-14 | constructing from the fields of a vehicle already in stored form gives that vehicle |
| Vehicles.JoinIgnoreCase | src/logic/ParkingLot.java:60 | word lists that agree word by word ignoring case join to strings that agree ignoring case |
| Vehicles.VehicleToString | src/logic/Vehicle.java:58-60 | the line is plate, type, owner name and phone joined by single commas |
| ParkingSpots.SetLicensePlate | src/logic/ParkingSpot.java:29-31 | only the plate changes; id, type and flag are kept |
| ParkingSpots.SetOccupied | src/logic/ParkingSpot.java:37-39 | only the flag changes; id, type and plate are kept |
| ParkingSpots.SpotToString | src/logic/ParkingSpot.java:41-44 | the line is id, type, plate (the literal `null` when absent) and flag joined by single commas |
| Tickets.SetExitTime | src/logic/Ticket.java:40-42 | only the exit time changes; id, spot id, plate and entry time are kept |
| Tickets.TicketToString | src/logic/Ticket.java:44-47 | the line is id, spot id, plate, entry and exit (the literal `null` when absent) joined by single commas |
| DataManager.ParseVehicleLine | src/logic/DataManager.java:60-78 | a line is skipped exactly when it is blank or has fewer than four fields; otherwise it fails exactly when the trimmed type field is not a constant, with an unknown-constant error; a parsed vehicle is in stored form, its plate is the trimmed first field, its type the constant named by the second, and its name and phone the normalised third and fourth fields |
| DataManager.ParseSpotLine | src/logic/DataManager.java:95-113 | a line is skipped exactly when it is blank or has fewer than four fields; otherwise a trimmed id that `parseInt` rejects fails with a number-format error, then an unknown type fails with an unknown-constant error, and the line parses exactly when both are accepted; a parsed spot's id and type are the ones parsed; it has no plate exactly when the trimmed plate field is `null`, otherwise that trimmed field; it is occupied exactly when the trimmed flag field is `true` ignoring case |
| DataManager.ParseTimeField | src/logic/DataManager.java:137-139 | the token `null` is an absent time; any other text succeeds exactly when the time parser accepts it and then gives the parsed time |
| DataManager.ParseTicketLine | src/logic/DataManager.java:130-146 | a line is skipped exactly when it is blank or has fewer than five fields; otherwise the entry time is checked first, then the exit time, each failing with its own error, then the ticket id and the spot id, failing with a number-format error; the line parses exactly when all four are accepted, and the ticket's ids, untrimmed plate and times are the parsed fields |
| DataManager.PaddedTicketIdFails | src/logic/DataManager.java:144 | a ticket id with a leading space is not trimmed, so the line throws a number-format error |
| DataManager.ParseAll | src/logic/DataManager.java:57-81 | a load fails exactly when some line throws, and then with the error of the first such line; otherwise it yields at most one record per line |
| DataManager.ParseAllAppend | src/logic/DataManager.java:60-79 | loading is line by line: the load of two concatenated pieces is the first failure or the concatenated records |
| DataManager.SkippedLineIgnored | src/logic/DataManager.java:62-63 | removing a skipped line does not change the load |
| DataManager.FailedPrefix | src/logic/DataManager.java:57-81 | once a prefix of the file throws, the whole load throws the same error |
| DataManager.Load | src/logic/DataManager.java:57-81 | the read loop (skip, append, abort on the first exception) computes `ParseAll` |
| DataManager.LoadVehicles | src/logic/DataManager.java:48-82 | `loadVehicles` computes `ParseAll` with the vehicle line parser over the lines `readLine` finds in the file text |
| DataManager.LoadSpots | src/logic/DataManager.java:85-117 | `loadSpots` computes `ParseAll` with the spot line parser over the file's lines |
| DataManager.LoadTickets | src/logic/DataManager.java:120-150 | `loadTickets` computes `ParseAll` with the ticket line parser over the file's lines |
| DataManager.SaveList | src/logic/DataManager.java:32-43 | the file text is each record's `toString` line followed by a newline, in list order |
| DataManager.LoadAfterSave | src/logic/DataManager.java:32-43 | saving records that each parse back as themselves and loading the lines gives the same list |
| DataManager.VehicleFieldsParse | src/logic/DataManager.java:66-77 | a line that splits into the four fields of a stored-form vehicle parses to that vehicle |
| DataManager.VehicleLineRoundTrip | src/logic/Vehicle.java:59 | a stored-form vehicle whose fields have no commas, whose plate is its own trim and whose phone is non-empty reads back as itself |
| DataManager.EmptyPhoneLost | src/logic/DataManager.java:66-69 | a vehicle with an empty phone is written with an empty last field; split drops it, so the line is skipped and the record is lost |
| DataManager.VehicleLineSplits | src/logic/DataManager.java:66-69 | the line of a vehicle with comma-free fields and a non-empty phone is not blank and splits into exactly its four fields |
| DataManager.VehicleLineNoBreak | src/logic/DataManager.java:37-39 | a vehicle whose plate, name and phone have no line break is written as one line |
| DataManager.StoredFormNoBreak | src/logic/Vehicle.java:17-38 | a normalised owner name and phone hold no line break |
| DataManager.VehiclesRoundTrip | src/logic/DataManager.java:32-82 | the saved file of such vehicles, whose plates also hold no line break, loads back as the same list |
| DataManager.SpotFieldsClean | src/logic/ParkingSpot.java:43 | the four fields of a spot line with a clean plate have no commas, the last is non-empty, and the id, plate and flag fields are their own trim |
| DataManager.SpotFieldsParse | src/logic/DataManager.java:99-112 | four fields whose trimmed forms parse to a spot's id, type, plate and flag give that spot |
| DataManager.SpotLineRoundTrip | src/logic/DataManager.java:99-112 | a spot whose plate is absent, or comma-free, its own trim and not `null`, reads back as itself |
| DataManager.NullPlateLost | src/logic/DataManager.java:104-107 | a spot whose plate is the text `null` reads back with no plate |
| DataManager.SpotLineNoBreak | src/logic/DataManager.java:37-39 | a spot whose plate, if any, has no line break is written as one line |
| DataManager.SpotsRoundTrip | src/logic/DataManager.java:85-117 | the saved file of such spots, whose plates also hold no line break, loads back as the same list |
| DataManager.TimeFieldRoundTrip | src/logic/DataManager.java:137-139 | a writable time is written as a non-empty comma-free field that reads back as that time |
| DataManager.TicketFieldsParse | src/logic/DataManager.java:135-145 | five untrimmed fields that parse to a ticket's parts give that ticket |
| DataManager.TicketLineRoundTrip | src/logic/DataManager.java:134-145 | a ticket with a comma-free plate and writable times reads back as itself; spaces in its plate survive because ticket fields are not trimmed |
| DataManager.TicketLineNoBreak | src/logic/DataManager.java:37-39 | a ticket whose plate and time texts have no line break is written as one line |
| DataManager.TicketsRoundTrip | src/logic/DataManager.java:120-150 | the saved file of such tickets, whose plates and time texts also hold no line break, loads back as the same list |
| Seqs.FirstMatch | src/logic/ParkingLot.java:40-46 | the index found satisfies the test and no earlier element does; there is none exactly when no element does |
| Seqs.Filter | src/logic/ParkingLot.java:58-63 | every element kept is in the list and passes the test, and every passing element is kept |
| Seqs.FilterAppend | src/logic/ParkingLot.java:220-228 | filtering keeps list order: it commutes with concatenation |
| Seqs.FilterPartition | src/logic/ParkingLot.java:220-239 | filtering by a test and by its negation loses and invents nothing: the two results together are a permutation of the list |
| ParkingLotSpec.VehicleByPlate | src/logic/ParkingLot.java:36-47 | null finds nothing; otherwise the first vehicle whose plate equals the trimmed query ignoring case, and none exactly when the plate is not registered |
| ParkingLotSpec.VehicleByPlateIs | src/logic/ParkingLot.java:40-46 | an index with the scan's properties is the lookup's result |
| ParkingLotSpec.VehiclesByOwnerName | src/logic/ParkingLot.java:50-65 | a null or blank query finds nothing; otherwise exactly the vehicles whose owner name equals the normalised query ignoring case |
| ParkingLotSpec.OwnerSearchIgnoresCaseAndSpacing | src/logic/ParkingLot.java:54-62 | a query whose words, single-spaced, equal a stored owner name ignoring case finds that owner's vehicle, whatever its spacing |
| ParkingLotSpec.SpotById | src/logic/ParkingLot.java:115-122 | the first spot with the id, and none exactly when no spot has it |
| ParkingLotSpec.SpotsByAllowedType | src/logic/ParkingLot.java:125-135 | null finds nothing; otherwise exactly the spots of that type |
| ParkingLotSpec.SpotsByOccupancy | src/logic/ParkingLot.java:138-146 | exactly the spots whose flag has the given value |
| ParkingLotSpec.OccupiedAndEmptyPartition | src/logic/ParkingLot.java:149-156 | the occupied and empty spots together are a permutation of all spots |
| ParkingLotSpec.FirstAvailableSpot | src/logic/ParkingLot.java:159-168 | the first unoccupied spot of the type; none exactly when the type is null or every spot of it is occupied |
| ParkingLotSpec.OccupiedIndexByPlate | src/logic/ParkingLot.java:175-181 | the first occupied spot whose plate equals the query ignoring case |
| ParkingLotSpec.SpotByPlate | src/logic/ParkingLot.java:171-182 | the spot found holds the trimmed plate; none exactly when the query is null or no occupied spot holds it |
| ParkingLotSpec.SpotByPlateIs | src/logic/ParkingLot.java:175-181 | an index with the scan's properties gives the lookup's result |
| ParkingLotSpec.MaxSpotId | src/logic/ParkingLot.java:190-195 | at least 0, at least every spot id, and either 0 or some spot's id |
| ParkingLotSpec.NewSpotId | src/logic/ParkingLot.java:196 | below the largest int the new id is positive and above every existing id; at the largest int it wraps to the smallest |
| ParkingLotSpec.OpenTickets | src/logic/ParkingLot.java:220-228 | exactly the tickets without an exit time |
| ParkingLotSpec.ClosedTickets | src/logic/ParkingLot.java:231-239 | exactly the tickets with an exit time |
| ParkingLotSpec.OpenAndClosedPartition | src/logic/ParkingLot.java:220-239 | open and closed tickets together are a permutation of all tickets |
| ParkingLotSpec.TicketById | src/logic/ParkingLot.java:242-249 | the first ticket with the id, and none exactly when no ticket has it |
| ParkingLotSpec.TicketByPlate | src/logic/ParkingLot.java:252-268 | the plate has an open ticket exactly when an open one is returned, and then it is the first open one; otherwise the first closed one; none exactly when no ticket has the plate ignoring case |
| ParkingLotSpec.TicketByPlateIs | src/logic/ParkingLot.java:256-267 | an index with the scan's properties is the lookup's result |
| ParkingLotSpec.AddVehicle | src/logic/ParkingLot.java:68-80 | succeeds exactly when no argument is null, the plate and owner are not blank and the trimmed plate is not registered; a refusal changes nothing; a success appends one vehicle with the trimmed plate |
| ParkingLotSpec.VehicleToRemove | src/logic/ParkingLot.java:82-94 | a vehicle is found exactly when the plate is registered, not parked and without an open ticket, and it is the first vehicle whose plate matches, the one `getVehicleByLicensePlate` returns |
| ParkingLotSpec.RemoveVehicle | src/logic/ParkingLot.java:82-97 | succeeds exactly under those conditions; a refusal changes nothing; a success deletes exactly the first vehicle whose plate matches the trimmed plate, and changes nothing else |
| ParkingLotSpec.AddSpot | src/logic/ParkingLot.java:185-201 | succeeds exactly for a non-null type; a success appends one empty spot with no plate and the new id, and changes nothing else |
| ParkingLotSpec.RegisteredType | src/logic/ParkingLot.java:277-291 | the type of the first vehicle whose plate matches, the one `getVehicleByLicensePlate` returns; none exactly when the plate is not registered |
| ParkingLotSpec.SpotToPark | src/logic/ParkingLot.java:276-293 | one is chosen exactly when the vehicle is registered, not parked, without an open ticket and a free spot of its type exists, and it is the first free spot of the registered vehicle's type |
| ParkingLotSpec.Park | src/logic/ParkingLot.java:271-305 | succeeds exactly when the plate is not blank and those checks pass; a refusal changes nothing; a success leaves vehicles alone, marks the first free spot of the vehicle's type occupied with the trimmed plate, and appends one open ticket numbered count + 1 for that spot, entered at `now` |
| ParkingLotSpec.ParkAt | src/logic/ParkingLot.java:291-302 | the spot park takes is the one its checks chose, under the new ticket |
| ParkingLotSpec.TicketToClose | src/logic/ParkingLot.java:309-321 | the ticket is the one `getTicketByLicensePlate` finds for the trimmed plate and the spot is the first with that ticket's spot id; they are found exactly when the plate is not blank, that ticket is open and that spot exists |
| ParkingLotSpec.Retrieve | src/logic/ParkingLot.java:308-331 | succeeds exactly when the plate is not blank, the ticket found for it is open and a spot has its spot id; a refusal changes nothing; a success sets that ticket's exit to `now`, frees the first spot with its id and clears its plate, and leaves vehicles alone |
| ParkingLotInvariants.EmptyConsistent | src/logic/ParkingLot.java:334-344 | the lot with all three lists cleared is consistent |
| ParkingLotInvariants.AppendVehicleKeeps | src/logic/ParkingLot.java:78 | appending a vehicle with an unregistered plate keeps the lot consistent |
| ParkingLotInvariants.DeleteVehicleKeeps | src/logic/ParkingLot.java:95 | deleting a vehicle without an open ticket keeps the lot consistent |
| ParkingLotInvariants.AppendSpotKeeps | src/logic/ParkingLot.java:199 | appending an empty spot with a fresh id keeps the lot consistent |
| ParkingLotInvariants.TakeKeeps | src/logic/ParkingLot.java:296-302 | occupying a free spot under a new open ticket for a registered, unparked plate keeps the lot consistent |
| ParkingLotInvariants.ReleaseKeeps | src/logic/ParkingLot.java:324-328 | closing an open ticket and freeing its spot keeps the lot consistent |
| ParkingLotInvariants.AddVehiclePreserves | src/logic/ParkingLot.java:68-80 | `addVehicle` keeps the lot consistent |
| ParkingLotInvariants.RemoveVehiclePreserves | src/logic/ParkingLot.java:82-97 | `removeVehicle` keeps the lot consistent |
| ParkingLotInvariants.AddSpotPreserves | src/logic/ParkingLot.java:185-201 | `addSpot` keeps the lot consistent while the largest id is below the largest int |
| ParkingLotInvariants.ParkPreserves | src/logic/ParkingLot.java:271-305 | `parkVehicleAuto` keeps the lot consistent |
| ParkingLotInvariants.RetrievePreserves | src/logic/ParkingLot.java:308-331 | `retrieveVehicle` keeps the lot consistent |
| ParkingLotInvariants.OpenTicketMeansParked | src/logic/ParkingLot.java:282-288 | in a consistent lot a plate with an open ticket occupies a spot, so the two park checks agree |
| ParkingLotInvariants.RetrieveIffOpenTicket | src/logic/ParkingLot.java:308-331 | in a consistent lot, retrieval of a non-blank plate succeeds exactly when it has an open ticket |
| ParkingLotInvariants.RetrieveUndoesPark | src/logic/ParkingLot.java:271-331 | in a consistent lot, retrieving right after a successful park succeeds and restores vehicles and spots; the tickets gain only the new ticket, now closed |
| ParkingLotInvariants.RetrieveTwiceFails | src/logic/ParkingLot.java:314-316 | in a consistent lot a second retrieval of the same plate is refused |
| ParkingLotInvariants.RemoveParkedFails | src/logic/ParkingLot.java:88-90 | a vehicle just parked cannot be removed, and the refusal changes nothing |
| ParkingLotInvariants.AddVehicleTwiceFails | src/logic/ParkingLot.java:76-77 | after a plate is added, adding a plate equal to it ignoring case and surrounding whitespace is refused |
| ParkingLots.ParkingLot.constructor | src/logic/ParkingLot.java:13-18 | the lot holds exactly the loaded lists |
| ParkingLots.ParkingLot.GetVehicleByLicensePlate | src/logic/ParkingLot.java:36-47 | the loop returns `VehicleByPlate` |
| ParkingLots.ParkingLot.GetVehicleByOwnerName | src/logic/ParkingLot.java:50-65 | the loop returns `VehiclesByOwnerName` |
| ParkingLots.ParkingLot.AddVehicle | src/logic/ParkingLot.java:68-80 | the new state and result are `AddVehicle`'s, and consistency is kept |
| ParkingLots.ParkingLot.VehicleToRemoveFor | src/logic/ParkingLot.java:83-94 | the checks return `VehicleToRemove` |
| ParkingLots.ParkingLot.RemoveVehicle | src/logic/ParkingLot.java:82-97 | the new state and result are `RemoveVehicle`'s, and consistency is kept |
| ParkingLots.ParkingLot.GetSpotBySpotId | src/logic/ParkingLot.java:115-122 | the loop returns `SpotById` |
| ParkingLots.ParkingLot.GetSpotByAllowedVehicle | src/logic/ParkingLot.java:125-135 | the loop returns `SpotsByAllowedType` |
| ParkingLots.ParkingLot.GetSpotsByOccupancy | src/logic/ParkingLot.java:138-146 | the loop returns `SpotsByOccupancy` |
| ParkingLots.ParkingLot.GetOccupiedSpots | src/logic/ParkingLot.java:149-151 | the occupied spots |
| ParkingLots.ParkingLot.GetEmptySpots | src/logic/ParkingLot.java:154-156 | the empty spots |
| ParkingLots.ParkingLot.FindFirstAvailableSpot | src/logic/ParkingLot.java:159-168 | the loop returns `FirstAvailableSpot` |
| ParkingLots.ParkingLot.GetSpotByLicensePlate | src/logic/ParkingLot.java:171-182 | the loop over the occupied spots returns `SpotByPlate` |
| ParkingLots.ParkingLot.LargestSpotId | src/logic/ParkingLot.java:190-195 | the loop returns `MaxSpotId` |
| ParkingLots.ParkingLot.AddSpot | src/logic/ParkingLot.java:185-201 | the new state and result are `AddSpot`'s, and consistency is kept while ids are below the largest int |
| ParkingLots.ParkingLot.GetActiveTickets | src/logic/ParkingLot.java:220-228 | the loop returns `OpenTickets` |
| ParkingLots.ParkingLot.GetUsedTickets | src/logic/ParkingLot.java:231-239 | the loop returns `ClosedTickets` |
| ParkingLots.ParkingLot.GetTicketByTicketId | src/logic/ParkingLot.java:242-249 | the loop returns `TicketById` |
| ParkingLots.ParkingLot.GetTicketByLicensePlate | src/logic/ParkingLot.java:252-268 | the loop, with its early return for an open ticket and its remembered first closed one, returns `TicketByPlate` |
| ParkingLots.ParkingLot.SpotToParkFor | src/logic/ParkingLot.java:276-293 | the checks return `SpotToPark` |
| ParkingLots.ParkingLot.ParkVehicleAuto | src/logic/ParkingLot.java:271-305 | the new state and result are `Park`'s, and consistency is kept |
| ParkingLots.ParkingLot.TicketToCloseFor | src/logic/ParkingLot.java:309-321 | the checks return `TicketToClose` |
| ParkingLots.ParkingLot.RetrieveVehicle | src/logic/ParkingLot.java:308-331 | the new state and result are `Retrieve`'s, and consistency is kept |
| ParkingLots.ParkingLot.ResetVehicles | src/logic/ParkingLot.java:334-336 | the vehicles are cleared and nothing else changes |
| ParkingLots.ParkingLot.ResetTickets | src/logic/ParkingLot.java:338-340 | the tickets are cleared and nothing else changes |
| ParkingLots.ParkingLot.ResetSpots | src/logic/ParkingLot.java:342-344 | the spots are cleared and nothing else changes |

## Left out

- The Swing user interface under `src/gui/`. It only calls the store.
- File I/O: `File`, `mkdirs`, `exists`, and the reader and writer objects. A file is its text, and a missing file is the empty text. `newLine` is taken to write `\n`; `readLine` accepts `\n`, `\r` and `\r\n`, so the Windows separator would read back the same.
- `saveData`, `saveAllData` and the loading in the `ParkingLot` constructor, which only pass the lists to and from those files. The constructor takes the loaded lists as arguments.
- The wall clock: `LocalDateTime.now()` is the parameter `now`.
- The ISO 8601 text form of `LocalDateTime`: formatting and parsing are parameters. The ticket round trip assumes, as a hypothesis, that they invert each other and that the text has no comma and is not `null`. The file round trip also assumes the text has no line break.
- Full Unicode: case mapping is ASCII only; one whitespace predicate (characters at or below U+0020, as `trim` uses) also stands for `isBlank` and the regex `\s`; `parseInt` accepts only ASCII digits.
- `VehicleType.java` is not part of this model. A type is any Java identifier, and `valueOf` accepts any identifier. The real enum accepts only its declared constants.
- The getters `getVehicles`, `getSpots` and `getTickets` return the live lists, so callers could change the lot behind its back. That aliasing is not modelled.
- ParkingLotInvariants.EmptyConsistent: resetting only one or two of the lists (for instance the vehicles but not the tickets) can break the invariant. Only the state after all three resets is proved consistent.
- ParkingLots.ParkingLot.AddSpot: consistency is proved only while the largest spot id is below the largest int. At the largest int, Java's `maxId + 1` wraps to a negative id, which may collide with an existing one.
