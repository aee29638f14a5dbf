/**
 * A parking ticket: id, spot id, plate and entry time fixed at issue, and
 * an exit time that is absent while the vehicle is parked and set once
 * when it is retrieved.
 */
module Tickets {
  import opened Wrappers
  import opened JavaText

  /**
   * java.time.LocalDateTime. Only equality is used by the core; its text
   * form is passed to the codec as a pair of functions.
   */
  datatype LocalDateTime = LocalDateTime(year: int, month: int, day: int, hour: int, minute: int, second: int, nano: int)

  /** The constructor stores all five fields as given. */
  datatype Ticket = Ticket(ticketId: int32, spotId: int32, licensePlate: string, entryTime: Option<LocalDateTime>, exitTime: Option<LocalDateTime>)

  /** An open ticket belongs to a vehicle that is still parked. */
  predicate IsOpen(t: Ticket) {
    t.exitTime.None?
  }

  /** setExitTime: only the exit time changes. */
  function SetExitTime(t: Ticket, exit: Option<LocalDateTime>): (r: Ticket)
    ensures r.exitTime == exit
    ensures r.ticketId == t.ticketId && r.spotId == t.spotId && r.licensePlate == t.licensePlate && r.entryTime == t.entryTime
  {
    t.(exitTime := exit)
  }

  /** How a time is written: an absent time is the literal `null`. */
  function TimeText(time: Option<LocalDateTime>, format: LocalDateTime -> string): string {
    match time
    case None => "null"
    case Some(t) => format(t)
  }

  /** Ticket.toString: id, spot id, plate, entry and exit (or `null`), joined by single commas. */
  function TicketToString(t: Ticket, format: LocalDateTime -> string): (line: string)
    ensures line == JoinWith([IntToString(t.ticketId), IntToString(t.spotId), t.licensePlate,
                              TimeText(t.entryTime, format), TimeText(t.exitTime, format)], ',')
  {
    var a, b, c, d, e := IntToString(t.ticketId), IntToString(t.spotId), t.licensePlate,
                         TimeText(t.entryTime, format), TimeText(t.exitTime, format);
    JoinCons(d, [e], ',');
    JoinCons(c, [d, e], ',');
    JoinCons(b, [c, d, e], ',');
    JoinCons(a, [b, c, d, e], ',');
    assert [a] + [b, c, d, e] == [a, b, c, d, e];
    a + "," + (b + "," + (c + "," + (d + "," + e)))
  }
}
