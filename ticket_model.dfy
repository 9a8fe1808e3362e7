/**
 * The `Ticket` table: its record shape, the `status` enum validator, the
 * columns that may not be null and the defaults applied on insert.
 * Dates are integers (milliseconds); the table's auto-increment `id` is given
 * by the caller of `BuildTicket`.
 */
module TicketModel {
  import opened Wrappers
  import Lists

  datatype Status = Pending | Waiting | Serving | Served | Expired | NoShow

  /** The string stored in the `status` column for each status. */
  function StatusName(st: Status): string {
    match st
    case Pending => "pending"
    case Waiting => "waiting"
    case Serving => "serving"
    case Served => "served"
    case Expired => "expired"
    case NoShow => "no-show"
  }

  /** The `isIn` validator of the `status` column: a string names a status or is refused. */
  function ParseStatus(s: string): (r: Option<Status>)
    ensures r.Some? ==> StatusName(r.value) == s
    ensures r.None? ==> forall st: Status :: StatusName(st) != s
  {
    if s == "pending" then Some(Pending)
    else if s == "waiting" then Some(Waiting)
    else if s == "serving" then Some(Serving)
    else if s == "served" then Some(Served)
    else if s == "expired" then Some(Expired)
    else if s == "no-show" then Some(NoShow)
    else None
  }

  /** Every status name passes the validator and reads back as that status. */
  lemma ParseStatusName(st: Status)
    ensures ParseStatus(StatusName(st)) == Some(st)
  {
  }

  /** A stored ticket. Nullable columns are `Option`s; the others cannot hold null. */
  datatype Ticket = Ticket(
    id: int,
    ticketNumber: int,
    status: Status,
    customerName: string,
    serviceId: int,
    userId: Option<int>,
    counterId: Option<int>,
    createdAt: int,
    updatedAt: int,
    scannedAt: Option<int>,
    servedAt: Option<int>,
    completedAt: Option<int>,
    expiresAt: Option<int>)

  /** The primary key of a ticket. */
  function TicketId(t: Ticket): int {
    t.id
  }

  /** Sort key for `createdAt` descending (newest first): a comparator `b.createdAt - a.createdAt`. */
  function NewestFirst(t: Ticket): Lists.Key {
    Lists.Key(-t.createdAt, 0)
  }

  /**
   * The attributes handed to `Ticket.create`; `None` is an attribute left out
   * (for the nullable columns, also an explicit null). For `status` it means
   * left out only: the `'pending'` default applies to an undefined attribute.
   */
  datatype TicketRow = TicketRow(
    ticketNumber: Option<int>,
    status: Option<string>,
    customerName: Option<string>,
    serviceId: Option<int>,
    userId: Option<int>,
    counterId: Option<int>,
    scannedAt: Option<int>,
    servedAt: Option<int>,
    completedAt: Option<int>,
    expiresAt: Option<int>)

  /** A row with only the given columns set. */
  function Row(ticketNumber: int, status: string, customerName: string, serviceId: int, userId: Option<int>): TicketRow {
    TicketRow(Some(ticketNumber), Some(status), Some(customerName), Some(serviceId), userId, None, None, None, None, None)
  }

  /** The names of the columns a row violates, in column order (empty when it is valid). */
  function Violations(row: TicketRow): (v: seq<string>)
    ensures v == [] <==>
      row.ticketNumber.Some? && row.customerName.Some? && row.serviceId.Some?
      && (row.status.None? || ParseStatus(row.status.value).Some?)
  {
    (if row.ticketNumber.None? then ["ticketNumber"] else [])
    + (if row.status.Some? && ParseStatus(row.status.value).None? then ["status"] else [])
    + (if row.customerName.None? then ["customerName"] else [])
    + (if row.serviceId.None? then ["serviceId"] else [])
  }

  /**
   * Validation and defaults of `Ticket.create`: a valid row becomes a ticket
   * with status `pending` unless one is given and both timestamps `now`;
   * an invalid row is refused with the violated columns.
   */
  function BuildTicket(row: TicketRow, id: int, now: int): (r: Validated<Ticket>)
    ensures r.Ok? <==> Violations(row) == []
    ensures r.Ok? ==>
      && r.value.id == id
      && Some(r.value.ticketNumber) == row.ticketNumber
      && Some(r.value.customerName) == row.customerName
      && Some(r.value.serviceId) == row.serviceId
      && (row.status.None? ==> r.value.status == Pending)
      && (row.status.Some? ==> StatusName(r.value.status) == row.status.value)
      && r.value.userId == row.userId && r.value.counterId == row.counterId
      && r.value.createdAt == now && r.value.updatedAt == now
      && r.value.scannedAt == row.scannedAt && r.value.servedAt == row.servedAt
      && r.value.completedAt == row.completedAt && r.value.expiresAt == row.expiresAt
    ensures r.Invalid? ==> r.columns == Violations(row)
  {
    var v := Violations(row);
    if v != [] then Invalid(v)
    else
      var status := if row.status.None? then Pending else ParseStatus(row.status.value).value;
      Ok(Ticket(id, row.ticketNumber.value, status, row.customerName.value, row.serviceId.value,
                row.userId, row.counterId, now, now,
                row.scannedAt, row.servedAt, row.completedAt, row.expiresAt))
  }

  /** Outcome of validating a row. */
  datatype Validated<+T> = Ok(value: T) | Invalid(columns: seq<string>)
}
