/**
 * The ticket routes that call for a signed-in user: `GET /user` and
 * `PUT /:id/activate`. The TypeScript routes mount the handlers without
 * `authMiddleware`, so `req.user` is always undefined; the older JavaScript
 * routes put the middleware in front. Both wirings are modelled, on top of
 * the current handlers.
 */
module TicketRoutes {
  import opened Wrappers
  import opened Http
  import opened JsStrings
  import opened TicketModel
  import opened AuthMiddleware
  import opened TicketController

  /** `GET /user` as the TypeScript routes mount it: the handler never sees a user and always answers 400. */
  method GetUserTicketsUnguarded(table: TicketTable) returns (r: Result<seq<Ticket>>)
    ensures r == Failure(BadRequest(NO_USER_ID))
  {
    r := table.GetUserTickets(None);
  }

  /**
   * `GET /user` with the current handler behind `authMiddleware`, placed as
   * the JavaScript routes place it: a request the middleware rejects is
   * answered 401; a token whose payload carries a (truthy) numeric id
   * gets exactly that user's tickets.
   */
  method GetUserTicketsGuarded(table: TicketTable, authorization: Option<string>,
                               verify: string -> Option<Decoded>)
    returns (r: Result<seq<Ticket>>)
    ensures match Decide(authorization, verify)
      case Reject(text) => r == Failure(Unauthorized(text))
      case Accept(decoded) =>
        && (IsTruthy(ExtractUserId(Some(decoded))) ==>
              r == Success(OK, UserTickets(table.tickets, ExtractUserId(Some(decoded)).value)))
        && (!IsTruthy(ExtractUserId(Some(decoded))) ==> r == Failure(BadRequest(NO_USER_ID)))
  {
    match Decide(authorization, verify)
    case Reject(text) =>
      r := Failure(Unauthorized(text));
    case Accept(decoded) =>
      r := table.GetUserTickets(Some(decoded));
  }

  /**
   * `PUT /:id/activate` as the TypeScript routes mount it: without a user the
   * ownership check never refuses, so anyone may activate any ticket.
   */
  method ActivateTicketUnguarded(table: TicketTable, id: string, now: int) returns (r: Result<Ticket>)
    requires table.Valid()
    modifies table
    ensures table.Valid()
    ensures !(r.Failure? && r.error.Forbidden?)
  {
    r := table.ActivateTicket(id, None, now);
  }

  /**
   * `PUT /:id/activate` with the current handler behind `authMiddleware`,
   * placed as the JavaScript routes place it: a rejected request is
   * answered 401 and changes nothing; a signed-in caller who does not own
   * the ticket is refused with 403.
   */
  method ActivateTicketGuarded(table: TicketTable, id: string, authorization: Option<string>,
                               verify: string -> Option<Decoded>, now: int)
    returns (r: Result<Ticket>)
    requires table.Valid()
    modifies table
    ensures table.Valid()
    ensures match Decide(authorization, verify)
      case Reject(text) =>
        r == Failure(Unauthorized(text)) && table.tickets == old(table.tickets) && table.nextId == old(table.nextId)
      case Accept(decoded) =>
        id != "" && ParseInt(id).Some? && FindById(old(table.tickets), ParseInt(id).value).Some? &&
        RefusesActivation(ExtractUserId(Some(decoded)),
                          old(table.tickets)[FindById(old(table.tickets), ParseInt(id).value).value].userId) ==>
          r == Failure(Forbidden(NOT_OWNER)) && table.tickets == old(table.tickets)
  {
    match Decide(authorization, verify)
    case Reject(text) =>
      r := Failure(Unauthorized(text));
    case Accept(decoded) =>
      r := table.ActivateTicket(id, Some(decoded), now);
  }
}
