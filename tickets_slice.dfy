/**
 * The client's ticket store: the list of tickets last fetched, the ticket a
 * counter is serving, and the loading/error flags. Every reducer is one step
 * on that state; the server's answers (thunk payloads) are parameters.
 */
module TicketsSlice {
  import opened Wrappers
  import opened Lists
  import opened TicketModel

  /** `error.response?.data?.message || fallback`: the message a rejected thunk carries. */
  function RejectionMessage(serverMessage: Option<string>, fallback: string): (m: string)
    ensures serverMessage.Some? && serverMessage.value != "" ==> m == serverMessage.value
    ensures serverMessage.None? || serverMessage.value == "" ==> m == fallback
    ensures fallback != "" ==> m != ""
  {
    if serverMessage.Some? && serverMessage.value != "" then serverMessage.value else fallback
  }

  class TicketsState {
    var tickets: seq<Ticket>
    var currentTicket: Option<Ticket>
    var loading: bool
    var error: Option<string>

    constructor ()
      ensures tickets == [] && currentTicket == None && !loading && error == None
    {
      tickets := [];
      currentTicket := None;
      loading := false;
      error := None;
    }

    /** `setCurrentTicket`. */
    method SetCurrentTicket(t: Option<Ticket>)
      modifies this
      ensures currentTicket == t
      ensures tickets == old(tickets) && loading == old(loading) && error == old(error)
    {
      currentTicket := t;
    }

    /** `updateTicketStatus`: the first ticket with that id gets the status and `updatedAt` now. */
    method UpdateTicketStatus(ticketId: int, status: Status, now: int)
      modifies this
      ensures Ids(tickets, TicketId) == Ids(old(tickets), TicketId)
      ensures match FindFirst(old(tickets), WithId(TicketId, ticketId))
        case None => tickets == old(tickets)
        case Some(i) => tickets == old(tickets)[i := old(tickets)[i].(status := status, updatedAt := now)]
      ensures currentTicket == old(currentTicket) && loading == old(loading) && error == old(error)
    {
      var found := FindFirst(tickets, WithId(TicketId, ticketId));
      if found.Some? {
        var i := found.value;
        tickets := tickets[i := tickets[i].(status := status, updatedAt := now)];
      }
    }

    /** `fetchTickets.pending` and `fetchUserTickets.pending`. */
    method FetchPending()
      modifies this
      ensures loading && error == None
      ensures tickets == old(tickets) && currentTicket == old(currentTicket)
    {
      loading := true;
      error := None;
    }

    /** `fetchTickets.fulfilled` and `fetchUserTickets.fulfilled`: the list is the server's answer. */
    method FetchFulfilled(payload: seq<Ticket>)
      modifies this
      ensures !loading && tickets == payload
      ensures error == old(error) && currentTicket == old(currentTicket)
    {
      loading := false;
      tickets := payload;
    }

    /** `fetchTickets.rejected` and `fetchUserTickets.rejected`: the list is kept. */
    method FetchRejected(message: string)
      modifies this
      ensures !loading && error == Some(message)
      ensures tickets == old(tickets) && currentTicket == old(currentTicket)
    {
      loading := false;
      error := Some(message);
    }

    /** `createTicket.fulfilled`: the new ticket is appended. */
    method CreateFulfilled(t: Ticket)
      modifies this
      ensures tickets == old(tickets) + [t]
      ensures currentTicket == old(currentTicket) && loading == old(loading) && error == old(error)
    {
      tickets := tickets + [t];
    }

    /** `activateTicket.fulfilled`. */
    method ActivateFulfilled(t: Ticket)
      modifies this
      ensures tickets == ReplaceById(old(tickets), TicketId, t)
      ensures currentTicket == old(currentTicket) && loading == old(loading) && error == old(error)
    {
      var found := FindFirst(tickets, WithId(TicketId, t.id));
      if found.Some? {
        tickets := tickets[found.value := t];
      }
    }

    /** `callNextTicket.fulfilled`: the called ticket becomes current and replaces its stored copy. */
    method CallNextFulfilled(t: Ticket)
      modifies this
      ensures currentTicket == Some(t)
      ensures tickets == ReplaceById(old(tickets), TicketId, t)
      ensures loading == old(loading) && error == old(error)
    {
      currentTicket := Some(t);
      var found := FindFirst(tickets, WithId(TicketId, t.id));
      if found.Some? {
        tickets := tickets[found.value := t];
      }
    }

    /** `completeTicket.fulfilled`: the stored copy is replaced; a completed current ticket is cleared. */
    method CompleteFulfilled(t: Ticket)
      modifies this
      ensures tickets == ReplaceById(old(tickets), TicketId, t)
      ensures old(currentTicket).Some? && old(currentTicket).value.id == t.id ==> currentTicket == None
      ensures !(old(currentTicket).Some? && old(currentTicket).value.id == t.id) ==> currentTicket == old(currentTicket)
      ensures loading == old(loading) && error == old(error)
    {
      var found := FindFirst(tickets, WithId(TicketId, t.id));
      if found.Some? {
        tickets := tickets[found.value := t];
      }
      if currentTicket.Some? && currentTicket.value.id == t.id {
        currentTicket := None;
      }
    }
  }
}
