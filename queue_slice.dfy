/**
 * The kiosk's local queue: tickets made on the spot, each with an id taken
 * from the clock (`Date.now()`, given here as a parameter) and a name.
 */
module QueueSlice {
  import opened Lists

  datatype QueueTicket = QueueTicket(id: int, name: string)

  function QueueTicketId(t: QueueTicket): int {
    t.id
  }

  /** Removing the id of a ticket just appended, when no earlier ticket had it, undoes the append. */
  lemma {:induction false} RemoveUndoesGenerate(s: seq<QueueTicket>, t: QueueTicket)
    requires t.id !in Ids(s, QueueTicketId)
    ensures RemoveById(s + [t], QueueTicketId, t.id) == s
  {
    var p := WithoutId(QueueTicketId, t.id);
    FilterAppend(s, [t], p);
    FilterKeepsAll(s, p);
    assert Filter([t], p) == [];
  }

  class QueueState {
    var tickets: seq<QueueTicket>

    constructor ()
      ensures tickets == []
    {
      tickets := [];
    }

    /** `generateTicket`: a ticket with id `now` and the given name is appended. */
    method GenerateTicket(name: string, now: int)
      modifies this
      ensures tickets == old(tickets) + [QueueTicket(now, name)]
    {
      tickets := tickets + [QueueTicket(now, name)];
    }

    /** `removeTicket`: every ticket with that id is dropped, the others keep their order. */
    method RemoveTicket(id: int)
      modifies this
      ensures tickets == RemoveById(old(tickets), QueueTicketId, id)
    {
      tickets := Filter(tickets, WithoutId(QueueTicketId, id));
    }
  }
}
