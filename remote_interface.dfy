/**
 * The customer's remote page: which of the customer's tickets is the active
 * one, the queue status shown for it (people ahead, who is being served,
 * estimated wait), the waiting count per service, and the ticket request
 * form. Store contents are parameters.
 */
module RemoteInterface {
  import opened Wrappers
  import opened Lists
  import opened JsStrings
  import opened TicketModel
  import CountersSlice
  import ServicesSlice
  import AuthSlice
  import TicketsSlice
  import CounterInterface
  import TicketController

  const MISSING_CHOICE := "Please select a service and enter your name."
  const REQUEST_FAILED := "Failed to create ticket. Please try again."
  const UNEXPECTED_ERROR := "An unexpected error occurred. Please try again."
  const NO_CURRENT_TICKET := "None"
  const DEFAULT_SERVICE_TIME := 5

  /** A ticket that is not finished: `pending`, `waiting` or `serving`. */
  predicate Live(t: Ticket) {
    t.status == Pending || t.status == Waiting || t.status == Serving
  }

  function LiveTicket(): Ticket -> bool {
    (t: Ticket) => Live(t)
  }

  /**
   * The active ticket: the first live ticket once the list is sorted newest
   * first. It is the newest live ticket; none when no ticket is live.
   */
  function ActiveTicket(tickets: seq<Ticket>): (r: Option<Ticket>)
    ensures r.Some? ==> r.value in tickets && Live(r.value)
    ensures r.Some? ==> forall t :: t in tickets && Live(t) ==> t.createdAt <= r.value.createdAt
    ensures r.None? <==> forall t :: t in tickets ==> !Live(t)
  {
    var sorted := SortBy(tickets, NewestFirst);
    SortBySorted(tickets, NewestFirst);
    SortByMembers(tickets, NewestFirst);
    match FindFirst(sorted, LiveTicket())
    case None =>
      assert forall t :: t in sorted ==> !LiveTicket()(t);
      None
    case Some(i) =>
      NewestLive(sorted, i);
      Some(sorted[i])
  }

  /** In a newest-first list, the first live entry is at least as new as every live entry. */
  lemma NewestLive(sorted: seq<Ticket>, i: nat)
    requires SortedBy(sorted, NewestFirst)
    requires i < |sorted| && Live(sorted[i])
    requires forall j :: 0 <= j < i ==> !LiveTicket()(sorted[j])
    ensures forall t :: t in sorted && Live(t) ==> t.createdAt <= sorted[i].createdAt
  {
    forall t | t in sorted && Live(t)
      ensures t.createdAt <= sorted[i].createdAt
    {
      var k :| 0 <= k < |sorted| && sorted[k] == t;
      if k > i {
        assert KeyLe(NewestFirst(sorted[i]), NewestFirst(sorted[k]));
      }
    }
  }

  function InService(serviceId: int): Ticket -> bool {
    (t: Ticket) => t.serviceId == serviceId
  }

  /** `(waiting or pending) && number < n`: a ticket ahead of number `n` in its service's queue. */
  function AheadOf(n: int): Ticket -> bool {
    (t: Ticket) => (t.status == Waiting || t.status == Pending) && t.ticketNumber < n
  }

  /** A ticket of service `serviceId` that is queued ahead of number `n`. */
  function AheadIn(serviceId: int, n: int): Ticket -> bool {
    (t: Ticket) => CounterInterface.Queued(t, serviceId) && t.ticketNumber < n
  }

  /** The waiting count shown for a service: its tickets that are `waiting` or `pending`. */
  function WaitingCount(tickets: seq<Ticket>, serviceId: int): (n: nat)
    ensures n <= |tickets|
    ensures n == |Filter(tickets, CounterInterface.QueuedFor(serviceId))|
  {
    |Filter(tickets, CounterInterface.QueuedFor(serviceId))|
  }

  /** For a (truthy) service, the waiting count is the length of the counter page's waiting list. */
  lemma WaitingCountIsWaitingListLength(tickets: seq<Ticket>, serviceId: int)
    requires serviceId != 0
    ensures WaitingCount(tickets, serviceId) == |CounterInterface.WaitingTickets(tickets, Some(serviceId))|
  {
    var w := CounterInterface.WaitingTickets(tickets, Some(serviceId));
    assert |multiset(w)| == |w|;
  }

  /**
   * People ahead of `mine`: among the tickets of its service, those waiting
   * or pending with a smaller number. The ticket itself is never counted.
   */
  function PeopleAhead(tickets: seq<Ticket>, mine: Ticket): (n: nat)
    ensures n == |Filter(tickets, AheadIn(mine.serviceId, mine.ticketNumber))|
    ensures n <= |Filter(tickets, InService(mine.serviceId))|
    ensures n <= WaitingCount(tickets, mine.serviceId)
    ensures (forall t :: t in tickets && CounterInterface.Queued(t, mine.serviceId) ==>
               t.ticketNumber >= mine.ticketNumber) ==> n == 0
  {
    var serviceTickets := Filter(tickets, InService(mine.serviceId));
    var ahead := Filter(serviceTickets, AheadOf(mine.ticketNumber));
    FilterTwice(tickets, InService(mine.serviceId), AheadOf(mine.ticketNumber), AheadIn(mine.serviceId, mine.ticketNumber));
    FilterCountMonotonic(tickets, AheadIn(mine.serviceId, mine.ticketNumber), CounterInterface.QueuedFor(mine.serviceId));
    assert ahead != [] ==> ahead[0] in ahead;
    |ahead|
  }

  /** `find(s => s.id === serviceId)?.averageServiceTime || 5`: never 0. */
  function AverageTime(services: seq<ServicesSlice.Service>, serviceId: int): (m: int)
    ensures m != 0
    ensures match Find(services, WithId(ServicesSlice.ServiceId, serviceId))
      case Some(s) => (if s.averageServiceTime.Some? && s.averageServiceTime.value != 0
                       then m == s.averageServiceTime.value else m == DEFAULT_SERVICE_TIME)
      case None => m == DEFAULT_SERVICE_TIME
  {
    match Find(services, WithId(ServicesSlice.ServiceId, serviceId))
    case Some(s) =>
      if s.averageServiceTime.Some? && s.averageServiceTime.value != 0 then s.averageServiceTime.value
      else DEFAULT_SERVICE_TIME
    case None => DEFAULT_SERVICE_TIME
  }

  function ServesService(serviceId: int): CountersSlice.Counter -> bool {
    (c: CountersSlice.Counter) => c.serviceId == Some(serviceId)
  }

  /** `find(c => c.serviceId === serviceId)?.currentTicket || 'None'`: never empty. */
  function CurrentLabel(counters: seq<CountersSlice.Counter>, serviceId: int): (shown: string)
    ensures shown != ""
    ensures match Find(counters, ServesService(serviceId))
      case Some(c) => (if c.currentTicket.Some? && c.currentTicket.value != ""
                       then shown == c.currentTicket.value else shown == NO_CURRENT_TICKET)
      case None => shown == NO_CURRENT_TICKET
  {
    match Find(counters, ServesService(serviceId))
    case Some(c) =>
      if c.currentTicket.Some? && c.currentTicket.value != "" then c.currentTicket.value else NO_CURRENT_TICKET
    case None => NO_CURRENT_TICKET
  }

  datatype QueueStatus = QueueStatus(peopleAhead: nat, currentTicket: string, estimatedWaitTime: int)

  /**
   * `getQueueStatus`: nothing without a ticket; otherwise the people ahead,
   * the label of the counter serving the service, and the estimated wait,
   * which is zero exactly when nobody is ahead.
   */
  function QueueStatusOf(myTicket: Option<Ticket>, tickets: seq<Ticket>,
                         counters: seq<CountersSlice.Counter>, services: seq<ServicesSlice.Service>)
    : (r: Option<QueueStatus>)
    ensures r.None? <==> myTicket.None?
    ensures r.Some? ==>
      var mine := myTicket.value;
      && r.value.peopleAhead == PeopleAhead(tickets, mine)
      && r.value.estimatedWaitTime == r.value.peopleAhead * AverageTime(services, mine.serviceId)
      && r.value.currentTicket == CurrentLabel(counters, mine.serviceId)
    ensures r.Some? ==> (r.value.estimatedWaitTime == 0 <==> r.value.peopleAhead == 0)
  {
    match myTicket
    case None => None
    case Some(mine) =>
      var ahead := PeopleAhead(tickets, mine);
      var avg := AverageTime(services, mine.serviceId);
      assert ahead * avg == 0 <==> ahead == 0 by {
        if ahead != 0 {
          MulNonZero(ahead, avg);
        }
      }
      Some(QueueStatus(ahead, CurrentLabel(counters, mine.serviceId), ahead * avg))
  }

  lemma MulNonZero(a: int, b: int)
    requires a != 0 && b != 0
    ensures a * b != 0
  {
  }

  /**
   * The page fills the ticket store with `fetchUserTickets`, so the people
   * ahead it shows are counted among the customer's own tickets only.
   */
  function PeopleAheadAsFetched(all: seq<Ticket>, userId: int, mine: Ticket): (n: nat)
    ensures n == PeopleAhead(TicketController.UserTickets(all, userId), mine)
  {
    PeopleAhead(TicketController.UserTickets(all, userId), mine)
  }

  /**
   * The waiting count the page shows for a service, over the tickets it has
   * fetched: only the customer's own tickets are counted.
   */
  function WaitingCountAsFetched(all: seq<Ticket>, userId: int, serviceId: int): (n: nat)
    ensures n == WaitingCount(TicketController.UserTickets(all, userId), serviceId)
  {
    WaitingCount(TicketController.UserTickets(all, userId), serviceId)
  }

  /** Another customer's waiting ticket no. 1 of service 7, created first. */
  const OTHERS_TICKET := Ticket(1, 1, Waiting, "A", 7, Some(2), None, 10, 10, None, None, None, None)
  /** The signed-in customer's (user 1) pending ticket no. 2 of the same service. */
  const OWN_TICKET := Ticket(2, 2, Pending, "B", 7, Some(1), None, 20, 20, None, None, None, None)

  /** One person is ahead of the customer, but the page shows none. */
  lemma OthersAheadAreNotCounted()
    ensures PeopleAhead([OTHERS_TICKET, OWN_TICKET], OWN_TICKET) == 1
    ensures PeopleAheadAsFetched([OTHERS_TICKET, OWN_TICKET], 1, OWN_TICKET) == 0
  {
    var all := [OTHERS_TICKET, OWN_TICKET];
    var p := AheadIn(OWN_TICKET.serviceId, OWN_TICKET.ticketNumber);
    assert Filter(all, p) == [OTHERS_TICKET] by {
      assert all[1..] == [OWN_TICKET];
      assert Filter([OWN_TICKET], p) == [];
    }
    var fetched := TicketController.UserTickets(all, 1);
    assert OTHERS_TICKET !in fetched;
    forall t | t in fetched
      ensures !p(t)
    {
      assert t == OWN_TICKET;
    }
  }

  /** Two tickets are queued for the service, but the page counts only the customer's one. */
  lemma OthersWaitingAreNotCounted()
    ensures WaitingCount([OTHERS_TICKET, OWN_TICKET], 7) == 2
    ensures WaitingCountAsFetched([OTHERS_TICKET, OWN_TICKET], 1, 7) == 1
  {
    var all := [OTHERS_TICKET, OWN_TICKET];
    var q := CounterInterface.QueuedFor(7);
    assert Filter(all, q) == all by {
      assert all[1..] == [OWN_TICKET];
      assert Filter([OWN_TICKET], q) == [OWN_TICKET] by {
        assert [OWN_TICKET][1..] == [];
      }
    }
    var owned := Filter(all, TicketController.OwnedBy(1));
    assert owned == [OWN_TICKET] by {
      assert all[1..] == [OWN_TICKET];
      assert [OWN_TICKET][1..] == [];
    }
    var fetched := TicketController.UserTickets(all, 1);
    assert |fetched| == 1 by {
      assert |multiset(fetched)| == |multiset(owned)|;
    }
    assert fetched == [OWN_TICKET] by {
      assert fetched[0] in fetched;
    }
    assert Filter(fetched, q) == fetched by {
      assert fetched[1..] == [];
    }
  }

  /** `serviceId` and trimmed `customerName` of a `createTicket` request. */
  datatype CreateRequest = CreateRequest(serviceId: int, customerName: string)

  /** The page's own state. */
  class RemotePanel {
    var selectedService: Option<int>
    var customerName: string
    var customerPhone: string
    var myTicket: Option<Ticket>
    var requestError: Option<string>

    constructor ()
      ensures selectedService == None && customerName == "" && customerPhone == ""
      ensures myTicket == None && requestError == None
    {
      selectedService := None;
      customerName := "";
      customerPhone := "";
      myTicket := None;
      requestError := None;
    }

    /**
     * The effect on the ticket list: the active ticket, when there is one,
     * becomes the page's ticket and its service the selected one.
     */
    method SyncActiveTicket(tickets: seq<Ticket>)
      modifies this
      ensures ActiveTicket(tickets).None? ==>
        myTicket == old(myTicket) && selectedService == old(selectedService)
      ensures ActiveTicket(tickets).Some? ==>
        myTicket == ActiveTicket(tickets) && selectedService == Some(ActiveTicket(tickets).value.serviceId)
      ensures customerName == old(customerName) && customerPhone == old(customerPhone)
      ensures requestError == old(requestError)
    {
      if |tickets| > 0 {
        var active := ActiveTicket(tickets);
        if active.Some? {
          myTicket := active;
          selectedService := Some(active.value.serviceId);
        }
      }
    }

    /** The effect on the user: a non-empty account name pre-fills the name field. */
    method PrefillName(user: Option<AuthSlice.User>)
      modifies this
      ensures user.Some? && user.value.name.Some? && user.value.name.value != "" ==>
        customerName == user.value.name.value
      ensures !(user.Some? && user.value.name.Some? && user.value.name.value != "") ==>
        customerName == old(customerName)
      ensures selectedService == old(selectedService) && customerPhone == old(customerPhone)
      ensures myTicket == old(myTicket) && requestError == old(requestError)
    {
      if user.Some? && user.value.name.Some? && user.value.name.value != "" {
        customerName := user.value.name.value;
      }
    }

    /**
     * `handleRequestTicket`: the error is cleared; with a service selected
     * and a name that is not blank, a request with the trimmed name goes
     * out; otherwise the error asks for both.
     */
    method RequestTicket() returns (request: Option<CreateRequest>)
      modifies this
      ensures request.Some? <==> selectedService.Some? && Trim(customerName) != ""
      ensures request.Some? ==>
        request.value == CreateRequest(selectedService.value, Trim(customerName)) && requestError == None
      ensures request.None? ==> requestError == Some(MISSING_CHOICE)
      ensures selectedService == old(selectedService) && customerName == old(customerName)
      ensures customerPhone == old(customerPhone) && myTicket == old(myTicket)
    {
      requestError := None;
      var name := Trim(customerName);
      if selectedService.Some? && name != "" {
        request := Some(CreateRequest(selectedService.value, name));
      } else {
        request := None;
        requestError := Some(MISSING_CHOICE);
      }
    }

    /** The request succeeded: the new ticket is shown and the form is reset (the name is kept). */
    method RequestFulfilled(payload: Ticket)
      modifies this
      ensures myTicket == Some(payload) && customerPhone == "" && selectedService == None
      ensures customerName == old(customerName) && requestError == old(requestError)
    {
      myTicket := Some(payload);
      customerPhone := "";
      selectedService := None;
    }

    /** The request was rejected: the server's message, or a default when it gave none. */
    method RequestRejected(payload: Option<string>)
      modifies this
      ensures requestError == Some(TicketsSlice.RejectionMessage(payload, REQUEST_FAILED))
      ensures requestError.value != ""
      ensures selectedService == old(selectedService) && customerName == old(customerName)
      ensures customerPhone == old(customerPhone) && myTicket == old(myTicket)
    {
      requestError := Some(TicketsSlice.RejectionMessage(payload, REQUEST_FAILED));
    }

    /** The request promise failed outright. */
    method RequestCrashed()
      modifies this
      ensures requestError == Some(UNEXPECTED_ERROR)
      ensures selectedService == old(selectedService) && customerName == old(customerName)
      ensures customerPhone == old(customerPhone) && myTicket == old(myTicket)
    {
      requestError := Some(UNEXPECTED_ERROR);
    }

    /** `handleActivateTicket`: the id of the page's ticket, if it has one, is sent for activation. */
    method ActivateRequest() returns (ticketId: Option<int>)
      ensures ticketId.Some? <==> myTicket.Some?
      ensures ticketId.Some? ==> ticketId.value == myTicket.value.id
    {
      ticketId := if myTicket.Some? then Some(myTicket.value.id) else None;
    }

    /** Activation succeeded: the server's copy becomes the page's ticket. */
    method ActivateFulfilled(payload: Ticket)
      modifies this
      ensures myTicket == Some(payload)
      ensures selectedService == old(selectedService) && customerName == old(customerName)
      ensures customerPhone == old(customerPhone) && requestError == old(requestError)
    {
      myTicket := Some(payload);
    }

    /** `handleClearTicket`: the page forgets its ticket (the ticket itself stays). */
    method ClearTicket()
      modifies this
      ensures myTicket == None
      ensures selectedService == old(selectedService) && customerName == old(customerName)
      ensures customerPhone == old(customerPhone) && requestError == old(requestError)
    {
      myTicket := None;
    }
  }
}
