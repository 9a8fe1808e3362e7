/**
 * The staff counter page: which counter and service the page works for, the
 * waiting list it shows for that service, and when "Call Next Customer" may
 * be pressed. Tickets, counters and the signed-in user come from the client
 * stores and are parameters here.
 */
module CounterInterface {
  import opened Wrappers
  import opened Lists
  import opened JsStrings
  import opened TicketModel
  import CountersSlice
  import AuthSlice
  import TicketController

  /** A ticket of service `serviceId` that is still in the queue (`waiting` or `pending`). */
  predicate Queued(t: Ticket, serviceId: int) {
    t.serviceId == serviceId && (t.status == Waiting || t.status == Pending)
  }

  function QueuedFor(serviceId: int): Ticket -> bool {
    (t: Ticket) => Queued(t, serviceId)
  }

  /** The comparator of the waiting list as written: waiting before pending, then by ticket number. */
  function CompareWaiting(a: Ticket, b: Ticket): int {
    if a.status == Waiting && b.status == Pending then -1
    else if a.status == Pending && b.status == Waiting then 1
    else a.ticketNumber - b.ticketNumber
  }

  /** The same order as a key: status rank (waiting 0, pending 1), then ticket number. */
  function WaitingKey(t: Ticket): Key {
    Key(if t.status == Waiting then 0 else 1, t.ticketNumber)
  }

  /** On queued tickets the comparator and the key order agree, ties included. */
  lemma CompareWaitingAgreesWithKey(a: Ticket, b: Ticket)
    requires a.status == Waiting || a.status == Pending
    requires b.status == Waiting || b.status == Pending
    ensures CompareWaiting(a, b) <= 0 <==> KeyLe(WaitingKey(a), WaitingKey(b))
    ensures CompareWaiting(a, b) == 0 <==> WaitingKey(a) == WaitingKey(b)
  {
  }

  /**
   * `getWaitingTickets`: nothing without a (truthy) selected service;
   * otherwise the service's queued tickets, waiting ones first, each group by
   * ascending ticket number (equal numbers keep their list order).
   */
  function WaitingTickets(tickets: seq<Ticket>, selected: Option<int>): (r: seq<Ticket>)
    ensures selected.None? || selected.value == 0 ==> r == []
    ensures selected.Some? && selected.value != 0 ==>
      && (forall t :: t in r <==> t in tickets && Queued(t, selected.value))
      && multiset(r) == multiset(Filter(tickets, QueuedFor(selected.value)))
    ensures forall i, j :: 0 <= i < j < |r| ==> !(r[i].status == Pending && r[j].status == Waiting)
    ensures forall i, j :: 0 <= i < j < |r| && r[i].status == r[j].status ==>
      r[i].ticketNumber <= r[j].ticketNumber
  {
    if selected.None? || selected.value == 0 then []
    else
      var queued := Filter(tickets, QueuedFor(selected.value));
      var r := SortBy(queued, WaitingKey);
      SortBySorted(queued, WaitingKey);
      WaitingOrder(r);
      SortByMembers(queued, WaitingKey);
      assert forall t :: t in queued <==> t in tickets && Queued(t, selected.value);
      r
  }

  /** Ordering by `WaitingKey` puts waiting before pending and numbers ascending within a status. */
  lemma WaitingOrder(r: seq<Ticket>)
    requires SortedBy(r, WaitingKey)
    ensures forall i, j :: 0 <= i < j < |r| ==> !(r[i].status == Pending && r[j].status == Waiting)
    ensures forall i, j :: 0 <= i < j < |r| && r[i].status == r[j].status ==> r[i].ticketNumber <= r[j].ticketNumber
  {
    forall i, j | 0 <= i < j < |r|
      ensures !(r[i].status == Pending && r[j].status == Waiting)
      ensures r[i].status == r[j].status ==> r[i].ticketNumber <= r[j].ticketNumber
    {
      assert KeyLe(WaitingKey(r[i]), WaitingKey(r[j]));
    }
  }

  /** `c => c.userId === userId`. */
  function StaffedBy(userId: int): CountersSlice.Counter -> bool {
    (c: CountersSlice.Counter) => c.userId == Some(userId)
  }

  /** `counterId` and `serviceId` of a `callNextTicket` request. */
  datatype CallNextRequest = CallNextRequest(counterId: int, serviceId: int)

  /** `counterId` and `serviceId` of an `assignServiceToCounter` request (NaN is sent as null). */
  datatype AssignRequest = AssignRequest(counterId: int, serviceId: Option<int>)

  /** The "Call Next Customer" button is enabled: `!(!selectedCounter || !selectedService || waitingTickets.length === 0)`. */
  predicate CallNextEnabled(counter: Option<CountersSlice.Counter>, service: Option<int>, waiting: seq<Ticket>) {
    counter.Some? && service.Some? && service.value != 0 && |waiting| > 0
  }

  /** The guard of `handleCallNext`: `selectedCounter && selectedService`. */
  predicate CallNextGuard(counter: Option<CountersSlice.Counter>, service: Option<int>) {
    counter.Some? && service.Some? && service.value != 0
  }

  /**
   * The button as it evidently should be: enabled only when a listed ticket
   * is `waiting`, the only status the server calls.
   */
  predicate CallNextUseful(counter: Option<CountersSlice.Counter>, service: Option<int>, waiting: seq<Ticket>) {
    CallNextGuard(counter, service) && exists i :: 0 <= i < |waiting| && waiting[i].status == Waiting
  }

  /** With a counter and service selected, that button is enabled exactly when the server has a ticket to call. */
  lemma UsefulButtonIffCallable(counter: Option<CountersSlice.Counter>, service: Option<int>, tickets: seq<Ticket>)
    requires CallNextGuard(counter, service)
    ensures CallNextUseful(counter, service, WaitingTickets(tickets, service)) <==>
      TicketController.OldestWaiting(tickets, service.value).Some?
  {
    var w := WaitingTickets(tickets, service);
    if CallNextUseful(counter, service, w) {
      var i :| 0 <= i < |w| && w[i].status == Waiting;
      WaitingEntryMeansCallable(tickets, service.value, i);
    }
    if TicketController.OldestWaiting(tickets, service.value).Some? {
      var t := tickets[TicketController.OldestWaiting(tickets, service.value).value];
      assert t in w;
      var i :| 0 <= i < |w| && w[i] == t;
      assert w[i].status == Waiting;
    }
  }

  /**
   * The button also counts `pending` tickets, which the server never calls:
   * with only a pending ticket in the list it is enabled, yet the request
   * finds nothing to call.
   */
  lemma PendingOnlyListEnablesFruitlessCall(counter: CountersSlice.Counter, t: Ticket)
    requires t.status == Pending && t.serviceId != 0
    ensures CallNextEnabled(Some(counter), Some(t.serviceId), WaitingTickets([t], Some(t.serviceId)))
    ensures TicketController.OldestWaiting([t], t.serviceId).None?
  {
    assert t in WaitingTickets([t], Some(t.serviceId));
  }

  /** A waiting ticket in the list means the server has a ticket to call for that service. */
  lemma WaitingEntryMeansCallable(tickets: seq<Ticket>, serviceId: int, i: int)
    requires serviceId != 0
    requires 0 <= i < |WaitingTickets(tickets, Some(serviceId))|
    requires WaitingTickets(tickets, Some(serviceId))[i].status == Waiting
    ensures TicketController.OldestWaiting(tickets, serviceId).Some?
  {
    var t := WaitingTickets(tickets, Some(serviceId))[i];
    assert t in tickets && TicketController.Callable(t, serviceId);
  }

  /** The page's own state: the selected counter and the selected service (`None` for null or NaN). */
  class CounterPanel {
    var selectedCounter: Option<CountersSlice.Counter>
    var selectedService: Option<int>

    constructor ()
      ensures selectedCounter == None && selectedService == None
    {
      selectedCounter := None;
      selectedService := None;
    }

    /**
     * The effect on the signed-in user and the counters: the first counter
     * staffed by the user is selected, and its service too when it has a
     * (truthy) one; otherwise the selection stays.
     */
    method SelectStaffCounter(user: Option<AuthSlice.User>, counters: seq<CountersSlice.Counter>)
      modifies this
      ensures user.None? || Find(counters, StaffedBy(user.value.id)).None? ==>
        selectedCounter == old(selectedCounter) && selectedService == old(selectedService)
      ensures user.Some? && Find(counters, StaffedBy(user.value.id)).Some? ==>
        var staff := Find(counters, StaffedBy(user.value.id)).value;
        && selectedCounter == Some(staff)
        && staff.userId == Some(user.value.id)
        && selectedService == (if staff.serviceId.Some? && staff.serviceId.value != 0 then staff.serviceId
                               else old(selectedService))
    {
      if user.Some? {
        var staff := Find(counters, StaffedBy(user.value.id));
        if staff.Some? {
          selectedCounter := staff;
          if staff.value.serviceId.Some? && staff.value.serviceId.value != 0 {
            selectedService := staff.value.serviceId;
          }
        }
      }
    }

    /**
     * `handleCounterChange`: the counter whose id the option value parses to
     * (none for NaN or an unknown id) is selected, and the service follows it:
     * the counter's service when truthy, else none.
     */
    method HandleCounterChange(value: string, counters: seq<CountersSlice.Counter>)
      modifies this
      ensures ParseInt(value).None? ==> selectedCounter == None
      ensures ParseInt(value).Some? ==>
        selectedCounter == Find(counters, WithId(CountersSlice.CounterId, ParseInt(value).value))
      ensures selectedCounter.Some? ==> selectedCounter.value in counters
      ensures selectedCounter.Some? && selectedCounter.value.serviceId.Some? && selectedCounter.value.serviceId.value != 0 ==>
        selectedService == selectedCounter.value.serviceId
      ensures !(selectedCounter.Some? && selectedCounter.value.serviceId.Some? && selectedCounter.value.serviceId.value != 0) ==>
        selectedService == None
    {
      var counterId := ParseInt(value);
      var counter := if counterId.None? then None else Find(counters, WithId(CountersSlice.CounterId, counterId.value));
      selectedCounter := counter;
      if counter.Some? && counter.value.serviceId.Some? && counter.value.serviceId.value != 0 {
        selectedService := counter.value.serviceId;
      } else {
        selectedService := None;
      }
    }

    /**
     * `handleServiceChange`: the parsed option value becomes the selected
     * service, and when a counter is selected the service is assigned to it.
     */
    method HandleServiceChange(value: string) returns (assign: Option<AssignRequest>)
      modifies this
      ensures selectedService == ParseInt(value) && selectedCounter == old(selectedCounter)
      ensures assign.Some? <==> selectedCounter.Some?
      ensures assign.Some? ==> assign.value == AssignRequest(selectedCounter.value.id, ParseInt(value))
    {
      selectedService := ParseInt(value);
      if selectedCounter.Some? {
        assign := Some(AssignRequest(selectedCounter.value.id, selectedService));
      } else {
        assign := None;
      }
    }

    /** `handleCallNext`: a request goes out only with a counter and a truthy service selected. */
    method HandleCallNext() returns (request: Option<CallNextRequest>)
      ensures request.Some? <==> CallNextGuard(selectedCounter, selectedService)
      ensures request.Some? ==> request.value == CallNextRequest(selectedCounter.value.id, selectedService.value)
    {
      if selectedCounter.Some? && selectedService.Some? && selectedService.value != 0 {
        request := Some(CallNextRequest(selectedCounter.value.id, selectedService.value));
      } else {
        request := None;
      }
    }
  }

  /**
   * Whenever the button is enabled, the guard of `handleCallNext` holds, so
   * pressing it sends a request, and the service has a queued ticket.
   */
  lemma EnabledButtonSendsRequest(counter: Option<CountersSlice.Counter>, service: Option<int>, tickets: seq<Ticket>)
    requires CallNextEnabled(counter, service, WaitingTickets(tickets, service))
    ensures CallNextGuard(counter, service)
    ensures exists t :: t in tickets && Queued(t, service.value)
  {
    var w := WaitingTickets(tickets, service);
    assert w[0] in w;
  }
}
