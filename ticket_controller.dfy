/**
 * The ticket handlers of the server: creating a numbered ticket, listing a
 * caller's tickets, activating a ticket on arrival and calling the next
 * waiting ticket to a counter. Each handler is one atomic step on the
 * `Ticket` table. Two generations of the handlers exist: the current one
 * (`CreateTicket`, `GetUserTickets`, `ActivateTicket`, `CallNextTicket`) and
 * an older one (`LegacyCreateTicket`, `LegacyGetUserTickets`,
 * `LegacyActivateTicket`) whose caller id is the raw `id` claim and whose
 * ownership rule is stricter.
 */
module TicketController {
  import opened Wrappers
  import opened JsStrings
  import opened Lists
  import opened Http
  import opened TicketModel
  import opened AuthMiddleware

  const MISSING_FIELDS := "customerName and serviceId are required"
  const NO_USER_ID := "User ID not found in token or invalid format"
  const LEGACY_NO_USER_ID := "User ID not found in token"
  const ID_REQUIRED := "Ticket ID is required"
  const INVALID_ID := "Invalid ticket ID format"
  const TICKET_NOT_FOUND := "Ticket not found"
  const NOT_OWNER := "You can only activate your own tickets"
  const NO_PENDING := "No pending tickets"

  // ---------------------------------------------------------------------
  // The caller's id
  // ---------------------------------------------------------------------

  /** A user id as the handlers see it: undefined, NaN (an unparsable string) or a number. */
  datatype ExtractedId = Absent | NaN | Id(value: int)

  /** `extractUserId(req)`: a numeric `id` claim, or a string one run through `parseInt`. */
  function ExtractUserId(user: Option<Decoded>): (r: ExtractedId)
    ensures r.Absent? <==> user.None? || user.value.StringPayload? || user.value.id.NoId?
    ensures r.NaN? <==>
      user.Some? && user.value.ObjectPayload? && user.value.id.StringId? && ParseInt(user.value.id.s).None?
    ensures user.Some? && user.value.ObjectPayload? && user.value.id.NumberId? ==> r == Id(user.value.id.n)
  {
    match user
    case None => Absent
    case Some(StringPayload(_)) => Absent
    case Some(ObjectPayload(claim)) =>
      match claim
      case NoId => Absent
      case NumberId(n) => Id(n)
      case StringId(s) =>
        match ParseInt(s)
        case None => NaN
        case Some(n) => Id(n)
  }

  /** A token whose `id` claim is the decimal string of a number yields that number. */
  lemma StringClaimReadsBack(n: int)
    ensures ExtractUserId(Some(ObjectPayload(StringId(IntToString(n))))) == Id(n)
  {
    ParseIntOfIntToString(n);
  }

  /** JavaScript truthiness of the extracted id: undefined, NaN and 0 are falsy. */
  predicate IsTruthy(id: ExtractedId) {
    id.Id? && id.value != 0
  }

  /** The `userId` column written on creation (an undefined or NaN id is stored as null). */
  function StoredUserId(id: ExtractedId): (r: Option<int>)
    ensures r.Some? <==> id.Id?
    ensures r.Some? ==> r.value == id.value
  {
    if id.Id? then Some(id.value) else None
  }

  /** `!customerName || !serviceId` is false: both are present and truthy. */
  predicate HasRequiredFields(customerName: Option<string>, serviceId: Option<int>) {
    customerName.Some? && customerName.value != "" && serviceId.Some? && serviceId.value != 0
  }

  // ---------------------------------------------------------------------
  // Numbering
  // ---------------------------------------------------------------------

  /** The highest `ticketNumber` among the tickets of `serviceId`, if it has any. */
  function MaxTicketNumber(tickets: seq<Ticket>, serviceId: int): (r: Option<int>)
    ensures r.None? <==> forall i :: 0 <= i < |tickets| ==> tickets[i].serviceId != serviceId
    ensures r.Some? ==>
      forall i :: 0 <= i < |tickets| && tickets[i].serviceId == serviceId ==> tickets[i].ticketNumber <= r.value
    ensures r.Some? ==>
      exists i :: 0 <= i < |tickets| && tickets[i].serviceId == serviceId && tickets[i].ticketNumber == r.value
  {
    if tickets == [] then None
    else
      var init := tickets[..|tickets| - 1];
      var last := tickets[|tickets| - 1];
      var m := MaxTicketNumber(init, serviceId);
      assert forall i :: 0 <= i < |init| ==> init[i] == tickets[i];
      if last.serviceId != serviceId then m
      else if m.Some? && m.value >= last.ticketNumber then m
      else Some(last.ticketNumber)
  }

  /** The number a new ticket of `serviceId` gets: 1 for a service without tickets, else the maximum + 1. */
  function NextTicketNumber(tickets: seq<Ticket>, serviceId: int): (n: int)
    ensures forall i :: 0 <= i < |tickets| && tickets[i].serviceId == serviceId ==> tickets[i].ticketNumber < n
    ensures (forall i :: 0 <= i < |tickets| ==> tickets[i].serviceId != serviceId) ==> n == 1
    ensures (exists i :: 0 <= i < |tickets| && tickets[i].serviceId == serviceId) ==>
      exists i :: 0 <= i < |tickets| && tickets[i].serviceId == serviceId && tickets[i].ticketNumber == n - 1
  {
    match MaxTicketNumber(tickets, serviceId)
    case None => 1
    case Some(m) => m + 1
  }

  function InService(serviceId: int): Ticket -> bool {
    (t: Ticket) => t.serviceId == serviceId
  }

  /** When every ticket of the service in `xs` also appears in `ys`, the maximum over `ys` is at least the one over `xs`. */
  lemma MaxCoveredBy(xs: seq<Ticket>, ys: seq<Ticket>, serviceId: int)
    requires forall i :: 0 <= i < |xs| && xs[i].serviceId == serviceId ==> xs[i] in ys
    ensures MaxTicketNumber(xs, serviceId).Some? ==>
      MaxTicketNumber(ys, serviceId).Some? && MaxTicketNumber(xs, serviceId).value <= MaxTicketNumber(ys, serviceId).value
  {
    var a := MaxTicketNumber(xs, serviceId);
    if a.Some? {
      var i :| 0 <= i < |xs| && xs[i].serviceId == serviceId && xs[i].ticketNumber == a.value;
      var k :| 0 <= k < |ys| && ys[k] == xs[i];
    }
  }

  /** Only the service's own tickets matter: the next number is computed from them alone. */
  lemma NextNumberIgnoresOtherServices(tickets: seq<Ticket>, serviceId: int)
    ensures NextTicketNumber(tickets, serviceId) == NextTicketNumber(Filter(tickets, InService(serviceId)), serviceId)
  {
    var f := Filter(tickets, InService(serviceId));
    forall i | 0 <= i < |f|
      ensures f[i] in tickets && f[i].serviceId == serviceId
    {
      assert InService(serviceId)(f[i]);
    }
    forall i | 0 <= i < |tickets| && tickets[i].serviceId == serviceId
      ensures tickets[i] in f
    {
      assert InService(serviceId)(tickets[i]);
    }
    MaxCoveredBy(tickets, f, serviceId);
    MaxCoveredBy(f, tickets, serviceId);
  }

  /** Creating a ticket with the next number advances the service's next number by exactly one. */
  lemma NextNumberAfterCreate(tickets: seq<Ticket>, t: Ticket)
    requires t.ticketNumber == NextTicketNumber(tickets, t.serviceId)
    ensures NextTicketNumber(tickets + [t], t.serviceId) == t.ticketNumber + 1
  {
    assert (tickets + [t])[..|tickets|] == tickets;
  }

  /** A ticket of another service leaves a service's next number alone. */
  lemma NextNumberAfterOtherService(tickets: seq<Ticket>, t: Ticket, serviceId: int)
    requires t.serviceId != serviceId
    ensures NextTicketNumber(tickets + [t], serviceId) == NextTicketNumber(tickets, serviceId)
  {
    assert (tickets + [t])[..|tickets|] == tickets;
  }

  /** Within one service, numbers strictly increase in creation (table) order. */
  ghost predicate NumberedInOrder(tickets: seq<Ticket>) {
    forall i, j :: 0 <= i < j < |tickets| && tickets[i].serviceId == tickets[j].serviceId ==>
      tickets[i].ticketNumber < tickets[j].ticketNumber
  }

  lemma NumberedInOrderAppend(tickets: seq<Ticket>, t: Ticket)
    requires NumberedInOrder(tickets)
    requires t.ticketNumber == NextTicketNumber(tickets, t.serviceId)
    ensures NumberedInOrder(tickets + [t])
  {
  }

  /** Two tickets of one service never share a number while numbering follows creation order. */
  lemma NumbersUniquePerService(tickets: seq<Ticket>, i: int, j: int)
    requires NumberedInOrder(tickets)
    requires 0 <= i < |tickets| && 0 <= j < |tickets| && i != j
    requires tickets[i].serviceId == tickets[j].serviceId
    ensures tickets[i].ticketNumber != tickets[j].ticketNumber
  {
  }

  // ---------------------------------------------------------------------
  // Ownership
  // ---------------------------------------------------------------------

  /** `userId && ticketUserId && ticketUserId !== userId`: the current refusal rule. */
  predicate RefusesActivation(caller: ExtractedId, owner: Option<int>) {
    IsTruthy(caller) && owner.Some? && owner.value != 0 && owner.value != caller.value
  }

  /** `userId && ticket.userId !== userId`: the older, stricter refusal rule. */
  predicate LegacyRefusesActivation(caller: Option<int>, owner: Option<int>) {
    caller.Some? && caller.value != 0 && owner != caller
  }

  /** Anonymous callers and unowned tickets always pass the current rule. */
  lemma AnonymousOrUnownedMayActivate(caller: ExtractedId, owner: Option<int>)
    requires !IsTruthy(caller) || owner.None?
    ensures !RefusesActivation(caller, owner)
  {
  }

  /** A ticket owned by `u` is refused to any other signed-in user `v`, and granted to `u`. */
  lemma OnlyOwnerMayActivate(u: int, v: int)
    requires u != 0 && v != 0
    ensures RefusesActivation(Id(v), Some(u)) <==> v != u
    ensures LegacyRefusesActivation(Some(v), Some(u)) <==> v != u
  {
  }

  /** Whatever the current rule refuses, the older rule refuses too... */
  lemma LegacyRuleIsStricter(n: int, owner: Option<int>)
    ensures RefusesActivation(Id(n), owner) ==> LegacyRefusesActivation(Some(n), owner)
  {
  }

  /** ...but the older rule also refuses a signed-in user an anonymous ticket, which the current one allows. */
  lemma LegacyRuleRefusesAnonymousTickets(n: int)
    requires n != 0
    ensures LegacyRefusesActivation(Some(n), None)
    ensures !RefusesActivation(Id(n), None)
  {
  }

  // ---------------------------------------------------------------------
  // Queries
  // ---------------------------------------------------------------------

  /** `findByPk(id)`: the position of the ticket with that id. */
  function FindById(tickets: seq<Ticket>, id: int): (r: Option<nat>)
    ensures r.Some? ==> r.value < |tickets| && tickets[r.value].id == id
    ensures r.None? <==> forall i :: 0 <= i < |tickets| ==> tickets[i].id != id
  {
    FindFirst(tickets, WithId(TicketId, id))
  }

  function OwnedBy(userId: int): Ticket -> bool {
    (t: Ticket) => t.userId == Some(userId)
  }

  /** `findAll({ where: { userId }, order: [['createdAt', 'DESC']] })`. */
  function UserTickets(tickets: seq<Ticket>, userId: int): (r: seq<Ticket>)
    ensures forall t :: t in r <==> t in tickets && t.userId == Some(userId)
    ensures multiset(r) == multiset(Filter(tickets, OwnedBy(userId)))
    ensures forall i, j :: 0 <= i < j < |r| ==> r[i].createdAt >= r[j].createdAt
  {
    var owned := Filter(tickets, OwnedBy(userId));
    var r := SortBy(owned, NewestFirst);
    SortBySorted(owned, NewestFirst);
    SortByMembers(owned, NewestFirst);
    NewestFirstOrder(r);
    r
  }

  /** A list sorted by `NewestFirst` has `createdAt` descending. */
  lemma NewestFirstOrder(r: seq<Ticket>)
    requires SortedBy(r, NewestFirst)
    ensures forall i, j :: 0 <= i < j < |r| ==> r[i].createdAt >= r[j].createdAt
  {
    forall i, j | 0 <= i < j < |r|
      ensures r[i].createdAt >= r[j].createdAt
    {
      assert KeyLe(NewestFirst(r[i]), NewestFirst(r[j]));
    }
  }

  /** A ticket `callNextTicket` may pick for `serviceId`. */
  predicate Callable(t: Ticket, serviceId: int) {
    t.serviceId == serviceId && t.status == Waiting
  }

  /**
   * `findOne({ where: { serviceId, status: 'waiting' }, order: [['createdAt', 'ASC']] })`:
   * the position of the oldest waiting ticket of the service; among equally
   * old ones, the first in table order.
   */
  function OldestWaiting(tickets: seq<Ticket>, serviceId: int): (r: Option<nat>)
    ensures r.None? <==> forall j :: 0 <= j < |tickets| ==> !Callable(tickets[j], serviceId)
    ensures r.Some? ==> r.value < |tickets| && Callable(tickets[r.value], serviceId)
    ensures r.Some? ==> forall j :: 0 <= j < |tickets| && Callable(tickets[j], serviceId) ==>
      tickets[r.value].createdAt <= tickets[j].createdAt
    ensures r.Some? ==> forall j :: 0 <= j < r.value && Callable(tickets[j], serviceId) ==>
      tickets[j].createdAt > tickets[r.value].createdAt
  {
    if tickets == [] then None
    else
      var rest := OldestWaiting(tickets[1..], serviceId);
      if !Callable(tickets[0], serviceId) then
        (match rest case None => None case Some(i) => Some(i + 1))
      else if rest.None? || tickets[0].createdAt <= tickets[1 + rest.value].createdAt then Some(0)
      else Some(rest.value + 1)
  }

  // ---------------------------------------------------------------------
  // Updates of one ticket
  // ---------------------------------------------------------------------

  /** Activation: status `waiting`, `scannedAt` now (and `updatedAt`, set by `save`); nothing else. */
  function Activated(t: Ticket, now: int): (a: Ticket)
    ensures a.status == Waiting && a.scannedAt == Some(now) && a.updatedAt == now
    ensures a.(status := t.status, scannedAt := t.scannedAt, updatedAt := t.updatedAt) == t
  {
    t.(status := Waiting, scannedAt := Some(now), updatedAt := now)
  }

  /** Claim by a counter: status `serving`, `counterId` set (and `updatedAt`); nothing else. */
  function Claimed(t: Ticket, counterId: int, now: int): (c: Ticket)
    ensures c.status == Serving && c.counterId == Some(counterId) && c.updatedAt == now
    ensures c.(status := t.status, counterId := t.counterId, updatedAt := t.updatedAt) == t
  {
    t.(status := Serving, counterId := Some(counterId), updatedAt := now)
  }

  /** A new row as `Ticket.create` stores it for the handlers. */
  predicate IsNewTicket(t: Ticket, id: int, number: int, name: string, serviceId: int, userId: Option<int>, now: int) {
    t == Ticket(id, number, Pending, name, serviceId, userId, None, now, now, None, None, None, None)
  }

  // ---------------------------------------------------------------------
  // The table and its handlers
  // ---------------------------------------------------------------------

  class TicketTable {
    var tickets: seq<Ticket>
    var nextId: int

    /** Auto-increment ids (increasing, below `nextId`) and numbers increasing per service. */
    ghost predicate Valid()
      reads this
    {
      && nextId >= 1
      && (forall i :: 0 <= i < |tickets| ==> 0 < tickets[i].id < nextId)
      && (forall i, j :: 0 <= i < j < |tickets| ==> tickets[i].id < tickets[j].id)
      && NumberedInOrder(tickets)
    }

    constructor ()
      ensures Valid() && tickets == [] && nextId == 1
    {
      tickets := [];
      nextId := 1;
    }

    /** `Ticket.create` of a `pending` ticket with the service's next number. */
    method Insert(name: string, serviceId: int, userId: Option<int>, now: int) returns (t: Ticket)
      requires Valid()
      modifies this
      ensures Valid()
      ensures IsNewTicket(t, old(nextId), NextTicketNumber(old(tickets), serviceId), name, serviceId, userId, now)
      ensures tickets == old(tickets) + [t] && nextId == old(nextId) + 1
    {
      var number := NextTicketNumber(tickets, serviceId);
      ParseStatusName(Pending);
      var built := BuildTicket(Row(number, StatusName(Pending), name, serviceId, userId), nextId, now);
      t := built.value;
      NumberedInOrderAppend(tickets, t);
      tickets := tickets + [t];
      nextId := nextId + 1;
    }

    /** `createTicket` (current handler). */
    method CreateTicket(customerName: Option<string>, serviceId: Option<int>, user: Option<Decoded>, now: int)
      returns (r: Result<Ticket>)
      requires Valid()
      modifies this
      ensures Valid()
      ensures !HasRequiredFields(customerName, serviceId) ==>
        r == Failure(BadRequest(MISSING_FIELDS)) && tickets == old(tickets) && nextId == old(nextId)
      ensures HasRequiredFields(customerName, serviceId) ==>
        && r.Success? && r.status == CREATED
        && IsNewTicket(r.value, old(nextId), NextTicketNumber(old(tickets), serviceId.value),
                       customerName.value, serviceId.value, StoredUserId(ExtractUserId(user)), now)
        && tickets == old(tickets) + [r.value] && nextId == old(nextId) + 1
    {
      if !HasRequiredFields(customerName, serviceId) {
        return Failure(BadRequest(MISSING_FIELDS));
      }
      var userId := StoredUserId(ExtractUserId(user));
      var t := Insert(customerName.value, serviceId.value, userId, now);
      r := Success(CREATED, t);
    }

    /** `createTicket` (older handler): the caller's raw `id` claim is stored. */
    method LegacyCreateTicket(customerName: Option<string>, serviceId: Option<int>, caller: Option<int>, now: int)
      returns (r: Result<Ticket>)
      requires Valid()
      modifies this
      ensures Valid()
      ensures !HasRequiredFields(customerName, serviceId) ==>
        r == Failure(BadRequest(MISSING_FIELDS)) && tickets == old(tickets) && nextId == old(nextId)
      ensures HasRequiredFields(customerName, serviceId) ==>
        && r.Success? && r.status == CREATED
        && IsNewTicket(r.value, old(nextId), NextTicketNumber(old(tickets), serviceId.value),
                       customerName.value, serviceId.value, caller, now)
        && tickets == old(tickets) + [r.value] && nextId == old(nextId) + 1
    {
      if !HasRequiredFields(customerName, serviceId) {
        return Failure(BadRequest(MISSING_FIELDS));
      }
      var t := Insert(customerName.value, serviceId.value, caller, now);
      r := Success(CREATED, t);
    }

    /** `getAllTickets`. */
    method GetAllTickets() returns (r: Result<seq<Ticket>>)
      ensures r == Success(OK, tickets)
    {
      r := Success(OK, tickets);
    }

    /** `getUserTickets` (current handler). */
    method GetUserTickets(user: Option<Decoded>) returns (r: Result<seq<Ticket>>)
      ensures !IsTruthy(ExtractUserId(user)) ==> r == Failure(BadRequest(NO_USER_ID))
      ensures IsTruthy(ExtractUserId(user)) ==>
        r == Success(OK, UserTickets(tickets, ExtractUserId(user).value))
    {
      var userId := ExtractUserId(user);
      if !IsTruthy(userId) {
        return Failure(BadRequest(NO_USER_ID));
      }
      r := Success(OK, UserTickets(tickets, userId.value));
    }

    /** `getUserTickets` (older handler). */
    method LegacyGetUserTickets(caller: Option<int>) returns (r: Result<seq<Ticket>>)
      ensures (caller.None? || caller.value == 0) ==> r == Failure(BadRequest(LEGACY_NO_USER_ID))
      ensures caller.Some? && caller.value != 0 ==> r == Success(OK, UserTickets(tickets, caller.value))
    {
      if caller.None? || caller.value == 0 {
        return Failure(BadRequest(LEGACY_NO_USER_ID));
      }
      r := Success(OK, UserTickets(tickets, caller.value));
    }

    /** Replaces the ticket at `i` by one with the same id, number and service. */
    method Update(i: nat, t: Ticket)
      requires Valid() && i < |tickets|
      requires t.id == tickets[i].id && t.ticketNumber == tickets[i].ticketNumber
      requires t.serviceId == tickets[i].serviceId
      modifies this
      ensures Valid()
      ensures tickets == old(tickets)[i := t] && nextId == old(nextId)
    {
      tickets := tickets[i := t];
    }

    /** `activateTicket` (current handler); `id` is the route parameter. */
    method ActivateTicket(id: string, user: Option<Decoded>, now: int) returns (r: Result<Ticket>)
      requires Valid()
      modifies this
      ensures Valid()
      ensures r.Failure? ==> tickets == old(tickets) && nextId == old(nextId)
      ensures id == "" ==> r == Failure(BadRequest(ID_REQUIRED))
      ensures id != "" && ParseInt(id).None? ==> r == Failure(BadRequest(INVALID_ID))
      ensures id != "" && ParseInt(id).Some? ==>
        match FindById(old(tickets), ParseInt(id).value)
        case None => r == Failure(NotFound(TICKET_NOT_FOUND))
        case Some(i) =>
          if RefusesActivation(ExtractUserId(user), old(tickets)[i].userId) then
            r == Failure(Forbidden(NOT_OWNER))
          else
            r == Success(OK, Activated(old(tickets)[i], now))
            && tickets == old(tickets)[i := r.value] && nextId == old(nextId)
    {
      var userId := ExtractUserId(user);
      if id == "" {
        return Failure(BadRequest(ID_REQUIRED));
      }
      var ticketId := ParseInt(id);
      if ticketId.None? {
        return Failure(BadRequest(INVALID_ID));
      }
      var found := FindById(tickets, ticketId.value);
      if found.None? {
        return Failure(NotFound(TICKET_NOT_FOUND));
      }
      var i := found.value;
      if RefusesActivation(userId, tickets[i].userId) {
        return Failure(Forbidden(NOT_OWNER));
      }
      var t := Activated(tickets[i], now);
      Update(i, t);
      r := Success(OK, t);
    }

    /** `activateTicket` (older handler): an unparsable id finds no ticket. */
    method LegacyActivateTicket(id: string, caller: Option<int>, now: int) returns (r: Result<Ticket>)
      requires Valid()
      modifies this
      ensures Valid()
      ensures r.Failure? ==> tickets == old(tickets) && nextId == old(nextId)
      ensures ParseInt(id).None? ==> r == Failure(NotFound(TICKET_NOT_FOUND))
      ensures ParseInt(id).Some? ==>
        match FindById(old(tickets), ParseInt(id).value)
        case None => r == Failure(NotFound(TICKET_NOT_FOUND))
        case Some(i) =>
          if LegacyRefusesActivation(caller, old(tickets)[i].userId) then
            r == Failure(Forbidden(NOT_OWNER))
          else
            r == Success(OK, Activated(old(tickets)[i], now))
            && tickets == old(tickets)[i := r.value] && nextId == old(nextId)
    {
      var ticketId := ParseInt(id);
      var found := if ticketId.None? then None else FindById(tickets, ticketId.value);
      if found.None? {
        return Failure(NotFound(TICKET_NOT_FOUND));
      }
      var i := found.value;
      if LegacyRefusesActivation(caller, tickets[i].userId) {
        return Failure(Forbidden(NOT_OWNER));
      }
      var t := Activated(tickets[i], now);
      Update(i, t);
      r := Success(OK, t);
    }

    /** `callNextTicket`: the oldest `waiting` ticket of the service goes to the counter. */
    method CallNextTicket(counterId: int, serviceId: int, now: int) returns (r: Result<Ticket>)
      requires Valid()
      modifies this
      ensures Valid()
      ensures match OldestWaiting(old(tickets), serviceId)
        case None =>
          r == Failure(NotFound(NO_PENDING)) && tickets == old(tickets) && nextId == old(nextId)
        case Some(i) =>
          r == Success(OK, Claimed(old(tickets)[i], counterId, now))
          && tickets == old(tickets)[i := r.value] && nextId == old(nextId)
    {
      var found := OldestWaiting(tickets, serviceId);
      if found.None? {
        return Failure(NotFound(NO_PENDING));
      }
      var i := found.value;
      var t := Claimed(tickets[i], counterId, now);
      Update(i, t);
      r := Success(OK, t);
    }
  }
}
