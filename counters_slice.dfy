/**
 * The client's counter store: the counters last fetched and the
 * loading/error flags. The server's answers are parameters.
 */
module CountersSlice {
  import opened Wrappers
  import opened Lists

  /**
   * A counter as the client holds it: the server's row (`userId`,
   * `serviceId` may be null) plus the client-only `currentTicket` label and
   * `isActive` flag (absent until first set).
   */
  datatype Counter = Counter(
    id: int,
    name: string,
    userId: Option<int>,
    serviceId: Option<int>,
    currentTicket: Option<string>,
    isActive: Option<bool>)

  function CounterId(c: Counter): int {
    c.id
  }

  /** `!counter.isActive`: an absent flag counts as false, so it toggles to true. */
  function Toggled(isActive: Option<bool>): (b: bool)
    ensures b <==> isActive != Some(true)
  {
    match isActive
    case None => true
    case Some(v) => !v
  }

  /** Toggling a defined flag twice restores it. */
  lemma ToggleTwice(b: bool)
    ensures Toggled(Some(Toggled(Some(b)))) == b
  {
  }

  /** Toggling an absent flag twice leaves it defined and false. */
  lemma ToggleTwiceFromAbsent()
    ensures Toggled(Some(Toggled(None))) == false
  {
  }

  class CountersState {
    var counters: seq<Counter>
    var loading: bool
    var error: Option<string>

    constructor ()
      ensures counters == [] && !loading && error == None
    {
      counters := [];
      loading := false;
      error := None;
    }

    /** `setCurrentTicket`: the first counter with that id shows the ticket number (or none). */
    method SetCurrentTicket(counterId: int, ticketNumber: Option<string>)
      modifies this
      ensures Ids(counters, CounterId) == Ids(old(counters), CounterId)
      ensures match FindFirst(old(counters), WithId(CounterId, counterId))
        case None => counters == old(counters)
        case Some(i) => counters == old(counters)[i := old(counters)[i].(currentTicket := ticketNumber)]
      ensures loading == old(loading) && error == old(error)
    {
      var found := FindFirst(counters, WithId(CounterId, counterId));
      if found.Some? {
        var i := found.value;
        counters := counters[i := counters[i].(currentTicket := ticketNumber)];
      }
    }

    /** `toggleCounterActive`: the first counter with that id flips its `isActive` flag. */
    method ToggleCounterActive(counterId: int)
      modifies this
      ensures Ids(counters, CounterId) == Ids(old(counters), CounterId)
      ensures match FindFirst(old(counters), WithId(CounterId, counterId))
        case None => counters == old(counters)
        case Some(i) =>
          counters == old(counters)[i := old(counters)[i].(isActive := Some(Toggled(old(counters)[i].isActive)))]
      ensures loading == old(loading) && error == old(error)
    {
      var found := FindFirst(counters, WithId(CounterId, counterId));
      if found.Some? {
        var i := found.value;
        counters := counters[i := counters[i].(isActive := Some(Toggled(counters[i].isActive)))];
      }
    }

    /** `fetchCounters.pending`. */
    method FetchPending()
      modifies this
      ensures loading && error == None && counters == old(counters)
    {
      loading := true;
      error := None;
    }

    /** `fetchCounters.fulfilled`: the list is the server's answer; `error` is kept. */
    method FetchFulfilled(payload: seq<Counter>)
      modifies this
      ensures !loading && counters == payload && error == old(error)
    {
      loading := false;
      counters := payload;
    }

    /** `fetchCounters.rejected`: the list is kept. */
    method FetchRejected(message: string)
      modifies this
      ensures !loading && error == Some(message) && counters == old(counters)
    {
      loading := false;
      error := Some(message);
    }

    /** `addCounter.fulfilled`: the created counter is appended. */
    method AddFulfilled(c: Counter)
      modifies this
      ensures counters == old(counters) + [c]
      ensures loading == old(loading) && error == old(error)
    {
      counters := counters + [c];
    }

    /** `deleteCounter.fulfilled`: every counter with that id is dropped, the others keep their order. */
    method DeleteFulfilled(counterId: int)
      modifies this
      ensures counters == RemoveById(old(counters), CounterId, counterId)
      ensures loading == old(loading) && error == old(error)
    {
      counters := Filter(counters, WithoutId(CounterId, counterId));
    }

    /** `updateCounter.fulfilled` and `assignServiceToCounter.fulfilled`: the server's copy replaces the stored one. */
    method ReplaceFulfilled(c: Counter)
      modifies this
      ensures counters == ReplaceById(old(counters), CounterId, c)
      ensures loading == old(loading) && error == old(error)
    {
      var found := FindFirst(counters, WithId(CounterId, c.id));
      if found.Some? {
        counters := counters[found.value := c];
      }
    }
  }
}
