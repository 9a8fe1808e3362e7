/**
 * The counter handlers of the server: create, list, delete and assign a
 * service, each one step on the `counters` table.
 */
module CountersController {
  import opened Wrappers
  import opened Lists
  import opened Http

  /** A row of the `counters` table; `userId` (the staff member) and `serviceId` may be null. */
  datatype Counter = Counter(id: int, name: string, userId: Option<int>, serviceId: Option<int>)

  const NAME_REQUIRED := "Counter name is required"
  const COUNTER_DELETED := "Counter deleted"
  const COUNTER_NOT_FOUND := "Counter not found"

  function RowId(c: Counter): int {
    c.id
  }

  function HasId(id: int): Counter -> bool {
    (c: Counter) => c.id == id
  }

  function OtherThan(id: int): Counter -> bool {
    (c: Counter) => c.id != id
  }

  /** `!name` is false: a name is present and not empty. */
  predicate HasName(name: Option<string>) {
    name.Some? && name.value != ""
  }

  /** Auto-increment ids: positive, below `nextId`, increasing in table order. */
  ghost predicate IdsValid(counters: seq<Counter>, nextId: int) {
    && nextId >= 1
    && (forall i :: 0 <= i < |counters| ==> 0 < counters[i].id < nextId)
    && (forall i, j :: 0 <= i < j < |counters| ==> counters[i].id < counters[j].id)
  }

  /** With distinct ids, `destroy({ where: { id } })` removes one row when the id exists and none otherwise. */
  lemma DestroyCount(counters: seq<Counter>, nextId: int, id: int)
    requires IdsValid(counters, nextId)
    ensures (exists i :: 0 <= i < |counters| && counters[i].id == id) ==>
      |Filter(counters, OtherThan(id))| == |counters| - 1
    ensures (forall i :: 0 <= i < |counters| ==> counters[i].id != id) ==>
      Filter(counters, OtherThan(id)) == counters
  {
    if k :| 0 <= k < |counters| && counters[k].id == id {
      FilterDropsOne(counters, OtherThan(id), k);
    } else {
      FilterKeepsAll(counters, OtherThan(id));
    }
  }

  class CounterTable {
    var counters: seq<Counter>
    var nextId: int

    ghost predicate Valid()
      reads this
    {
      IdsValid(counters, nextId)
    }

    constructor ()
      ensures Valid() && counters == [] && nextId == 1
    {
      counters := [];
      nextId := 1;
    }

    /** `createCounter`: 400 without a name, else a new row with the next id. */
    method CreateCounter(name: Option<string>, userId: Option<int>, serviceId: Option<int>)
      returns (r: Result<Counter>)
      requires Valid()
      modifies this
      ensures Valid()
      ensures !HasName(name) ==>
        r == Failure(BadRequest(NAME_REQUIRED)) && counters == old(counters) && nextId == old(nextId)
      ensures HasName(name) ==>
        && r == Success(CREATED, Counter(old(nextId), name.value, userId, serviceId))
        && counters == old(counters) + [r.value] && nextId == old(nextId) + 1
    {
      if !HasName(name) {
        return Failure(BadRequest(NAME_REQUIRED));
      }
      var c := Counter(nextId, name.value, userId, serviceId);
      counters := counters + [c];
      nextId := nextId + 1;
      r := Success(CREATED, c);
    }

    /** `getCounters`: every row, in table order. */
    method GetCounters() returns (r: Result<seq<Counter>>)
      ensures r == Success(OK, counters)
    {
      r := Success(OK, counters);
    }

    /**
     * `deleteCounter`: the row with that id is removed; the response tells
     * whether a row was removed.
     */
    method DeleteCounter(id: int) returns (r: Result<string>)
      requires Valid()
      modifies this
      ensures Valid() && nextId == old(nextId)
      ensures counters == Filter(old(counters), OtherThan(id))
      ensures (exists i :: 0 <= i < |old(counters)| && old(counters)[i].id == id) ==>
        r == Success(OK, COUNTER_DELETED) && |counters| == |old(counters)| - 1
      ensures (forall i :: 0 <= i < |old(counters)| ==> old(counters)[i].id != id) ==>
        r == Failure(NotFound(COUNTER_NOT_FOUND)) && counters == old(counters)
    {
      DestroyCount(counters, nextId, id);
      var remaining := Filter(counters, OtherThan(id));
      var deleted := |counters| - |remaining|;
      FilterKeepsIncreasing(counters, OtherThan(id), RowId);
      counters := remaining;
      if deleted != 0 {
        r := Success(OK, COUNTER_DELETED);
      } else {
        r := Failure(NotFound(COUNTER_NOT_FOUND));
      }
    }

    /** `assignServiceToCounter`: 404 for an unknown id, else that row's `serviceId` is replaced. */
    method AssignServiceToCounter(id: int, serviceId: Option<int>) returns (r: Result<Counter>)
      requires Valid()
      modifies this
      ensures Valid() && nextId == old(nextId)
      ensures match FindFirst(old(counters), HasId(id))
        case None => r == Failure(NotFound(COUNTER_NOT_FOUND)) && counters == old(counters)
        case Some(i) =>
          r == Success(OK, old(counters)[i].(serviceId := serviceId))
          && counters == old(counters)[i := r.value]
    {
      var found := FindFirst(counters, HasId(id));
      if found.None? {
        return Failure(NotFound(COUNTER_NOT_FOUND));
      }
      var c := counters[found.value].(serviceId := serviceId);
      counters := counters[found.value := c];
      r := Success(OK, c);
    }
  }
}
