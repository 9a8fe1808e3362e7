/**
 * The service handlers of the server: create, list and delete, each one
 * step on the `services` table. Deleting a service touches no other table.
 */
module ServicesController {
  import opened Wrappers
  import opened Lists
  import opened Http
  import CountersController
  import TicketController

  /** A row of the `services` table; `description` may be null. */
  datatype Service = Service(id: int, name: string, description: Option<string>)

  const NAME_REQUIRED := "Service name is required"
  const SERVICE_DELETED := "Service deleted"
  const SERVICE_NOT_FOUND := "Service not found"

  function Keeps(id: int): Service -> bool {
    (s: Service) => s.id != id
  }

  /** `!name` is false: a name is present and not empty. */
  predicate HasName(name: Option<string>) {
    name.Some? && name.value != ""
  }

  predicate Listed(services: seq<Service>, id: int) {
    exists i :: 0 <= i < |services| && services[i].id == id
  }

  function RowId(s: Service): int {
    s.id
  }

  /** With distinct ids, `destroy({ where: { id } })` removes one row when the id is listed and none otherwise. */
  lemma DeleteCount(services: seq<Service>, id: int)
    requires forall i, j :: 0 <= i < j < |services| ==> services[i].id < services[j].id
    ensures Listed(services, id) ==> |Filter(services, Keeps(id))| == |services| - 1
    ensures !Listed(services, id) ==> Filter(services, Keeps(id)) == services
  {
    if k :| 0 <= k < |services| && services[k].id == id {
      FilterDropsOne(services, Keeps(id), k);
    } else {
      FilterKeepsAll(services, Keeps(id));
    }
  }

  class ServiceTable {
    var services: seq<Service>
    var nextId: int

    /** Auto-increment ids: positive, below `nextId`, increasing in table order. */
    ghost predicate Valid()
      reads this
    {
      && nextId >= 1
      && (forall i :: 0 <= i < |services| ==> 0 < services[i].id < nextId)
      && (forall i, j :: 0 <= i < j < |services| ==> services[i].id < services[j].id)
    }

    constructor ()
      ensures Valid() && services == [] && nextId == 1
    {
      services := [];
      nextId := 1;
    }

    /** `createService`: 400 without a name, else a new row with the next id. */
    method CreateService(name: Option<string>, description: Option<string>) returns (r: Result<Service>)
      requires Valid()
      modifies this
      ensures Valid()
      ensures !HasName(name) ==>
        r == Failure(BadRequest(NAME_REQUIRED)) && services == old(services) && nextId == old(nextId)
      ensures HasName(name) ==>
        && r == Success(CREATED, Service(old(nextId), name.value, description))
        && services == old(services) + [r.value] && nextId == old(nextId) + 1
    {
      if !HasName(name) {
        return Failure(BadRequest(NAME_REQUIRED));
      }
      var s := Service(nextId, name.value, description);
      services := services + [s];
      nextId := nextId + 1;
      r := Success(CREATED, s);
    }

    /** `getServices`: every row, in table order. */
    method GetServices() returns (r: Result<seq<Service>>)
      ensures r == Success(OK, services)
    {
      r := Success(OK, services);
    }

    /**
     * `deleteService`: the row with that id is removed (exactly one row, ids
     * being unique); the response tells whether a row was removed.
     */
    method DeleteService(id: int) returns (r: Result<string>)
      requires Valid()
      modifies this
      ensures Valid() && nextId == old(nextId)
      ensures services == Filter(old(services), Keeps(id))
      ensures Listed(old(services), id) ==>
        r == Success(OK, SERVICE_DELETED) && |services| == |old(services)| - 1
      ensures !Listed(old(services), id) ==>
        r == Failure(NotFound(SERVICE_NOT_FOUND)) && services == old(services)
    {
      var remaining := Filter(services, Keeps(id));
      DeleteCount(services, id);
      FilterKeepsIncreasing(services, Keeps(id), RowId);
      var deleted := |services| - |remaining|;
      services := remaining;
      if deleted != 0 {
        r := Success(OK, SERVICE_DELETED);
      } else {
        r := Failure(NotFound(SERVICE_NOT_FOUND));
      }
    }
  }

  /**
   * Deleting a service is one step on the `services` table alone: counters
   * and tickets that refer to the service keep their `serviceId`.
   */
  method DeleteServiceWithReferences(services: ServiceTable, counters: CountersController.CounterTable,
                                     tickets: TicketController.TicketTable, id: int)
    returns (r: Result<string>)
    requires services.Valid()
    modifies services
    ensures services.Valid()
    ensures services.services == Filter(old(services.services), Keeps(id))
    ensures r.Success? <==> Listed(old(services.services), id)
    ensures counters.counters == old(counters.counters)
    ensures tickets.tickets == old(tickets.tickets) && tickets.nextId == old(tickets.nextId)
  {
    r := services.DeleteService(id);
  }
}
