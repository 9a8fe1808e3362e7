/**
 * The client's service store: the services last fetched and the
 * loading/error flags. The server's answers are parameters.
 */
module ServicesSlice {
  import opened Wrappers
  import opened Lists

  /** A service as the client holds it; `averageServiceTime` (minutes) is absent until set. */
  datatype Service = Service(id: int, name: string, description: string, averageServiceTime: Option<int>)

  function ServiceId(s: Service): int {
    s.id
  }

  class ServicesState {
    var services: seq<Service>
    var loading: bool
    var error: Option<string>

    constructor ()
      ensures services == [] && !loading && error == None
    {
      services := [];
      loading := false;
      error := None;
    }

    /** `updateAverageServiceTime`: the first service with that id gets the time; others are untouched. */
    method UpdateAverageServiceTime(serviceId: int, time: int)
      modifies this
      ensures Ids(services, ServiceId) == Ids(old(services), ServiceId)
      ensures match FindFirst(old(services), WithId(ServiceId, serviceId))
        case None => services == old(services)
        case Some(i) => services == old(services)[i := old(services)[i].(averageServiceTime := Some(time))]
      ensures loading == old(loading) && error == old(error)
    {
      var found := FindFirst(services, WithId(ServiceId, serviceId));
      if found.Some? {
        var i := found.value;
        services := services[i := services[i].(averageServiceTime := Some(time))];
      }
    }

    /** `fetchServices.pending`. */
    method FetchPending()
      modifies this
      ensures loading && error == None && services == old(services)
    {
      loading := true;
      error := None;
    }

    /** `fetchServices.fulfilled`: the list is the server's answer; `error` is kept. */
    method FetchFulfilled(payload: seq<Service>)
      modifies this
      ensures !loading && services == payload && error == old(error)
    {
      loading := false;
      services := payload;
    }

    /** `fetchServices.rejected`: the list is kept. */
    method FetchRejected(message: string)
      modifies this
      ensures !loading && error == Some(message) && services == old(services)
    {
      loading := false;
      error := Some(message);
    }

    /** `addService.fulfilled`: the created service is appended. */
    method AddFulfilled(s: Service)
      modifies this
      ensures services == old(services) + [s]
      ensures loading == old(loading) && error == old(error)
    {
      services := services + [s];
    }

    /** `deleteService.fulfilled`: every service with that id is dropped, the others keep their order. */
    method DeleteFulfilled(serviceId: int)
      modifies this
      ensures services == RemoveById(old(services), ServiceId, serviceId)
      ensures loading == old(loading) && error == old(error)
    {
      services := Filter(services, WithoutId(ServiceId, serviceId));
    }

    /** `updateService.fulfilled`: the server's copy replaces the stored one. */
    method UpdateFulfilled(s: Service)
      modifies this
      ensures services == ReplaceById(old(services), ServiceId, s)
      ensures loading == old(loading) && error == old(error)
    {
      var found := FindFirst(services, WithId(ServiceId, s.id));
      if found.Some? {
        services := services[found.value := s];
      }
    }
  }
}
