/** The service container, as far as shared instances go. */
module Container {
  import opened Text

  /** An object a handler class yields; method names are in lower case. */
  datatype Handler = Handler(id: nat, methods: set<string>)

  /** What resolving a service yields: an object, or a value that is not one. */
  datatype Instance = Object(handler: Handler) | Scalar(truthy: bool)

  predicate Truthy(i: Instance) {
    i.Object? || i.truthy
  }

  datatype Services = Services(names: set<string>, shared: map<string, Instance>, freshInstance: bool)

  /** The end of `getShared`: `found` says whether the name had an instance when
      it was asked for, `resolved` is that instance or what resolution yielded. */
  function Shared(di: Services, name: string, found: bool, resolved: Instance): Services {
    if found then di.(freshInstance := false)
    else if Truthy(resolved) then di.(freshInstance := true, shared := di.shared[name := resolved])
    else di
  }

  function SetRaw(di: Services, name: string, shared: bool): Services {
    Services(di.names + {name}, if shared then di.shared - {name} else di.shared, di.freshInstance)
  }

  function Remove(di: Services, name: string): Services {
    di.(names := di.names - {name})
  }

  /** The clone of a container: it knows the services and holds no instance. */
  function Cloned(di: Services): Services {
    di.(shared := map[])
  }

  class Di {
    var services: set<string>
    var sharedInstances: map<string, Instance>
    var freshInstance: bool

    function Snapshot(): Services
      reads this
    {
      Services(services, sharedInstances, freshInstance)
    }

    constructor ()
      ensures Snapshot() == Services({}, map[], false)
    {
      services, sharedInstances, freshInstance := {}, map[], false;
    }

    method FinishShared(name: string, found: bool, resolved: Instance)
      modifies this
      ensures Snapshot() == Shared(old(Snapshot()), name, found, resolved)
    {
      if found {
        freshInstance := false;
      } else if Truthy(resolved) {
        freshInstance := true;
        sharedInstances := sharedInstances[name := resolved];
      }
    }

    /** `getShared`, where resolution, which yields `resolved`, leaves the container alone. */
    method GetShared(name: string, resolved: Instance) returns (instance: Instance)
      modifies this
      ensures Snapshot() == Shared(old(Snapshot()), name, name in old(sharedInstances), instance)
      ensures name in old(sharedInstances) ==>
                instance == old(sharedInstances[name]) && !freshInstance && sharedInstances == old(sharedInstances)
      ensures name !in old(sharedInstances) ==> instance == resolved
      ensures name !in old(sharedInstances) && Truthy(resolved) ==>
                freshInstance && sharedInstances == old(sharedInstances)[name := resolved]
      ensures name !in old(sharedInstances) && !Truthy(resolved) ==>
                freshInstance == old(freshInstance) && sharedInstances == old(sharedInstances)
    {
      var found := name in sharedInstances;
      instance := if found then sharedInstances[name] else resolved;
      FinishShared(name, found, instance);
    }

    method SetService(name: string, shared: bool)
      modifies this
      ensures Snapshot() == SetRaw(old(Snapshot()), name, shared)
    {
      services := services + {name};
      if shared {
        sharedInstances := sharedInstances - {name};
      }
    }

    method RemoveService(name: string)
      modifies this`services
      ensures Snapshot() == Remove(old(Snapshot()), name)
    {
      services := services - {name};
    }

    /** `clone`: `__clone` empties the new object; this one stays as it was. */
    method Clone() returns (copy: Di)
      ensures fresh(copy) && copy.Snapshot() == Cloned(Snapshot())
    {
      copy := new Di();
      copy.services, copy.freshInstance := services, freshInstance;
    }
  }
}
