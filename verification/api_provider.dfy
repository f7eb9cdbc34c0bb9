/** `ApiProvider`: a registry of service instances keyed by class. */
module ApiProviding {
  import opened Wrappers
  import opened JavaTypes

  /** The `IllegalArgumentException` of `getService`: the requested class and
      the key set the message lists. The listing order of a `HashMap` key set
      is not modelled, only its contents. */
  datatype ProviderError = ServiceNotRegistered(simpleName: string, available: set<ClassRef>)

  /** What `getService` answers for a map of registered instances, where
      `None` stands for a registered null. */
  function Lookup<S>(services: map<ClassRef, Option<S>>, serviceClass: ClassRef): (r: Result<S, ProviderError>)
    ensures r.Success? <==> serviceClass in services && services[serviceClass].Some?
    ensures r.Success? ==> Some(r.value) == services[serviceClass]
    ensures r.Failure? ==> r.error == ServiceNotRegistered(serviceClass.simpleName, services.Keys)
  {
    if serviceClass in services && services[serviceClass].Some? then Success(services[serviceClass].value)
    else Failure(ServiceNotRegistered(serviceClass.simpleName, services.Keys))
  }

  /** `ApiProvider` for services of one type `S`. */
  class ApiProvider<S> {
    var services: map<ClassRef, Option<S>>

    constructor ()
      ensures services == map[]
    {
      services := map[];
    }

    /** `register`, ApiProvider.java:21-23: a plain `put`, so a null
        instance is stored and a second registration overwrites the first. */
    method Register(serviceClass: ClassRef, serviceInstance: Option<S>)
      modifies this
      ensures services == old(services)[serviceClass := serviceInstance]
    {
      services := services[serviceClass := serviceInstance];
    }

    /** `getService`, ApiProvider.java:31-40. */
    method GetService(serviceClass: ClassRef) returns (r: Result<S, ProviderError>)
      ensures r == Lookup(services, serviceClass)
    {
      var service := if serviceClass in services then services[serviceClass] else None;
      if service.None? {
        return Failure(ServiceNotRegistered(serviceClass.simpleName, services.Keys));
      }
      r := Success(service.value);
    }
  }

  /** After registering a non-null instance the lookup returns it, and
      lookups of other classes are as before. */
  lemma LookupAfterRegister<S>(services: map<ClassRef, Option<S>>, c: ClassRef, x: S, d: ClassRef)
    ensures Lookup(services[c := Some(x)], c) == Success(x)
    ensures d != c && Lookup(services, d).Success? ==> Lookup(services[c := Some(x)], d) == Lookup(services, d)
  {
  }

  /** A registered null fails like an absent class, naming the same class;
      the only difference is that the class itself appears among the
      available ones. */
  lemma RegisteredNullFailsLikeAbsent<S>(services: map<ClassRef, Option<S>>, c: ClassRef)
    requires c !in services
    ensures Lookup(services, c) == Failure(ServiceNotRegistered(c.simpleName, services.Keys))
    ensures Lookup(services[c := None], c) == Failure(ServiceNotRegistered(c.simpleName, services.Keys + {c}))
  {
    assert services[c := None].Keys == services.Keys + {c};
  }

  /** Register, register again, look up: the second instance is returned. */
  method ReRegisterOverwrites<S>(c: ClassRef, first: S, second: S) returns (r: Result<S, ProviderError>)
    ensures r == Success(second)
  {
    var provider := new ApiProvider<S>();
    provider.Register(c, Some(first));
    provider.Register(c, Some(second));
    r := provider.GetService(c);
  }

  /** Registering null and looking up fails with the class named. */
  method RegisterNullThenGet<S>(c: ClassRef) returns (r: Result<S, ProviderError>)
    ensures r == Failure(ServiceNotRegistered(c.simpleName, {c}))
  {
    var provider := new ApiProvider<S>();
    provider.Register(c, None);
    assert provider.services.Keys == {c};
    r := provider.GetService(c);
  }
}
