/**
 * The service registry: one instance per service type, registered by the
 * game's bootstrap and looked up by the systems that need it.  A service
 * type is a `Tag`; a null instance is `None`.
 */
module Services {
  import opened Common

  /** `ServiceLocator`, a static class: the program has exactly one. */
  class ServiceLocator<Tag(==, !new), Service> {
    /** `_services`, keyed by `typeof(T)`. */
    var services: map<Tag, Service>

    constructor ()
      ensures services == map[]
    {
      services := map[];
    }

    /**
     * `Register<T>(instance)`: a null instance throws `ArgumentNullException`
     * and changes nothing; otherwise it replaces whatever `T` had.
     */
    method Register(tag: Tag, instance: Option<Service>) returns (r: Outcome<()>)
      modifies this
      ensures instance.None? ==> r == Threw(ArgumentNull) && services == old(services)
      ensures instance.Some? ==> r == Returned(()) && services == old(services)[tag := instance.value]
      // the instance just registered is what `Get` returns
      ensures instance.Some? ==> Get(tag) == Returned(instance.value)
      // no other type's lookup changes
      ensures forall t :: t != tag ==> Get(t) == old(Get(t)) && TryGet(t) == old(TryGet(t))
    {
      if instance.None? {
        return Threw(ArgumentNull);
      }
      services := services[tag := instance.value];
      return Returned(());
    }

    /** `Get<T>()`: the registered instance, or `InvalidOperationException` for an unregistered type. */
    function Get(tag: Tag): (r: Outcome<Service>)
      reads this
      ensures r.Returned? <==> tag in services
      ensures r.Returned? ==> r.value == services[tag]
      ensures r.Threw? ==> r.exception == InvalidOperation
    {
      if tag in services then Returned(services[tag]) else Threw(InvalidOperation)
    }

    /**
     * `TryGet<T>(out service)`: true with the instance exactly when `Get`
     * would return it, otherwise false with null.
     */
    function TryGet(tag: Tag): (r: (bool, Option<Service>))
      reads this
      ensures r.0 <==> Get(tag).Returned?
      ensures r.0 ==> r.1 == Some(Get(tag).value)
      ensures !r.0 ==> r.1 == None
    {
      if tag in services then (true, Some(services[tag])) else (false, None)
    }
  }
}
