/**
 * `sigmafive::game::component_system_manager`: at most one component system per
 * class, kept in a map keyed by the class's `CLASS_ID`.  The template parameter `T`
 * of each operation is represented by its `CLASS_ID` value.
 */
module ComponentSystems {

  /** `cppbr::meta::class_uid`, the identifier `T::CLASS_ID` of a class. */
  type ClassUid = nat

  /** A component system object; it knows the class it was created as. */
  class ComponentSystem {
    const classId: ClassUid

    constructor (classId: ClassUid)
      ensures this.classId == classId
    {
      this.classId := classId;
    }
  }

  class ComponentSystemManager {
    /** `component_systems_`; the map owns its systems (`unique_ptr`). */
    var systems: map<ClassUid, ComponentSystem>

    /** Every entry is a system of the class it is filed under. */
    ghost predicate Valid()
      reads this
    {
      forall id :: id in systems ==> systems[id].classId == id
    }

    constructor ()
      ensures Valid() && systems == map[]
    {
      systems := map[];
    }

    /** `has_component_system<T>()`. */
    predicate Has(id: ClassUid)
      reads this
    {
      id in systems
    }

    /** `get_component_system<T>()`: the system filed under `id`, or null when there is none. */
    function Get(id: ClassUid): (r: ComponentSystem?)
      requires Valid()
      reads this
      ensures r == null <==> !Has(id)
      ensures r != null ==> r.classId == id && r == systems[id]
    {
      if id in systems then systems[id] else null
    }

    /**
     * `add_component_system<T>()`: a new system is created and filed under `id`,
     * replacing any system already there; the new system is returned.
     */
    method Add(id: ClassUid) returns (s: ComponentSystem)
      requires Valid()
      modifies this
      ensures Valid() && fresh(s)
      ensures Has(id) && Get(id) == s && s.classId == id
      ensures systems == old(systems)[id := s]
      ensures forall other :: other != id ==> (Has(other) <==> old(Has(other))) && Get(other) == old(Get(other))
    {
      s := new ComponentSystem(id);
      systems := systems[id := s];
    }

    /** `remove_component_system<T>()`: the entry for `id` is erased; nothing happens when there is none. */
    method Remove(id: ClassUid)
      requires Valid()
      modifies this
      ensures Valid() && !Has(id) && Get(id) == null
      ensures systems == old(systems) - {id}
      ensures !old(Has(id)) ==> systems == old(systems)
      ensures forall other :: other != id ==> (Has(other) <==> old(Has(other))) && Get(other) == old(Get(other))
    {
      if id in systems {
        systems := systems - {id};
      }
    }
  }
}
