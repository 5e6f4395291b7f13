// impl/singleton.py: `Singleton.__new__` keeps one class-level dictionary from
// class to instance, shared by every subclass. The services that derive from it
// (AbstractBaseService, the newer ClicksService) guard their `__init__` with
// `hasattr(self, 'repository')`, so only the first construction sets the
// repository. A repository object is represented by an integer identity.

module Singleton {
  import opened Wrappers

  /** An instance of a Singleton subclass; `repository` is None until `__init__` first sets it. */
  class Service {
    const cls: string
    var repository: Option<int>

    constructor (cls: string)
      ensures this.cls == cls && repository == None
    {
      this.cls := cls;
      repository := None;
    }
  }

  /** `Singleton._instances`. */
  class Registry {
    var instances: map<string, Service>

    /** Every stored instance is an instance of the class it is stored under. */
    predicate Valid()
      reads this
    {
      forall c :: c in instances ==> instances[c].cls == c
    }

    constructor ()
      ensures Valid() && instances == map[]
    {
      instances := map[];
    }

    /** `cls(...)`'s `__new__`: the stored instance, or a fresh one stored on first use; arguments are ignored. */
    method New(cls: string) returns (inst: Service)
      requires Valid()
      modifies this
      ensures Valid() && inst.cls == cls
      ensures cls in old(instances) ==> inst == old(instances)[cls] && instances == old(instances)
      ensures cls !in old(instances) ==> fresh(inst) && inst.repository == None && instances == old(instances)[cls := inst]
    {
      if cls !in instances {
        var created := new Service(cls);
        instances := instances[cls := created];
      }
      inst := instances[cls];
    }
  }

  /** `__init__` with the hasattr guard: the repository is set only when none is held yet. */
  method InitGuarded(inst: Service, repository: int)
    modifies inst
    ensures inst.repository == if old(inst.repository).None? then Some(repository) else old(inst.repository)
  {
    if inst.repository.None? {
      inst.repository := Some(repository);
    }
  }

  /** A construction `cls(repository)` of a guarded Singleton service. */
  method Construct(reg: Registry, cls: string, repository: int) returns (inst: Service)
    requires reg.Valid()
    modifies reg, if cls in reg.instances then {reg.instances[cls]} else {}
    ensures reg.Valid() && inst.cls == cls && inst.repository.Some?
    ensures cls in old(reg.instances) ==>
      && inst == old(reg.instances)[cls] && reg.instances == old(reg.instances)
      && inst.repository == if old(reg.instances[cls].repository).None? then Some(repository) else old(reg.instances[cls].repository)
    ensures cls !in old(reg.instances) ==>
      && fresh(inst) && inst.repository == Some(repository)
      && reg.instances == old(reg.instances)[cls := inst]
  {
    inst := reg.New(cls);
    InitGuarded(inst, repository);
  }

  /**
   * Constructing a service twice, with two repositories, gives one object that
   * keeps the first repository; a different class gets a different object.
   */
  method ConstructTwice(cls: string, other: string, first: int, second: int)
    returns (a: Service, b: Service, c: Service)
    requires cls != other
    ensures a == b && b.repository == Some(first)
    ensures c != a && c.cls == other
  {
    var reg := new Registry();
    a := Construct(reg, cls, first);
    b := Construct(reg, cls, second);
    c := Construct(reg, other, second);
  }
}
