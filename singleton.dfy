/**
 * The per-class instance registry behind `getInstance`: the static
 * `$instances` array, keyed by the late-bound class name and filled on
 * first access.
 */
module Singletons {
  import opened Wrappers
  import opened Php

  const Unserialize := Exception("Cannot unserialize singleton")

  /** An object of a singleton class, known here by its class name. */
  class Instance {
    const cls: string

    constructor(cls: string)
      ensures this.cls == cls
    {
      this.cls := cls;
    }

    /** `__wakeup` is final and always throws, so an instance cannot be unserialized. */
    method Wakeup() returns (o: Outcome<Throwable>)
      ensures o == Fail(Unserialize)
    {
      o := Fail(Unserialize);
    }
  }

  class Registry {
    var instances: map<string, Instance>

    /** Each registered instance belongs to the class it is registered under. */
    ghost predicate Valid()
      reads this, instances.Values
    {
      forall c | c in instances :: instances[c].cls == c
    }

    constructor()
      ensures Valid() && instances == map[]
    {
      instances := map[];
    }

    /**
     * `getInstance` called on `subclass`: the registered instance, created
     * and registered first if there is none; no other class's entry changes.
     */
    method GetInstance(subclass: string) returns (inst: Instance)
      requires Valid()
      modifies this
      ensures Valid()
      ensures inst.cls == subclass && subclass in instances && instances[subclass] == inst
      ensures subclass in old(instances) ==> inst == old(instances)[subclass] && instances == old(instances)
      ensures subclass !in old(instances) ==> fresh(inst) && instances == old(instances)[subclass := inst]
      ensures forall c | c != subclass :: (c in instances <==> c in old(instances))
      ensures forall c | c != subclass && c in instances :: instances[c] == old(instances)[c]
    {
      if subclass !in instances {
        var created := new Instance(subclass);
        instances := instances[subclass := created];
      }
      inst := instances[subclass];
    }
  }
}
