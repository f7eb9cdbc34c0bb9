/** `ModelBuilder` and `TestDataRegistry`: builders that draw default
    entities from a supplier, and a registry of builders keyed by class. */
module TestData {
  import opened Wrappers
  import opened JavaTypes

  /** A `Supplier<T>`. What it yields is outside the model (random data), so
      the n-th value it produces is a parameter, `gen(n)`, and `calls`
      counts how many values it has produced. */
  class Supplier<T> {
    const gen: nat -> T
    var calls: nat

    constructor (gen: nat -> T)
      ensures this.gen == gen && calls == 0
    {
      this.gen := gen;
      calls := 0;
    }

    /** `get()`: the next value. */
    method Get() returns (x: T)
      modifies this
      ensures x == gen(old(calls)) && calls == old(calls) + 1
    {
      x := gen(calls);
      calls := calls + 1;
    }
  }

  /** The values `n` successive calls produce, starting at call `start`. */
  function Generated<T>(gen: nat -> T, start: nat, n: nat): (s: seq<T>)
    ensures |s| == n
    ensures forall i :: 0 <= i < n ==> s[i] == gen(start + i)
    decreases n
  {
    if n == 0 then [] else Generated(gen, start, n - 1) + [gen(start + n - 1)]
  }

  /** The entity a `Consumer<T>` customizer leaves behind: the customizer
      mutates the entity in place, which on values is a function. */
  type Customizer<!T> = T -> T

  class ModelBuilder<T> {
    const defaultSupplier: Supplier<T>

    /** `ModelBuilder.of(supplier)`, ModelBuilder.java:27-29. */
    constructor Of(defaultSupplier: Supplier<T>)
      ensures this.defaultSupplier == defaultSupplier
    {
      this.defaultSupplier := defaultSupplier;
    }

    /** `build()`, ModelBuilder.java:34-36: exactly one value of the
        supplier. */
    method Build() returns (entity: T)
      modifies defaultSupplier
      ensures entity == defaultSupplier.gen(old(defaultSupplier.calls))
      ensures defaultSupplier.calls == old(defaultSupplier.calls) + 1
    {
      entity := defaultSupplier.Get();
    }

    /** `build(customizer)`, ModelBuilder.java:41-45: one value of the
        supplier, as the customizer leaves it. */
    method BuildWith(customizer: Customizer<T>) returns (entity: T)
      modifies defaultSupplier
      ensures entity == customizer(defaultSupplier.gen(old(defaultSupplier.calls)))
      ensures defaultSupplier.calls == old(defaultSupplier.calls) + 1
    {
      entity := defaultSupplier.Get();
      entity := customizer(entity);
    }

    /** `buildList(count)`, ModelBuilder.java:50-56: `count` values for a
        positive count, none otherwise, each from its own `build()` call, in
        call order. */
    method BuildList(count: Int32) returns (list: seq<T>)
      modifies defaultSupplier
      ensures |list| == if count < 0 then 0 else count
      ensures list == Generated(defaultSupplier.gen, old(defaultSupplier.calls), |list|)
      ensures defaultSupplier.calls == old(defaultSupplier.calls) + |list|
    {
      list := [];
      var i := 0;
      while i < count
        invariant 0 <= i <= (if count < 0 then 0 else count)
        invariant list == Generated(defaultSupplier.gen, old(defaultSupplier.calls), i)
        invariant defaultSupplier.calls == old(defaultSupplier.calls) + i
      {
        var entity := Build();
        list := list + [entity];
        i := i + 1;
      }
    }
  }

  /** The `IllegalArgumentException` of a lookup of an unregistered class. */
  datatype RegistryError = NoBuilderRegistered(simpleName: string)

  /** The text of the exception, TestDataRegistry.java:34-36. */
  function Message(e: RegistryError): (text: string)
    ensures |text| == |"No builder registered for: "| + |e.simpleName|
    ensures text[..|"No builder registered for: "|] == "No builder registered for: "
    ensures text[|"No builder registered for: "|..] == e.simpleName
  {
    "No builder registered for: " + e.simpleName
  }

  /** `TestDataRegistry` for one entity type `T`. */
  class TestDataRegistry<T> {
    var builders: map<ClassRef, ModelBuilder<T>>

    constructor ()
      ensures builders == map[]
    {
      builders := map[];
    }

    /** `register`, TestDataRegistry.java:22-25: a new builder over the
        supplier replaces any earlier one for the class; other classes keep
        theirs. */
    method Register(modelClass: ClassRef, defaultSupplier: Supplier<T>)
      modifies this
      ensures builders.Keys == old(builders).Keys + {modelClass}
      ensures fresh(builders[modelClass]) && builders[modelClass].defaultSupplier == defaultSupplier
      ensures forall c :: c in old(builders) && c != modelClass ==> builders[c] == old(builders)[c]
    {
      var builder := new ModelBuilder.Of(defaultSupplier);
      builders := builders[modelClass := builder];
    }

    /** `getBuilderFor`, TestDataRegistry.java:31-39: the registered builder,
        or an `IllegalArgumentException` naming the class. */
    method GetBuilderFor(modelClass: ClassRef) returns (r: Result<ModelBuilder<T>, RegistryError>)
      ensures r.Success? <==> modelClass in builders
      ensures r.Success? ==> r.value == builders[modelClass]
      ensures r.Failure? ==> r.error == NoBuilderRegistered(modelClass.simpleName)
    {
      if modelClass !in builders {
        return Failure(NoBuilderRegistered(modelClass.simpleName));
      }
      r := Success(builders[modelClass]);
    }

    /** `valid`, TestDataRegistry.java:44-46: `getBuilderFor(c).build()`. */
    method Valid(modelClass: ClassRef) returns (r: Result<T, RegistryError>)
      modifies if modelClass in builders then {builders[modelClass].defaultSupplier} else {}
      ensures modelClass !in builders ==> r == Failure(NoBuilderRegistered(modelClass.simpleName))
      ensures modelClass in builders ==>
                var s := builders[modelClass].defaultSupplier;
                r == Success(s.gen(old(s.calls))) && s.calls == old(s.calls) + 1
    {
      var b := GetBuilderFor(modelClass);
      if b.Failure? {
        return Failure(b.error);
      }
      var entity := b.value.Build();
      r := Success(entity);
    }

    /** `validWith`, TestDataRegistry.java:51-53:
        `getBuilderFor(c).build(customizer)`. */
    method ValidWith(modelClass: ClassRef, customizer: Customizer<T>) returns (r: Result<T, RegistryError>)
      modifies if modelClass in builders then {builders[modelClass].defaultSupplier} else {}
      ensures modelClass !in builders ==> r == Failure(NoBuilderRegistered(modelClass.simpleName))
      ensures modelClass in builders ==>
                var s := builders[modelClass].defaultSupplier;
                r == Success(customizer(s.gen(old(s.calls)))) && s.calls == old(s.calls) + 1
    {
      var b := GetBuilderFor(modelClass);
      if b.Failure? {
        return Failure(b.error);
      }
      var entity := b.value.BuildWith(customizer);
      r := Success(entity);
    }
  }

  /** Registering a supplier and then asking for a valid entity yields the
      supplier's next value; registering a second supplier for the same
      class makes the registry use the second one. */
  method RegisterThenValid<T>(modelClass: ClassRef, first: Supplier<T>, second: Supplier<T>)
    returns (r1: Result<T, RegistryError>, r2: Result<T, RegistryError>)
    requires first != second
    modifies first, second
    ensures r1 == Success(first.gen(old(first.calls)))
    ensures r2 == Success(second.gen(old(second.calls)))
    ensures first.calls == old(first.calls) + 1 && second.calls == old(second.calls) + 1
  {
    var registry := new TestDataRegistry<T>();
    registry.Register(modelClass, first);
    r1 := registry.Valid(modelClass);
    registry.Register(modelClass, second);
    r2 := registry.Valid(modelClass);
  }
}
