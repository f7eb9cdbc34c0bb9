/** `PayloadBuilder`: a fluent builder over a mutable map of request-body
    fields. `with` and `without` update the map in place and return the
    builder itself; `build` hands out a copy. The map is a value here, so
    copying and sharing it cannot be told apart. */
module PayloadBuilding {

  /** The field values the request payloads carry; `Null` is Java's null. */
  datatype Value = Null | Text(s: string) | Number(n: int) | Flag(b: bool)

  type Payload = map<string, Value>

  class PayloadBuilder {
    var data: Payload

    /** The private constructor, lines 17-19: the builder starts with the
        given fields. */
    constructor (initialData: Payload)
      ensures data == initialData
    {
      data := initialData;
    }

    /** `builder()`, lines 24-26: an empty builder. */
    static method Builder() returns (b: PayloadBuilder)
      ensures fresh(b) && b.data == map[]
    {
      b := new PayloadBuilder(map[]);
    }

    /** `with(field, value)`, lines 43-46: sets or overwrites one field (a
        null value keeps the field present) and returns this builder. */
    method With(field: string, value: Value) returns (self: PayloadBuilder)
      modifies this
      ensures self == this
      ensures data.Keys == old(data).Keys + {field}
      ensures data[field] == value
      ensures forall k :: k in old(data) && k != field ==> data[k] == old(data)[k]
    {
      data := data[field := value];
      return this;
    }

    /** `without(fields...)`, lines 51-56: removes each listed field in turn;
        absent fields are ignored; returns this builder. */
    method Without(fields: seq<string>) returns (self: PayloadBuilder)
      modifies this
      ensures self == this
      ensures data.Keys == old(data).Keys - set f | f in fields
      ensures forall k :: k in data ==> data[k] == old(data)[k]
    {
      for i := 0 to |fields|
        invariant data.Keys == old(data).Keys - set f | f in fields[..i]
        invariant forall k :: k in data ==> data[k] == old(data)[k]
      {
        assert fields[..i + 1] == fields[..i] + [fields[i]];
        data := data - {fields[i]};
      }
      assert fields[..|fields|] == fields;
      return this;
    }

    /** `build()`, lines 62-64: the current fields. */
    method Build() returns (payload: Payload)
      ensures payload == data
    {
      payload := data;
    }
  }

  /** A build taken before a `with` holds the fields of that moment, and a
      second `build` sees the edit. */
  method BuildIsSnapshot(initial: Payload, field: string, value: Value)
    returns (first: Payload, second: Payload)
    ensures first == initial
    ensures second.Keys == initial.Keys + {field} && second[field] == value
    ensures forall k :: k in initial && k != field ==> second[k] == initial[k]
  {
    var b := new PayloadBuilder(initial);
    first := b.Build();
    var self := b.With(field, value);
    second := self.Build();
  }

  /** A chain `with(f, v).without(fs)` builds the sequential composition of
      the two updates, since both return the same builder. */
  method WithThenWithout(initial: Payload, field: string, value: Value, fields: seq<string>)
    returns (payload: Payload)
    ensures payload.Keys == (initial.Keys + {field}) - set f | f in fields
    ensures field in payload ==> payload[field] == value
    ensures forall k :: k in payload && k != field ==> payload[k] == initial[k]
  {
    var b := new PayloadBuilder(initial);
    var self := b.With(field, value);
    self := self.Without(fields);
    payload := self.Build();
  }
}
