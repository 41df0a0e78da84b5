/** Rooms, the two measured quantities and the per-room entity bindings. */
module Rooms {
  import opened Wrappers

  type RoomId = string
  type EntityId = string

  datatype Quantity = Temperature | Humidity

  /** One displayed value: a room and a quantity (the source's `${roomId}-${type}`). */
  datatype Series = Series(room: RoomId, quantity: Quantity)

  /** The configured entity ids of a room (`entities[roomId]`), each possibly absent. */
  datatype Binding = Binding(temperature: Option<EntityId>, humidity: Option<EntityId>)

  /** The configured id of one quantity of a binding. */
  function Field(b: Binding, q: Quantity): Option<EntityId> {
    if q == Temperature then b.temperature else b.humidity
  }

  /** `entities[room]?.[quantity]` when it is truthy: present and not the empty string. */
  function EntityFor(bindings: map<RoomId, Binding>, room: RoomId, q: Quantity): (e: Option<EntityId>)
    ensures e.Some? <==> room in bindings && Field(bindings[room], q).Some? && Field(bindings[room], q).value != ""
    ensures e.Some? ==> e == Field(bindings[room], q)
  {
    if room !in bindings then None
    else
      var b := Field(bindings[room], q);
      if b.Some? && b.value != "" then b else None
  }

  predicate IsBound(bindings: map<RoomId, Binding>, room: RoomId, q: Quantity) {
    EntityFor(bindings, room, q).Some?
  }
}
