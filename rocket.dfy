/** The fleet's rocket entity (fleet/domain/models/Rocket.java). Name, capacity
    and speed are final; only the id is assigned later, by the store. */
module Rockets {
  import opened Common
  import opened Capacities

  class Rocket {
    var id: Option<string>
    const name: Option<string>
    const capacity: Capacity
    const speed: Option<real>

    /** `Rocket.restore`: every field exactly as given. */
    constructor Restore(id: Option<string>, name: Option<string>, capacity: Capacity, speed: Option<real>)
      ensures this.id == id && this.name == name && this.capacity == capacity && this.speed == speed
    {
      this.id := id;
      this.name := name;
      this.capacity := capacity;
      this.speed := speed;
    }

    /** `Rocket.register`: a new rocket with no id yet. */
    static method Register(name: Option<string>, capacity: Capacity, speed: Option<real>) returns (r: Rocket)
      ensures fresh(r)
      ensures r.id.None? && r.name == name && r.capacity == capacity && r.speed == speed
    {
      r := new Rocket.Restore(None, name, capacity, speed);
    }

    /** `getCapacity()`: the capacity's bound, always within 1..10. */
    function GetCapacity(): (n: int)
      ensures n == MaxPassengers(capacity)
      ensures MinCapacity <= n <= MaxCapacity
      ensures From(n) == Ok(capacity)
    {
      FromMaxPassengers(capacity);
      MaxPassengers(capacity)
    }

    /** `assignId`: the only write after construction. */
    method AssignId(newId: string)
      modifies this`id
      ensures id == Some(newId)
    {
      id := Some(newId);
    }
  }
}
