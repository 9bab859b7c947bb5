/** The flight entity and flight store of the two older revisions (`business/`
    and `domain/`). Their flight is a mutable bean whose status any caller may
    set, with a departure, a base price and a minimum, but no capacity: the
    capacity is the rocket's. Neither revision's flight class nor its flight
    store implementation is part of this model; the store is taken to behave
    like the fleet store (ids "f" + counter, `save` puts the flight under its
    id), except that `findAll` returns every stored flight. */
module LegacyPersistence {
  import opened Common
  import opened Flights
  import opened FleetPersistence

  /** Which of the two older revisions a service belongs to. */
  datatype Revision = Business | Domain

  class LegacyFlight {
    var id: Option<string>
    const rocketId: string
    const departure: Instant
    const basePrice: real
    var status: FlightStatus
    const minPassengers: int

    /** A flight with every field as given (the setters called one after the other). */
    constructor (id: Option<string>, rocketId: string, departure: Instant, basePrice: real,
                 status: FlightStatus, minPassengers: int)
      ensures this.id == id && this.rocketId == rocketId && this.departure == departure
      ensures this.basePrice == basePrice && this.status == status && this.minPassengers == minPassengers
    {
      this.id := id;
      this.rocketId := rocketId;
      this.departure := departure;
      this.basePrice := basePrice;
      this.status := status;
      this.minPassengers := minPassengers;
    }

    /** `setStatus`: unguarded, any status from any status. */
    method SetStatus(s: FlightStatus)
      modifies this`status
      ensures status == s
    {
      status := s;
    }

    /** `setId`, called by the store on first save. */
    method SetId(newId: string)
      modifies this`id
      ensures id == Some(newId)
    {
      id := Some(newId);
    }
  }

  class LegacyFlightRepository {
    var flights: map<string, LegacyFlight>
    var nextId: nat

    /** Every flight is stored under its own id. */
    ghost predicate Valid()
      reads this, flights.Values`id
    {
      forall k :: k in flights ==> flights[k].id == Some(k)
    }

    /** No id the counter will still generate is taken yet. */
    ghost predicate FreshCounter()
      reads this
    {
      forall n: nat :: n >= nextId ==> FlightKey(n) !in flights
    }

    /** A stored flight is stored under its id. */
    lemma StoredFlightIsKeyed(f: LegacyFlight)
      requires Valid() && f in flights.Values
      ensures f.id.Some? && f.id.value in flights && flights[f.id.value] == f
    {
      var k :| k in flights && flights[k] == f;
    }

    /** `findById`. */
    function FindById(id: string): (r: Option<LegacyFlight>)
      reads this, flights.Values`id
      ensures r.Some? <==> id in flights
      ensures r.Some? ==> r.value in flights.Values && r.value == flights[id]
      ensures Valid() && r.Some? ==> r.value.id == Some(id)
    {
      if id in flights then Some(flights[id]) else None
    }

    /** `findAll`: every stored flight once, in an order the model leaves open. */
    method FindAll() returns (r: seq<LegacyFlight>)
      ensures forall f :: f in r <==> f in flights.Values
      ensures Distinct(r) && |r| == |flights.Values|
    {
      r := Enumerate(flights.Values);
    }

    /** `findByStatus`: nothing for an unknown name, otherwise the stored flights
        having the status named, in any letter case. */
    method FindByStatus(status: string) returns (r: seq<LegacyFlight>)
      ensures StatusValueOf(ToUpper(status)).None? ==> r == []
      ensures StatusValueOf(ToUpper(status)).Some? ==>
        forall f :: f in r <==> f in flights.Values && f.status == StatusValueOf(ToUpper(status)).value
      ensures Distinct(r)
    {
      var wanted := StatusValueOf(ToUpper(status));
      if wanted.None? {
        return [];
      }
      var all := Enumerate(flights.Values);
      r := [];
      var i := 0;
      while i < |all|
        invariant 0 <= i <= |all|
        invariant forall f :: f in r <==> f in all[..i] && f.status == wanted.value
        invariant Distinct(r)
      {
        var f := all[i];
        assert all[..i + 1] == all[..i] + [f];
        if f.status == wanted.value {
          assert f !in all[..i];
          r := r + [f];
        }
        i := i + 1;
      }
      assert all[..i] == all;
    }

    /** `save`: a flight without an id gets `"f" + nextId` and the counter moves
        on; the flight is then put under its id, replacing any flight stored there. */
    method Save(flight: LegacyFlight) returns (saved: LegacyFlight)
      requires Valid()
      modifies this, flight`id
      ensures Valid()
      ensures saved == flight && flight.id.Some?
      ensures old(flight.id).Some? ==> flight.id == old(flight.id) && nextId == old(nextId)
      ensures old(flight.id).None? ==> flight.id == Some(FlightKey(old(nextId))) && nextId == old(nextId) + 1
      ensures flights == old(flights)[flight.id.value := flight]
      // Re-saving a stored flight leaves the store as it was.
      ensures old(flight.id).Some? && old(flight.id.value) in old(flights) && old(flights)[old(flight.id.value)] == flight
              ==> flights == old(flights)
      ensures old(FreshCounter()) && old(flight.id).None? ==>
                (&& FlightKey(old(nextId)) !in old(flights) && |flights| == |old(flights)| + 1)
      ensures old(FreshCounter()) && (old(flight.id).None? || old(flight.id.value) in old(flights)) ==> FreshCounter()
    {
      if flight.id.None? {
        assert flight !in flights.Values;
        forall n: nat | n > nextId
          ensures FlightKey(n) != FlightKey(nextId)
        {
          GeneratedKeysInjective(n, nextId);
        }
        flight.SetId(FlightKey(nextId));
        nextId := nextId + 1;
      }
      flights := flights[flight.id.value := flight];
      saved := flight;
    }
  }
}
