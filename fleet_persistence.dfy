/** The fleet's in-memory stores: flights
    (fleet/infrastructure/persistence/FlightInMemoryRepository.java) and rockets.
    Each is a map from id to the stored object plus an id counter; the Java
    static fields become the fields of one store object, and the static
    initialiser its constructor. */
module FleetPersistence {
  import opened Common
  import opened Capacities
  import opened Flights
  import opened Rockets

  /** 2026-06-01T10:00 and 2026-12-01T10:00, in seconds from 1970-01-01T00:00. */
  const SeedDeparture1: Instant := 1780308000
  const SeedDeparture2: Instant := 1796119200

  /** The id the flight store generates from counter value `n`: `"f" + n`. */
  function FlightKey(n: nat): string {
    "f" + NatToString(n)
  }

  /** The id the rocket store generates from counter value `n`: `"r" + n`. */
  function RocketKey(n: nat): string {
    "r" + NatToString(n)
  }

  /** Distinct counter values give distinct ids, so no generated id is reused. */
  lemma GeneratedKeysInjective(n: nat, m: nat)
    ensures FlightKey(n) == FlightKey(m) <==> n == m
    ensures RocketKey(n) == RocketKey(m) <==> n == m
  {
    if FlightKey(n) == FlightKey(m) {
      PrefixedIdInjective("f", n, m);
    }
    if RocketKey(n) == RocketKey(m) {
      PrefixedIdInjective("r", n, m);
    }
  }

  /** `FlightStatus.valueOf(status.toUpperCase())` succeeds exactly for the
      status names in any mix of letter case. */
  lemma StatusLookupIgnoresCase(name: string, s: FlightStatus)
    ensures StatusValueOf(ToUpper(name)) == Some(s) <==> EqualsIgnoreCase(name, StatusName(s))
  {
    var n := StatusName(s);
    assert forall i :: 0 <= i < |n| ==> 'A' <= n[i] <= 'Z' || n[i] == '_';
    ToUpperMatchesIgnoringCase(name, n);
    StatusNameRoundTrip(s);
  }

  class FlightInMemoryRepository {
    var flights: map<string, Flight>
    var nextId: nat

    /** Every flight is stored under its own id. */
    ghost predicate Valid()
      reads this, flights.Values`id
    {
      forall k :: k in flights ==> flights[k].id == Some(k)
    }

    /** No id the counter will still generate is taken yet. */
    ghost predicate FreshCounter()
      reads this
    {
      forall n: nat :: n >= nextId ==> FlightKey(n) !in flights
    }

    /** The static initialiser: f1 (SCHEDULED) and f2 (CANCELLED) on rocket r1,
        both with minimum 5 and capacity 7, and the counter at 3. */
    constructor ()
      ensures Valid() && FreshCounter()
      ensures flights.Keys == {"f1", "f2"} && nextId == 3
      ensures var f := flights["f1"];
              && f.rocketId == "r1" && f.departure == SeedDeparture1 && f.basePrice == 1000.0
              && f.status == Scheduled && f.minPassengers == 5 && f.capacity == 7
      ensures var f := flights["f2"];
              && f.rocketId == "r1" && f.departure == SeedDeparture2 && f.basePrice == 2000.0
              && f.status == Cancelled && f.minPassengers == 5 && f.capacity == 7
    {
      var f1 := new Flight.Restore(Some("f1"), "r1", SeedDeparture1, 1000.0, Scheduled, 5, 7);
      var f2 := new Flight.Restore(Some("f2"), "r1", SeedDeparture2, 2000.0, Cancelled, 5, 7);
      flights := map["f1" := f1, "f2" := f2];
      nextId := 3;
      new;
      forall n: nat | n >= nextId
        ensures FlightKey(n) !in flights
      {
        assert FlightKey(1) == "f1" && FlightKey(2) == "f2";
        GeneratedKeysInjective(n, 1);
        GeneratedKeysInjective(n, 2);
      }
    }

    /** A stored flight is stored under its id. */
    lemma StoredFlightIsKeyed(f: Flight)
      requires Valid() && f in flights.Values
      ensures f.id.Some? && f.id.value in flights && flights[f.id.value] == f
    {
      var k :| k in flights && flights[k] == f;
    }

    /** The flights stored under other ids are other objects. */
    lemma OthersAreOtherFlights(id: string)
      requires Valid() && id in flights
      ensures forall k :: k in flights && k != id ==> flights[k] != flights[id]
    {
      forall k | k in flights && k != id
        ensures flights[k] != flights[id]
      {
        assert flights[k].id == Some(k);
      }
    }

    /** `findById`. */
    function FindById(id: string): (r: Option<Flight>)
      reads this, flights.Values`id
      ensures r.Some? <==> id in flights
      ensures r.Some? ==> r.value in flights.Values && r.value == flights[id]
      ensures Valid() && r.Some? ==> r.value.id == Some(id)
    {
      if id in flights then Some(flights[id]) else None
    }

    /** `findAll`: the stored flights departing strictly after `now`, each once,
        in an order the model leaves open. */
    method FindAll(now: Instant) returns (r: seq<Flight>)
      ensures forall f :: f in r <==> f in flights.Values && f.departure > now
      ensures Distinct(r)
    {
      var all := Enumerate(flights.Values);
      var future := (f: Flight) => f.departure > now;
      r := Filter(all, future);
      FilterDistinct(all, future);
    }

    /** `findByStatus`: nothing for an unknown name, otherwise the future flights
        having the status named, in any letter case. */
    method FindByStatus(status: string, now: Instant) returns (r: seq<Flight>)
      ensures StatusValueOf(ToUpper(status)).None? ==> r == []
      ensures StatusValueOf(ToUpper(status)).Some? ==>
        forall f :: f in r <==> f in flights.Values && f.departure > now
                                && f.status == StatusValueOf(ToUpper(status)).value
      ensures Distinct(r)
    {
      var wanted := StatusValueOf(ToUpper(status));
      if wanted.None? {
        return [];
      }
      var all := Enumerate(flights.Values);
      r := [];
      var i := 0;
      while i < |all|
        invariant 0 <= i <= |all|
        invariant forall f :: f in r <==> f in all[..i] && f.departure > now && f.status == wanted.value
        invariant Distinct(r)
      {
        var f := all[i];
        assert all[..i + 1] == all[..i] + [f];
        if f.departure > now && f.status == wanted.value {
          assert f !in all[..i];
          r := r + [f];
        }
        i := i + 1;
      }
      assert all[..i] == all;
    }

    /** `save`: a flight without an id gets `"f" + nextId` and the counter moves
        on; the flight is then put under its id, replacing any flight stored there. */
    method Save(flight: Flight) returns (saved: Flight)
      requires Valid()
      modifies this, flight`id
      ensures Valid()
      ensures saved == flight && flight.id.Some?
      ensures old(flight.id).Some? ==> flight.id == old(flight.id) && nextId == old(nextId)
      ensures old(flight.id).None? ==> flight.id == Some(FlightKey(old(nextId))) && nextId == old(nextId) + 1
      ensures flights == old(flights)[flight.id.value := flight]
      ensures FindById(flight.id.value) == Some(flight)
      ensures forall k :: k != flight.id.value ==> FindById(k) == old(FindById(k))
      // Re-saving a stored flight leaves the store as it was.
      ensures old(flight.id).Some? && old(flight.id.value) in old(flights) && old(flights)[old(flight.id.value)] == flight
              ==> flights == old(flights)
      // Overwriting never grows the store; a generated id always does.
      ensures old(flight.id).Some? && old(flight.id.value) in old(flights) ==> |flights| == |old(flights)|
      ensures old(FreshCounter()) && old(flight.id).None? ==>
                (&& FlightKey(old(nextId)) !in old(flights) && |flights| == |old(flights)| + 1)
      ensures old(FreshCounter()) && (old(flight.id).None? || old(flight.id.value) in old(flights)) ==> FreshCounter()
    {
      if flight.id.None? {
        assert flight !in flights.Values;
        forall n: nat | n > nextId
          ensures FlightKey(n) != FlightKey(nextId)
        {
          GeneratedKeysInjective(n, nextId);
        }
        flight.AssignId(FlightKey(nextId));
        nextId := nextId + 1;
      }
      flights := flights[flight.id.value := flight];
      saved := flight;
    }
  }

  /** The fleet's rocket store (its in-memory implementation is
      infrastructure/persistence/RocketInMemoryRepository.java in shape). */
  class RocketRepository {
    var rockets: map<string, Rocket>
    var nextId: nat

    /** Every rocket is stored under its own id. */
    ghost predicate Valid()
      reads this, rockets.Values`id
    {
      forall k :: k in rockets ==> rockets[k].id == Some(k)
    }

    ghost predicate FreshCounter()
      reads this
    {
      forall n: nat :: n >= nextId ==> RocketKey(n) !in rockets
    }

    /** The static initialiser: r1 "Falcon 9" with capacity 7 and speed 27000,
        and the counter at 2. */
    constructor ()
      ensures Valid() && FreshCounter()
      ensures rockets.Keys == {"r1"} && nextId == 2
      ensures var r := rockets["r1"];
              r.name == Some("Falcon 9") && r.capacity == 7 && r.speed == Some(27000.0)
    {
      var r1 := new Rocket.Restore(Some("r1"), Some("Falcon 9"), 7, Some(27000.0));
      rockets := map["r1" := r1];
      nextId := 2;
      new;
      forall n: nat | n >= nextId
        ensures RocketKey(n) !in rockets
      {
        assert RocketKey(1) == "r1";
        GeneratedKeysInjective(n, 1);
      }
    }

    /** `findById`. */
    function FindById(id: string): (r: Option<Rocket>)
      reads this, rockets.Values`id
      ensures r.Some? <==> id in rockets
      ensures r.Some? ==> r.value in rockets.Values && r.value == rockets[id]
      ensures Valid() && r.Some? ==> r.value.id == Some(id)
    {
      if id in rockets then Some(rockets[id]) else None
    }

    /** `findAll`: every stored rocket once, in a fresh list. */
    method FindAll() returns (r: seq<Rocket>)
      ensures forall x :: x in r <==> x in rockets.Values
      ensures Distinct(r) && |r| == |rockets.Values|
    {
      r := Enumerate(rockets.Values);
    }

    /** `save`: a rocket without an id gets `"r" + nextId`; the rocket is then put
        under its id, replacing any rocket stored there. */
    method Save(rocket: Rocket) returns (saved: Rocket)
      requires Valid()
      modifies this, rocket`id
      ensures Valid()
      ensures saved == rocket && rocket.id.Some?
      ensures old(rocket.id).Some? ==> rocket.id == old(rocket.id) && nextId == old(nextId)
      ensures old(rocket.id).None? ==> rocket.id == Some(RocketKey(old(nextId))) && nextId == old(nextId) + 1
      ensures rockets == old(rockets)[rocket.id.value := rocket]
      ensures FindById(rocket.id.value) == Some(rocket)
      ensures old(rocket.id).Some? && old(rocket.id.value) in old(rockets) ==> |rockets| == |old(rockets)|
      ensures old(FreshCounter()) && old(rocket.id).None? ==>
                (&& RocketKey(old(nextId)) !in old(rockets) && |rockets| == |old(rockets)| + 1)
      ensures old(FreshCounter()) && (old(rocket.id).None? || old(rocket.id.value) in old(rockets)) ==> FreshCounter()
    {
      if rocket.id.None? {
        assert rocket !in rockets.Values;
        forall n: nat | n > nextId
          ensures RocketKey(n) != RocketKey(nextId)
        {
          GeneratedKeysInjective(n, nextId);
        }
        rocket.AssignId(RocketKey(nextId));
        nextId := nextId + 1;
      }
      rockets := rockets[rocket.id.value := rocket];
      saved := rocket;
    }
  }
}
