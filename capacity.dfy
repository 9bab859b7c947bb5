/** The passenger-capacity value object shared by fleet and sales
    (shared/domain/Capacity.java). The Java class has a private constructor
    reached only through `from`, so every value lies in 1..10; here that is
    the subset type itself, and the value can never change. */
module Capacities {
  import opened Common

  const MinCapacity: int := 1
  const MaxCapacity: int := 10

  type Capacity = n: int | MinCapacity <= n <= MaxCapacity witness MinCapacity

  /** `Capacity.from`: fails with VALIDATION outside 1..10. */
  function From(raw: int): (r: Result<Capacity>)
    ensures r.Ok? <==> MinCapacity <= raw <= MaxCapacity
    ensures r.Ok? ==> MaxPassengers(r.value) == raw
    ensures r.Err? ==> r.code == Validation
  {
    if raw < MinCapacity || raw > MaxCapacity then Err(Validation) else Ok(raw)
  }

  /** `maxPassengers()`: the bound, always within 1..10. */
  function MaxPassengers(c: Capacity): (n: int)
    ensures MinCapacity <= n <= MaxCapacity
  {
    c
  }

  /** `isFull(currentPassengers)`. */
  predicate IsFull(c: Capacity, currentPassengers: int) {
    currentPassengers >= MaxPassengers(c)
  }

  /** `ensureCanBoard(currentPassengers)`: raises CAPACITY exactly when full,
      and does nothing otherwise. */
  function EnsureCanBoard(c: Capacity, currentPassengers: int): (r: Outcome)
    ensures r.Fail? <==> IsFull(c, currentPassengers)
    ensures r.Fail? ==> r.code == CapacityError
  {
    if currentPassengers >= MaxPassengers(c) then Fail(CapacityError) else Pass
  }

  /** Reading the bound back through `from` gives the same value. */
  lemma FromMaxPassengers(c: Capacity)
    ensures From(MaxPassengers(c)) == Ok(c)
  {
  }

  /** Fullness is monotone in the passenger count, and a count below the bound
      is exactly a count that can still board. */
  lemma IsFullMonotone(c: Capacity, n: int, m: int)
    requires n <= m
    ensures IsFull(c, n) ==> IsFull(c, m)
    ensures !IsFull(c, n) <==> n < MaxPassengers(c)
  {
  }
}
