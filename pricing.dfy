/** The booking discount, identical in all three revisions
    (`calculateDiscount`): one discount at most, chosen by first match. */
module Pricing {
  import opened Common

  /** The discount for the next seat, given the bookings made so far, the
      capacity limit, the flight's minimum and the whole days to departure. */
  function Discount(currentBookings: int, capacityLimit: int, minPassengers: int, daysUntilDeparture: int): (d: real)
    // The next seat is the last one: no discount.
    ensures currentBookings + 1 == capacityLimit ==> d == 0.0
    // Otherwise each discount is given exactly when its rule is the first that applies.
    ensures d == 0.3 <==> currentBookings + 1 != capacityLimit && currentBookings + 1 == minPassengers
    ensures d == 0.1 <==> currentBookings + 1 != capacityLimit && currentBookings + 1 != minPassengers
                          && daysUntilDeparture > 180
    ensures d == 0.2 <==> currentBookings + 1 != capacityLimit && currentBookings + 1 != minPassengers
                          && 7 <= daysUntilDeparture <= 30
    ensures d == 0.0 || d == 0.1 || d == 0.2 || d == 0.3
  {
    if currentBookings + 1 == capacityLimit then 0.0
    else if currentBookings + 1 == minPassengers then 0.3
    else if daysUntilDeparture > 180 then 0.1
    else if 7 <= daysUntilDeparture <= 30 then 0.2
    else 0.0
  }

  /** `basePrice * (1 - discount)`, in exact arithmetic. */
  function FinalPrice(basePrice: real, discount: real): real {
    basePrice * (1.0 - discount)
  }

  /** The amount charged is never above the base price, never below 70% of it,
      and positive whenever the base price is. */
  lemma FinalPriceBounds(basePrice: real, currentBookings: int, capacityLimit: int, minPassengers: int,
                         daysUntilDeparture: int)
    requires basePrice > 0.0
    ensures var p := FinalPrice(basePrice, Discount(currentBookings, capacityLimit, minPassengers, daysUntilDeparture));
            0.7 * basePrice <= p <= basePrice && p > 0.0
  {
  }

  /** The days-to-departure rules only matter when neither the last-seat nor the
      reaching-the-minimum rule applies. */
  lemma SeatRulesTakePrecedence(currentBookings: int, capacityLimit: int, minPassengers: int, days1: int, days2: int)
    requires currentBookings + 1 == capacityLimit || currentBookings + 1 == minPassengers
    ensures Discount(currentBookings, capacityLimit, minPassengers, days1)
         == Discount(currentBookings, capacityLimit, minPassengers, days2)
  {
  }
}
