/** Colour of a region's map marker, chosen from its current price by two thresholds:
    below 60 is low, from 60 up to (not including) 75 is medium, 75 and above is high. */
module PriceColour {

  const Green: string := "#22c55e"
  const Yellow: string := "#eab308"
  const Red: string := "#ef4444"

  /** Position of a marker colour in the order green < yellow < red. */
  function Rank(colour: string): nat
  {
    if colour == Green then 0 else if colour == Yellow then 1 else 2
  }

  /** Marker colour for a price: exactly one of the three, by the price's interval. */
  function MarkerColour(price: real): (c: string)
    ensures c == Green || c == Yellow || c == Red
    ensures c == Green <==> price < 60.0
    ensures c == Yellow <==> 60.0 <= price < 75.0
    ensures c == Red <==> 75.0 <= price
  {
    if price < 60.0 then Green else if price < 75.0 then Yellow else Red
  }

  /** A higher price never gets a lower colour. */
  lemma MarkerColourMonotone(p: real, q: real)
    requires p <= q
    ensures Rank(MarkerColour(p)) <= Rank(MarkerColour(q))
  {
  }

  /** Each threshold belongs to the band above it: 60 is medium, 75 is high. */
  lemma ThresholdsBelongAbove()
    ensures MarkerColour(60.0) == Yellow
    ensures MarkerColour(75.0) == Red
  {
  }
}
