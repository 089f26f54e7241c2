/** The offer a merchant registers: a discount scoped to one restaurant and
    a list of customer segments. */
module Offers {
  import opened Int32

  /** An offer as posted to the offer endpoint. `offerType` stays the raw
      string the caller sent: only the exact text "FLATX" selects the
      flat-amount discount, and every other string, "FLATP" included, is
      treated as a percentage. */
  datatype Offer = Offer(
    restaurantId: int32,
    offerType: string,
    offerValue: int32,
    segments: seq<string>)

  const FLATX: string := "FLATX"

  /** The two discount rules the engine distinguishes. */
  datatype Rule = FlatAmount | Percentage

  /** Which rule an offer is applied with. */
  function RuleOf(o: Offer): (rule: Rule)
    ensures rule == FlatAmount <==> o.offerType == FLATX
    ensures rule == Percentage <==> o.offerType != FLATX
  {
    if o.offerType == FLATX then FlatAmount else Percentage
  }

  /** An offer applies to a request when it names the same restaurant and
      lists the requester's segment. */
  predicate Matches(o: Offer, restaurantId: int32, segment: string) {
    o.restaurantId == restaurantId && segment in o.segments
  }
}
