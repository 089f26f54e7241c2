/** The two operations the controller exposes, stripped of their HTTP
    envelope: registering an offer and applying the best offer to a cart. */
module Controller {
  import opened Int32
  import opened Options
  import opened Offers
  import opened Engine

  /** The body of an apply-offer request. */
  datatype ApplyOfferRequest = ApplyOfferRequest(cartValue: int32, userId: int32, restaurantId: int32)

  /** The segment assumed for a user whose segment could not be fetched. */
  const UNKNOWN: string := "unknown"

  /** The segment the engine uses, given what the segment service returned
      (`None` for any connection, status or decoding failure). */
  function ResolveSegment(response: Option<string>): (segment: string)
    ensures response.None? ==> segment == UNKNOWN
    ensures response.Some? ==> segment == response.value
  {
    response.GetOr(UNKNOWN)
  }

  /** Applying an offer: resolve the user's segment with `segmentService`,
      which stands for the remote segment lookup, then run the engine. A
      failed lookup is never an error; the request goes on with the segment
      "unknown" and gets no discount unless some offer of that restaurant
      lists "unknown". */
  function ApplyOffer(reg: seq<Offer>, req: ApplyOfferRequest, segmentService: int32 -> Option<string>): (cartValue: int32)
    ensures cartValue >= 0
    ensures segmentService(req.userId).None?
            ==> cartValue == Apply(reg, req.cartValue, req.restaurantId, UNKNOWN)
    ensures segmentService(req.userId).Some?
            ==> cartValue == Apply(reg, req.cartValue, req.restaurantId, segmentService(req.userId).value)
  {
    Apply(reg, req.cartValue, req.restaurantId, ResolveSegment(segmentService(req.userId)))
  }

  /** A user whose segment cannot be fetched gets no discount unless some
      offer of the restaurant lists "unknown". */
  lemma UnknownUserGetsNoDiscount(reg: seq<Offer>, req: ApplyOfferRequest, segmentService: int32 -> Option<string>)
    requires segmentService(req.userId).None?
    requires forall i :: 0 <= i < |reg| ==> !(reg[i].restaurantId == req.restaurantId && UNKNOWN in reg[i].segments)
    ensures ApplyOffer(reg, req, segmentService) == Clamp(req.cartValue)
  {
    assert forall i :: 0 <= i < |reg| ==> !Matches(reg[i], req.restaurantId, UNKNOWN);
  }
}
