/** The discount engine: clamp the cart, look up the first matching offer,
    apply its rule.

    The controller computes the percentage branch in `double`, as
    `cartVal - cartVal * offerValue * 0.01`, then clamps at zero and casts to
    `int`. `0.01` has no exact binary representation, so that expression can
    differ from the exact rational `cartVal - cartVal * offerValue / 100` in
    its last bits; this model assumes the two agree and computes with
    `n = 100 * cartVal - cartVal * offerValue`, whose quotient by 100 is the
    exact value of the expression. The product `cartVal * offerValue` is an
    `int` multiplication in the controller, evaluated before the `double`
    factor; see `PercentOffAsWritten`. */
module Engine {
  import opened Int32
  import opened Options
  import opened Offers
  import opened Registry

  /** Negative carts are treated as empty before anything else happens. */
  function Clamp(cart: int32): (c: int32)
    ensures c >= 0 && c >= cart
    ensures c == cart || c == 0
  {
    if cart < 0 then 0 else cart
  }

  /** The flat-amount rule: take `v` off the cart and stop at zero. The
      subtraction is `int` arithmetic; it can only leave the `int` range when
      `v` is negative, and then wraps to a negative number that the floor at
      zero turns into 0. */
  function FlatOff(c: int32, v: int32): (r: int32)
    requires c >= 0
    ensures r >= 0
    ensures c - v <= MAX ==> r == (if c <= v then 0 else c - v)
    ensures c - v > MAX ==> r == 0
    ensures 0 <= v ==> r <= c
  {
    var d := Wrap(c - v);
    if d < 0 then 0 else d
  }

  /** The percentage rule with the product `c * v` computed exactly: the
      result is `c - c * v / 100` truncated to a whole number, floored at
      zero, and held at the `int` maximum by the final cast. */
  function PercentOff(c: int32, v: int32): (r: int32)
    requires c >= 0
    ensures r >= 0
    ensures 100 * c - c * v < 0 ==> r == 0
    ensures 0 <= 100 * c - c * v < 100 * (MAX + 1) ==> 100 * r <= 100 * c - c * v < 100 * r + 100
    ensures 100 * c - c * v >= 100 * (MAX + 1) ==> r == MAX
    ensures 0 <= v ==> r <= c
  {
    PercentOfRemaining(c, c * v)
  }

  /** The percentage rule exactly as the controller writes it: `c * v` is an
      `int` product and wraps before it is scaled by 0.01. */
  function PercentOffAsWritten(c: int32, v: int32): (r: int32)
    requires c >= 0
    ensures r >= 0
    ensures InRange(c * v) ==> r == PercentOff(c, v)
  {
    PercentOfRemaining(c, Wrap(c * v))
  }

  /** `c - product / 100`, truncated, floored at zero, saturated to `int`:
      the `Math.max(0, ...)` and `(int)` cast around the expression. */
  function PercentOfRemaining(c: int, product: int): (r: int32)
    ensures r >= 0
    ensures 100 * c - product < 0 ==> r == 0
    ensures 0 <= 100 * c - product < 100 * (MAX + 1) ==> 100 * r <= 100 * c - product < 100 * r + 100
    ensures 100 * c - product >= 100 * (MAX + 1) ==> r == MAX
  {
    var n := 100 * c - product;
    if n < 0 then 0 else Saturate(n / 100)
  }

  /** The cart value after one offer's rule is applied to a clamped cart:
      the flat amount for exactly "FLATX", the percentage for any other type. */
  function Discount(o: Offer, c: int32): (r: int32)
    requires c >= 0
    ensures o.offerType == FLATX ==> r == FlatOff(c, o.offerValue)
    ensures o.offerType != FLATX ==> r == PercentOff(c, o.offerValue)
  {
    match RuleOf(o)
    case FlatAmount => FlatOff(c, o.offerValue)
    case Percentage => PercentOff(c, o.offerValue)
  }

  /** The cart value returned for a cart, restaurant and resolved segment,
      given the registry's contents at the time of the call. */
  function Apply(reg: seq<Offer>, cart: int32, restaurantId: int32, segment: string): (result: int32)
    ensures result >= 0
    ensures (forall i :: 0 <= i < |reg| ==> !Matches(reg[i], restaurantId, segment))
            ==> result == Clamp(cart)
    ensures forall i | IsFirstMatch(reg, restaurantId, segment, i) && reg[i].offerType == FLATX ::
              result == FlatOff(Clamp(cart), reg[i].offerValue)
    ensures forall i | IsFirstMatch(reg, restaurantId, segment, i) && reg[i].offerType != FLATX ::
              result == PercentOff(Clamp(cart), reg[i].offerValue)
  {
    var c := Clamp(cart);
    match FindFirst(reg, restaurantId, segment)
    case None => c
    case Some(i) => Discount(reg[i], c)
  }

  /** `Apply` with the percentage branch exactly as the controller writes it. */
  function ApplyAsWritten(reg: seq<Offer>, cart: int32, restaurantId: int32, segment: string): (result: int32)
    ensures result >= 0
  {
    var c := Clamp(cart);
    match FindFirst(reg, restaurantId, segment)
    case None => c
    case Some(i) => DiscountAsWritten(reg[i], c)
  }

  /** `Discount` with the percentage branch exactly as the controller writes it. */
  function DiscountAsWritten(o: Offer, c: int32): (r: int32)
    requires c >= 0
    ensures o.offerType == FLATX ==> r == FlatOff(c, o.offerValue)
    ensures o.offerType != FLATX ==> r == PercentOffAsWritten(c, o.offerValue)
  {
    match RuleOf(o)
    case FlatAmount => FlatOff(c, o.offerValue)
    case Percentage => PercentOffAsWritten(c, o.offerValue)
  }

  /** The two engines differ only in the percentage arithmetic: with no
      match, or a flat-amount first match, they return the same cart, so
      clamping, first-match selection and the flat rule hold of the
      controller as written. */
  lemma ApplyAsWrittenAgreesOffPercentage(reg: seq<Offer>, cart: int32, restaurantId: int32, segment: string)
    requires forall i | IsFirstMatch(reg, restaurantId, segment, i) :: reg[i].offerType == FLATX
    ensures ApplyAsWritten(reg, cart, restaurantId, segment) == Apply(reg, cart, restaurantId, segment)
  {
    match FindFirst(reg, restaurantId, segment)
    case None =>
    case Some(i) =>
      assert IsFirstMatch(reg, restaurantId, segment, i);
  }

  /** With a non-negative offer value the first matching offer never raises
      the cart above its clamped value, whichever rule it uses. */
  lemma ApplyNeverRaises(reg: seq<Offer>, cart: int32, restaurantId: int32, segment: string)
    requires forall i | IsFirstMatch(reg, restaurantId, segment, i) :: reg[i].offerValue >= 0
    ensures Apply(reg, cart, restaurantId, segment) <= Clamp(cart)
  {
    match FindFirst(reg, restaurantId, segment)
    case None =>
    case Some(i) =>
      assert IsFirstMatch(reg, restaurantId, segment, i);
  }

  /** Registering another offer never changes the cart value of a query
      that already had a matching offer. */
  lemma {:induction false} AddKeepsApply(reg: seq<Offer>, o: Offer, cart: int32, restaurantId: int32, segment: string)
    requires FindFirst(reg, restaurantId, segment).Some?
    ensures Apply(Add(reg, o), cart, restaurantId, segment) == Apply(reg, cart, restaurantId, segment)
  {
    AddKeepsFirstMatch(reg, o, restaurantId, segment);
    var i := FindFirst(reg, restaurantId, segment).value;
    assert Add(reg, o)[i] == reg[i];
  }

  /** The controller's arithmetic and the corrected one agree whenever the
      product of the clamped cart and the first matching offer's value fits
      in an `int`, which covers every cart and offer the tests use. */
  lemma ApplyAsWrittenAgreesInRange(reg: seq<Offer>, cart: int32, restaurantId: int32, segment: string)
    requires forall i | IsFirstMatch(reg, restaurantId, segment, i) :: InRange(Clamp(cart) * reg[i].offerValue)
    ensures ApplyAsWritten(reg, cart, restaurantId, segment) == Apply(reg, cart, restaurantId, segment)
  {
    match FindFirst(reg, restaurantId, segment)
    case None =>
    case Some(i) =>
      assert IsFirstMatch(reg, restaurantId, segment, i);
  }

  /** A 3% offer on a cart of 2^30: the `int` product 3 * 2^30 wraps to
      -2^30, so the controller adds about 1% to the cart instead of taking
      3% off; the corrected rule returns 97% of the cart. */
  lemma ProductOverflowRaisesCart()
    ensures var reg := [Offer(1, "FLATP", 3, ["p1"])];
            && ApplyAsWritten(reg, 0x4000_0000, 1, "p1") == 1084479242
            && ApplyAsWritten(reg, 0x4000_0000, 1, "p1") > 0x4000_0000
            && Apply(reg, 0x4000_0000, 1, "p1") == 1041529569
  {
    var reg := [Offer(1, "FLATP", 3, ["p1"])];
    assert FindFirst(reg, 1, "p1") == Some(0);
    assert Wrap(0x4000_0000 * 3) == -0x4000_0000;
  }

  /** Offers registered later never change the cart value of a query that
      already had a matching offer. */
  lemma AppendKeepsApply(reg: seq<Offer>, more: seq<Offer>, cart: int32, restaurantId: int32, segment: string)
    requires FindFirst(reg, restaurantId, segment).Some?
    ensures Apply(reg + more, cart, restaurantId, segment) == Apply(reg, cart, restaurantId, segment)
  {
    AppendKeepsFirstMatch(reg, more, restaurantId, segment);
    var i := FindFirst(reg, restaurantId, segment).value;
    assert (reg + more)[i] == reg[i];
  }

  /** The cart value is decided by the first matching offer alone. */
  lemma ApplyUsesFirstMatch(reg: seq<Offer>, cart: int32, restaurantId: int32, segment: string, i: int)
    requires IsFirstMatch(reg, restaurantId, segment, i)
    ensures Apply(reg, cart, restaurantId, segment) == Discount(reg[i], Clamp(cart))
  {
  }
}
