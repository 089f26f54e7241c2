# Cart offers: offer registry and discount engine

A Dafny model of the cart-offer service's core, the `AutowiredController`
of a Spring Boot application. Merchants post offers. Each offer names a
restaurant, a rule (`"FLATX"` for a flat amount, anything else for a
percentage), a value and a list of customer segments. A client then asks
for an offer to be applied to a cart for a user.

The controller does the following:
- it keeps every offer in one list, in posting order;
- it clamps the cart value at zero;
- it resolves the user's segment through a remote service, with
  `"unknown"` standing in when that fails;
- it applies the first posted offer that names the restaurant and lists
  the segment.

Modules, one file each:

- `Int32` (`int32.dfy`): Java `int`. It covers the range, two's-complement
  wrap-around (`Wrap`) and the saturating `(int)` cast (`Saturate`).
- `Options` (`options.dfy`): `Option`, used for "no match" and for a failed
  segment lookup.
- `Offers` (`offers.dfy`): the `Offer` record, the `"FLATX"` rule
  selection, and the restaurant-and-segment match.
- `Registry` (`registry.dfy`): the append-only list. It has `Add` and the
  first-match search `FindFirst`. It also has the controller's stream
  pipeline (filter by restaurant, filter by segment, take the first),
  proved to agree with `FindFirst`.
- `Engine` (`engine.dfy`): clamping, the two discount rules and `Apply`. It
  also has the as-written variant of the percentage rule (see Findings).
- `Controller` (`controller.dfy`): segment resolution and the apply-offer
  request. The segment service is a function parameter.
- `Scenarios` (`scenarios.dfy`): the expectations of the integration tests,
  proved about the model.

Where the design description and the code differ, the model follows the
code:
- The offer type is the raw string, and every string other than exactly
  `"FLATX"` gets the percentage rule. It is not a closed two-value type.
- Segments are a list with `contains` membership, not a set.
- Offer values may be negative. Nothing rejects them, and they are applied
  literally.

The percentage rule's `double` arithmetic is modelled as exact rational
arithmetic. `0.01` is not exact in binary floating point, so the model
assumes the Java expression truncates to the same integer as
`c - c * v / 100`.

The classes `OfferRequest`, `ApplyOfferRequest` and `SegmentResponse` are
not part of this model, so their field types are an assumption. The model
takes the cart value, user id, restaurant id and offer value to be
primitive Java `int`. One part of this is forced by the controller itself:
at AutowiredController.java:48, `Math.max(0, cartVal - offer_value)` is
assigned to an `int`, which does not compile if `offer_value` is a `long`.
So the offer value is at most `int` wide, and `cartVal * offer_value` at
line 50 is an `int` product.

## Model

| member | source | states |
|---|---|---|
| `Registry.Add` | src/main/java/com/springboot/controller/AutowiredController.java:27-31 | Posting an offer appends exactly that offer at the end. The length grows by one, every earlier offer is unchanged and in place, and no offer is rejected. |
| `Registry.FindFirst` | src/main/java/com/springboot/controller/AutowiredController.java:38-41 | Returns no index exactly when no offer has both the restaurant id and the segment. Otherwise it returns the smallest index of an offer that has both. |
| `Registry.FindFirstIsFirstMatch` | src/main/java/com/springboot/controller/AutowiredController.java:38-41 | The search returns index `i` if and only if `i` is the earliest matching position. |
| `Registry.AddKeepsFirstMatch` | src/main/java/com/springboot/controller/AutowiredController.java:38-41 | If a query already had a match, appending an offer leaves its answer unchanged. |
| `Registry.AppendKeepsFirstMatch` | src/main/java/com/springboot/controller/AutowiredController.java:38-41 | If a query already had a match, appending any list of offers leaves its answer unchanged. |
| `Registry.AddToUnmatched` | src/main/java/com/springboot/controller/AutowiredController.java:38-41 | If a query had no match, the new offer answers it exactly when that offer matches. Otherwise the query still has no match. |
| `Registry.FilterRestaurant` | src/main/java/com/springboot/controller/AutowiredController.java:39 | An offer is kept if and only if it is in the input and belongs to the restaurant, and the result is never longer than the input. A one-offer list is kept exactly when that offer belongs to the restaurant. `Registry.FilterRestaurantAppend` covers order. |
| `Registry.FilterSegment` | src/main/java/com/springboot/controller/AutowiredController.java:40 | An offer is kept if and only if it is in the input and its segment list contains the segment. A one-offer list is kept exactly when that offer lists the segment. `Registry.FilterSegmentAppend` covers order. |
| `Registry.FilterRestaurantAppend` | src/main/java/com/springboot/controller/AutowiredController.java:39 | Filtering by restaurant distributes over concatenation. With the one-offer case, this means kept offers stay in registration order and each occurrence is kept once. |
| `Registry.FilterSegmentAppend` | src/main/java/com/springboot/controller/AutowiredController.java:40 | Filtering by segment distributes over concatenation. Order and multiplicity are kept. |
| `Registry.StreamFirst` | src/main/java/com/springboot/controller/AutowiredController.java:38-41 | The head of the stream, when present, is a registered offer that matches the restaurant and segment. The stream is empty exactly when no offer matches. |
| `Registry.StreamFirstIsFindFirst` | src/main/java/com/springboot/controller/AutowiredController.java:38-41 | The head of the filter-by-restaurant, filter-by-segment stream is the offer at the first-match index. The stream is empty exactly when there is no match. |
| `Offers.RuleOf` | src/main/java/com/springboot/controller/AutowiredController.java:47-51 | The flat-amount rule applies if and only if the type is exactly `"FLATX"`. Every other type string gets the percentage rule. |
| `Int32.Wrap` | src/main/java/com/springboot/controller/AutowiredController.java:48-50 | Java `int` arithmetic. In-range results are unchanged, results one modulus out of range are shifted back, and the result is congruent to the exact value modulo 2^32. |
| `Int32.Saturate` | src/main/java/com/springboot/controller/AutowiredController.java:50 | The `(int)` cast keeps in-range values and sticks at the nearest bound outside the range. |
| `Engine.Clamp` | src/main/java/com/springboot/controller/AutowiredController.java:36 | The clamped cart is non-negative and at least the input. It is either the input or 0. |
| `Engine.FlatOff` | src/main/java/com/springboot/controller/AutowiredController.java:47-48 | The result is `c - v`, or 0 when `v >= c`. When a negative `v` pushes `c - v` past the `int` maximum, it is 0. It is never negative and, for `v >= 0`, never above `c`. |
| `Engine.PercentOff` | src/main/java/com/springboot/controller/AutowiredController.java:49-50 | The result `r` is the truncation of `c - c*v/100`: `100r <= 100c - cv < 100r + 100`. It is 0 when that quantity is negative and the `int` maximum when it is too large. It is never negative and, for `v >= 0`, never above `c`. |
| `Engine.PercentOffAsWritten` | src/main/java/com/springboot/controller/AutowiredController.java:50 | The controller's percentage expression with the wrapping `int` product. It is never negative and equals the corrected rule whenever `c*v` fits in an `int`. |
| `Engine.PercentOfRemaining` | src/main/java/com/springboot/controller/AutowiredController.java:50 | The clamp-and-cast around the percentage expression: 0 when `c - product/100` is negative, its truncation when that fits in an `int`, and the `int` maximum above that. |
| `Engine.Discount` | src/main/java/com/springboot/controller/AutowiredController.java:47-51 | An offer of type exactly `"FLATX"` takes its value off the clamped cart. Any other type takes its value as a percentage. |
| `Engine.DiscountAsWritten` | src/main/java/com/springboot/controller/AutowiredController.java:47-51 | The same dispatch, with the controller's wrapping percentage product. |
| `Engine.Apply` | src/main/java/com/springboot/controller/AutowiredController.java:36-52 | The result is never negative. With no matching offer it is the clamped cart. Otherwise the earliest matching offer's rule is applied to the clamped cart, flat for `"FLATX"` and percentage for anything else. |
| `Engine.ApplyAsWritten` | src/main/java/com/springboot/controller/AutowiredController.java:36-52 | The controller's engine with the wrapping product still never returns a negative cart. |
| `Engine.ApplyAsWrittenAgreesOffPercentage` | src/main/java/com/springboot/controller/AutowiredController.java:36-52 | With no match or a `"FLATX"` first match, the controller's engine and the corrected engine return the same cart. So clamping, first-match selection and the flat rule hold of the code as written. |
| `Engine.ApplyUsesFirstMatch` | src/main/java/com/springboot/controller/AutowiredController.java:43-51 | Only the first matching offer decides the result. |
| `Engine.ApplyNeverRaises` | src/main/java/com/springboot/controller/AutowiredController.java:47-50 | If the first match has a non-negative value, the result is at most the clamped cart, under either rule. |
| `Engine.AddKeepsApply` | src/main/java/com/springboot/controller/AutowiredController.java:38-52 | Posting an offer never changes the cart value of a request that already had a matching offer. |
| `Engine.AppendKeepsApply` | src/main/java/com/springboot/controller/AutowiredController.java:38-52 | Posting any number of offers never changes the cart value of a request that already had a matching offer. |
| `Engine.ApplyAsWrittenAgreesInRange` | src/main/java/com/springboot/controller/AutowiredController.java:50 | The controller's arithmetic and the corrected arithmetic give the same cart when the product of cart and offer value fits in an `int`. |
| `Engine.ProductOverflowRaisesCart` | src/main/java/com/springboot/controller/AutowiredController.java:50 | A 3% offer on a cart of 2^30 makes the controller return 1084479242, above the cart. The corrected rule returns 1041529569. |
| `Controller.ResolveSegment` | src/main/java/com/springboot/controller/AutowiredController.java:72-74 | A failed segment lookup becomes the segment `"unknown"`. A successful one passes its segment through. |
| `Controller.ApplyOffer` | src/main/java/com/springboot/controller/AutowiredController.java:34-55 | The returned cart is never negative. A failed lookup goes on with the segment `"unknown"` and gets the engine's result for it. A successful lookup gets the engine's result for the returned segment. The engine used is the corrected one; see Left out and Findings. |
| `Controller.UnknownUserGetsNoDiscount` | src/main/java/com/springboot/controller/AutowiredController.java:37-43 | After a failed lookup, if no offer of the restaurant lists `"unknown"`, the cart comes back clamped but otherwise unchanged. |
| `Scenarios.FlatAmountScenarios` | src/test/java/com/springboot/CartOfferApplicationTests.java:69-95 | 200 with 10 off gives 190 and with 50 off gives 150. Carts of 0, 5 and -100 give 0 (test lines 141-167 and 213-225). |
| `Scenarios.PercentScenarios` | src/test/java/com/springboot/CartOfferApplicationTests.java:98-124 | 20% off 200, 1000 and 1000000 gives 160, 800 and 800000 (the last at test lines 227-239). |
| `Scenarios.MultiSegmentScenarios` | src/test/java/com/springboot/CartOfferApplicationTests.java:170-196 | An offer listing "p1" and "p2" gives 15% off to both segments: 200 becomes 170. |
| `Scenarios.AllSegmentsScenario` | src/test/java/com/springboot/CartOfferApplicationTests.java:198-210 | An offer listing every segment takes 25% off 400, giving 300. |
| `Scenarios.NoMatchScenarios` | src/test/java/com/springboot/CartOfferApplicationTests.java:127-139 | An unknown restaurant gives no discount, and so does the `"unknown"` segment of an unresolvable user (test lines 260-272). |
| `Scenarios.FirstAddedWins` | src/test/java/com/springboot/CartOfferApplicationTests.java:241-291 | When a flat and a percentage offer both match, the one posted first applies: 190 and 150. |
| `Scenarios.TruncationScenarios` | src/test/java/com/springboot/CartOfferApplicationTests.java:293-307 | 33% off 100 truncates to 67, and 15% off 100 gives 85 (test lines 341-361). |
| `Scenarios.BulkScenario` | src/test/java/com/springboot/CartOfferApplicationTests.java:381-408 | Among ten offers posted in a loop, restaurant 50's flat 60 takes 200 to 140. |
| `Scenarios.ComplexScenario` | src/test/java/com/springboot/CartOfferApplicationTests.java:410-447 | Three offers for one restaurant give 250, 210 and 225 for segments p1, p2 and p3. |
| `Scenarios.SharedRegistryBreaksNoMatch` | src/test/java/com/springboot/CartOfferApplicationTests.java:127-139 | After the offer-creation test posts a flat 50 off for restaurant 10 and "p1" (test line 53), the "no applicable offer" request returns 150, not the expected 200. |
| `Scenarios.SetupAnswersSurvive` | src/test/java/com/springboot/CartOfferApplicationTests.java:33-42 | The setup offers are posted again before every test. The answers they give hold whatever offers are posted after them. |

## Left out

- HTTP layer: the Spring annotations, request and response mapping, the `ApiResponse("success")` envelope and the response `Map` are transport plumbing.
- Segment lookup: the `HttpURLConnection` request and the Jackson decoding are network I/O. The model takes the lookup's outcome as an `Option<string>` from a function parameter. A response that decodes without a segment field, leaving the segment null, is not modelled.
- Floating point: the percentage expression is computed in exact rational arithmetic. `0.01` is not exactly representable, and last-bit differences from the `double` evaluation are assumed not to change the truncated result.
- Null values: a missing offer type or segment list would throw in the controller, and Java null is not modelled.
- Offer-type validation at ingestion: the code has none. Every type string other than `"FLATX"` falls through to the percentage rule, and the model keeps that fallback.
- Concurrency: the offer list is shared and unsynchronised, and concurrent posting and applying is not modelled.
- Logging: the `System.out.println` calls have no effect on results.
- Test-suite specifics: response-time assertions and the user-to-segment fixtures of the mock service. The scenarios pass the resolved segment directly.
- `OfferRequest`, `ApplyOfferRequest` and `SegmentResponse` are not part of this model. Their fields are assumed to be primitive `int`, `String` and `List<String>`.
- Restaurant-id comparison: the `==` at AutowiredController.java:39 is modelled as integer equality. If both request classes declared the id as `Integer`, that `==` would compare object references, and ids outside -128..127 (restaurant 150, for one) would never match. The model does not cover that case.
- `Engine.Apply`: uses the exact product `cartVal * offer_value` rather than the wrapping `int` product at AutowiredController.java:50. It differs from the code only when that product leaves the `int` range. The code as written is `Engine.ApplyAsWritten` (see Findings).
- `Controller.ApplyOffer`: composes the corrected `Engine.Apply`, so it does not return the controller's result when `cartVal * offer_value` overflows an `int` (see Findings). `Engine.ApplyAsWritten` is that result.

## Findings

| source | as written | input that shows it | evidently intended | confidence | as-written member | corrected member |
|---|---|---|---|---|---|---|
| src/main/java/com/springboot/controller/AutowiredController.java:50 | `cartVal * gotOffer.getOffer_value()` is an `int` product, evaluated before the `* 0.01`, and it wraps on overflow. | A `"FLATP"` offer of 3 on a cart of 1073741824: the product wraps to -1073741824, and the returned cart is 1084479242, above the original. | The discount is computed on the exact product, for example in `long` or `double`: 1041529569, and never more than the cart for a non-negative percentage. | high, not executed | `Engine.ProductOverflowRaisesCart` (about `Engine.PercentOffAsWritten`, `Engine.ApplyAsWritten`) | `Engine.PercentOff` (used by `Engine.Apply` and `Controller.ApplyOffer`; `Engine.ApplyNeverRaises`) |
| src/test/java/com/springboot/CartOfferApplicationTests.java:127-139 | Every test shares the controller's offer list, which is never cleared. `testCreateFlatAmountOffer` posts a flat 50 off for restaurant 10 and "p1". `testNoApplicableOffer` expects restaurant 10 to have no offer. | `testCreateFlatAmountOffer` runs before `testNoApplicableOffer`: the registry is the setup plus that offer, and the request returns 150 instead of 200. | Each test starts from the setup offers alone, or uses a restaurant no other test posts for. The expectation of 200 then holds. | medium (depends on the order in which the tests run), not executed | `Scenarios.SharedRegistryBreaksNoMatch` | `Scenarios.NoMatchScenarios` |
