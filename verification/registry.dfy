/** The offer registry: an insertion-ordered list of offers that only ever
    grows, and the first-match query the discount engine runs over it. */
module Registry {
  import opened Int32
  import opened Options
  import opened Offers

  /** The registry at start-up. */
  const Empty: seq<Offer> := []

  /** Registering an offer appends it, whatever its contents; nothing is
      validated and nothing is rejected. */
  function Add(reg: seq<Offer>, o: Offer): (reg': seq<Offer>)
    ensures |reg'| == |reg| + 1
    ensures reg'[..|reg|] == reg
    ensures reg'[|reg|] == o
    ensures forall i :: 0 <= i < |reg| ==> reg'[i] == reg[i]
  {
    reg + [o]
  }

  /** `i` is the position of the earliest-registered offer matching the
      restaurant and segment. */
  ghost predicate IsFirstMatch(reg: seq<Offer>, restaurantId: int32, segment: string, i: int) {
    && 0 <= i < |reg|
    && Matches(reg[i], restaurantId, segment)
    && forall j :: 0 <= j < i ==> !Matches(reg[j], restaurantId, segment)
  }

  /** The position of the first offer, in registration order, that matches
      the restaurant and segment; `None` when no offer matches. */
  function FindFirst(reg: seq<Offer>, restaurantId: int32, segment: string): (found: Option<nat>)
    ensures found.None? <==> forall i :: 0 <= i < |reg| ==> !Matches(reg[i], restaurantId, segment)
    ensures found.Some? ==> IsFirstMatch(reg, restaurantId, segment, found.value)
    decreases |reg|
  {
    if |reg| == 0 then None
    else if Matches(reg[0], restaurantId, segment) then Some(0)
    else
      match FindFirst(reg[1..], restaurantId, segment)
      case None => None
      case Some(j) => Some(j + 1)
  }

  /** The first-match position is the only one: `FindFirst` returns exactly
      the index that satisfies `IsFirstMatch`. */
  lemma FindFirstIsFirstMatch(reg: seq<Offer>, restaurantId: int32, segment: string, i: int)
    ensures FindFirst(reg, restaurantId, segment) == Some(i) <==> IsFirstMatch(reg, restaurantId, segment, i)
  {
  }

  /** Appending an offer never changes which offer a query that already had
      a match resolves to: the earlier offer still comes first. */
  lemma {:induction false} AddKeepsFirstMatch(reg: seq<Offer>, o: Offer, restaurantId: int32, segment: string)
    requires FindFirst(reg, restaurantId, segment).Some?
    ensures FindFirst(Add(reg, o), restaurantId, segment) == FindFirst(reg, restaurantId, segment)
  {
    var i := FindFirst(reg, restaurantId, segment).value;
    assert IsFirstMatch(Add(reg, o), restaurantId, segment, i);
    FindFirstIsFirstMatch(Add(reg, o), restaurantId, segment, i);
  }

  /** Registering any number of further offers keeps an existing match. */
  lemma {:induction false} AppendKeepsFirstMatch(reg: seq<Offer>, more: seq<Offer>, restaurantId: int32, segment: string)
    requires FindFirst(reg, restaurantId, segment).Some?
    ensures FindFirst(reg + more, restaurantId, segment) == FindFirst(reg, restaurantId, segment)
    decreases |more|
  {
    if |more| > 0 {
      var init := more[..|more| - 1];
      AppendKeepsFirstMatch(reg, init, restaurantId, segment);
      AddKeepsFirstMatch(reg + init, more[|more| - 1], restaurantId, segment);
      assert reg + more == Add(reg + init, more[|more| - 1]);
    } else {
      assert reg + more == reg;
    }
  }

  /** A query with no match so far is answered by the new offer exactly when
      that offer matches it. */
  lemma {:induction false} AddToUnmatched(reg: seq<Offer>, o: Offer, restaurantId: int32, segment: string)
    requires FindFirst(reg, restaurantId, segment).None?
    ensures FindFirst(Add(reg, o), restaurantId, segment)
         == if Matches(o, restaurantId, segment) then Some(|reg|) else None
  {
    var reg' := Add(reg, o);
    if Matches(o, restaurantId, segment) {
      assert IsFirstMatch(reg', restaurantId, segment, |reg|);
      FindFirstIsFirstMatch(reg', restaurantId, segment, |reg|);
    } else {
      assert forall i :: 0 <= i < |reg'| ==> !Matches(reg'[i], restaurantId, segment) by {
        forall i | 0 <= i < |reg'|
          ensures !Matches(reg'[i], restaurantId, segment)
        {
          if i < |reg| {
            assert reg'[i] == reg[i];
          }
        }
      }
    }
  }

  // The lookup as the controller writes it: a stream over the registry,
  // filtered by restaurant, then by segment, then its first element.

  /** The offers of one restaurant, in registration order. */
  function FilterRestaurant(reg: seq<Offer>, restaurantId: int32): (kept: seq<Offer>)
    ensures |kept| <= |reg|
    ensures forall o :: o in kept <==> o in reg && o.restaurantId == restaurantId
    ensures |reg| == 1 ==> kept == if reg[0].restaurantId == restaurantId then reg else []
    decreases |reg|
  {
    if |reg| == 0 then []
    else if reg[0].restaurantId == restaurantId then [reg[0]] + FilterRestaurant(reg[1..], restaurantId)
    else FilterRestaurant(reg[1..], restaurantId)
  }

  /** The offers that list a segment, in their original order. */
  function FilterSegment(offers: seq<Offer>, segment: string): (kept: seq<Offer>)
    ensures |kept| <= |offers|
    ensures forall o :: o in kept <==> o in offers && segment in o.segments
    ensures |offers| == 1 ==> kept == if segment in offers[0].segments then offers else []
    decreases |offers|
  {
    if |offers| == 0 then []
    else if segment in offers[0].segments then [offers[0]] + FilterSegment(offers[1..], segment)
    else FilterSegment(offers[1..], segment)
  }

  /** Filtering by restaurant distributes over concatenation: kept offers
      stay in their order and each occurrence is kept once. With the
      one-offer case in the function's contract this fixes the result. */
  lemma {:induction false} FilterRestaurantAppend(a: seq<Offer>, b: seq<Offer>, restaurantId: int32)
    ensures FilterRestaurant(a + b, restaurantId) == FilterRestaurant(a, restaurantId) + FilterRestaurant(b, restaurantId)
    decreases |a|
  {
    if |a| == 0 {
      assert a + b == b;
    } else {
      var ab := a + b;
      assert ab[0] == a[0];
      assert ab[1..] == a[1..] + b;
      FilterRestaurantAppend(a[1..], b, restaurantId);
      if a[0].restaurantId == restaurantId {
        calc {
          FilterRestaurant(ab, restaurantId);
          [a[0]] + FilterRestaurant(a[1..] + b, restaurantId);
          [a[0]] + (FilterRestaurant(a[1..], restaurantId) + FilterRestaurant(b, restaurantId));
          ([a[0]] + FilterRestaurant(a[1..], restaurantId)) + FilterRestaurant(b, restaurantId);
        }
      } else {
        assert FilterRestaurant(ab, restaurantId) == FilterRestaurant(a[1..] + b, restaurantId);
      }
    }
  }

  /** Filtering by segment distributes over concatenation in the same way. */
  lemma {:induction false} FilterSegmentAppend(a: seq<Offer>, b: seq<Offer>, segment: string)
    ensures FilterSegment(a + b, segment) == FilterSegment(a, segment) + FilterSegment(b, segment)
    decreases |a|
  {
    if |a| == 0 {
      assert a + b == b;
    } else {
      var ab := a + b;
      assert ab[0] == a[0];
      assert ab[1..] == a[1..] + b;
      FilterSegmentAppend(a[1..], b, segment);
      if segment in a[0].segments {
        calc {
          FilterSegment(ab, segment);
          [a[0]] + FilterSegment(a[1..] + b, segment);
          [a[0]] + (FilterSegment(a[1..], segment) + FilterSegment(b, segment));
          ([a[0]] + FilterSegment(a[1..], segment)) + FilterSegment(b, segment);
        }
      } else {
        assert FilterSegment(ab, segment) == FilterSegment(a[1..] + b, segment);
      }
    }
  }

  /** The head of the filtered stream: an offer that matches, and none at
      all exactly when no offer of the registry matches. */
  function StreamFirst(reg: seq<Offer>, restaurantId: int32, segment: string): (head: Option<Offer>)
    ensures head.Some? ==> head.value in reg && Matches(head.value, restaurantId, segment)
    ensures head.None? <==> forall i :: 0 <= i < |reg| ==> !Matches(reg[i], restaurantId, segment)
  {
    var kept := FilterSegment(FilterRestaurant(reg, restaurantId), segment);
    if |kept| == 0 then None else Some(kept[0])
  }

  /** The stream pipeline and the index search pick the same offer. */
  lemma {:induction false} StreamFirstIsFindFirst(reg: seq<Offer>, restaurantId: int32, segment: string)
    ensures StreamFirst(reg, restaurantId, segment)
         == match FindFirst(reg, restaurantId, segment)
            case None => None
            case Some(i) => Some(reg[i])
    decreases |reg|
  {
    if |reg| == 0 {
    } else {
      var o := reg[0];
      var rest := reg[1..];
      StreamFirstIsFindFirst(rest, restaurantId, segment);
      var byRestaurant := FilterRestaurant(rest, restaurantId);
      if o.restaurantId == restaurantId {
        assert FilterRestaurant(reg, restaurantId) == [o] + byRestaurant;
        var s := [o] + byRestaurant;
        assert s[0] == o && s[1..] == byRestaurant;
        if segment in o.segments {
          assert FilterSegment(s, segment) == [o] + FilterSegment(byRestaurant, segment);
        } else {
          assert FilterSegment(s, segment) == FilterSegment(byRestaurant, segment);
        }
      } else {
        assert FilterRestaurant(reg, restaurantId) == byRestaurant;
      }
    }
  }
}
