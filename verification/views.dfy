/**
 * The business rules of uptowngallery/views.py, with HTTP, templates, the
 * messages framework and the ORM stripped away: each view is a guard over
 * its request parameters plus a change to the `Store` or to a profile.
 */
module Views {
  import opened Wrappers
  import opened Models

  /** Artworks per page on the pending-artworks page. */
  const PER_PAGE: nat := 10

  // ---------------------------------------------------------------------
  // Prices shown for an auction

  /** The price shown for auction `id`: the amount of its highest bid, or its
      own (integer) reserve price when nobody has bid. The detail page shows
      it as the current price, the dashboard as the final price of a closed
      auction. */
  function AuctionPrice(id: nat, auction: Auction, bids: seq<Bid>): (price: Option<int>)
    ensures (forall k :: 0 <= k < |bids| ==> bids[k].auction != id) ==> price == auction.reservePrice
    ensures (exists k :: 0 <= k < |bids| && bids[k].auction == id) ==>
      && price.Some?
      && (exists k :: 0 <= k < |bids| && bids[k].auction == id && bids[k].amount == price.value)
      && (forall k :: 0 <= k < |bids| && bids[k].auction == id ==> bids[k].amount <= price.value)
  {
    assert forall k :: 0 <= k < |bids| ==> (bids[k].auction in {id} <==> bids[k].auction == id);
    HighestOr(AmountsOn(bids, {id}), auction.reservePrice)
  }

  /** When an artwork has a single auction that has bids, the artwork's price
      and the auction's price agree. */
  lemma {:induction false} PricesAgreeOnSingleAuction(art: Artwork, auctions: map<nat, Auction>, bids: seq<Bid>, id: nat)
    requires AuctionsOf(auctions, art.id) == {id}
    requires exists k :: 0 <= k < |bids| && bids[k].auction == id
    ensures CalculatePrice(art, auctions, bids) == AuctionPrice(id, auctions[id], bids)
  {
    assert id in AuctionsOf(auctions, art.id);
    var artPrice := CalculatePrice(art, auctions, bids);
    var shown := AuctionPrice(id, auctions[id], bids);
    var i :| 0 <= i < |bids| && bids[i].auction == id && bids[i].amount == artPrice.value;
    var j :| 0 <= j < |bids| && bids[j].auction == id && bids[j].amount == shown.value;
    assert bids[j].auction in AuctionsOf(auctions, art.id);
  }

  /** Without bids, the price shown for a freshly started auction is the
      artwork's reserve price cut to whole currency units, while
      `calculate_price` still reports the full reserve price. */
  lemma NoBidPricesAfterStart(art: Artwork, auctions: map<nat, Auction>, bids: seq<Bid>, id: nat, now: int, endClock: int)
    requires id in auctions && auctions[id] == StartedAuction(art, now, endClock)
    requires forall k :: 0 <= k < |bids| ==> bids[k].auction !in AuctionsOf(auctions, art.id)
    ensures CalculatePrice(art, auctions, bids) == art.reservePrice
    ensures AuctionPrice(id, auctions[id], bids) == AuctionReserve(art.reservePrice)
  {
    assert id in AuctionsOf(auctions, art.id);
  }

  // ---------------------------------------------------------------------
  // Placing a bid (AuctionDetailView.post)

  /** What the bid view answers. */
  datatype BidOutcome =
    | ArtworkNotFound       // 404 on the artwork
    | AuctionNotFound       // 404 on the auction of that artwork
    | FormErrors            // the form did not validate; the page is shown again
    | WholePriceWarning     // "Please enter a whole price without cents."
    | Submitted(bid: Bid)   // "Your bid was submitted successfully!"

  /** True when the amount, in cents, has no fractional currency part
      (`amount % 1 == 0`). */
  predicate IsWholeAmount(cents: int)
  {
    cents % 100 == 0
  }

  /** `AuctionDetailView.post`. `formAmount` is the cleaned amount of a valid
      bid form and `None` when the form does not validate; `bidder` is the
      caller's profile and `now` the clock reading. */
  method PlaceBid(store: Store, artworkId: nat, auctionId: nat, formAmount: Option<int>, bidder: nat, now: int)
    returns (outcome: BidOutcome)
    requires store.Valid()
    modifies store
    ensures store.Valid()
    ensures store.artworks == old(store.artworks) && store.auctions == old(store.auctions)
    ensures store.nextAuctionId == old(store.nextAuctionId)
    ensures outcome == ArtworkNotFound <==> artworkId !in store.artworks
    ensures outcome == AuctionNotFound <==>
      artworkId in store.artworks && (auctionId !in store.auctions || store.auctions[auctionId].artwork != artworkId)
    ensures outcome == FormErrors <==>
      && artworkId in store.artworks
      && auctionId in store.auctions && store.auctions[auctionId].artwork == artworkId
      && formAmount.None?
    ensures outcome == WholePriceWarning <==>
      && artworkId in store.artworks
      && auctionId in store.auctions && store.auctions[auctionId].artwork == artworkId
      && formAmount.Some? && !IsWholeAmount(formAmount.value)
    ensures outcome.Submitted? <==>
      && artworkId in store.artworks
      && auctionId in store.auctions && store.auctions[auctionId].artwork == artworkId
      && formAmount.Some? && IsWholeAmount(formAmount.value)
    ensures outcome.Submitted? ==>
      && outcome.bid == Bid(Some(bidder), auctionId, formAmount.value, now)
      && store.bids == old(store.bids) + [outcome.bid]
    ensures !outcome.Submitted? ==> store.bids == old(store.bids)
  {
    if artworkId !in store.artworks {
      return ArtworkNotFound;
    }
    if auctionId !in store.auctions || store.auctions[auctionId].artwork != artworkId {
      return AuctionNotFound;
    }
    if formAmount.None? {
      return FormErrors;
    }
    var amount := formAmount.value;
    if !IsWholeAmount(amount) {
      return WholePriceWarning;
    }
    var bid := Bid(bidder := Some(bidder), auction := auctionId, amount := amount, bidTime := now);
    store.bids := store.bids + [bid];
    outcome := Submitted(bid);
  }

  // ---------------------------------------------------------------------
  // Profile field update (UpdateProfileView.post)

  /** The JSON answer of the profile update and its HTTP status. */
  datatype ProfileResponse = FieldUpdated(field: string, newValue: Option<string>) | InvalidField
  {
    function StatusCode(): int
    {
      if FieldUpdated? then 200 else 400
    }

    /** The JSON object sent back; `None` stands for JSON `null`. */
    function Body(): map<string, Option<string>>
    {
      match this
      case FieldUpdated(field, newValue) =>
        map["status" := Some("success"), "field" := Some(field), "new_value" := newValue]
      case InvalidField =>
        map["status" := Some("error"), "message" := Some("Invalid field")]
    }
  }

  /** The request field names the view accepts and the attribute each sets. */
  const PROFILE_FIELDS: map<string, string> := map["name" := "name", "shipping_address" := "shipping_address"]

  /** `UpdateProfileView.post`: set one allowed attribute of the caller's
      profile to `value` and echo it; any other field name is refused with
      status 400 and the profile is left as it was. */
  method UpdateProfile(profile: UserProfile, field: Option<string>, value: Option<string>)
    returns (response: ProfileResponse)
    modifies profile
    ensures response.FieldUpdated? <==> field == Some("name") || field == Some("shipping_address")
    ensures response.FieldUpdated? ==>
      && response == FieldUpdated(field.value, value)
      && response.StatusCode() == 200
      && response.Body() == map["status" := Some("success"), "field" := field, "new_value" := value]
    ensures field == Some("name") ==>
      profile.name == value && profile.shippingAddress == old(profile.shippingAddress)
    ensures field == Some("shipping_address") ==>
      profile.shippingAddress == value && profile.name == old(profile.name)
    ensures profile.createDate == old(profile.createDate)
    ensures response.InvalidField? ==>
      && unchanged(profile)
      && response.StatusCode() == 400
      && response.Body() == map["status" := Some("error"), "message" := Some("Invalid field")]
  {
    if field.Some? && field.value in PROFILE_FIELDS {
      var attribute := PROFILE_FIELDS[field.value];
      if attribute == "name" {
        profile.name := value;
      } else {
        profile.shippingAddress := value;
      }
      response := FieldUpdated(field.value, value);
    } else {
      response := InvalidField;
    }
  }

  // ---------------------------------------------------------------------
  // Activity dashboard (ActivityDashboardView)

  /** Auction `id` exists and belongs to an artwork of `profile`. */
  predicate OwnsAuction(artworks: map<nat, Artwork>, auctions: map<nat, Auction>, profile: nat, id: nat)
  {
    && id in auctions
    && auctions[id].artwork in artworks
    && artworks[auctions[id].artwork].artist == Some(profile)
  }

  /** The closed auctions on the artworks of `profile`. */
  function ClosedAuctionsOf(artworks: map<nat, Artwork>, auctions: map<nat, Auction>, profile: nat): set<nat>
  {
    set id | id in auctions && auctions[id].status == "closed" && OwnsAuction(artworks, auctions, profile, id)
  }

  /** `ActivityDashboardView.get`, closed-auction part: give each closed
      auction of the caller its final price. */
  method ClosedAuctionFinalPrices(store: Store, profile: nat) returns (finalPrices: map<nat, Option<int>>)
    ensures finalPrices.Keys == ClosedAuctionsOf(store.artworks, store.auctions, profile)
    ensures forall id :: id in finalPrices ==>
      id in store.auctions && finalPrices[id] == AuctionPrice(id, store.auctions[id], store.bids)
  {
    var closed := ClosedAuctionsOf(store.artworks, store.auctions, profile);
    var remaining := closed;
    finalPrices := map[];
    while remaining != {}
      invariant remaining <= closed
      invariant finalPrices.Keys == closed - remaining
      invariant forall id :: id in finalPrices ==>
        id in store.auctions && finalPrices[id] == AuctionPrice(id, store.auctions[id], store.bids)
      decreases remaining
    {
      var id :| id in remaining;
      finalPrices := finalPrices[id := AuctionPrice(id, store.auctions[id], store.bids)];
      remaining := remaining - {id};
    }
  }

  /** The bid table without the bids on auction `id` (the delete cascade). */
  function BidsNotOn(bids: seq<Bid>, id: nat): (kept: seq<Bid>)
    ensures forall k :: 0 <= k < |kept| ==> kept[k].auction != id && kept[k] in bids
    ensures forall k :: 0 <= k < |bids| && bids[k].auction != id ==> bids[k] in kept
    ensures forall b :: multiset(kept)[b] == (if b.auction == id then 0 else multiset(bids)[b])
  {
    if |bids| == 0 then []
    else
      var rest := BidsNotOn(bids[1..], id);
      assert forall k :: 1 <= k < |bids| ==> bids[k] == bids[1..][k - 1];
      assert bids == [bids[0]] + bids[1..];
      if bids[0].auction == id then rest else [bids[0]] + rest
  }

  /** The cascade works row by row and keeps the surviving rows in their
      original order: filtering a concatenation is the concatenation of the
      filtered parts. */
  lemma {:induction false} BidsNotOnAppend(a: seq<Bid>, b: seq<Bid>, id: nat)
    ensures BidsNotOn(a + b, id) == BidsNotOn(a, id) + BidsNotOn(b, id)
    decreases |a|
  {
    if |a| == 0 {
      assert a + b == b;
    } else {
      assert (a + b)[1..] == a[1..] + b;
      BidsNotOnAppend(a[1..], b, id);
    }
  }

  /** A single row survives the cascade exactly when it is on another auction. */
  lemma BidsNotOnSingle(b: Bid, id: nat)
    ensures BidsNotOn([b], id) == if b.auction == id then [] else [b]
  {
  }

  /** What the delete action answers. */
  datatype DeleteOutcome =
    | InvalidAuctionId     // "Invalid auction ID."
    | NotFound             // 404: no such auction on the caller's artworks
    | Deleted              // "Auction deleted successfully."
    | CannotDeleteActive   // "Cannot delete active auctions."

  /** `ActivityDashboardView.post`: delete the caller's auction `auctionId`
      (`None` when the parameter is missing or empty) only if it is closed;
      its bids go with it. */
  method DeleteClosedAuction(store: Store, profile: nat, auctionId: Option<nat>) returns (outcome: DeleteOutcome)
    requires store.Valid()
    modifies store
    ensures store.Valid()
    ensures store.artworks == old(store.artworks) && store.nextAuctionId == old(store.nextAuctionId)
    ensures outcome == InvalidAuctionId <==> auctionId.None?
    ensures outcome == NotFound <==>
      auctionId.Some? && !OwnsAuction(old(store.artworks), old(store.auctions), profile, auctionId.value)
    ensures outcome == Deleted <==>
      && auctionId.Some? && OwnsAuction(old(store.artworks), old(store.auctions), profile, auctionId.value)
      && old(store.auctions)[auctionId.value].status == "closed"
    ensures outcome == Deleted ==>
      && store.auctions == old(store.auctions) - {auctionId.value}
      && store.bids == BidsNotOn(old(store.bids), auctionId.value)
    ensures outcome != Deleted ==> store.auctions == old(store.auctions) && store.bids == old(store.bids)
  {
    if auctionId.None? {
      return InvalidAuctionId;
    }
    var id := auctionId.value;
    if !OwnsAuction(store.artworks, store.auctions, profile, id) {
      return NotFound;
    }
    if store.auctions[id].status == "closed" {
      store.auctions := store.auctions - {id};
      store.bids := BidsNotOn(store.bids, id);
      outcome := Deleted;
    } else {
      outcome := CannotDeleteActive;
    }
  }

  // ---------------------------------------------------------------------
  // Pending artworks page (PendingArtworksView.get)

  function Max(a: int, b: int): int
  {
    if a >= b then a else b
  }

  /** The paginator's page count for `count` artworks: at least one page,
      even when there is nothing to show. */
  function NumPages(count: nat): (pages: nat)
    ensures pages >= 1
    ensures (pages - 1) * PER_PAGE < Max(count, 1) <= pages * PER_PAGE
  {
    (Max(count, 1) + PER_PAGE - 1) / PER_PAGE
  }

  /** The page the pending-artworks view shows for the `page` parameter
      (`None` when it is missing or not an integer) over `count` artworks. */
  function PendingPage(page: Option<int>, count: nat): (shown: nat)
    ensures 1 <= shown <= NumPages(count)
    ensures page.None? ==> shown == 1
    ensures page.Some? && 1 <= page.value <= NumPages(count) ==> shown == page.value
    ensures page.Some? && (page.value < 1 || page.value > NumPages(count)) ==> shown == NumPages(count)
  {
    match page
    case None => 1                              // PageNotAnInteger
    case Some(n) =>
      if n < 1 || n > NumPages(count) then NumPages(count)   // EmptyPage
      else n
  }
}
