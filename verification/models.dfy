/**
 * The auction lifecycle of uptowngallery/models.py.
 *
 * The database is an in-memory `Store`: a table of artworks, a table of
 * auctions keyed by their id, and the bid table in insertion order. Money is
 * counted in integer cents, time in integer seconds; the clock is read by the
 * caller and passed in.
 */
module Models {
  import opened Wrappers

  /** One day (a `timedelta(days=1)`) in seconds. */
  const DAY: int := 86400

  /** The values the artwork form stores in `auction_duration`. */
  const DURATION_CHOICES: seq<string> := ["3", "5", "7"]

  /** An artwork row. `reservePrice` is a nullable two-place decimal, in cents. */
  datatype Artwork = Artwork(
    id: nat,
    artist: Option<nat>,
    approvalStatus: string,
    auctionDuration: string,
    reservePrice: Option<int>)

  /** An auction row. `reservePrice` is an integer column, held here in cents
      (so it is always a whole number of currency units). */
  datatype Auction = Auction(
    artwork: nat,
    createDate: int,
    status: string,
    isActive: Option<bool>,
    endDate: Option<int>,
    duration: Option<string>,
    reservePrice: Option<int>)

  /** A bid row; `amount` in cents. */
  datatype Bid = Bid(bidder: Option<nat>, auction: nat, amount: int, bidTime: int)

  /** What `get_or_create` did in `approve_and_start_auction`. */
  datatype StartOutcome = Created(id: nat) | Updated(id: nat) | MultipleObjectsReturned

  /** Outcome of `Bids.clean`: nothing, or the `ValidationError` it raises. */
  datatype CleanResult = Clean | ValidationError(message: string)

  // ---------------------------------------------------------------------
  // Prices

  /** The amounts of the bids placed on any auction in `ids`, in table order
      (`Bids.objects.filter(auction__in=ids)`). */
  function AmountsOn(bids: seq<Bid>, ids: set<nat>): (amounts: seq<int>)
    ensures forall k :: 0 <= k < |bids| && bids[k].auction in ids ==> bids[k].amount in amounts
    ensures forall x :: x in amounts ==>
      exists k :: 0 <= k < |bids| && bids[k].auction in ids && bids[k].amount == x
  {
    if |bids| == 0 then []
    else
      var rest := AmountsOn(bids[1..], ids);
      assert forall k :: 1 <= k < |bids| ==> bids[k] == bids[1..][k - 1];
      if bids[0].auction in ids then [bids[0].amount] + rest else rest
  }

  /** The largest of a non-empty list of amounts (Python's `max`). */
  function MaxAmount(amounts: seq<int>): (m: int)
    requires |amounts| > 0
    ensures m in amounts
    ensures forall x :: x in amounts ==> x <= m
  {
    if |amounts| == 1 then amounts[0]
    else
      var rest := MaxAmount(amounts[1..]);
      assert forall x :: x in amounts ==> x == amounts[0] || x in amounts[1..];
      if amounts[0] >= rest then amounts[0] else rest
  }

  /** The highest amount, or `fallback` when there is no amount at all. */
  function HighestOr(amounts: seq<int>, fallback: Option<int>): (r: Option<int>)
    ensures |amounts| == 0 ==> r == fallback
    ensures |amounts| > 0 ==> r.Some? && r.value in amounts && forall x :: x in amounts ==> x <= r.value
  {
    if |amounts| == 0 then fallback else Some(MaxAmount(amounts))
  }

  /** The ids of the auctions of artwork `artworkId` (`artwork.auctions.all()`). */
  function AuctionsOf(auctions: map<nat, Auction>, artworkId: nat): set<nat>
  {
    set id | id in auctions && auctions[id].artwork == artworkId
  }

  /** `Artwork.calculate_price`: the highest bid on any of the artwork's
      auctions, or the artwork's reserve price when there is none. */
  function CalculatePrice(art: Artwork, auctions: map<nat, Auction>, bids: seq<Bid>): (price: Option<int>)
    ensures (forall k :: 0 <= k < |bids| ==> bids[k].auction !in AuctionsOf(auctions, art.id)) ==>
      price == art.reservePrice
    ensures (exists k :: 0 <= k < |bids| && bids[k].auction in AuctionsOf(auctions, art.id)) ==>
      && price.Some?
      && (exists k :: 0 <= k < |bids| && bids[k].auction in AuctionsOf(auctions, art.id) && bids[k].amount == price.value)
      && (forall k :: 0 <= k < |bids| && bids[k].auction in AuctionsOf(auctions, art.id) ==> bids[k].amount <= price.value)
  {
    var related := AuctionsOf(auctions, art.id);
    if related != {} then
      HighestOr(AmountsOn(bids, related), art.reservePrice)
    else
      art.reservePrice
  }

  // ---------------------------------------------------------------------
  // Auction start

  /** The day count that `calculate_auction_end_date` looks up for a duration
      string: only the spellings "3_days", "5_days" and "7_days" are
      recognised, everything else falls back to three days. */
  function DurationDays(duration: string): (days: int)
    ensures days == 3 || days == 5 || days == 7
    ensures days == 5 <==> duration == "5_days"
    ensures days == 7 <==> duration == "7_days"
  {
    if duration == "3_days" then 3
    else if duration == "5_days" then 5
    else if duration == "7_days" then 7
    else 3
  }

  /** `Artwork.calculate_auction_end_date(auction_start)`. The argument is
      overwritten by a fresh clock reading `now` before it is used. */
  function AuctionEndDate(art: Artwork, auctionStart: int, now: int): (end: int)
    ensures end > now
    ensures end == now + 5 * DAY <==> art.auctionDuration == "5_days"
    ensures end == now + 7 * DAY <==> art.auctionDuration == "7_days"
    ensures end == now + 3 * DAY <==> art.auctionDuration != "5_days" && art.auctionDuration != "7_days"
  {
    now + DurationDays(art.auctionDuration) * DAY
  }

  /** Every duration the artwork form can store lasts three days, whatever
      it says: the stored choices never match the looked-up spellings. */
  lemma StoredChoicesLastThreeDays(art: Artwork, auctionStart: int, now: int)
    requires art.auctionDuration in DURATION_CHOICES
    ensures AuctionEndDate(art, auctionStart, now) == now + 3 * DAY
  {
  }

  /** The end date does not depend on the start passed in. */
  lemma EndDateIgnoresStart(art: Artwork, start1: int, start2: int, now: int)
    ensures AuctionEndDate(art, start1, now) == AuctionEndDate(art, start2, now)
  {
  }

  /** The value an integer column keeps of a decimal: Python's `int()`,
      which truncates toward zero, applied to an amount in cents. */
  function WholeUnits(cents: int): (whole: int)
    ensures whole % 100 == 0
    ensures 0 <= cents ==> 0 <= whole <= cents < whole + 100
    ensures cents < 0 ==> whole - 100 < cents <= whole <= 0
  {
    if cents >= 0 then cents / 100 * 100 else -((-cents) / 100 * 100)
  }

  /** The reserve price as the auction's integer column stores it. */
  function AuctionReserve(price: Option<int>): Option<int>
  {
    match price
    case None => None
    case Some(cents) => Some(WholeUnits(cents))
  }

  /** The auction row `approve_and_start_auction` writes for `art`, with the
      clock read at `now` for the start and at `endClock` for the end date. */
  function StartedAuction(art: Artwork, now: int, endClock: int): Auction
  {
    Auction(
      artwork := art.id,
      createDate := now,
      status := "active",
      isActive := Some(true),
      endDate := Some(AuctionEndDate(art, now, endClock)),
      duration := Some(art.auctionDuration),
      reservePrice := AuctionReserve(art.reservePrice))
  }

  /** The auction table after `approve_and_start_auction`: a new row under
      `nextId` when the artwork has none, its one row overwritten when it has
      one, and nothing changed when `get_or_create` finds several. */
  ghost function Upserted(auctions: map<nat, Auction>, nextId: nat, art: Artwork, now: int, endClock: int): map<nat, Auction>
  {
    var mine := AuctionsOf(auctions, art.id);
    if mine == {} then auctions[nextId := StartedAuction(art, now, endClock)]
    else if |mine| == 1 then
      var id :| id in mine;
      auctions[id := StartedAuction(art, now, endClock)]
    else auctions
  }

  /** The next free auction id after `approve_and_start_auction`. */
  function NextIdAfter(auctions: map<nat, Auction>, nextId: nat, artworkId: nat): nat
  {
    if AuctionsOf(auctions, artworkId) == {} then nextId + 1 else nextId
  }

  lemma SingletonMember(s: set<nat>, a: nat, b: nat)
    requires |s| == 1 && a in s && b in s
    ensures a == b
  {
    var rest := s - {a};
    assert |rest| == 0;
    assert b == a || b in rest;
  }

  /** Starting an auction for an artwork that has at most one leaves it with
      exactly one, and that one is active, copies the reserve price (as an
      integer) and the duration, and ends when the duration lookup says. */
  lemma {:induction false} UpsertLeavesExactlyOne(auctions: map<nat, Auction>, nextId: nat, art: Artwork, now: int, endClock: int)
    requires forall id :: id in auctions ==> id < nextId
    requires |AuctionsOf(auctions, art.id)| <= 1
    ensures |AuctionsOf(Upserted(auctions, nextId, art, now, endClock), art.id)| == 1
    ensures forall id :: id in AuctionsOf(Upserted(auctions, nextId, art, now, endClock), art.id) ==>
      var a := Upserted(auctions, nextId, art, now, endClock)[id];
      && a.status == "active" && a.isActive == Some(true)
      && a.reservePrice == AuctionReserve(art.reservePrice)
      && a.duration == Some(art.auctionDuration)
      && a.endDate == Some(AuctionEndDate(art, now, endClock))
  {
    var mine := AuctionsOf(auctions, art.id);
    var after := Upserted(auctions, nextId, art, now, endClock);
    if mine == {} {
      assert AuctionsOf(after, art.id) == {nextId};
    } else {
      var id :| id in mine;
      forall other | other in mine ensures other == id {
        SingletonMember(mine, id, other);
      }
      assert mine == {id};
      assert after == auctions[id := StartedAuction(art, now, endClock)];
      assert AuctionsOf(after, art.id) == {id};
    }
  }

  /** Starting an auction touches no auction of another artwork. */
  lemma {:induction false} UpsertKeepsOtherArtworks(auctions: map<nat, Auction>, nextId: nat, art: Artwork, now: int, endClock: int)
    requires forall id :: id in auctions ==> id < nextId
    ensures forall id :: id in auctions && auctions[id].artwork != art.id ==>
      id in Upserted(auctions, nextId, art, now, endClock) && Upserted(auctions, nextId, art, now, endClock)[id] == auctions[id]
    ensures forall other :: other != art.id ==>
      AuctionsOf(Upserted(auctions, nextId, art, now, endClock), other) == AuctionsOf(auctions, other)
  {
    var mine := AuctionsOf(auctions, art.id);
    var after := Upserted(auctions, nextId, art, now, endClock);
    if mine == {} {
      assert after == auctions[nextId := StartedAuction(art, now, endClock)];
    } else if |mine| == 1 {
      var id :| id in mine && after == auctions[id := StartedAuction(art, now, endClock)];
    }
  }

  /** Starting an auction twice for the same artwork still leaves exactly one
      auction of that artwork, and the second call creates nothing. */
  lemma {:induction false} UpsertTwiceLeavesOne(auctions: map<nat, Auction>, nextId: nat, art: Artwork, now1: int, end1: int, now2: int, end2: int)
    requires forall id :: id in auctions ==> id < nextId
    requires |AuctionsOf(auctions, art.id)| <= 1
    ensures var once := Upserted(auctions, nextId, art, now1, end1);
      var next := NextIdAfter(auctions, nextId, art.id);
      && NextIdAfter(once, next, art.id) == next
      && |AuctionsOf(Upserted(once, next, art, now2, end2), art.id)| == 1
  {
    var once := Upserted(auctions, nextId, art, now1, end1);
    var next := NextIdAfter(auctions, nextId, art.id);
    UpsertLeavesExactlyOne(auctions, nextId, art, now1, end1);
    UpsertKeepsIdsBelow(auctions, nextId, art, now1, end1);
    UpsertLeavesExactlyOne(once, next, art, now2, end2);
  }

  /** The upsert keeps every auction id below the next free id. */
  lemma UpsertKeepsIdsBelow(auctions: map<nat, Auction>, nextId: nat, art: Artwork, now: int, endClock: int)
    requires forall id :: id in auctions ==> id < nextId
    ensures forall id :: id in Upserted(auctions, nextId, art, now, endClock) ==> id < NextIdAfter(auctions, nextId, art.id)
  {
    var mine := AuctionsOf(auctions, art.id);
    if mine != {} && |mine| == 1 {
      var id :| id in mine && Upserted(auctions, nextId, art, now, endClock) == auctions[id := StartedAuction(art, now, endClock)];
    }
  }

  // ---------------------------------------------------------------------
  // Bid validation

  /** `Bids.clean`: an absent amount and a negative amount are refused, with
      their own messages; every other amount, zero included, is accepted. */
  function CleanBid(amount: Option<int>): (r: CleanResult)
    ensures r == ValidationError("Amount is required.") <==> amount.None?
    ensures r == ValidationError("Bid amount must be a positive number.") <==> amount.Some? && amount.value < 0
    ensures r == Clean <==> amount.Some? && amount.value >= 0
  {
    if amount.Some? then
      if amount.value < 0 then ValidationError("Bid amount must be a positive number.") else Clean
    else
      ValidationError("Amount is required.")
  }

  // ---------------------------------------------------------------------
  // The tables, updated in place

  /** A user profile row; the views update its fields in place. */
  class UserProfile {
    var name: Option<string>
    var shippingAddress: Option<string>
    var createDate: int

    constructor (name: Option<string>, shippingAddress: Option<string>, createDate: int)
      ensures this.name == name && this.shippingAddress == shippingAddress && this.createDate == createDate
    {
      this.name := name;
      this.shippingAddress := shippingAddress;
      this.createDate := createDate;
    }
  }

  /** The database: artworks by id, auctions by id, bids in insertion order,
      and the next id the auction table hands out. */
  class Store {
    var artworks: map<nat, Artwork>
    var auctions: map<nat, Auction>
    var bids: seq<Bid>
    var nextAuctionId: nat

    /** Keys agree with the rows, auction ids are below the next free id, and
        every bid refers to an existing auction (the foreign key). */
    ghost predicate Valid()
      reads this
    {
      && (forall id :: id in artworks ==> artworks[id].id == id)
      && (forall id :: id in auctions ==> id < nextAuctionId)
      && (forall k :: 0 <= k < |bids| ==> bids[k].auction in auctions)
    }

    constructor ()
      ensures Valid()
      ensures artworks == map[] && auctions == map[] && bids == [] && nextAuctionId == 0
    {
      artworks := map[];
      auctions := map[];
      bids := [];
      nextAuctionId := 0;
    }

    /** `Artwork.approve_and_start_auction`: get-or-create the artwork's
        auction and set it going; `now` is the clock reading of the start,
        `endClock` the one taken inside the end-date computation. */
    method ApproveAndStartAuction(art: Artwork, now: int, endClock: int) returns (outcome: StartOutcome)
      requires Valid()
      modifies this
      ensures Valid()
      ensures artworks == old(artworks) && bids == old(bids)
      ensures auctions == Upserted(old(auctions), old(nextAuctionId), art, now, endClock)
      ensures nextAuctionId == NextIdAfter(old(auctions), old(nextAuctionId), art.id)
      ensures outcome.Created? <==> AuctionsOf(old(auctions), art.id) == {}
      ensures outcome.Updated? <==> |AuctionsOf(old(auctions), art.id)| == 1
      ensures outcome.Created? ==> outcome.id == old(nextAuctionId)
      ensures outcome.Updated? ==> AuctionsOf(old(auctions), art.id) == {outcome.id}
    {
      var started := StartedAuction(art, now, endClock);
      var mine := AuctionsOf(auctions, art.id);
      if mine == {} {
        auctions := auctions[nextAuctionId := started];
        outcome := Created(nextAuctionId);
        nextAuctionId := nextAuctionId + 1;
      } else if |mine| == 1 {
        var id :| id in mine;
        forall other | other in mine ensures other == id {
          SingletonMember(mine, id, other);
        }
        var existing := auctions[id];
        // get_or_create found the row: overwrite its six fields and save it
        var refreshed := existing.(
          createDate := now,
          endDate := Some(AuctionEndDate(art, now, endClock)),
          reservePrice := AuctionReserve(art.reservePrice),
          status := "active",
          isActive := Some(true),
          duration := Some(art.auctionDuration));
        assert refreshed == started;
        auctions := auctions[id := refreshed];
        outcome := Updated(id);
      } else {
        outcome := MultipleObjectsReturned;
      }
    }

    /** `Auction.artwork_approval_handler`, the post-save hook of Artwork:
        a newly created artwork always gets an auction started; a later save
        starts or refreshes one only when the status is "approved". */
    method ArtworkApprovalHandler(art: Artwork, created: bool, now: int, endClock: int) returns (outcome: Option<StartOutcome>)
      requires Valid()
      modifies this
      ensures Valid()
      ensures outcome.Some? <==> created || art.approvalStatus == "approved"
      ensures artworks == old(artworks) && bids == old(bids)
      ensures outcome.None? ==> auctions == old(auctions) && nextAuctionId == old(nextAuctionId)
      ensures outcome.Some? ==>
        && auctions == Upserted(old(auctions), old(nextAuctionId), art, now, endClock)
        && nextAuctionId == NextIdAfter(old(auctions), old(nextAuctionId), art.id)
    {
      if created {
        var started := ApproveAndStartAuction(art, now, endClock);
        outcome := Some(started);
      } else {
        if art.approvalStatus == "approved" {
          var started := ApproveAndStartAuction(art, now, endClock);
          outcome := Some(started);
        } else {
          // "rejected" does nothing, and neither does any other status
          outcome := None;
        }
      }
    }

    /** `Artwork.save()`: write the row, then run the post-save hook with
        `created` telling whether the row is new. A `MultipleObjectsReturned`
        outcome is the exception the hook raises after the row was written. */
    method SaveArtwork(art: Artwork, now: int, endClock: int) returns (outcome: Option<StartOutcome>)
      requires Valid()
      modifies this
      ensures Valid()
      ensures artworks == old(artworks)[art.id := art] && bids == old(bids)
      ensures outcome.Some? <==> art.id !in old(artworks) || art.approvalStatus == "approved"
      ensures outcome.None? ==> auctions == old(auctions) && nextAuctionId == old(nextAuctionId)
      ensures outcome.Some? ==>
        && auctions == Upserted(old(auctions), old(nextAuctionId), art, now, endClock)
        && nextAuctionId == NextIdAfter(old(auctions), old(nextAuctionId), art.id)
    {
      var created := art.id !in artworks;
      artworks := artworks[art.id := art];
      outcome := ArtworkApprovalHandler(art, created, now, endClock);
    }
  }
}
