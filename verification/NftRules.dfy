/** Exactly which calls of internal/nft/nft.go change which row, read off the tables and the arguments alone. */
module NftRules {
  import opened Nft
  import opened Wrappers

  // ----- Which calls are due to take effect -----

  /** A sale in time, to somebody other than the seller. */
  predicate Sells(m: Market, op: Op, l: nat)
    requires l in m.listings
  {
    && op.Buy? && op.listing == l && m.listings[l].status == Active && op.user != m.listings[l].seller
    && (m.listings[l].expiresAt.None? || op.now <= m.listings[l].expiresAt.value)
  }

  /** The acceptance of a pending offer by the owner of the item it is for. */
  predicate Accepts(m: Market, op: Op, o: nat) {
    && op.Accept? && op.offer == o && o in m.offers && m.offers[o].status == Pending
    && m.offers[o].item in m.items && m.items[m.offers[o].item].owner == op.user
  }

  predicate GivesAway(m: Market, op: Op, i: nat)
    requires i in m.items
  {
    op.Transfer? && op.item == i && op.user == m.items[i].owner && op.served
  }

  // ----- What becomes of a row -----

  /**
   * An active listing is sold by a sale in time to somebody else, delisted by its seller or by the acceptance of an offer on
   * its item, and by no other call; its other columns stay, except for the buyer of a sale.
   */
  lemma ListingEndsIff(m: Market, op: Op, l: nat)
    requires Fresh(m) && l in m.listings && m.listings[l].status == Active
    ensures var n, row := Step(m, op), m.listings[l];
      var delisted := (op.Delist? && op.listing == l && op.user == row.seller)
                      || (op.Accept? && Accepts(m, op, op.offer) && m.offers[op.offer].item == row.item);
      l in n.listings && n.listings[l] ==
        if Sells(m, op, l) then Listing(row.item, row.seller, row.price, row.expiresAt, Sold, Some(op.user))
        else if delisted then Listing(row.item, row.seller, row.price, row.expiresAt, Delisted, row.buyer)
        else row
  {
    hide Listed, RefuseOthers, GiveTo;
  }

  /** A pending offer is accepted by the owner's acceptance, refused by that of another offer on its item, and otherwise stays. */
  lemma OfferEndsIff(m: Market, op: Op, o: nat)
    requires Fresh(m) && o in m.offers && m.offers[o].status == Pending
    ensures var n, row := Step(m, op), m.offers[o];
      o in n.offers && n.offers[o] ==
        if Accepts(m, op, o) then Offer(row.item, row.buyer, row.price, Accepted)
        else if op.Accept? && Accepts(m, op, op.offer) && m.offers[op.offer].item == row.item
        then Offer(row.item, row.buyer, row.price, Refused)
        else row
  {
    hide Listed, DelistAll, GiveTo;
  }

  /**
   * An item has a new owner after the transfer by its owner, a sale in time of an active listing of it, or the acceptance of
   * an offer on it, and after no other call; its collection and number stay.
   */
  lemma OwnerChangesIff(m: Market, op: Op, i: nat)
    requires Fresh(m) && i in m.items
    ensures var n, row := Step(m, op), m.items[i];
      i in n.items && n.items[i] ==
        if GivesAway(m, op, i) then Item(row.collection, if op.to.Some? then op.to.value else op.user, row.index)
        else if op.Buy? && op.listing in m.listings && m.listings[op.listing].item == i && Sells(m, op, op.listing)
        then Item(row.collection, op.user, row.index)
        else if op.Accept? && Accepts(m, op, op.offer) && m.offers[op.offer].item == i
        then Item(row.collection, m.offers[op.offer].buyer, row.index)
        else row
  {
    hide Listed, DelistAll, RefuseOthers;
  }

  /** An item is minted exactly when the owner of a collection asks for it, there is room for it, and the provider serves. */
  lemma MintsIff(m: Market, op: Op)
    requires Fresh(m)
    ensures var n := Step(m, op);
      var mints := op.Mint? && op.collection in m.collections && m.collections[op.collection].owner == op.user && op.served
                   && !(m.collections[op.collection].max.Some?
                        && m.collections[op.collection].max.value <= m.collections[op.collection].supply);
      && n.items.Keys == (if mints then m.items.Keys + {m.next} else m.items.Keys)
      && n.collections ==
           (if mints then m.collections[op.collection := Collection(op.user, m.collections[op.collection].max,
                                                                    m.collections[op.collection].supply + 1)]
            else if op.Found? then m.collections[m.next := Collection(op.user, op.max, 0)]
            else m.collections)
  {
    hide Listed, DelistAll, RefuseOthers;
  }

  /** A listing is added exactly when the owner of an item that has no active one asks for it. */
  lemma ListsIff(m: Market, op: Op)
    requires Fresh(m)
    ensures var n := Step(m, op);
      var lists := op.List? && op.item in m.items && m.items[op.item].owner == op.user
                   && forall l :: l in m.listings && m.listings[l].item == op.item ==> m.listings[l].status in {Sold, Delisted};
      && n.listings.Keys == (if lists then m.listings.Keys + {m.next} else m.listings.Keys)
      && (lists ==> n.listings[m.next] == Listing(op.item, op.user, op.price, op.expiresAt, Active, None))
  {
    hide RefuseOthers, GiveTo;
  }

  /** An offer is added exactly when it is for an item that exists. */
  lemma BidsIff(m: Market, op: Op)
    requires Fresh(m)
    ensures var n, bids := Step(m, op), op.Bid? && op.item in m.items;
      && n.offers.Keys == (if bids then m.offers.Keys + {m.next} else m.offers.Keys)
      && (bids ==> n.offers[m.next] == Offer(op.item, op.user, op.price, Pending))
  {
    hide Listed, DelistAll, GiveTo;
  }
}
