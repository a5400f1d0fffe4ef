/** The NFT marketplace of internal/nft/nft.go: collections, items, listings and offers, call by call. */
module Nft {
  import opened Wrappers

  datatype Error =
    | CollectionNotFound | NftNotFound | NotOwner | MaxSupplyReached | ProviderFailed | AlreadyListed
    | ListingNotFound | ListingNotActive | ListingExpired | OwnListing | OfferNotFound

  datatype Collection = Collection(owner: nat, max: Option<int>, supply: nat)

  datatype Item = Item(collection: nat, owner: nat, index: nat)

  datatype ListingStatus = Active | Sold | Delisted

  datatype Listing = Listing(item: nat, seller: nat, price: int, expiresAt: Option<int>, status: ListingStatus, buyer: Option<nat>)

  datatype OfferStatus = Pending | Accepted | Refused

  datatype Offer = Offer(item: nat, buyer: nat, price: int, status: OfferStatus)

  /** The four tables; ids are handed out in order. */
  datatype Market = Market(
    collections: map<nat, Collection>,
    items: map<nat, Item>,
    listings: map<nat, Listing>,
    offers: map<nat, Offer>,
    next: nat)

  /** `served` is false when there is a provider and it fails; `now` is the clock. */
  datatype Op =
    | Found(user: nat, max: Option<int>)
    | Mint(user: nat, collection: nat, recipient: Option<nat>, served: bool)
    | Transfer(user: nat, item: nat, to: Option<nat>, served: bool)
    | List(user: nat, item: nat, price: int, expiresAt: Option<int>)
    | Buy(user: nat, listing: nat, now: int)
    | Delist(user: nat, listing: nat)
    | Bid(user: nat, item: nat, price: int)
    | Accept(user: nat, offer: nat)

  // ----- What each call answers and does -----

  predicate Listed(listings: map<nat, Listing>, item: nat) {
    exists l :: l in listings && listings[l].item == item && listings[l].status == Active
  }

  function Answer(m: Market, op: Op): Result<(), Error> {
    match op
    case Found(_, _) => Ok(())
    case Mint(user, c, _, served) =>
      if c !in m.collections then Err(CollectionNotFound)
      else if m.collections[c].owner != user then Err(NotOwner)
      else if m.collections[c].max.Some? && m.collections[c].supply >= m.collections[c].max.value then Err(MaxSupplyReached)
      else if !served then Err(ProviderFailed)
      else Ok(())
    case Transfer(user, i, _, served) =>
      if i !in m.items then Err(NftNotFound)
      else if m.items[i].owner != user then Err(NotOwner)
      else if !served then Err(ProviderFailed)
      else Ok(())
    case List(user, i, _, _) =>
      if i !in m.items then Err(NftNotFound)
      else if m.items[i].owner != user then Err(NotOwner)
      else if Listed(m.listings, i) then Err(AlreadyListed)
      else Ok(())
    case Buy(user, l, now) =>
      if l !in m.listings then Err(ListingNotFound)
      else if m.listings[l].status != Active then Err(ListingNotActive)
      else if m.listings[l].expiresAt.Some? && m.listings[l].expiresAt.value < now then Err(ListingExpired)
      else if m.listings[l].seller == user then Err(OwnListing)
      else Ok(())
    case Delist(user, l) =>
      if l !in m.listings then Err(ListingNotFound)
      else if m.listings[l].seller != user then Err(NotOwner)
      else if m.listings[l].status != Active then Err(ListingNotActive)
      else Ok(())
    case Bid(_, i, _) => if i !in m.items then Err(NftNotFound) else Ok(())
    case Accept(user, o) =>
      if o !in m.offers || m.offers[o].status != Pending then Err(OfferNotFound)
      else if m.offers[o].item !in m.items then Err(NftNotFound)
      else if m.items[m.offers[o].item].owner != user then Err(NotOwner)
      else Ok(())
  }

  function GiveTo(items: map<nat, Item>, i: nat, user: nat): map<nat, Item> {
    if i in items then items[i := items[i].(owner := user)] else items
  }

  /** Every other pending offer on the item is refused. */
  function RefuseOthers(offers: map<nat, Offer>, item: nat, accepted: nat): map<nat, Offer> {
    map o | o in offers ::
      if offers[o].item == item && o != accepted && offers[o].status == Pending then offers[o].(status := Refused) else offers[o]
  }

  function DelistAll(listings: map<nat, Listing>, item: nat): map<nat, Listing> {
    map l | l in listings ::
      if listings[l].item == item && listings[l].status == Active then listings[l].(status := Delisted) else listings[l]
  }

  function Effect(m: Market, op: Op): Market
    requires Answer(m, op).Ok?
  {
    match op
    case Found(user, max) => m.(collections := m.collections[m.next := Collection(user, max, 0)], next := m.next + 1)
    case Mint(user, c, recipient, _) =>
      var col := m.collections[c];
      var owner := if recipient.Some? then recipient.value else user;
      m.(items := m.items[m.next := Item(c, owner, col.supply + 1)],
         collections := m.collections[c := col.(supply := col.supply + 1)],
         next := m.next + 1)
    case Transfer(user, i, to, _) => m.(items := GiveTo(m.items, i, if to.Some? then to.value else user))
    case List(user, i, price, expiresAt) =>
      m.(listings := m.listings[m.next := Listing(i, user, price, expiresAt, Active, None)], next := m.next + 1)
    case Buy(user, l, _) =>
      m.(listings := m.listings[l := m.listings[l].(status := Sold, buyer := Some(user))],
         items := GiveTo(m.items, m.listings[l].item, user))
    case Delist(_, l) => m.(listings := m.listings[l := m.listings[l].(status := Delisted)])
    case Bid(user, i, price) => m.(offers := m.offers[m.next := Offer(i, user, price, Pending)], next := m.next + 1)
    case Accept(_, o) =>
      var offer := m.offers[o];
      m.(items := GiveTo(m.items, offer.item, offer.buyer),
         offers := RefuseOthers(m.offers[o := offer.(status := Accepted)], offer.item, o),
         listings := DelistAll(m.listings, offer.item))
  }

  function Step(m: Market, op: Op): Market {
    if Answer(m, op).Ok? then Effect(m, op) else m
  }

  function After(m: Market, ops: seq<Op>): Market {
    if ops == [] then m else Step(After(m, ops[..|ops| - 1]), ops[|ops| - 1])
  }

  const EMPTY := Market(map[], map[], map[], map[], 1)

  // ----- What every reachable market keeps -----

  function Indices(items: map<nat, Item>, c: nat): set<nat> {
    set i | i in items && items[i].collection == c :: items[i].index
  }

  function UpTo(n: nat): (s: set<nat>)
    ensures forall k :: k in s <==> 1 <= k <= n
  {
    if n == 0 then {} else UpTo(n - 1) + {n}
  }

  ghost predicate IndexedOnce(items: map<nat, Item>) {
    forall i, j :: i in items && j in items && i != j && items[i].collection == items[j].collection ==> items[i].index != items[j].index
  }

  /** Each collection's items bear the numbers 1 to `supply`, each once, within a maximum that is not negative. */
  ghost predicate Supplied(collections: map<nat, Collection>, items: map<nat, Item>) {
    && (forall i :: i in items ==> items[i].collection in collections)
    && (forall c :: c in collections ==> Indices(items, c) == UpTo(collections[c].supply))
    && (forall c :: c in collections && collections[c].max.Some? && collections[c].supply > 0 ==>
          collections[c].supply <= collections[c].max.value)
    && IndexedOnce(items)
  }

  ghost predicate OneActive(listings: map<nat, Listing>) {
    forall k, l :: k in listings && l in listings && k != l && listings[k].item == listings[l].item ==>
      !(listings[k].status == listings[l].status == Active)
  }

  ghost predicate Fresh(m: Market) {
    && (forall c :: c in m.collections ==> c < m.next)
    && (forall i :: i in m.items ==> i < m.next)
    && (forall l :: l in m.listings ==> l < m.next && m.listings[l].item in m.items)
    && (forall o :: o in m.offers ==> o < m.next && m.offers[o].item in m.items)
  }

  ghost predicate Inv(m: Market) {
    Supplied(m.collections, m.items) && OneActive(m.listings) && Fresh(m)
  }

  lemma GivingKeepsSupply(collections: map<nat, Collection>, items: map<nat, Item>, i: nat, user: nat)
    requires Supplied(collections, items)
    ensures Supplied(collections, GiveTo(items, i, user))
  {
    forall c | c in collections ensures Indices(GiveTo(items, i, user), c) == Indices(items, c) {
      IndicesOfGiven(items, i, user, c);
    }
  }

  lemma IndicesOfGiven(items: map<nat, Item>, i: nat, user: nat, c: nat)
    ensures Indices(GiveTo(items, i, user), c) == Indices(items, c)
  {
    var items' := GiveTo(items, i, user);
    forall j | j in items && items[j].collection == c ensures items[j].index in Indices(items', c) {
      assert items'[j].index == items[j].index;
    }
    forall j | j in items' && items'[j].collection == c ensures items'[j].index in Indices(items, c) {
      assert items[j].index == items'[j].index;
    }
  }

  lemma IndicesOfMinted(items: map<nat, Item>, id: nat, item: Item, c: nat)
    requires id !in items
    ensures Indices(items[id := item], c) == Indices(items, c) + if item.collection == c then {item.index} else {}
  {
    var items' := items[id := item];
    forall j | j in items && items[j].collection == c ensures items[j].index in Indices(items', c) {
      assert items'[j] == items[j];
    }
    if item.collection == c {
      assert items'[id].index in Indices(items', c);
    }
  }

  lemma MintingKeepsSupply(m: Market, user: nat, c: nat, recipient: Option<nat>)
    requires Supplied(m.collections, m.items) && Fresh(m) && Answer(m, Mint(user, c, recipient, true)).Ok?
    ensures var n := Effect(m, Mint(user, c, recipient, true)); Supplied(n.collections, n.items)
  {
    var n := Effect(m, Mint(user, c, recipient, true));
    var item := n.items[m.next];
    forall d | d in n.collections ensures Indices(n.items, d) == UpTo(n.collections[d].supply) {
      IndicesOfMinted(m.items, m.next, item, d);
    }
    forall i | i in m.items && m.items[i].collection == c ensures m.items[i].index < item.index {
      assert m.items[i].index in Indices(m.items, c);
    }
    hide Indices, UpTo;
  }

  lemma StepKeepsSupply(m: Market, op: Op)
    requires Supplied(m.collections, m.items) && Fresh(m)
    ensures Supplied(Step(m, op).collections, Step(m, op).items)
  {
    if Answer(m, op).Ok? {
      match op
      case Found(_, _) => NewCollection(m, op);
      case Mint(user, c, recipient, _) => MintingKeepsSupply(m, user, c, recipient);
      case Transfer(user, i, to, _) => GivingKeepsSupply(m.collections, m.items, i, if to.Some? then to.value else user);
      case Buy(user, l, _) => GivingKeepsSupply(m.collections, m.items, m.listings[l].item, user);
      case Accept(_, o) => GivingKeepsSupply(m.collections, m.items, m.offers[o].item, m.offers[o].buyer);
      case _ =>
    }
  }

  lemma NewCollection(m: Market, op: Op)
    requires Supplied(m.collections, m.items) && Fresh(m) && op.Found?
    ensures Supplied(Effect(m, op).collections, m.items)
  {
    assert Indices(m.items, m.next) == {} == UpTo(0);
    hide Indices, UpTo, IndexedOnce;
  }

  lemma StepKeepsOneActive(m: Market, op: Op)
    requires OneActive(m.listings) && Fresh(m)
    ensures OneActive(Step(m, op).listings)
  {
    hide Supplied, GiveTo, RefuseOthers;
  }

  lemma StepKeepsFresh(m: Market, op: Op)
    requires Fresh(m)
    ensures Fresh(Step(m, op)) && Step(m, op).next >= m.next
    ensures m.items.Keys <= Step(m, op).items.Keys
  {
    hide Listed, Supplied;
  }

  lemma StepKeepsInv(m: Market, op: Op)
    requires Inv(m)
    ensures Inv(Step(m, op))
  {
    StepKeepsSupply(m, op);
    StepKeepsOneActive(m, op);
    StepKeepsFresh(m, op);
  }

  lemma {:induction false} ReachableInv(ops: seq<Op>)
    ensures Inv(After(EMPTY, ops))
  {
    if ops != [] {
      ReachableInv(ops[..|ops| - 1]);
      StepKeepsInv(After(EMPTY, ops[..|ops| - 1]), ops[|ops| - 1]);
    }
  }

  // ----- Sold, delisted, accepted and refused are final -----

  /** Nothing that is over changes, nothing is deleted, and an item keeps its collection and number. */
  ghost predicate Kept(m: Market, n: Market) {
    && (forall l :: l in m.listings ==>
          && l in n.listings && n.listings[l].item == m.listings[l].item && n.listings[l].seller == m.listings[l].seller
          && (m.listings[l].status != Active ==> n.listings[l] == m.listings[l]))
    && (forall o :: o in m.offers ==>
          && o in n.offers && n.offers[o].item == m.offers[o].item && n.offers[o].buyer == m.offers[o].buyer
          && (m.offers[o].status != Pending ==> n.offers[o] == m.offers[o]))
    && (forall i :: i in m.items ==>
          i in n.items && n.items[i].collection == m.items[i].collection && n.items[i].index == m.items[i].index)
  }

  lemma StepKeeps(m: Market, op: Op)
    requires Fresh(m)
    ensures Kept(m, Step(m, op))
  {
    hide Listed;
  }

  lemma KeptTwice(a: Market, b: Market, c: Market)
    requires Kept(a, b) && Kept(b, c)
    ensures Kept(a, c)
  {
  }

  lemma {:induction false} FinalStaysFinal(m: Market, ops: seq<Op>)
    requires Inv(m)
    ensures Inv(After(m, ops)) && Kept(m, After(m, ops))
  {
    if ops != [] {
      FinalStaysFinal(m, ops[..|ops| - 1]);
      StepKeepsInv(After(m, ops[..|ops| - 1]), ops[|ops| - 1]);
      StepKeeps(After(m, ops[..|ops| - 1]), ops[|ops| - 1]);
      hide Step, Kept, Supplied, OneActive;
      KeptTwice(m, After(m, ops[..|ops| - 1]), After(m, ops));
    }
  }

  /** Once an offer is accepted, its item belongs to the bidder, has no pending offer and no active listing. */
  lemma AcceptedLeavesNothingOpen(m: Market, user: nat, o: nat)
    requires Answer(m, Accept(user, o)).Ok?
    ensures var n, item := Step(m, Accept(user, o)), m.offers[o].item;
      && n.items[item].owner == m.offers[o].buyer && n.offers[o].status == Accepted
      && !Listed(n.listings, item)
      && (forall p :: p in n.offers && n.offers[p].item == item ==> n.offers[p].status != Pending)
      && (forall p :: p in m.offers && m.offers[p].item != item ==> n.offers[p] == m.offers[p])
      && (forall l :: l in m.listings && m.listings[l].item != item ==> n.listings[l] == m.listings[l])
      && (forall i :: i in m.items && i != item ==> n.items[i] == m.items[i])
  {
  }

  /** A sale gives the item to the buyer and ends its only active listing; other items, listings and offers are untouched. */
  lemma SaleMovesItem(m: Market, user: nat, l: nat, now: int)
    requires Inv(m) && Answer(m, Buy(user, l, now)).Ok?
    ensures var n, item := Step(m, Buy(user, l, now)), m.listings[l].item;
      && n.items[item] == m.items[item].(owner := user)
      && n.listings[l] == m.listings[l].(status := Sold, buyer := Some(user))
      && !Listed(n.listings, item)
      && (forall i :: i in m.items && i != item ==> n.items[i] == m.items[i])
      && (forall k :: k in m.listings && k != l ==> n.listings[k] == m.listings[k])
      && n.offers == m.offers && n.collections == m.collections
  {
    hide Supplied;
  }

  /** A new item goes to the recipient, or to the owner of the collection, with the next number. */
  lemma MintedItem(m: Market, user: nat, c: nat, recipient: Option<nat>)
    requires Fresh(m) && Answer(m, Mint(user, c, recipient, true)).Ok?
    ensures var n := Step(m, Mint(user, c, recipient, true));
      && n.items.Keys - m.items.Keys == {m.next} && m.items.Keys <= n.items.Keys
      && n.items[m.next] == Item(c, if recipient.Some? then recipient.value else user, n.collections[c].supply)
      && n.collections[c].supply == m.collections[c].supply + 1
      && (forall i :: i in m.items ==> n.items[i] == m.items[i])
      && n.listings == m.listings && n.offers == m.offers
  {
  }

  // ----- Who sells what -----

  /** Every active listing is by the owner of its item. */
  ghost predicate Honest(m: Market) {
    forall l :: l in m.listings && m.listings[l].status == Active ==>
      m.listings[l].item in m.items && m.items[m.listings[l].item].owner == m.listings[l].seller
  }

  /** A transfer to somebody else of an item that is up for sale. */
  predicate MovesListed(m: Market, op: Op) {
    && op.Transfer? && Answer(m, op).Ok?
    && Listed(m.listings, op.item) && op.to.Some? && op.to.value != op.user
  }

  lemma HonestAfterTransfer(m: Market, op: Op)
    requires Fresh(m) && Honest(m) && op.Transfer? && Answer(m, op).Ok?
    ensures Honest(Effect(m, op)) <==> !MovesListed(m, op)
  {
    var n := Effect(m, op);
    if MovesListed(m, op) {
      var l :| l in m.listings && m.listings[l].item == op.item && m.listings[l].status == Active;
      assert n.listings[l].seller == op.user != n.items[op.item].owner;
    }
  }

  lemma HonestAfterSale(m: Market, op: Op)
    requires OneActive(m.listings) && Fresh(m) && Honest(m) && op.Buy? && Answer(m, op).Ok?
    ensures Honest(Effect(m, op))
  {
    hide Listed;
  }

  lemma HonestAfterAccept(m: Market, op: Op)
    requires Fresh(m) && Honest(m) && op.Accept? && Answer(m, op).Ok?
    ensures Honest(Effect(m, op))
  {
    hide Listed, RefuseOthers;
  }

  /** A call keeps every seller an owner if and only if it does not transfer a listed item away. */
  lemma HonestIff(m: Market, op: Op)
    requires Inv(m) && Honest(m)
    ensures Honest(Step(m, op)) <==> !MovesListed(m, op)
  {
    hide Supplied, Honest;
    if Answer(m, op).Ok? {
      match op
      case Transfer(_, _, _, _) => HonestAfterTransfer(m, op);
      case Buy(_, _, _) => HonestAfterSale(m, op);
      case Accept(_, _) => HonestAfterAccept(m, op);
      case _ => HonestAfterOther(m, op);
    }
  }

  lemma HonestAfterOther(m: Market, op: Op)
    requires Fresh(m) && Honest(m) && Answer(m, op).Ok? && (op.Found? || op.Mint? || op.List? || op.Delist? || op.Bid?)
    ensures Honest(Effect(m, op))
  {
    hide Listed;
  }

  ghost predicate NeverMovesListed(m: Market, ops: seq<Op>) {
    ops == [] || (NeverMovesListed(m, ops[..|ops| - 1]) && !MovesListed(After(m, ops[..|ops| - 1]), ops[|ops| - 1]))
  }

  /** In runs that never transfer a listed item away, the seller of an active listing is the owner of its item. */
  lemma {:induction false} RunsStayHonest(ops: seq<Op>)
    requires NeverMovesListed(EMPTY, ops)
    ensures Honest(After(EMPTY, ops))
  {
    if ops != [] {
      RunsStayHonest(ops[..|ops| - 1]);
      ReachableInv(ops[..|ops| - 1]);
      HonestIff(After(EMPTY, ops[..|ops| - 1]), ops[|ops| - 1]);
    }
  }

  /** The owner's own act that lets the item go to `to`: giving it away, putting it up for sale, or accepting a bid. */
  predicate ActOfOwner(m: Market, op: Op, item: nat, to: nat)
    requires item in m.items
  {
    match op
    case Transfer(user, i, recipient, _) => i == item && user == m.items[item].owner && recipient == Some(to)
    case Buy(user, l, _) =>
      && l in m.listings && m.listings[l].item == item && m.listings[l].status == Active
      && m.listings[l].seller == m.items[item].owner && user == to
    case Accept(user, o) =>
      && o in m.offers && m.offers[o].item == item && m.offers[o].status == Pending
      && m.offers[o].buyer == to && user == m.items[item].owner
    case _ => false
  }

  /** While listings are honest, an item changes hands only by an act of the one who had it. */
  lemma OwnerConsents(m: Market, op: Op, item: nat)
    requires Inv(m) && Honest(m) && item in m.items && Step(m, op).items[item].owner != m.items[item].owner
    ensures ActOfOwner(m, op, item, Step(m, op).items[item].owner)
  {
    hide Supplied, Listed, OneActive;
  }

  /** Otherwise it need not be: the new owner of a transferred item loses it to the buyer of the old owner's listing. */
  lemma SoldWithoutOwner(m: Market, l: nat, now: int, buyer: nat)
    requires Inv(m) && l in m.listings && m.listings[l].status == Active && buyer != m.listings[l].seller
    requires m.items[m.listings[l].item].owner != m.listings[l].seller
    requires m.listings[l].expiresAt.Some? ==> now <= m.listings[l].expiresAt.value
    ensures var item := m.listings[l].item;
      && Step(m, Buy(buyer, l, now)).items[item].owner == buyer
      && (buyer != m.items[item].owner ==> !ActOfOwner(m, Buy(buyer, l, now), item, buyer))
  {
  }

  /** A run of calls that ends that way: user 9 buys from user 1 what user 7 owns. */
  const LOSS: seq<Op> := [
    Found(1, None), Mint(1, 1, None, true), List(1, 2, 10, None), Transfer(1, 2, Some(7), true), Buy(9, 3, 0)]

  lemma LossHappens()
    ensures var m, n := After(EMPTY, LOSS[..4]), After(EMPTY, LOSS);
      && 2 in m.items && m.items[2].owner == 7 && 2 in n.items && n.items[2].owner == 9
      && !Honest(m) && Answer(m, LOSS[4]) == Ok(()) && !ActOfOwner(m, LOSS[4], 2, 9)
  {
    var m1 := Step(EMPTY, LOSS[0]);
    var m2 := Step(m1, LOSS[1]);
    var m3 := Step(m2, LOSS[2]);
    var m4 := Step(m3, LOSS[3]);
    assert m1.collections == map[1 := Collection(1, None, 0)];
    assert m2.items == map[2 := Item(1, 1, 1)];
    assert m3.listings == map[3 := Listing(2, 1, 10, None, Active, None)];
    AfterLast(EMPTY, LOSS[..1]);
    AfterLast(EMPTY, LOSS[..2]);
    AfterLast(EMPTY, LOSS[..3]);
    AfterLast(EMPTY, LOSS[..4]);
    AfterLast(EMPTY, LOSS);
    assert LOSS[..1][..0] == [] && LOSS[..2][..1] == LOSS[..1] && LOSS[..3][..2] == LOSS[..2] && LOSS[..4][..3] == LOSS[..3];
    assert m4.listings[3].seller == 1 && m4.items[2].owner == 7;
  }

  lemma AfterLast(m: Market, ops: seq<Op>)
    requires ops != []
    ensures After(m, ops) == Step(After(m, ops[..|ops| - 1]), ops[|ops| - 1])
  {
  }

  // ----- How an owner came to own -----

  /** At step `i` of the run the item was minted for this owner, or its owner then let it go to him. */
  ghost predicate GotItAt(ops: seq<Op>, i: nat, item: nat, owner: nat)
    requires i < |ops|
  {
    var m := After(EMPTY, ops[..i]);
    if item in m.items then ActOfOwner(m, ops[i], item, owner)
    else ops[i].Mint? && Step(m, ops[i]) != m && owner == if ops[i].recipient.Some? then ops[i].recipient.value else ops[i].user
  }

  /** From step `i` on the item has been his. */
  ghost predicate KeptSince(ops: seq<Op>, i: nat, item: nat, owner: nat) {
    forall j :: i < j <= |ops| ==> item in After(EMPTY, ops[..j]).items && After(EMPTY, ops[..j]).items[item].owner == owner
  }

  lemma NewItem(m: Market, op: Op, item: nat)
    requires item !in m.items && item in Step(m, op).items
    ensures op.Mint? && Step(m, op) != m
    ensures Step(m, op).items[item].owner == if op.recipient.Some? then op.recipient.value else op.user
  {
    hide Listed, RefuseOthers, DelistAll;
  }

  /**
   * In a run that never transfers a listed item away, whoever owns an item has had it ever since it was minted for him or
   * its owner of that time transferred it to him, sold it to him or accepted his offer.
   */
  lemma {:induction false} OwnedByRight(ops: seq<Op>, item: nat) returns (i: nat)
    requires NeverMovesListed(EMPTY, ops) && item in After(EMPTY, ops).items
    ensures i < |ops|
    ensures GotItAt(ops, i, item, After(EMPTY, ops).items[item].owner)
    ensures KeptSince(ops, i, item, After(EMPTY, ops).items[item].owner)
    decreases |ops|
  {
    var front, op := ops[..|ops| - 1], ops[|ops| - 1];
    var m, n := After(EMPTY, front), After(EMPTY, ops);
    assert ops[..|ops|] == ops;
    hide Step, After, ActOfOwner, Honest, Inv, NeverMovesListed;
    if item !in m.items {
      NewItemNow(ops, item);
      i := |ops| - 1;
    } else if m.items[item].owner != n.items[item].owner {
      MovedNow(ops, item);
      i := |ops| - 1;
    } else {
      FrontNeverMoves(ops);
      i := OwnedByRight(front, item);
      assert forall j :: i < j < |ops| ==> front[..j] == ops[..j];
      assert front[..i] == ops[..i];
    }
  }

  lemma FrontNeverMoves(ops: seq<Op>)
    requires ops != [] && NeverMovesListed(EMPTY, ops)
    ensures NeverMovesListed(EMPTY, ops[..|ops| - 1])
  {
  }

  lemma NewItemNow(ops: seq<Op>, item: nat)
    requires ops != [] && item !in After(EMPTY, ops[..|ops| - 1]).items && item in After(EMPTY, ops).items
    ensures GotItAt(ops, |ops| - 1, item, After(EMPTY, ops).items[item].owner)
  {
    AfterLast(EMPTY, ops);
    hide Step, After;
    NewItem(After(EMPTY, ops[..|ops| - 1]), ops[|ops| - 1], item);
  }

  lemma MovedNow(ops: seq<Op>, item: nat)
    requires ops != [] && NeverMovesListed(EMPTY, ops)
    requires item in After(EMPTY, ops[..|ops| - 1]).items && item in After(EMPTY, ops).items
    requires After(EMPTY, ops[..|ops| - 1]).items[item].owner != After(EMPTY, ops).items[item].owner
    ensures GotItAt(ops, |ops| - 1, item, After(EMPTY, ops).items[item].owner)
  {
    AfterLast(EMPTY, ops);
    FrontNeverMoves(ops);
    hide Step, After, NeverMovesListed, ActOfOwner, Inv, Honest;
    RunsStayHonest(ops[..|ops| - 1]);
    ReachableInv(ops[..|ops| - 1]);
    OwnerConsents(After(EMPTY, ops[..|ops| - 1]), ops[|ops| - 1], item);
  }

  // ----- The manager -----

  class Manager {
    var collections: map<nat, Collection>
    var items: map<nat, Item>
    var listings: map<nat, Listing>
    var offers: map<nat, Offer>
    var next: nat

    constructor ()
      ensures Now() == EMPTY
    {
      collections, items, listings, offers, next := map[], map[], map[], map[], 1;
    }

    function Now(): Market
      reads this
    {
      Market(collections, items, listings, offers, next)
    }

    method CreateCollection(user: nat, max: Option<int>) returns (id: nat)
      modifies this`collections, this`next
      ensures id == old(next) && Now() == Step(old(Now()), Found(user, max))
    {
      id := next;
      collections, next := collections[id := Collection(user, max, 0)], next + 1;
    }

    method MintNft(user: nat, c: nat, recipient: Option<nat>, served: bool) returns (r: Result<nat, Error>)
      modifies this`collections, this`items, this`next
      ensures Now() == Step(old(Now()), Mint(user, c, recipient, served))
      ensures r == match Answer(old(Now()), Mint(user, c, recipient, served)) case Ok(_) => Ok(old(next)) case Err(e) => Err(e)
      ensures r == Err(CollectionNotFound) <==> c !in old(collections)
      ensures r == Err(NotOwner) <==> c in old(collections) && old(collections)[c].owner != user
      ensures r == Err(ProviderFailed) ==> !served
    {
      if c !in collections {
        return Err(CollectionNotFound);
      }
      var col := collections[c];
      if col.owner != user {
        return Err(NotOwner);
      }
      if col.max.Some? && col.supply >= col.max.value {
        return Err(MaxSupplyReached);
      }
      var owner := user;
      if recipient.Some? {
        owner := recipient.value;
      }
      var item := Item(c, owner, col.supply + 1);
      if !served {
        return Err(ProviderFailed);
      }
      r := Ok(next);
      items, next := items[next := item], next + 1;
      collections := collections[c := collections[c].(supply := collections[c].supply + 1)];
    }

    method TransferNft(user: nat, i: nat, to: Option<nat>, served: bool) returns (r: Result<(), Error>)
      modifies this`items
      ensures r == Answer(old(Now()), Transfer(user, i, to, served))
      ensures Now() == Step(old(Now()), Transfer(user, i, to, served))
      ensures r == Err(NftNotFound) <==> i !in old(items)
      ensures r == Err(NotOwner) <==> i in old(items) && old(items)[i].owner != user
      ensures r == Err(ProviderFailed) ==> !served
    {
      if i !in items {
        return Err(NftNotFound);
      }
      if items[i].owner != user {
        return Err(NotOwner);
      }
      if !served {
        return Err(ProviderFailed);
      }
      var newOwner := user;
      if to.Some? {
        newOwner := to.value;
      }
      items := items[i := items[i].(owner := newOwner)];
      return Ok(());
    }

    method CreateListing(user: nat, i: nat, price: int, expiresAt: Option<int>) returns (r: Result<nat, Error>)
      modifies this`listings, this`next
      ensures Now() == Step(old(Now()), List(user, i, price, expiresAt))
      ensures r == match Answer(old(Now()), List(user, i, price, expiresAt)) case Ok(_) => Ok(old(next)) case Err(e) => Err(e)
      ensures r == Err(NftNotFound) <==> i !in items
      ensures r == Err(NotOwner) <==> i in items && items[i].owner != user
      ensures r.Err? ==> r.error in {NftNotFound, NotOwner, AlreadyListed}
    {
      if i !in items {
        return Err(NftNotFound);
      }
      if items[i].owner != user {
        return Err(NotOwner);
      }
      if Listed(listings, i) {
        return Err(AlreadyListed);
      }
      r := Ok(next);
      listings, next := listings[next := Listing(i, user, price, expiresAt, Active, None)], next + 1;
    }

    method BuyListing(user: nat, l: nat, now: int) returns (r: Result<(), Error>)
      modifies this`listings, this`items
      ensures r == Answer(old(Now()), Buy(user, l, now))
      ensures Now() == Step(old(Now()), Buy(user, l, now))
      ensures r == Err(ListingNotFound) <==> l !in old(listings)
      ensures r == Err(ListingNotActive) <==> l in old(listings) && old(listings)[l].status in {Sold, Delisted}
      ensures r == Err(OwnListing) ==> user == old(listings)[l].seller
      ensures r == Err(ListingExpired) ==> old(listings)[l].expiresAt.Some? && now > old(listings)[l].expiresAt.value
      ensures r.Err? ==> r.error in {ListingNotFound, ListingNotActive, ListingExpired, OwnListing}
    {
      if l !in listings {
        return Err(ListingNotFound);
      }
      var listing := listings[l];
      if listing.status != Active {
        return Err(ListingNotActive);
      }
      if listing.expiresAt.Some? && listing.expiresAt.value < now {
        return Err(ListingExpired);
      }
      if listing.seller == user {
        return Err(OwnListing);
      }
      listings := listings[l := listing.(status := Sold, buyer := Some(user))];
      items := GiveTo(items, listing.item, user);
      return Ok(());
    }

    method CancelListing(user: nat, l: nat) returns (r: Result<(), Error>)
      modifies this`listings
      ensures r == Answer(old(Now()), Op.Delist(user, l))
      ensures Now() == Step(old(Now()), Op.Delist(user, l))
      ensures r == Err(ListingNotFound) <==> l !in old(listings)
      ensures r == Err(NotOwner) <==> l in old(listings) && old(listings)[l].seller != user
      ensures r.Err? ==> r.error in {ListingNotFound, NotOwner, ListingNotActive}
    {
      if l !in listings {
        return Err(ListingNotFound);
      }
      if listings[l].seller != user {
        return Err(NotOwner);
      }
      if listings[l].status != Active {
        return Err(ListingNotActive);
      }
      listings := listings[l := listings[l].(status := Delisted)];
      return Ok(());
    }

    method CreateOffer(user: nat, i: nat, price: int) returns (r: Result<nat, Error>)
      modifies this`offers, this`next
      ensures Now() == Step(old(Now()), Bid(user, i, price))
      ensures r == if i in items then Ok(old(next)) else Err(NftNotFound)
    {
      if i !in items {
        return Err(NftNotFound);
      }
      r := Ok(next);
      offers, next := offers[next := Offer(i, user, price, Pending)], next + 1;
    }

    method AcceptOffer(user: nat, o: nat) returns (r: Result<(), Error>)
      modifies this`items, this`offers, this`listings
      ensures r == Answer(old(Now()), Accept(user, o))
      ensures Now() == Step(old(Now()), Accept(user, o))
      ensures r == Err(OfferNotFound) <==> o !in old(offers) || old(offers)[o].status in {Accepted, Refused}
      ensures r == Err(NotOwner) ==> old(items)[old(offers)[o].item].owner != user
    {
      if o !in offers || offers[o].status != Pending {
        return Err(OfferNotFound);
      }
      var offer := offers[o];
      if offer.item !in items {
        return Err(NftNotFound);
      }
      if items[offer.item].owner != user {
        return Err(NotOwner);
      }
      items := GiveTo(items, offer.item, offer.buyer);
      offers := offers[o := offer.(status := Accepted)];
      offers := RefuseOthers(offers, offer.item, o);
      listings := DelistAll(listings, offer.item);
      return Ok(());
    }
  }
}
