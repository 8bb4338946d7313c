/**
 Paying out a sale (rust/auction-house/src/utils.rs, rust/auction-house/src/lib.rs):
 the buyer's escrow pays the creators' royalties, the house fee and the seller,
 and the trade states' lamports go back to the fee payer.
 */
module AuctionHouse {
  import opened Prelude
  import opened MapSums

  type Key = nat

  datatype Error = NumericalOverflow | InsufficientFunds

  datatype Creator = Creator(address: Key, share: u8)

  datatype Sale = Sale(
    price: u64,
    royaltyPoints: u16,
    creators: Option<seq<Creator>>,
    housePoints: u16,
    escrow: Key,
    house: Key,
    seller: Key
  )

  /** The accounts of one unit of payment. */
  type Ledger = map<Key, nat>

  function Balance(l: Ledger, k: Key): nat {
    if k in l then l[k] else 0
  }

  function Transfer(l: Ledger, source: Key, target: Key, amount: nat): Result<Ledger, Error> {
    if amount > Balance(l, source) then Err(InsufficientFunds)
    else
      var taken := l[source := Balance(l, source) - amount];
      Ok(taken[target := Balance(taken, target) + amount])
  }

  /** A product in 128 bits, divided, then cast back to 64 bits. */
  function Portion(rate: nat, size: u64, whole: nat): u64
    requires whole > 0
  {
    rate * size / whole % (U64_MAX + 1)
  }

  function PointsFee(points: u16, size: u64): u64 {
    Portion(points, size, 10000)
  }

  function CreatorFee(c: Creator, royalty: u64): u64 {
    Portion(c.share, royalty, 100)
  }

  datatype Paid = Paid(ledger: Ledger, remaining: u64)

  function PayCreator(p: Paid, escrow: Key, c: Creator, royalty: u64): Result<Paid, Error> {
    var fee := CreatorFee(c, royalty);
    :- Need(fee <= p.remaining, NumericalOverflow);
    var after :- if fee > 0 then Transfer(p.ledger, escrow, c.address, fee) else Ok(p.ledger);
    Ok(Paid(after, p.remaining - fee))
  }

  function PayCreators(l: Ledger, escrow: Key, creators: seq<Creator>, royalty: u64): Result<Paid, Error> {
    if creators == [] then Ok(Paid(l, royalty))
    else
      var before :- PayCreators(l, escrow, creators[..|creators| - 1], royalty);
      PayCreator(before, escrow, creators[|creators| - 1], royalty)
  }

  function CreatorsOf(s: Sale): seq<Creator> {
    if s.creators.Some? then s.creators.value else []
  }

  /** The ledger after the royalties, and what the buyer's payment still has to cover. */
  function PayCreatorFees(l: Ledger, s: Sale): Result<Paid, Error> {
    var royalty := PointsFee(s.royaltyPoints, s.price);
    :- Need(royalty <= s.price, NumericalOverflow);
    var paid :- PayCreators(l, s.escrow, CreatorsOf(s), royalty);
    :- Need(s.price - royalty + paid.remaining <= U64_MAX, NumericalOverflow);
    Ok(Paid(paid.ledger, s.price - royalty + paid.remaining))
  }

  function Settle(l: Ledger, s: Sale): Result<Ledger, Error> {
    var paid :- PayCreatorFees(l, s);
    var fee := PointsFee(s.housePoints, s.price);
    var charged :- Transfer(paid.ledger, s.escrow, s.house, fee);
    :- Need(fee <= paid.remaining, NumericalOverflow);
    Transfer(charged, s.escrow, s.seller, paid.remaining - fee)
  }

  // ---------------------------------------------------------------------------
  // Who receives what

  /** What the creators are owed in all. */
  function Owed(creators: seq<Creator>, royalty: u64): nat {
    if creators == [] then 0
    else Owed(creators[..|creators| - 1], royalty) + CreatorFee(creators[|creators| - 1], royalty)
  }

  /** What is owed to one address, which may be listed more than once. */
  function OwedTo(creators: seq<Creator>, royalty: u64, k: Key): nat {
    if creators == [] then 0
    else
      var last := creators[|creators| - 1];
      OwedTo(creators[..|creators| - 1], royalty, k) + (if last.address == k then CreatorFee(last, royalty) else 0)
  }

  function Royalties(s: Sale): nat {
    Owed(CreatorsOf(s), PointsFee(s.royaltyPoints, s.price))
  }

  function HouseFee(s: Sale): nat {
    PointsFee(s.housePoints, s.price)
  }

  /** Whatever royalties and house fee leave, rounding dust included. */
  function SellerPayment(s: Sale): int {
    s.price - Royalties(s) - HouseFee(s)
  }

  /** Everything the sale pays to one account, in whichever of its roles. */
  function Received(s: Sale, k: Key): int {
    OwedTo(CreatorsOf(s), PointsFee(s.royaltyPoints, s.price), k)
    + (if k == s.house then HouseFee(s) else 0)
    + (if k == s.seller then SellerPayment(s) else 0)
  }

  function Spent(s: Sale, k: Key, amount: nat): nat {
    if k == s.escrow then amount else 0
  }

  lemma {:induction false} CreatorsArePaid(l: Ledger, escrow: Key, creators: seq<Creator>, royalty: u64, k: Key)
    requires PayCreators(l, escrow, creators, royalty).Ok?
    ensures var paid := PayCreators(l, escrow, creators, royalty).value;
      && paid.remaining == royalty - Owed(creators, royalty)
      && Balance(paid.ledger, k) + (if k == escrow then Owed(creators, royalty) else 0)
         == Balance(l, k) + OwedTo(creators, royalty, k)
  {
    if creators != [] {
      CreatorsArePaid(l, escrow, creators[..|creators| - 1], royalty, k);
    }
  }

  /** Every account, in all its roles, ends with what it had, less the price if it is the escrow, plus its due. */
  lemma EveryoneIsPaid(l: Ledger, s: Sale, k: Key)
    requires Settle(l, s).Ok?
    ensures Balance(Settle(l, s).value, k) + Spent(s, k, s.price) == Balance(l, k) + Received(s, k)
    ensures SellerPayment(s) >= 0
  {
    CreatorsArePaid(l, s.escrow, CreatorsOf(s), PointsFee(s.royaltyPoints, s.price), k);
  }

  function Amount(n: nat): nat {
    n
  }

  /** All the money there is. */
  ghost function Total(l: Ledger): nat {
    SumBy(l, Amount)
  }

  lemma TransferKeepsTotal(l: Ledger, source: Key, target: Key, amount: nat)
    requires Transfer(l, source, target, amount).Ok?
    ensures Total(Transfer(l, source, target, amount).value) == Total(l)
  {
    var taken: Ledger := l[source := Balance(l, source) - amount];
    SumByUpdate<Key, nat>(l, Amount, source, Balance(l, source) - amount);
    SumByUpdate<Key, nat>(taken, Amount, target, Balance(taken, target) + amount);
  }

  lemma {:induction false} CreatorsKeepTotal(l: Ledger, escrow: Key, creators: seq<Creator>, royalty: u64)
    requires PayCreators(l, escrow, creators, royalty).Ok?
    ensures Total(PayCreators(l, escrow, creators, royalty).value.ledger) == Total(l)
  {
    if creators != [] {
      var c := creators[|creators| - 1];
      CreatorsKeepTotal(l, escrow, creators[..|creators| - 1], royalty);
      var before := PayCreators(l, escrow, creators[..|creators| - 1], royalty).value;
      if CreatorFee(c, royalty) > 0 {
        TransferKeepsTotal(before.ledger, escrow, c.address, CreatorFee(c, royalty));
      }
    }
  }

  /** A sale moves money and neither makes nor loses any. */
  lemma SettleKeepsTotal(l: Ledger, s: Sale)
    requires Settle(l, s).Ok?
    ensures Total(Settle(l, s).value) == Total(l)
  {
    CreatorsKeepTotal(l, s.escrow, CreatorsOf(s), PointsFee(s.royaltyPoints, s.price));
    var paid := PayCreatorFees(l, s).value;
    TransferKeepsTotal(paid.ledger, s.escrow, s.house, HouseFee(s));
    var charged := Transfer(paid.ledger, s.escrow, s.house, HouseFee(s)).value;
    TransferKeepsTotal(charged, s.escrow, s.seller, paid.remaining - HouseFee(s));
  }

  // ---------------------------------------------------------------------------
  // When a sale goes through

  /** The escrow is an account of its own. */
  predicate EscrowApart(s: Sale) {
    && s.escrow != s.house
    && s.escrow != s.seller
    && forall i :: 0 <= i < |CreatorsOf(s)| ==> CreatorsOf(s)[i].address != s.escrow
  }

  /** No checked subtraction underflows. */
  predicate FeesFit(s: Sale) {
    && PointsFee(s.royaltyPoints, s.price) <= s.price
    && Royalties(s) <= PointsFee(s.royaltyPoints, s.price)
    && HouseFee(s) <= s.price - Royalties(s)
  }

  function Larger(a: int, b: int): int {
    if a >= b then a else b
  }

  /** What has left the escrow once these creators are paid: a creator may be the escrow itself. */
  function Left(creators: seq<Creator>, royalty: u64, escrow: Key): int {
    Owed(creators, royalty) - OwedTo(creators, royalty, escrow)
  }

  /** What the escrow must hold for each creator to be paid in turn. */
  function CreatorsNeed(creators: seq<Creator>, royalty: u64, escrow: Key): int {
    if creators == [] then 0
    else
      var initial := creators[..|creators| - 1];
      Larger(CreatorsNeed(initial, royalty, escrow),
             Left(initial, royalty, escrow) + CreatorFee(creators[|creators| - 1], royalty))
  }

  /** What the escrow must hold for the whole sale. */
  function SaleNeeds(s: Sale): int {
    var royalty := PointsFee(s.royaltyPoints, s.price);
    var left := Left(CreatorsOf(s), royalty, s.escrow);
    Larger(CreatorsNeed(CreatorsOf(s), royalty, s.escrow),
           Larger(left + HouseFee(s), left + (if s.house == s.escrow then 0 else HouseFee(s)) + SellerPayment(s)))
  }

  lemma {:induction false} CreatorsPaidIff(l: Ledger, escrow: Key, creators: seq<Creator>, royalty: u64)
    ensures PayCreators(l, escrow, creators, royalty).Ok? <==>
            Owed(creators, royalty) <= royalty && CreatorsNeed(creators, royalty, escrow) <= Balance(l, escrow)
  {
    if creators != [] {
      var initial := creators[..|creators| - 1];
      CreatorsPaidIff(l, escrow, initial, royalty);
      if PayCreators(l, escrow, initial, royalty).Ok? {
        CreatorsArePaid(l, escrow, initial, royalty, escrow);
      }
    }
  }

  /** The sale goes through exactly when the fees fit the price and the escrow holds what the payments need in turn. */
  lemma SaleSucceedsIff(l: Ledger, s: Sale)
    ensures Settle(l, s).Ok? <==> FeesFit(s) && SaleNeeds(s) <= Balance(l, s.escrow)
  {
    var royalty := PointsFee(s.royaltyPoints, s.price);
    CreatorsPaidIff(l, s.escrow, CreatorsOf(s), royalty);
    if PayCreators(l, s.escrow, CreatorsOf(s), royalty).Ok? {
      CreatorsArePaid(l, s.escrow, CreatorsOf(s), royalty, s.escrow);
    }
  }

  lemma {:induction false} CreatorsNeedAtMostOwed(creators: seq<Creator>, royalty: u64, escrow: Key)
    ensures 0 <= CreatorsNeed(creators, royalty, escrow) <= Owed(creators, royalty)
    ensures Left(creators, royalty, escrow) >= 0
  {
    if creators != [] {
      CreatorsNeedAtMostOwed(creators[..|creators| - 1], royalty, escrow);
    }
  }

  lemma {:induction false} NothingBack(creators: seq<Creator>, royalty: u64, escrow: Key)
    requires forall i :: 0 <= i < |creators| ==> creators[i].address != escrow
    ensures OwedTo(creators, royalty, escrow) == 0
  {
    if creators != [] {
      NothingBack(creators[..|creators| - 1], royalty, escrow);
    }
  }

  /** The price is always enough, and all of it is needed if the escrow is paid nothing itself. */
  lemma SaleNeedsThePrice(s: Sale)
    requires FeesFit(s)
    ensures SaleNeeds(s) <= s.price
    ensures EscrowApart(s) ==> SaleNeeds(s) == s.price
  {
    var royalty := PointsFee(s.royaltyPoints, s.price);
    CreatorsNeedAtMostOwed(CreatorsOf(s), royalty, s.escrow);
    if EscrowApart(s) {
      NothingBack(CreatorsOf(s), royalty, s.escrow);
    }
  }

  // ---------------------------------------------------------------------------
  // Sensible rates

  function Shares(creators: seq<Creator>): nat {
    if creators == [] then 0 else Shares(creators[..|creators| - 1]) + creators[|creators| - 1].share
  }

  lemma Distribute(a: nat, b: nat, c: nat)
    ensures (a + b) * c == a * c + b * c
  {
  }

  lemma AtMostWhole(rate: nat, size: nat, whole: nat)
    requires rate <= whole
    ensures rate * size <= whole * size
  {
    Distribute(rate, whole - rate, size);
  }

  /** A rate of at most the whole is never truncated by the cast. */
  lemma PointsFeeExact(points: u16, size: u64)
    requires points <= 10000
    ensures PointsFee(points, size) == points * size / 10000 <= size
  {
    AtMostWhole(points, size, 10000);
  }

  lemma CreatorFeeExact(c: Creator, royalty: u64)
    requires c.share <= 100
    ensures CreatorFee(c, royalty) == c.share * royalty / 100 <= royalty
  {
    AtMostWhole(c.share, royalty, 100);
    HundredthFits(c.share * royalty, royalty);
  }

  lemma HundredthFits(product: nat, royalty: nat)
    requires product <= 100 * royalty
    ensures product / 100 <= royalty
  {
  }

  /** The part of a whole at a rate, rounded down. */
  predicate IsPart(part: nat, rate: nat, size: nat, whole: nat) {
    whole * part <= rate * size < whole * (part + 1)
  }

  /** A fee is the part of the amount at its rate; from 2^64 on it wraps, which no rate up to the whole reaches. */
  lemma PointsInFigures(fee: nat, points: u16, size: u64)
    requires IsPart(fee, points, size, 10000)
    ensures PointsFee(points, size) == fee % 0x1_0000_0000_0000_0000
    ensures points <= 10000 ==> PointsFee(points, size) == fee
  {
    var product := points * size;
    assert product / 10000 == fee;
    if points <= 10000 {
      PointsFeeExact(points, size);
    }
  }

  lemma ShareInFigures(fee: nat, c: Creator, royalty: u64)
    requires IsPart(fee, c.share, royalty, 100)
    ensures CreatorFee(c, royalty) == fee % 0x1_0000_0000_0000_0000
    ensures c.share <= 100 ==> CreatorFee(c, royalty) == fee
  {
    var product := c.share * royalty;
    assert product / 100 == fee;
    if c.share <= 100 {
      CreatorFeeExact(c, royalty);
    }
  }

  lemma {:induction false} OwedToOne(creators: seq<Creator>, royalty: u64, i: nat)
    requires i < |creators|
    requires forall j :: 0 <= j < |creators| && j != i ==> creators[j].address != creators[i].address
    ensures OwedTo(creators, royalty, creators[i].address) == CreatorFee(creators[i], royalty)
  {
    var last := |creators| - 1;
    var initial := creators[..last];
    if i < last {
      OwedToOne(initial, royalty, i);
    } else {
      NothingBack(initial, royalty, creators[i].address);
    }
  }

  /** The accounts of a sale are all different. */
  predicate RolesApart(s: Sale) {
    && s.escrow != s.house && s.escrow != s.seller && s.house != s.seller
    && forall i :: 0 <= i < |CreatorsOf(s)| ==>
         && CreatorsOf(s)[i].address !in {s.escrow, s.house, s.seller}
         && forall j :: 0 <= j < |CreatorsOf(s)| && j != i ==> CreatorsOf(s)[j].address != CreatorsOf(s)[i].address
  }

  /**
   Between separate accounts, at rates within the whole: the escrow pays the
   price, the house gets its points of it, and each creator its hundredths of the
   royalty, itself the royalty points of the price, all rounded down.
   */
  lemma SaleInFigures(l: Ledger, s: Sale, royalty: u64, house: nat, i: nat, fee: nat)
    requires Settle(l, s).Ok? && RolesApart(s)
    requires s.royaltyPoints <= 10000 && IsPart(royalty, s.royaltyPoints, s.price, 10000)
    requires s.housePoints <= 10000 && IsPart(house, s.housePoints, s.price, 10000)
    requires i < |CreatorsOf(s)| ==> CreatorsOf(s)[i].share <= 100 && IsPart(fee, CreatorsOf(s)[i].share, royalty, 100)
    ensures var r := Settle(l, s).value;
      && Balance(r, s.escrow) == Balance(l, s.escrow) - s.price
      && Balance(r, s.house) == Balance(l, s.house) + house
      && (i < |CreatorsOf(s)| ==>
            Balance(r, CreatorsOf(s)[i].address) == Balance(l, CreatorsOf(s)[i].address) + fee)
      && (CreatorsOf(s) == [] ==> Balance(r, s.seller) == Balance(l, s.seller) + s.price - house)
  {
    PointsInFigures(royalty, s.royaltyPoints, s.price);
    PointsInFigures(house, s.housePoints, s.price);
    RoleIsPaid(l, s, s.escrow, 0);
    RoleIsPaid(l, s, s.house, house);
    if i < |CreatorsOf(s)| {
      ShareInFigures(fee, CreatorsOf(s)[i], royalty);
      OwedToOne(CreatorsOf(s), royalty, i);
      EveryoneIsPaid(l, s, CreatorsOf(s)[i].address);
    }
    if CreatorsOf(s) == [] {
      EveryoneIsPaid(l, s, s.seller);
    }
  }

  /** The house and the escrow are owed no royalties. */
  lemma RoleIsPaid(l: Ledger, s: Sale, k: Key, due: nat)
    requires Settle(l, s).Ok? && RolesApart(s) && (k == s.house || k == s.escrow)
    requires due == if k == s.house then HouseFee(s) else 0
    ensures Balance(Settle(l, s).value, k) + Spent(s, k, s.price) == Balance(l, k) + due
  {
    NothingBack(CreatorsOf(s), PointsFee(s.royaltyPoints, s.price), k);
    EveryoneIsPaid(l, s, k);
  }

  /** Rounding each creator's fee down loses less than one unit per creator. */
  lemma {:induction false} OwedByShares(creators: seq<Creator>, royalty: u64)
    requires Shares(creators) <= 100
    ensures Shares(creators) * royalty - 99 * |creators| <= 100 * Owed(creators, royalty) <= Shares(creators) * royalty
  {
    if creators != [] {
      var initial, c := creators[..|creators| - 1], creators[|creators| - 1];
      OwedByShares(initial, royalty);
      CreatorFeeExact(c, royalty);
      Distribute(Shares(initial), c.share, royalty);
    }
  }

  /** Fees at rates that together stay within the whole fit the price. */
  lemma RatesFit(s: Sale)
    requires s.royaltyPoints + s.housePoints <= 10000
    ensures PointsFee(s.royaltyPoints, s.price) + HouseFee(s) <= s.price
  {
    PointsFeeExact(s.royaltyPoints, s.price);
    PointsFeeExact(s.housePoints, s.price);
    Distribute(s.royaltyPoints, s.housePoints, s.price);
    AtMostWhole(s.royaltyPoints + s.housePoints, s.price, 10000);
  }

  /** With shares summing to 100 no checked step fails, and the seller's dust is less than one unit per creator. */
  lemma FullSharesFit(s: Sale)
    requires s.royaltyPoints + s.housePoints <= 10000
    requires s.creators.Some? && Shares(s.creators.value) == 100
    ensures FeesFit(s)
    ensures 0 <= PointsFee(s.royaltyPoints, s.price) - Royalties(s) < |s.creators.value|
    ensures SellerPayment(s) >= s.price - PointsFee(s.royaltyPoints, s.price) - HouseFee(s)
  {
    RatesFit(s);
    OwedByShares(s.creators.value, PointsFee(s.royaltyPoints, s.price));
  }

  /** Without creators the royalty goes back to the seller whole. */
  lemma NoCreatorsFit(s: Sale)
    requires s.royaltyPoints + s.housePoints <= 10000
    requires s.creators.None?
    ensures FeesFit(s)
    ensures SellerPayment(s) == s.price - HouseFee(s)
  {
    RatesFit(s);
  }

  /** At sensible rates a sale fails for lack of funds only, and the price in the escrow is enough. */
  lemma FundedSaleSucceeds(l: Ledger, s: Sale)
    requires s.royaltyPoints + s.housePoints <= 10000
    requires s.creators.Some? ==> Shares(s.creators.value) == 100
    ensures Settle(l, s).Ok? <==> SaleNeeds(s) <= Balance(l, s.escrow)
    ensures s.price <= Balance(l, s.escrow) ==> Settle(l, s).Ok?
    ensures EscrowApart(s) ==> (Settle(l, s).Ok? <==> s.price <= Balance(l, s.escrow))
  {
    SaleSucceedsIff(l, s);
    if s.creators.Some? {
      FullSharesFit(s);
    } else {
      NoCreatorsFit(s);
    }
    SaleNeedsThePrice(s);
  }

  // ---------------------------------------------------------------------------
  // The trade states' lamports

  datatype TradeStates = TradeStates(seller: Key, buyer: Key, free: Key, feePayer: Key)

  function Sweep(l: Ledger, tradeState: Key, feePayer: Key): Result<Ledger, Error> {
    var emptied := l[tradeState := 0];
    :- Need(Balance(emptied, feePayer) + Balance(l, tradeState) <= U64_MAX, NumericalOverflow);
    Ok(emptied[feePayer := Balance(emptied, feePayer) + Balance(l, tradeState)])
  }

  function CloseTradeStates(l: Ledger, t: TradeStates): Result<Ledger, Error> {
    var afterSeller :- Sweep(l, t.seller, t.feePayer);
    var afterBuyer :- Sweep(afterSeller, t.buyer, t.feePayer);
    if Balance(afterBuyer, t.free) > 0 then Sweep(afterBuyer, t.free, t.feePayer) else Ok(afterBuyer)
  }

  lemma BalanceWithinTotal(l: Ledger, k: Key)
    ensures Balance(l, k) <= Total(l)
  {
    if k in l {
      SumByEntry(l, Amount, k);
    }
  }

  /** When all lamports fit 64 bits a sweep cannot fail, and it loses none. */
  lemma SweepKeepsTotal(l: Ledger, tradeState: Key, feePayer: Key)
    requires Total(l) <= U64_MAX
    ensures Sweep(l, tradeState, feePayer).Ok?
    ensures Total(Sweep(l, tradeState, feePayer).value) == Total(l)
  {
    var emptied: Ledger := l[tradeState := 0];
    SumByUpdate<Key, nat>(l, Amount, tradeState, 0);
    BalanceWithinTotal(emptied, feePayer);
    SumByUpdate<Key, nat>(emptied, Amount, feePayer, Balance(emptied, feePayer) + Balance(l, tradeState));
  }

  /** Even if trade states coincide, all their lamports reach the fee payer once and they end empty. */
  lemma TradeStatesEmptied(l: Ledger, t: TradeStates)
    requires Total(l) <= U64_MAX
    requires t.feePayer !in {t.seller, t.buyer, t.free}
    ensures CloseTradeStates(l, t).Ok?
    ensures var r := CloseTradeStates(l, t).value;
      && Total(r) == Total(l)
      && Balance(r, t.seller) == Balance(r, t.buyer) == Balance(r, t.free) == 0
      && forall k :: k !in {t.seller, t.buyer, t.free, t.feePayer} ==> Balance(r, k) == Balance(l, k)
  {
    SweepKeepsTotal(l, t.seller, t.feePayer);
    var afterSeller := Sweep(l, t.seller, t.feePayer).value;
    SweepKeepsTotal(afterSeller, t.buyer, t.feePayer);
    var afterBuyer := Sweep(afterSeller, t.buyer, t.feePayer).value;
    SweepKeepsTotal(afterBuyer, t.free, t.feePayer);
  }

  // ---------------------------------------------------------------------------
  // execute_sale

  class Payments {
    var ledger: Ledger

    constructor (l: Ledger)
      ensures ledger == l
    {
      ledger := l;
    }

    method Pay(source: Key, target: Key, amount: nat) returns (r: Result<(), Error>)
      modifies this
      ensures match Transfer(old(ledger), source, target, amount)
              case Ok(l) => r == Ok(()) && ledger == l
              case Err(e) => r == Err(e) && ledger == old(ledger)
    {
      if amount > Balance(ledger, source) {
        return Err(InsufficientFunds);
      }
      ledger := ledger[source := Balance(ledger, source) - amount];
      ledger := ledger[target := Balance(ledger, target) + amount];
      r := Ok(());
    }

    method PayOneCreator(escrow: Key, c: Creator, royalty: u64, remaining: u64) returns (r: Result<u64, Error>)
      modifies this
      ensures match PayCreator(Paid(old(ledger), remaining), escrow, c, royalty)
              case Ok(paid) => r == Ok(paid.remaining) && ledger == paid.ledger
              case Err(e) => r == Err(e)
    {
      var fee := CreatorFee(c, royalty);
      if fee > remaining {
        return Err(NumericalOverflow);
      }
      var left: u64 := remaining - fee;
      if fee > 0 {
        var paid := Pay(escrow, c.address, fee);
        if paid.Err? {
          return Err(paid.error);
        }
      }
      r := Ok(left);
    }

    /** The loop of pay_creator_fees. */
    method PayEachCreator(escrow: Key, creators: seq<Creator>, royalty: u64) returns (r: Result<u64, Error>)
      modifies this
      ensures match PayCreators(old(ledger), escrow, creators, royalty)
              case Ok(paid) => r == Ok(paid.remaining) && ledger == paid.ledger
              case Err(e) => r == Err(e)
    {
      var remaining := royalty;
      for i := 0 to |creators|
        invariant PayCreators(old(ledger), escrow, creators[..i], royalty) == Ok(Paid(ledger, remaining))
      {
        assert creators[..i + 1][..i] == creators[..i];
        var left := PayOneCreator(escrow, creators[i], royalty, remaining);
        if left.Err? {
          PrefixFails(old(ledger), escrow, creators, royalty, i + 1);
          return Err(left.error);
        }
        remaining := left.value;
      }
      assert creators[..|creators|] == creators;
      r := Ok(remaining);
    }

    /** pay_creator_fees: returns what the buyer's payment still covers. */
    method PayRoyalties(s: Sale) returns (r: Result<u64, Error>)
      modifies this
      ensures match PayCreatorFees(old(ledger), s)
              case Ok(paid) => r == Ok(paid.remaining) && ledger == paid.ledger
              case Err(e) => r == Err(e)
    {
      var totalFee := PointsFee(s.royaltyPoints, s.price);
      if totalFee > s.price {
        return Err(NumericalOverflow);
      }
      var remainingFee := PayEachCreator(s.escrow, CreatorsOf(s), totalFee);
      if remainingFee.Err? {
        return Err(remainingFee.error);
      }
      var remaining := s.price - totalFee + remainingFee.value;
      if remaining > U64_MAX {
        return Err(NumericalOverflow);
      }
      var leftover: u64 := remaining;
      r := Ok(leftover);
    }

    /** The payment section of execute_sale; a failed transaction is rolled back by the runtime. */
    method ExecuteSale(s: Sale) returns (r: Result<(), Error>)
      modifies this
      ensures match Settle(old(ledger), s)
              case Ok(l) => r == Ok(()) && ledger == l
              case Err(e) => r == Err(e) && ledger == old(ledger)
    {
      var saved := ledger;
      var leftover := PayRoyalties(s);
      if leftover.Err? {
        ledger := saved;
        return Err(leftover.error);
      }
      var houseFee := PointsFee(s.housePoints, s.price);
      r := Pay(s.escrow, s.house, houseFee);
      if r.Ok? {
        if houseFee > leftover.value {
          r := Err(NumericalOverflow);
        } else {
          r := Pay(s.escrow, s.seller, leftover.value - houseFee);
        }
      }
      if r.Err? {
        ledger := saved;
      }
    }

    /** One trade state's lamports go to the fee payer. */
    method Reclaim(tradeState: Key, feePayer: Key) returns (r: Result<(), Error>)
      modifies this
      ensures match Sweep(old(ledger), tradeState, feePayer)
              case Ok(l) => r == Ok(()) && ledger == l
              case Err(e) => r == Err(e)
    {
      var lamports := Balance(ledger, tradeState);
      ledger := ledger[tradeState := 0];
      var sum := Balance(ledger, feePayer) + lamports;
      if sum > U64_MAX {
        return Err(NumericalOverflow);
      }
      ledger := ledger[feePayer := sum];
      r := Ok(());
    }

    method ReclaimAll(t: TradeStates) returns (r: Result<(), Error>)
      modifies this
      ensures match CloseTradeStates(old(ledger), t)
              case Ok(l) => r == Ok(()) && ledger == l
              case Err(e) => r == Err(e) && ledger == old(ledger)
    {
      var saved := ledger;
      r := Reclaim(t.seller, t.feePayer);
      if r.Ok? {
        r := Reclaim(t.buyer, t.feePayer);
      }
      if r.Ok? && Balance(ledger, t.free) > 0 {
        r := Reclaim(t.free, t.feePayer);
      }
      if r.Err? {
        ledger := saved;
      }
    }
  }

  /** Once a creator cannot be paid the whole list cannot. */
  lemma {:induction false} PrefixFails(l: Ledger, escrow: Key, creators: seq<Creator>, royalty: u64, n: nat)
    requires n <= |creators|
    requires PayCreators(l, escrow, creators[..n], royalty).Err?
    ensures PayCreators(l, escrow, creators, royalty) ==
            Err(PayCreators(l, escrow, creators[..n], royalty).error)
  {
    if n == |creators| {
      assert creators[..n] == creators;
    } else {
      assert creators[..|creators| - 1][..n] == creators[..n];
      PrefixFails(l, escrow, creators[..|creators| - 1], royalty, n);
    }
  }
}
