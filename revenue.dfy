/** The statistics screen: the gross, net and potential revenue of the
    active raffles and the paid-over-sold progress bar. Prices are read with
    `toDoubleOrNull`, a JVM call this model takes as the parameter
    `parsePrice`; amounts are exact reals. */
module Revenue {
  import opened Wrappers
  import opened KotlinText
  import opened Entities
  import opened Lists
  import Tickets
  import Tables

  /** `price.toDoubleOrNull() ?: 0.0`. */
  function PricePerNumber(raffle: Raffle, parsePrice: string -> Option<real>): (p: real)
    ensures parsePrice(raffle.price).None? ==> p == 0.0
    ensures parsePrice(raffle.price).Some? ==> p == parsePrice(raffle.price).value
  {
    match parsePrice(raffle.price)
    case None => 0.0
    case Some(v) => v
  }

  /** Tickets sold in raffle `raffleId`. */
  function SoldCount(allSoldNumbers: seq<SoldNumber>, raffleId: int): nat {
    Count(allSoldNumbers, (s: SoldNumber) => s.raffleId == raffleId)
  }

  /** Tickets sold and paid in raffle `raffleId`. */
  function PaidCount(allSoldNumbers: seq<SoldNumber>, raffleId: int): nat {
    Count(allSoldNumbers, (s: SoldNumber) => s.raffleId == raffleId && s.isPaid)
  }

  /** No more tickets are paid than sold. */
  lemma PaidAtMostSold(allSoldNumbers: seq<SoldNumber>, raffleId: int)
    ensures PaidCount(allSoldNumbers, raffleId) <= SoldCount(allSoldNumbers, raffleId)
  {
    CountMonotone(allSoldNumbers, (s: SoldNumber) => s.raffleId == raffleId && s.isPaid,
                  (s: SoldNumber) => s.raffleId == raffleId);
  }

  /** `rangeEnd - rangeStart + 1` in Kotlin `Int` arithmetic. */
  function GeneratedCount(raffle: Raffle): Int32 {
    Wrap32(raffle.rangeEnd - raffle.rangeStart + 1)
  }

  /** When the range is well formed and its size fits an `Int`, that is the
      number of tickets in the grid. */
  lemma GeneratedCountIsGridSize(raffle: Raffle)
    requires raffle.rangeStart <= raffle.rangeEnd && raffle.rangeEnd - raffle.rangeStart + 1 < 0x8000_0000
    ensures GeneratedCount(raffle) == |Tickets.TicketLabels(raffle)|
  {
  }

  /** The full `Int` range has 2^32 tickets, which wraps to 0. */
  lemma FullRangeWrapsToZero(raffle: Raffle)
    requires raffle.rangeStart == -0x8000_0000 && raffle.rangeEnd == 0x7FFF_FFFF
    ensures GeneratedCount(raffle) == 0 && |Tickets.TicketLabels(raffle)| == 0x1_0000_0000
  {
  }

  function ActiveRaffles(raffles: seq<Raffle>): seq<Raffle> {
    Filter(raffles, (r: Raffle) => r.isActive)
  }

  lemma ActiveRafflesCons(r: Raffle, raffles: seq<Raffle>)
    ensures ActiveRaffles([r] + raffles) == (if r.isActive then [r] else []) + ActiveRaffles(raffles)
  {
    assert ([r] + raffles)[0] == r && ([r] + raffles)[1..] == raffles;
  }

  /** What one raffle adds to each total. */
  function GrossShare(raffle: Raffle, allSoldNumbers: seq<SoldNumber>, parsePrice: string -> Option<real>): real {
    SoldCount(allSoldNumbers, raffle.id) as real * PricePerNumber(raffle, parsePrice)
  }

  function NetShare(raffle: Raffle, allSoldNumbers: seq<SoldNumber>, parsePrice: string -> Option<real>): real {
    PaidCount(allSoldNumbers, raffle.id) as real * PricePerNumber(raffle, parsePrice)
  }

  function PotentialShare(raffle: Raffle, parsePrice: string -> Option<real>): real {
    GeneratedCount(raffle) as real * PricePerNumber(raffle, parsePrice)
  }

  /** `sumOf` of each share over a list of raffles. */
  function GrossSum(raffles: seq<Raffle>, allSoldNumbers: seq<SoldNumber>, parsePrice: string -> Option<real>): real {
    if raffles == [] then 0.0 else GrossShare(raffles[0], allSoldNumbers, parsePrice) + GrossSum(raffles[1..], allSoldNumbers, parsePrice)
  }

  function NetSum(raffles: seq<Raffle>, allSoldNumbers: seq<SoldNumber>, parsePrice: string -> Option<real>): real {
    if raffles == [] then 0.0 else NetShare(raffles[0], allSoldNumbers, parsePrice) + NetSum(raffles[1..], allSoldNumbers, parsePrice)
  }

  function PotentialSum(raffles: seq<Raffle>, parsePrice: string -> Option<real>): real {
    if raffles == [] then 0.0 else PotentialShare(raffles[0], parsePrice) + PotentialSum(raffles[1..], parsePrice)
  }

  /** `totalGrossRevenue`: tickets sold times price, over active raffles. */
  function GrossRevenue(raffles: seq<Raffle>, allSoldNumbers: seq<SoldNumber>, parsePrice: string -> Option<real>): real {
    GrossSum(ActiveRaffles(raffles), allSoldNumbers, parsePrice)
  }

  /** `totalNetRevenue`: tickets paid times price, over active raffles. */
  function NetRevenue(raffles: seq<Raffle>, allSoldNumbers: seq<SoldNumber>, parsePrice: string -> Option<real>): real {
    NetSum(ActiveRaffles(raffles), allSoldNumbers, parsePrice)
  }

  /** `totalPotentialRevenue`: tickets generated times price, over active
      raffles. */
  function PotentialRevenue(raffles: seq<Raffle>, parsePrice: string -> Option<real>): real {
    PotentialSum(ActiveRaffles(raffles), parsePrice)
  }

  /** Each raffle in front of the list adds its own share when active and
      nothing when not: the totals are sums over the active raffles only. */
  lemma RevenueOfCons(r: Raffle, raffles: seq<Raffle>, allSoldNumbers: seq<SoldNumber>, parsePrice: string -> Option<real>)
    ensures GrossRevenue([r] + raffles, allSoldNumbers, parsePrice)
      == (if r.isActive then SoldCount(allSoldNumbers, r.id) as real * PricePerNumber(r, parsePrice) else 0.0)
         + GrossRevenue(raffles, allSoldNumbers, parsePrice)
    ensures NetRevenue([r] + raffles, allSoldNumbers, parsePrice)
      == (if r.isActive then PaidCount(allSoldNumbers, r.id) as real * PricePerNumber(r, parsePrice) else 0.0)
         + NetRevenue(raffles, allSoldNumbers, parsePrice)
    ensures PotentialRevenue([r] + raffles, parsePrice)
      == (if r.isActive then GeneratedCount(r) as real * PricePerNumber(r, parsePrice) else 0.0)
         + PotentialRevenue(raffles, parsePrice)
  {
    ActiveRafflesCons(r, raffles);
    var a := ActiveRaffles(raffles);
    if r.isActive {
      assert ([r] + a)[0] == r && ([r] + a)[1..] == a;
    } else {
      assert [] + a == a;
    }
  }

  /** No raffle is counted on an empty list, so all totals start at 0. */
  lemma NoRafflesNoRevenue(allSoldNumbers: seq<SoldNumber>, parsePrice: string -> Option<real>)
    ensures GrossRevenue([], allSoldNumbers, parsePrice) == 0.0 && NetRevenue([], allSoldNumbers, parsePrice) == 0.0
    ensures PotentialRevenue([], parsePrice) == 0.0
  {
  }
  /** Selling one more ticket changes only its own raffle's counts. */
  lemma SaleCounts(allSoldNumbers: seq<SoldNumber>, s: SoldNumber, raffleId: int)
    ensures SoldCount(allSoldNumbers + [s], raffleId)
      == SoldCount(allSoldNumbers, raffleId) + (if s.raffleId == raffleId then 1 else 0)
    ensures PaidCount(allSoldNumbers + [s], raffleId)
      == PaidCount(allSoldNumbers, raffleId) + (if s.raffleId == raffleId && s.isPaid then 1 else 0)
  {
    CountSnoc(allSoldNumbers, s, (t: SoldNumber) => t.raffleId == raffleId);
    CountSnoc(allSoldNumbers, s, (t: SoldNumber) => t.raffleId == raffleId && t.isPaid);
  }

  lemma AddOneScale(c: nat, p: real)
    ensures (c + 1) as real * p == c as real * p + p
  {
  }

  /** Selling one more ticket adds its price to its own raffle's shares and
      nothing to another's. */
  lemma ShareAfterSale(r: Raffle, allSoldNumbers: seq<SoldNumber>, s: SoldNumber, parsePrice: string -> Option<real>)
    ensures GrossShare(r, allSoldNumbers + [s], parsePrice)
      == GrossShare(r, allSoldNumbers, parsePrice) + (if s.raffleId == r.id then PricePerNumber(r, parsePrice) else 0.0)
    ensures NetShare(r, allSoldNumbers + [s], parsePrice)
      == NetShare(r, allSoldNumbers, parsePrice) + (if s.raffleId == r.id && s.isPaid then PricePerNumber(r, parsePrice) else 0.0)
  {
    SaleCounts(allSoldNumbers, s, r.id);
    AddOneScale(SoldCount(allSoldNumbers, r.id), PricePerNumber(r, parsePrice));
    AddOneScale(PaidCount(allSoldNumbers, r.id), PricePerNumber(r, parsePrice));
  }

  /** Both totals of one raffle in front of the list, in terms of its
      shares. */
  lemma SharesOfCons(r: Raffle, raffles: seq<Raffle>, allSoldNumbers: seq<SoldNumber>, parsePrice: string -> Option<real>)
    ensures GrossRevenue([r] + raffles, allSoldNumbers, parsePrice)
      == (if r.isActive then GrossShare(r, allSoldNumbers, parsePrice) else 0.0) + GrossRevenue(raffles, allSoldNumbers, parsePrice)
    ensures NetRevenue([r] + raffles, allSoldNumbers, parsePrice)
      == (if r.isActive then NetShare(r, allSoldNumbers, parsePrice) else 0.0) + NetRevenue(raffles, allSoldNumbers, parsePrice)
  {
    RevenueOfCons(r, raffles, allSoldNumbers, parsePrice);
  }

  /** A ticket of a raffle that is not on the list changes no total. */
  lemma {:induction false} SaleElsewhere(raffles: seq<Raffle>, allSoldNumbers: seq<SoldNumber>, s: SoldNumber,
                                         parsePrice: string -> Option<real>)
    requires forall j :: 0 <= j < |raffles| ==> raffles[j].id != s.raffleId
    ensures GrossRevenue(raffles, allSoldNumbers + [s], parsePrice) == GrossRevenue(raffles, allSoldNumbers, parsePrice)
    ensures NetRevenue(raffles, allSoldNumbers + [s], parsePrice) == NetRevenue(raffles, allSoldNumbers, parsePrice)
  {
    if raffles != [] {
      var r, rest := raffles[0], raffles[1..];
      assert raffles == [r] + rest;
      SharesOfCons(r, rest, allSoldNumbers, parsePrice);
      SharesOfCons(r, rest, allSoldNumbers + [s], parsePrice);
      ShareAfterSale(r, allSoldNumbers, s, parsePrice);
      assert forall j :: 0 <= j < |rest| ==> rest[j] == raffles[j + 1];
      SaleElsewhere(rest, allSoldNumbers, s, parsePrice);
    }
  }

  /** Selling one ticket of the raffle in row `i` of a table with unique
      ids adds that raffle's price to the gross revenue, and to the net
      revenue when the ticket is paid, as long as the raffle is active;
      an inactive raffle's sale changes neither. */
  lemma {:induction false} SaleRevenue(raffles: seq<Raffle>, allSoldNumbers: seq<SoldNumber>, s: SoldNumber,
                                       parsePrice: string -> Option<real>, i: nat)
    requires Tables.Ascending(raffles, RaffleKey) && i < |raffles| && raffles[i].id == s.raffleId
    ensures GrossRevenue(raffles, allSoldNumbers + [s], parsePrice)
      == GrossRevenue(raffles, allSoldNumbers, parsePrice)
         + (if raffles[i].isActive then PricePerNumber(raffles[i], parsePrice) else 0.0)
    ensures NetRevenue(raffles, allSoldNumbers + [s], parsePrice)
      == NetRevenue(raffles, allSoldNumbers, parsePrice)
         + (if raffles[i].isActive && s.isPaid then PricePerNumber(raffles[i], parsePrice) else 0.0)
  {
    var r, rest := raffles[0], raffles[1..];
    assert raffles == [r] + rest;
    SharesOfCons(r, rest, allSoldNumbers, parsePrice);
    SharesOfCons(r, rest, allSoldNumbers + [s], parsePrice);
    ShareAfterSale(r, allSoldNumbers, s, parsePrice);
    assert forall j :: 0 <= j < |rest| ==> rest[j] == raffles[j + 1];
    if i == 0 {
      forall j | 0 <= j < |rest| ensures rest[j].id != s.raffleId {
        assert RaffleKey(raffles[0]) < RaffleKey(raffles[j + 1]);
      }
      SaleElsewhere(rest, allSoldNumbers, s, parsePrice);
    } else {
      assert RaffleKey(raffles[0]) < RaffleKey(raffles[i]);
      SaleRevenue(rest, allSoldNumbers, s, parsePrice, i - 1);
    }
  }

  /** Every price is a non-negative number or unreadable. */
  ghost predicate PricesNonNegative(raffles: seq<Raffle>, parsePrice: string -> Option<real>) {
    forall i :: 0 <= i < |raffles| ==> PricePerNumber(raffles[i], parsePrice) >= 0.0
  }

  /** Scaling two counts by the same non-negative price keeps their order. */
  lemma ScaleMonotone(a: nat, b: nat, p: real)
    requires a <= b && p >= 0.0
    ensures 0.0 <= a as real * p <= b as real * p
  {
  }

  /** A raffle's net share lies between 0 and its gross share. */
  lemma ShareWithin(r: Raffle, allSoldNumbers: seq<SoldNumber>, parsePrice: string -> Option<real>)
    requires PricePerNumber(r, parsePrice) >= 0.0
    ensures 0.0 <= NetShare(r, allSoldNumbers, parsePrice) <= GrossShare(r, allSoldNumbers, parsePrice)
  {
    PaidAtMostSold(allSoldNumbers, r.id);
    ScaleMonotone(PaidCount(allSoldNumbers, r.id), SoldCount(allSoldNumbers, r.id), PricePerNumber(r, parsePrice));
  }

  lemma {:induction false} NetSumWithinGrossSum(raffles: seq<Raffle>, allSoldNumbers: seq<SoldNumber>, parsePrice: string -> Option<real>)
    requires PricesNonNegative(raffles, parsePrice)
    ensures 0.0 <= NetSum(raffles, allSoldNumbers, parsePrice) <= GrossSum(raffles, allSoldNumbers, parsePrice)
  {
    if raffles != [] {
      var r := raffles[0];
      ShareWithin(r, allSoldNumbers, parsePrice);
      assert forall i :: 0 <= i < |raffles[1..]| ==> raffles[1..][i] == raffles[i + 1];
      NetSumWithinGrossSum(raffles[1..], allSoldNumbers, parsePrice);
    }
  }

  /** With non-negative prices the net revenue lies between 0 and the gross
      revenue. */
  lemma NetWithinGross(raffles: seq<Raffle>, allSoldNumbers: seq<SoldNumber>, parsePrice: string -> Option<real>)
    requires PricesNonNegative(raffles, parsePrice)
    ensures 0.0 <= NetRevenue(raffles, allSoldNumbers, parsePrice) <= GrossRevenue(raffles, allSoldNumbers, parsePrice)
  {
    var active := ActiveRaffles(raffles);
    FilterSpec(raffles, (r: Raffle) => r.isActive);
    forall i | 0 <= i < |active| ensures PricePerNumber(active[i], parsePrice) >= 0.0 {
      assert active[i] in raffles;
    }
    NetSumWithinGrossSum(active, allSoldNumbers, parsePrice);
  }

  /** The progress bar: net over gross, or 0 when there is no gross
      revenue. */
  function Progress(gross: real, net: real): (p: real)
    ensures gross <= 0.0 ==> p == 0.0
    ensures gross > 0.0 ==> p * gross == net
  {
    if gross > 0.0 then net / gross else 0.0
  }

  /** The bar is never over-full nor negative when prices are
      non-negative. */
  lemma ProgressWithinBar(raffles: seq<Raffle>, allSoldNumbers: seq<SoldNumber>, parsePrice: string -> Option<real>)
    requires PricesNonNegative(raffles, parsePrice)
    ensures var p := Progress(GrossRevenue(raffles, allSoldNumbers, parsePrice), NetRevenue(raffles, allSoldNumbers, parsePrice));
      0.0 <= p <= 1.0
  {
    NetWithinGross(raffles, allSoldNumbers, parsePrice);
    var g, n := GrossRevenue(raffles, allSoldNumbers, parsePrice), NetRevenue(raffles, allSoldNumbers, parsePrice);
    if g > 0.0 {
      assert n / g <= g / g;
    }
  }

  /** The bar is full exactly when every sold ticket of a priced active
      raffle is paid: shown here for one raffle. */
  lemma FullBarForOneRaffle(r: Raffle, allSoldNumbers: seq<SoldNumber>, parsePrice: string -> Option<real>)
    requires r.isActive && PricePerNumber(r, parsePrice) > 0.0 && SoldCount(allSoldNumbers, r.id) > 0
    ensures Progress(GrossRevenue([r], allSoldNumbers, parsePrice), NetRevenue([r], allSoldNumbers, parsePrice)) == 1.0
        <==> PaidCount(allSoldNumbers, r.id) == SoldCount(allSoldNumbers, r.id)
  {
    RevenueOfCons(r, [], allSoldNumbers, parsePrice);
    assert [r] + [] == [r];
    NoRafflesNoRevenue(allSoldNumbers, parsePrice);
    var price := PricePerNumber(r, parsePrice);
    var g := SoldCount(allSoldNumbers, r.id) as real * price;
    var n := PaidCount(allSoldNumbers, r.id) as real * price;
    assert GrossRevenue([r], allSoldNumbers, parsePrice) == g;
    assert NetRevenue([r], allSoldNumbers, parsePrice) == n;
    PositiveScale(SoldCount(allSoldNumbers, r.id), price);
    ScaleInjective(PaidCount(allSoldNumbers, r.id), SoldCount(allSoldNumbers, r.id), price);
    DivSelf(g);
  }

  lemma PositiveScale(a: nat, p: real)
    requires a > 0 && p > 0.0
    ensures a as real * p > 0.0
  {
  }

  lemma ScaleInjective(a: nat, b: nat, p: real)
    requires p > 0.0
    ensures a as real * p == b as real * p <==> a == b
  {
  }

  lemma DivSelf(g: real)
    requires g > 0.0
    ensures g / g == 1.0
  {
  }
}
