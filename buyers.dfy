/** The buyer lists of the app: the global "Compradores" screen, which
    groups every sold ticket by a normalised name and phone and sorts the
    buyers by name; the per-raffle buyer tab, which groups one raffle's
    tickets by the raw name and phone; the search and payment filter over
    both; and the "Clientes más fieles" ranking of the statistics screen. */
module Buyers {
  import opened KotlinText
  import opened Entities
  import opened Lists

  /** `BuyerSummary`: one buyer and the tickets grouped under them. */
  datatype BuyerSummary = BuyerSummary(name: string, phone: string, soldNumbers: seq<SoldNumber>)

  /** `isFullyPaid`: every ticket of the buyer is paid. */
  function IsFullyPaid(b: BuyerSummary): (r: bool)
    ensures r <==> forall i :: 0 <= i < |b.soldNumbers| ==> b.soldNumbers[i].isPaid
  {
    All(b.soldNumbers, (s: SoldNumber) => s.isPaid)
  }

  function Numbers(b: BuyerSummary): (r: seq<string>)
    ensures |r| == |b.soldNumbers| && forall i :: 0 <= i < |r| ==> r[i] == b.soldNumbers[i].number
  {
    Map(b.soldNumbers, (s: SoldNumber) => s.number)
  }

  /** `numbersListText`: the buyer's ticket numbers separated by ", ". */
  function NumbersListText(b: BuyerSummary): string {
    JoinToString(Numbers(b), ", ")
  }

  /** One more ticket adds ", " and its number at the end of the text; with
      the one-ticket case of `NumbersListTextSpec` this fixes the text as the
      numbers in list order. */
  lemma NumbersListTextSnoc(b: BuyerSummary, s: SoldNumber)
    requires b.soldNumbers != []
    ensures NumbersListText(b.(soldNumbers := b.soldNumbers + [s])) == NumbersListText(b) + ", " + s.number
  {
    var b' := b.(soldNumbers := b.soldNumbers + [s]);
    assert Numbers(b') == Numbers(b) + [s.number];
    JoinToStringSnoc(Numbers(b), ", ", s.number);
  }

  /** The text names every ticket of the buyer, starts with the first, and
      is as long as the numbers and the separators between them. */
  lemma NumbersListTextSpec(b: BuyerSummary)
    ensures b.soldNumbers == [] ==> NumbersListText(b) == ""
    ensures |b.soldNumbers| == 1 ==> NumbersListText(b) == b.soldNumbers[0].number
    ensures b.soldNumbers != [] ==>
      && |NumbersListText(b)| == TotalLength(Numbers(b)) + 2 * (|b.soldNumbers| - 1)
      && StartsWith(NumbersListText(b), b.soldNumbers[0].number)
    ensures forall i :: 0 <= i < |b.soldNumbers| ==> Contains(NumbersListText(b), b.soldNumbers[i].number)
  {
    if b.soldNumbers != [] {
      JoinToStringLength(Numbers(b), ", ");
    }
    forall i | 0 <= i < |b.soldNumbers| ensures Contains(NumbersListText(b), b.soldNumbers[i].number) {
      JoinToStringContains(Numbers(b), ", ", i);
    }
  }

  // ---------------------------------------------------------------------
  // Grouping tickets into buyers
  // ---------------------------------------------------------------------

  /** A group becomes a buyer named after its first ticket. */
  function SummaryOf(g: Group<string, SoldNumber>): BuyerSummary
    requires g.items != []
  {
    BuyerSummary(g.items[0].buyerName, g.items[0].buyerPhone, g.items)
  }

  function Summaries(gs: seq<Group<string, SoldNumber>>): (r: seq<BuyerSummary>)
    requires forall i :: 0 <= i < |gs| ==> gs[i].items != []
    ensures |r| == |gs| && forall i :: 0 <= i < |gs| ==> r[i] == SummaryOf(gs[i])
  {
    seq(|gs|, i requires 0 <= i < |gs| => SummaryOf(gs[i]))
  }

  /** `bs` splits the tickets `xs` by `key`: each buyer holds exactly the
      tickets of one key, in input order, at least one, and carries the name
      and phone of the first of them; no key has two buyers; every ticket
      has one. */
  ghost predicate Partitions(bs: seq<BuyerSummary>, xs: seq<SoldNumber>, key: SoldNumber -> string) {
    GroupsOf(bs, xs, key) && KeysDistinct(bs, key) && Covers(bs, xs, key)
  }

  ghost predicate GroupsOf(bs: seq<BuyerSummary>, xs: seq<SoldNumber>, key: SoldNumber -> string) {
    forall i :: 0 <= i < |bs| ==>
      && bs[i].soldNumbers != []
      && bs[i].soldNumbers == WithKey(xs, key, KeyOf(bs[i], key))
      && bs[i].name == bs[i].soldNumbers[0].buyerName
      && bs[i].phone == bs[i].soldNumbers[0].buyerPhone
  }

  /** The key of a buyer: that of their first ticket. */
  function KeyOf(b: BuyerSummary, key: SoldNumber -> string): string {
    if b.soldNumbers == [] then "" else key(b.soldNumbers[0])
  }

  ghost predicate KeysDistinct(bs: seq<BuyerSummary>, key: SoldNumber -> string) {
    forall i, j :: 0 <= i < j < |bs| ==> KeyOf(bs[i], key) != KeyOf(bs[j], key)
  }

  function BuyerKeys(bs: seq<BuyerSummary>, key: SoldNumber -> string): (ks: seq<string>)
    ensures |ks| == |bs| && forall i :: 0 <= i < |bs| ==> ks[i] == KeyOf(bs[i], key)
  {
    seq(|bs|, i requires 0 <= i < |bs| => KeyOf(bs[i], key))
  }

  ghost predicate Covers(bs: seq<BuyerSummary>, xs: seq<SoldNumber>, key: SoldNumber -> string) {
    forall n :: 0 <= n < |xs| ==> key(xs[n]) in BuyerKeys(bs, key)
  }

  /** The buyers come in the order of their first ticket. */
  ghost predicate FirstTicketOrder(bs: seq<BuyerSummary>, xs: seq<SoldNumber>, key: SoldNumber -> string) {
    forall i, j :: 0 <= i < j < |bs| ==> FirstIndex(xs, key, KeyOf(bs[i], key)) < FirstIndex(xs, key, KeyOf(bs[j], key))
  }

  /** A buyer's first ticket has its group's key. */
  lemma SummaryKeys(gs: seq<Group<string, SoldNumber>>, xs: seq<SoldNumber>, key: SoldNumber -> string)
    requires forall i :: 0 <= i < |gs| ==> gs[i].items == WithKey(xs, key, gs[i].key) && gs[i].items != []
    ensures forall i :: 0 <= i < |gs| ==> KeyOf(Summaries(gs)[i], key) == gs[i].key
  {
    forall i | 0 <= i < |gs| ensures KeyOf(Summaries(gs)[i], key) == gs[i].key {
      WithKeyKeys(xs, key, gs[i].key);
    }
  }

  lemma SummariesCover(gs: seq<Group<string, SoldNumber>>, xs: seq<SoldNumber>, key: SoldNumber -> string)
    requires forall i :: 0 <= i < |gs| ==> gs[i].items != []
    requires forall i :: 0 <= i < |gs| ==> KeyOf(Summaries(gs)[i], key) == gs[i].key
    requires forall n :: 0 <= n < |xs| ==> key(xs[n]) in Keys(gs)
    ensures Covers(Summaries(gs), xs, key)
  {
    var bs := Summaries(gs);
    forall n | 0 <= n < |xs| ensures key(xs[n]) in BuyerKeys(bs, key) {
      var i :| 0 <= i < |gs| && Keys(gs)[i] == key(xs[n]);
      assert BuyerKeys(bs, key)[i] == key(xs[n]);
    }
  }

  lemma SummariesPartition(gs: seq<Group<string, SoldNumber>>, xs: seq<SoldNumber>, key: SoldNumber -> string)
    requires IsGrouping(gs, xs, key)
    ensures Partitions(Summaries(gs), xs, key) && FirstTicketOrder(Summaries(gs), xs, key)
  {
    SummaryKeys(gs, xs, key);
    SummariesCover(gs, xs, key);
  }

  /** The per-raffle key: name and phone as typed, concatenated. */
  function BuyerKey(s: SoldNumber): string {
    s.buyerName + s.buyerPhone
  }

  /** The global key: the name lower-cased and trimmed, then the trimmed
      phone. */
  function GlobalKey(s: SoldNumber): string {
    Trim(Lowercase(s.buyerName)) + Trim(s.buyerPhone)
  }

  /** The key does not depend on whether the name is trimmed before or
      after it is lower-cased. */
  lemma GlobalKeyOrderFree(s: SoldNumber)
    ensures GlobalKey(s) == Lowercase(Trim(s.buyerName)) + Trim(s.buyerPhone)
  {
    TrimLowercaseCommute(s.buyerName);
  }

  /** The buyer tab of one raffle: its tickets grouped by `BuyerKey`, in
      the order of each buyer's first ticket. */
  function RaffleBuyers(soldNumbers: seq<SoldNumber>): (r: seq<BuyerSummary>)
    ensures Partitions(r, soldNumbers, BuyerKey) && FirstTicketOrder(r, soldNumbers, BuyerKey)
  {
    GroupByIsGrouping(soldNumbers, BuyerKey);
    SummariesPartition(GroupBy(soldNumbers, BuyerKey), soldNumbers, BuyerKey);
    Summaries(GroupBy(soldNumbers, BuyerKey))
  }

  /** All tickets grouped by `GlobalKey`, before sorting. */
  function GlobalGroups(allSoldNumbers: seq<SoldNumber>): (r: seq<BuyerSummary>)
    ensures Partitions(r, allSoldNumbers, GlobalKey) && FirstTicketOrder(r, allSoldNumbers, GlobalKey)
  {
    GroupByIsGrouping(allSoldNumbers, GlobalKey);
    SummariesPartition(GroupBy(allSoldNumbers, GlobalKey), allSoldNumbers, GlobalKey);
    Summaries(GroupBy(allSoldNumbers, GlobalKey))
  }

  /** `sortedBy { it.name }`. */
  predicate ByName(a: BuyerSummary, b: BuyerSummary) {
    NotAfter(a.name, b.name)
  }

  lemma ByNameTotalPreorder()
    ensures TotalPreorder(ByName)
  {
    forall a: BuyerSummary, b: BuyerSummary ensures ByName(a, b) || ByName(b, a) {
      NotAfterTotal(a.name, b.name);
    }
    forall a: BuyerSummary, b: BuyerSummary, c: BuyerSummary | ByName(a, b) && ByName(b, c) ensures ByName(a, c) {
      NotAfterTransitive(a.name, b.name, c.name);
    }
  }

  /** The global buyer list. */
  function GlobalBuyers(allSoldNumbers: seq<SoldNumber>): seq<BuyerSummary> {
    SortWith(GlobalGroups(allSoldNumbers), ByName)
  }

  /** The global list holds the same buyers as the grouping, so it still
      partitions the tickets; it is sorted by name; buyers with the same
      name keep the order of their first ticket. */
  lemma GlobalBuyersSpec(allSoldNumbers: seq<SoldNumber>)
    ensures var r, gs := GlobalBuyers(allSoldNumbers), GlobalGroups(allSoldNumbers);
      && Partitions(r, allSoldNumbers, GlobalKey)
      && multiset(r) == multiset(gs)
      && (forall i, j :: 0 <= i < j < |r| ==> NotAfter(r[i].name, r[j].name))
      && (forall k :: Ties(r, ByName, k) == Ties(gs, ByName, k))
  {
    var r, gs := GlobalBuyers(allSoldNumbers), GlobalGroups(allSoldNumbers);
    ByNameTotalPreorder();
    SortWithSpec(gs, ByName);
    GlobalBuyersPartition(allSoldNumbers);
  }

  lemma GlobalBuyersPartition(allSoldNumbers: seq<SoldNumber>)
    ensures Partitions(GlobalBuyers(allSoldNumbers), allSoldNumbers, GlobalKey)
  {
    var r, gs := GlobalBuyers(allSoldNumbers), GlobalGroups(allSoldNumbers);
    ByNameTotalPreorder();
    SortWithSpec(gs, ByName);
    PermutationMembers(r, gs);
    PermutedGroups(r, gs, allSoldNumbers, GlobalKey);
    PermutationDistinct(r, gs);
    PermutedKeysDistinct(r, gs, GlobalKey);
    PermutedCovers(r, gs, allSoldNumbers, GlobalKey);
  }

  lemma PermutedGroups(r: seq<BuyerSummary>, gs: seq<BuyerSummary>, xs: seq<SoldNumber>, key: SoldNumber -> string)
    requires GroupsOf(gs, xs, key) && forall b :: b in r <==> b in gs
    ensures GroupsOf(r, xs, key)
  {
    forall i | 0 <= i < |r| ensures r[i] in gs {
    }
  }

  lemma PermutedKeysDistinct(r: seq<BuyerSummary>, gs: seq<BuyerSummary>, key: SoldNumber -> string)
    requires (forall b :: b in r <==> b in gs) && Distinct(r) && KeysDistinct(gs, key)
    ensures KeysDistinct(r, key)
  {
    forall i, j | 0 <= i < j < |r| ensures KeyOf(r[i], key) != KeyOf(r[j], key) {
      assert r[i] in gs && r[j] in gs;
      var p :| 0 <= p < |gs| && gs[p] == r[i];
      var q :| 0 <= q < |gs| && gs[q] == r[j];
      assert p != q;
    }
  }

  lemma PermutedCovers(r: seq<BuyerSummary>, gs: seq<BuyerSummary>, xs: seq<SoldNumber>, key: SoldNumber -> string)
    requires (forall b :: b in r <==> b in gs) && Covers(gs, xs, key)
    ensures Covers(r, xs, key)
  {
    forall n | 0 <= n < |xs| ensures key(xs[n]) in BuyerKeys(r, key) {
      var p :| 0 <= p < |gs| && BuyerKeys(gs, key)[p] == key(xs[n]);
      assert gs[p] in r;
      var i :| 0 <= i < |r| && r[i] == gs[p];
      assert BuyerKeys(r, key)[i] == key(xs[n]);
    }
  }

  /** Keys are concatenated without a separator, so the per-raffle tab
      merges two different buyers whose name and phone run together into
      the same text. */
  lemma RaffleKeysCollide(raffleId: int)
    ensures var a, b := NewSoldNumber(raffleId, "01", "Ana", "5551"), NewSoldNumber(raffleId, "02", "Ana5", "551");
      var r := RaffleBuyers([a, b]);
      |r| == 1 && r[0].soldNumbers == [a, b] && r[0].name == "Ana"
  {
    var a, b := NewSoldNumber(raffleId, "01", "Ana", "5551"), NewSoldNumber(raffleId, "02", "Ana5", "551");
    var xs := [a, b];
    var k := BuyerKey(a);
    assert BuyerKey(b) == k;
    assert xs[..1] == [a] && [a][..0] == [];
    assert GroupBy([a], BuyerKey) == [Group(k, [a])];
    assert AddToGroup([Group(k, [a])], k, b) == [Group(k, [a] + [b])] + [Group(k, [a])][1..];
    assert [a] + [b] == [a, b] && [Group(k, [a])][1..] == [];
    assert GroupBy(xs, BuyerKey) == [Group(k, [a, b])];
  }

  // ---------------------------------------------------------------------
  // Search and payment filter
  // ---------------------------------------------------------------------

  /** The name contains the query ignoring case, or some ticket number
      contains it. */
  predicate MatchesSearch(b: BuyerSummary, query: string) {
    ContainsIgnoreCase(b.name, query) || Any(b.soldNumbers, (s: SoldNumber) => Contains(s.number, query))
  }

  /** "Pagos" keeps the fully paid buyers, "No Pagos" the others, any other
      filter everyone. */
  predicate MatchesFilter(b: BuyerSummary, filterType: string) {
    if filterType == "Pagos" then IsFullyPaid(b)
    else if filterType == "No Pagos" then !IsFullyPaid(b)
    else true
  }

  function FilterBuyers(buyers: seq<BuyerSummary>, query: string, filterType: string): (r: seq<BuyerSummary>)
    ensures |r| <= |buyers|
  {
    Filter(buyers, b => MatchesSearch(b, query) && MatchesFilter(b, filterType))
  }

  /** The filtered list keeps, in order, exactly the buyers that match both
      the search and the payment filter. */
  lemma FilterBuyersSpec(buyers: seq<BuyerSummary>, query: string, filterType: string)
    ensures IsSubsequence(FilterBuyers(buyers, query, filterType), buyers)
    ensures forall b :: b in FilterBuyers(buyers, query, filterType) <==>
      b in buyers && MatchesSearch(b, query) && MatchesFilter(b, filterType)
  {
    FilterSpec(buyers, b => MatchesSearch(b, query) && MatchesFilter(b, filterType));
  }

  /** For one search, "Pagos" and "No Pagos" split the "Todos" list: each
      matching buyer is in exactly one of them. */
  lemma PaymentFiltersSplit(buyers: seq<BuyerSummary>, query: string)
    ensures forall b :: b in FilterBuyers(buyers, query, "Todos") <==>
      b in FilterBuyers(buyers, query, "Pagos") || b in FilterBuyers(buyers, query, "No Pagos")
    ensures forall b :: !(b in FilterBuyers(buyers, query, "Pagos") && b in FilterBuyers(buyers, query, "No Pagos"))
  {
    FilterBuyersSpec(buyers, query, "Todos");
    FilterBuyersSpec(buyers, query, "Pagos");
    FilterBuyersSpec(buyers, query, "No Pagos");
  }

  /** With an empty search and the "Todos" filter the list is shown whole. */
  lemma EmptySearchShowsAll(buyers: seq<BuyerSummary>)
    ensures FilterBuyers(buyers, "", "Todos") == buyers
  {
    forall i | 0 <= i < |buyers| ensures MatchesSearch(buyers[i], "") {
      assert StartsWith(Lowercase(buyers[i].name), Lowercase(""));
    }
    FilterKeepsAll(buyers, b => MatchesSearch(b, "") && MatchesFilter(b, "Todos"));
  }

  // ---------------------------------------------------------------------
  // Loyal clients
  // ---------------------------------------------------------------------

  /** The loyal-client key: the trimmed phone. */
  function PhoneKey(s: SoldNumber): string {
    Trim(s.buyerPhone)
  }

  /** One `(name, tickets)` pair per trimmed phone, in the order the phones
      first occur. */
  function ClientCounts(allSoldNumbers: seq<SoldNumber>): (r: seq<(string, nat)>)
    ensures |r| == |GroupBy(allSoldNumbers, PhoneKey)|
  {
    var gs := GroupBy(allSoldNumbers, PhoneKey);
    GroupByIsGrouping(allSoldNumbers, PhoneKey);
    seq(|gs|, i requires 0 <= i < |gs| => (gs[i].items[0].buyerName, |gs[i].items|))
  }

  /** `sortedByDescending { it.second }`. */
  predicate ByPurchases(a: (string, nat), b: (string, nat)) {
    a.1 >= b.1
  }

  /** The top ten clients by tickets bought. */
  function LoyalClients(allSoldNumbers: seq<SoldNumber>): (r: seq<(string, nat)>)
    ensures |r| <= 10
  {
    Take(SortWith(ClientCounts(allSoldNumbers), ByPurchases), 10)
  }

  /** Each pair counts the tickets of one trimmed phone and names the buyer
      of its first ticket; the phones are distinct and every ticket's phone
      is counted. */
  lemma ClientCountsSpec(allSoldNumbers: seq<SoldNumber>)
    ensures var gs, r := GroupBy(allSoldNumbers, PhoneKey), ClientCounts(allSoldNumbers);
      && IsGrouping(gs, allSoldNumbers, PhoneKey)
      && forall i :: 0 <= i < |r| ==>
        && FirstIndex(allSoldNumbers, PhoneKey, gs[i].key) < |allSoldNumbers|
        && r[i] == (allSoldNumbers[FirstIndex(allSoldNumbers, PhoneKey, gs[i].key)].buyerName,
                    |WithKey(allSoldNumbers, PhoneKey, gs[i].key)|)
  {
    var gs := GroupBy(allSoldNumbers, PhoneKey);
    GroupByIsGrouping(allSoldNumbers, PhoneKey);
    forall i | 0 <= i < |gs|
      ensures FirstIndex(allSoldNumbers, PhoneKey, gs[i].key) < |allSoldNumbers|
      ensures gs[i].items[0] == allSoldNumbers[FirstIndex(allSoldNumbers, PhoneKey, gs[i].key)]
    {
      WithKeyFirst(allSoldNumbers, PhoneKey, gs[i].key);
    }
  }

  lemma ByPurchasesTotalPreorder()
    ensures TotalPreorder(ByPurchases)
  {
  }

  /** At most ten clients, by falling ticket count, each one of the counted
      clients and none listed twice; a client left out bought no more than the tenth. */
  lemma LoyalClientsSpec(allSoldNumbers: seq<SoldNumber>)
    ensures var r, c := LoyalClients(allSoldNumbers), ClientCounts(allSoldNumbers);
      && |r| == (if |c| < 10 then |c| else 10)
      && (forall i, j :: 0 <= i < j < |r| ==> r[i].1 >= r[j].1)
      && (forall i :: 0 <= i < |r| ==> r[i] in c)
      && multiset(r) <= multiset(c)
      && (forall x :: x in c && x !in r ==> |r| == 10 && x.1 <= r[9].1)
  {
    ByPurchasesTotalPreorder();
    SortedPrefix(ClientCounts(allSoldNumbers), ByPurchases, 10);
  }
}
