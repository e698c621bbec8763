/** `RaffleRepository`: a thin layer over the DAO. Every operation is one
    DAO call except `deleteRaffle`, which first deletes the raffle's sold
    numbers explicitly and then the raffle. The `Flow` properties become
    functions of the current database state. */
module Repository {
  import opened Entities
  import opened Tables
  import opened Wrappers
  import opened Dao
  import Lists

  /** Deleting the rows of a raffle twice is deleting them once. */
  lemma WithoutRaffleTwice(rows: seq<SoldNumber>, raffleId: int)
    requires Ascending(rows, SoldKey)
    ensures WithoutRaffle(WithoutRaffle(rows, raffleId), raffleId) == WithoutRaffle(rows, raffleId)
  {
    var once := WithoutRaffle(rows, raffleId);
    AscendingUnique(WithoutRaffle(once, raffleId), once, SoldKey);
  }

  /** Removing the rows of one raffle leaves every other raffle's rows as
      they were, in the same order. */
  lemma WithoutRaffleKeepsOthers(rows: seq<SoldNumber>, raffleId: int, other: int)
    requires Ascending(rows, SoldKey) && other != raffleId
    ensures OfRaffle(WithoutRaffle(rows, raffleId), other) == OfRaffle(rows, other)
  {
    var rest := WithoutRaffle(rows, raffleId);
    SubsequenceAscending(OfRaffle(rest, other), rest, SoldKey);
    SubsequenceAscending(OfRaffle(rows, other), rows, SoldKey);
    AscendingUnique(OfRaffle(rest, other), OfRaffle(rows, other), SoldKey);
  }

  class RaffleRepository {
    const dao: RaffleDao

    ghost predicate Valid()
      reads this, dao
    {
      dao.Valid()
    }

    constructor (dao: RaffleDao)
      ensures this.dao == dao
    {
      this.dao := dao;
    }

    /** `allRaffles`: the raffles, newest id first. */
    function AllRaffles(): (r: seq<Raffle>)
      reads this, dao
      requires Valid()
      ensures forall x :: x in r <==> x in dao.raffles
      ensures forall i, j :: 0 <= i < j < |r| ==> r[i].id > r[j].id
    {
      dao.GetAllRaffles()
    }

    function GetRaffleById(id: int): (r: Option<Raffle>)
      reads this, dao
      ensures r.Some? <==> exists x | x in dao.raffles :: x.id == id
      ensures r.Some? ==> r.value in dao.raffles && r.value.id == id
    {
      dao.GetRaffleById(id)
    }

    method AddRaffle(raffle: Raffle) returns (id: int)
      requires Valid()
      modifies dao
      ensures Valid()
      ensures id == AssignedKey(old(dao.raffleSeq), raffle.id)
      ensures dao.raffles == Upsert(old(dao.raffles), RaffleKey, raffle.(id := id))
      ensures dao.soldNumbers == if HasKey(old(dao.raffles), RaffleKey, id) then WithoutRaffle(old(dao.soldNumbers), id) else old(dao.soldNumbers)
      ensures dao.raffleSeq == if id > old(dao.raffleSeq) then id else old(dao.raffleSeq)
      ensures dao.soldSeq == old(dao.soldSeq)
    {
      id := dao.InsertRaffle(raffle);
    }

    method SellNumbers(soldNumbers: seq<SoldNumber>) returns (ok: bool)
      requires Valid()
      modifies dao
      ensures Valid()
      ensures ok <==> forall i :: 0 <= i < |soldNumbers| ==> HasKey(dao.raffles, RaffleKey, soldNumbers[i].raffleId)
      ensures ok ==> (dao.soldNumbers, dao.soldSeq) == InsertAll(old(dao.soldNumbers), old(dao.soldSeq), soldNumbers)
      ensures !ok ==> dao.soldNumbers == old(dao.soldNumbers) && dao.soldSeq == old(dao.soldSeq)
      ensures dao.raffles == old(dao.raffles) && dao.raffleSeq == old(dao.raffleSeq)
    {
      ok := dao.InsertSoldNumbers(soldNumbers);
    }

    function GetSoldNumbers(raffleId: int): (r: seq<SoldNumber>)
      reads this, dao
      ensures forall s :: s in r <==> s in dao.soldNumbers && s.raffleId == raffleId
      ensures Lists.IsSubsequence(r, dao.soldNumbers)
    {
      dao.GetSoldNumbersByRaffleId(raffleId)
    }

    /** `allSoldNumbers`. */
    function AllSoldNumbers(): (r: seq<SoldNumber>)
      reads this, dao
      ensures forall s :: s in r <==> s in dao.soldNumbers
      ensures multiset(r) == multiset(dao.soldNumbers)
    {
      dao.AllSoldNumbers()
    }

    method UpdateSoldNumber(soldNumber: SoldNumber) returns (ok: bool)
      requires Valid()
      modifies dao
      ensures Valid()
      ensures ok <==> !HasKey(old(dao.soldNumbers), SoldKey, soldNumber.id) || HasKey(dao.raffles, RaffleKey, soldNumber.raffleId)
      ensures dao.soldNumbers == if ok then Replace(old(dao.soldNumbers), SoldKey, soldNumber) else old(dao.soldNumbers)
      ensures dao.raffles == old(dao.raffles) && dao.raffleSeq == old(dao.raffleSeq) && dao.soldSeq == old(dao.soldSeq)
    {
      ok := dao.UpdateSoldNumber(soldNumber);
    }

    method UpdateRaffle(raffle: Raffle)
      requires Valid()
      modifies dao
      ensures Valid()
      ensures dao.raffles == Replace(old(dao.raffles), RaffleKey, raffle)
      ensures dao.soldNumbers == old(dao.soldNumbers) && dao.raffleSeq == old(dao.raffleSeq) && dao.soldSeq == old(dao.soldSeq)
    {
      dao.UpdateRaffle(raffle);
    }

    method DeleteSoldNumber(soldNumber: SoldNumber)
      requires Valid()
      modifies dao
      ensures Valid()
      ensures dao.soldNumbers == DeleteKey(old(dao.soldNumbers), SoldKey, soldNumber.id)
      ensures dao.raffles == old(dao.raffles) && dao.raffleSeq == old(dao.raffleSeq) && dao.soldSeq == old(dao.soldSeq)
    {
      dao.DeleteSoldNumber(soldNumber);
    }

    /** Deletes the raffle's sold numbers, then the raffle. The end state is
        the one the cascade alone would reach: the raffle row and exactly
        its sold numbers are gone. */
    method DeleteRaffle(raffle: Raffle)
      requires Valid()
      modifies dao
      ensures Valid()
      ensures dao.raffles == DeleteKey(old(dao.raffles), RaffleKey, raffle.id)
      ensures dao.soldNumbers == WithoutRaffle(old(dao.soldNumbers), raffle.id)
      ensures dao.raffleSeq == old(dao.raffleSeq) && dao.soldSeq == old(dao.soldSeq)
    {
      dao.DeleteSoldNumbersByRaffleId(raffle.id);
      dao.DeleteRaffle(raffle);
      WithoutRaffleTwice(old(dao.soldNumbers), raffle.id);
    }
  }
}
