/** The two Room entities: a raffle (`Raffle.kt`) and one sold ticket
    (`SoldNumber.kt`). Both are immutable records; `copy` is Dafny's
    datatype update `r.(isActive := false)`. Ids are Kotlin `Long`s modelled
    as unbounded integers; the range and digit count are Kotlin `Int`s. */
module Entities {
  import opened KotlinText

  /** A row of table `raffles`. `id` 0 means "let the store pick one". The
      entity itself puts no constraint on the range or on `digits`. */
  datatype Raffle = Raffle(
    id: int,
    name: string,
    rangeStart: Int32,
    rangeEnd: Int32,
    digits: Int32,
    drawDate: string,
    lotteryName: string,
    prize: string,
    price: string,
    isActive: bool)

  /** A row of table `sold_numbers`: one ticket of raffle `raffleId` sold to
      a buyer. `number` is free text; nothing makes it unique per raffle.
      `raffleId` is a foreign key to `raffles.id` with ON DELETE CASCADE. */
  datatype SoldNumber = SoldNumber(
    id: int,
    raffleId: int,
    number: string,
    buyerName: string,
    buyerPhone: string,
    isPaid: bool)

  /** The `Raffle(...)` constructor call with Kotlin's default arguments. */
  function NewRaffle(name: string, rangeStart: Int32, rangeEnd: Int32, digits: Int32,
                     drawDate: string := "", lotteryName: string := "", prize: string := "",
                     price: string := "", isActive: bool := true): (r: Raffle)
    ensures r.id == 0
    ensures r.name == name && r.rangeStart == rangeStart && r.rangeEnd == rangeEnd && r.digits == digits
    ensures r.drawDate == drawDate && r.lotteryName == lotteryName && r.prize == prize && r.price == price
    ensures r.isActive == isActive
  {
    Raffle(0, name, rangeStart, rangeEnd, digits, drawDate, lotteryName, prize, price, isActive)
  }

  /** The `SoldNumber(...)` constructor call with Kotlin's default arguments. */
  function NewSoldNumber(raffleId: int, number: string, buyerName: string, buyerPhone: string,
                         isPaid: bool := false): (s: SoldNumber)
    ensures s.id == 0 && s.raffleId == raffleId && s.number == number
    ensures s.buyerName == buyerName && s.buyerPhone == buyerPhone && s.isPaid == isPaid
  {
    SoldNumber(0, raffleId, number, buyerName, buyerPhone, isPaid)
  }

  /** The primary keys, as functions for the generic table operations. */
  function RaffleKey(r: Raffle): int { r.id }

  function SoldKey(s: SoldNumber): int { s.id }
}
