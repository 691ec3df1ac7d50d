/**
 The decision each actor of psdd.c makes inside its critical section, as a
 pure function of the balance it read and of the raw draws it takes. Each
 policy returns the event it reports; `Delta` is what that event does to the
 balance.
 */
module Policy {
  import opened Draws

  /** The outcomes an actor reports on one turn. */
  datatype Event =
    | Deposited(amount: int)      // Dad or Mom adds `amount`
    | Withdrew(amount: int)       // the student takes `amount`
    | NoMoneyToGive               // Dad considered depositing but drew odd
    | EnoughCash                  // Dad found the balance at or above his ceiling
    | BalanceSufficient           // Mom found the balance above her ceiling
    | NotEnoughCash(need: int)    // the student needed more than the balance
    | CheckedBalance              // Dad or the student only looked

  /** Dad deposits only while the balance is below this. */
  const DadCeiling := 100
  const DadMaxDeposit := 100
  /** Mom deposits only while the balance is at most this. */
  const MomCeiling := 100
  const MomMinDeposit := 50
  const MomMaxDeposit := 125
  const StudentMaxNeed := 50

  /** The change an event makes to the balance. */
  function Delta(e: Event): int
  {
    match e
    case Deposited(a) => a
    case Withdrew(a) => -a
    case _ => 0
  }

  /** Dad's turn: a decision draw, a second parity draw, then an amount in
      [0, 100]. Parity of a draw in [0, 99] is the parity of the raw value. */
  function DadPolicy(balance: int, rDecision: nat, rCoin: nat, rAmount: nat): (e: Event)
    ensures e.Deposited? || e == NoMoneyToGive || e == EnoughCash || e == CheckedBalance
    ensures e.Deposited? <==> rDecision % 2 == 0 && balance < DadCeiling && rCoin % 2 == 0
    ensures e == NoMoneyToGive <==> rDecision % 2 == 0 && balance < DadCeiling && rCoin % 2 == 1
    ensures e == EnoughCash <==> rDecision % 2 == 0 && balance >= DadCeiling
    ensures e == CheckedBalance <==> rDecision % 2 == 1
    ensures e.Deposited? ==> 0 <= e.amount <= DadMaxDeposit && e.amount == GetRandom(0, 100, rAmount)
    ensures 0 <= Delta(e) <= DadMaxDeposit
    ensures balance >= DadCeiling ==> Delta(e) == 0
  {
    PercentParity(rDecision);
    PercentParity(rCoin);
    var decision := GetRandom(0, 99, rDecision);
    if decision % 2 == 0 then
      if balance < DadCeiling then
        var coin := GetRandom(0, 99, rCoin);
        if coin % 2 == 0 then Deposited(GetRandom(0, 100, rAmount))
        else NoMoneyToGive
      else EnoughCash
    else CheckedBalance
  }

  /** Mom's turn: with the balance at most 100 she always deposits an amount
      in [50, 125]; above that she only reports that it is sufficient. */
  function MomPolicy(balance: int, rAmount: nat): (e: Event)
    ensures e.Deposited? || e == BalanceSufficient
    ensures e.Deposited? <==> balance <= MomCeiling
    ensures e.Deposited? ==> MomMinDeposit <= e.amount <= MomMaxDeposit && e.amount == GetRandom(50, 125, rAmount)
    ensures balance <= MomCeiling ==> MomMinDeposit <= Delta(e) <= MomMaxDeposit
    ensures balance > MomCeiling ==> Delta(e) == 0
  {
    if balance <= MomCeiling then Deposited(GetRandom(50, 125, rAmount))
    else BalanceSufficient
  }

  /** The student's turn: on an even decision, a need in [0, 50] that is
      taken only when the balance covers it. */
  function StudentPolicy(balance: int, rDecision: nat, rNeed: nat): (e: Event)
    ensures e.Withdrew? || e.NotEnoughCash? || e == CheckedBalance
    ensures e == CheckedBalance <==> rDecision % 2 == 1
    ensures e.Withdrew? <==> rDecision % 2 == 0 && GetRandom(0, 50, rNeed) <= balance
    ensures e.Withdrew? ==> e.amount == GetRandom(0, 50, rNeed) && 0 <= e.amount <= balance
    ensures e.NotEnoughCash? ==> e.need == GetRandom(0, 50, rNeed) && balance < e.need <= StudentMaxNeed
    ensures -StudentMaxNeed <= Delta(e) <= 0
    ensures balance >= 0 ==> balance + Delta(e) >= 0
  {
    PercentParity(rDecision);
    var decision := GetRandom(0, 99, rDecision);
    if decision % 2 == 0 then
      var need := GetRandom(0, 50, rNeed);
      if need <= balance then Withdrew(need) else NotEnoughCash(need)
    else CheckedBalance
  }

  /** Every amount in [0, 100] is a possible deposit by Dad below his ceiling. */
  lemma DadDepositsAnyAmount(balance: int, amount: int)
    requires balance < DadCeiling && 0 <= amount <= DadMaxDeposit
    ensures DadPolicy(balance, 0, 0, amount) == Deposited(amount)
  {
    GetRandomCovers(0, 100, amount);
  }

  /** Every amount in [50, 125] is a possible deposit by Mom at or below her ceiling. */
  lemma MomDepositsAnyAmount(balance: int, amount: int)
    requires balance <= MomCeiling && MomMinDeposit <= amount <= MomMaxDeposit
    ensures MomPolicy(balance, amount - 50) == Deposited(amount)
  {
    GetRandomCovers(50, 125, amount);
  }
}
