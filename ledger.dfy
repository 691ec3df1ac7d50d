/**
 The shared bank account of psdd.c and the critical sections that update it.

 Every actor reads `bank_account`, decides and writes back within one
 `sem_wait`/`sem_post` pair, so a turn is atomic and any run of the system is
 a finite sequence of turns applied to one balance that starts at 0. The
 lock itself is modelled as that atomicity: one method call is one critical
 section.
 */
module Ledger {
  import opened Draws
  import opened Policy

  /** One critical section, with the raw draws its actor takes. */
  datatype Step =
    | DadTurn(rDecision: nat, rCoin: nat, rAmount: nat)
    | MomTurn(rAmount: nat)
    | StudentTurn(rDecision: nat, rNeed: nat)

  /** The largest balance any run from 0 can reach: Mom's top deposit made at her ceiling. */
  const MaxBalance := MomCeiling + MomMaxDeposit

  /** The event a turn reports when it reads `balance`. */
  function Decide(balance: int, s: Step): Event
  {
    match s
    case DadTurn(d, c, a) => DadPolicy(balance, d, c, a)
    case MomTurn(a) => MomPolicy(balance, a)
    case StudentTurn(d, n) => StudentPolicy(balance, d, n)
  }

  /** The balance after running `steps` in order from `balance`. */
  function Final(balance: int, steps: seq<Step>): int
    decreases |steps|
  {
    if steps == [] then balance
    else Final(balance + Delta(Decide(balance, steps[0])), steps[1..])
  }

  /** The events the turns of `steps` report, in order. */
  function Trace(balance: int, steps: seq<Step>): seq<Event>
    decreases |steps|
  {
    if steps == [] then []
    else [Decide(balance, steps[0])] + Trace(balance + Delta(Decide(balance, steps[0])), steps[1..])
  }

  function SumDeltas(events: seq<Event>): int
  {
    if events == [] then 0 else Delta(events[0]) + SumDeltas(events[1..])
  }

  ghost predicate InBounds(balance: int)
  {
    0 <= balance <= MaxBalance
  }

  /** A single turn keeps the balance within [0, 225]: Dad adds at most 100
      only below 100, Mom at most 125 only at or below 100, and the student
      never takes more than there is. */
  lemma StepKeepsBounds(balance: int, s: Step)
    requires InBounds(balance)
    ensures InBounds(balance + Delta(Decide(balance, s)))
  {
  }

  /** Any interleaving of turns that starts within [0, 225] stays within it;
      in particular every run from the initial balance 0. */
  lemma {:induction false} RunKeepsBounds(balance: int, steps: seq<Step>)
    requires InBounds(balance)
    ensures InBounds(Final(balance, steps))
    decreases |steps|
  {
    if steps != [] {
      StepKeepsBounds(balance, steps[0]);
      RunKeepsBounds(balance + Delta(Decide(balance, steps[0])), steps[1..]);
    }
  }

  /** No lost update: the final balance is the start plus the sum of the
      changes every turn reported, in the order the turns ran. */
  lemma {:induction false} NoLostUpdate(balance: int, steps: seq<Step>)
    ensures |Trace(balance, steps)| == |steps|
    ensures Final(balance, steps) == balance + SumDeltas(Trace(balance, steps))
    decreases |steps|
  {
    if steps != [] {
      var e := Decide(balance, steps[0]);
      NoLostUpdate(balance + Delta(e), steps[1..]);
      var t := Trace(balance, steps);
      assert t[0] == e && t[1..] == Trace(balance + Delta(e), steps[1..]);
    }
  }

  /** Running `pre` and then `post` is the same as running them joined. */
  lemma {:induction false} FinalAppend(balance: int, pre: seq<Step>, post: seq<Step>)
    ensures Final(balance, pre + post) == Final(Final(balance, pre), post)
    ensures Trace(balance, pre + post) == Trace(balance, pre) + Trace(Final(balance, pre), post)
    decreases |pre|
  {
    if pre != [] {
      assert (pre + post)[0] == pre[0];
      assert (pre + post)[1..] == pre[1..] + post;
      FinalAppend(balance + Delta(Decide(balance, pre[0])), pre[1..], post);
    } else {
      assert pre + post == post;
    }
  }

  /** The bound 225 is reached: from 0, Dad deposits 100 and then Mom 125. */
  lemma MaxBalanceReached()
    ensures Final(0, [DadTurn(0, 0, 100), MomTurn(75)]) == MaxBalance
  {
  }

  /** One Dad and one student from 0: Dad gives 40, the student needs 50 and
      gets nothing, Dad gives 70, the student takes 30, leaving 80. */
  lemma DadStudentScenario()
    ensures Trace(0, [DadTurn(0, 0, 40), StudentTurn(0, 50), DadTurn(0, 0, 70), StudentTurn(0, 30)])
      == [Deposited(40), NotEnoughCash(50), Deposited(70), Withdrew(30)]
    ensures Final(0, [DadTurn(0, 0, 40), StudentTurn(0, 50), DadTurn(0, 0, 70), StudentTurn(0, 30)]) == 80
  {
  }

  /** The account behind `shared->bank_account`. */
  class Account {
    var balance: int

    /** The ledger is set to 0 once, before any actor starts. */
    constructor ()
      ensures balance == 0 && InBounds(balance)
    {
      balance := 0;
    }

    /** One critical section of `dad_process`. */
    method DadStep(rDecision: nat, rCoin: nat, rAmount: nat) returns (e: Event)
      modifies this
      ensures e == DadPolicy(old(balance), rDecision, rCoin, rAmount)
      ensures balance == old(balance) + Delta(e)
    {
      var decision := GetRandom(0, 99, rDecision);
      var localBalance := balance;
      if decision % 2 == 0 {
        if localBalance < DadCeiling {
          var amount := GetRandom(0, 99, rCoin);
          if amount % 2 == 0 {
            amount := GetRandom(0, 100, rAmount);
            localBalance := localBalance + amount;
            balance := localBalance;
            e := Deposited(amount);
          } else {
            e := NoMoneyToGive;
          }
        } else {
          e := EnoughCash;
        }
      } else {
        e := CheckedBalance;
      }
    }

    /** One critical section of `mom_process`. */
    method MomStep(rAmount: nat) returns (e: Event)
      modifies this
      ensures e == MomPolicy(old(balance), rAmount)
      ensures balance == old(balance) + Delta(e)
    {
      var localBalance := balance;
      if localBalance <= MomCeiling {
        var amount := GetRandom(50, 125, rAmount);
        localBalance := localBalance + amount;
        balance := localBalance;
        e := Deposited(amount);
      } else {
        e := BalanceSufficient;
      }
    }

    /** One critical section of `student_process`. */
    method StudentStep(rDecision: nat, rNeed: nat) returns (e: Event)
      modifies this
      ensures e == StudentPolicy(old(balance), rDecision, rNeed)
      ensures balance == old(balance) + Delta(e)
    {
      var decision := GetRandom(0, 99, rDecision);
      var localBalance := balance;
      if decision % 2 == 0 {
        var need := GetRandom(0, 50, rNeed);
        if need <= localBalance {
          localBalance := localBalance - need;
          balance := localBalance;
          e := Withdrew(need);
        } else {
          e := NotEnoughCash(need);
        }
      } else {
        e := CheckedBalance;
      }
    }

    /** Whichever actor holds the lock takes its turn. */
    method Turn(s: Step) returns (e: Event)
      modifies this
      ensures e == Decide(old(balance), s)
      ensures balance == old(balance) + Delta(e)
    {
      match s
      case DadTurn(d, c, a) => e := DadStep(d, c, a);
      case MomTurn(a) => e := MomStep(a);
      case StudentTurn(d, n) => e := StudentStep(d, n);
    }

    /** The critical sections of all actors in the order the lock granted them. */
    method Run(steps: seq<Step>) returns (events: seq<Event>)
      requires InBounds(balance)
      modifies this
      ensures InBounds(balance)
      ensures balance == Final(old(balance), steps)
      ensures events == Trace(old(balance), steps)
      ensures forall i :: 0 <= i <= |steps| ==> InBounds(Final(old(balance), steps[..i]))
    {
      ghost var start := balance;
      events := [];
      var i := 0;
      while i < |steps|
        invariant 0 <= i <= |steps|
        invariant InBounds(balance)
        invariant balance == Final(start, steps[..i])
        invariant events == Trace(start, steps[..i])
        invariant forall j :: 0 <= j <= i ==> InBounds(Final(start, steps[..j]))
      {
        ghost var before := balance;
        var e := Turn(steps[i]);
        StepKeepsBounds(before, steps[i]);
        FinalAppend(start, steps[..i], [steps[i]]);
        assert steps[..i + 1] == steps[..i] + [steps[i]];
        assert [steps[i]][1..] == [];
        events := events + [e];
        i := i + 1;
      }
      assert steps[..i] == steps;
    }
  }
}
