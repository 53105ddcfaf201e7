/** The transaction summary of one user, and when its net balance is the real one. */
module Summary {
  import opened Reals
  import opened Records
  import opened Settlement
  import opened Entries
  import opened Balances

  datatype Totals = Totals(deposits: real, withdrawals: real, bets: real, winnings: real, count: nat)
  {
    function NetBalance(): real { deposits + winnings - withdrawals - bets }
  }

  /** Completed entries of one kind, summed by amount or by magnitude. */
  function SumOf(own: seq<Tx>, kind: Kind, magnitude: bool): real {
    if own == [] then 0.0
    else
      var last := own[|own| - 1];
      SumOf(own[..|own| - 1], kind, magnitude)
      + if last.kind == kind && last.completed then (if magnitude then Abs(last.amount) else last.amount) else 0.0
  }

  function CountCompleted(own: seq<Tx>): nat {
    if own == [] then 0 else CountCompleted(own[..|own| - 1]) + if own[|own| - 1].completed then 1 else 0
  }

  /** get_transaction_summary over a user's entries. */
  function Summarise(own: seq<Tx>): Totals {
    Totals(SumOf(own, Deposit, false), SumOf(own, Withdrawal, true), SumOf(own, BetPlaced, true),
           SumOf(own, BetWon, false), CountCompleted(own))
  }

  /** Kinds the summary adds up. */
  predicate Counted(tx: Tx) {
    tx.kind == Deposit || tx.kind == Withdrawal || tx.kind == BetPlaced || tx.kind == BetWon
  }

  /** The stored sign convention: debits are not positive. */
  predicate Signed(tx: Tx) {
    tx.kind == Withdrawal || tx.kind == BetPlaced ==> tx.amount <= 0.0
  }

  /** What the summary leaves out: losses, corrections, manual adjustments. */
  function Uncounted(own: seq<Tx>): real {
    if own == [] then 0.0
    else Uncounted(own[..|own| - 1]) + if Counted(own[|own| - 1]) then 0.0 else own[|own| - 1].amount
  }

  /** The chained movements telescope: the summary misses exactly the opening balance and the
      uncounted amounts. */
  lemma {:induction false} SummaryTelescopes(own: seq<Tx>, opening: real, balance: real)
    requires Chained(own, opening, balance)
    requires forall tx | tx in own :: tx.completed && Signed(tx)
    ensures Summarise(own).NetBalance() == balance - opening - Uncounted(own)
  {
    if own == [] {
    } else {
      var init, last := own[..|own| - 1], own[|own| - 1];
      assert last in own;
      SummaryTelescopes(init, opening, last.before);
    }
  }

  /** The net balance is the balance after the last entry exactly when the opening balance and the
      uncounted amounts cancel. */
  lemma NetBalanceIsBalanceIff(own: seq<Tx>, opening: real, balance: real)
    requires Chained(own, opening, balance)
    requires forall tx | tx in own :: tx.completed && Signed(tx)
    ensures Summarise(own).NetBalance() == balance <==> opening + Uncounted(own) == 0.0
  {
    SummaryTelescopes(own, opening, balance);
  }

  lemma {:induction false} LossesCountForNothing(own: seq<Tx>)
    requires forall tx | tx in own :: Counted(tx) || (tx.kind == BetLost && tx.amount == 0.0)
    ensures Uncounted(own) == 0.0
  {
    if own == [] {
    } else {
      assert own[|own| - 1] in own;
      LossesCountForNothing(own[..|own| - 1]);
    }
  }

  /** A ledger chained from zero with only deposits, withdrawals, stakes and settlements: the
      summary's net balance is the last balance_after. */
  lemma SummaryFromZero(own: seq<Tx>, balance: real)
    requires own != [] && Chained(own, 0.0, balance)
    requires forall tx | tx in own ::
      tx.completed && Signed(tx) && (Counted(tx) || (tx.kind == BetLost && tx.amount == 0.0))
    ensures Summarise(own).NetBalance() == own[|own| - 1].after
  {
    LossesCountForNothing(own);
    SummaryTelescopes(own, 0.0, balance);
  }

  // ---- one entry more, one bet's entries less ----

  /** What one entry adds to the net balance. */
  function NetOf(tx: Tx): real {
    if !tx.completed then 0.0
    else match tx.kind
      case Deposit => tx.amount
      case Withdrawal => -Abs(tx.amount)
      case BetPlaced => -Abs(tx.amount)
      case BetWon => tx.amount
      case _ => 0.0
  }

  /** The net balance entry by entry. */
  function NetSum(own: seq<Tx>): real {
    if own == [] then 0.0 else NetSum(own[..|own| - 1]) + NetOf(own[|own| - 1])
  }

  /** The four sums of the summary, put together, are the sum over its entries. */
  lemma {:induction false} NetBalanceIsNetSum(own: seq<Tx>)
    ensures Summarise(own).NetBalance() == NetSum(own)
  {
    if own == [] {
    } else {
      NetBalanceIsNetSum(own[..|own| - 1]);
    }
  }

  lemma NetAppend(own: seq<Tx>, tx: Tx)
    ensures NetSum(own + [tx]) == NetSum(own) + NetOf(tx)
  {
    assert (own + [tx])[..|own|] == own;
  }

  /** What a bet's settlement entries add to the net balance. */
  function NetFor(own: seq<Tx>, bet: int): real {
    if own == [] then 0.0
    else NetFor(own[..|own| - 1], bet) + if own[|own| - 1].Settles(bet) then NetOf(own[|own| - 1]) else 0.0
  }

  lemma {:induction false} NetWithout(own: seq<Tx>, bet: int)
    ensures NetSum(Without(own, bet)) == NetSum(own) - NetFor(own, bet)
  {
    if own == [] {
    } else {
      var init, last := own[..|own| - 1], own[|own| - 1];
      NetWithout(init, bet);
      assert own == init + [last];
      NetAppend(init, last);
      if !last.Settles(bet) { NetAppend(Without(init, bet), last); }
    }
  }

  lemma {:induction false} NetForNothing(own: seq<Tx>, bet: int)
    requires forall tx | tx in own && tx.Settles(bet) :: NetOf(tx) == 0.0
    ensures NetFor(own, bet) == 0.0
  {
    if own == [] {
    } else {
      assert own[|own| - 1] in own;
      NetForNothing(own[..|own| - 1], bet);
    }
  }

  /** The bet's only entry is what it adds. */
  lemma {:induction false} NetForOne(own: seq<Tx>, bet: int, amount: real)
    requires EntriesOf(own, bet) == 1
    requires forall tx | tx in own && tx.Settles(bet) :: NetOf(tx) == amount
    ensures NetFor(own, bet) == amount
  {
    var init, last := own[..|own| - 1], own[|own| - 1];
    assert own == init + [last];
    if last.Settles(bet) {
      SomeEntry(init, bet);
      NetForNothing(init, bet);
    } else {
      NetForOne(init, bet, amount);
    }
  }
}
