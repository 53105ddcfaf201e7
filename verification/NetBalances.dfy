/** The balance a user holds against the net balance the summary shows, over all histories. */
module NetBalances {
  import opened Common
  import opened Reals
  import opened Records
  import opened Settlement
  import opened Plans
  import opened Entries
  import opened Once
  import opened Balances
  import opened Reverts
  import opened Summary
  import opened Runs
  import opened Statements

  /** How much more a user holds than the summary shows. */
  function Gap(book: Book, userId: int): real
    requires userId in book.funds
  {
    book.funds[userId] - NetSum(Of(book.ledger, userId))
  }

  lemma GapIs(book: Book, userId: int)
    requires userId in book.funds
    ensures Gap(book, userId) == book.funds[userId] - NetBalanceOf(book, userId)
  {
    NetBalanceIsNetSum(Of(book.ledger, userId));
  }

  /** One entry that moves its user's balance: the gap takes up what the summary does not count. */
  lemma EntryMovesGap(book: Book, entry: Tx, after: Book, userId: int)
    requires Grown(book, entry, after) && userId in book.funds
    ensures userId in after.funds
    ensures Gap(after, userId)
            == Gap(book, userId) + if entry.userId == userId then entry.after - entry.before - NetOf(entry) else 0.0
  {
    OfAppend(book.ledger, entry, userId);
    NetAppend(Of(book.ledger, userId), entry);
  }

  // ---- settling leaves the gap alone ----

  lemma SettlementCounts(policy: Policy, bet: Bet, won: bool, balance: real)
    ensures var entry := SettlementEntry(policy, bet, won, balance); entry.after - entry.before == NetOf(entry)
  {
  }

  lemma SettlingKeepsGap(book: Book, pick: Pick, policy: Policy, now: int, userId: int)
    requires pick.bet < |book.bets| && userId in book.funds
    ensures Gap(SettleBet(book, pick, policy, now), userId) == Gap(book, userId)
  {
    var bet := book.bets[pick.bet];
    if bet.userId in book.funds {
      SettlementCounts(policy, bet, pick.won, book.funds[bet.userId]);
      EntryMovesGap(book, SettlementEntry(policy, bet, pick.won, book.funds[bet.userId]),
                    SettleBet(book, pick, policy, now), userId);
    }
  }

  lemma {:induction false} PicksKeepGap(tally: Tally, picks: seq<Pick>, policy: Policy, now: int, userId: int)
    requires PicksFit(picks, |tally.book.bets|) && userId in tally.book.funds
    ensures Gap(SettlePicks(tally, picks, policy, now).book, userId) == Gap(tally.book, userId)
  {
    if picks == [] {
    } else {
      var init, last := picks[..|picks| - 1], picks[|picks| - 1];
      PicksKeepGap(tally, init, policy, now, userId);
      SettlingKeepsGap(SettlePicks(tally, init, policy, now).book, last, policy, now, userId);
    }
  }

  lemma SettlingActionKeepsGap(book: Book, action: Action, userId: int)
    requires Settles(action) && LedgerFits(book, action) && userId in book.funds
    ensures userId in Act(book, action).funds && Gap(Act(book, action), userId) == Gap(book, userId)
  {
    var run := SettlingIsPicks(book, action);
    PicksKeepGap(Start(book, run), run.picks, run.policy, run.now, userId);
  }

  // ---- reverting widens it by the debt the clamp forgives ----

  /** What a revert leaves a winner beyond the balance without the payout: the part of the winnings
      the balance does not cover, less what was never booked. */
  function Kept(book: Book, i: nat, userId: int): real
    requires i < |book.bets|
  {
    var bet := book.bets[i];
    if bet.userId != userId || bet.status != Won || userId !in book.funds then 0.0
    else Max(0.0, book.funds[userId] - bet.Winnings()) - book.funds[userId] + NetFor(Of(book.ledger, userId), bet.id)
  }

  lemma OwnEntry(book: Book, i: nat, tx: Tx)
    requires SettledOnce(book) && i < |book.bets| && tx in book.ledger && tx.Settles(book.bets[i].id)
    ensures BackedBy(book.bets[i], tx)
  {
    var j :| 0 <= j < |book.bets| && BackedBy(book.bets[j], tx);
    assert j == i;
  }

  /** Entries of a bet that did not win, or of another user's bet, do not count. */
  lemma NothingCounted(book: Book, i: nat, userId: int)
    requires SettledOnce(book) && i < |book.bets| && (book.bets[i].userId != userId || book.bets[i].status != Won)
    ensures NetFor(Of(book.ledger, userId), book.bets[i].id) == 0.0
  {
    var own := Of(book.ledger, userId);
    forall tx | tx in own && tx.Settles(book.bets[i].id) ensures NetOf(tx) == 0.0 {
      OwnEntry(book, i, tx);
    }
    NetForNothing(own, book.bets[i].id);
  }

  /** A revert takes the bet's entries out of the net balance; the correction does not count. */
  lemma RevertedNet(book: Book, i: nat, userId: int)
    requires i < |book.bets| && book.bets[i].userId in book.funds
    ensures NetSum(Of(RevertBet(book, i).ledger, userId))
            == NetSum(Of(book.ledger, userId)) - NetFor(Of(book.ledger, userId), book.bets[i].id)
  {
    var bet, kept := book.bets[i], Without(book.ledger, book.bets[i].id);
    OfWithout(book.ledger, bet.id, userId);
    NetWithout(Of(book.ledger, userId), bet.id);
    if bet.status == Won {
      var entry := CorrectionEntry(bet, book.funds[bet.userId]);
      OfAppend(kept, entry, userId);
      NetAppend(Of(kept, userId), entry);
    }
  }

  lemma RevertMovesGap(book: Book, i: nat, userId: int)
    requires SettledOnce(book) && i < |book.bets| && userId in book.funds
    ensures Gap(RevertBet(book, i), userId) == Gap(book, userId) + Kept(book, i, userId)
  {
    var bet := book.bets[i];
    if bet.userId in book.funds {
      RevertedNet(book, i, userId);
      if bet.userId != userId || bet.status != Won { NothingCounted(book, i, userId); }
    }
  }

  /** The same for a list of bets, each against the book the earlier reverts left. */
  function KeptBy(book: Book, found: seq<nat>, userId: int): real
    requires forall k | 0 <= k < |found| :: found[k] < |book.bets|
  {
    if found == [] then 0.0
    else
      var init := found[..|found| - 1];
      KeptBy(book, init, userId) + Kept(RevertEach(book, init), found[|found| - 1], userId)
  }

  lemma {:induction false} RevertsMoveGap(book: Book, found: seq<nat>, userId: int)
    requires SettledOnce(book) && userId in book.funds && forall k | 0 <= k < |found| :: found[k] < |book.bets|
    ensures Gap(RevertEach(book, found), userId) == Gap(book, userId) + KeptBy(book, found, userId)
  {
    if found == [] {
    } else {
      var init, last := found[..|found| - 1], found[|found| - 1];
      RevertsMoveGap(book, init, userId);
      RevertsKeepOnce(book, init);
      RevertMovesGap(RevertEach(book, init), last, userId);
    }
  }

  lemma {:induction false} OwnEntriesCounted(ledger: seq<Tx>, bet: int, userId: int)
    requires forall tx | tx in ledger && tx.Settles(bet) :: tx.userId == userId
    ensures EntriesOf(Of(ledger, userId), bet) == EntriesOf(ledger, bet)
  {
    if ledger == [] {
    } else {
      var init, last := ledger[..|ledger| - 1], ledger[|ledger| - 1];
      assert ledger == init + [last];
      OwnEntriesCounted(init, bet, userId);
      if last.userId == userId { EntriesAppend(Of(init, userId), last, bet); }
    }
  }

  lemma WinnerEntryCounts(bet: Bet, tx: Tx)
    requires BackedBy(bet, tx) && bet.status == Won && bet.Winnings() >= 0.0
    ensures NetOf(tx) == bet.Winnings()
  {
  }

  /** In every book with one entry per settled bet, reverting a winner forgives exactly the part of
      the winnings the balance no longer covers. */
  lemma KeptIsForgivenDebt(book: Book, i: nat, userId: int)
    requires SettledOnce(book) && i < |book.bets| && book.bets[i].settled
    requires book.bets[i].Winnings() >= 0.0 && userId in book.funds
    ensures Kept(book, i, userId)
            == if book.bets[i].userId == userId && book.bets[i].status == Won
               then Max(0.0, book.bets[i].Winnings() - book.funds[userId]) else 0.0
  {
    var bet, own := book.bets[i], Of(book.ledger, userId);
    if bet.userId == userId && bet.status == Won {
      forall tx | tx in book.ledger && tx.Settles(bet.id) ensures tx.userId == userId && NetOf(tx) == bet.Winnings() {
        OwnEntry(book, i, tx);
        WinnerEntryCounts(bet, tx);
      }
      OwnEntriesCounted(book.ledger, bet.id, userId);
      NetForOne(own, bet.id, bet.Winnings());
    }
  }

  /** The winnings of these bets that the balance no longer covered when their turn came. */
  function DebtsForgiven(book: Book, found: seq<nat>, userId: int): real
    requires userId in book.funds && forall k | 0 <= k < |found| :: found[k] < |book.bets|
  {
    if found == [] then 0.0
    else
      var init, bet := found[..|found| - 1], book.bets[found[|found| - 1]];
      DebtsForgiven(book, init, userId)
      + if bet.userId == userId && bet.status == Won
        then Max(0.0, bet.Winnings() - RevertEach(book, init).funds[userId]) else 0.0
  }

  lemma NextDebt(book: Book, found: seq<nat>, userId: int)
    requires SettledOnce(book) && userId in book.funds && found != [] && Ascending(found, |book.bets|)
    requires book.bets[found[|found| - 1]].settled && book.bets[found[|found| - 1]].Winnings() >= 0.0
    ensures var before, last := RevertEach(book, found[..|found| - 1]), found[|found| - 1];
            Kept(before, last, userId)
            == if book.bets[last].userId == userId && book.bets[last].status == Won
               then Max(0.0, book.bets[last].Winnings() - before.funds[userId]) else 0.0
  {
    var init, last := found[..|found| - 1], found[|found| - 1];
    RevertsKeepOnce(book, init);
    var before := RevertEach(book, init);
    assert before.bets[last] == book.bets[last] by {
      RevertedRecord(book, init, last);
      assert last !in init;
    }
    KeptIsForgivenDebt(before, last, userId);
  }

  /** What a revert of settled bets moves the gap by is the debts it forgives. */
  lemma {:induction false} KeptByIsDebtsForgiven(book: Book, found: seq<nat>, userId: int)
    requires SettledOnce(book) && userId in book.funds && Ascending(found, |book.bets|)
    requires forall k | 0 <= k < |found| :: book.bets[found[k]].settled && book.bets[found[k]].Winnings() >= 0.0
    ensures KeptBy(book, found, userId) == DebtsForgiven(book, found, userId)
  {
    if found == [] {
    } else {
      KeptByIsDebtsForgiven(book, found[..|found| - 1], userId);
      NextDebt(book, found, userId);
    }
  }

  // ---- all histories ----

  /** How far an action moves the gap. Settling, deposits, withdrawals, stakes and repairs do not. */
  function Moved(book: Book, action: Action, userId: int): real {
    match action
    case Revert(now) => KeptBy(book, Select(book.bets, SettledForFuture(now)), userId)
    case Adjustment(user, amount) => if user == userId then amount else 0.0
    case Placement(bet) => if bet.userId == userId then Abs(bet.amount) else 0.0
    case Deduction(user, amount) => if user == userId && Deductible(book, user, amount) then -amount else 0.0
    case DirectWrite(user, balance) => if user == userId && user in book.funds then balance - book.funds[user] else 0.0
    case Post(entry) => if entry.userId == userId then -NetOf(entry) else 0.0
    case _ => 0.0
  }

  lemma QuietKeepsGap(book: Book, after: Book, userId: int)
    requires Quiet(book, after, userId) && userId in book.funds
    ensures Gap(after, userId) == Gap(book, userId)
  {
  }

  lemma AppendMovesGap(book: Book, entry: Tx, userId: int)
    requires userId in book.funds
    ensures Gap(book.(ledger := book.ledger + [entry]), userId)
            == Gap(book, userId) - if entry.userId == userId then NetOf(entry) else 0.0
  {
    OfAppend(book.ledger, entry, userId);
    NetAppend(Of(book.ledger, userId), entry);
  }

  lemma PlacementMovesGap(book: Book, bet: Bet, userId: int)
    requires userId in book.funds
    ensures Gap(Placed(book, bet), userId) == Gap(book, userId) + if bet.userId == userId then Abs(bet.amount) else 0.0
  {
    if bet.userId in book.funds { AppendMovesGap(book, PlacementEntry(bet, book.funds[bet.userId]), userId); }
  }

  lemma RepairKeepsGap(book: Book, user: int, userId: int)
    requires userId in book.funds
    ensures Gap(Act(book, Repair(user)), userId) == Gap(book, userId)
  {
    if user in book.funds && FixSync(book, user).payload != book {
      AppendMovesGap(book, FixSync(book, user).payload.ledger[|book.ledger|], userId);
    }
  }

  lemma BookedMovesGap(book: Book, action: Action, entry: Tx, userId: int)
    requires userId in book.funds && Books(book, action, entry)
    ensures userId in Act(book, action).funds
    ensures Gap(Act(book, action), userId)
            == Gap(book, userId) + if entry.userId == userId then entry.amount - NetOf(entry) else 0.0
  {
    EntryMovesGap(book, entry, Act(book, action), userId);
  }

  lemma StakeMovesGap(book: Book, bet: Bet, userId: int)
    requires Allowed(book, Action.Stake(bet)) && userId in book.funds
    ensures userId in Act(book, Action.Stake(bet)).funds
    ensures Gap(Act(book, Action.Stake(bet)), userId)
            == Gap(book, userId) + Moved(book, Action.Stake(bet), userId)
  {
    var entry := StakeBooks(book, bet);
    BookedMovesGap(book, Action.Stake(bet), entry, userId);
  }

  lemma BookingActionMovesGap(book: Book, action: Action, userId: int)
    requires Allowed(book, action) && userId in book.funds
    requires action.Adjustment? || action.TopUp? || action.CashOut? || action.Stake?
    ensures userId in Act(book, action).funds
    ensures Gap(Act(book, action), userId) == Gap(book, userId) + Moved(book, action, userId)
  {
    match action
    case Adjustment(user, amount) =>
      if user in book.funds {
        var entry := AdjustmentBooks(book, user, amount);
        BookedMovesGap(book, action, entry, userId);
      }
    case TopUp(user, amount) =>
      if user in book.funds && amount > 0.0 {
        var entry := TopUpBooks(book, user, amount);
        BookedMovesGap(book, action, entry, userId);
      }
    case CashOut(user, amount) =>
      if user in book.funds && MIN_CASH_OUT <= amount <= book.funds[user] {
        var entry := CashOutBooks(book, user, amount);
        BookedMovesGap(book, action, entry, userId);
      }
    case Stake(bet) => StakeMovesGap(book, bet, userId);
  }

  lemma OtherActionMovesGap(book: Book, action: Action, userId: int)
    requires Allowed(book, action) && userId in book.funds && !Settles(action) && !action.Revert?
             && action != Removal(userId)
    ensures userId in Act(book, action).funds
    ensures Gap(Act(book, action), userId) == Gap(book, userId) + Moved(book, action, userId)
  {
    match action
    case Repair(user) => RepairKeepsGap(book, user, userId);
    case Placement(bet) => PlacementMovesGap(book, bet, userId);
    case Deduction(user, amount) =>
    case DirectWrite(user, balance) =>
    case Post(entry) => if entry.userId in book.funds { AppendMovesGap(book, entry, userId); }
    case DatesFilled(user, dates) =>
    case Registration(user) =>
    case Removal(user) => OthersKeepEntries(book.ledger, user, userId);
    case Scrape(rows) =>
    case _ => BookingActionMovesGap(book, action, userId);
  }

  lemma ActionMovesGap(book: Book, action: Action, userId: int)
    requires SettledOnce(book) && Allowed(book, action) && userId in book.funds && action != Removal(userId)
    ensures userId in Act(book, action).funds
    ensures Gap(Act(book, action), userId) == Gap(book, userId) + Moved(book, action, userId)
  {
    if Settles(action) {
      SettlingActionKeepsGap(book, action, userId);
    } else if action.Revert? {
      RevertsMoveGap(book, Select(book.bets, SettledForFuture(action.now)), userId);
    } else {
      OtherActionMovesGap(book, action, userId);
    }
  }

  function TotalMoved(book: Book, actions: seq<Action>, userId: int): real {
    if actions == [] then 0.0
    else
      var init := actions[..|actions| - 1];
      TotalMoved(book, init, userId) + Moved(Run(book, init), actions[|actions| - 1], userId)
  }

  lemma {:induction false} GapForever(book: Book, actions: seq<Action>, userId: int)
    requires SettledOnce(book) && AllAllowed(book, actions) && userId in book.funds
    requires forall k | 0 <= k < |actions| :: actions[k] != Removal(userId)
    ensures userId in Run(book, actions).funds
    ensures Gap(Run(book, actions), userId) == Gap(book, userId) + TotalMoved(book, actions, userId)
  {
    if actions == [] {
    } else {
      var init, last := actions[..|actions| - 1], actions[|actions| - 1];
      GapForever(book, init, userId);
      SettledOnceForever(book, init);
      ActionMovesGap(Run(book, init), last, userId);
    }
  }

  /** After any history, for a user who stays: the balance held less the net balance shown has moved by
      exactly the manual adjustments, the debts that reverts forgave, and what bet records, deductions,
      direct writes and posted entries left one-sided. */
  lemma SummaryForever(book: Book, actions: seq<Action>, userId: int)
    requires SettledOnce(book) && AllAllowed(book, actions) && userId in book.funds
    requires forall k | 0 <= k < |actions| :: actions[k] != Removal(userId)
    ensures userId in Run(book, actions).funds
    ensures Run(book, actions).funds[userId] - NetBalanceOf(Run(book, actions), userId)
            == book.funds[userId] - NetBalanceOf(book, userId) + TotalMoved(book, actions, userId)
  {
    GapForever(book, actions, userId);
    GapIs(book, userId);
    GapIs(Run(book, actions), userId);
  }
}
