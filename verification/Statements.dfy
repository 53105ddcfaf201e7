/** What a user's own ledger shows after any history: the balance held, an unbroken chain, and the
    summary the user is given. */
module Statements {
  import opened Common
  import opened Reals
  import opened Records
  import opened Settlement
  import opened Entries
  import opened Once
  import opened Balances
  import opened Runs
  import opened Summary

  // ---- balance shown and balance held ----

  /** The actions that can move a user's balance and ledger apart. */
  predicate Disturbs(action: Action, userId: int) {
    match action
    case DirectWrite(user, _) => user == userId
    case Deduction(user, _) => user == userId
    case Placement(bet) => bet.userId == userId
    case Post(entry) => entry.userId == userId
    case Registration(user) => user == userId
    case Removal(user) => user == userId
    case _ => false
  }

  /** An action that books one entry for one user, and moves that user's balance with it. */
  ghost predicate Books(book: Book, action: Action, entry: Tx) {
    Grown(book, entry, Act(book, action)) && entry.after == entry.before + entry.amount && entry.kind != BetLost
  }

  lemma TopUpBooks(book: Book, user: int, amount: real) returns (entry: Tx)
    requires user in book.funds && amount > 0.0
    ensures entry.userId == user && entry.kind == Deposit && entry.amount == amount && entry.completed
    ensures Books(book, TopUp(user, amount), entry)
  {
    entry := Act(book, TopUp(user, amount)).ledger[|book.ledger|];
  }

  lemma CashOutBooks(book: Book, user: int, amount: real) returns (entry: Tx)
    requires user in book.funds && MIN_CASH_OUT <= amount <= book.funds[user]
    ensures entry.userId == user && entry.kind == Withdrawal && entry.amount == -amount && entry.completed
    ensures Books(book, CashOut(user, amount), entry)
  {
    entry := Act(book, CashOut(user, amount)).ledger[|book.ledger|];
  }

  lemma AdjustmentBooks(book: Book, user: int, amount: real) returns (entry: Tx)
    requires user in book.funds
    ensures entry.userId == user && entry.kind == ManualAdjustment && entry.amount == amount && entry.completed
    ensures Books(book, Adjustment(user, amount), entry)
  {
    entry := Act(book, Adjustment(user, amount)).ledger[|book.ledger|];
  }

  lemma StakeBooks(book: Book, bet: Bet) returns (entry: Tx)
    requires Deductible(book, bet.userId, bet.amount)
    ensures entry.userId == bet.userId && entry.kind == BetPlaced && entry.amount == -bet.amount && entry.completed
    ensures Books(book, Stake(bet), entry)
  {
    entry := PlacementEntry(bet, book.funds[bet.userId]);
  }

  /** The action neither moves this user's balance nor touches the user's entries. */
  ghost predicate Quiet(book: Book, after: Book, userId: int) {
    && (userId in after.funds <==> userId in book.funds)
    && (userId in book.funds ==> after.funds[userId] == book.funds[userId])
    && Of(after.ledger, userId) == Of(book.ledger, userId)
  }

  /** The entry is complete, follows the sign convention, and is one the summary counts unless it
      is the manual adjustment the action asked for. */
  predicate Regular(action: Action, entry: Tx) {
    && entry.completed && Signed(entry)
    && (if action.Adjustment?
        then action == Adjustment(entry.userId, entry.amount) && !Counted(entry)
        else Counted(entry))
  }

  /** What an administrator added for this user by hand. */
  function AdjustedBy(action: Action, userId: int): real {
    if action.Adjustment? && action.userId == userId then action.amount else 0.0
  }

  lemma PlacementIsQuiet(book: Book, bet: Bet, userId: int)
    requires bet.userId != userId
    ensures Quiet(book, Placed(book, bet), userId)
  {
    if bet.userId in book.funds { OfAppend(book.ledger, PlacementEntry(bet, book.funds[bet.userId]), userId); }
  }

  lemma RepairIsQuietFor(book: Book, user: int, userId: int)
    requires user == userId && user in book.funds ==> FixSync(book, user) == Ok(book)
    ensures Quiet(book, Act(book, Repair(user)), userId)
  {
    if user in book.funds && user != userId && FixSync(book, user).payload != book {
      OfAppend(book.ledger, FixSync(book, user).payload.ledger[|book.ledger|], userId);
    }
  }

  /** Every other action books one regular entry or is quiet about a user it does not disturb. */
  lemma OtherActions(book: Book, action: Action, userId: int) returns (booked: Option<Tx>)
    requires Allowed(book, action) && !Settles(action) && !action.Revert? && !Disturbs(action, userId)
    requires action == Repair(userId) && userId in book.funds ==> FixSync(book, userId) == Ok(book)
    ensures booked.None? ==> Quiet(book, Act(book, action), userId)
    ensures booked.None? && userId in book.funds ==> AdjustedBy(action, userId) == 0.0
    ensures booked.Some? ==> Books(book, action, booked.value) && Regular(action, booked.value)
  {
    booked := None;
    match action
    case Repair(user) => RepairIsQuietFor(book, user, userId);
    case Adjustment(user, amount) =>
      if user in book.funds {
        var entry := AdjustmentBooks(book, user, amount);
        booked := Some(entry);
      }
    case TopUp(user, amount) =>
      if user in book.funds && amount > 0.0 {
        var entry := TopUpBooks(book, user, amount);
        booked := Some(entry);
      }
    case CashOut(user, amount) =>
      if user in book.funds && MIN_CASH_OUT <= amount <= book.funds[user] {
        var entry := CashOutBooks(book, user, amount);
        booked := Some(entry);
      }
    case Stake(bet) =>
      var entry := StakeBooks(book, bet);
      booked := Some(entry);
    case Placement(bet) => PlacementIsQuiet(book, bet, userId);
    case Deduction(user, amount) =>
    case DirectWrite(user, balance) =>
    case Post(entry) => OfAppend(book.ledger, entry, userId);
    case DatesFilled(user, dates) =>
    case Registration(user) =>
    case Removal(user) => OthersKeepEntries(book.ledger, user, userId);
    case Scrape(rows) =>
  }

  lemma SettlingActionKeepsSync(book: Book, action: Action, userId: int)
    requires UserInSync(book, userId) && Settles(action) && LedgerFits(book, action)
    ensures UserInSync(Act(book, action), userId)
  {
    var run := SettlingIsPicks(book, action);
    PicksKeepSync(Start(book, run), run.picks, run.policy, run.now, userId);
  }

  lemma ActionKeepsSync(book: Book, action: Action, userId: int)
    requires SettledOnce(book) && Allowed(book, action) && UserInSync(book, userId) && !Disturbs(action, userId)
    ensures UserInSync(Act(book, action), userId)
  {
    if Settles(action) {
      SettlingActionKeepsSync(book, action, userId);
    } else if action.Revert? {
      RevertsKeepSync(book, Select(book.bets, SettledForFuture(action.now)), userId);
    } else {
      if userId in book.funds { RepairIsQuiet(book, userId); }
      var booked := OtherActions(book, action, userId);
      if booked.Some? { EntryKeepsSync(book, booked.value, Act(book, action), userId); }
    }
  }

  /** Through any history of stakes, deposits, withdrawals, settlements, reverts, repairs and
      adjustments the last ledger entry of a user shows the balance the user holds, as long as every
      bet record is followed by its deduction and nothing else overwrites the balance. */
  lemma {:induction false} InSyncForever(book: Book, actions: seq<Action>, userId: int)
    requires SettledOnce(book) && AllAllowed(book, actions) && UserInSync(book, userId)
    requires forall k | 0 <= k < |actions| :: !Disturbs(actions[k], userId)
    ensures UserInSync(Run(book, actions), userId)
  {
    if actions == [] {
    } else {
      InSyncForever(book, actions[..|actions| - 1], userId);
      SettledOnceForever(book, actions[..|actions| - 1]);
      ActionKeepsSync(Run(book, actions[..|actions| - 1]), actions[|actions| - 1], userId);
    }
  }

  // ---- the two requests of a stake ----

  lemma PlacedEndsBelow(book: Book, bet: Bet, balance: real)
    requires bet.userId in book.funds
    ensures InSync(Of(Placed(book, bet).ledger, bet.userId), balance)
            <==> book.funds[bet.userId] - Abs(bet.amount) == balance
  {
    OfAppend(book.ledger, PlacementEntry(bet, book.funds[bet.userId]), bet.userId);
  }

  /** Recording a bet and then deducting its stake leaves ledger and balance together if and only if
      the deduction is accepted, or there was nothing to deduct. */
  lemma StakeInSyncIff(book: Book, bet: Bet)
    requires bet.userId in book.funds
    ensures UserInSync(Act(Act(book, Placement(bet)), Deduction(bet.userId, bet.amount)), bet.userId)
            <==> Deductible(book, bet.userId, bet.amount) || bet.amount == 0.0
  {
    PlacedEndsBelow(book, bet, Act(Act(book, Placement(bet)), Deduction(bet.userId, bet.amount)).funds[bet.userId]);
  }

  /** The other way round the bet_placed entry subtracts the stake a second time: only an empty stake
      leaves them together. */
  lemma EarlyDeductionInSyncIff(book: Book, bet: Bet)
    requires bet.userId in book.funds
    ensures UserInSync(Act(Act(book, Deduction(bet.userId, bet.amount)), Placement(bet)), bet.userId)
            <==> bet.amount == 0.0
  {
    var deducted := Act(book, Deduction(bet.userId, bet.amount));
    PlacedEndsBelow(deducted, bet, deducted.funds[bet.userId]);
  }

  // ---- chained ledgers and the summary ----

  /** Settling keeps a user's ledger chained from its opening balance to the current one. */
  lemma SettlingActionKeepsChain(book: Book, action: Action, userId: int, opening: real)
    requires UserChained(book, userId, opening) && Settles(action) && LedgerFits(book, action)
    ensures UserChained(Act(book, action), userId, opening)
  {
    var run := SettlingIsPicks(book, action);
    PicksKeepChain(Start(book, run), run.picks, run.policy, run.now, userId, opening);
  }

  /** A revert breaks the chain in the middle of the ledger, yet the last remaining entry of every
      user still shows the balance. */
  lemma RevertOfChainedIsInSync(book: Book, now: int, userId: int, opening: real)
    requires SettledOnce(book) && UserChained(book, userId, opening)
    requires forall tx | tx in book.ledger && tx.kind == BetLost :: tx.amount == 0.0
    ensures UserInSync(RevertFuture(book, now), userId)
  {
    if userId in book.funds {
      ChainedIsInSync(Of(book.ledger, userId), opening, book.funds[userId]);
    }
    RevertsKeepSync(book, Select(book.bets, SettledForFuture(now)), userId);
  }

  /** The user's entries lead from the opening balance to the current one, all complete and signed
      as they should be, and this much of them the summary does not count. */
  ghost predicate Accounts(book: Book, userId: int, opening: real, uncounted: real) {
    && UserChained(book, userId, opening)
    && (forall tx | tx in Of(book.ledger, userId) :: tx.completed && Signed(tx))
    && Uncounted(Of(book.ledger, userId)) == uncounted
  }

  lemma UncountedAppend(own: seq<Tx>, tx: Tx)
    ensures Uncounted(own + [tx]) == Uncounted(own) + if Counted(tx) then 0.0 else tx.amount
  {
    assert (own + [tx])[..|own|] == own;
  }

  lemma EntryKeepsAccounts(book: Book, entry: Tx, after: Book, userId: int, opening: real, uncounted: real)
    requires Grown(book, entry, after) && entry.after == entry.before + entry.amount && entry.completed && Signed(entry)
    requires Accounts(book, userId, opening, uncounted)
    ensures Accounts(after, userId, opening,
                     uncounted + if entry.userId == userId && !Counted(entry) then entry.amount else 0.0)
  {
    EntryKeepsChain(book, entry, after, userId, opening);
    OfAppend(book.ledger, entry, userId);
    UncountedAppend(Of(book.ledger, userId), entry);
  }

  lemma SettlingKeepsAccounts(book: Book, pick: Pick, policy: Policy, now: int, userId: int, opening: real,
                              uncounted: real)
    requires pick.bet < |book.bets| && Accounts(book, userId, opening, uncounted)
    ensures Accounts(SettleBet(book, pick, policy, now), userId, opening, uncounted)
  {
    var bet := book.bets[pick.bet];
    if bet.userId in book.funds {
      var entry := SettlementEntry(policy, bet, pick.won, book.funds[bet.userId]);
      EntryKeepsAccounts(book, entry, SettleBet(book, pick, policy, now), userId, opening, uncounted);
    }
  }

  lemma {:induction false} PicksKeepAccounts(tally: Tally, picks: seq<Pick>, policy: Policy, now: int,
                                             userId: int, opening: real, uncounted: real)
    requires PicksFit(picks, |tally.book.bets|) && Accounts(tally.book, userId, opening, uncounted)
    ensures Accounts(SettlePicks(tally, picks, policy, now).book, userId, opening, uncounted)
  {
    if picks == [] {
    } else {
      var init, last := picks[..|picks| - 1], picks[|picks| - 1];
      PicksKeepAccounts(tally, init, policy, now, userId, opening, uncounted);
      SettlingKeepsAccounts(SettlePicks(tally, init, policy, now).book, last, policy, now, userId, opening, uncounted);
    }
  }

  function Adjusted(actions: seq<Action>, userId: int): real {
    if actions == [] then 0.0
    else Adjusted(actions[..|actions| - 1], userId) + AdjustedBy(actions[|actions| - 1], userId)
  }

  lemma ChainedNeedsNoRepair(book: Book, userId: int, opening: real)
    requires userId in book.funds && UserChained(book, userId, opening)
    ensures FixSync(book, userId) == Ok(book)
  {
  }

  lemma SettlingActionKeepsAccounts(book: Book, action: Action, userId: int, opening: real, uncounted: real)
    requires Settles(action) && LedgerFits(book, action)
    requires userId in book.funds && Accounts(book, userId, opening, uncounted)
    ensures userId in Act(book, action).funds && Accounts(Act(book, action), userId, opening, uncounted)
  {
    var run := SettlingIsPicks(book, action);
    PicksKeepAccounts(Start(book, run), run.picks, run.policy, run.now, userId, opening, uncounted);
  }

  lemma BookedKeepsAccounts(book: Book, action: Action, booked: Option<Tx>, userId: int, opening: real, uncounted: real)
    requires booked.None? ==> Quiet(book, Act(book, action), userId) && AdjustedBy(action, userId) == 0.0
    requires booked.Some? ==> Books(book, action, booked.value) && Regular(action, booked.value)
    requires userId in book.funds && Accounts(book, userId, opening, uncounted)
    ensures userId in Act(book, action).funds
    ensures Accounts(Act(book, action), userId, opening, uncounted + AdjustedBy(action, userId))
  {
    if booked.Some? {
      EntryKeepsAccounts(book, booked.value, Act(book, action), userId, opening, uncounted);
    }
  }

  lemma ActionKeepsAccounts(book: Book, action: Action, userId: int, opening: real, uncounted: real)
    requires SettledOnce(book) && Allowed(book, action) && !Disturbs(action, userId) && !action.Revert?
    requires userId in book.funds && Accounts(book, userId, opening, uncounted)
    ensures userId in Act(book, action).funds
    ensures Accounts(Act(book, action), userId, opening, uncounted + AdjustedBy(action, userId))
  {
    if Settles(action) {
      SettlingActionKeepsAccounts(book, action, userId, opening, uncounted);
    } else {
      ChainedNeedsNoRepair(book, userId, opening);
      var booked := OtherActions(book, action, userId);
      BookedKeepsAccounts(book, action, booked, userId, opening, uncounted);
    }
  }

  /** Through any history without a revert a user's ledger stays chained from its opening balance to
      the balance held, and what the summary does not count grows by the manual adjustments only. */
  lemma {:induction false} AccountsForever(book: Book, actions: seq<Action>, userId: int, opening: real,
                                           uncounted: real)
    requires SettledOnce(book) && AllAllowed(book, actions)
    requires forall k | 0 <= k < |actions| :: !Disturbs(actions[k], userId) && !actions[k].Revert?
    requires userId in book.funds && Accounts(book, userId, opening, uncounted)
    ensures userId in Run(book, actions).funds
    ensures Accounts(Run(book, actions), userId, opening, uncounted + Adjusted(actions, userId))
  {
    if actions == [] {
    } else {
      var init, last := actions[..|actions| - 1], actions[|actions| - 1];
      AccountsForever(book, init, userId, opening, uncounted);
      SettledOnceForever(book, init);
      ActionKeepsAccounts(Run(book, init), last, userId, opening, uncounted + Adjusted(init, userId));
    }
  }

  /** A user without entries starts from the balance held. */
  lemma EmptyAccounts(book: Book, userId: int)
    requires userId in book.funds && Of(book.ledger, userId) == []
    ensures Accounts(book, userId, book.funds[userId], 0.0)
  {
  }

  /** What get_transaction_summary shows this user. */
  function NetBalanceOf(book: Book, userId: int): real { Summarise(Of(book.ledger, userId)).NetBalance() }

  lemma AccountsSum(book: Book, userId: int, opening: real, uncounted: real)
    requires userId in book.funds && Accounts(book, userId, opening, uncounted)
    ensures NetBalanceOf(book, userId) == book.funds[userId] - opening - uncounted
  {
    SummaryTelescopes(Of(book.ledger, userId), opening, book.funds[userId]);
  }
}
