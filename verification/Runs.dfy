/** Whole histories of the betting book: every endpoint, in any order. */
module Runs {
  import opened Common
  import opened Scores
  import opened Reals
  import opened Records
  import opened Settlement
  import opened Plans
  import opened Entries
  import opened Once
  import opened Guard
  import opened Balances

  datatype Action =
    | Sweep(now: int)
    | ResultUpdate(matchId: int, result: string, now: int)
    | SpecificMatch(matchId: int, now: int)
    | JoinedSweep(now: int)
    | UserSweep(userId: int, now: int)
    | GuardedUserSweep(userId: int, now: int)
    | Revert(now: int)
    | Repair(userId: int)
    | Adjustment(userId: int, amount: real)
    | TopUp(userId: int, amount: real)          // a deposit and its entry
    | CashOut(userId: int, amount: real)        // a withdrawal and its entry
    | Placement(bet: Bet)                       // a new record and its bet_placed entry
    | Deduction(userId: int, amount: real)      // the stake leaves the balance, without an entry
    | Stake(bet: Bet)                           // a placement and then its deduction
    | DirectWrite(userId: int, balance: real)   // any other balance write without an entry
    | Post(entry: Tx)                           // an entry a client adds
    | DatesFilled(userId: int, dates: map<int, int>)  // match dates drawn for bets without one
    | Registration(userId: int)
    | Removal(userId: int)                      // a user goes, with bets and ledger
    | Scrape(rows: seq<Row>)                    // the odds table changes underneath

  function PlacementEntry(bet: Bet, balance: real): Tx {
    Tx(bet.userId, BetPlaced, -Abs(bet.amount), balance, balance - Abs(bet.amount), BettingRecord(bet.id), true,
       NoChannel)
  }

  const MIN_CASH_OUT: real := 10.0

  /** One entry that moves its user's balance. */
  function Booked(book: Book, userId: int, kind: Kind, amount: real): Book
    requires userId in book.funds
  {
    var before := book.funds[userId];
    book.(funds := book.funds[userId := before + amount],
          ledger := book.ledger + [Tx(userId, kind, amount, before, before + amount, NoReference, true, NoChannel)])
  }

  /** create_betting_record: the entry counts the stake off, the balance stays. */
  function Placed(book: Book, bet: Bet): Book {
    if bet.userId !in book.funds then book
    else book.(bets := book.bets + [bet], ledger := book.ledger + [PlacementEntry(bet, book.funds[bet.userId])])
  }

  predicate Deductible(book: Book, userId: int, amount: real) {
    userId in book.funds && 0.0 < amount <= book.funds[userId]
  }

  /** deduct_funds: a covered positive amount leaves the balance, without an entry. */
  function Deducted(book: Book, userId: int, amount: real): Book {
    if Deductible(book, userId, amount) then book.(funds := book.funds[userId := book.funds[userId] - amount]) else book
  }

  /** create_transaction: the entry is stored as the client sends it. */
  function Posted(book: Book, entry: Tx): Book {
    if entry.userId in book.funds then book.(ledger := book.ledger + [entry]) else book
  }

  function Dated(bet: Bet, userId: int, dates: map<int, int>): Bet {
    if bet.userId == userId && bet.matchDate.None? && bet.id in dates
    then bet.(matchDate := Some(dates[bet.id]))
    else bet
  }

  /** fix_missing_match_dates, with the dates it draws. */
  function FillDates(bets: seq<Bet>, userId: int, dates: map<int, int>): (r: seq<Bet>)
    ensures |r| == |bets| && forall i | 0 <= i < |bets| :: r[i] == Dated(bets[i], userId, dates)
  {
    seq(|bets|, i requires 0 <= i < |bets| => Dated(bets[i], userId, dates))
  }

  /** delete_user: bets, entries and balance go together. */
  function Removed(book: Book, userId: int): Book {
    Book(book.rows, BetsWithout(book.bets, userId), book.funds - {userId}, EntriesWithout(book.ledger, userId))
  }

  function Paid(reply: Reply<Tally>, book: Book): Book {
    if reply.Ok? then reply.payload.book else book
  }

  function Act(book: Book, action: Action): Book {
    match action
    case Sweep(now) => SettleAllFinished(book, now).book
    case ResultUpdate(matchId, result, now) => Paid(UpdateResult(book, matchId, result, now), book)
    case SpecificMatch(matchId, now) => Paid(SettleSpecific(book, matchId, now), book)
    case JoinedSweep(now) => SettleJoined(book, now).book
    case UserSweep(userId, now) => AutoSettle(Tally(book, 0, 0.0), userId, now).book
    case GuardedUserSweep(userId, now) =>
      (match AutoSettleGuarded(book, userId, now) case None => book case Some(after) => after)
    case Revert(now) => RevertFuture(book, now)
    case Repair(userId) => (match FixSync(book, userId) case HttpError(_) => book case Ok(after) => after)
    case Adjustment(userId, amount) =>
      (match AdjustFunds(book, userId, amount) case HttpError(_) => book case Ok(after) => after)
    case TopUp(userId, amount) =>
      if userId in book.funds && amount > 0.0 then Booked(book, userId, Deposit, amount) else book
    case CashOut(userId, amount) =>
      if userId in book.funds && MIN_CASH_OUT <= amount <= book.funds[userId]
      then Booked(book, userId, Withdrawal, -amount)
      else book
    case Placement(bet) => Placed(book, bet)
    case Deduction(userId, amount) => Deducted(book, userId, amount)
    case Stake(bet) => Deducted(Placed(book, bet), bet.userId, bet.amount)
    case DirectWrite(userId, balance) =>
      if userId in book.funds then book.(funds := book.funds[userId := balance]) else book
    case Post(entry) => Posted(book, entry)
    case DatesFilled(userId, dates) => book.(bets := FillDates(book.bets, userId, dates))
    case Registration(userId) => if userId in book.funds then book else book.(funds := book.funds[userId := 0.0])
    case Removal(userId) => Removed(book, userId)
    case Scrape(rows) => book.(rows := rows)
  }

  predicate NewBet(book: Book, bet: Bet) {
    !bet.settled && forall i | 0 <= i < |book.bets| :: book.bets[i].id != bet.id
  }

  /** New bets are open and carry a new id; a stake is one whose deduction is accepted; the joined
      settlement runs only on bets that join at most one readable row; clients do not post settlement
      entries of their own. Everything else may happen at any time. */
  ghost predicate Allowed(book: Book, action: Action) {
    match action
    case Placement(bet) => NewBet(book, bet)
    case Stake(bet) => NewBet(book, bet) && Deductible(book, bet.userId, bet.amount)
    case JoinedSweep(_) => JoinsOnce(book)
    case Post(entry) => !entry.IsSettlement()
    case _ => true
  }

  function Run(book: Book, actions: seq<Action>): Book {
    if actions == [] then book else Act(Run(book, actions[..|actions| - 1]), actions[|actions| - 1])
  }

  ghost predicate AllAllowed(book: Book, actions: seq<Action>) {
    actions == [] || (&& AllAllowed(book, actions[..|actions| - 1])
                      && Allowed(Run(book, actions[..|actions| - 1]), actions[|actions| - 1]))
  }

  // ---- settling actions are lists of picks ----

  predicate Settles(action: Action) {
    || action.Sweep? || action.ResultUpdate? || action.SpecificMatch? || action.JoinedSweep?
    || action.UserSweep? || action.GuardedUserSweep?
  }

  /** What a settling action reports, or for the two per-user sweeps, counts. */
  function Report(book: Book, action: Action): Tally {
    match action
    case Sweep(now) => SettleAllFinished(book, now)
    case ResultUpdate(matchId, result, now) =>
      (match UpdateResult(book, matchId, result, now) case HttpError(_) => Tally(book, 0, 0.0) case Ok(tally) => tally)
    case SpecificMatch(matchId, now) =>
      (match SettleSpecific(book, matchId, now) case HttpError(_) => Tally(book, 0, 0.0) case Ok(tally) => tally)
    case JoinedSweep(now) => SettleJoined(book, now)
    case UserSweep(userId, now) => AutoSettle(Tally(book, 0, 0.0), userId, now)
    case GuardedUserSweep(userId, now) => AutoSettle(Tally(book, 0, 0.0), userId, now).(book := Act(book, action))
    case _ => Tally(Act(book, action), 0, 0.0)
  }

  /** A run as a list of picks over the given book, with the odds rows it leaves behind. */
  datatype PickRun = PickRun(rows: seq<Row>, picks: seq<Pick>, policy: Policy, now: int)

  function Start(book: Book, run: PickRun): Tally { Tally(book.(rows := run.rows), 0, 0.0) }

  /** The guarded sweep is the only settling action that looks at the ledger. */
  ghost predicate LedgerFits(book: Book, action: Action) {
    action.GuardedUserSweep? ==> SettledOnce(book)
  }

  lemma LegacyFoundAreSound(bets: seq<Bet>, row: Row, score: Score)
    ensures Sound(bets, PicksAgainst(bets, Select(bets, UnsettledForLegacy(row)), score))
    ensures Select(bets, UnsettledForLegacy(row)) == [] ==>
              PicksAgainst(bets, Select(bets, UnsettledForLegacy(row)), score) == []
  {
  }

  lemma SpecificIsPicks(book: Book, matchId: int, now: int) returns (run: PickRun)
    ensures run.rows == book.rows && Sound(book.bets, run.picks)
    ensures Report(book, SpecificMatch(matchId, now)) == SettlePicks(Start(book, run), run.picks, run.policy, run.now)
  {
    run := PickRun(book.rows, [], SPECIFIC, now);
    var found := RowById(book.rows, matchId);
    if found.Some? && found.value.result.Some? && found.value.result.value != "" {
      var score := ParseScore(found.value.result.value);
      if score.Some? {
        LegacyFoundAreSound(book.bets, found.value, score.value);
        run := run.(picks := PicksAgainst(book.bets, Select(book.bets, UnsettledForLegacy(found.value)), score.value));
      }
    }
  }

  /** Every settling action settles some list of picks; they are distinct open bets whenever the
      action is allowed. */
  lemma SettlingIsPicks(book: Book, action: Action) returns (run: PickRun)
    requires Settles(action) && LedgerFits(book, action)
    ensures PicksFit(run.picks, |book.bets|)
    ensures Report(book, action) == SettlePicks(Start(book, run), run.picks, run.policy, run.now)
    ensures Act(book, action) == Report(book, action).book
    ensures Allowed(book, action) ==> Sound(book.bets, run.picks)
  {
    run := PickRun(book.rows, [], SWEEP, 0);
    match action
    case Sweep(now) =>
      var picks := SweepIsPicks(Tally(book, 0, 0.0), book.rows, now);
      run := PickRun(book.rows, picks, SWEEP, now);
    case ResultUpdate(matchId, result, now) =>
      var found := RowById(book.rows, matchId);
      if found.Some? && IsValidFootballResult(Some(result)) {
        run := run.(rows := WithResult(book.rows, matchId, result));
        if found.value.HasBeenPlayed(now) {
          var row := found.value.(result := Some(result));
          MatchIsPicks(Start(book, run), row, now);
          run := run.(picks := MatchPicks(book.bets, row), now := now);
        }
      }
    case SpecificMatch(matchId, now) => run := SpecificIsPicks(book, matchId, now);
    case JoinedSweep(now) =>
      run := PickRun(book.rows, ReadPicks(Join(book.rows, book.bets, |book.bets|), book.bets), JOINED, now);
      if JoinsOnce(book) { JoinedIsSound(book); }
    case UserSweep(userId, now) =>
      UserPicksAreSound(book, userId, now);
      run := PickRun(book.rows, PicksOf(book, userId, now), AUTO, now);
    case GuardedUserSweep(userId, now) =>
      UserPicksAreSound(book, userId, now);
      GuardNeverFires(book, userId, now);
      run := PickRun(book.rows, PicksOf(book, userId, now), AUTO, now);
  }

  // ---- one entry per settled bet ----

  lemma BackingGrows(bets: seq<Bet>, bet: Bet, tx: Tx)
    requires Backed(bets, tx)
    ensures Backed(bets + [bet], tx)
  {
    var i :| 0 <= i < |bets| && BackedBy(bets[i], tx);
    assert BackedBy((bets + [bet])[i], tx);
  }

  lemma PlacementKeepsOnce(book: Book, bet: Bet)
    requires SettledOnce(book) && NewBet(book, bet)
    ensures SettledOnce(Placed(book, bet))
  {
    if bet.userId in book.funds {
      var bets := book.bets + [bet];
      SomeEntry(book.ledger, bet.id);
      forall tx, b | tx in book.ledger && tx.Settles(b) ensures Backed(bets, tx) {
        BackingGrows(book.bets, bet, tx);
      }
      assert OneEach(bets, book.ledger);
      NeutralEntry(bets, book.ledger, PlacementEntry(bet, book.funds[bet.userId]));
    }
  }

  lemma NeutralEntryKeepsOnce(book: Book, funds: map<int, real>, tx: Tx)
    requires SettledOnce(book) && funds.Keys == book.funds.Keys && !tx.IsSettlement()
    ensures SettledOnce(book.(funds := funds, ledger := book.ledger + [tx]))
  {
    NeutralEntry(book.bets, book.ledger, tx);
  }

  lemma BookedKeepsOnce(book: Book, userId: int, kind: Kind, amount: real)
    requires SettledOnce(book) && kind != BetWon && kind != BetLost
    ensures userId in book.funds ==> SettledOnce(Booked(book, userId, kind, amount))
  {
    if userId in book.funds {
      var after := Booked(book, userId, kind, amount);
      NeutralEntryKeepsOnce(book, after.funds, after.ledger[|book.ledger|]);
    }
  }

  /** One settlement entry too many: a second one, one for an open bet, or one for no bet at all. */
  lemma SettlementBreaksOnce(book: Book, entry: Tx)
    requires SettledOnce(book) && entry.IsSettlement()
    ensures !SettledOnce(book.(ledger := book.ledger + [entry]))
  {
    var bet, ledger := entry.reference.betId, book.ledger + [entry];
    if i :| 0 <= i < |book.bets| && book.bets[i].id == bet {
      EntriesAppend(book.ledger, entry, book.bets[i].id);
      assert EntriesOf(ledger, book.bets[i].id) != if book.bets[i].settled then 1 else 0;
    } else {
      assert entry in ledger && entry.Settles(bet) && !Backed(book.bets, entry);
    }
  }

  /** A posted entry keeps one entry per settled bet if and only if it is not itself a settlement
      entry of some betting record. */
  lemma PostKeepsOnceIff(book: Book, entry: Tx)
    requires SettledOnce(book)
    ensures SettledOnce(book.(ledger := book.ledger + [entry])) <==> !entry.IsSettlement()
  {
    if entry.IsSettlement() {
      SettlementBreaksOnce(book, entry);
    } else {
      NeutralEntry(book.bets, book.ledger, entry);
    }
  }

  lemma DatedIsBacked(bet: Bet, userId: int, dates: map<int, int>, tx: Tx)
    requires BackedBy(bet, tx)
    ensures BackedBy(Dated(bet, userId, dates), tx)
  {
  }

  lemma DatesKeepBacking(bets: seq<Bet>, userId: int, dates: map<int, int>, tx: Tx)
    requires Backed(bets, tx)
    ensures Backed(FillDates(bets, userId, dates), tx)
  {
    var i :| 0 <= i < |bets| && BackedBy(bets[i], tx);
    DatedIsBacked(bets[i], userId, dates, tx);
    assert BackedBy(FillDates(bets, userId, dates)[i], tx);
  }

  lemma DatesKeepOnce(book: Book, userId: int, dates: map<int, int>)
    requires SettledOnce(book)
    ensures SettledOnce(book.(bets := FillDates(book.bets, userId, dates)))
  {
    forall tx, b | tx in book.ledger && tx.Settles(b) ensures Backed(FillDates(book.bets, userId, dates), tx) {
      DatesKeepBacking(book.bets, userId, dates, tx);
    }
  }

  lemma BackedByOther(book: Book, userId: int, tx: Tx, bet: int)
    requires SettledOnce(book) && tx in book.ledger && tx.Settles(bet) && tx.userId != userId
    ensures Backed(BetsWithout(book.bets, userId), tx)
  {
    var i :| 0 <= i < |book.bets| && BackedBy(book.bets[i], tx);
    var bets := BetsWithout(book.bets, userId);
    assert book.bets[i] in bets;
    var j :| 0 <= j < |bets| && bets[j] == book.bets[i];
    assert BackedBy(bets[j], tx);
  }

  /** Another user's bet keeps its entries: they are all that user's own. */
  lemma EntriesStay(book: Book, userId: int, i: nat)
    requires SettledOnce(book) && i < |book.bets| && book.bets[i].userId != userId
    ensures EntriesOf(EntriesWithout(book.ledger, userId), book.bets[i].id) == EntriesOf(book.ledger, book.bets[i].id)
  {
    forall tx | tx in book.ledger && tx.Settles(book.bets[i].id) ensures tx.userId != userId {
      var j :| 0 <= j < |book.bets| && BackedBy(book.bets[j], tx);
      assert j == i;
    }
    OwnEntriesStay(book.ledger, userId, book.bets[i].id);
  }

  lemma OtherBetStays(book: Book, userId: int, bet: Bet)
    requires SettledOnce(book) && bet in BetsWithout(book.bets, userId)
    ensures bet.userId in book.funds - {userId}
    ensures EntriesOf(EntriesWithout(book.ledger, userId), bet.id) == if bet.settled then 1 else 0
  {
    var i :| 0 <= i < |book.bets| && book.bets[i] == bet;
    EntriesStay(book, userId, i);
  }

  lemma RemovalKeepsBacking(book: Book, userId: int)
    requires SettledOnce(book)
    ensures AllBacked(BetsWithout(book.bets, userId), EntriesWithout(book.ledger, userId))
  {
    forall tx, b | tx in EntriesWithout(book.ledger, userId) && tx.Settles(b)
      ensures Backed(BetsWithout(book.bets, userId), tx)
    {
      BackedByOther(book, userId, tx, b);
    }
  }

  lemma RemovalKeepsOnce(book: Book, userId: int)
    requires SettledOnce(book)
    ensures SettledOnce(Removed(book, userId))
  {
    var bets, ledger := BetsWithout(book.bets, userId), EntriesWithout(book.ledger, userId);
    BetsWithoutKeepsIds(book.bets, userId);
    forall j | 0 <= j < |bets|
      ensures bets[j].userId in book.funds - {userId}
      ensures EntriesOf(ledger, bets[j].id) == if bets[j].settled then 1 else 0
    {
      OtherBetStays(book, userId, bets[j]);
    }
    assert OneEach(bets, ledger);
    RemovalKeepsBacking(book, userId);
  }

  lemma SettlingActionKeepsOnce(book: Book, action: Action)
    requires SettledOnce(book) && Allowed(book, action) && Settles(action)
    ensures SettledOnce(Act(book, action))
  {
    var run := SettlingIsPicks(book, action);
    assert SettledOnce(Start(book, run).book);
    PicksKeepOnce(Start(book, run), run.picks, run.policy, run.now);
  }

  lemma RepairKeepsOnce(book: Book, userId: int)
    requires SettledOnce(book)
    ensures SettledOnce(Act(book, Repair(userId)))
  {
    if FixSync(book, userId).Ok? && FixSync(book, userId).payload != book {
      NeutralEntryKeepsOnce(book, book.funds, FixSync(book, userId).payload.ledger[|book.ledger|]);
    }
  }

  lemma AdjustmentKeepsOnce(book: Book, userId: int, amount: real)
    requires SettledOnce(book)
    ensures SettledOnce(Act(book, Adjustment(userId, amount)))
  {
    if userId in book.funds {
      var after := AdjustFunds(book, userId, amount).payload;
      NeutralEntryKeepsOnce(book, after.funds, after.ledger[|book.ledger|]);
    }
  }

  lemma OtherActionKeepsOnce(book: Book, action: Action)
    requires SettledOnce(book) && Allowed(book, action) && !Settles(action)
    ensures SettledOnce(Act(book, action))
  {
    match action
    case Revert(now) => RevertsKeepOnce(book, Select(book.bets, SettledForFuture(now)));
    case Repair(userId) => RepairKeepsOnce(book, userId);
    case Adjustment(userId, amount) => AdjustmentKeepsOnce(book, userId, amount);
    case Placement(bet) => PlacementKeepsOnce(book, bet);
    case TopUp(userId, amount) => BookedKeepsOnce(book, userId, Deposit, amount);
    case CashOut(userId, amount) => BookedKeepsOnce(book, userId, Withdrawal, -amount);
    case Deduction(userId, amount) =>
    case Stake(bet) => PlacementKeepsOnce(book, bet);
    case Post(entry) => if entry.userId in book.funds { PostKeepsOnceIff(book, entry); }
    case DatesFilled(userId, dates) => DatesKeepOnce(book, userId, dates);
    case Registration(userId) =>
    case Removal(userId) => RemovalKeepsOnce(book, userId);
    case DirectWrite(userId, balance) =>
    case Scrape(rows) =>
  }

  lemma ActionKeepsOnce(book: Book, action: Action)
    requires SettledOnce(book) && Allowed(book, action)
    ensures SettledOnce(Act(book, action))
  {
    if Settles(action) {
      SettlingActionKeepsOnce(book, action);
    } else {
      OtherActionKeepsOnce(book, action);
    }
  }

  /** In every reachable book a settled bet has exactly one settlement entry and an open bet none:
      no bet is ever paid twice, whatever order the endpoints run in. */
  lemma {:induction false} SettledOnceForever(book: Book, actions: seq<Action>)
    requires SettledOnce(book) && AllAllowed(book, actions)
    ensures SettledOnce(Run(book, actions))
  {
    if actions == [] {
    } else {
      SettledOnceForever(book, actions[..|actions| - 1]);
      ActionKeepsOnce(Run(book, actions[..|actions| - 1]), actions[|actions| - 1]);
    }
  }

  lemma GuardedActs(book: Book, userId: int, now: int)
    requires SettledOnce(book)
    ensures Act(book, GuardedUserSweep(userId, now)) == Act(book, UserSweep(userId, now))
  {
    GuardNeverFires(book, userId, now);
  }

  /** In every reachable book the two per-user settlements are interchangeable. */
  lemma GuardIsRedundantForever(book: Book, actions: seq<Action>, userId: int, now: int)
    requires SettledOnce(book) && AllAllowed(book, actions)
    ensures Act(Run(book, actions), GuardedUserSweep(userId, now)) == Act(Run(book, actions), UserSweep(userId, now))
  {
    SettledOnceForever(book, actions);
    GuardedActs(Run(book, actions), userId, now);
  }

  // ---- money ----

  /** Every settling endpoint raises the users' balances in total by exactly the bet_won amounts it
      appends, and by exactly the winnings it counts; even a joined sweep that pays twice. */
  lemma SettlingActionsConserve(book: Book, action: Action, users: seq<int>)
    requires Enumerates(users, book.funds) && Settles(action) && LedgerFits(book, action)
    ensures Report(book, action).book == Act(book, action)
    ensures Act(book, action).funds.Keys == book.funds.Keys
    ensures Conserves(Tally(book, 0, 0.0), Report(book, action), users)
  {
    var run := SettlingIsPicks(book, action);
    PicksConserve(Start(book, run), run.picks, run.policy, run.now, users);
  }
}
