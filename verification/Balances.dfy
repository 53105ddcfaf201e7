/** Balances against the ledger: conservation, chaining, and staying in sync. */
module Balances {
  import opened Common
  import opened Reals
  import opened Records
  import opened Settlement
  import opened Plans
  import opened Entries
  import opened Once
  import opened Guard

  // ---- conservation ----

  /** The users, each once. */
  ghost predicate Enumerates(users: seq<int>, funds: map<int, real>) {
    && Distinct(users)
    && (forall k | 0 <= k < |users| :: users[k] in funds)
    && (forall u | u in funds :: u in users)
  }

  /** Money held, money reported and money on bet_won entries all rise by the same amount, and the
      ledger only grows. */
  ghost predicate Conserves(before: Tally, after: Tally, users: seq<int>)
    requires Enumerates(users, before.book.funds) && after.book.funds.Keys == before.book.funds.Keys
  {
    && before.book.ledger <= after.book.ledger
    && Held(after.book.funds, users) - Held(before.book.funds, users) == after.winnings - before.winnings
    && WonTotal(after.book.ledger) - WonTotal(before.book.ledger) == after.winnings - before.winnings
  }

  lemma {:induction false} PicksConserve(tally: Tally, picks: seq<Pick>, policy: Policy, now: int, users: seq<int>)
    requires PicksFit(picks, |tally.book.bets|) && Enumerates(users, tally.book.funds)
    ensures Conserves(tally, SettlePicks(tally, picks, policy, now), users)
  {
    if picks == [] {
    } else {
      var init, last := picks[..|picks| - 1], picks[|picks| - 1];
      PicksConserve(tally, init, policy, now, users);
      var before := SettlePicks(tally, init, policy, now).book;
      var bet := before.bets[last.bet];
      if bet.userId in before.funds {
        var entry := SettlementEntry(policy, bet, last.won, before.funds[bet.userId]);
        HeldChanges(before.funds, users, bet.userId, entry.after);
        assert (before.ledger + [entry])[..|before.ledger|] == before.ledger;
      }
    }
  }

  // ---- conservation under the guard ----

  /** A winner that is credited although its entry is already there. */
  predicate PaidUnbooked(book: Book, pick: Pick)
    requires pick.bet < |book.bets|
  {
    var bet := book.bets[pick.bet];
    pick.won && bet.userId in book.funds && ExistingFor(book.ledger, bet.userId, bet.id) > 0
  }

  /** What such winners get. */
  function Unbooked(book: Book, picks: seq<Pick>): real
    requires PicksFit(picks, |book.bets|)
  {
    if picks == [] then 0.0
    else
      var last := picks[|picks| - 1];
      Unbooked(book, picks[..|picks| - 1]) + if PaidUnbooked(book, last) then book.bets[last.bet].Winnings() else 0.0
  }

  /** One guarded settlement: balances rise by the bet_won entry it adds, or by unbooked winnings. */
  lemma GuardedMoves(book: Book, pick: Pick, now: int, users: seq<int>)
    requires Keyed(book) && pick.bet < |book.bets| && Enumerates(users, book.funds)
    requires SettleGuarded(book, pick, now).Some?
    ensures var after := SettleGuarded(book, pick, now).value;
            && book.ledger <= after.ledger
            && Held(after.funds, users) - Held(book.funds, users)
               == WonTotal(after.ledger) - WonTotal(book.ledger) + Unbooked(book, [pick])
  {
    var bet, paid := book.bets[pick.bet], SettleBet(book, pick, AUTO, now);
    var entry := SettlementEntry(AUTO, bet, pick.won, book.funds[bet.userId]);
    HeldChanges(book.funds, users, bet.userId, entry.after);
    assert (book.ledger + [entry])[..|book.ledger|] == book.ledger;
    assert [pick][..0] == [];
  }

  /** Guarded settlement raises all balances together by the bet_won amounts it appends and, on top,
      by the winnings of the winners whose entry it found. */
  lemma {:induction false} GuardedConserves(book: Book, picks: seq<Pick>, now: int, users: seq<int>)
    requires Keyed(book) && Sound(book.bets, picks) && Enumerates(users, book.funds)
    requires GuardedPicks(book, picks, now).Some?
    ensures var after := GuardedPicks(book, picks, now).value;
            && book.ledger <= after.ledger
            && Held(after.funds, users) - Held(book.funds, users)
               == WonTotal(after.ledger) - WonTotal(book.ledger) + Unbooked(book, picks)
  {
    if picks == [] {
    } else {
      var init, last := picks[..|picks| - 1], picks[|picks| - 1];
      GuardedConserves(book, init, now, users);
      var before := GuardedPicks(book, init, now).value;
      GuardedKeepsOthers(book, init, now, last.bet);
      GuardedKeepsEntries(book, init, now, last.bet);
      GuardedKeepsKeyed(book, init, now);
      GuardedMoves(before, last, now, users);
      assert [last][..0] == [];
    }
  }

  /** The ledger only grows, and its bet_won entries account for the rise of all balances. */
  ghost predicate FullyBooked(before: Book, after: Book, users: seq<int>)
    requires Enumerates(users, before.funds) && after.funds.Keys == before.funds.Keys
  {
    && before.ledger <= after.ledger
    && Held(after.funds, users) - Held(before.funds, users) == WonTotal(after.ledger) - WonTotal(before.ledger)
  }

  predicate BookedAlready(book: Book, bet: Bet, userId: int, now: int) {
    && bet.userId == userId && !bet.settled && UserVerdict(book.rows, bet, now) == Some(true)
    && bet.Winnings() > 0.0 && ExistingFor(book.ledger, userId, bet.id) > 0
  }

  /** An open bet of this user that is about to win something and already has an entry. */
  ghost predicate RecordedWinner(book: Book, userId: int, now: int) {
    exists bet | bet in book.bets :: BookedAlready(book, bet, userId, now)
  }

  lemma {:induction false} UnbookedIsZeroIff(book: Book, picks: seq<Pick>)
    requires PicksFit(picks, |book.bets|)
    requires forall k | 0 <= k < |picks| && picks[k].won :: book.bets[picks[k].bet].Winnings() >= 0.0
    ensures Unbooked(book, picks) >= 0.0
    ensures Unbooked(book, picks) == 0.0
            <==> forall k | 0 <= k < |picks| ::
                   PaidUnbooked(book, picks[k]) ==> book.bets[picks[k].bet].Winnings() == 0.0
  {
    if picks == [] {
    } else {
      UnbookedIsZeroIff(book, picks[..|picks| - 1]);
    }
  }

  lemma WinnerIsUnbooked(book: Book, bet: Bet, userId: int, now: int) returns (k: nat)
    requires Keyed(book) && bet in book.bets && BookedAlready(book, bet, userId, now)
    ensures k < |PicksOf(book, userId, now)| && PaidUnbooked(book, PicksOf(book, userId, now)[k])
    ensures book.bets[PicksOf(book, userId, now)[k].bet].Winnings() > 0.0
  {
    var i: nat :| i < |book.bets| && book.bets[i] == bet;
    k := BetIsPicked(book, userId, now, i);
  }

  lemma UnbookedIsWinner(book: Book, userId: int, now: int, k: nat)
    requires k < |PicksOf(book, userId, now)| && PaidUnbooked(book, PicksOf(book, userId, now)[k])
    requires book.bets[PicksOf(book, userId, now)[k].bet].Winnings() > 0.0
    ensures RecordedWinner(book, userId, now)
  {
    PickIs(book, userId, now, k);
    assert BookedAlready(book, book.bets[PicksOf(book, userId, now)[k].bet], userId, now);
  }

  lemma NothingUnbookedIff(book: Book, userId: int, now: int)
    requires Keyed(book) && forall bet | bet in book.bets && bet.userId == userId :: bet.Winnings() >= 0.0
    ensures Unbooked(book, PicksOf(book, userId, now)) == 0.0 <==> !RecordedWinner(book, userId, now)
  {
    var picks := PicksOf(book, userId, now);
    forall k | 0 <= k < |picks| ensures book.bets[picks[k].bet].Winnings() >= 0.0 {
      PickIs(book, userId, now, k);
    }
    UnbookedIsZeroIff(book, picks);
    if RecordedWinner(book, userId, now) {
      var bet :| bet in book.bets && BookedAlready(book, bet, userId, now);
      var k := WinnerIsUnbooked(book, bet, userId, now);
    }
    if Unbooked(book, picks) != 0.0 {
      var k :| 0 <= k < |picks| && PaidUnbooked(book, picks[k]) && book.bets[picks[k].bet].Winnings() != 0.0;
      UnbookedIsWinner(book, userId, now, k);
    }
  }

  /** On any book with proper keys: the guarded settlement books all the money it pays if and only if
      it raised, and so paid nothing, or no open winner had an entry beforehand. */
  lemma GuardedSweepBooksIff(book: Book, userId: int, now: int, users: seq<int>)
    requires Keyed(book) && Enumerates(users, book.funds)
    requires forall bet | bet in book.bets && bet.userId == userId :: bet.Winnings() >= 0.0
    ensures AutoSettleGuarded(book, userId, now).Some? ==>
              (FullyBooked(book, AutoSettleGuarded(book, userId, now).value, users)
               <==> !RecordedWinner(book, userId, now))
  {
    UserPicksAreSound(book, userId, now);
    if AutoSettleGuarded(book, userId, now).Some? {
      GuardedConserves(book, PicksOf(book, userId, now), now, users);
      NothingUnbookedIff(book, userId, now);
    }
  }

  // ---- in sync ----

  /** The last entry shows the current balance, and stays the right one to show when trailing
      bet_lost entries are taken away. */
  ghost predicate InSync(own: seq<Tx>, balance: real) {
    own != [] ==>
      var last := own[|own| - 1];
      last.after == balance && (last.kind == BetLost ==> last.before == last.after && InSync(own[..|own| - 1], balance))
  }

  ghost predicate UserInSync(book: Book, userId: int) {
    userId in book.funds ==> InSync(Of(book.ledger, userId), book.funds[userId])
  }

  lemma AppendInSync(own: seq<Tx>, tx: Tx, balance: real)
    requires tx.after == balance
    requires tx.kind == BetLost ==> tx.before == balance && InSync(own, balance)
    ensures InSync(own + [tx], balance)
  {
    assert (own + [tx])[..|own|] == own;
  }

  /** A book that grew by one entry, whose user's balance moved with it. */
  predicate Grown(book: Book, entry: Tx, after: Book) {
    && entry.userId in book.funds && entry.before == book.funds[entry.userId]
    && after.ledger == book.ledger + [entry] && after.funds == book.funds[entry.userId := entry.after]
  }

  lemma EntryKeepsSync(book: Book, entry: Tx, after: Book, userId: int)
    requires Grown(book, entry, after) && (entry.kind == BetLost ==> entry.after == entry.before)
    requires UserInSync(book, userId)
    ensures UserInSync(after, userId)
  {
    OfAppend(book.ledger, entry, userId);
    if userId == entry.userId {
      AppendInSync(Of(book.ledger, userId), entry, entry.after);
    }
  }

  lemma SettlingKeepsSync(book: Book, pick: Pick, policy: Policy, now: int, userId: int)
    requires pick.bet < |book.bets| && UserInSync(book, userId)
    ensures UserInSync(SettleBet(book, pick, policy, now), userId)
  {
    var bet := book.bets[pick.bet];
    if bet.userId in book.funds {
      EntryKeepsSync(book, SettlementEntry(policy, bet, pick.won, book.funds[bet.userId]),
                     SettleBet(book, pick, policy, now), userId);
    }
  }

  lemma {:induction false} PicksKeepSync(tally: Tally, picks: seq<Pick>, policy: Policy, now: int, userId: int)
    requires PicksFit(picks, |tally.book.bets|) && UserInSync(tally.book, userId)
    ensures UserInSync(SettlePicks(tally, picks, policy, now).book, userId)
  {
    if picks == [] {
    } else {
      PicksKeepSync(tally, picks[..|picks| - 1], policy, now, userId);
      SettlingKeepsSync(SettlePicks(tally, picks[..|picks| - 1], policy, now).book, picks[|picks| - 1], policy, now,
                        userId);
    }
  }

  lemma {:induction false} DroppingLossesKeepsSync(own: seq<Tx>, bet: int, balance: real)
    requires InSync(own, balance)
    requires forall tx | tx in own && tx.Settles(bet) :: tx.kind == BetLost
    ensures InSync(Without(own, bet), balance)
  {
    if own == [] {
    } else {
      var init, last := own[..|own| - 1], own[|own| - 1];
      if last.kind == BetLost {
        DroppingLossesKeepsSync(init, bet, balance);
      }
      if !last.Settles(bet) {
        AppendInSync(Without(init, bet), last, balance);
      }
    }
  }

  /** Deleting a settlement from the middle of the ledger leaves every user's last entry right:
      a reclaimed payout is closed by a correction, and a loss never moved the balance. */
  lemma RevertingKeepsSync(book: Book, i: nat, userId: int)
    requires SettledOnce(book) && i < |book.bets| && UserInSync(book, userId)
    ensures UserInSync(RevertBet(book, i), userId)
  {
    var bet := book.bets[i];
    if bet.userId in book.funds && userId in book.funds {
      var own, kept := Of(book.ledger, userId), Without(book.ledger, bet.id);
      OfWithout(book.ledger, bet.id, userId);
      forall tx | tx in own && tx.Settles(bet.id)
        ensures tx.userId == bet.userId && (tx.kind == BetWon ==> bet.status == Won)
      {
        assert tx in book.ledger;
        var j :| 0 <= j < |book.bets| && BackedBy(book.bets[j], tx);
        assert j == i;
      }
      if userId != bet.userId {
        WithoutNothing(own, bet.id);
      }
      if bet.status == Won {
        var entry := CorrectionEntry(bet, book.funds[bet.userId]);
        OfAppend(kept, entry, userId);
        if userId == bet.userId {
          AppendInSync(Of(kept, userId), entry, entry.after);
        }
      } else {
        DroppingLossesKeepsSync(own, bet.id, book.funds[userId]);
      }
    }
  }

  lemma {:induction false} RevertsKeepSync(book: Book, found: seq<nat>, userId: int)
    requires SettledOnce(book) && UserInSync(book, userId)
    requires forall k | 0 <= k < |found| :: found[k] < |book.bets|
    ensures UserInSync(RevertEach(book, found), userId)
  {
    if found == [] {
    } else {
      RevertsKeepOnce(book, found[..|found| - 1]);
      RevertsKeepSync(book, found[..|found| - 1], userId);
      RevertingKeepsSync(RevertEach(book, found[..|found| - 1]), found[|found| - 1], userId);
    }
  }

  lemma SyncEntrySyncs(ledger: seq<Tx>, userId: int, before: real, current: real)
    ensures var own := Of(ledger + [SyncEntry(userId, before, current)], userId);
            own != [] && own[|own| - 1].after == current && InSync(own, current)
  {
    var entry := SyncEntry(userId, before, current);
    OfAppend(ledger, entry, userId);
    AppendInSync(Of(ledger, userId), entry, current);
  }

  predicate NearSync(own: seq<Tx>, balance: real) {
    own != [] ==> Abs(own[|own| - 1].after - balance) < SYNC_TOLERANCE
  }

  /** The repair leaves the last entry within the tolerance of the balance, whatever was written
      before; when it inserts an entry, exactly on it. */
  lemma RepairSyncs(book: Book, userId: int)
    requires userId in book.funds
    ensures FixSync(book, userId).Ok?
    ensures var after := FixSync(book, userId).payload;
            && after.funds == book.funds
            && NearSync(Of(after.ledger, userId), book.funds[userId])
            && (after != book ==> InSync(Of(after.ledger, userId), book.funds[userId]))
  {
    var own, current := Of(book.ledger, userId), book.funds[userId];
    if own != [] && Abs(own[|own| - 1].after - current) >= SYNC_TOLERANCE {
      SyncEntrySyncs(book.ledger, userId, own[|own| - 1].after, current);
    }
  }

  /** Nothing to repair on a ledger that is in sync. */
  lemma RepairIsQuiet(book: Book, userId: int)
    requires userId in book.funds && UserInSync(book, userId)
    ensures FixSync(book, userId) == Ok(book)
  {
  }

  // ---- chained ledgers ----

  /** Every entry starts where the previous one ended and moves by its amount, from the opening
      balance to the current one. */
  ghost predicate Chained(own: seq<Tx>, opening: real, balance: real) {
    if own == [] then opening == balance
    else
      var last := own[|own| - 1];
      && last.after == balance
      && last.after == last.before + last.amount
      && Chained(own[..|own| - 1], opening, last.before)
  }

  ghost predicate UserChained(book: Book, userId: int, opening: real) {
    userId in book.funds ==> Chained(Of(book.ledger, userId), opening, book.funds[userId])
  }

  lemma AppendChained(own: seq<Tx>, tx: Tx, opening: real)
    requires Chained(own, opening, tx.before) && tx.after == tx.before + tx.amount
    ensures Chained(own + [tx], opening, tx.after)
  {
    assert (own + [tx])[..|own|] == own;
  }

  lemma EntryKeepsChain(book: Book, entry: Tx, after: Book, userId: int, opening: real)
    requires Grown(book, entry, after) && entry.after == entry.before + entry.amount
    requires UserChained(book, userId, opening)
    ensures UserChained(after, userId, opening)
  {
    OfAppend(book.ledger, entry, userId);
    if userId == entry.userId {
      AppendChained(Of(book.ledger, userId), entry, opening);
    }
  }

  lemma SettlingKeepsChain(book: Book, pick: Pick, policy: Policy, now: int, userId: int, opening: real)
    requires pick.bet < |book.bets| && UserChained(book, userId, opening)
    ensures UserChained(SettleBet(book, pick, policy, now), userId, opening)
  {
    var bet := book.bets[pick.bet];
    if bet.userId in book.funds {
      EntryKeepsChain(book, SettlementEntry(policy, bet, pick.won, book.funds[bet.userId]),
                      SettleBet(book, pick, policy, now), userId, opening);
    }
  }

  lemma {:induction false} PicksKeepChain(tally: Tally, picks: seq<Pick>, policy: Policy, now: int, userId: int,
                                          opening: real)
    requires PicksFit(picks, |tally.book.bets|) && UserChained(tally.book, userId, opening)
    ensures UserChained(SettlePicks(tally, picks, policy, now).book, userId, opening)
  {
    if picks == [] {
    } else {
      PicksKeepChain(tally, picks[..|picks| - 1], policy, now, userId, opening);
      SettlingKeepsChain(SettlePicks(tally, picks[..|picks| - 1], policy, now).book, picks[|picks| - 1], policy, now,
                         userId, opening);
    }
  }

  /** A chained ledger whose losses move nothing is in sync. */
  lemma {:induction false} ChainedIsInSync(own: seq<Tx>, opening: real, balance: real)
    requires Chained(own, opening, balance)
    requires forall tx | tx in own && tx.kind == BetLost :: tx.amount == 0.0
    ensures InSync(own, balance)
  {
    if own == [] {
    } else {
      var init, last := own[..|own| - 1], own[|own| - 1];
      assert last in own;
      if last.kind == BetLost {
        ChainedIsInSync(init, opening, last.before);
      }
    }
  }
}
