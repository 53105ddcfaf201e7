/** The per-user settlement that consults the ledger against the one that does not. */
module Guard {
  import opened Common
  import opened Records
  import opened Settlement
  import opened Plans
  import opened Sweeps
  import opened Entries
  import opened Once

  lemma ExistingAppend(ledger: seq<Tx>, tx: Tx, userId: int, bet: int)
    ensures ExistingFor(ledger + [tx], userId, bet)
            == ExistingFor(ledger, userId, bet) + if tx.userId == userId && tx.Settles(bet) then 1 else 0
  {
    assert (ledger + [tx])[..|ledger|] == ledger;
  }

  /** Distinct ids, and a user row behind every bet. */
  ghost predicate Keyed(book: Book) {
    && (forall i, j | 0 <= i < j < |book.bets| :: book.bets[i].id != book.bets[j].id)
    && (forall i | 0 <= i < |book.bets| :: book.bets[i].userId in book.funds)
  }

  /** No settlement entry yet for any of the picked bets. */
  ghost predicate Clean(book: Book, picks: seq<Pick>)
    requires PicksFit(picks, |book.bets|)
  {
    forall k | 0 <= k < |picks| ::
      ExistingFor(book.ledger, book.bets[picks[k].bet].userId, book.bets[picks[k].bet].id) == 0
  }

  lemma GuardedAddsItsOwn(book: Book, pick: Pick, now: int, userId: int, bet: int)
    requires pick.bet < |book.bets| && book.bets[pick.bet].id != bet
    ensures var r := SettleGuarded(book, pick, now);
            r.Some? ==> ExistingFor(r.value.ledger, userId, bet) == ExistingFor(book.ledger, userId, bet)
  {
    var picked := book.bets[pick.bet];
    if picked.userId in book.funds {
      var entry := SettlementEntry(AUTO, picked, pick.won, book.funds[picked.userId]);
      ExistingAppend(book.ledger, entry, userId, bet);
    }
  }

  /** Guarded settlement adds no entries for bets it did not pick. */
  lemma {:induction false} GuardedKeepsEntries(book: Book, picks: seq<Pick>, now: int, i: nat)
    requires Keyed(book) && Sound(book.bets, picks) && i < |book.bets|
    requires forall k | 0 <= k < |picks| :: picks[k].bet != i
    ensures var r := GuardedPicks(book, picks, now);
            r.Some? ==>
              ExistingFor(r.value.ledger, book.bets[i].userId, book.bets[i].id)
              == ExistingFor(book.ledger, book.bets[i].userId, book.bets[i].id)
  {
    if picks == [] {
    } else {
      var init, last := picks[..|picks| - 1], picks[|picks| - 1];
      GuardedKeepsEntries(book, init, now, i);
      var before := GuardedPicks(book, init, now);
      if before.Some? {
        GuardedKeepsOthers(book, init, now, last.bet);
        GuardedAddsItsOwn(before.value, last, now, book.bets[i].userId, book.bets[i].id);
      }
    }
  }

  lemma {:induction false} CleanRunsAgree(book: Book, picks: seq<Pick>, now: int)
    requires Keyed(book) && Sound(book.bets, picks) && Clean(book, picks)
    ensures GuardedPicks(book, picks, now) == Some(SettlePicks(Tally(book, 0, 0.0), picks, AUTO, now).book)
  {
    if picks == [] {
    } else {
      var init, last := picks[..|picks| - 1], picks[|picks| - 1];
      CleanRunsAgree(book, init, now);
      GuardedKeepsOthers(book, init, now, last.bet);
      GuardedKeepsEntries(book, init, now, last.bet);
    }
  }

  lemma {:induction false} UnguardedLength(tally: Tally, picks: seq<Pick>, policy: Policy, now: int)
    requires Keyed(tally.book) && PicksFit(picks, |tally.book.bets|)
    ensures |SettlePicks(tally, picks, policy, now).book.ledger| == |tally.book.ledger| + |picks|
  {
    if picks == [] {
    } else {
      PicksKeepOwners(tally, picks[..|picks| - 1], policy, now);
      UnguardedLength(tally, picks[..|picks| - 1], policy, now);
    }
  }

  /** One guarded settlement adds its entry exactly when there was none. */
  lemma GuardedGrowth(book: Book, pick: Pick, now: int)
    requires Keyed(book) && pick.bet < |book.bets|
    ensures var bet, r := book.bets[pick.bet], SettleGuarded(book, pick, now);
            r.Some? ==> |r.value.ledger| <= |book.ledger| + 1
                        && (|r.value.ledger| == |book.ledger| + 1 ==> ExistingFor(book.ledger, bet.userId, bet.id) == 0)
  {
  }

  /** Guarded settlement keeps every bet's owner and id. */
  lemma {:induction false} GuardedKeepsKeyed(book: Book, picks: seq<Pick>, now: int)
    requires Keyed(book) && PicksFit(picks, |book.bets|)
    ensures var r := GuardedPicks(book, picks, now);
            r.Some? ==> Keyed(r.value)
  {
    if picks == [] {
    } else {
      GuardedKeepsKeyed(book, picks[..|picks| - 1], now);
    }
  }

  /** After earlier picks, one more adds its entry exactly when there was none at the start. */
  lemma GuardedGrowsOne(book: Book, init: seq<Pick>, last: Pick, now: int)
    requires Keyed(book) && Sound(book.bets, init) && GuardedPicks(book, init, now).Some? && last.bet < |book.bets|
    requires forall k | 0 <= k < |init| :: init[k].bet != last.bet
    ensures var before, bet := GuardedPicks(book, init, now).value, book.bets[last.bet];
            var after := SettleGuarded(before, last, now);
            after.Some? ==> |after.value.ledger| <= |before.ledger| + 1
                            && (|after.value.ledger| == |before.ledger| + 1 ==>
                                  ExistingFor(book.ledger, bet.userId, bet.id) == 0)
  {
    GuardedKeepsOthers(book, init, now, last.bet);
    GuardedKeepsEntries(book, init, now, last.bet);
    GuardedKeepsKeyed(book, init, now);
    GuardedGrowth(GuardedPicks(book, init, now).value, last, now);
  }

  lemma CleanNext(book: Book, picks: seq<Pick>)
    requires picks != [] && PicksFit(picks, |book.bets|)
    ensures var init, bet := picks[..|picks| - 1], book.bets[picks[|picks| - 1].bet];
            Clean(book, picks) <==> Clean(book, init) && ExistingFor(book.ledger, bet.userId, bet.id) == 0
  {
    var init, last := picks[..|picks| - 1], |picks| - 1;
    assert forall k | 0 <= k < last :: picks[k] == init[k];
  }

  lemma {:induction false} GuardedLength(book: Book, picks: seq<Pick>, now: int)
    requires Keyed(book) && Sound(book.bets, picks)
    ensures var r := GuardedPicks(book, picks, now);
            r.Some? ==> |r.value.ledger| <= |book.ledger| + |picks|
                        && (|r.value.ledger| == |book.ledger| + |picks| ==> Clean(book, picks))
  {
    if picks == [] {
    } else {
      var init, last := picks[..|picks| - 1], picks[|picks| - 1];
      GuardedLength(book, init, now);
      if GuardedPicks(book, init, now).Some? {
        GuardedGrowsOne(book, init, last, now);
        CleanNext(book, picks);
      }
    }
  }

  /** No bet this run would close already has a settlement entry of its user. */
  ghost predicate NothingRecorded(book: Book, userId: int, now: int) {
    forall bet | bet in book.bets && bet.userId == userId && !bet.settled && UserVerdict(book.rows, bet, now).Some? ::
      ExistingFor(book.ledger, userId, bet.id) == 0
  }

  /** A pick of a per-user run is an open bet of the user with that verdict. */
  lemma PickIs(book: Book, userId: int, now: int, k: nat)
    requires k < |PicksOf(book, userId, now)|
    ensures var pick := PicksOf(book, userId, now)[k];
            var bet := book.bets[pick.bet];
            && bet in book.bets && bet.userId == userId && !bet.settled
            && UserVerdict(book.rows, bet, now) == Some(pick.won)
  {
    var found, said := Select(book.bets, UnsettledOf(userId)), Verdicts(book.rows, book.bets, now);
    var pick := PicksFrom(found, said)[k];
    PicksFromExact(found, said);
    assert pick.bet in found;
    assert Selects(UnsettledOf(userId), book.bets[pick.bet]);
    assert said[pick.bet] == Some(pick.won);
  }

  /** Every open bet of the user with a verdict is picked. */
  lemma BetIsPicked(book: Book, userId: int, now: int, i: nat) returns (k: nat)
    requires i < |book.bets| && book.bets[i].userId == userId && !book.bets[i].settled
    requires UserVerdict(book.rows, book.bets[i], now).Some?
    ensures k < |PicksOf(book, userId, now)|
    ensures PicksOf(book, userId, now)[k] == Pick(i, UserVerdict(book.rows, book.bets[i], now).value)
  {
    var found, said := Select(book.bets, UnsettledOf(userId)), Verdicts(book.rows, book.bets, now);
    PicksFromExact(found, said);
    assert i in found && said[i].Some?;
    k :| k < |PicksOf(book, userId, now)| && PicksOf(book, userId, now)[k] == Pick(i, said[i].value);
  }

  lemma NothingRecordedIsClean(book: Book, userId: int, now: int)
    ensures PicksFit(PicksOf(book, userId, now), |book.bets|)
    ensures NothingRecorded(book, userId, now) <==> Clean(book, PicksOf(book, userId, now))
  {
    var picks := PicksOf(book, userId, now);
    if NothingRecorded(book, userId, now) {
      forall k | 0 <= k < |picks|
        ensures ExistingFor(book.ledger, book.bets[picks[k].bet].userId, book.bets[picks[k].bet].id) == 0
      {
        PickIs(book, userId, now, k);
      }
    }
    if Clean(book, picks) {
      forall bet | bet in book.bets && bet.userId == userId && !bet.settled && UserVerdict(book.rows, bet, now).Some?
        ensures ExistingFor(book.ledger, userId, bet.id) == 0
      {
        var i: nat :| i < |book.bets| && book.bets[i] == bet;
        var k := BetIsPicked(book, userId, now, i);
      }
    }
  }

  /** The guarded settlement ends in the same records, balances and ledger as the unguarded one
      exactly when no bet it would close already has a settlement entry. */
  lemma GuardedAgreesIff(book: Book, userId: int, now: int)
    requires Keyed(book)
    ensures AutoSettleGuarded(book, userId, now) == Some(AutoSettle(Tally(book, 0, 0.0), userId, now).book)
            <==> NothingRecorded(book, userId, now)
  {
    var picks := PicksOf(book, userId, now);
    NothingRecordedIsClean(book, userId, now);
    UserPicksAreSound(book, userId, now);
    if NothingRecorded(book, userId, now) {
      CleanRunsAgree(book, picks, now);
    }
    GuardedLength(book, picks, now);
    UnguardedLength(Tally(book, 0, 0.0), picks, AUTO, now);
  }

  /** Wherever settled bets have one entry and open bets none, the guard never fires. */
  lemma GuardNeverFires(book: Book, userId: int, now: int)
    requires SettledOnce(book)
    ensures AutoSettleGuarded(book, userId, now) == Some(AutoSettle(Tally(book, 0, 0.0), userId, now).book)
  {
    forall bet | bet in book.bets && !bet.settled ensures ExistingFor(book.ledger, userId, bet.id) == 0 {
      ExistingAreEntries(book.ledger, userId, bet.id);
    }
    GuardedAgreesIff(book, userId, now);
  }
}
