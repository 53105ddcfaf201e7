/** Every settled bet has exactly one settlement entry, and no open bet has one. */
module Once {
  import opened Scores
  import opened Records
  import opened Settlement
  import opened Plans
  import opened Sweeps
  import opened Entries

  /** The entry belongs to this bet: same user, complete, paid only to a winner and in full, and for
      the stake plus the profit the bet records, unless a winner without positive winnings was
      recorded as a loss. */
  ghost predicate BackedBy(bet: Bet, tx: Tx) {
    && tx.Settles(bet.id)
    && tx.userId == bet.userId
    && tx.completed
    && (tx.kind == BetWon ==> bet.status == Won && tx.amount == bet.Winnings())
    && (tx.kind == BetLost && bet.status == Won ==> bet.Winnings() <= 0.0)
    && bet.actualProfit.Some?
    && (tx.amount == bet.amount + bet.actualProfit.value || (tx.kind == BetLost && bet.status == Won))
  }

  ghost predicate Backed(bets: seq<Bet>, tx: Tx) {
    exists i | 0 <= i < |bets| :: BackedBy(bets[i], tx)
  }

  ghost predicate AllBacked(bets: seq<Bet>, ledger: seq<Tx>) {
    forall tx, bet | tx in ledger && tx.Settles(bet) :: Backed(bets, tx)
  }

  ghost predicate OneEach(bets: seq<Bet>, ledger: seq<Tx>) {
    forall i | 0 <= i < |bets| :: EntriesOf(ledger, bets[i].id) == if bets[i].settled then 1 else 0
  }

  ghost predicate SettledOnce(book: Book) {
    && (forall i, j | 0 <= i < j < |book.bets| :: book.bets[i].id != book.bets[j].id)
    && (forall i | 0 <= i < |book.bets| :: book.bets[i].userId in book.funds)
    && OneEach(book.bets, book.ledger)
    && AllBacked(book.bets, book.ledger)
  }

  lemma BackingMoves(bets: seq<Bet>, bets': seq<Bet>, i: nat, tx: Tx)
    requires |bets'| == |bets| && i < |bets| && bets' == bets[i := bets'[i]]
    requires Backed(bets, tx) && !tx.Settles(bets[i].id)
    ensures Backed(bets', tx)
  {
    var j :| 0 <= j < |bets| && BackedBy(bets[j], tx);
    assert BackedBy(bets'[j], tx);
  }

  lemma EntryBacksBet(policy: Policy, bet: Bet, won: bool, now: int, balance: real)
    ensures BackedBy(bet.Close(won, now), SettlementEntry(policy, bet, won, balance))
  {
  }

  lemma ClosingKeepsBacking(bets: seq<Bet>, ledger: seq<Tx>, i: nat, closed: Bet, entry: Tx)
    requires i < |bets| && AllBacked(bets, ledger) && EntriesOf(ledger, bets[i].id) == 0
    requires BackedBy(closed, entry)
    ensures AllBacked(bets[i := closed], ledger + [entry])
  {
    SomeEntry(ledger, bets[i].id);
    forall tx, b | tx in ledger + [entry] && tx.Settles(b) ensures Backed(bets[i := closed], tx) {
      if tx in ledger {
        BackingMoves(bets, bets[i := closed], i, tx);
      } else {
        assert BackedBy(bets[i := closed][i], tx);
      }
    }
  }

  lemma SettlingKeepsOnce(book: Book, pick: Pick, policy: Policy, now: int)
    requires SettledOnce(book) && pick.bet < |book.bets| && !book.bets[pick.bet].settled
    ensures SettledOnce(SettleBet(book, pick, policy, now))
  {
    var bet := book.bets[pick.bet];
    var entry := SettlementEntry(policy, bet, pick.won, book.funds[bet.userId]);
    EntryBacksBet(policy, bet, pick.won, now, book.funds[bet.userId]);
    ClosingKeepsBacking(book.bets, book.ledger, pick.bet, bet.Close(pick.won, now), entry);
    forall i | 0 <= i < |book.bets|
      ensures EntriesOf(book.ledger + [entry], book.bets[i].id)
              == EntriesOf(book.ledger, book.bets[i].id) + if i == pick.bet then 1 else 0
    {
      EntriesAppend(book.ledger, entry, book.bets[i].id);
    }
  }

  lemma {:induction false} PicksKeepOthers(tally: Tally, picks: seq<Pick>, policy: Policy, now: int, i: nat)
    requires PicksFit(picks, |tally.book.bets|) && i < |tally.book.bets|
    requires forall k | 0 <= k < |picks| :: picks[k].bet != i
    ensures SettlePicks(tally, picks, policy, now).book.bets[i] == tally.book.bets[i]
  {
    if picks == [] {
    } else {
      PicksKeepOthers(tally, picks[..|picks| - 1], policy, now, i);
    }
  }

  lemma {:induction false} GuardedKeepsOthers(book: Book, picks: seq<Pick>, now: int, i: nat)
    requires PicksFit(picks, |book.bets|) && i < |book.bets|
    requires forall k | 0 <= k < |picks| :: picks[k].bet != i
    ensures GuardedPicks(book, picks, now).Some? ==> GuardedPicks(book, picks, now).value.bets[i] == book.bets[i]
  {
    if picks == [] {
    } else {
      GuardedKeepsOthers(book, picks[..|picks| - 1], now, i);
    }
  }

  /** Along distinct open picks, the next bet is still open. */
  lemma NextStaysOpen(tally: Tally, picks: seq<Pick>, policy: Policy, now: int)
    requires picks != [] && Sound(tally.book.bets, picks)
    ensures !SettlePicks(tally, picks[..|picks| - 1], policy, now).book.bets[picks[|picks| - 1].bet].settled
  {
    PicksKeepOthers(tally, picks[..|picks| - 1], policy, now, picks[|picks| - 1].bet);
  }

  lemma {:induction false} PicksKeepOnce(tally: Tally, picks: seq<Pick>, policy: Policy, now: int)
    requires SettledOnce(tally.book) && Sound(tally.book.bets, picks)
    ensures SettledOnce(SettlePicks(tally, picks, policy, now).book)
  {
    if picks == [] {
    } else {
      var init := picks[..|picks| - 1];
      PicksKeepOnce(tally, init, policy, now);
      NextStaysOpen(tally, picks, policy, now);
      SettlingKeepsOnce(SettlePicks(tally, init, policy, now).book, picks[|picks| - 1], policy, now);
    }
  }

  // ---- every run is a list of picks ----

  lemma {:induction false} PicksCompose(tally: Tally, a: seq<Pick>, b: seq<Pick>, policy: Policy, now: int)
    requires PicksFit(a, |tally.book.bets|) && PicksFit(b, |tally.book.bets|)
    ensures SettlePicks(tally, a + b, policy, now) == SettlePicks(SettlePicks(tally, a, policy, now), b, policy, now)
  {
    if b == [] {
      assert a + b == a;
    } else {
      assert (a + b)[..|a + b| - 1] == a + b[..|b| - 1];
      PicksCompose(tally, a, b[..|b| - 1], policy, now);
    }
  }

  lemma {:induction false} PicksSettle(tally: Tally, picks: seq<Pick>, policy: Policy, now: int, i: nat)
    requires PicksFit(picks, |tally.book.bets|) && i < |tally.book.bets|
    requires tally.book.bets[i].settled || Picked(picks, i)
    ensures SettlePicks(tally, picks, policy, now).book.bets[i].settled
  {
    if picks == [] {
    } else if picks[|picks| - 1].bet != i {
      var init := picks[..|picks| - 1];
      if !tally.book.bets[i].settled {
        var k :| 0 <= k < |picks| && picks[k].bet == i;
        assert init[k].bet == i;
      }
      PicksSettle(tally, init, policy, now, i);
    }
  }

  /** Sound picks followed by picks that are sound afterwards are sound together. */
  lemma SoundTogether(tally: Tally, a: seq<Pick>, b: seq<Pick>, policy: Policy, now: int)
    requires Sound(tally.book.bets, a) && Sound(SettlePicks(tally, a, policy, now).book.bets, b)
    ensures Sound(tally.book.bets, a + b)
  {
    var after := SettlePicks(tally, a, policy, now).book.bets;
    forall k | 0 <= k < |b|
      ensures !tally.book.bets[b[k].bet].settled && forall j | 0 <= j < |a| :: a[j].bet != b[k].bet
    {
      var i := b[k].bet;
      if Picked(a, i) || tally.book.bets[i].settled { PicksSettle(tally, a, policy, now, i); }
      forall j | 0 <= j < |a| ensures a[j].bet != i {
        MemberIsPicked(a, a[j]);
      }
    }
  }

  function MatchPicks(bets: seq<Bet>, row: Row): (picks: seq<Pick>)
    ensures PicksFit(picks, |bets|)
  {
    if row.result.None? || ParseScore(row.result.value).None? then []
    else PicksAgainst(bets, Select(bets, UnsettledFor(row)), ParseScore(row.result.value).value)
  }

  lemma MatchIsPicks(tally: Tally, row: Row, now: int)
    ensures SettleMatch(tally, row, now) == SettlePicks(tally, MatchPicks(tally.book.bets, row), SWEEP, now)
    ensures Sound(tally.book.bets, MatchPicks(tally.book.bets, row))
  {
    if row.result.Some? && ParseScore(row.result.value).Some? {
      SelectedAreSound(tally.book.bets, row, ParseScore(row.result.value).value);
    }
  }

  lemma {:induction false} SweepIsPicks(tally: Tally, rows: seq<Row>, now: int) returns (picks: seq<Pick>)
    ensures Sound(tally.book.bets, picks)
    ensures SweepRows(tally, rows, now) == SettlePicks(tally, picks, SWEEP, now)
  {
    picks := [];
    if rows == [] {
    } else {
      var row, before := rows[|rows| - 1], SweepRows(tally, rows[..|rows| - 1], now);
      picks := SweepIsPicks(tally, rows[..|rows| - 1], now);
      if IsFinished(row) && IsValidFootballResult(row.result) {
        var more := MatchPicks(before.book.bets, row);
        MatchIsPicks(before, row, now);
        SoundTogether(tally, picks, more, SWEEP, now);
        PicksCompose(tally, picks, more, SWEEP, now);
        picks := picks + more;
      }
    }
  }

  lemma UserPicksAreSound(book: Book, userId: int, now: int)
    ensures Sound(book.bets, PicksOf(book, userId, now))
  {
    PicksFromExact(Select(book.bets, UnsettledOf(userId)), Verdicts(book.rows, book.bets, now));
  }

  // ---- revert ----

  lemma ReopeningKeepsBacking(bets: seq<Bet>, ledger: seq<Tx>, i: nat, reopened: Bet)
    requires i < |bets| && AllBacked(bets, ledger)
    ensures AllBacked(bets[i := reopened], Without(ledger, bets[i].id))
  {
    WithoutDrops(ledger, bets[i].id, bets[i].id);
    forall tx, b | tx in Without(ledger, bets[i].id) && tx.Settles(b) ensures Backed(bets[i := reopened], tx) {
      BackingMoves(bets, bets[i := reopened], i, tx);
    }
  }

  /** An entry that settles nothing changes neither the count nor the backing. */
  lemma NeutralEntry(bets: seq<Bet>, ledger: seq<Tx>, tx: Tx)
    requires OneEach(bets, ledger) && AllBacked(bets, ledger) && !tx.IsSettlement()
    ensures OneEach(bets, ledger + [tx]) && AllBacked(bets, ledger + [tx])
  {
    forall i | 0 <= i < |bets| ensures EntriesOf(ledger + [tx], bets[i].id) == EntriesOf(ledger, bets[i].id) {
      EntriesAppend(ledger, tx, bets[i].id);
    }
  }

  lemma ReopeningKeepsCount(bets: seq<Bet>, ledger: seq<Tx>, i: nat, reopened: Bet)
    requires i < |bets| && OneEach(bets, ledger) && reopened.id == bets[i].id && !reopened.settled
    requires forall j, k | 0 <= j < k < |bets| :: bets[j].id != bets[k].id
    ensures OneEach(bets[i := reopened], Without(ledger, bets[i].id))
  {
    forall j | 0 <= j < |bets|
      ensures EntriesOf(Without(ledger, bets[i].id), bets[j].id) == if j == i then 0 else EntriesOf(ledger, bets[j].id)
    {
      WithoutDrops(ledger, bets[i].id, bets[j].id);
    }
  }

  lemma RevertingKeepsOnce(book: Book, i: nat)
    requires SettledOnce(book) && i < |book.bets|
    ensures SettledOnce(RevertBet(book, i))
  {
    var bet := book.bets[i];
    var bets, kept := book.bets[i := bet.Reopen()], Without(book.ledger, bet.id);
    ReopeningKeepsBacking(book.bets, book.ledger, i, bet.Reopen());
    ReopeningKeepsCount(book.bets, book.ledger, i, bet.Reopen());
    NeutralEntry(bets, kept, CorrectionEntry(bet, book.funds[bet.userId]));
  }

  lemma {:induction false} RevertsKeepOnce(book: Book, found: seq<nat>)
    requires SettledOnce(book) && forall k | 0 <= k < |found| :: found[k] < |book.bets|
    ensures SettledOnce(RevertEach(book, found))
  {
    if found == [] {
    } else {
      RevertsKeepOnce(book, found[..|found| - 1]);
      RevertingKeepsOnce(RevertEach(book, found[..|found| - 1]), found[|found| - 1]);
    }
  }

  // ---- the joined settlement ----

  /** The picks the join yields for one bet. */
  function JoinPicks(rows: seq<Row>, bets: seq<Bet>, i: nat): (picks: seq<Pick>)
    requires i < |bets|
  {
    ReadPicks(JoinsOf(rows, bets, i), bets)
  }

  /** No open bet joins two rows with a readable result. */
  ghost predicate JoinsOnce(book: Book) {
    forall i | 0 <= i < |book.bets| :: |JoinPicks(book.rows, book.bets, i)| <= 1
  }

  /** Pick lists, the i-th about the i-th bet. */
  ghost predicate OwnLists(lists: seq<seq<Pick>>) {
    forall i, k | 0 <= i < |lists| && 0 <= k < |lists[i]| :: lists[i][k].bet == i
  }

  function Concat(lists: seq<seq<Pick>>): (picks: seq<Pick>)
    ensures OwnLists(lists) ==> PicksFit(picks, |lists|)
  {
    if lists == [] then [] else Concat(lists[..|lists| - 1]) + lists[|lists| - 1]
  }

  function JoinLists(rows: seq<Row>, bets: seq<Bet>, n: nat): (lists: seq<seq<Pick>>)
    requires n <= |bets|
    ensures |lists| == n && forall i | 0 <= i < n :: lists[i] == JoinPicks(rows, bets, i)
  {
    seq(n, i requires 0 <= i < n => JoinPicks(rows, bets, i))
  }

  lemma PicksAssociate(a: seq<Pick>, b: seq<Pick>, c: seq<Pick>)
    ensures a + (b + c) == a + b + c
  {
  }

  lemma {:induction false} ReadPicksSplits(a: seq<JoinLine>, b: seq<JoinLine>, bets: seq<Bet>)
    requires forall k | 0 <= k < |a| :: a[k].bet < |bets| && a[k].row.result.Some?
    requires forall k | 0 <= k < |b| :: b[k].bet < |bets| && b[k].row.result.Some?
    ensures ReadPicks(a + b, bets) == ReadPicks(a, bets) + ReadPicks(b, bets)
  {
    if b == [] {
      assert a + b == a;
    } else {
      var init := b[..|b| - 1];
      assert (a + b)[..|a + b| - 1] == a + init;
      ReadPicksSplits(a, init, bets);
      PicksAssociate(ReadPicks(a, bets), ReadPicks(init, bets), ReadLine(b[|b| - 1], bets));
    }
  }

  lemma JoinListsNext(rows: seq<Row>, bets: seq<Bet>, n: nat)
    requires 0 < n <= |bets|
    ensures Concat(JoinLists(rows, bets, n))
            == Concat(JoinLists(rows, bets, n - 1)) + ReadPicks(JoinsOf(rows, bets, n - 1), bets)
  {
    assert JoinLists(rows, bets, n)[..n - 1] == JoinLists(rows, bets, n - 1);
  }

  lemma {:induction false} JoinByBet(rows: seq<Row>, bets: seq<Bet>, n: nat)
    requires n <= |bets|
    ensures ReadPicks(Join(rows, bets, n), bets) == Concat(JoinLists(rows, bets, n))
  {
    if n == 0 {
    } else {
      JoinByBet(rows, bets, n - 1);
      ReadPicksSplits(Join(rows, bets, n - 1), JoinsOf(rows, bets, n - 1), bets);
      JoinListsNext(rows, bets, n);
      assert Join(rows, bets, n) == Join(rows, bets, n - 1) + JoinsOf(rows, bets, n - 1);
    }
  }

  lemma {:induction false} ReadPicksOwner(lines: seq<JoinLine>, bets: seq<Bet>, i: nat)
    requires forall k | 0 <= k < |lines| :: lines[k].bet == i && lines[k].row.result.Some?
    requires i < |bets|
    ensures forall k | 0 <= k < |ReadPicks(lines, bets)| :: ReadPicks(lines, bets)[k].bet == i
  {
    if lines == [] {
    } else {
      ReadPicksOwner(lines[..|lines| - 1], bets, i);
    }
  }

  lemma JoinListsAreOwn(rows: seq<Row>, bets: seq<Bet>)
    ensures OwnLists(JoinLists(rows, bets, |bets|))
    ensures forall i | 0 <= i < |bets| && JoinPicks(rows, bets, i) != [] :: !bets[i].settled
  {
    forall i | 0 <= i < |bets|
      ensures forall k | 0 <= k < |JoinPicks(rows, bets, i)| :: JoinPicks(rows, bets, i)[k].bet == i
    {
      ReadPicksOwner(JoinsOf(rows, bets, i), bets, i);
    }
  }

  function PicksFor(picks: seq<Pick>, i: nat): nat {
    if picks == [] then 0 else PicksFor(picks[..|picks| - 1], i) + if picks[|picks| - 1].bet == i then 1 else 0
  }

  lemma {:induction false} PicksForAppend(a: seq<Pick>, b: seq<Pick>, i: nat)
    ensures PicksFor(a + b, i) == PicksFor(a, i) + PicksFor(b, i)
  {
    if b == [] {
      assert a + b == a;
    } else {
      assert (a + b)[..|a + b| - 1] == a + b[..|b| - 1];
      PicksForAppend(a, b[..|b| - 1], i);
    }
  }

  lemma {:induction false} PicksForUniform(picks: seq<Pick>, owner: nat, i: nat)
    requires forall k | 0 <= k < |picks| :: picks[k].bet == owner
    ensures PicksFor(picks, i) == if i == owner then |picks| else 0
  {
    if picks == [] {
    } else {
      PicksForUniform(picks[..|picks| - 1], owner, i);
    }
  }

  lemma {:induction false} ConcatCount(lists: seq<seq<Pick>>, i: nat)
    requires OwnLists(lists)
    ensures PicksFor(Concat(lists), i) == if i < |lists| then |lists[i]| else 0
  {
    if lists == [] {
    } else {
      var last := |lists| - 1;
      ConcatCount(lists[..last], i);
      PicksForAppend(Concat(lists[..last]), lists[last], i);
      PicksForUniform(lists[last], last, i);
    }
  }

  lemma SoundAppend(bets: seq<Bet>, picks: seq<Pick>, n: nat, pick: Pick)
    requires n < |bets| && Sound(bets, picks) && PicksFit(picks, n) && pick.bet == n && !bets[n].settled
    ensures Sound(bets, picks + [pick])
  {
  }

  lemma {:induction false} ConcatIsSound(lists: seq<seq<Pick>>, bets: seq<Bet>)
    requires |lists| <= |bets| && OwnLists(lists)
    requires forall i | 0 <= i < |lists| :: |lists[i]| <= 1 && (lists[i] != [] ==> !bets[i].settled)
    ensures Sound(bets, Concat(lists))
  {
    if lists == [] {
    } else {
      var init, last := lists[..|lists| - 1], lists[|lists| - 1];
      ConcatIsSound(init, bets);
      if last != [] { SoundAppend(bets, Concat(init), |init|, last[0]); }
    }
  }

  lemma {:induction false} PicksKeepOwners(tally: Tally, picks: seq<Pick>, policy: Policy, now: int)
    requires PicksFit(picks, |tally.book.bets|)
    ensures var after := SettlePicks(tally, picks, policy, now).book;
            forall j | 0 <= j < |tally.book.bets| ::
              after.bets[j].id == tally.book.bets[j].id && after.bets[j].userId == tally.book.bets[j].userId
  {
    if picks == [] {
    } else {
      PicksKeepOwners(tally, picks[..|picks| - 1], policy, now);
    }
  }

  /** Each pick appends one entry for its bet, whether or not the bet was open. */
  lemma {:induction false} EntriesAfterPicks(tally: Tally, picks: seq<Pick>, policy: Policy, now: int, i: nat)
    requires PicksFit(picks, |tally.book.bets|) && i < |tally.book.bets|
    requires forall j, k | 0 <= j < k < |tally.book.bets| :: tally.book.bets[j].id != tally.book.bets[k].id
    requires forall j | 0 <= j < |tally.book.bets| :: tally.book.bets[j].userId in tally.book.funds
    ensures var after := SettlePicks(tally, picks, policy, now).book;
            EntriesOf(after.ledger, tally.book.bets[i].id)
            == EntriesOf(tally.book.ledger, tally.book.bets[i].id) + PicksFor(picks, i)
  {
    if picks == [] {
    } else {
      var init, last := picks[..|picks| - 1], picks[|picks| - 1];
      EntriesAfterPicks(tally, init, policy, now, i);
      PicksKeepOwners(tally, init, policy, now);
      var before := SettlePicks(tally, init, policy, now).book;
      var bet := before.bets[last.bet];
      EntriesAppend(before.ledger, SettlementEntry(policy, bet, last.won, before.funds[bet.userId]),
                    tally.book.bets[i].id);
    }
  }

  /** The joined settlement appends, for every bet, one entry per joined row that parses. */
  lemma JoinedEntries(book: Book, now: int, i: nat)
    requires SettledOnce(book) && i < |book.bets|
    ensures var after := SettleJoined(book, now).book;
            && after.bets[i].id == book.bets[i].id
            && EntriesOf(after.ledger, book.bets[i].id)
               == EntriesOf(book.ledger, book.bets[i].id) + |JoinPicks(book.rows, book.bets, i)|
  {
    var lists, start := JoinLists(book.rows, book.bets, |book.bets|), Tally(book, 0, 0.0);
    JoinByBet(book.rows, book.bets, |book.bets|);
    JoinListsAreOwn(book.rows, book.bets);
    PicksKeepOwners(start, Concat(lists), JOINED, now);
    ConcatCount(lists, i);
    EntriesAfterPicks(start, Concat(lists), JOINED, now, i);
  }

  lemma JoinedIsSound(book: Book)
    requires JoinsOnce(book)
    ensures Sound(book.bets, ReadPicks(Join(book.rows, book.bets, |book.bets|), book.bets))
  {
    JoinByBet(book.rows, book.bets, |book.bets|);
    JoinListsAreOwn(book.rows, book.bets);
    ConcatIsSound(JoinLists(book.rows, book.bets, |book.bets|), book.bets);
  }

  /** The joined settlement keeps one entry per settled bet exactly when no open bet joins two
      rows with a readable result: it pays per joined row, not per bet. */
  lemma JoinedKeepsOnceIff(book: Book, now: int)
    requires SettledOnce(book)
    ensures SettledOnce(SettleJoined(book, now).book) <==> JoinsOnce(book)
  {
    if JoinsOnce(book) {
      JoinedIsSound(book);
      PicksKeepOnce(Tally(book, 0, 0.0), ReadPicks(Join(book.rows, book.bets, |book.bets|), book.bets), JOINED, now);
    }
    if SettledOnce(SettleJoined(book, now).book) {
      forall i | 0 <= i < |book.bets| ensures |JoinPicks(book.rows, book.bets, i)| <= 1 {
        JoinedEntries(book, now, i);
      }
    }
  }
}
