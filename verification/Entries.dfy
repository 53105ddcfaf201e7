/** Counting and filtering ledger entries. */
module Entries {
  import opened Common
  import opened Records
  import opened Settlement

  /** How many bet_won and bet_lost entries point at a bet. */
  function EntriesOf(ledger: seq<Tx>, bet: int): nat {
    if ledger == [] then 0
    else EntriesOf(ledger[..|ledger| - 1], bet) + if ledger[|ledger| - 1].Settles(bet) then 1 else 0
  }

  lemma EntriesAppend(ledger: seq<Tx>, tx: Tx, bet: int)
    ensures EntriesOf(ledger + [tx], bet) == EntriesOf(ledger, bet) + if tx.Settles(bet) then 1 else 0
  {
    assert (ledger + [tx])[..|ledger|] == ledger;
  }

  lemma {:induction false} SomeEntry(ledger: seq<Tx>, bet: int)
    ensures EntriesOf(ledger, bet) > 0 <==> exists tx | tx in ledger :: tx.Settles(bet)
  {
    if ledger == [] {
    } else {
      var init, last := ledger[..|ledger| - 1], ledger[|ledger| - 1];
      SomeEntry(init, bet);
      assert ledger == init + [last];
      assert last in ledger;
    }
  }

  lemma {:induction false} ExistingAreEntries(ledger: seq<Tx>, userId: int, bet: int)
    ensures ExistingFor(ledger, userId, bet) <= EntriesOf(ledger, bet)
  {
    if ledger == [] {
    } else {
      ExistingAreEntries(ledger[..|ledger| - 1], userId, bet);
    }
  }

  lemma {:induction false} WithoutDrops(ledger: seq<Tx>, bet: int, other: int)
    ensures EntriesOf(Without(ledger, bet), other) == if other == bet then 0 else EntriesOf(ledger, other)
    ensures forall tx | tx in Without(ledger, bet) :: tx in ledger && !tx.Settles(bet)
  {
    if ledger == [] {
    } else {
      var init, last := ledger[..|ledger| - 1], ledger[|ledger| - 1];
      WithoutDrops(init, bet, other);
      assert ledger == init + [last];
      if !last.Settles(bet) {
        EntriesAppend(Without(init, bet), last, other);
      }
    }
  }

  lemma OfAppend(ledger: seq<Tx>, tx: Tx, userId: int)
    ensures Of(ledger + [tx], userId) == if tx.userId == userId then Of(ledger, userId) + [tx] else Of(ledger, userId)
  {
    assert (ledger + [tx])[..|ledger|] == ledger;
  }

  lemma WithoutAppend(ledger: seq<Tx>, tx: Tx, bet: int)
    ensures Without(ledger + [tx], bet) == if tx.Settles(bet) then Without(ledger, bet) else Without(ledger, bet) + [tx]
  {
    assert (ledger + [tx])[..|ledger|] == ledger;
  }

  /** One user's view of a ledger commutes with dropping a bet's entries. */
  lemma {:induction false} OfWithout(ledger: seq<Tx>, bet: int, userId: int)
    ensures Of(Without(ledger, bet), userId) == Without(Of(ledger, userId), bet)
  {
    if ledger == [] {
    } else {
      var init, last := ledger[..|ledger| - 1], ledger[|ledger| - 1];
      OfWithout(init, bet, userId);
      if !last.Settles(bet) {
        OfAppend(Without(init, bet), last, userId);
      }
      if last.userId == userId {
        WithoutAppend(Of(init, userId), last, bet);
      }
    }
  }

  lemma {:induction false} WithoutNothing(ledger: seq<Tx>, bet: int)
    requires forall tx | tx in ledger :: !tx.Settles(bet)
    ensures Without(ledger, bet) == ledger
  {
    if ledger == [] {
    } else {
      WithoutNothing(ledger[..|ledger| - 1], bet);
    }
  }

  /** Money paid out by the bet_won entries of a ledger. */
  function WonTotal(ledger: seq<Tx>): real {
    if ledger == [] then 0.0
    else
      var last := ledger[|ledger| - 1];
      WonTotal(ledger[..|ledger| - 1]) + if last.kind == BetWon then last.amount else 0.0
  }

  /** The money held by a list of users. */
  function Held(funds: map<int, real>, users: seq<int>): real
    requires forall k | 0 <= k < |users| :: users[k] in funds
  {
    if users == [] then 0.0
    else Held(funds, users[..|users| - 1]) + funds[users[|users| - 1]]
  }

  lemma {:induction false} HeldChanges(funds: map<int, real>, users: seq<int>, user: int, balance: real)
    requires forall k | 0 <= k < |users| :: users[k] in funds
    requires Distinct(users) && user in funds
    ensures Held(funds[user := balance], users)
            == Held(funds, users) + if user in users then balance - funds[user] else 0.0
  {
    if users == [] {
    } else {
      var init := users[..|users| - 1];
      HeldChanges(funds, init, user, balance);
      assert users == init + [users[|users| - 1]];
    }
  }

  // ---- without one user ----

  function BetsWithout(bets: seq<Bet>, userId: int): (kept: seq<Bet>)
    ensures forall bet :: bet in kept <==> bet in bets && bet.userId != userId
  {
    if bets == [] then []
    else
      var init, last := BetsWithout(bets[..|bets| - 1], userId), bets[|bets| - 1];
      assert bets == bets[..|bets| - 1] + [last];
      if last.userId == userId then init else init + [last]
  }

  predicate DistinctBets(bets: seq<Bet>) { forall i, j | 0 <= i < j < |bets| :: bets[i].id != bets[j].id }

  lemma {:induction false} BetsWithoutKeepsIds(bets: seq<Bet>, userId: int)
    requires DistinctBets(bets)
    ensures DistinctBets(BetsWithout(bets, userId))
  {
    if bets == [] {
    } else {
      var earlier, last := bets[..|bets| - 1], bets[|bets| - 1];
      BetsWithoutKeepsIds(earlier, userId);
      forall bet | bet in BetsWithout(earlier, userId) ensures bet.id != last.id {
        var i :| 0 <= i < |earlier| && earlier[i] == bet;
        assert bets[i] == bet;
      }
      var init := BetsWithout(earlier, userId);
      assert forall i | 0 <= i < |init| :: init[i] in init;
      assert BetsWithout(bets, userId) == if last.userId == userId then init else init + [last];
    }
  }

  function EntriesWithout(ledger: seq<Tx>, userId: int): (kept: seq<Tx>)
    ensures forall tx :: tx in kept <==> tx in ledger && tx.userId != userId
  {
    if ledger == [] then []
    else
      var init, last := EntriesWithout(ledger[..|ledger| - 1], userId), ledger[|ledger| - 1];
      assert ledger == ledger[..|ledger| - 1] + [last];
      if last.userId == userId then init else init + [last]
  }

  lemma {:induction false} OwnEntriesStay(ledger: seq<Tx>, userId: int, bet: int)
    requires forall tx | tx in ledger && tx.Settles(bet) :: tx.userId != userId
    ensures EntriesOf(EntriesWithout(ledger, userId), bet) == EntriesOf(ledger, bet)
  {
    if ledger == [] {
    } else {
      var init, last := ledger[..|ledger| - 1], ledger[|ledger| - 1];
      assert ledger == init + [last];
      OwnEntriesStay(init, userId, bet);
      if last.userId != userId { EntriesAppend(EntriesWithout(init, userId), last, bet); }
    }
  }

  /** The others' ledgers are left as they were. */
  lemma {:induction false} OthersKeepEntries(ledger: seq<Tx>, userId: int, other: int)
    requires other != userId
    ensures Of(EntriesWithout(ledger, userId), other) == Of(ledger, other)
  {
    if ledger == [] {
    } else {
      var init, last := ledger[..|ledger| - 1], ledger[|ledger| - 1];
      OthersKeepEntries(init, userId, other);
      if last.userId != userId { OfAppend(EntriesWithout(init, userId), last, other); }
    }
  }
}
