/** Taking settlements back: settle, then revert the bets whose match still lies ahead. */
module Reverts {
  import opened Common
  import opened Records
  import opened Settlement
  import opened Plans
  import opened Sweeps

  /** Reopening a closed bet restores it exactly when it was placed fresh on an upcoming match. */
  lemma ReopenRestoresIff(bet: Bet, won: bool, now: int)
    ensures bet.Close(won, now).Reopen() == bet <==> bet.Fresh()
  {
  }

  /** The correction entry accounts for the balance change exactly when the balance still covered
      the winnings; otherwise the clamp at zero hides the rest. */
  lemma CorrectionExactIff(bet: Bet, balance: real)
    ensures var entry := CorrectionEntry(bet, balance);
            entry.after == entry.before + entry.amount <==> balance >= bet.Winnings()
  {
  }

  lemma {:induction false} DueNonNegative(bets: seq<Bet>, plan: Plan, policy: Policy, users: set<int>)
    requires |plan| == |bets|
    requires forall j | 0 <= j < |bets| :: DueOf(bets[j], plan[j], policy, users) >= 0.0
    ensures Due(bets, plan, policy, users) >= 0.0
  {
    if bets == [] {
    } else {
      DueNonNegative(bets[..|bets| - 1], plan[..|bets| - 1], policy, users);
    }
  }

  lemma {:induction false} DueCovers(bets: seq<Bet>, plan: Plan, policy: Policy, users: set<int>, i: nat)
    requires i < |plan| == |bets|
    requires forall j | 0 <= j < |bets| :: DueOf(bets[j], plan[j], policy, users) >= 0.0
    ensures Due(bets, plan, policy, users) >= DueOf(bets[i], plan[i], policy, users)
  {
    var last := |bets| - 1;
    DueNonNegative(bets[..last], plan[..last], policy, users);
    if i == last {
    } else {
      DueCovers(bets[..last], plan[..last], policy, users, i);
    }
  }

  // ---- reverting a realised plan ----

  function Erase(plan: Plan, found: seq<nat>): (r: Plan)
    requires forall k | 0 <= k < |found| :: found[k] < |plan|
    ensures |r| == |plan|
    ensures forall i | 0 <= i < |plan| :: r[i] == if i in found then None else plan[i]
  {
    seq(|plan|, i requires 0 <= i < |plan| => if i in found then None else plan[i])
  }

  lemma EraseOneMore(plan: Plan, found: seq<nat>, i: nat)
    requires (forall k | 0 <= k < |found| :: found[k] < |plan|) && i < |plan|
    ensures Erase(plan, found + [i]) == Erase(plan, found)[i := None]
  {
  }

  predicate Ascending(found: seq<nat>, n: nat) {
    (forall k | 0 <= k < |found| :: found[k] < n) && (forall j, k | 0 <= j < k < |found| :: found[j] < found[k])
  }

  /** The balance the plan prescribes. */
  function Prescribed(book0: Book, plan: Plan, policy: Policy, user: int): real
    requires |plan| == |book0.bets| && user in book0.funds
  {
    book0.funds[user] + Due(book0.bets, plan, policy, {user})
  }

  /** Reverting the bet takes its decision back and nothing else: a bet this run closed was fresh
      and its user is there; any other bet is passed over for want of a user. */
  predicate TakesBack(book0: Book, plan: Plan, i: nat)
    requires i < |plan| == |book0.bets|
  {
    if plan[i].Some? then book0.bets[i].userId in book0.funds && book0.bets[i].Fresh()
    else book0.bets[i].userId !in book0.funds
  }

  /** The policy paid the winner what a revert takes back; it does not when it withholds negative
      winnings. */
  predicate PaidInFull(policy: Policy, bet: Bet) { policy.positiveOnly ==> bet.Winnings() >= 0.0 }

  /** Taking the k-th payout back would leave this user below zero, or was never paid out. */
  predicate Misses(book0: Book, plan: Plan, policy: Policy, found: seq<nat>, k: nat, user: int)
    requires k < |found| && |plan| == |book0.bets| && Ascending(found, |plan|) && user in book0.funds
  {
    && plan[found[k]] == Some(true) && book0.bets[found[k]].userId == user
    && (Prescribed(book0, Erase(plan, found[..k + 1]), policy, user) < 0.0 || !PaidInFull(policy, book0.bets[found[k]]))
  }

  /** Every payout taken back from this user had been paid and is covered by the balance. */
  predicate UserCovered(book0: Book, plan: Plan, policy: Policy, found: seq<nat>, user: int)
    requires |plan| == |book0.bets| && Ascending(found, |plan|) && user in book0.funds
  {
    forall k | 0 <= k < |found| :: !Misses(book0, plan, policy, found, k, user)
  }

  /** The same for all users. */
  predicate Covered(book0: Book, plan: Plan, policy: Policy, found: seq<nat>)
    requires |plan| == |book0.bets| && Ascending(found, |plan|)
  {
    forall user | user in book0.funds :: UserCovered(book0, plan, policy, found, user)
  }

  lemma RevertedOther(book: Book, i: nat, j: nat)
    requires i < |book.bets| && j < |book.bets| && i != j
    ensures RevertBet(book, i).bets[j] == book.bets[j]
  {
  }

  /** A revert touches only the bet it names, and that only when its user is there. */
  lemma {:induction false} RevertedRecord(book: Book, found: seq<nat>, i: nat)
    requires Ascending(found, |book.bets|) && i < |book.bets|
    ensures RevertEach(book, found).bets[i]
            == if i in found && book.bets[i].userId in book.funds then book.bets[i].Reopen() else book.bets[i]
  {
    if found == [] {
    } else {
      var init, last := found[..|found| - 1], found[|found| - 1];
      RevertedRecord(book, init, i);
      assert found == init + [last];
      assert last !in init;
      if last != i { RevertedOther(RevertEach(book, init), last, i); }
    }
  }

  /** What one revert does to one balance. */
  lemma RevertedBalance(book: Book, i: nat, user: int)
    requires i < |book.bets| && user in book.funds
    ensures RevertBet(book, i).funds[user]
            == if book.bets[i].status == Won && book.bets[i].userId == user
               then Max(0.0, book.funds[user] - book.bets[i].Winnings()) else book.funds[user]
  {
  }

  /** Erasing one more decision lowers the prescribed balance by its payout. */
  lemma PrescribedDrops(book0: Book, plan: Plan, policy: Policy, i: nat, user: int)
    requires i < |plan| == |book0.bets| && user in book0.funds
    ensures Prescribed(book0, plan[i := None], policy, user)
            == Prescribed(book0, plan, policy, user) - DueOf(book0.bets[i], plan[i], policy, {user})
  {
    DueChanges(book0.bets, plan, policy, {user}, i, None);
  }

  lemma ErasedStep(plan: Plan, found: seq<nat>)
    requires found != [] && Ascending(found, |plan|)
    ensures var init, last := found[..|found| - 1], found[|found| - 1];
            && Ascending(init, |plan|) && last !in init && found == init + [last]
            && Erase(plan, init)[last] == plan[last]
            && Erase(plan, found) == Erase(plan, init)[last := None]
  {
    EraseOneMore(plan, found[..|found| - 1], found[|found| - 1]);
    assert found == found[..|found| - 1] + [found[|found| - 1]];
  }

  /** How far one revert leaves a balance above the prescribed one. */
  lemma RevertGains(book0: Book, book: Book, before: Plan, policy: Policy, now: int, i: nat, user: int)
    requires i < |before| == |book0.bets| == |book.bets| && user in book0.funds && user in book.funds
    requires book.bets[i] == Planned(book0.bets[i], before[i], now)
    requires before[i].Some? || book0.bets[i].userId != user
    ensures var held, owed := book.funds[user], Prescribed(book0, before, policy, user);
            var held', owed' := RevertBet(book, i).funds[user], Prescribed(book0, before[i := None], policy, user);
            var reclaimed := before[i] == Some(true) && book0.bets[i].userId == user;
            && held' - owed' >= held - owed
            && (reclaimed ==> held' >= 0.0)
            && (reclaimed && !PaidInFull(policy, book0.bets[i]) ==> held' - owed' > held - owed)
            && (held == owed && (!reclaimed || (owed' >= 0.0 && PaidInFull(policy, book0.bets[i]))) ==> held' == owed')
  {
    PrescribedDrops(book0, before, policy, i, user);
    RevertedBalance(book, i, user);
    assert book.bets[i].Winnings() == book0.bets[i].Winnings();
  }

  lemma CoveredStep(book0: Book, plan: Plan, policy: Policy, found: seq<nat>, user: int)
    requires found != [] && |plan| == |book0.bets| && Ascending(found, |plan|) && user in book0.funds
    ensures var init, last := found[..|found| - 1], found[|found| - 1];
            UserCovered(book0, plan, policy, found, user)
            <==> && UserCovered(book0, plan, policy, init, user)
                 && (plan[last] == Some(true) && book0.bets[last].userId == user ==>
                       && Prescribed(book0, Erase(plan, found), policy, user) >= 0.0
                       && PaidInFull(policy, book0.bets[last]))
  {
    var init, last := found[..|found| - 1], |found| - 1;
    assert found[..last + 1] == found;
    assert Misses(book0, plan, policy, found, last, user)
           <==> && plan[found[last]] == Some(true) && book0.bets[found[last]].userId == user
                && (|| Prescribed(book0, Erase(plan, found), policy, user) < 0.0
                    || !PaidInFull(policy, book0.bets[found[last]]));
    forall k | 0 <= k < |init|
      ensures Misses(book0, plan, policy, found, k, user) == Misses(book0, plan, policy, init, k, user)
    {
      assert init[..k + 1] == found[..k + 1];
    }
  }

  /** Reverts never leave a user short of the prescribed balance, and above it once a payout was
      clamped away. */
  lemma {:induction false} RevertsGain(book0: Book, book: Book, plan: Plan, policy: Policy, now: int, found: seq<nat>,
                                       user: int)
    requires Realises(book0, book, plan, policy, now)
    requires Ascending(found, |plan|) && user in book0.funds
    requires forall k | 0 <= k < |found| && book0.bets[found[k]].userId == user :: plan[found[k]].Some?
    ensures RevertEach(book, found).funds[user] >= Prescribed(book0, Erase(plan, found), policy, user)
    ensures RevertEach(book, found).funds[user] == Prescribed(book0, Erase(plan, found), policy, user)
            <==> UserCovered(book0, plan, policy, found, user)
  {
    if found == [] {
      assert Erase(plan, found) == plan;
    } else {
      var init, last := found[..|found| - 1], found[|found| - 1];
      ErasedStep(plan, found);
      RevertsGain(book0, book, plan, policy, now, init, user);
      RevertedRecord(book, init, last);
      RevertGains(book0, RevertEach(book, init), Erase(plan, init), policy, now, last, user);
      CoveredStep(book0, plan, policy, found, user);
    }
  }

  lemma BackInTheBook(book0: Book, book: Book, plan: Plan, policy: Policy, now: int, found: seq<nat>, k: nat)
    requires Realises(book0, book, plan, policy, now) && Ascending(found, |plan|) && k < |found|
             && book.bets[found[k]].settled
    ensures RevertEach(book, found).bets[found[k]] == book0.bets[found[k]] <==> TakesBack(book0, plan, found[k])
  {
    var i := found[k];
    RevertedRecord(book, found, i);
    if plan[i].Some? { ReopenRestoresIff(book0.bets[i], plan[i].value, now); }
  }

  ghost predicate AllTakeBack(book0: Book, plan: Plan, found: seq<nat>)
    requires |plan| == |book0.bets| && Ascending(found, |plan|)
  {
    forall k | 0 <= k < |found| :: TakesBack(book0, plan, found[k])
  }

  lemma RecordsReturnIff(book0: Book, book: Book, plan: Plan, policy: Policy, now: int, found: seq<nat>)
    requires Realises(book0, book, plan, policy, now) && Ascending(found, |plan|)
    requires forall k | 0 <= k < |found| :: book.bets[found[k]].settled
    ensures (forall i | 0 <= i < |plan| ::
               RevertEach(book, found).bets[i] == Planned(book0.bets[i], Erase(plan, found)[i], now))
            <==> AllTakeBack(book0, plan, found)
  {
    var after, erased := RevertEach(book, found), Erase(plan, found);
    forall k | 0 <= k < |found|
      ensures after.bets[found[k]] == Planned(book0.bets[found[k]], erased[found[k]], now)
              <==> TakesBack(book0, plan, found[k])
    {
      assert found[k] in found;
      BackInTheBook(book0, book, plan, policy, now, found, k);
    }
    forall i | 0 <= i < |plan| && i !in found ensures after.bets[i] == Planned(book0.bets[i], erased[i], now) {
      RevertedRecord(book, found, i);
    }
  }

  lemma BalancesReturnIff(book0: Book, book: Book, plan: Plan, policy: Policy, now: int, found: seq<nat>)
    requires Realises(book0, book, plan, policy, now) && Ascending(found, |plan|)
    requires AllTakeBack(book0, plan, found)
    ensures (forall u | u in book0.funds ::
               RevertEach(book, found).funds[u] == Prescribed(book0, Erase(plan, found), policy, u))
            <==> Covered(book0, plan, policy, found)
  {
    forall u | u in book0.funds
      ensures RevertEach(book, found).funds[u] == Prescribed(book0, Erase(plan, found), policy, u)
              <==> UserCovered(book0, plan, policy, found, u)
    {
      RevertsGain(book0, book, plan, policy, now, found, u);
    }
  }

  /** Reverting settled bets takes exactly their decisions out of the realised plan, records and
      balances alike, if and only if each of them takes back cleanly and every payout taken back had
      been paid and is covered. */
  lemma RevertsRealiseIff(book0: Book, book: Book, plan: Plan, policy: Policy, now: int, found: seq<nat>)
    requires Realises(book0, book, plan, policy, now) && Ascending(found, |plan|)
    requires forall k | 0 <= k < |found| :: book.bets[found[k]].settled
    ensures Realises(book0, RevertEach(book, found), Erase(plan, found), policy, now)
            <==> AllTakeBack(book0, plan, found) && Covered(book0, plan, policy, found)
  {
    RecordsReturnIff(book0, book, plan, policy, now, found);
    if AllTakeBack(book0, plan, found) {
      BalancesReturnIff(book0, book, plan, policy, now, found);
    }
  }

  // ---- reverting the future bets ----

  /** The part of a plan that closes bets whose match has come. */
  function DueBets(bets: seq<Bet>, plan: Plan, today: int): (r: Plan)
    requires |plan| == |bets|
    ensures |r| == |plan|
    ensures forall i | 0 <= i < |plan| :: r[i] == if bets[i].StillFuture(today) then None else plan[i]
  {
    seq(|plan|, i requires 0 <= i < |plan| => if bets[i].StillFuture(today) then None else plan[i])
  }

  lemma FutureIsFound(book0: Book, book: Book, plan: Plan, policy: Policy, now: int, today: int)
    requires Realises(book0, book, plan, policy, now)
    ensures var found := Select(book.bets, SettledForFuture(today));
            && Ascending(found, |plan|)
            && (forall i | 0 <= i < |plan| ::
                  i in found <==> book0.bets[i].StillFuture(today) && (plan[i].Some? || book0.bets[i].settled))
            && Erase(plan, found) == DueBets(book0.bets, plan, today)
  {
    var found := Select(book.bets, SettledForFuture(today));
    forall i | 0 <= i < |plan|
      ensures i in found <==> book0.bets[i].StillFuture(today) && (plan[i].Some? || book0.bets[i].settled)
    {
      assert book.bets[i] == Planned(book0.bets[i], plan[i], now);
    }
    assert Erase(plan, found) == DueBets(book0.bets, plan, today);
  }

  /** Settling and then reverting the future bets is settling without them, records and balances
      alike, if and only if the bets the revert finds take back cleanly and every payout taken back
      had been paid and is covered. */
  lemma RevertUndoesFutureIff(book0: Book, book: Book, plan: Plan, policy: Policy, now: int, today: int)
    requires Realises(book0, book, plan, policy, now)
    ensures var found := Select(book.bets, SettledForFuture(today));
            && Ascending(found, |plan|)
            && (Realises(book0, RevertFuture(book, today), DueBets(book0.bets, plan, today), policy, now)
                <==> AllTakeBack(book0, plan, found) && Covered(book0, plan, policy, found))
  {
    FutureIsFound(book0, book, plan, policy, now, today);
    RevertsRealiseIff(book0, book, plan, policy, now, Select(book.bets, SettledForFuture(today)));
  }

  // ---- when no winnings are negative ----

  /** No planned winner has negative winnings. */
  predicate NoNegativePayouts(bets: seq<Bet>, plan: Plan)
    requires |plan| == |bets|
  {
    forall i | 0 <= i < |plan| && plan[i] == Some(true) :: bets[i].Winnings() >= 0.0
  }

  lemma {:induction false} DueShrinks(bets: seq<Bet>, plan: Plan, found: seq<nat>, k: nat, policy: Policy, user: int)
    requires |plan| == |bets| && Ascending(found, |plan|) && k <= |found| && NoNegativePayouts(bets, plan)
    ensures Due(bets, Erase(plan, found), policy, {user}) <= Due(bets, Erase(plan, found[..k]), policy, {user})
  {
    if k < |found| {
      var init, last := found[..|found| - 1], found[|found| - 1];
      DueShrinks(bets, plan, init, k, policy, user);
      assert init[..k] == found[..k];
      ErasedStep(plan, found);
      DueChanges(bets, Erase(plan, init), policy, {user}, last, None);
    } else {
      assert found[..k] == found;
    }
  }

  lemma {:induction false} CoveredEnds(book0: Book, plan: Plan, policy: Policy, found: seq<nat>, k: nat, user: int)
    requires |plan| == |book0.bets| && Ascending(found, |plan|)
    requires user in book0.funds && UserCovered(book0, plan, policy, found, user)
    requires k < |found| && plan[found[k]] == Some(true) && book0.bets[found[k]].userId == user
    ensures Prescribed(book0, Erase(plan, found), policy, user) >= 0.0
  {
    var init, last := found[..|found| - 1], found[|found| - 1];
    ErasedStep(plan, found);
    CoveredStep(book0, plan, policy, found, user);
    if !(plan[last] == Some(true) && book0.bets[last].userId == user) {
      CoveredEnds(book0, plan, policy, init, k, user);
      PrescribedDrops(book0, Erase(plan, init), policy, last, user);
    }
  }

  /** Some payout of this user is taken back. */
  predicate Reclaims(book0: Book, plan: Plan, found: seq<nat>, user: int)
    requires |plan| == |book0.bets| && Ascending(found, |plan|)
  {
    exists k | 0 <= k < |found| :: plan[found[k]] == Some(true) && book0.bets[found[k]].userId == user
  }

  /** Without negative winnings only the balance in the end matters. */
  lemma UserCoveredIff(book0: Book, plan: Plan, policy: Policy, found: seq<nat>, user: int)
    requires |plan| == |book0.bets| && Ascending(found, |plan|) && NoNegativePayouts(book0.bets, plan)
             && user in book0.funds
    ensures UserCovered(book0, plan, policy, found, user)
            <==> (Reclaims(book0, plan, found, user) ==> Prescribed(book0, Erase(plan, found), policy, user) >= 0.0)
  {
    if Prescribed(book0, Erase(plan, found), policy, user) >= 0.0 {
      forall k | 0 <= k < |found| ensures !Misses(book0, plan, policy, found, k, user) {
        DueShrinks(book0.bets, plan, found, k + 1, policy, user);
      }
    }
    if UserCovered(book0, plan, policy, found, user) && Reclaims(book0, plan, found, user) {
      var k :| 0 <= k < |found| && plan[found[k]] == Some(true) && book0.bets[found[k]].userId == user;
      CoveredEnds(book0, plan, policy, found, k, user);
    }
  }

  // ---- sweep, then revert ----

  predicate BetUndoable(book: Book, bet: Bet) {
    match FirstVerdict(book.rows, bet)
    case None => bet.settled ==> bet.userId !in book.funds
    case Some(won) => bet.Fresh() && bet.userId in book.funds && (won ==> book.funds[bet.userId] >= 0.0)
  }

  /** What the bets must be like for a sweep that closes only future bets to be undone. */
  predicate Undoable(book: Book, today: int) {
    forall bet | bet in book.bets && bet.StillFuture(today) :: BetUndoable(book, bet)
  }

  lemma IdleRealised(book: Book, after: Book, policy: Policy, now: int)
    requires |after.bets| == |book.bets| && after.rows == book.rows && after.funds.Keys == book.funds.Keys
    ensures Realises(book, after, Idle(|book.bets|), policy, now)
            <==> after.bets == book.bets && after.funds == book.funds
  {
    forall u | u in book.funds ensures Due(book.bets, Idle(|book.bets|), policy, {u}) == 0.0 {
      IdleIsFree(book.bets, policy, {u});
    }
    if Realises(book, after, Idle(|book.bets|), policy, now) {
      forall u | u in book.funds ensures after.funds[u] == book.funds[u] {
        IdleIsFree(book.bets, policy, {u});
      }
      assert after.funds == book.funds && after.bets == book.bets;
    }
  }

  lemma NothingDue(book: Book, today: int)
    requires forall bet | bet in book.bets && FirstVerdict(book.rows, bet).Some? :: bet.StillFuture(today)
    ensures DueBets(book.bets, SweepPlan(book.rows, book.bets), today) == Idle(|book.bets|)
  {
  }

  /** The winning verdicts of one user. */
  predicate WinsSomething(book: Book, user: int) {
    exists bet | bet in book.bets :: bet.userId == user && FirstVerdict(book.rows, bet) == Some(true)
  }

  lemma ReclaimsIff(book: Book, plan: Plan, found: seq<nat>, today: int, user: int)
    requires plan == SweepPlan(book.rows, book.bets) && Ascending(found, |plan|)
    requires forall i | 0 <= i < |plan| ::
               i in found <==> book.bets[i].StillFuture(today) && (plan[i].Some? || book.bets[i].settled)
    requires forall bet | bet in book.bets && FirstVerdict(book.rows, bet).Some? :: bet.StillFuture(today)
    ensures Reclaims(book, plan, found, user) <==> WinsSomething(book, user)
  {
    if WinsSomething(book, user) {
      var bet :| bet in book.bets && bet.userId == user && FirstVerdict(book.rows, bet) == Some(true);
      var i :| 0 <= i < |book.bets| && book.bets[i] == bet;
      assert i in found;
      var k :| 0 <= k < |found| && found[k] == i;
    }
    if Reclaims(book, plan, found, user) {
      var k :| 0 <= k < |found| && plan[found[k]] == Some(true) && book.bets[found[k]].userId == user;
      assert book.bets[found[k]] in book.bets;
    }
  }

  /** The balance of one user, whatever the others owe: a sweep that closes only future bets, then
      reverted, gives it back if and only if it was not negative or no bet of the user won. */
  lemma BalanceReturnsIff(book: Book, now: int, today: int, user: int)
    requires user in book.funds && NoNegativePayouts(book.bets, SweepPlan(book.rows, book.bets))
    requires forall bet | bet in book.bets && FirstVerdict(book.rows, bet).Some? :: bet.StillFuture(today)
    requires forall bet | bet in book.bets && bet.userId == user && bet.StillFuture(today) :: !bet.settled
    ensures RevertFuture(SettleAllFinished(book, now).book, today).funds[user] == book.funds[user]
            <==> book.funds[user] >= 0.0 || !WinsSomething(book, user)
  {
    var plan, settled := SweepPlan(book.rows, book.bets), SettleAllFinished(book, now).book;
    var found := Select(settled.bets, SettledForFuture(today));
    SweepClosedForm(book, now);
    NothingDue(book, today);
    FutureIsFound(book, settled, plan, SWEEP, now, today);
    forall k | 0 <= k < |found| && book.bets[found[k]].userId == user ensures plan[found[k]].Some? {
      assert found[k] in found && book.bets[found[k]] in book.bets;
    }
    RevertsGain(book, settled, plan, SWEEP, now, found, user);
    UserCoveredIff(book, plan, SWEEP, found, user);
    ReclaimsIff(book, plan, found, today, user);
    IdleIsFree(book.bets, SWEEP, {user});
  }

  /** Undoable says of the bets what the revert asks of the positions it finds. */
  lemma UndoableIff(book: Book, plan: Plan, found: seq<nat>, today: int)
    requires plan == SweepPlan(book.rows, book.bets) && Ascending(found, |plan|)
    requires forall i | 0 <= i < |plan| ::
               i in found <==> book.bets[i].StillFuture(today) && (plan[i].Some? || book.bets[i].settled)
    requires forall bet | bet in book.bets && FirstVerdict(book.rows, bet).Some? :: bet.StillFuture(today)
    ensures Undoable(book, today)
            <==> && AllTakeBack(book, plan, found)
                 && (forall user | user in book.funds && WinsSomething(book, user) :: book.funds[user] >= 0.0)
  {
    if Undoable(book, today) {
      forall k | 0 <= k < |found| ensures TakesBack(book, plan, found[k]) {
        assert found[k] in found && book.bets[found[k]] in book.bets;
      }
    } else if AllTakeBack(book, plan, found) {
      var bet :| bet in book.bets && bet.StillFuture(today) && !BetUndoable(book, bet);
      var i :| 0 <= i < |book.bets| && book.bets[i] == bet;
      assert i in found;
      var k :| 0 <= k < |found| && found[k] == i;
      assert WinsSomething(book, bet.userId);
    }
  }

  /** The whole book: it comes back, records and balances, if and only if every future bet was
      fresh, with a known user and not settled before, and no winner was in debt. */
  lemma SweepThenRevertRestoresIff(book: Book, now: int, today: int)
    requires NoNegativePayouts(book.bets, SweepPlan(book.rows, book.bets))
    requires forall bet | bet in book.bets && FirstVerdict(book.rows, bet).Some? :: bet.StillFuture(today)
    ensures var restored := RevertFuture(SettleAllFinished(book, now).book, today);
            restored.bets == book.bets && restored.funds == book.funds <==> Undoable(book, today)
  {
    var plan, settled := SweepPlan(book.rows, book.bets), SettleAllFinished(book, now).book;
    var found := Select(settled.bets, SettledForFuture(today));
    SweepClosedForm(book, now);
    NothingDue(book, today);
    FutureIsFound(book, settled, plan, SWEEP, now, today);
    RevertUndoesFutureIff(book, settled, plan, SWEEP, now, today);
    IdleRealised(book, RevertFuture(settled, today), SWEEP, now);
    forall user | user in book.funds
      ensures UserCovered(book, plan, SWEEP, found, user) <==> (WinsSomething(book, user) ==> book.funds[user] >= 0.0)
    {
      UserCoveredIff(book, plan, SWEEP, found, user);
      ReclaimsIff(book, plan, found, today, user);
      IdleIsFree(book.bets, SWEEP, {user});
    }
    UndoableIff(book, plan, found, today);
  }
}
