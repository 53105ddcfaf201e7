/** Settlement in closed form. A plan says, bet by bet, whether it is closed and how; a run
    realises a plan when every record, balance and total is the one the plan prescribes. */
module Plans {
  import opened Common
  import opened Records
  import opened Settlement

  type Plan = seq<Option<bool>>

  function Planned(bet: Bet, decision: Option<bool>, now: int): Bet {
    if decision.Some? then bet.Close(decision.value, now) else bet
  }

  /** What one decision pays to a set of users. */
  function DueOf(bet: Bet, decision: Option<bool>, policy: Policy, users: set<int>): real {
    if decision.Some? && bet.userId in users then Payout(policy, bet, decision.value) else 0.0
  }

  function Due(bets: seq<Bet>, plan: Plan, policy: Policy, users: set<int>): real
    requires |plan| == |bets|
  {
    if bets == [] then 0.0
    else
      var last := |bets| - 1;
      Due(bets[..last], plan[..last], policy, users) + DueOf(bets[last], plan[last], policy, users)
  }

  function Count(plan: Plan): nat {
    if plan == [] then 0 else Count(plan[..|plan| - 1]) + if plan[|plan| - 1].Some? then 1 else 0
  }

  /** Records and balances are those of book0 with the plan carried out. */
  ghost predicate Realises(book0: Book, book: Book, plan: Plan, policy: Policy, now: int) {
    && |plan| == |book0.bets| == |book.bets|
    && book.rows == book0.rows
    && book.funds.Keys == book0.funds.Keys
    && (forall i | 0 <= i < |plan| :: plan[i].Some? ==> !book0.bets[i].settled)
    && (forall i | 0 <= i < |plan| :: book.bets[i] == Planned(book0.bets[i], plan[i], now))
    && (forall u | u in book0.funds :: book.funds[u] == book0.funds[u] + Due(book0.bets, plan, policy, {u}))
  }

  /** The reported totals are the number of closed bets and the money the plan pays out. */
  ghost predicate Reports(book0: Book, tally: Tally, plan: Plan, policy: Policy)
    requires |plan| == |book0.bets|
  {
    tally.settled == Count(plan) && tally.winnings == Due(book0.bets, plan, policy, book0.funds.Keys)
  }

  function Idle(n: nat): (plan: Plan)
    ensures |plan| == n && forall i | 0 <= i < n :: plan[i].None?
  {
    seq(n, i => None)
  }

  lemma {:induction false} IdleIsFree(bets: seq<Bet>, policy: Policy, users: set<int>)
    ensures Due(bets, Idle(|bets|), policy, users) == 0.0
    ensures Count(Idle(|bets|)) == 0
  {
    if bets == [] {
    } else {
      var last := |bets| - 1;
      IdleIsFree(bets[..last], policy, users);
      assert Idle(|bets|)[..last] == Idle(last);
    }
  }

  /** Changing one decision changes what is due by exactly that decision. */
  lemma {:induction false} DueChanges(bets: seq<Bet>, plan: Plan, policy: Policy, users: set<int>, i: nat,
                                      decision: Option<bool>)
    requires i < |plan| == |bets|
    ensures Due(bets, plan[i := decision], policy, users)
            == Due(bets, plan, policy, users) - DueOf(bets[i], plan[i], policy, users)
               + DueOf(bets[i], decision, policy, users)
  {
    var last := |bets| - 1;
    if i == last {
      assert plan[i := decision][..last] == plan[..last];
    } else {
      DueChanges(bets[..last], plan[..last], policy, users, i, decision);
      assert plan[i := decision][..last] == plan[..last][i := decision];
    }
  }

  lemma {:induction false} CountChanges(plan: Plan, i: nat, decision: Option<bool>)
    requires i < |plan|
    ensures Count(plan[i := decision])
            == Count(plan) - (if plan[i].Some? then 1 else 0) + (if decision.Some? then 1 else 0)
  {
    var last := |plan| - 1;
    if i == last {
      assert plan[i := decision][..last] == plan[..last];
    } else {
      CountChanges(plan[..last], i, decision);
      assert plan[i := decision][..last] == plan[..last][i := decision];
    }
  }

  /** What settling one bet does to one balance. */
  lemma SettledBalance(book: Book, pick: Pick, policy: Policy, now: int, user: int)
    requires pick.bet < |book.bets| && user in book.funds
    ensures SettleBet(book, pick, policy, now).funds[user]
            == book.funds[user] + DueOf(book.bets[pick.bet], Some(pick.won), policy, {user})
  {
  }

  /** Settling one open bet adds one decision to the realised plan. */
  lemma SettleRealises(book0: Book, tally: Tally, plan: Plan, pick: Pick, policy: Policy, now: int)
    requires Realises(book0, tally.book, plan, policy, now) && Reports(book0, tally, plan, policy)
    requires pick.bet < |plan| && !tally.book.bets[pick.bet].settled
    ensures var after, plan' := SettleCounted(tally, pick, policy, now), plan[pick.bet := Some(pick.won)];
            Realises(book0, after.book, plan', policy, now) && Reports(book0, after, plan', policy)
  {
    var i, decision := pick.bet, Some(pick.won);
    forall u | u in book0.funds
      ensures SettleBet(tally.book, pick, policy, now).funds[u]
              == book0.funds[u] + Due(book0.bets, plan[i := decision], policy, {u})
    {
      DueChanges(book0.bets, plan, policy, {u}, i, decision);
      SettledBalance(tally.book, pick, policy, now, u);
    }
    DueChanges(book0.bets, plan, policy, book0.funds.Keys, i, decision);
    CountChanges(plan, i, decision);
  }

  /** Distinct open bets. */
  ghost predicate Sound(bets: seq<Bet>, picks: seq<Pick>) {
    && (forall k | 0 <= k < |picks| :: picks[k].bet < |bets| && !bets[picks[k].bet].settled)
    && (forall j, k | 0 <= j < k < |picks| :: picks[j].bet != picks[k].bet)
  }

  function Overlay(plan: Plan, picks: seq<Pick>): (r: Plan)
    requires PicksFit(picks, |plan|)
    ensures |r| == |plan|
  {
    if picks == [] then plan
    else
      var last := picks[|picks| - 1];
      Overlay(plan, picks[..|picks| - 1])[last.bet := Some(last.won)]
  }

  ghost predicate Picked(picks: seq<Pick>, i: nat) {
    exists k :: 0 <= k < |picks| && picks[k].bet == i
  }

  lemma MemberIsPicked(picks: seq<Pick>, pick: Pick)
    requires pick in picks
    ensures Picked(picks, pick.bet)
  {
    var k :| 0 <= k < |picks| && picks[k] == pick;
  }

  lemma {:induction false} OverlayAt(plan: Plan, picks: seq<Pick>, i: nat)
    requires PicksFit(picks, |plan|) && i < |plan|
    ensures !Picked(picks, i) ==> Overlay(plan, picks)[i] == plan[i]
    ensures Picked(picks, i) ==>
              exists k :: 0 <= k < |picks| && picks[k].bet == i && Overlay(plan, picks)[i] == Some(picks[k].won)
  {
    if picks == [] {
    } else {
      var last := |picks| - 1;
      var init := picks[..last];
      OverlayAt(plan, init, i);
      if picks[last].bet != i {
        assert Picked(init, i) <==> Picked(picks, i) by {
          assert forall k | 0 <= k < last :: picks[k] == init[k];
        }
        if Picked(init, i) {
          var k :| 0 <= k < last && init[k].bet == i && Overlay(plan, init)[i] == Some(init[k].won);
          assert picks[k].bet == i && Overlay(plan, picks)[i] == Some(picks[k].won);
        }
      }
    }
  }

  /** The overlay is the plan that follows every pick and is unchanged elsewhere. */
  lemma OverlayIs(plan: Plan, picks: seq<Pick>, plan': Plan)
    requires PicksFit(picks, |plan|) && |plan'| == |plan|
    requires forall k | 0 <= k < |picks| :: plan'[picks[k].bet] == Some(picks[k].won)
    requires forall i | 0 <= i < |plan| :: Picked(picks, i) || plan'[i] == plan[i]
    ensures Overlay(plan, picks) == plan'
  {
    forall i | 0 <= i < |plan| ensures Overlay(plan, picks)[i] == plan'[i] {
      OverlayAt(plan, picks, i);
    }
  }

  /** Settling distinct open bets realises the plan with those decisions laid over it. */
  lemma {:induction false} PicksRealise(book0: Book, tally: Tally, plan: Plan, picks: seq<Pick>, policy: Policy,
                                        now: int)
    requires Realises(book0, tally.book, plan, policy, now) && Reports(book0, tally, plan, policy)
    requires Sound(tally.book.bets, picks)
    ensures var after, plan' := SettlePicks(tally, picks, policy, now), Overlay(plan, picks);
            Realises(book0, after.book, plan', policy, now) && Reports(book0, after, plan', policy)
  {
    if picks == [] {
    } else {
      var last := |picks| - 1;
      var before := SettlePicks(tally, picks[..last], policy, now);
      PicksRealise(book0, tally, plan, picks[..last], policy, now);
      OverlayAt(plan, picks[..last], picks[last].bet);
      SettleRealises(book0, before, Overlay(plan, picks[..last]), picks[last], policy, now);
    }
  }

  lemma StartRealises(book: Book, policy: Policy, now: int)
    ensures Realises(book, book, Idle(|book.bets|), policy, now)
    ensures Reports(book, Tally(book, 0, 0.0), Idle(|book.bets|), policy)
  {
    forall users: set<int> ensures Due(book.bets, Idle(|book.bets|), policy, users) == 0.0 {
      IdleIsFree(book.bets, policy, users);
    }
    IdleIsFree(book.bets, policy, {});
  }

  /** A run from scratch realises the decisions it makes. */
  lemma FreshRunRealises(book: Book, picks: seq<Pick>, policy: Policy, now: int)
    requires Sound(book.bets, picks)
    ensures var after, plan := SettlePicks(Tally(book, 0, 0.0), picks, policy, now), Overlay(Idle(|book.bets|), picks);
            Realises(book, after.book, plan, policy, now) && Reports(book, after, plan, policy)
  {
    StartRealises(book, policy, now);
    PicksRealise(book, Tally(book, 0, 0.0), Idle(|book.bets|), picks, policy, now);
  }

  /** Records, balances and totals coincide; ledgers may list the entries in another order. */
  ghost predicate SameOutcome(a: Tally, b: Tally) {
    a.book.bets == b.book.bets && a.book.funds == b.book.funds && a.settled == b.settled && a.winnings == b.winnings
  }

  predicate NoNegativeWinnings(bets: seq<Bet>) { forall i | 0 <= i < |bets| :: bets[i].Winnings() >= 0.0 }

  /** The two policies pay the same on these bets. */
  predicate PayAlike(policy: Policy, policy': Policy, bets: seq<Bet>) {
    policy.positiveOnly == policy'.positiveOnly || NoNegativeWinnings(bets)
  }

  /** Different decisions about an open bet leave different records. */
  lemma DecisionShows(bet: Bet, decision: Option<bool>, decision': Option<bool>, now: int)
    requires decision != decision' && !bet.settled
    ensures Planned(bet, decision, now) != Planned(bet, decision', now)
  {
  }

  lemma {:induction false} DueIgnoresChannel(bets: seq<Bet>, plan: Plan, policy: Policy, policy': Policy,
                                             users: set<int>)
    requires |plan| == |bets| && PayAlike(policy, policy', bets)
    ensures Due(bets, plan, policy, users) == Due(bets, plan, policy', users)
  {
    if bets == [] {
    } else {
      DueIgnoresChannel(bets[..|bets| - 1], plan[..|bets| - 1], policy, policy', users);
    }
  }

  lemma OnePlanOneOutcome(book0: Book, a: Tally, book1: Book, b: Tally, plan: Plan, policy: Policy, policy': Policy,
                          now: int)
    requires book0.bets == book1.bets && book0.funds == book1.funds && PayAlike(policy, policy', book0.bets)
    requires Realises(book0, a.book, plan, policy, now) && Reports(book0, a, plan, policy)
    requires Realises(book1, b.book, plan, policy', now) && Reports(book1, b, plan, policy')
    ensures SameOutcome(a, b)
  {
    DueIgnoresChannel(book0.bets, plan, policy, policy', book0.funds.Keys);
    forall u | u in book0.funds ensures a.book.funds[u] == b.book.funds[u] {
      DueIgnoresChannel(book0.bets, plan, policy, policy', {u});
    }
    assert a.book.funds == b.book.funds;
  }

  /** Two runs over the same records and balances end alike exactly when their plans agree. */
  lemma PlansDecide(book0: Book, a: Tally, plan: Plan, book1: Book, b: Tally, plan': Plan,
                    policy: Policy, policy': Policy, now: int)
    requires book0.bets == book1.bets && book0.funds == book1.funds && PayAlike(policy, policy', book0.bets)
    requires Realises(book0, a.book, plan, policy, now) && Reports(book0, a, plan, policy)
    requires Realises(book1, b.book, plan', policy', now) && Reports(book1, b, plan', policy')
    ensures SameOutcome(a, b) <==> plan == plan'
    ensures a.book.bets == b.book.bets <==> plan == plan'
  {
    if plan == plan' {
      OnePlanOneOutcome(book0, a, book1, b, plan, policy, policy', now);
    } else {
      var i :| 0 <= i < |plan| && plan[i] != plan'[i];
      DecisionShows(book0.bets[i], plan[i], plan'[i], now);
      assert a.book.bets[i] != b.book.bets[i];
    }
  }
}
