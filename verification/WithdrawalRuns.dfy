/** Whole histories of the withdrawal desk and the bets of the same wallet: reserved funds, single
    unlocks, safe retries. */
module WithdrawalRuns {
  import opened Common
  import opened Withdrawals

  /** Money reserved for the open intents of a user. */
  function OpenTotal(intents: seq<Intent>, userId: int): real {
    if intents == [] then 0.0
    else
      var last := intents[|intents| - 1];
      OpenTotal(intents[..|intents| - 1], userId) + if last.userId == userId && last.Open() then last.amount else 0.0
  }

  /** Money reserved for the open bets of a user. */
  function StakeTotal(stakes: seq<Stake>, userId: int): real {
    if stakes == [] then 0.0
    else
      var last := stakes[|stakes| - 1];
      var reserved := last.userId == userId && last.status == Placed;
      StakeTotal(stakes[..|stakes| - 1], userId) + if reserved then last.amount else 0.0
  }

  /** Reserved money that no open intent and no open bet accounts for. */
  function Spare(bank: Bank, userId: int): real {
    WalletOf(bank, userId).reserved - OpenTotal(bank.intents, userId) - StakeTotal(bank.stakes, userId)
  }

  function Posted(ledger: seq<Entry>, kind: EntryKind, id: nat): nat {
    if ledger == [] then 0
    else
      var last := ledger[|ledger| - 1];
      Posted(ledger[..|ledger| - 1], kind, id) + if last.kind == kind && last.intent == Some(id) then 1 else 0
  }

  /** What every reachable bank satisfies. */
  ghost predicate Sound(bank: Bank) {
    && (forall id | 0 <= id < |bank.intents| :: bank.intents[id].amount > 0.0)
    && (forall k | 0 <= k < |bank.stakes| :: bank.stakes[k].amount > 0.0 && bank.stakes[k].odds > 0.0)
    && (forall u :: Spare(bank, u) >= 0.0)
    && (forall u :: WalletOf(bank, u).available >= 0.0)
    && (forall a, b | 0 <= a < b < |bank.intents| && bank.intents[a].requestId.Some?
                      && bank.intents[a].userId == bank.intents[b].userId ::
          bank.intents[a].requestId != bank.intents[b].requestId)
    && (forall id: nat :: Posted(bank.ledger, Lock, id) == if id < |bank.intents| then 1 else 0)
    && (forall id: nat ::
          Posted(bank.ledger, Unlock, id) == if id < |bank.intents| && !bank.intents[id].Open() then 1 else 0)
  }

  lemma {:induction false} OpenTotalChanges(intents: seq<Intent>, id: nat, status: Status, userId: int)
    requires id < |intents|
    ensures OpenTotal(intents[id := intents[id].(status := status)], userId)
            == OpenTotal(intents, userId)
               - (if intents[id].userId == userId && intents[id].Open() then intents[id].amount else 0.0)
               + (if intents[id].userId == userId && intents[id].(status := status).Open()
                  then intents[id].amount
                  else 0.0)
  {
    var last := |intents| - 1;
    var changed := intents[id := intents[id].(status := status)];
    if id == last {
      assert changed[..last] == intents[..last];
    } else {
      OpenTotalChanges(intents[..last], id, status, userId);
      assert changed[..last] == intents[..last][id := intents[id].(status := status)];
    }
  }

  lemma {:induction false} OpenTotalNonNegative(intents: seq<Intent>, userId: int)
    requires forall k | 0 <= k < |intents| :: intents[k].amount > 0.0
    ensures OpenTotal(intents, userId) >= 0.0
  {
    if intents == [] {
    } else {
      OpenTotalNonNegative(intents[..|intents| - 1], userId);
    }
  }

  lemma {:induction false} OpenTotalCovers(intents: seq<Intent>, id: nat)
    requires id < |intents| && intents[id].Open()
    requires forall k | 0 <= k < |intents| :: intents[k].amount > 0.0
    ensures OpenTotal(intents, intents[id].userId) >= intents[id].amount
  {
    var last := |intents| - 1;
    OpenTotalNonNegative(intents[..last], intents[id].userId);
    if id == last {
    } else {
      OpenTotalCovers(intents[..last], id);
    }
  }

  lemma PostedAppend(ledger: seq<Entry>, entry: Entry, kind: EntryKind, id: nat)
    ensures Posted(ledger + [entry], kind, id)
            == Posted(ledger, kind, id) + if entry.kind == kind && entry.intent == Some(id) then 1 else 0
  {
    assert (ledger + [entry])[..|ledger|] == ledger;
  }

  lemma {:induction false} StakeTotalNonNegative(stakes: seq<Stake>, userId: int)
    requires forall k | 0 <= k < |stakes| :: stakes[k].amount > 0.0
    ensures StakeTotal(stakes, userId) >= 0.0
  {
    if stakes == [] {
    } else {
      StakeTotalNonNegative(stakes[..|stakes| - 1], userId);
    }
  }

  /** In a sound bank the unlock of an open intent cannot fail: the swallowed error in cancel and
      reject never happens. */
  lemma UnlockNeverFails(bank: Bank, id: nat)
    requires Sound(bank) && id < |bank.intents| && bank.intents[id].Open()
    ensures UnlockBalance(bank, bank.intents[id].userId, bank.intents[id].amount, Some(id)).Some?
  {
    OpenTotalCovers(bank.intents, id);
    StakeTotalNonNegative(bank.stakes, bank.intents[id].userId);
    assert Spare(bank, bank.intents[id].userId) >= 0.0;
  }

  // ---- actions ----

  datatype Action =
    | DoInitiate(userId: int, request: Request)
    | DoCancel(id: nat, userId: int)
    | DoApprove(id: nat)
    | DoReject(id: nat)
    | DoCredit(userId: int, amount: real)
    | DoDebit(userId: int, amount: real)
    | DoStake(userId: int, amount: real, odds: real, accepted: bool)
    | DoSettleStake(k: nat, outcome: Outcome)
    | DoCancelStake(k: nat, userId: int, finished: bool)

  function Act(bank: Bank, action: Action, settings: Settings): Bank {
    match action
    case DoInitiate(userId, request) =>
      (match Initiate(bank, userId, request, settings) case HttpError(_) => bank case Ok((after, _)) => after)
    case DoCancel(id, userId) => (match Cancel(bank, id, userId) case HttpError(_) => bank case Ok(after) => after)
    case DoApprove(id) => (match Approve(bank, id) case HttpError(_) => bank case Ok(after) => after)
    case DoReject(id) => (match Reject(bank, id) case HttpError(_) => bank case Ok(after) => after)
    case DoCredit(userId, amount) =>
      (match CreditBalance(bank, userId, amount) case None => bank case Some(after) => after)
    case DoDebit(userId, amount) =>
      (match DebitBalance(bank, userId, amount) case None => bank case Some(after) => after)
    case DoStake(userId, amount, odds, accepted) =>
      (match PlaceStake(bank, userId, amount, odds, accepted) case None => bank case Some(after) => after)
    case DoSettleStake(k, outcome) => (match SettleStake(bank, k, outcome) case None => bank case Some(after) => after)
    case DoCancelStake(k, userId, finished) =>
      (match CancelStake(bank, k, userId, finished) case None => bank case Some(after) => after)
  }

  function Run(bank: Bank, actions: seq<Action>, settings: Settings): Bank {
    if actions == [] then bank
    else Act(Run(bank, actions[..|actions| - 1], settings), actions[|actions| - 1], settings)
  }

  // ---- each action keeps the bank sound ----

  lemma ReleaseMoves(bank: Bank, id: nat, status: Status, userId: int)
    requires Sound(bank) && id < |bank.intents| && bank.intents[id].status == Pending
    requires status == Cancelled || status == Rejected
    ensures var after := Release(bank, id, status);
            var moved := if userId == bank.intents[id].userId then bank.intents[id].amount else 0.0;
            && WalletOf(after, userId)
               == Wallet(WalletOf(bank, userId).available + moved, WalletOf(bank, userId).reserved - moved)
            && OpenTotal(after.intents, userId) == OpenTotal(bank.intents, userId) - moved
  {
    UnlockNeverFails(bank, id);
    OpenTotalChanges(bank.intents, id, status, userId);
  }

  lemma ReleasePosts(bank: Bank, id: nat, status: Status, kind: EntryKind, n: nat)
    requires Sound(bank) && id < |bank.intents| && bank.intents[id].status == Pending
    ensures Posted(Release(bank, id, status).ledger, kind, n)
            == Posted(bank.ledger, kind, n) + if kind == Unlock && n == id then 1 else 0
  {
    UnlockNeverFails(bank, id);
    PostedAppend(bank.ledger, Release(bank, id, status).ledger[|bank.ledger|], kind, n);
  }

  lemma ReleaseKeepsSound(bank: Bank, id: nat, status: Status)
    requires Sound(bank) && id < |bank.intents| && bank.intents[id].status == Pending
    requires status == Cancelled || status == Rejected
    ensures Sound(Release(bank, id, status))
  {
    var after := Release(bank, id, status);
    forall u ensures Spare(after, u) >= 0.0 && WalletOf(after, u).available >= 0.0 {
      ReleaseMoves(bank, id, status, u);
      assert Spare(bank, u) >= 0.0;
    }
    forall kind, n: nat
      ensures Posted(after.ledger, kind, n) == Posted(bank.ledger, kind, n) + if kind == Unlock && n == id then 1 else 0
    {
      ReleasePosts(bank, id, status, kind, n);
    }
    assert after.intents == bank.intents[id := bank.intents[id].(status := status)];
  }

  lemma ApproveKeepsSound(bank: Bank, id: nat)
    requires Sound(bank) && id < |bank.intents| && bank.intents[id].status == Pending
    ensures Sound(SetStatus(bank, id, Approved))
  {
    forall u
      ensures Spare(SetStatus(bank, id, Approved), u) >= 0.0
              && WalletOf(SetStatus(bank, id, Approved), u).available >= 0.0
    {
      OpenTotalChanges(bank.intents, id, Approved, u);
      assert Spare(bank, u) >= 0.0 && WalletOf(bank, u).available >= 0.0;
    }
  }

  lemma InitiateKeepsSound(bank: Bank, userId: int, request: Request, settings: Settings)
    requires Sound(bank) && Initiate(bank, userId, request, settings).Ok?
    ensures Sound(Initiate(bank, userId, request, settings).payload.0)
  {
    var after, id := Initiate(bank, userId, request, settings).payload.0, |bank.intents|;
    if after != bank {
      var intent := after.intents[id];
      assert after.intents == bank.intents + [intent];
      forall u ensures Spare(after, u) >= 0.0 && WalletOf(after, u).available >= 0.0 {
        assert after.intents[..id] == bank.intents;
        assert Spare(bank, u) >= 0.0 && WalletOf(bank, u).available >= 0.0;
      }
      var entry := after.ledger[|bank.ledger|];
      forall kind, n: nat
        ensures Posted(after.ledger, kind, n) == Posted(bank.ledger, kind, n) + if kind == Lock && n == id then 1 else 0
      {
        PostedAppend(bank.ledger, entry, kind, n);
      }
    }
  }

  /** Credits, debits and bets post entries that carry no intent. */
  ghost predicate PostsNoIntent(before: Bank, after: Bank) {
    && after.intents == before.intents
    && forall kind, n: nat :: Posted(after.ledger, kind, n) == Posted(before.ledger, kind, n)
  }

  lemma PostWithoutIntent(bank: Bank, userId: int, kind: EntryKind, amount: real, after: Wallet)
    ensures PostsNoIntent(bank, Post(bank, userId, kind, amount, after, None))
  {
    forall k, n: nat
      ensures Posted(Post(bank, userId, kind, amount, after, None).ledger, k, n) == Posted(bank.ledger, k, n)
    {
      PostedAppend(bank.ledger, Entry(userId, kind, amount, WalletOf(bank, userId), after, None), k, n);
    }
  }

  /** What keeps a bank sound when its intents stay as they are. */
  lemma SoundStays(bank: Bank, after: Bank)
    requires Sound(bank) && PostsNoIntent(bank, after)
    requires forall k | 0 <= k < |after.stakes| :: after.stakes[k].amount > 0.0 && after.stakes[k].odds > 0.0
    requires forall u :: Spare(after, u) == Spare(bank, u) && WalletOf(after, u).available >= 0.0
    ensures Sound(after)
  {
    forall u ensures Spare(after, u) >= 0.0 {
      assert Spare(bank, u) >= 0.0;
    }
  }

  /** Money that enters or leaves the available side without an intent. */
  lemma PlainEntryKeepsSound(bank: Bank, userId: int, kind: EntryKind, amount: real, after: Wallet)
    requires Sound(bank) && after.reserved == WalletOf(bank, userId).reserved && after.available >= 0.0
    ensures Sound(Post(bank, userId, kind, amount, after, None))
  {
    PostWithoutIntent(bank, userId, kind, amount, after);
    var posted := Post(bank, userId, kind, amount, after, None);
    forall u ensures Spare(posted, u) == Spare(bank, u) && WalletOf(posted, u).available >= 0.0 {
      assert WalletOf(bank, u).available >= 0.0;
    }
    SoundStays(bank, posted);
  }

  lemma CreditKeepsSound(bank: Bank, userId: int, amount: real)
    requires Sound(bank)
    ensures CreditBalance(bank, userId, amount).Some? ==> Sound(CreditBalance(bank, userId, amount).value)
  {
    var w := WalletOf(bank, userId);
    var after := w.(available := w.available + amount);
    assert w.available >= 0.0;
    if amount > 0.0 {
      PlainEntryKeepsSound(bank, userId, Credit, amount, after);
      assert CreditBalance(bank, userId, amount) == Some(Post(bank, userId, Credit, amount, after, None));
    }
  }

  lemma DebitKeepsSound(bank: Bank, userId: int, amount: real)
    requires Sound(bank)
    ensures DebitBalance(bank, userId, amount).Some? ==> Sound(DebitBalance(bank, userId, amount).value)
  {
    var w := WalletOf(bank, userId);
    var after := w.(available := w.available - amount);
    if 0.0 < amount <= w.available {
      PlainEntryKeepsSound(bank, userId, Debit, amount, after);
      assert DebitBalance(bank, userId, amount) == Some(Post(bank, userId, Debit, amount, after, None));
    }
  }

  // ---- bets of the internal wallet ----

  lemma {:induction false} StakeTotalCloses(stakes: seq<Stake>, k: nat, status: StakeStatus, userId: int)
    requires k < |stakes| && stakes[k].status == Placed && status != Placed
    ensures StakeTotal(stakes[k := stakes[k].(status := status)], userId)
            == StakeTotal(stakes, userId) - if stakes[k].userId == userId then stakes[k].amount else 0.0
  {
    var last := |stakes| - 1;
    var changed := stakes[k := stakes[k].(status := status)];
    if k == last {
      assert changed[..last] == stakes[..last];
    } else {
      StakeTotalCloses(stakes[..last], k, status, userId);
      assert changed[..last] == stakes[..last][k := stakes[k].(status := status)];
    }
  }

  lemma {:induction false} StakeTotalCovers(stakes: seq<Stake>, k: nat)
    requires k < |stakes| && stakes[k].status == Placed && forall j | 0 <= j < |stakes| :: stakes[j].amount > 0.0
    ensures StakeTotal(stakes, stakes[k].userId) >= stakes[k].amount
  {
    var last := |stakes| - 1;
    StakeTotalNonNegative(stakes[..last], stakes[k].userId);
    if k == last {
    } else {
      StakeTotalCovers(stakes[..last], k);
    }
  }

  /** In a sound bank the reserve holds every open stake, so settling or cancelling one never fails
      for want of reserved funds. */
  lemma StakeIsReserved(bank: Bank, k: nat)
    requires Sound(bank) && k < |bank.stakes| && bank.stakes[k].status == Placed
    ensures bank.stakes[k].amount > 0.0
    ensures WalletOf(bank, bank.stakes[k].userId).reserved >= bank.stakes[k].amount
  {
    StakeTotalCovers(bank.stakes, k);
    OpenTotalNonNegative(bank.intents, bank.stakes[k].userId);
    assert Spare(bank, bank.stakes[k].userId) >= 0.0;
  }

  /** Closing an open bet and taking its stake off the reserve, whatever goes to the available side. */
  lemma ClosedStakeKeepsSpare(bank: Bank, after: Bank, k: nat, status: StakeStatus, userId: int)
    requires k < |bank.stakes| && bank.stakes[k].status == Placed && status != Placed
    requires after.intents == bank.intents && after.stakes == CloseStake(bank, k, status).stakes
    requires WalletOf(after, userId).reserved
             == WalletOf(bank, userId).reserved - if userId == bank.stakes[k].userId then bank.stakes[k].amount else 0.0
    ensures Spare(after, userId) == Spare(bank, userId)
  {
    StakeTotalCloses(bank.stakes, k, status, userId);
  }

  lemma StakeConserves(bank: Bank, user: int, amount: real, odds: real, accepted: bool, userId: int)
    ensures var r := PlaceStake(bank, user, amount, odds, accepted);
            r.Some? ==> Total(r.value, userId) == Total(bank, userId) && Spare(r.value, userId) == Spare(bank, userId)
  {
    var stake := Stake(user, amount, odds, Placed);
    assert (bank.stakes + [stake])[..|bank.stakes|] == bank.stakes;
  }

  lemma PayoutIsPositive(amount: real, odds: real)
    requires amount > 0.0 && odds > 0.0
    ensures amount * odds > 0.0
  {
  }

  /** What an outcome makes of a stake. */
  function Result(stake: Stake, outcome: Outcome): real {
    match outcome
    case Win => stake.amount * stake.odds - stake.amount
    case Loss => -stake.amount
    case NoResult => 0.0
  }

  /** The deposits and winnings less the debits and lost stakes an action really books for a user. */
  function NetCredit(bank: Bank, action: Action, userId: int): real {
    match action
    case DoCredit(user, amount) => if user == userId && CreditBalance(bank, user, amount).Some? then amount else 0.0
    case DoDebit(user, amount) => if user == userId && DebitBalance(bank, user, amount).Some? then -amount else 0.0
    case DoSettleStake(k, outcome) =>
      if k < |bank.stakes| && bank.stakes[k].userId == userId && bank.stakes[k].status == Placed
      then Result(bank.stakes[k], outcome)
      else 0.0
    case _ => 0.0
  }

  lemma SettleStakeConserves(bank: Bank, k: nat, outcome: Outcome, userId: int)
    requires Sound(bank)
    ensures var r := SettleStake(bank, k, outcome);
            r.Some? ==>
              && Total(r.value, userId) == Total(bank, userId) + NetCredit(bank, DoSettleStake(k, outcome), userId)
              && Spare(r.value, userId) == Spare(bank, userId)
    ensures k < |bank.stakes| ==> SettleStake(bank, k, outcome).Some?
  {
    if k < |bank.stakes| && bank.stakes[k].status == Placed {
      var stake := bank.stakes[k];
      StakeIsReserved(bank, k);
      PayoutIsPositive(stake.amount, stake.odds);
      var status := match outcome case Win => StakeWon case Loss => StakeLost case NoResult => StakeVoid;
      ClosedStakeKeepsSpare(bank, SettleStake(bank, k, outcome).value, k, status, userId);
    }
  }

  lemma CancelStakeConserves(bank: Bank, k: nat, user: int, finished: bool, userId: int)
    ensures var r := CancelStake(bank, k, user, finished);
            r.Some? ==> Total(r.value, userId) == Total(bank, userId) && Spare(r.value, userId) == Spare(bank, userId)
  {
    if CancelStake(bank, k, user, finished).Some? {
      ClosedStakeKeepsSpare(bank, CancelStake(bank, k, user, finished).value, k, StakeCancelled, userId);
    }
  }

  lemma StakeKeepsSound(bank: Bank, userId: int, amount: real, odds: real, accepted: bool)
    requires Sound(bank)
    ensures PlaceStake(bank, userId, amount, odds, accepted).Some? ==>
              Sound(PlaceStake(bank, userId, amount, odds, accepted).value)
  {
    var r := PlaceStake(bank, userId, amount, odds, accepted);
    if r.Some? {
      var w := WalletOf(bank, userId);
      PostWithoutIntent(bank.(stakes := bank.stakes + [Stake(userId, amount, odds, Placed)]), userId, Lock, amount,
                        Wallet(w.available - amount, w.reserved + amount));
      forall u ensures Spare(r.value, u) == Spare(bank, u) && WalletOf(r.value, u).available >= 0.0 {
        StakeConserves(bank, userId, amount, odds, accepted, u);
        assert WalletOf(bank, u).available >= 0.0;
      }
      SoundStays(bank, r.value);
    }
  }

  lemma SettleStakePosts(bank: Bank, k: nat, outcome: Outcome)
    requires Sound(bank) && k < |bank.stakes| && bank.stakes[k].status == Placed
    ensures SettleStake(bank, k, outcome).Some? && PostsNoIntent(bank, SettleStake(bank, k, outcome).value)
  {
    var stake := bank.stakes[k];
    var user, amount, w := stake.userId, stake.amount, WalletOf(bank, stake.userId);
    StakeIsReserved(bank, k);
    PayoutIsPositive(amount, stake.odds);
    match outcome
    case NoResult =>
      PostWithoutIntent(bank, user, Unlock, amount, Wallet(w.available + amount, w.reserved - amount));
    case Loss =>
      PostWithoutIntent(bank, user, Deduct, amount, w.(reserved := w.reserved - amount));
    case Win =>
      var deducted := DeductReserved(bank, user, amount).value;
      var v := WalletOf(deducted, user);
      PostWithoutIntent(bank, user, Deduct, amount, w.(reserved := w.reserved - amount));
      PostWithoutIntent(deducted, user, Credit, amount * stake.odds,
                        v.(available := v.available + amount * stake.odds));
  }

  lemma SettleStakeLowersNothing(bank: Bank, k: nat, outcome: Outcome, userId: int)
    requires Sound(bank) && k < |bank.stakes|
    ensures SettleStake(bank, k, outcome).Some?
    ensures WalletOf(SettleStake(bank, k, outcome).value, userId).available >= WalletOf(bank, userId).available
  {
    if bank.stakes[k].status == Placed {
      StakeIsReserved(bank, k);
      PayoutIsPositive(bank.stakes[k].amount, bank.stakes[k].odds);
    }
  }

  lemma SettleStakeKeepsSound(bank: Bank, k: nat, outcome: Outcome)
    requires Sound(bank)
    ensures SettleStake(bank, k, outcome).Some? ==> Sound(SettleStake(bank, k, outcome).value)
  {
    if k < |bank.stakes| && bank.stakes[k].status == Placed {
      SettleStakePosts(bank, k, outcome);
      var after := SettleStake(bank, k, outcome).value;
      forall u ensures Spare(after, u) == Spare(bank, u) && WalletOf(after, u).available >= 0.0 {
        SettleStakeConserves(bank, k, outcome, u);
        SettleStakeLowersNothing(bank, k, outcome, u);
        assert WalletOf(bank, u).available >= 0.0;
      }
      SoundStays(bank, after);
    }
  }

  lemma CancelStakeKeepsSound(bank: Bank, k: nat, userId: int, finished: bool)
    requires Sound(bank)
    ensures CancelStake(bank, k, userId, finished).Some? ==> Sound(CancelStake(bank, k, userId, finished).value)
  {
    if CancelStake(bank, k, userId, finished).Some? {
      var w, amount := WalletOf(bank, userId), bank.stakes[k].amount;
      PostWithoutIntent(bank, userId, Unlock, amount, Wallet(w.available + amount, w.reserved - amount));
      var after := CancelStake(bank, k, userId, finished).value;
      forall u ensures Spare(after, u) == Spare(bank, u) && WalletOf(after, u).available >= 0.0 {
        CancelStakeConserves(bank, k, userId, finished, u);
        assert WalletOf(bank, u).available >= 0.0;
      }
      SoundStays(bank, after);
    }
  }

  lemma ActionKeepsSound(bank: Bank, action: Action, settings: Settings)
    requires Sound(bank)
    ensures Sound(Act(bank, action, settings))
  {
    match action
    case DoInitiate(userId, request) =>
      if Initiate(bank, userId, request, settings).Ok? { InitiateKeepsSound(bank, userId, request, settings); }
    case DoCancel(id, userId) =>
      if id < |bank.intents| && bank.intents[id].status == Pending { ReleaseKeepsSound(bank, id, Cancelled); }
    case DoApprove(id) =>
      if id < |bank.intents| && bank.intents[id].status == Pending { ApproveKeepsSound(bank, id); }
    case DoReject(id) =>
      if id < |bank.intents| && bank.intents[id].status == Pending { ReleaseKeepsSound(bank, id, Rejected); }
    case DoCredit(userId, amount) => CreditKeepsSound(bank, userId, amount);
    case DoDebit(userId, amount) => DebitKeepsSound(bank, userId, amount);
    case DoStake(userId, amount, odds, accepted) => StakeKeepsSound(bank, userId, amount, odds, accepted);
    case DoSettleStake(k, outcome) => SettleStakeKeepsSound(bank, k, outcome);
    case DoCancelStake(k, userId, finished) => CancelStakeKeepsSound(bank, k, userId, finished);
  }

  lemma EmptyBankIsSound()
    ensures Sound(Bank([], map[], [], []))
  {
  }

  /** In every reachable bank the reserved funds cover all open withdrawals and all open bets, each
      intent was locked exactly once, and unlocked exactly once if it was cancelled or rejected. */
  lemma {:induction false} SoundForever(bank: Bank, actions: seq<Action>, settings: Settings)
    requires Sound(bank)
    ensures Sound(Run(bank, actions, settings))
  {
    if actions == [] {
    } else {
      SoundForever(bank, actions[..|actions| - 1], settings);
      ActionKeepsSound(Run(bank, actions[..|actions| - 1], settings), actions[|actions| - 1], settings);
    }
  }

  // ---- conservation ----

  lemma CreditConserves(bank: Bank, user: int, amount: real, userId: int)
    ensures var r := CreditBalance(bank, user, amount);
            r.Some? ==>
              && Total(r.value, userId) == Total(bank, userId) + (if user == userId then amount else 0.0)
              && Spare(r.value, userId) == Spare(bank, userId)
  {
  }

  lemma DebitConserves(bank: Bank, user: int, amount: real, userId: int)
    ensures var r := DebitBalance(bank, user, amount);
            r.Some? ==>
              && Total(r.value, userId) == Total(bank, userId) - (if user == userId then amount else 0.0)
              && Spare(r.value, userId) == Spare(bank, userId)
  {
  }

  lemma ApproveConserves(bank: Bank, id: nat, userId: int)
    ensures id < |bank.intents| && bank.intents[id].status == Pending ==>
              var after := SetStatus(bank, id, Approved);
              after.wallets == bank.wallets && Spare(after, userId) == Spare(bank, userId)
  {
    if id < |bank.intents| { OpenTotalChanges(bank.intents, id, Approved, userId); }
  }

  lemma InitiateConserves(bank: Bank, user: int, request: Request, settings: Settings, userId: int)
    ensures var r := Initiate(bank, user, request, settings);
            r.Ok? ==>
              && Total(r.payload.0, userId) == Total(bank, userId)
              && Spare(r.payload.0, userId) == Spare(bank, userId)
  {
    var r := Initiate(bank, user, request, settings);
    if r.Ok? && r.payload.0 != bank {
      assert r.payload.0.intents[..|bank.intents|] == bank.intents;
    }
  }

  lemma ReleaseConserves(bank: Bank, id: nat, status: Status, userId: int)
    requires Sound(bank) && (status == Cancelled || status == Rejected)
    ensures id < |bank.intents| && bank.intents[id].status == Pending ==>
              var after := Release(bank, id, status);
              && Total(after, userId) == Total(bank, userId)
              && Spare(after, userId) == Spare(bank, userId)
  {
    if id < |bank.intents| && bank.intents[id].status == Pending {
      ReleaseMoves(bank, id, status, userId);
    }
  }

  /** Withdrawal requests and new or cancelled bets only move money between available and reserved, and
      nothing changes how much is reserved beyond the open intents and the open bets. */
  lemma ActionConserves(bank: Bank, action: Action, settings: Settings, userId: int)
    requires Sound(bank)
    ensures var after := Act(bank, action, settings);
            && Total(after, userId) == Total(bank, userId) + NetCredit(bank, action, userId)
            && Spare(after, userId) == Spare(bank, userId)
  {
    var after := Act(bank, action, settings);
    match action
    case DoInitiate(user, request) =>
      InitiateConserves(bank, user, request, settings, userId);
    case DoCancel(id, user) => ReleaseConserves(bank, id, Cancelled, userId);
    case DoApprove(id) => ApproveConserves(bank, id, userId);
    case DoReject(id) => ReleaseConserves(bank, id, Rejected, userId);
    case DoCredit(user, amount) => CreditConserves(bank, user, amount, userId);
    case DoDebit(user, amount) => DebitConserves(bank, user, amount, userId);
    case DoStake(user, amount, odds, accepted) => StakeConserves(bank, user, amount, odds, accepted, userId);
    case DoSettleStake(k, outcome) => SettleStakeConserves(bank, k, outcome, userId);
    case DoCancelStake(k, user, finished) => CancelStakeConserves(bank, k, user, finished, userId);
  }

  function NetCredits(bank: Bank, actions: seq<Action>, settings: Settings, userId: int): real {
    if actions == [] then 0.0
    else
      var init := actions[..|actions| - 1];
      NetCredits(bank, init, settings, userId) + NetCredit(Run(bank, init, settings), actions[|actions| - 1], userId)
  }

  /** Over any history a user's total changes by deposits, debits and the results of bets only, and the
      reserved funds by exactly what the open intents and the open bets ask for. */
  lemma {:induction false} RunConserves(bank: Bank, actions: seq<Action>, settings: Settings, userId: int)
    requires Sound(bank)
    ensures var after := Run(bank, actions, settings);
            && Total(after, userId) == Total(bank, userId) + NetCredits(bank, actions, settings, userId)
            && Spare(after, userId) == Spare(bank, userId)
  {
    if actions == [] {
    } else {
      var init := actions[..|actions| - 1];
      RunConserves(bank, init, settings, userId);
      SoundForever(bank, init, settings);
      ActionConserves(Run(bank, init, settings), actions[|actions| - 1], settings, userId);
    }
  }

  // ---- intents never change but for their status, and closed ones stay closed ----

  ghost predicate Extends(before: seq<Intent>, after: seq<Intent>) {
    && |before| <= |after|
    && forall id | 0 <= id < |before| ::
         && after[id].(status := before[id].status) == before[id]
         && (before[id].status != Pending ==> after[id].status == before[id].status)
  }

  lemma ActionAdvances(bank: Bank, action: Action, settings: Settings)
    ensures Extends(bank.intents, Act(bank, action, settings).intents)
  {
  }

  lemma {:induction false} IntentsOnlyAdvance(bank: Bank, actions: seq<Action>, settings: Settings)
    ensures Extends(bank.intents, Run(bank, actions, settings).intents)
  {
    if actions == [] {
    } else {
      IntentsOnlyAdvance(bank, actions[..|actions| - 1], settings);
      ActionAdvances(Run(bank, actions[..|actions| - 1], settings), actions[|actions| - 1], settings);
    }
  }

  predicate Ascending(s: seq<nat>) { forall j, k | 0 <= j < k < |s| :: s[j] < s[k] }

  lemma {:induction false} WithRequestIdAscends(intents: seq<Intent>, userId: int, requestId: string)
    ensures Ascending(WithRequestId(intents, userId, requestId))
  {
    if intents == [] {
    } else {
      WithRequestIdAscends(intents[..|intents| - 1], userId, requestId);
      var init := WithRequestId(intents[..|intents| - 1], userId, requestId);
      assert forall k | 0 <= k < |init| :: init[k] in init;
    }
  }

  lemma UniqueRequest(bank: Bank, userId: int, requestId: string, id: nat)
    requires Sound(bank) && id < |bank.intents|
    requires bank.intents[id].userId == userId && bank.intents[id].requestId == Some(requestId)
    ensures WithRequestId(bank.intents, userId, requestId) == [id]
  {
    var found := WithRequestId(bank.intents, userId, requestId);
    WithRequestIdAscends(bank.intents, userId, requestId);
    assert id in found;
    forall k | 0 <= k < |found| ensures found[k] == id {
      assert found[k] in found;
    }
    var first, last := found[0], found[|found| - 1];
  }

  lemma AcceptedIntent(bank: Bank, userId: int, request: Request, settings: Settings)
    requires Initiate(bank, userId, request, settings).Ok? && request.requestId.Some? && request.requestId.value != ""
    ensures var (accepted, id) := Initiate(bank, userId, request, settings).payload;
            && id < |accepted.intents|
            && accepted.intents[id].userId == userId
            && accepted.intents[id].requestId == request.requestId
  {
    var known := WithRequestId(bank.intents, userId, request.requestId.value);
    if known != [] { assert known[0] in known; }
  }

  /** Retrying an accepted request with the same non-empty request id, at any later time and with
      any amount, returns the first intent and locks nothing. */
  lemma RetryLocksNothing(bank: Bank, userId: int, request: Request, settings: Settings, actions: seq<Action>,
                          retry: Request)
    requires Sound(bank) && Initiate(bank, userId, request, settings).Ok?
    requires request.requestId.Some? && request.requestId.value != "" && retry.requestId == request.requestId
    requires retry.network == "TRC20" && retry.asset == "USDT"
    ensures var (accepted, id) := Initiate(bank, userId, request, settings).payload;
            var later := Run(accepted, actions, settings);
            Initiate(later, userId, retry, settings) == Ok((later, id))
  {
    var (accepted, id) := Initiate(bank, userId, request, settings).payload;
    var later := Run(accepted, actions, settings);
    AcceptedIntent(bank, userId, request, settings);
    InitiateKeepsSound(bank, userId, request, settings);
    SoundForever(accepted, actions, settings);
    IntentsOnlyAdvance(accepted, actions, settings);
    UniqueRequest(later, userId, request.requestId.value, id);
  }
}
