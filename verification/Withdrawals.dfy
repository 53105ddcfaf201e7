/** Withdrawal requests and bets over one wallet with available and reserved funds (USDT only). */
module Withdrawals {
  import opened Common

  datatype Status = Pending | Approved | Rejected | Cancelled

  /** A withdrawal intent; its id is its position in the table. */
  datatype Intent = Intent(userId: int, amount: real, requestId: Option<string>, status: Status)
  {
    /** Its amount is still reserved. */
    predicate Open() { status == Pending || status == Approved }
  }

  datatype Wallet = Wallet(available: real, reserved: real)

  datatype EntryKind = Lock | Unlock | Credit | Debit | Deduct

  /** An entry of the wallet's ledger; its kind is the movement, and only withdrawals name an intent. */
  datatype Entry = Entry(userId: int, kind: EntryKind, amount: real, before: Wallet, after: Wallet, intent: Option<nat>)

  datatype StakeStatus = Placed | StakeWon | StakeLost | StakeVoid | StakeCancelled

  /** A bet of the internal wallet; its id is its position in the table. */
  datatype Stake = Stake(userId: int, amount: real, odds: real, status: StakeStatus)

  datatype Bank = Bank(intents: seq<Intent>, wallets: map<int, Wallet>, ledger: seq<Entry>, stakes: seq<Stake>)

  /** get_or_create_balance: a missing wallet is an empty one. */
  function WalletOf(bank: Bank, userId: int): Wallet {
    if userId in bank.wallets then bank.wallets[userId] else Wallet(0.0, 0.0)
  }

  function Total(bank: Bank, userId: int): real {
    WalletOf(bank, userId).available + WalletOf(bank, userId).reserved
  }

  // ---- the wallet service; None is its ValueError ----

  function Post(bank: Bank, userId: int, kind: EntryKind, amount: real, after: Wallet, intent: Option<nat>): Bank {
    bank.(wallets := bank.wallets[userId := after],
          ledger := bank.ledger + [Entry(userId, kind, amount, WalletOf(bank, userId), after, intent)])
  }

  function LockBalance(bank: Bank, userId: int, amount: real, intent: Option<nat>): Option<Bank> {
    var w := WalletOf(bank, userId);
    if amount <= 0.0 || w.available < amount then None
    else Some(Post(bank, userId, Lock, amount, Wallet(w.available - amount, w.reserved + amount), intent))
  }

  function UnlockBalance(bank: Bank, userId: int, amount: real, intent: Option<nat>): Option<Bank> {
    var w := WalletOf(bank, userId);
    if amount <= 0.0 || w.reserved < amount then None
    else Some(Post(bank, userId, Unlock, amount, Wallet(w.available + amount, w.reserved - amount), intent))
  }

  function CreditBalance(bank: Bank, userId: int, amount: real): Option<Bank> {
    var w := WalletOf(bank, userId);
    if amount <= 0.0 then None
    else Some(Post(bank, userId, Credit, amount, w.(available := w.available + amount), None))
  }

  function DebitBalance(bank: Bank, userId: int, amount: real): Option<Bank> {
    var w := WalletOf(bank, userId);
    if amount <= 0.0 || w.available < amount then None
    else Some(Post(bank, userId, Debit, amount, w.(available := w.available - amount), None))
  }

  function DeductReserved(bank: Bank, userId: int, amount: real): Option<Bank> {
    var w := WalletOf(bank, userId);
    if amount <= 0.0 || w.reserved < amount then None
    else Some(Post(bank, userId, Deduct, amount, w.(reserved := w.reserved - amount), None))
  }

  // ---- bets of the internal wallet; None is the ValueError, after a rollback ----

  const MIN_STAKE: real := 1.0
  const MAX_STAKE: real := 10000.0

  /** place_bet, with what the match and the odds check say; the stake is locked. */
  function PlaceStake(bank: Bank, userId: int, amount: real, odds: real, accepted: bool): Option<Bank> {
    if amount < MIN_STAKE || amount > MAX_STAKE || odds < 1.01 || !accepted then None
    else LockBalance(bank.(stakes := bank.stakes + [Stake(userId, amount, odds, Placed)]), userId, amount, None)
  }

  function CloseStake(bank: Bank, k: nat, status: StakeStatus): Bank
    requires k < |bank.stakes|
  {
    bank.(stakes := bank.stakes[k := bank.stakes[k].(status := status)])
  }

  datatype Outcome = Win | Loss | NoResult

  /** settle_bet: a win consumes the stake and pays the full return, a loss consumes it, a void bet
      gives it back; a bet that is settled already is left alone. */
  function SettleStake(bank: Bank, k: nat, outcome: Outcome): Option<Bank> {
    if k >= |bank.stakes| then None
    else
      var stake := bank.stakes[k];
      if stake.status != Placed then Some(bank)
      else match outcome
        case Win =>
          (match DeductReserved(bank, stake.userId, stake.amount)
           case None => None
           case Some(deducted) =>
             match CreditBalance(deducted, stake.userId, stake.amount * stake.odds)
             case None => None
             case Some(paid) => Some(CloseStake(paid, k, StakeWon)))
        case Loss =>
          (match DeductReserved(bank, stake.userId, stake.amount)
           case None => None
           case Some(deducted) => Some(CloseStake(deducted, k, StakeLost)))
        case NoResult =>
          (match UnlockBalance(bank, stake.userId, stake.amount, None)
           case None => None
           case Some(unlocked) => Some(CloseStake(unlocked, k, StakeVoid)))
  }

  /** cancel_bet by its owner, as long as the match has no result. */
  function CancelStake(bank: Bank, k: nat, userId: int, finished: bool): Option<Bank> {
    if k >= |bank.stakes| || bank.stakes[k].userId != userId || bank.stakes[k].status != Placed || finished then None
    else match UnlockBalance(bank, userId, bank.stakes[k].amount, None)
      case None => None
      case Some(unlocked) => Some(CloseStake(unlocked, k, StakeCancelled))
  }

  // ---- the endpoints ----

  datatype Settings = Settings(minAmount: Option<real>, maxAmount: Option<real>)

  /** A request, with what the address validator and the limits service say about it. */
  datatype Request = Request(network: string, asset: string, amount: real, requestId: Option<string>,
                             addressValid: bool, withinLimits: bool)

  predicate BelowMinimum(settings: Settings, amount: real) {
    settings.minAmount.Some? && settings.minAmount.value != 0.0 && amount < settings.minAmount.value
  }

  predicate AboveMaximum(settings: Settings, amount: real) {
    settings.maxAmount.Some? && settings.maxAmount.value != 0.0 && amount > settings.maxAmount.value
  }

  /** The user's intents that carry this client request id. */
  function WithRequestId(intents: seq<Intent>, userId: int, requestId: string): (found: seq<nat>)
    ensures forall id: nat ::
              id in found
              <==> id < |intents| && intents[id].userId == userId && intents[id].requestId == Some(requestId)
  {
    if intents == [] then []
    else
      var last := |intents| - 1;
      var init := WithRequestId(intents[..last], userId, requestId);
      if intents[last].userId == userId && intents[last].requestId == Some(requestId) then init + [last] else init
  }

  /** initiate_withdrawal. A repeated non-empty request id returns the first intent untouched; a
      repeated empty one trips over the unique constraint. */
  function Initiate(bank: Bank, userId: int, request: Request, settings: Settings): Reply<(Bank, nat)> {
    if request.network != "TRC20" || request.asset != "USDT" then HttpError(400)
    else
      var known := if request.requestId.Some? then WithRequestId(bank.intents, userId, request.requestId.value) else [];
      if known != [] && request.requestId != Some("") then
        if |known| == 1 then Ok((bank, known[0])) else HttpError(500)
      else if !request.addressValid then HttpError(400)
      else if BelowMinimum(settings, request.amount) || AboveMaximum(settings, request.amount) then HttpError(400)
      else if request.amount > WalletOf(bank, userId).available then HttpError(400)
      else if !request.withinLimits then HttpError(403)
      else if known != [] then HttpError(500)
      else
        var id := |bank.intents|;
        var stored := bank.(intents := bank.intents + [Intent(userId, request.amount, request.requestId, Pending)]);
        match LockBalance(stored, userId, request.amount, Some(id))
        case None => HttpError(400)
        case Some(locked) => Ok((locked, id))
  }

  function SetStatus(bank: Bank, id: nat, status: Status): Bank
    requires id < |bank.intents|
  {
    bank.(intents := bank.intents[id := bank.intents[id].(status := status)])
  }

  /** Give the reserved amount back and close the intent; a failed unlock is swallowed. */
  function Release(bank: Bank, id: nat, status: Status): Bank
    requires id < |bank.intents|
  {
    var intent := bank.intents[id];
    var unlocked :=
      match UnlockBalance(bank, intent.userId, intent.amount, Some(id))
      case None => bank
      case Some(b) => b;
    SetStatus(unlocked, id, status)
  }

  /** cancel_withdrawal by the owner. */
  function Cancel(bank: Bank, id: nat, userId: int): Reply<Bank> {
    if id >= |bank.intents| || bank.intents[id].userId != userId then HttpError(404)
    else if bank.intents[id].status == Cancelled then Ok(bank)
    else if bank.intents[id].status != Pending then HttpError(409)
    else Ok(Release(bank, id, Cancelled))
  }

  /** admin_approve_withdrawal. */
  function Approve(bank: Bank, id: nat): Reply<Bank> {
    if id >= |bank.intents| then HttpError(404)
    else if bank.intents[id].status == Approved then Ok(bank)
    else if bank.intents[id].status != Pending then HttpError(409)
    else Ok(SetStatus(bank, id, Approved))
  }

  /** admin_reject_withdrawal. */
  function Reject(bank: Bank, id: nat): Reply<Bank> {
    if id >= |bank.intents| then HttpError(404)
    else if bank.intents[id].status == Rejected then Ok(bank)
    else if bank.intents[id].status != Pending then HttpError(409)
    else Ok(Release(bank, id, Rejected))
  }
}
