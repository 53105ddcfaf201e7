/** The withdrawal endpoints over mutable tables. Every method finds the bank sound and leaves it
    sound: reserved funds cover the open intents, and each was locked and unlocked as often as its
    status says. */
module WithdrawalDesk {
  import opened Common
  import opened Withdrawals
  import opened WithdrawalRuns

  lemma InitiatedIsOwn(bank: Bank, userId: int, request: Request, settings: Settings)
    requires Initiate(bank, userId, request, settings).Ok?
    ensures var (after, id) := Initiate(bank, userId, request, settings).payload;
            id < |after.intents| && after.intents[id].userId == userId
  {
    if request.requestId.Some? {
      var known := WithRequestId(bank.intents, userId, request.requestId.value);
      if known != [] { assert known[0] in known; }
    }
  }

  lemma InitiateIsSafe(bank: Bank, userId: int, request: Request, settings: Settings)
    requires Sound(bank)
    ensures match Initiate(bank, userId, request, settings)
            case HttpError(_) => true
            case Ok((after, id)) =>
              && Sound(after) && (forall u: int :: Total(after, u) == Total(bank, u))
              && id < |after.intents| && after.intents[id].userId == userId
  {
    if Initiate(bank, userId, request, settings).Ok? {
      InitiateKeepsSound(bank, userId, request, settings);
      forall u: int ensures Total(Initiate(bank, userId, request, settings).payload.0, u) == Total(bank, u) {
        InitiateConserves(bank, userId, request, settings, u);
      }
      InitiatedIsOwn(bank, userId, request, settings);
    }
  }

  /** Cancelling or rejecting a pending intent: the unlock succeeds, nobody's total moves. */
  lemma CloseIsSafe(bank: Bank, id: nat, status: Status)
    requires Sound(bank) && id < |bank.intents| && bank.intents[id].status == Pending
    requires status == Cancelled || status == Rejected
    ensures UnlockBalance(bank, bank.intents[id].userId, bank.intents[id].amount, Some(id)).Some?
    ensures Sound(Release(bank, id, status)) && forall u: int :: Total(Release(bank, id, status), u) == Total(bank, u)
  {
    UnlockNeverFails(bank, id);
    ReleaseKeepsSound(bank, id, status);
    forall u: int ensures Total(Release(bank, id, status), u) == Total(bank, u) {
      ReleaseConserves(bank, id, status, u);
    }
  }

  class Desk {
    var intents: seq<Intent>
    var wallets: map<int, Wallet>
    var ledger: seq<Entry>
    var stakes: seq<Stake>
    const settings: Settings

    function Contents(): Bank
      reads this
    {
      Bank(intents, wallets, ledger, stakes)
    }

    constructor (settings: Settings)
      ensures Contents() == Bank([], map[], [], []) && this.settings == settings && Sound(Contents())
    {
      this.settings := settings;
      intents, wallets, ledger, stakes := [], map[], [], [];
      new;
      EmptyBankIsSound();
    }

    method LockFunds(userId: int, amount: real, intent: Option<nat>) returns (ok: bool)
      modifies this`wallets, this`ledger
      ensures match LockBalance(old(Contents()), userId, amount, intent)
              case None => !ok && Contents() == old(Contents())
              case Some(after) => ok && Contents() == after
    {
      var before := WalletOf(Contents(), userId);
      if amount <= 0.0 {
        return false;
      }
      if before.available < amount {
        return false;
      }
      var after := Wallet(before.available - amount, before.reserved + amount);
      wallets := wallets[userId := after];
      ledger := ledger + [Entry(userId, Lock, amount, before, after, intent)];
      ok := true;
    }

    method UnlockFunds(userId: int, amount: real, intent: Option<nat>) returns (ok: bool)
      modifies this`wallets, this`ledger
      ensures match UnlockBalance(old(Contents()), userId, amount, intent)
              case None => !ok && Contents() == old(Contents())
              case Some(after) => ok && Contents() == after
    {
      var before := WalletOf(Contents(), userId);
      if amount <= 0.0 {
        return false;
      }
      if before.reserved < amount {
        return false;
      }
      var after := Wallet(before.available + amount, before.reserved - amount);
      wallets := wallets[userId := after];
      ledger := ledger + [Entry(userId, Unlock, amount, before, after, intent)];
      ok := true;
    }

    method InitiateWithdrawal(userId: int, request: Request) returns (reply: Reply<nat>)
      requires Sound(Contents())
      modifies this
      ensures Sound(Contents()) && forall u: int :: Total(Contents(), u) == old(Total(Contents(), u))
      ensures reply.Ok? ==> reply.payload < |intents| && intents[reply.payload].userId == userId
      ensures match Initiate(old(Contents()), userId, request, settings)
              case HttpError(code) => reply == HttpError(code) && Contents() == old(Contents())
              case Ok((after, id)) => reply == Ok(id) && Contents() == after
    {
      InitiateIsSafe(Contents(), userId, request, settings);
      if request.network != "TRC20" {
        return HttpError(400);
      }
      if request.asset != "USDT" {
        return HttpError(400);
      }
      var known := if request.requestId.Some? then WithRequestId(intents, userId, request.requestId.value) else [];
      if request.requestId.Some? && request.requestId.value != "" && known != [] {
        if |known| > 1 {
          return HttpError(500);
        }
        return Ok(known[0]);
      }
      if !request.addressValid {
        return HttpError(400);
      }
      if BelowMinimum(settings, request.amount) {
        return HttpError(400);
      }
      if AboveMaximum(settings, request.amount) {
        return HttpError(400);
      }
      if request.amount > WalletOf(Contents(), userId).available {
        return HttpError(400);
      }
      if !request.withinLimits {
        return HttpError(403);
      }
      if known != [] {
        return HttpError(500);
      }
      var id, saved := |intents|, intents;
      intents := intents + [Intent(userId, request.amount, request.requestId, Pending)];
      var ok := LockFunds(userId, request.amount, Some(id));
      if !ok {
        intents := saved;
        return HttpError(400);
      }
      return Ok(id);
    }

    method CancelWithdrawal(id: nat, userId: int) returns (reply: Reply<()>)
      requires Sound(Contents())
      modifies this
      ensures Sound(Contents()) && forall u: int :: Total(Contents(), u) == old(Total(Contents(), u))
      ensures reply.Ok? ==> id < |intents| && intents[id].status == Cancelled
      ensures match Cancel(old(Contents()), id, userId)
              case HttpError(code) => reply == HttpError(code) && Contents() == old(Contents())
              case Ok(after) => reply == Ok(()) && Contents() == after
    {
      if id >= |intents| || intents[id].userId != userId {
        return HttpError(404);
      }
      if intents[id].status == Cancelled {
        return Ok(());
      }
      if intents[id].status != Pending {
        return HttpError(409);
      }
      CloseIsSafe(Contents(), id, Cancelled);
      var unlocked := UnlockFunds(userId, intents[id].amount, Some(id));
      assert unlocked;
      intents := intents[id := intents[id].(status := Cancelled)];
      return Ok(());
    }

    method AdminApproveWithdrawal(id: nat) returns (reply: Reply<()>)
      requires Sound(Contents())
      modifies this`intents
      ensures Sound(Contents())
      ensures reply.Ok? ==> id < |intents| && intents[id].status == Approved
      ensures match Approve(old(Contents()), id)
              case HttpError(code) => reply == HttpError(code) && Contents() == old(Contents())
              case Ok(after) => reply == Ok(()) && Contents() == after
    {
      if id >= |intents| {
        return HttpError(404);
      }
      if intents[id].status == Approved {
        return Ok(());
      }
      if intents[id].status != Pending {
        return HttpError(409);
      }
      ApproveKeepsSound(Contents(), id);
      intents := intents[id := intents[id].(status := Approved)];
      return Ok(());
    }

    method AdminRejectWithdrawal(id: nat) returns (reply: Reply<()>)
      requires Sound(Contents())
      modifies this
      ensures Sound(Contents()) && forall u: int :: Total(Contents(), u) == old(Total(Contents(), u))
      ensures reply.Ok? ==> id < |intents| && intents[id].status == Rejected
      ensures match Reject(old(Contents()), id)
              case HttpError(code) => reply == HttpError(code) && Contents() == old(Contents())
              case Ok(after) => reply == Ok(()) && Contents() == after
    {
      if id >= |intents| {
        return HttpError(404);
      }
      if intents[id].status == Rejected {
        return Ok(());
      }
      if intents[id].status != Pending {
        return HttpError(409);
      }
      CloseIsSafe(Contents(), id, Rejected);
      var unlocked := UnlockFunds(intents[id].userId, intents[id].amount, Some(id));
      assert unlocked;
      intents := intents[id := intents[id].(status := Rejected)];
      return Ok(());
    }
  }
}
