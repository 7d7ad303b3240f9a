/** The process-transfer edge function: validates a transfer request and either settles
    it at once (internal transfers) or holds the funds behind a pending ledger row
    (wire and local transfers), rolling the sender's balance back when a later write fails. */
module ProcessTransfer {
  import opened Js
  import opened Store

  /** The JSON body. `kind` is the `type` field; `amount` is None when missing or NaN. */
  datatype Request = Request(
    kind: string,
    amount: Option<int>,
    accountType: string,
    recipientEmail: Option<string>,
    recipientAccountNumber: Option<string>,
    bankName: Option<string>,
    routingNumber: Option<string>,
    swiftCode: Option<string>,
    iban: Option<string>,
    description: Option<string>,
    beneficiaryId: Option<string>)

  /** The errors the handler throws, in the order it checks them. */
  datatype TransferError =
    | NoAuthorizationHeader
    | Unauthorized
    | InvalidAmount
    | ProfileNotFound
    | InsufficientBalance(accountType: string, available: int)
    | RecipientRequired
    | RecipientNotFound
    | SelfTransfer
    | SenderUpdateFailed
    | RecipientUpdateFailed
    | LockFundsFailed
    | CreateTransactionFailed

  /** `{success: true, reference, newBalance}` for a settled transfer, the same with
      `status: "pending"` for a held one, `{success: false, error}` otherwise. */
  datatype Reply =
    | Settled(reference: string, newBalance: int)
    | Held(reference: string, newBalance: int)
    | Refused(error: TransferError)

  /** Which of the writes whose errors the handler checks fail this time: the write of the
      sender's balance (both paths), the recipient's balance (internal) and the pending row (wire/local). */
  datatype WriteFaults = WriteFaults(debitFails: bool, creditFails: bool, insertFails: bool)

  /** `!body.amount || body.amount <= 0` rejects; so an amount passes only when present and positive. */
  predicate ValidAmount(amount: Option<int>) {
    amount.Some? && amount.value > 0
  }

  /** The recipient of an internal transfer: by email through the auth user list when an email is
      given, otherwise the single profile with the given account number. */
  function Recipient(s: Db, body: Request): (r: Option<UserId>)
    requires Truthy(body.recipientEmail) || Truthy(body.recipientAccountNumber)
    ensures r.Some? ==> r.value in s.profiles
    ensures Truthy(body.recipientEmail) && r.Some? ==>
              exists i :: 0 <= i < |s.authUsers| && s.authUsers[i] == AuthUser(r.value, body.recipientEmail.value)
    ensures !Truthy(body.recipientEmail) && r.Some? ==>
              s.profiles[r.value].accountNumber == body.recipientAccountNumber
    // and conversely: the user the e-mail lookup finds, when that user has a profile; otherwise the
    // single profile with the account number
    ensures Truthy(body.recipientEmail) ==>
              var found := FindByEmail(s.authUsers, body.recipientEmail.value);
              r == if found.Some? && found.value in s.profiles then found else None
    ensures !Truthy(body.recipientEmail) ==> r == ByAccountNumber(s.profiles, body.recipientAccountNumber.value)
  {
    if Truthy(body.recipientEmail) then
      match FindByEmail(s.authUsers, body.recipientEmail.value)
      case None => None
      case Some(id) => if id in s.profiles then Some(id) else None
    else
      ByAccountNumber(s.profiles, body.recipientAccountNumber.value)
  }

  /** The sender's completed debit row of an internal transfer. */
  function SenderRow(sender: UserId, senderName: string, recipient: UserId, recipientName: string, body: Request,
                     amount: int, txRef: string, before: int): (r: Tx)
    ensures r.userId == sender && r.kind == DEBIT && r.category == "internal_transfer" && r.status == COMPLETED
    ensures r.amount == amount && r.reference == Some(txRef) && r.recipientUserId == Some(recipient)
    ensures r.description == OrElse(body.description, "Transfer to " + recipientName)
    ensures r.balanceBefore == Some(before) && r.balanceAfter == Some(before - amount)
    ensures r.accountType == Some(body.accountType)
  {
    NewRow(sender, DEBIT, "internal_transfer", OrElse(body.description, "Transfer to " + recipientName),
           amount, COMPLETED, txRef, before, before - amount, Some(body.accountType))
      .(recipientUserId := Some(recipient))
  }

  /** The recipient's completed credit row of an internal transfer. */
  function RecipientRow(sender: UserId, senderName: string, recipient: UserId, body: Request,
                        amount: int, txRef: string, before: int): (r: Tx)
    ensures r.userId == recipient && r.kind == CREDIT && r.category == "internal_transfer" && r.status == COMPLETED
    ensures r.amount == amount && r.reference == Some(txRef) && r.recipientUserId == Some(sender)
    ensures r.description == OrElse(body.description, "Transfer from " + senderName)
    ensures r.balanceBefore == Some(before) && r.balanceAfter == Some(before + amount)
    ensures r.accountType == Some(body.accountType)
  {
    NewRow(recipient, CREDIT, "internal_transfer", OrElse(body.description, "Transfer from " + senderName),
           amount, COMPLETED, txRef, before, before + amount, Some(body.accountType))
      .(recipientUserId := Some(sender))
  }

  /** `body.type === "wire" ? "wire_transfer" : "local_transfer"` */
  function HeldCategory(kind: string): (c: string)
    ensures c == (if kind == "wire" then "wire_transfer" else "local_transfer")
  {
    if kind == "wire" then "wire_transfer" else "local_transfer"
  }

  /** The pending debit row of a wire or local transfer, carrying the counterparty details. */
  function PendingRow(sender: UserId, body: Request, amount: int, txRef: string, before: int): (r: Tx)
    ensures r.userId == sender && r.kind == DEBIT && r.status == PENDING && r.category == HeldCategory(body.kind)
    ensures r.amount == amount && r.reference == Some(txRef) && r.accountType == Some(body.accountType)
    ensures r.description == OrElse(body.description, (if body.kind == "wire" then "Wire" else "Local") +
                                                      " transfer to " + InterpolateUndefined(body.bankName))
    ensures r.balanceBefore == Some(before) && r.balanceAfter == Some(before - amount)
    ensures r.bankName == body.bankName && r.accountNumber == body.recipientAccountNumber
    ensures r.routingNumber == body.routingNumber && r.swiftCode == body.swiftCode && r.iban == body.iban
    ensures r.beneficiaryId == body.beneficiaryId && r.adminActionBy.None?
  {
    var prefix := if body.kind == "wire" then "Wire" else "Local";
    NewRow(sender, DEBIT, HeldCategory(body.kind),
           OrElse(body.description, prefix + " transfer to " + InterpolateUndefined(body.bankName)),
           amount, PENDING, txRef, before, before - amount, Some(body.accountType))
      .(bankName := body.bankName, accountNumber := body.recipientAccountNumber,
        routingNumber := body.routingNumber, swiftCode := body.swiftCode, iban := body.iban,
        beneficiaryId := body.beneficiaryId)
  }

  /** The checks every request passes before either path: a caller, a valid amount, a profile,
      and a balance on the chosen field that covers the amount. */
  predicate Admissible(s: Db, caller: Caller, body: Request) {
    caller.SignedIn? && ValidAmount(body.amount) && caller.id in s.profiles &&
    Balance(s.profiles[caller.id], FieldFor(body.accountType)) >= body.amount.value
  }

  /** Net effect of the handler: the reply and the store afterwards.
      A refused request leaves the store exactly as it was (the rollbacks included);
      no request touches loans, roles or the auth users; the ledger only grows. */
  function Submit(s: Db, caller: Caller, body: Request, faults: WriteFaults, txRef: string): (out: (Reply, Db))
    ensures out.0.Refused? ==> out.1 == s
    ensures !out.0.Refused? ==> Admissible(s, caller, body)
    ensures out.1.loans == s.loans && out.1.roles == s.roles && out.1.authUsers == s.authUsers
    ensures |s.ledger| <= |out.1.ledger| && out.1.ledger[..|s.ledger|] == s.ledger
    ensures out.1.profiles.Keys == s.profiles.Keys
  {
    if caller.NoHeader? then (Refused(NoAuthorizationHeader), s)
    else if caller.BadSession? then (Refused(Unauthorized), s)
    else if !ValidAmount(body.amount) then (Refused(InvalidAmount), s)
    else if caller.id !in s.profiles then (Refused(ProfileNotFound), s)
    else
      var current := Balance(s.profiles[caller.id], FieldFor(body.accountType));
      if current < body.amount.value then (Refused(InsufficientBalance(body.accountType, current)), s)
      else if body.kind == "internal" then SubmitInternal(s, caller.id, body, faults, txRef)
      else SubmitHeld(s, caller.id, body, faults, txRef)
  }

  /** The internal path: both balances move and two completed rows sharing the reference are appended. */
  function SubmitInternal(s: Db, uid: UserId, body: Request, faults: WriteFaults, txRef: string): (out: (Reply, Db))
    requires Admissible(s, SignedIn(uid), body)
    ensures out.0.Refused? ==> out.1 == s
    ensures out.1.loans == s.loans && out.1.roles == s.roles && out.1.authUsers == s.authUsers
    ensures |s.ledger| <= |out.1.ledger| && out.1.ledger[..|s.ledger|] == s.ledger
    ensures out.1.profiles.Keys == s.profiles.Keys
  {
    var amount := body.amount.value;
    var sender := s.profiles[uid];
    var field := FieldFor(body.accountType);
    var current := Balance(sender, field);
    if !Truthy(body.recipientEmail) && !Truthy(body.recipientAccountNumber) then (Refused(RecipientRequired), s)
    else match Recipient(s, body)
      case None => (Refused(RecipientNotFound), s)
      case Some(rid) =>
        if rid == uid then (Refused(SelfTransfer), s)
        else if faults.debitFails then (Refused(SenderUpdateFailed), s)
        else if faults.creditFails then (Refused(RecipientUpdateFailed), s)
        else
          var recipient := s.profiles[rid];
          var recipientCurrent := Balance(recipient, field);
          var profiles := s.profiles[uid := WithBalance(sender, field, current - amount)]
                                    [rid := WithBalance(recipient, field, recipientCurrent + amount)];
          var rows := [SenderRow(uid, sender.fullName, rid, recipient.fullName, body, amount, txRef, current),
                       RecipientRow(uid, sender.fullName, rid, body, amount, txRef, recipientCurrent)];
          assert (s.ledger + rows)[..|s.ledger|] == s.ledger;
          (Settled(txRef, current - amount), s.(profiles := profiles, ledger := s.ledger + rows))
  }

  /** The wire/local path: the sender is debited and one pending row is appended. */
  function SubmitHeld(s: Db, uid: UserId, body: Request, faults: WriteFaults, txRef: string): (out: (Reply, Db))
    requires Admissible(s, SignedIn(uid), body)
    ensures out.0.Refused? ==> out.1 == s
    ensures out.1.loans == s.loans && out.1.roles == s.roles && out.1.authUsers == s.authUsers
    ensures |s.ledger| <= |out.1.ledger| && out.1.ledger[..|s.ledger|] == s.ledger
    ensures out.1.profiles.Keys == s.profiles.Keys
  {
    var amount := body.amount.value;
    var sender := s.profiles[uid];
    var field := FieldFor(body.accountType);
    var current := Balance(sender, field);
    if faults.debitFails then (Refused(LockFundsFailed), s)
    else if faults.insertFails then (Refused(CreateTransactionFailed), s)
    else
      var row := PendingRow(uid, body, amount, txRef, current);
      assert (s.ledger + [row])[..|s.ledger|] == s.ledger;
      (Held(txRef, current - amount),
       s.(profiles := s.profiles[uid := WithBalance(sender, field, current - amount)], ledger := s.ledger + [row]))
  }

  // ---------------------------------------------------------------------------
  // The handler, write by write

  /** The `serve` handler body: reads, then writes the store step by step, with the compensating
      rollback writes on failure. Its net effect is `Submit`. */
  method Serve(db: Database, caller: Caller, body: Request, faults: WriteFaults, txRef: string)
    returns (reply: Reply)
    modifies db
    ensures (reply, db.State()) == Submit(old(db.State()), caller, body, faults, txRef)
  {
    if caller.NoHeader? {
      return Refused(NoAuthorizationHeader);
    }
    if caller.BadSession? {
      return Refused(Unauthorized);
    }
    var uid := caller.id;
    if body.amount.None? || body.amount.value <= 0 {
      return Refused(InvalidAmount);
    }
    if uid !in db.profiles {
      return Refused(ProfileNotFound);
    }
    var field := FieldFor(body.accountType);
    var current := Balance(db.profiles[uid], field);
    if current < body.amount.value {
      return Refused(InsufficientBalance(body.accountType, current));
    }
    if body.kind == "internal" {
      reply := ServeInternal(db, uid, body, faults, txRef);
    } else {
      reply := ServeHeld(db, uid, body, faults, txRef);
    }
  }

  method ServeInternal(db: Database, uid: UserId, body: Request, faults: WriteFaults, txRef: string)
    returns (reply: Reply)
    requires Admissible(db.State(), SignedIn(uid), body)
    modifies db
    ensures (reply, db.State()) == SubmitInternal(old(db.State()), uid, body, faults, txRef)
  {
    var amount := body.amount.value;
    var sender := db.profiles[uid];
    var field := FieldFor(body.accountType);
    var current := Balance(sender, field);
    var newBalance := current - amount;

    if !Truthy(body.recipientEmail) && !Truthy(body.recipientAccountNumber) {
      return Refused(RecipientRequired);
    }
    var found: Option<UserId>;
    if Truthy(body.recipientEmail) {
      found := FindByEmail(db.authUsers, body.recipientEmail.value);
      if found.Some? && found.value !in db.profiles {
        found := None;
      }
    } else {
      found := ByAccountNumber(db.profiles, body.recipientAccountNumber.value);
    }
    if found.None? {
      return Refused(RecipientNotFound);
    }
    var rid := found.value;
    if rid == uid {
      return Refused(SelfTransfer);
    }
    var recipient := db.profiles[rid];
    var recipientCurrent := Balance(recipient, field);
    var recipientNewBalance := recipientCurrent + amount;

    // update sender balance
    if faults.debitFails {
      return Refused(SenderUpdateFailed);
    }
    db.profiles := db.profiles[uid := WithBalance(db.profiles[uid], field, newBalance)];

    // update recipient balance; on failure write the sender's original balance back
    if faults.creditFails {
      db.profiles := db.profiles[uid := WithBalance(db.profiles[uid], field, current)];
      assert db.profiles == old(db.profiles) by {
        WithBalanceRestores(sender, field, newBalance, current);
      }
      return Refused(RecipientUpdateFailed);
    }
    db.profiles := db.profiles[rid := WithBalance(db.profiles[rid], field, recipientNewBalance)];

    // the sender's debit row, then the recipient's credit row
    db.ledger := db.ledger + [SenderRow(uid, sender.fullName, rid, recipient.fullName, body, amount, txRef, current)];
    db.ledger := db.ledger + [RecipientRow(uid, sender.fullName, rid, body, amount, txRef, recipientCurrent)];
    assert db.ledger == old(db.ledger) + [SenderRow(uid, sender.fullName, rid, recipient.fullName, body, amount, txRef, current),
                                          RecipientRow(uid, sender.fullName, rid, body, amount, txRef, recipientCurrent)];
    reply := Settled(txRef, newBalance);
  }

  method ServeHeld(db: Database, uid: UserId, body: Request, faults: WriteFaults, txRef: string)
    returns (reply: Reply)
    requires Admissible(db.State(), SignedIn(uid), body)
    modifies db
    ensures (reply, db.State()) == SubmitHeld(old(db.State()), uid, body, faults, txRef)
  {
    var amount := body.amount.value;
    var sender := db.profiles[uid];
    var field := FieldFor(body.accountType);
    var current := Balance(sender, field);
    var newBalance := current - amount;

    // deduct the balance at once (locked funds)
    if faults.debitFails {
      return Refused(LockFundsFailed);
    }
    db.profiles := db.profiles[uid := WithBalance(db.profiles[uid], field, newBalance)];

    // the pending row; on failure write the original balance back
    if faults.insertFails {
      db.profiles := db.profiles[uid := WithBalance(db.profiles[uid], field, current)];
      assert db.profiles == old(db.profiles) by {
        WithBalanceRestores(sender, field, newBalance, current);
      }
      return Refused(CreateTransactionFailed);
    }
    db.ledger := db.ledger + [PendingRow(uid, body, amount, txRef, current)];
    reply := Held(txRef, newBalance);
  }

  // ---------------------------------------------------------------------------
  // Properties of Submit

  /** A missing, zero or negative amount is refused with InvalidAmount (after the caller check)
      and nothing is written. */
  lemma InvalidAmountRefused(s: Db, uid: UserId, body: Request, faults: WriteFaults, txRef: string)
    requires !ValidAmount(body.amount)
    ensures Submit(s, SignedIn(uid), body, faults, txRef) == (Refused(InvalidAmount), s)
  {
  }

  /** The balance read is savings_balance exactly when accountType is "savings", and null reads as 0. */
  lemma BalanceFieldChoice(p: Profile, accountType: string)
    ensures Balance(p, FieldFor(accountType)) ==
            if accountType == "savings" then (if p.savings.Some? then p.savings.value else 0)
            else (if p.checking.Some? then p.checking.value else 0)
  {
  }

  /** Insufficient funds: refused with the available balance and no change exactly when the balance
      is below the amount; a balance equal to the amount is enough. */
  lemma InsufficientIff(s: Db, uid: UserId, body: Request, faults: WriteFaults, txRef: string)
    requires ValidAmount(body.amount) && uid in s.profiles
    ensures var available := Balance(s.profiles[uid], FieldFor(body.accountType));
            Submit(s, SignedIn(uid), body, faults, txRef).0.Refused? &&
            Submit(s, SignedIn(uid), body, faults, txRef).0.error.InsufficientBalance?
            <==> available < body.amount.value
    ensures var available := Balance(s.profiles[uid], FieldFor(body.accountType));
            available < body.amount.value ==>
              Submit(s, SignedIn(uid), body, faults, txRef) == (Refused(InsufficientBalance(body.accountType, available)), s)
  {
  }

  /** The errors of the checks every request goes through before either path. */
  predicate PrePathError(e: TransferError) {
    e.NoAuthorizationHeader? || e.Unauthorized? || e.InvalidAmount? || e.ProfileNotFound? || e.InsufficientBalance?
  }

  /** A request gets past the caller, amount, profile and balance checks exactly when it is admissible. */
  lemma AdmissibleIff(s: Db, caller: Caller, body: Request, faults: WriteFaults, txRef: string)
    ensures var reply := Submit(s, caller, body, faults, txRef).0;
            Admissible(s, caller, body) <==> !(reply.Refused? && PrePathError(reply.error))
  {
  }

  /** Internal transfers settle and wire/local transfers are held, never the other way round. */
  lemma PathByKind(s: Db, caller: Caller, body: Request, faults: WriteFaults, txRef: string)
    ensures Submit(s, caller, body, faults, txRef).0.Settled? ==> body.kind == "internal"
    ensures Submit(s, caller, body, faults, txRef).0.Held? ==> body.kind != "internal"
  {
  }

  /** An internal transfer to oneself is refused and changes nothing; so is one naming no recipient. */
  lemma InternalRecipientChecks(s: Db, uid: UserId, body: Request, faults: WriteFaults, txRef: string)
    requires Admissible(s, SignedIn(uid), body) && body.kind == "internal"
    ensures !Truthy(body.recipientEmail) && !Truthy(body.recipientAccountNumber) ==>
              Submit(s, SignedIn(uid), body, faults, txRef) == (Refused(RecipientRequired), s)
    ensures (Truthy(body.recipientEmail) || Truthy(body.recipientAccountNumber)) && Recipient(s, body) == Some(uid) ==>
              Submit(s, SignedIn(uid), body, faults, txRef) == (Refused(SelfTransfer), s)
  {
  }

  /** A failing recipient write is compensated: the reply is an error and the store, the sender's
      balance included, is exactly as before. */
  lemma RecipientFailureRollsBack(s: Db, uid: UserId, body: Request, faults: WriteFaults, txRef: string)
    requires Admissible(s, SignedIn(uid), body) && body.kind == "internal"
    requires Truthy(body.recipientEmail) || Truthy(body.recipientAccountNumber)
    requires Recipient(s, body).Some? && Recipient(s, body).value != uid
    requires !faults.debitFails && faults.creditFails
    ensures Submit(s, SignedIn(uid), body, faults, txRef) == (Refused(RecipientUpdateFailed), s)
  {
  }

  /** Conservation on internal transfer: the two balances on the transfer's field sum to what they
      summed to before; the sender loses and the recipient gains exactly the amount; every other
      balance and every other profile is untouched. */
  lemma InternalConserves(s: Db, uid: UserId, body: Request, faults: WriteFaults, txRef: string)
    requires Submit(s, SignedIn(uid), body, faults, txRef).0.Settled?
    ensures Truthy(body.recipientEmail) || Truthy(body.recipientAccountNumber)
    ensures Recipient(s, body).Some? && Recipient(s, body).value != uid
    ensures var t := Submit(s, SignedIn(uid), body, faults, txRef).1;
            var rid := Recipient(s, body).value;
            var f := FieldFor(body.accountType);
            var amount := body.amount.value;
            uid in s.profiles && uid in t.profiles && rid in t.profiles &&
            Balance(t.profiles[uid], f) + Balance(t.profiles[rid], f) ==
              Balance(s.profiles[uid], f) + Balance(s.profiles[rid], f) &&
            Balance(t.profiles[uid], f) == Balance(s.profiles[uid], f) - amount &&
            Balance(t.profiles[rid], f) == Balance(s.profiles[rid], f) + amount &&
            (forall g :: g != f ==> Stored(t.profiles[uid], g) == Stored(s.profiles[uid], g) &&
                                    Stored(t.profiles[rid], g) == Stored(s.profiles[rid], g)) &&
            (forall u :: u in s.profiles && u != uid && u != rid ==> t.profiles[u] == s.profiles[u])
  {
  }

  /** An internal transfer appends a debit row for the sender and a credit row for the recipient,
      both completed, with the same reference, each with balance_after = balance_before -/+ amount. */
  lemma InternalRows(s: Db, uid: UserId, body: Request, faults: WriteFaults, txRef: string)
    requires Submit(s, SignedIn(uid), body, faults, txRef).0.Settled?
    ensures Truthy(body.recipientEmail) || Truthy(body.recipientAccountNumber)
    ensures var t := Submit(s, SignedIn(uid), body, faults, txRef).1;
            var amount := body.amount.value;
            |t.ledger| == |s.ledger| + 2 &&
            var d, c := t.ledger[|s.ledger|], t.ledger[|s.ledger| + 1];
            d.userId == uid && d.kind == DEBIT && c.kind == CREDIT && c.userId != uid &&
            c.userId == Recipient(s, body).value &&
            c.recipientUserId == Some(uid) && d.recipientUserId == Some(c.userId) &&
            d.status == COMPLETED && c.status == COMPLETED &&
            d.reference == Some(txRef) && c.reference == Some(txRef) &&
            d.amount == amount && c.amount == amount &&
            d.category == "internal_transfer" && c.category == "internal_transfer" &&
            d.balanceAfter.value == d.balanceBefore.value - amount &&
            c.balanceAfter.value == c.balanceBefore.value + amount &&
            d.balanceBefore == Some(Balance(s.profiles[uid], FieldFor(body.accountType))) &&
            c.balanceBefore == Some(Balance(s.profiles[c.userId], FieldFor(body.accountType)))
  {
  }

  /** A wire or local transfer debits the sender by the amount, leaves every other profile alone
      and appends exactly one pending debit row of category wire_transfer or local_transfer that
      records the counterparty details. */
  lemma HeldEffect(s: Db, uid: UserId, body: Request, faults: WriteFaults, txRef: string)
    requires Submit(s, SignedIn(uid), body, faults, txRef).0.Held?
    ensures var t := Submit(s, SignedIn(uid), body, faults, txRef).1;
            var f := FieldFor(body.accountType);
            var amount := body.amount.value;
            uid in s.profiles && uid in t.profiles &&
            Balance(t.profiles[uid], f) == Balance(s.profiles[uid], f) - amount &&
            (forall u :: u in s.profiles && u != uid ==> t.profiles[u] == s.profiles[u]) &&
            |t.ledger| == |s.ledger| + 1 &&
            var row := t.ledger[|s.ledger|];
            row.userId == uid && row.kind == DEBIT && row.status == PENDING && row.amount == amount &&
            row.category == (if body.kind == "wire" then "wire_transfer" else "local_transfer") &&
            row.reference == Some(txRef) && row.accountType == Some(body.accountType) &&
            row.balanceBefore == Some(Balance(s.profiles[uid], f)) &&
            row.balanceAfter == Some(Balance(s.profiles[uid], f) - amount) &&
            row.bankName == body.bankName && row.accountNumber == body.recipientAccountNumber &&
            row.swiftCode == body.swiftCode && row.iban == body.iban
  {
  }

  /** Both success replies carry the transaction reference and the sender's new balance on the
      transfer's field, which is the old balance less the amount. */
  lemma SuccessReply(s: Db, uid: UserId, body: Request, faults: WriteFaults, txRef: string)
    requires Submit(s, SignedIn(uid), body, faults, txRef).0.Settled? ||
             Submit(s, SignedIn(uid), body, faults, txRef).0.Held?
    ensures var (reply, t) := Submit(s, SignedIn(uid), body, faults, txRef);
            var f := FieldFor(body.accountType);
            uid in s.profiles && uid in t.profiles &&
            reply.reference == txRef &&
            reply.newBalance == Balance(t.profiles[uid], f) &&
            reply.newBalance == Balance(s.profiles[uid], f) - body.amount.value
  {
  }

  /** A failing pending-row insert is compensated: error, and the store is exactly as before. */
  lemma HeldInsertFailureRollsBack(s: Db, uid: UserId, body: Request, faults: WriteFaults, txRef: string)
    requires Admissible(s, SignedIn(uid), body) && body.kind != "internal"
    requires !faults.debitFails && faults.insertFails
    ensures Submit(s, SignedIn(uid), body, faults, txRef) == (Refused(CreateTransactionFailed), s)
  {
  }

  /** Balance non-negativity and the other store invariants survive every request. */
  lemma SubmitPreservesValid(s: Db, caller: Caller, body: Request, faults: WriteFaults, txRef: string)
    requires Valid(s)
    ensures Valid(Submit(s, caller, body, faults, txRef).1)
  {
    if Admissible(s, caller, body) {
      if body.kind == "internal" {
        assert Submit(s, caller, body, faults, txRef) == SubmitInternal(s, caller.id, body, faults, txRef);
        InternalPreservesValid(s, caller.id, body, faults, txRef);
      } else {
        assert Submit(s, caller, body, faults, txRef) == SubmitHeld(s, caller.id, body, faults, txRef);
        HeldPreservesValid(s, caller.id, body, faults, txRef);
      }
    }
  }

  /** The internal path keeps the store invariant: the debit stays covered by the balance and the
      credit adds a non-negative amount. */
  lemma InternalPreservesValid(s: Db, uid: UserId, body: Request, faults: WriteFaults, txRef: string)
    requires Valid(s) && Admissible(s, SignedIn(uid), body)
    ensures Valid(SubmitInternal(s, uid, body, faults, txRef).1)
  {
    var (reply, t) := SubmitInternal(s, uid, body, faults, txRef);
    if !reply.Refused? {
      var f := FieldFor(body.accountType);
      var amount := body.amount.value;
      var sender := s.profiles[uid];
      var current := Balance(sender, f);
      var debited := WithBalance(sender, f, current - amount);
      assert NonNegative(debited);
      ProfilesValidUpdate(s.profiles, debited);
      var rid := Recipient(s, body).value;
      var recipient := s.profiles[rid];
      var credited := WithBalance(recipient, f, Balance(recipient, f) + amount);
      assert NonNegative(credited);
      ProfilesValidUpdate(s.profiles[uid := debited], credited);
      var rows := [SenderRow(uid, sender.fullName, rid, recipient.fullName, body, amount, txRef, current),
                   RecipientRow(uid, sender.fullName, rid, body, amount, txRef, Balance(recipient, f))];
      assert t == s.(profiles := s.profiles[uid := debited][rid := credited], ledger := s.ledger + rows);
      assert LedgerValid(rows);
      LedgerValidAppend(s.ledger, rows);
    }
  }

  /** The hold path keeps the store invariant: the locked amount stays covered by the balance. */
  lemma HeldPreservesValid(s: Db, uid: UserId, body: Request, faults: WriteFaults, txRef: string)
    requires Valid(s) && Admissible(s, SignedIn(uid), body)
    ensures Valid(SubmitHeld(s, uid, body, faults, txRef).1)
  {
    var (reply, t) := SubmitHeld(s, uid, body, faults, txRef);
    if !reply.Refused? {
      var f := FieldFor(body.accountType);
      var amount := body.amount.value;
      var sender := s.profiles[uid];
      var current := Balance(sender, f);
      var debited := WithBalance(sender, f, current - amount);
      assert NonNegative(debited);
      ProfilesValidUpdate(s.profiles, debited);
      var rows := [PendingRow(uid, body, amount, txRef, current)];
      assert t == s.(profiles := s.profiles[uid := debited], ledger := s.ledger + rows);
      assert LedgerValid(rows);
      LedgerValidAppend(s.ledger, rows);
    }
  }
}
