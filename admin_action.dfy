/** The admin-action edge function: an administrator approves or rejects a pending wire/local
    transfer (a rejection refunds the held funds) or a pending loan (an approval disburses it
    into the borrower's checking balance). */
module AdminAction {
  import opened Js
  import opened Store

  /** The JSON body. A transaction is named by its position in the ledger; `notes` is None when the
      key is absent. */
  datatype Request = Request(action: string, transactionId: Option<nat>, loanId: Option<string>, notes: Option<string>)

  /** The errors the handler throws, in the order it checks them. */
  datatype AdminError =
    | NoAuthorizationHeader
    | Unauthorized
    | AdminRequired
    | TransactionNotFound
    | TransactionNotPending
    | LoanNotFound
    | LoanNotPending
    | NoTarget

  /** `{success: true, message}` or `{success: false, error}`. */
  datatype Reply = Done(message: string) | Refused(error: AdminError)

  /** `admin_notes: body.notes` in an update: an absent key is dropped by the client library,
      so the column keeps its value; a present one overwrites it. */
  function MergeNotes(previous: Option<string>, notes: Option<string>): (r: Option<string>)
    ensures notes.Some? ==> r == notes
    ensures notes.None? ==> r == previous
  {
    if notes.Some? then notes else previous
  }

  /** The ledger row after an admin decision: its status and the admin columns change, nothing else. */
  function Stamp(tx: Tx, status: string, admin: UserId, now: string, notes: Option<string>): (r: Tx)
    ensures r.status == status && r.adminActionBy == Some(admin) && r.adminActionAt == Some(now)
    ensures r.adminNotes == MergeNotes(tx.adminNotes, notes)
    ensures r.(status := tx.status, adminActionBy := tx.adminActionBy, adminActionAt := tx.adminActionAt,
               adminNotes := tx.adminNotes) == tx
  {
    tx.(status := status, adminActionBy := Some(admin), adminActionAt := Some(now),
        adminNotes := MergeNotes(tx.adminNotes, notes))
  }

  /** The loan after an admin decision. */
  function StampLoan(loan: Loan, status: string, admin: UserId, now: string, notes: Option<string>): (r: Loan)
    ensures r.status == status && r.adminActionBy == Some(admin) && r.adminActionAt == Some(now)
    ensures r.adminNotes == MergeNotes(loan.adminNotes, notes)
    ensures r.userId == loan.userId && r.amount == loan.amount && r.purpose == loan.purpose
    ensures r.nextPaymentDate == loan.nextPaymentDate
  {
    loan.(status := status, adminActionBy := Some(admin), adminActionAt := Some(now),
          adminNotes := MergeNotes(loan.adminNotes, notes))
  }

  /** The balance the handler reads for a user: `Number(profile?.[field]) || 0`, zero when there is no profile. */
  function CurrentBalance(profiles: map<UserId, Profile>, u: UserId, f: BalanceField): (b: int)
    ensures u in profiles ==> b == Balance(profiles[u], f)
    ensures u !in profiles ==> b == 0
  {
    if u in profiles then Balance(profiles[u], f) else 0
  }

  /** `update({[field]: v}).eq("user_id", u)`: the row changes when it exists; no row matches otherwise. */
  function SetBalance(profiles: map<UserId, Profile>, u: UserId, f: BalanceField, v: int): (r: map<UserId, Profile>)
    ensures r.Keys == profiles.Keys
    ensures u in profiles ==> r[u] == WithBalance(profiles[u], f, v)
    ensures forall w :: w in profiles && w != u ==> r[w] == profiles[w]
  {
    if u in profiles then profiles[u := WithBalance(profiles[u], f, v)] else profiles
  }

  /** The completed credit row that hands a rejected transfer's amount back to its owner. */
  function RefundRow(tx: Tx, current: int): (r: Tx)
    ensures r.userId == tx.userId && r.kind == CREDIT && r.category == "refund" && r.status == COMPLETED
    ensures r.amount == tx.amount && r.accountType == tx.accountType && r.description == "Refund: " + tx.description
    ensures r.reference == Some("REF-" + InterpolateNull(tx.reference))
    ensures r.balanceBefore == Some(current) && r.balanceAfter == Some(current + tx.amount)
  {
    NewRow(tx.userId, CREDIT, "refund", "Refund: " + tx.description, tx.amount, COMPLETED,
           "REF-" + InterpolateNull(tx.reference), current, current + tx.amount, tx.accountType)
  }

  /** `LOAN-` followed by the first eight characters of the loan id, upper-cased. */
  function LoanReference(loanId: string): (r: string)
    ensures r == "LOAN-" + ToUpper(if |loanId| <= 8 then loanId else loanId[..8])
  {
    SlicePrefix(loanId, 8);
    "LOAN-" + ToUpper(Slice(loanId, 0, 8))
  }

  /** The completed credit row that disburses an approved loan into checking. */
  function DisbursementRow(loanId: string, loan: Loan, current: int): (r: Tx)
    ensures r.userId == loan.userId && r.kind == CREDIT && r.category == "loan_disbursement" && r.status == COMPLETED
    ensures r.amount == loan.amount && r.accountType == Some("checking")
    ensures r.description == "Loan disbursement - " + OrElse(loan.purpose, "Personal loan")
    ensures r.reference == Some(LoanReference(loanId))
    ensures r.balanceBefore == Some(current) && r.balanceAfter == Some(current + loan.amount)
  {
    NewRow(loan.userId, CREDIT, "loan_disbursement", "Loan disbursement - " + OrElse(loan.purpose, "Personal loan"),
           loan.amount, COMPLETED, LoanReference(loanId), current, current + loan.amount, Some("checking"))
  }

  /** `${subject} ${action}d successfully`: "approve" reads "approved", while "reject" reads "rejectd". */
  function Message(subject: string, action: string): (m: string)
    ensures action == "approve" ==> m == subject + " approved successfully"
    ensures action == "reject" ==> m == subject + " rejectd successfully"
  {
    assert "approve" + "d successfully" == "approved successfully";
    assert "reject" + "d successfully" == "rejectd successfully";
    subject + " " + action + "d successfully"
  }

  /** Net effect of the handler. Only a signed-in administrator changes anything, a refusal changes
      nothing, and roles and auth users are never written. */
  function Resolve(s: Db, caller: Caller, req: Request, now: string, nextPayment: string): (out: (Reply, Db))
    ensures out.0.Refused? ==> out.1 == s
    ensures out.1 != s ==> caller.SignedIn? && IsAdmin(s.roles, caller.id)
    ensures out.1.roles == s.roles && out.1.authUsers == s.authUsers
    ensures out.1.profiles.Keys == s.profiles.Keys
    ensures |s.ledger| <= |out.1.ledger|
    ensures forall i :: 0 <= i < |s.ledger| && s.ledger[i].status != PENDING ==> out.1.ledger[i] == s.ledger[i]
    ensures out.1.loans.Keys == s.loans.Keys
    ensures forall id :: id in s.loans && s.loans[id].status != PENDING ==> out.1.loans[id] == s.loans[id]
  {
    if caller.NoHeader? then (Refused(NoAuthorizationHeader), s)
    else if caller.BadSession? then (Refused(Unauthorized), s)
    else if !IsAdmin(s.roles, caller.id) then (Refused(AdminRequired), s)
    else if req.transactionId.Some? then ResolveTransaction(s, caller.id, req, now)
    else if Truthy(req.loanId) then ResolveLoan(s, caller.id, req, now, nextPayment)
    else (Refused(NoTarget), s)
  }

  /** Approving or rejecting a ledger row. Only a pending row is decided; loans are untouched. */
  function ResolveTransaction(s: Db, admin: UserId, req: Request, now: string): (out: (Reply, Db))
    requires req.transactionId.Some?
    ensures out.0.Refused? ==> out.1 == s
    ensures out.1.loans == s.loans && out.1.roles == s.roles && out.1.authUsers == s.authUsers
    ensures out.1.profiles.Keys == s.profiles.Keys
    ensures |s.ledger| <= |out.1.ledger|
    ensures forall i :: 0 <= i < |s.ledger| && s.ledger[i].status != PENDING ==> out.1.ledger[i] == s.ledger[i]
    ensures out.1.loans.Keys == s.loans.Keys
    ensures forall id :: id in s.loans && s.loans[id].status != PENDING ==> out.1.loans[id] == s.loans[id]
  {
    var id := req.transactionId.value;
    if id >= |s.ledger| then (Refused(TransactionNotFound), s)
    else
      var tx := s.ledger[id];
      var message := Message("Transaction", req.action);
      if tx.status != PENDING then (Refused(TransactionNotPending), s)
      else if req.action == "approve" then
        (Done(message), s.(ledger := s.ledger[id := Stamp(tx, COMPLETED, admin, now, req.notes)]))
      else if req.action == "reject" then
        var field := FieldForRow(tx.accountType);
        var current := CurrentBalance(s.profiles, tx.userId, field);
        (Done(message),
         s.(profiles := SetBalance(s.profiles, tx.userId, field, current + tx.amount),
            ledger := s.ledger[id := Stamp(tx, FAILED, admin, now, req.notes)] + [RefundRow(tx, current)]))
      else (Done(message), s)
  }

  /** Approving or rejecting a loan. Only a pending loan is decided. */
  function ResolveLoan(s: Db, admin: UserId, req: Request, now: string, nextPayment: string): (out: (Reply, Db))
    requires Truthy(req.loanId)
    ensures out.0.Refused? ==> out.1 == s
    ensures out.1.roles == s.roles && out.1.authUsers == s.authUsers
    ensures out.1.profiles.Keys == s.profiles.Keys
    ensures |s.ledger| <= |out.1.ledger|
    ensures forall i :: 0 <= i < |s.ledger| && s.ledger[i].status != PENDING ==> out.1.ledger[i] == s.ledger[i]
    ensures out.1.loans.Keys == s.loans.Keys
    ensures forall id :: id in s.loans && s.loans[id].status != PENDING ==> out.1.loans[id] == s.loans[id]
  {
    var id := req.loanId.value;
    if id !in s.loans then (Refused(LoanNotFound), s)
    else
      var loan := s.loans[id];
      var message := Message("Loan", req.action);
      if loan.status != PENDING then (Refused(LoanNotPending), s)
      else if req.action == "approve" then
        var current := CurrentBalance(s.profiles, loan.userId, CheckingBalance);
        (Done(message),
         s.(profiles := SetBalance(s.profiles, loan.userId, CheckingBalance, current + loan.amount),
            loans := s.loans[id := StampLoan(loan, ACTIVE, admin, now, req.notes).(nextPaymentDate := Some(nextPayment))],
            ledger := s.ledger + [DisbursementRow(id, loan, current)]))
      else if req.action == "reject" then
        (Done(message), s.(loans := s.loans[id := StampLoan(loan, REJECTED, admin, now, req.notes)]))
      else (Done(message), s)
  }

  // ---------------------------------------------------------------------------
  // The handler, write by write

  /** The `serve` handler body. `now` is the ISO timestamp of the request and `nextPayment` the
      date one month later; the notifications and logging are not modelled. Its net effect is `Resolve`. */
  method Serve(db: Database, caller: Caller, req: Request, now: string, nextPayment: string) returns (reply: Reply)
    modifies db
    ensures (reply, db.State()) == Resolve(old(db.State()), caller, req, now, nextPayment)
  {
    if caller.NoHeader? {
      return Refused(NoAuthorizationHeader);
    }
    if caller.BadSession? {
      return Refused(Unauthorized);
    }
    var roles := RolesOf(db.roles, caller.id);
    if |roles| != 1 || roles[0] != "admin" {
      return Refused(AdminRequired);
    }
    if req.transactionId.Some? {
      reply := ServeTransaction(db, caller.id, req, now);
    } else if Truthy(req.loanId) {
      reply := ServeLoan(db, caller.id, req, now, nextPayment);
    } else {
      reply := Refused(NoTarget);
    }
  }

  method ServeTransaction(db: Database, admin: UserId, req: Request, now: string) returns (reply: Reply)
    requires req.transactionId.Some?
    modifies db
    ensures (reply, db.State()) == ResolveTransaction(old(db.State()), admin, req, now)
  {
    var id := req.transactionId.value;
    if id >= |db.ledger| {
      return Refused(TransactionNotFound);
    }
    var tx := db.ledger[id];
    if tx.status != PENDING {
      return Refused(TransactionNotPending);
    }
    var field := FieldForRow(tx.accountType);
    if req.action == "approve" {
      db.ledger := db.ledger[id := Stamp(tx, COMPLETED, admin, now, req.notes)];
    } else if req.action == "reject" {
      var current := 0;
      if tx.userId in db.profiles {
        current := Balance(db.profiles[tx.userId], field);
      }
      var refunded := current + tx.amount;
      // refund the amount
      if tx.userId in db.profiles {
        db.profiles := db.profiles[tx.userId := WithBalance(db.profiles[tx.userId], field, refunded)];
      }
      // mark the row failed
      db.ledger := db.ledger[id := Stamp(tx, FAILED, admin, now, req.notes)];
      // the refund row
      db.ledger := db.ledger + [RefundRow(tx, current)];
    }
    reply := Done(Message("Transaction", req.action));
  }

  method ServeLoan(db: Database, admin: UserId, req: Request, now: string, nextPayment: string) returns (reply: Reply)
    requires Truthy(req.loanId)
    modifies db
    ensures (reply, db.State()) == ResolveLoan(old(db.State()), admin, req, now, nextPayment)
  {
    var id := req.loanId.value;
    if id !in db.loans {
      return Refused(LoanNotFound);
    }
    var loan := db.loans[id];
    if loan.status != PENDING {
      return Refused(LoanNotPending);
    }
    if req.action == "approve" {
      var current := 0;
      if loan.userId in db.profiles {
        current := Balance(db.profiles[loan.userId], CheckingBalance);
      }
      var newBalance := current + loan.amount;
      // add the loan amount to checking
      if loan.userId in db.profiles {
        db.profiles := db.profiles[loan.userId := WithBalance(db.profiles[loan.userId], CheckingBalance, newBalance)];
      }
      // activate the loan
      db.loans := db.loans[id := StampLoan(loan, ACTIVE, admin, now, req.notes).(nextPaymentDate := Some(nextPayment))];
      // the disbursement row
      db.ledger := db.ledger + [DisbursementRow(id, loan, current)];
    } else if req.action == "reject" {
      db.loans := db.loans[id := StampLoan(loan, REJECTED, admin, now, req.notes)];
    }
    reply := Done(Message("Loan", req.action));
  }

  // ---------------------------------------------------------------------------
  // Properties of Resolve

  /** A signed-in user who is not exactly an admin (no role row, another role, or several rows)
      is refused and nothing changes. */
  lemma NonAdminRefused(s: Db, u: UserId, req: Request, now: string, nextPayment: string)
    requires !IsAdmin(s.roles, u)
    ensures Resolve(s, SignedIn(u), req, now, nextPayment) == (Refused(AdminRequired), s)
  {
  }

  /** A request naming neither a transaction nor a loan is refused. */
  lemma NoTargetRefused(s: Db, u: UserId, req: Request, now: string, nextPayment: string)
    requires IsAdmin(s.roles, u) && req.transactionId.None? && !Truthy(req.loanId)
    ensures Resolve(s, SignedIn(u), req, now, nextPayment) == (Refused(NoTarget), s)
  {
  }

  /** When a transaction id is given, the loan id is ignored: no loan changes. */
  lemma TransactionTakesPrecedence(s: Db, caller: Caller, req: Request, now: string, nextPayment: string)
    requires req.transactionId.Some?
    ensures Resolve(s, caller, req, now, nextPayment).1.loans == s.loans
  {
  }

  /** An action other than approve or reject on a pending target is reported as done and changes nothing. */
  lemma OtherActionNoChange(s: Db, u: UserId, req: Request, now: string, nextPayment: string)
    requires req.action != "approve" && req.action != "reject"
    ensures Resolve(s, SignedIn(u), req, now, nextPayment).1 == s
  {
  }

  /** Approving a pending transfer completes exactly that row, stamps the admin columns and moves no money. */
  lemma ApproveTransaction(s: Db, u: UserId, req: Request, now: string, nextPayment: string)
    requires IsAdmin(s.roles, u) && req.action == "approve"
    requires req.transactionId.Some? && req.transactionId.value < |s.ledger|
    requires s.ledger[req.transactionId.value].status == PENDING
    ensures var (reply, t) := Resolve(s, SignedIn(u), req, now, nextPayment);
            var id := req.transactionId.value;
            reply == Done(Message("Transaction", "approve")) &&
            t.profiles == s.profiles && t.loans == s.loans && |t.ledger| == |s.ledger| &&
            t.ledger[id].status == COMPLETED && t.ledger[id].adminActionBy == Some(u) &&
            t.ledger[id].amount == s.ledger[id].amount &&
            t.ledger[id].adminNotes == (if req.notes.Some? then req.notes else s.ledger[id].adminNotes) &&
            (forall i :: 0 <= i < |s.ledger| && i != id ==> t.ledger[i] == s.ledger[i])
  {
  }

  /** Rejecting a pending transfer fails that row, credits its amount back to the owner's balance
      on the row's account type, and appends a completed refund credit of the same amount whose
      snapshot records the refund. Every other profile and row is unchanged. The reply's message
      is built by Message, so it reads "rejectd". */
  lemma RejectTransactionRefunds(s: Db, u: UserId, req: Request, now: string, nextPayment: string)
    requires IsAdmin(s.roles, u) && req.action == "reject"
    requires req.transactionId.Some? && req.transactionId.value < |s.ledger|
    requires s.ledger[req.transactionId.value].status == PENDING
    ensures var (reply, t) := Resolve(s, SignedIn(u), req, now, nextPayment);
            var id := req.transactionId.value;
            var tx := s.ledger[id];
            var f := FieldForRow(tx.accountType);
            var before := CurrentBalance(s.profiles, tx.userId, f);
            reply == Done(Message("Transaction", "reject")) && t.loans == s.loans &&
            (tx.userId in s.profiles ==> Balance(t.profiles[tx.userId], f) == before + tx.amount &&
                                         Stored(t.profiles[tx.userId], OtherField(f)) == Stored(s.profiles[tx.userId], OtherField(f))) &&
            (forall w :: w in s.profiles && w != tx.userId ==> t.profiles[w] == s.profiles[w]) &&
            |t.ledger| == |s.ledger| + 1 &&
            t.ledger[id].status == FAILED && t.ledger[id].amount == tx.amount &&
            (forall i :: 0 <= i < |s.ledger| && i != id ==> t.ledger[i] == s.ledger[i]) &&
            var r := t.ledger[|s.ledger|];
            r.userId == tx.userId && r.kind == CREDIT && r.category == "refund" && r.status == COMPLETED &&
            r.amount == tx.amount && r.accountType == tx.accountType &&
            r.reference == Some("REF-" + InterpolateNull(tx.reference)) &&
            r.balanceBefore == Some(before) && r.balanceAfter == Some(before + tx.amount)
  {
  }

  /** Decisions on a transfer are final: once approved or rejected, any further admin action on
      the same row is refused as not pending and changes nothing. */
  lemma TransactionDecidedOnce(s: Db, u: UserId, req: Request, req2: Request, now: string, nextPayment: string,
                               u2: UserId, now2: string, nextPayment2: string)
    requires req.transactionId.Some? && req2.transactionId == req.transactionId
    requires req.action == "approve" || req.action == "reject"
    requires Resolve(s, SignedIn(u), req, now, nextPayment).0.Done?
    ensures var t := Resolve(s, SignedIn(u), req, now, nextPayment).1;
            IsAdmin(t.roles, u2) ==>
              Resolve(t, SignedIn(u2), req2, now2, nextPayment2) == (Refused(TransactionNotPending), t)
  {
    var id := req.transactionId.value;
    var t := Resolve(s, SignedIn(u), req, now, nextPayment).1;
    var status := if req.action == "approve" then COMPLETED else FAILED;
    assert id < |t.ledger| && t.ledger[id] == Stamp(s.ledger[id], status, u, now, req.notes);
    assert status != PENDING by {
      assert status[0] != PENDING[0];
    }
  }

  /** Approving a pending loan activates it with the next payment date and the admin columns;
      no other loan changes. */
  lemma ApproveLoanActivates(s: Db, u: UserId, req: Request, now: string, nextPayment: string)
    requires IsAdmin(s.roles, u) && req.action == "approve" && req.transactionId.None?
    requires Truthy(req.loanId) && req.loanId.value in s.loans && s.loans[req.loanId.value].status == PENDING
    ensures var (reply, t) := Resolve(s, SignedIn(u), req, now, nextPayment);
            var id := req.loanId.value;
            reply == Done(Message("Loan", "approve")) &&
            id in t.loans && t.loans[id].status == ACTIVE && t.loans[id].amount == s.loans[id].amount &&
            t.loans[id].nextPaymentDate == Some(nextPayment) && t.loans[id].adminActionBy == Some(u) &&
            (forall k :: k in s.loans && k != id ==> k in t.loans && t.loans[k] == s.loans[k])
  {
    var id := req.loanId.value;
    var loan := s.loans[id];
    var out := ResolveLoan(s, u, req, now, nextPayment);
    assert Resolve(s, SignedIn(u), req, now, nextPayment) == out;
    var active := StampLoan(loan, ACTIVE, u, now, req.notes).(nextPaymentDate := Some(nextPayment));
    assert active.status == ACTIVE && active.amount == loan.amount && active.adminActionBy == Some(u);
    assert out.1.loans == s.loans[id := active];
  }

  /** The store after approving a pending loan, written out. */
  lemma ApprovedLoanStore(s: Db, u: UserId, req: Request, now: string, nextPayment: string)
    requires IsAdmin(s.roles, u) && req.action == "approve" && req.transactionId.None?
    requires Truthy(req.loanId) && req.loanId.value in s.loans && s.loans[req.loanId.value].status == PENDING
    ensures var id := req.loanId.value;
            var loan := s.loans[id];
            var current := CurrentBalance(s.profiles, loan.userId, CheckingBalance);
            Resolve(s, SignedIn(u), req, now, nextPayment).1 ==
              s.(profiles := SetBalance(s.profiles, loan.userId, CheckingBalance, current + loan.amount),
                 loans := s.loans[id := StampLoan(loan, ACTIVE, u, now, req.notes).(nextPaymentDate := Some(nextPayment))],
                 ledger := s.ledger + [DisbursementRow(id, loan, current)])
  {
    assert Resolve(s, SignedIn(u), req, now, nextPayment) == ResolveLoan(s, u, req, now, nextPayment);
  }

  /** Approving a pending loan adds its amount to the borrower's checking balance, leaving savings
      and every other profile untouched. */
  lemma ApproveLoanDisburses(s: Db, u: UserId, req: Request, now: string, nextPayment: string)
    requires IsAdmin(s.roles, u) && req.action == "approve" && req.transactionId.None?
    requires Truthy(req.loanId) && req.loanId.value in s.loans && s.loans[req.loanId.value].status == PENDING
    ensures var t := Resolve(s, SignedIn(u), req, now, nextPayment).1;
            var loan := s.loans[req.loanId.value];
            var before := CurrentBalance(s.profiles, loan.userId, CheckingBalance);
            (loan.userId in s.profiles ==> Balance(t.profiles[loan.userId], CheckingBalance) == before + loan.amount &&
                                           t.profiles[loan.userId].savings == s.profiles[loan.userId].savings) &&
            (forall w :: w in s.profiles && w != loan.userId ==> t.profiles[w] == s.profiles[w])
  {
    ApprovedLoanStore(s, u, req, now, nextPayment);
  }

  /** Approving a pending loan appends exactly one row: a completed loan_disbursement credit into
      checking with the LOAN- reference, whose snapshot records the disbursement. */
  lemma ApproveLoanDisbursementRow(s: Db, u: UserId, req: Request, now: string, nextPayment: string)
    requires IsAdmin(s.roles, u) && req.action == "approve" && req.transactionId.None?
    requires Truthy(req.loanId) && req.loanId.value in s.loans && s.loans[req.loanId.value].status == PENDING
    ensures var t := Resolve(s, SignedIn(u), req, now, nextPayment).1;
            var loan := s.loans[req.loanId.value];
            var before := CurrentBalance(s.profiles, loan.userId, CheckingBalance);
            |t.ledger| == |s.ledger| + 1 && t.ledger[..|s.ledger|] == s.ledger &&
            var r := t.ledger[|s.ledger|];
            r.userId == loan.userId && r.kind == CREDIT && r.category == "loan_disbursement" &&
            r.amount == loan.amount && r.status == COMPLETED && r.accountType == Some("checking") &&
            r.reference == Some(LoanReference(req.loanId.value)) &&
            r.balanceBefore == Some(before) && r.balanceAfter == Some(before + loan.amount)
  {
    ApprovedLoanStore(s, u, req, now, nextPayment);
    var loan := s.loans[req.loanId.value];
    var row := DisbursementRow(req.loanId.value, loan, CurrentBalance(s.profiles, loan.userId, CheckingBalance));
    assert (s.ledger + [row])[..|s.ledger|] == s.ledger;
  }

  /** Rejecting a pending loan only marks it rejected: no money moves and no row is written
      (and the message again reads "rejectd"). */
  lemma RejectLoan(s: Db, u: UserId, req: Request, now: string, nextPayment: string)
    requires IsAdmin(s.roles, u) && req.action == "reject" && req.transactionId.None?
    requires Truthy(req.loanId) && req.loanId.value in s.loans && s.loans[req.loanId.value].status == PENDING
    ensures var (reply, t) := Resolve(s, SignedIn(u), req, now, nextPayment);
            var id := req.loanId.value;
            reply == Done(Message("Loan", "reject")) &&
            t.profiles == s.profiles && t.ledger == s.ledger &&
            t.loans == s.loans[id := StampLoan(s.loans[id], REJECTED, u, now, req.notes)]
  {
  }

  /** Loan decisions are final too. */
  lemma LoanDecidedOnce(s: Db, u: UserId, req: Request, req2: Request, now: string, nextPayment: string,
                        u2: UserId, now2: string, nextPayment2: string)
    requires req.transactionId.None? && Truthy(req.loanId)
    requires req2.transactionId.None? && req2.loanId == req.loanId
    requires req.action == "approve" || req.action == "reject"
    requires Resolve(s, SignedIn(u), req, now, nextPayment).0.Done?
    ensures var t := Resolve(s, SignedIn(u), req, now, nextPayment).1;
            IsAdmin(t.roles, u2) ==>
              Resolve(t, SignedIn(u2), req2, now2, nextPayment2) == (Refused(LoanNotPending), t)
  {
    var id := req.loanId.value;
    var t := Resolve(s, SignedIn(u), req, now, nextPayment).1;
    var status := if req.action == "approve" then ACTIVE else REJECTED;
    assert id in t.loans && t.loans[id].status == status;
    assert status != PENDING by {
      assert status[0] != PENDING[0];
    }
  }

  /** Every admin action keeps the store invariant: refunds and disbursements add non-negative
      amounts to non-negative balances and write consistent snapshots. */
  lemma ResolvePreservesValid(s: Db, caller: Caller, req: Request, now: string, nextPayment: string)
    requires Valid(s)
    ensures Valid(Resolve(s, caller, req, now, nextPayment).1)
  {
    if caller.SignedIn? && IsAdmin(s.roles, caller.id) {
      if req.transactionId.Some? {
        TransactionPreservesValid(s, caller.id, req, now);
      } else if Truthy(req.loanId) {
        LoanPreservesValid(s, caller.id, req, now, nextPayment);
      }
    }
  }

  lemma TransactionPreservesValid(s: Db, admin: UserId, req: Request, now: string)
    requires Valid(s) && req.transactionId.Some?
    ensures Valid(ResolveTransaction(s, admin, req, now).1)
  {
    var id := req.transactionId.value;
    if id < |s.ledger| && s.ledger[id].status == PENDING {
      var tx := s.ledger[id];
      if req.action == "approve" {
        LedgerValidSet(s.ledger, id, Stamp(tx, COMPLETED, admin, now, req.notes));
      } else if req.action == "reject" {
        var f := FieldForRow(tx.accountType);
        var current := CurrentBalance(s.profiles, tx.userId, f);
        var profiles := SetBalance(s.profiles, tx.userId, f, current + tx.amount);
        if tx.userId in s.profiles {
          ProfilesValidUpdate(s.profiles, WithBalance(s.profiles[tx.userId], f, current + tx.amount));
        }
        assert ProfilesValid(profiles);
        var marked := Stamp(tx, FAILED, admin, now, req.notes);
        LedgerValidSet(s.ledger, id, marked);
        LedgerValidAppend(s.ledger[id := marked], [RefundRow(tx, current)]);
        assert ResolveTransaction(s, admin, req, now).1 ==
               s.(profiles := profiles, ledger := s.ledger[id := marked] + [RefundRow(tx, current)]);
      }
    }
  }

  lemma LoanPreservesValid(s: Db, admin: UserId, req: Request, now: string, nextPayment: string)
    requires Valid(s) && Truthy(req.loanId)
    ensures Valid(ResolveLoan(s, admin, req, now, nextPayment).1)
  {
    var id := req.loanId.value;
    if id in s.loans && s.loans[id].status == PENDING {
      var loan := s.loans[id];
      if req.action == "approve" {
        var current := CurrentBalance(s.profiles, loan.userId, CheckingBalance);
        var profiles := SetBalance(s.profiles, loan.userId, CheckingBalance, current + loan.amount);
        if loan.userId in s.profiles {
          ProfilesValidUpdate(s.profiles, WithBalance(s.profiles[loan.userId], CheckingBalance, current + loan.amount));
        }
        assert ProfilesValid(profiles);
        var loans := s.loans[id := StampLoan(loan, ACTIVE, admin, now, req.notes).(nextPaymentDate := Some(nextPayment))];
        assert LoansValid(loans);
        LedgerValidAppend(s.ledger, [DisbursementRow(id, loan, current)]);
        assert ResolveLoan(s, admin, req, now, nextPayment).1 ==
               s.(profiles := profiles, loans := loans, ledger := s.ledger + [DisbursementRow(id, loan, current)]);
      } else if req.action == "reject" {
        assert LoansValid(s.loans[id := StampLoan(loan, REJECTED, admin, now, req.notes)]);
      }
    }
  }
}
