/** The funds-movement workflow as a whole: any sequence of transfer submissions and admin
    decisions, applied one request at a time. */
module Workflow {
  import opened Js
  import opened Store
  import ProcessTransfer
  import AdminAction

  /** One request to either edge function. */
  datatype Op =
    | Transfer(caller: Caller, body: ProcessTransfer.Request, faults: ProcessTransfer.WriteFaults, txRef: string)
    | Decide(caller: Caller, req: AdminAction.Request, now: string, nextPayment: string)

  function Step(s: Db, op: Op): Db {
    match op
    case Transfer(caller, body, faults, txRef) => ProcessTransfer.Submit(s, caller, body, faults, txRef).1
    case Decide(caller, req, now, nextPayment) => AdminAction.Resolve(s, caller, req, now, nextPayment).1
  }

  /** The store after the requests in order. */
  function Run(s: Db, ops: seq<Op>): Db
    decreases |ops|
  {
    if ops == [] then s else Run(Step(s, ops[0]), ops[1..])
  }

  /** Decided rows and loans never change again, rows are never removed and loans never deleted. */
  predicate Settles(s: Db, t: Db) {
    |s.ledger| <= |t.ledger| &&
    (forall i :: 0 <= i < |s.ledger| && s.ledger[i].status != PENDING ==> t.ledger[i] == s.ledger[i]) &&
    (forall id :: id in s.loans ==> id in t.loans) &&
    (forall id :: id in s.loans && s.loans[id].status != PENDING ==> t.loans[id] == s.loans[id])
  }

  lemma SettlesTransitive(s: Db, t: Db, w: Db)
    requires Settles(s, t) && Settles(t, w)
    ensures Settles(s, w)
  {
  }

  /** Every single request keeps the invariant and the settled part of the store. */
  lemma StepKeeps(s: Db, op: Op)
    requires Valid(s)
    ensures Valid(Step(s, op)) && Settles(s, Step(s, op))
  {
    match op
    case Transfer(caller, body, faults, txRef) =>
      ProcessTransfer.SubmitPreservesValid(s, caller, body, faults, txRef);
    case Decide(caller, req, now, nextPayment) =>
      AdminAction.ResolvePreservesValid(s, caller, req, now, nextPayment);
  }

  /** Balance non-negativity, snapshot consistency and the keyed profiles hold after any run,
      and no decided row or loan is ever rewritten. */
  lemma {:induction false} RunKeeps(s: Db, ops: seq<Op>)
    requires Valid(s)
    ensures Valid(Run(s, ops)) && Settles(s, Run(s, ops))
    decreases |ops|
  {
    if ops != [] {
      StepKeeps(s, ops[0]);
      RunKeeps(Step(s, ops[0]), ops[1..]);
      SettlesTransitive(s, Step(s, ops[0]), Run(Step(s, ops[0]), ops[1..]));
    }
  }

  /** The hold-then-refund round trip: a wire or local transfer that is held and then rejected by an
      admin leaves the sender's balance on that account type where it started, and the refund row
      carries exactly the held amount. */
  lemma HoldThenRejectRestores(s: Db, uid: UserId, body: ProcessTransfer.Request, faults: ProcessTransfer.WriteFaults,
                               txRef: string, admin: UserId, notes: Option<string>, now: string, nextPayment: string)
    requires ProcessTransfer.Submit(s, SignedIn(uid), body, faults, txRef).0.Held?
    requires IsAdmin(s.roles, admin)
    ensures var t := ProcessTransfer.Submit(s, SignedIn(uid), body, faults, txRef).1;
            var req := AdminAction.Request("reject", Some(|s.ledger|), None, notes);
            var w := AdminAction.Resolve(t, SignedIn(admin), req, now, nextPayment).1;
            var f := FieldFor(body.accountType);
            uid in s.profiles && uid in w.profiles &&
            Balance(w.profiles[uid], f) == Balance(s.profiles[uid], f) &&
            |w.ledger| == |s.ledger| + 2 &&
            w.ledger[|s.ledger|].status == FAILED &&
            w.ledger[|s.ledger| + 1].amount == body.amount.value &&
            w.ledger[|s.ledger| + 1].kind == CREDIT && w.ledger[|s.ledger| + 1].userId == uid
  {
    var t := ProcessTransfer.Submit(s, SignedIn(uid), body, faults, txRef).1;
    ProcessTransfer.HeldEffect(s, uid, body, faults, txRef);
    var row := t.ledger[|s.ledger|];
    assert FieldForRow(row.accountType) == FieldFor(body.accountType);
    var req := AdminAction.Request("reject", Some(|s.ledger|), None, notes);
    AdminAction.RejectTransactionRefunds(t, admin, req, now, nextPayment);
  }

  /** The hold-then-approve path: the held funds stay debited and no further money moves. */
  lemma HoldThenApproveKeepsDebit(s: Db, uid: UserId, body: ProcessTransfer.Request, faults: ProcessTransfer.WriteFaults,
                                  txRef: string, admin: UserId, notes: Option<string>, now: string, nextPayment: string)
    requires ProcessTransfer.Submit(s, SignedIn(uid), body, faults, txRef).0.Held?
    requires IsAdmin(s.roles, admin)
    ensures var t := ProcessTransfer.Submit(s, SignedIn(uid), body, faults, txRef).1;
            var req := AdminAction.Request("approve", Some(|s.ledger|), None, notes);
            var w := AdminAction.Resolve(t, SignedIn(admin), req, now, nextPayment).1;
            var f := FieldFor(body.accountType);
            uid in s.profiles && uid in w.profiles &&
            Balance(w.profiles[uid], f) == Balance(s.profiles[uid], f) - body.amount.value &&
            |w.ledger| == |s.ledger| + 1 && w.ledger[|s.ledger|].status == COMPLETED
  {
    var t := ProcessTransfer.Submit(s, SignedIn(uid), body, faults, txRef).1;
    ProcessTransfer.HeldEffect(s, uid, body, faults, txRef);
    var req := AdminAction.Request("approve", Some(|s.ledger|), None, notes);
    AdminAction.ApproveTransaction(t, admin, req, now, nextPayment);
  }
}
