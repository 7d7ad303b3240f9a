/** The tables the funds-movement workflow reads and writes: profiles (one per user,
    holding a checking and a savings balance), the transactions ledger, loans,
    user_roles and the auth users list. Money is held as integer cents. */
module Store {
  import opened Js

  type UserId = string

  // Status values of the ledger's `status` column.
  const PENDING := "pending"
  const COMPLETED := "completed"
  const FAILED := "failed"

  // Status values of the loans table that the workflow writes.
  const ACTIVE := "active"
  const REJECTED := "rejected"

  // Values of the ledger's `type` column.
  const CREDIT := "credit"
  const DEBIT := "debit"

  /** A row of `profiles`, restricted to the columns the core uses. A null balance is None. */
  datatype Profile = Profile(
    userId: UserId,
    fullName: string,
    accountNumber: Option<string>,
    checking: Option<int>,
    savings: Option<int>,
    pin: Option<string>)

  /** Which of the two balance columns an operation touches. */
  datatype BalanceField = CheckingBalance | SavingsBalance

  /** `accountType === "savings" ? "savings_balance" : "checking_balance"` */
  function FieldFor(accountType: string): (f: BalanceField)
    ensures f == SavingsBalance <==> accountType == "savings"
  {
    if accountType == "savings" then SavingsBalance else CheckingBalance
  }

  /** The same choice made from a ledger row's nullable `account_type`. */
  function FieldForRow(accountType: Option<string>): (f: BalanceField)
    ensures f == SavingsBalance <==> accountType == Some("savings")
  {
    match accountType
    case Some(t) => FieldFor(t)
    case None => CheckingBalance
  }

  /** The balance column an operation on f leaves alone. */
  function OtherField(f: BalanceField): (g: BalanceField)
    ensures g != f
  {
    match f
    case CheckingBalance => SavingsBalance
    case SavingsBalance => CheckingBalance
  }

  function Stored(p: Profile, f: BalanceField): Option<int> {
    match f
    case CheckingBalance => p.checking
    case SavingsBalance => p.savings
  }

  /** `Number(profile[field]) || 0`: a null column reads as zero. */
  function Balance(p: Profile, f: BalanceField): (b: int)
    ensures Stored(p, f).Some? ==> b == Stored(p, f).value
    ensures Stored(p, f).None? ==> b == 0
  {
    match Stored(p, f)
    case Some(v) => v
    case None => 0
  }

  /** `update({ [field]: v })` on one profile row: that column becomes v, every other column is kept. */
  function WithBalance(p: Profile, f: BalanceField, v: int): (q: Profile)
    ensures Stored(q, f) == Some(v)
    ensures forall g :: g != f ==> Stored(q, g) == Stored(p, g)
    ensures q.userId == p.userId && q.fullName == p.fullName
    ensures q.accountNumber == p.accountNumber && q.pin == p.pin
  {
    match f
    case CheckingBalance => p.(checking := Some(v))
    case SavingsBalance => p.(savings := Some(v))
  }

  /** Writing back the value a column already holds leaves the row as it was. */
  lemma WithBalanceRestores(p: Profile, f: BalanceField, x: int, v: int)
    requires Stored(p, f) == Some(v)
    ensures WithBalance(WithBalance(p, f, x), f, v) == p
  {
  }

  /** A row of `transactions`. `kind` is the `type` column ("credit" or "debit"). */
  datatype Tx = Tx(
    userId: UserId,
    kind: string,
    category: string,
    description: string,
    amount: int,
    status: string,
    reference: Option<string>,
    recipientUserId: Option<UserId>,
    bankName: Option<string>,
    accountNumber: Option<string>,
    routingNumber: Option<string>,
    swiftCode: Option<string>,
    iban: Option<string>,
    beneficiaryId: Option<string>,
    balanceBefore: Option<int>,
    balanceAfter: Option<int>,
    accountType: Option<string>,
    adminActionBy: Option<UserId>,
    adminActionAt: Option<string>,
    adminNotes: Option<string>)

  /** An inserted row whose counterparty and admin columns are left null. */
  function NewRow(userId: UserId, kind: string, category: string, description: string, amount: int,
                  status: string, reference: string, before: int, after: int, accountType: Option<string>): (tx: Tx)
    ensures tx.userId == userId && tx.kind == kind && tx.category == category && tx.amount == amount
    ensures tx.status == status && tx.reference == Some(reference)
    ensures tx.balanceBefore == Some(before) && tx.balanceAfter == Some(after) && tx.accountType == accountType
    ensures tx.adminActionBy.None? && tx.adminNotes.None? && tx.recipientUserId.None?
  {
    Tx(userId, kind, category, description, amount, status, Some(reference), None,
       None, None, None, None, None, None, Some(before), Some(after), accountType, None, None, None)
  }

  /** A row of `loans`, restricted to the columns the workflow uses. */
  datatype Loan = Loan(
    userId: UserId,
    amount: int,
    purpose: Option<string>,
    status: string,
    adminActionBy: Option<UserId>,
    adminActionAt: Option<string>,
    adminNotes: Option<string>,
    nextPaymentDate: Option<string>)

  /** Who sent a request: no Authorization header at all, a header whose session the auth
      service does not accept, or a signed-in user. */
  datatype Caller = NoHeader | BadSession | SignedIn(id: UserId)

  /** A row of `user_roles`. */
  datatype RoleRow = RoleRow(userId: UserId, role: string)

  /** An entry of the auth service's user list. */
  datatype AuthUser = AuthUser(id: UserId, email: string)

  /** The whole store as a value. */
  datatype Db = Db(
    profiles: map<UserId, Profile>,
    ledger: seq<Tx>,
    loans: map<string, Loan>,
    roles: seq<RoleRow>,
    authUsers: seq<AuthUser>)

  /** The store the edge functions talk to; each table is a field they reassign. */
  class Database {
    var profiles: map<UserId, Profile>
    var ledger: seq<Tx>
    var loans: map<string, Loan>
    var roles: seq<RoleRow>
    var authUsers: seq<AuthUser>

    /** A connection to the store holding these tables. */
    constructor (profiles: map<UserId, Profile>, ledger: seq<Tx>, loans: map<string, Loan>, roles: seq<RoleRow>,
                 authUsers: seq<AuthUser>)
      ensures State() == Db(profiles, ledger, loans, roles, authUsers)
    {
      this.profiles := profiles;
      this.ledger := ledger;
      this.loans := loans;
      this.roles := roles;
      this.authUsers := authUsers;
    }

    function State(): Db
      reads this
    {
      Db(profiles, ledger, loans, roles, authUsers)
    }
  }

  // ---------------------------------------------------------------------------
  // The store's invariant

  predicate NonNegative(p: Profile) {
    (p.checking.Some? ==> p.checking.value >= 0) && (p.savings.Some? ==> p.savings.value >= 0)
  }

  /** balance_after = balance_before - amount on a debit row, + amount on a credit row. */
  predicate SnapshotConsistent(tx: Tx) {
    tx.balanceBefore.Some? && tx.balanceAfter.Some? ==>
      (tx.kind == DEBIT ==> tx.balanceAfter.value == tx.balanceBefore.value - tx.amount) &&
      (tx.kind == CREDIT ==> tx.balanceAfter.value == tx.balanceBefore.value + tx.amount)
  }

  predicate ProfilesValid(profiles: map<UserId, Profile>) {
    forall u :: u in profiles ==> profiles[u].userId == u && NonNegative(profiles[u])
  }

  predicate LedgerValid(ledger: seq<Tx>) {
    forall i :: 0 <= i < |ledger| ==> ledger[i].amount >= 0 && SnapshotConsistent(ledger[i])
  }

  predicate LoansValid(loans: map<string, Loan>) {
    forall id :: id in loans ==> loans[id].amount >= 0
  }

  /** Every present balance is non-negative, every profile is keyed by its user id,
      every ledger row moves a non-negative amount with a consistent snapshot, and no loan is negative. */
  predicate Valid(s: Db) {
    ProfilesValid(s.profiles) && LedgerValid(s.ledger) && LoansValid(s.loans)
  }

  /** Putting a row with non-negative balances under its own key keeps the profiles valid. */
  lemma ProfilesValidUpdate(profiles: map<UserId, Profile>, p: Profile)
    requires ProfilesValid(profiles) && NonNegative(p)
    ensures ProfilesValid(profiles[p.userId := p])
  {
  }

  /** Appending valid rows keeps the ledger valid. */
  lemma LedgerValidAppend(ledger: seq<Tx>, rows: seq<Tx>)
    requires LedgerValid(ledger) && LedgerValid(rows)
    ensures LedgerValid(ledger + rows)
  {
    forall i | 0 <= i < |ledger + rows|
      ensures (ledger + rows)[i].amount >= 0 && SnapshotConsistent((ledger + rows)[i])
    {
      if i >= |ledger| {
        assert (ledger + rows)[i] == rows[i - |ledger|];
      }
    }
  }

  /** Replacing one row by a row with a non-negative amount and a consistent snapshot keeps the ledger valid. */
  lemma LedgerValidSet(ledger: seq<Tx>, i: nat, tx: Tx)
    requires LedgerValid(ledger) && i < |ledger| && tx.amount >= 0 && SnapshotConsistent(tx)
    ensures LedgerValid(ledger[i := tx])
  {
  }

  // ---------------------------------------------------------------------------
  // Lookups

  /** The filter callback selecting one user's role rows. */
  function RowOf(u: UserId): RoleRow -> bool {
    (row: RoleRow) => row.userId == u
  }

  /** The roles recorded for a user, in table order: one entry per role row of that user. */
  function RolesOf(roles: seq<RoleRow>, u: UserId): (r: seq<string>)
    ensures |r| <= |roles|
    ensures forall x :: x in r <==> RoleRow(u, x) in roles
    ensures |r| == |Filter(roles, RowOf(u))|
  {
    if roles == [] then []
    else (if roles[0].userId == u then [roles[0].role] else []) + RolesOf(roles[1..], u)
  }

  /** `from("user_roles").select("role").eq("user_id", u).single()` followed by `role === "admin"`:
      single() yields a row only when exactly one matches. */
  predicate IsAdmin(roles: seq<RoleRow>, u: UserId) {
    var r := RolesOf(roles, u);
    |r| == 1 && r[0] == "admin"
  }

  /** The roles are listed in the order of the user's role rows. */
  lemma {:induction false} RolesOfInOrder(roles: seq<RoleRow>, u: UserId)
    ensures forall i :: 0 <= i < |RolesOf(roles, u)| ==> RolesOf(roles, u)[i] == Filter(roles, RowOf(u))[i].role
    decreases |roles|
  {
    if roles != [] {
      RolesOfInOrder(roles[1..], u);
    }
  }

  /** The admin test passes exactly when the user has one role row and it reads "admin". */
  lemma IsAdminIff(roles: seq<RoleRow>, u: UserId)
    ensures IsAdmin(roles, u) <==> |Filter(roles, RowOf(u))| == 1 && Filter(roles, RowOf(u))[0] == RoleRow(u, "admin")
  {
    RolesOfInOrder(roles, u);
  }

  /** A user with two role rows is never an admin, even when one of the rows says "admin". */
  lemma SeveralRolesNotAdmin(roles: seq<RoleRow>, u: UserId, i: nat, j: nat)
    requires i < j < |roles| && roles[i].userId == u && roles[j].userId == u
    ensures !IsAdmin(roles, u)
  {
    FilterOrder(roles, RowOf(u), i, j);
  }

  /** `users.find(u => u.email === email)`: the first auth user with that email. */
  function FindByEmail(users: seq<AuthUser>, email: string): (r: Option<UserId>)
    ensures r.Some? <==> exists i :: 0 <= i < |users| && users[i].email == email
    ensures r.Some? ==> exists i :: 0 <= i < |users| && users[i].email == email && users[i].id == r.value &&
                                    forall j :: 0 <= j < i ==> users[j].email != email
  {
    if users == [] then None
    else if users[0].email == email then Some(users[0].id)
    else
      var r := FindByEmail(users[1..], email);
      assert forall i :: 1 <= i < |users| ==> users[i] == users[1..][i - 1];
      r
  }

  /** The users whose profile carries the given account number. */
  function WithAccountNumber(profiles: map<UserId, Profile>, n: string): set<UserId> {
    set u | u in profiles && profiles[u].accountNumber == Some(n)
  }

  lemma SingletonMember<T>(s: set<T>, x: T, y: T)
    requires |s| == 1 && x in s && y in s
    ensures x == y
  {
    assert |s - {x}| == 0;
    assert y !in s - {x};
  }

  /** `from("profiles").eq("account_number", n).single()`: the profile when exactly one row matches. */
  function ByAccountNumber(profiles: map<UserId, Profile>, n: string): (r: Option<UserId>)
    ensures r.Some? <==> |WithAccountNumber(profiles, n)| == 1
    ensures r.Some? ==> r.value in profiles && profiles[r.value].accountNumber == Some(n)
    ensures r.Some? ==> forall u :: u in profiles && profiles[u].accountNumber == Some(n) ==> u == r.value
  {
    var matches := WithAccountNumber(profiles, n);
    if |matches| == 1 then
      var u :| u in matches;
      assert forall v :: v in profiles && profiles[v].accountNumber == Some(n) ==> v == u by {
        forall v | v in profiles && profiles[v].accountNumber == Some(n) ensures v == u {
          assert v in matches;
          SingletonMember(matches, u, v);
        }
      }
      Some(u)
    else None
  }
}
