/** The admin user list: search, the masked card and location shown for a user, the expanded
    row and the dialog listing one user's transactions. */
module AdminUsers {
  import opened Js
  import AdminCommon

  /** A profile as the list receives it. */
  datatype UserProfile = UserProfile(
    id: string,
    userId: string,
    fullName: string,
    phone: Option<string>,
    country: Option<string>,
    city: Option<string>,
    checking: int,
    savings: int,
    accountNumber: Option<string>,
    cardNumber: Option<string>,
    isFrozen: bool)

  /** One row of the transactions dialog. */
  datatype UserTransaction = UserTransaction(id: string, kind: string, category: string, description: string,
                                             amount: int, status: string)

  /** The search predicate: the name matches case-insensitively, the account number or the phone
      literally; a null account number or phone matches nothing. */
  predicate Matches(term: string, u: UserProfile) {
    Includes(ToLower(u.fullName), ToLower(term)) ||
    (u.accountNumber.Some? && Includes(u.accountNumber.value, term)) ||
    (u.phone.Some? && Includes(u.phone.value, term))
  }

  /** The search predicate for one term, as the filter callback. */
  function SearchFor(term: string): UserProfile -> bool {
    u => Matches(term, u)
  }

  /** `users.filter(...)` with the search predicate. */
  function FilteredUsers(users: seq<UserProfile>, term: string): (r: seq<UserProfile>)
    ensures |r| <= |users|
    ensures forall i :: 0 <= i < |r| ==> r[i] in users && Matches(term, r[i])
    ensures forall i :: 0 <= i < |users| && Matches(term, users[i]) ==> users[i] in r
  {
    Filter(users, SearchFor(term))
  }

  /** A user is kept exactly when the lower-cased term occurs in the lower-cased name, or the term
      occurs in the account number or phone that the user has. */
  lemma MatchesIff(term: string, u: UserProfile)
    ensures Matches(term, u) <==>
              (exists k :: 0 <= k <= |u.fullName| && ToLower(term) <= ToLower(u.fullName)[k..]) ||
              (u.accountNumber.Some? && exists k :: 0 <= k <= |u.accountNumber.value| && term <= u.accountNumber.value[k..]) ||
              (u.phone.Some? && exists k :: 0 <= k <= |u.phone.value| && term <= u.phone.value[k..])
  {
    IncludesIff(ToLower(u.fullName), ToLower(term));
    if u.accountNumber.Some? {
      IncludesIff(u.accountNumber.value, term);
    }
    if u.phone.Some? {
      IncludesIff(u.phone.value, term);
    }
  }

  /** A user without an account number is found by name or phone only. */
  lemma NullAccountNumberNeverMatches(term: string, u: UserProfile)
    requires u.accountNumber.None?
    ensures Matches(term, u) <==> Includes(ToLower(u.fullName), ToLower(term)) ||
                                  (u.phone.Some? && Includes(u.phone.value, term))
  {
  }

  /** A user without a phone is found by name or account number only. */
  lemma NullPhoneNeverMatches(term: string, u: UserProfile)
    requires u.phone.None?
    ensures Matches(term, u) <==> Includes(ToLower(u.fullName), ToLower(term)) ||
                                  (u.accountNumber.Some? && Includes(u.accountNumber.value, term))
  {
  }

  /** A user with neither account number nor phone is found by name only. */
  lemma NullFieldsNeverMatch(term: string, u: UserProfile)
    requires u.accountNumber.None? && u.phone.None?
    ensures Matches(term, u) <==> Includes(ToLower(u.fullName), ToLower(term))
  {
  }

  /** An empty search keeps every user. */
  lemma EmptyTermKeepsAll(users: seq<UserProfile>)
    ensures FilteredUsers(users, "") == users
  {
    forall i | 0 <= i < |users| ensures Matches("", users[i]) {
      IncludesEmpty(ToLower(users[i].fullName));
    }
    FilterKeepsAll(users, SearchFor(""));
  }

  /** The search keeps the list's order. */
  lemma FilteredKeepsOrder(users: seq<UserProfile>, term: string, i: nat, j: nat)
    requires i < j < |users| && Matches(term, users[i]) && Matches(term, users[j])
    ensures exists p, q :: 0 <= p < q < |FilteredUsers(users, term)| &&
              FilteredUsers(users, term)[p] == users[i] && FilteredUsers(users, term)[q] == users[j]
  {
    var r := FilteredUsers(users, term);
    assert r == Filter(users, SearchFor(term));
    FilterOrder(users, SearchFor(term), i, j);
    var p, q :| 0 <= p < q < |r| && r[p] == users[i] && r[q] == users[j];
  }

  /** The card cell: "****" and the card's last four characters, or "N/A" without a card. */
  function CardMask(card: Option<string>): (r: string)
    ensures !Truthy(card) ==> r == "N/A"
    ensures Truthy(card) ==>
              r == "****" + (if |card.value| >= 4 then card.value[|card.value| - 4..] else card.value)
  {
    if Truthy(card) then
      SliceLast(card.value, 4);
      "****" + SliceFrom(card.value, -4)
    else "N/A"
  }

  /** The location cell: "city, country" when both are present and non-empty, "N/A" otherwise. */
  function Location(city: Option<string>, country: Option<string>): (r: string)
    ensures Truthy(city) && Truthy(country) ==> r == city.value + ", " + country.value
    ensures !(Truthy(city) && Truthy(country)) ==> r == "N/A"
  {
    if Truthy(city) && Truthy(country) then city.value + ", " + country.value else "N/A"
  }

  class UsersPanel {
    var searchTerm: string
    var expandedId: Option<string>
    var dialogOpen: bool
    var dialogUserId: Option<string>
    var dialogUserName: string
    var transactions: seq<UserTransaction>
    var loadingTransactions: bool

    constructor ()
      ensures searchTerm == "" && expandedId.None? && !dialogOpen && dialogUserId.None? && dialogUserName == ""
      ensures transactions == [] && !loadingTransactions
    {
      searchTerm := "";
      expandedId := None;
      dialogOpen := false;
      dialogUserId := None;
      dialogUserName := "";
      transactions := [];
      loadingTransactions := false;
    }

    /** The rows currently listed. */
    function Visible(users: seq<UserProfile>): (r: seq<UserProfile>)
      reads this
      ensures forall i :: 0 <= i < |r| ==> r[i] in users && Matches(searchTerm, r[i])
      ensures forall i :: 0 <= i < |users| && Matches(searchTerm, users[i]) ==> users[i] in r
      ensures searchTerm == "" ==> r == users
    {
      EmptyTermKeepsAll(users);
      FilteredUsers(users, searchTerm)
    }

    method SetSearch(term: string)
      modifies this
      ensures searchTerm == term
      ensures expandedId == old(expandedId) && dialogOpen == old(dialogOpen) && transactions == old(transactions)
    {
      searchTerm := term;
    }

    /** Clicking a user row. */
    method ClickRow(id: string)
      modifies this
      ensures expandedId == AdminCommon.Toggle(old(expandedId), id)
      ensures searchTerm == old(searchTerm) && dialogOpen == old(dialogOpen) && transactions == old(transactions)
    {
      expandedId := AdminCommon.Toggle(expandedId, id);
    }

    /** `handleViewTransactions`: opens the dialog for the user, then shows what the page fetched;
        `fetched` is None when the fetch throws, which leaves the previous list in place. */
    method ViewTransactions(user: UserProfile, fetched: Option<seq<UserTransaction>>)
      modifies this
      ensures dialogOpen && dialogUserId == Some(user.userId) && dialogUserName == user.fullName
      ensures transactions == (if fetched.Some? then fetched.value else old(transactions))
      ensures !loadingTransactions
      ensures searchTerm == old(searchTerm) && expandedId == old(expandedId)
    {
      dialogOpen, dialogUserId, dialogUserName := true, Some(user.userId), user.fullName;
      loadingTransactions := true;
      if fetched.Some? {
        transactions := fetched.value;
      }
      loadingTransactions := false;
    }

    /** The dialog's `onOpenChange` changes only whether it is open. */
    method DialogOpenChange(open: bool)
      modifies this
      ensures dialogOpen == open
      ensures dialogUserId == old(dialogUserId) && dialogUserName == old(dialogUserName)
      ensures transactions == old(transactions) && searchTerm == old(searchTerm) && expandedId == old(expandedId)
    {
      dialogOpen := open;
    }
  }
}
