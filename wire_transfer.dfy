/** The wire-transfer page: it shows the balance of the chosen account, fills the form from a
    saved beneficiary, validates the amount against that balance and sends a "wire" request to
    the process-transfer function. */
module WireTransfer {
  import opened Js
  import opened Store
  import ProcessTransfer

  /** The two balance columns the page loads for the signed-in user. */
  datatype Balances = Balances(checking: Option<int>, savings: Option<int>)

  /** A saved wire beneficiary. */
  datatype Beneficiary = Beneficiary(id: string, name: string, bankName: string, accountNumber: string,
                                     swiftCode: Option<string>, iban: Option<string>)

  /** The form fields. `amount` is the typed amount as parsed, in cents; None when it does not parse. */
  datatype FormData = FormData(beneficiaryId: string, recipientName: string, bankName: string,
                               accountNumber: string, swiftCode: string, iban: string,
                               accountType: string, amount: Option<int>, description: string)

  /** `getAvailableBalance`: zero before the profile is loaded, otherwise the chosen column with null as zero. */
  function AvailableBalance(profile: Option<Balances>, accountType: string): (b: int)
    ensures profile.None? ==> b == 0
    ensures profile.Some? && accountType == "savings" ==>
              b == (if profile.value.savings.Some? then profile.value.savings.value else 0)
    ensures profile.Some? && accountType != "savings" ==>
              b == (if profile.value.checking.Some? then profile.value.checking.value else 0)
  {
    match profile
    case None => 0
    case Some(p) =>
      var v := if accountType == "savings" then p.savings else p.checking;
      if v.Some? then v.value else 0
  }

  /** The page shows the same balance the server checks, when both read the same profile row. */
  lemma AvailableMatchesServer(p: Profile, accountType: string)
    ensures AvailableBalance(Some(Balances(p.checking, p.savings)), accountType) == Balance(p, FieldFor(accountType))
  {
  }

  /** `beneficiaries.find(b => b.id === id)` */
  function FindBeneficiary(bs: seq<Beneficiary>, id: string): (r: Option<Beneficiary>)
    ensures r.None? <==> forall i :: 0 <= i < |bs| ==> bs[i].id != id
    ensures r.Some? ==> exists i :: 0 <= i < |bs| && bs[i] == r.value && bs[i].id == id &&
                                    forall j :: 0 <= j < i ==> bs[j].id != id
  {
    if bs == [] then None
    else if bs[0].id == id then Some(bs[0])
    else
      var r := FindBeneficiary(bs[1..], id);
      assert forall i :: 1 <= i < |bs| ==> bs[i] == bs[1..][i - 1];
      r
  }

  /** The form after choosing a beneficiary: a known one fills in the recipient fields (null SWIFT and
      IBAN become ""), and the account type, amount and description are kept; an unknown id changes nothing. */
  function AfterSelect(form: FormData, bs: seq<Beneficiary>, id: string): (r: FormData)
    ensures FindBeneficiary(bs, id).None? ==> r == form
    ensures FindBeneficiary(bs, id).Some? ==>
              var b := FindBeneficiary(bs, id).value;
              r.beneficiaryId == id && b.id == id && r.recipientName == b.name && r.bankName == b.bankName &&
              r.accountNumber == b.accountNumber &&
              r.swiftCode == OrElse(b.swiftCode, "") && r.iban == OrElse(b.iban, "")
    ensures r.accountType == form.accountType && r.amount == form.amount && r.description == form.description
  {
    match FindBeneficiary(bs, id)
    case None => form
    case Some(b) =>
      form.(beneficiaryId := id, recipientName := b.name, bankName := b.bankName, accountNumber := b.accountNumber,
            swiftCode := OrElse(b.swiftCode, ""), iban := OrElse(b.iban, ""))
  }

  /** Why the page refuses to send. */
  datatype FormError = InvalidAmount | InsufficientBalance(available: int) | NotLoggedIn

  /** What pressing "Submit Transfer" does: refuse with a message, or send this request body. */
  datatype Submission = Refuse(error: FormError) | Send(request: ProcessTransfer.Request)

  /** The request body the page sends. */
  function RequestBody(form: FormData, amount: int): (req: ProcessTransfer.Request)
    ensures req.kind == "wire" && req.amount == Some(amount) && req.accountType == form.accountType
    ensures req.description == Some(if form.description != "" then form.description
                                    else "Wire transfer to " + form.recipientName)
    ensures req.beneficiaryId == (if form.beneficiaryId == "" then None else Some(form.beneficiaryId))
    ensures req.bankName == Some(form.bankName) && req.recipientAccountNumber == Some(form.accountNumber)
    ensures req.swiftCode == Some(form.swiftCode) && req.iban == Some(form.iban)
    ensures req.recipientEmail.None? && req.routingNumber.None?
  {
    ProcessTransfer.Request(
      "wire", Some(amount), form.accountType, None, Some(form.accountNumber), Some(form.bankName), None,
      Some(form.swiftCode), Some(form.iban),
      Some(if form.description != "" then form.description else "Wire transfer to " + form.recipientName),
      if form.beneficiaryId == "" then None else Some(form.beneficiaryId))
  }

  /** The checks of `handleSubmit` in order: the amount, the balance, then the session. */
  function Decide(form: FormData, profile: Option<Balances>, hasSession: bool): (r: Submission)
    ensures r.Send? <==> form.amount.Some? && form.amount.value > 0 &&
                         form.amount.value <= AvailableBalance(profile, form.accountType) && hasSession
    ensures r.Send? ==> r.request == RequestBody(form, form.amount.value)
    ensures (form.amount.None? || form.amount.value <= 0) ==> r == Refuse(InvalidAmount)
  {
    if form.amount.None? || form.amount.value <= 0 then Refuse(InvalidAmount)
    else if form.amount.value > AvailableBalance(profile, form.accountType) then
      Refuse(InsufficientBalance(AvailableBalance(profile, form.accountType)))
    else if !hasSession then Refuse(NotLoggedIn)
    else Send(RequestBody(form, form.amount.value))
  }

  /** The page's checks are the server's checks: a request the page sends for a user whose profile
      it loaded passes the server's amount and balance checks, and with no failing write it is held
      as a pending wire transfer. */
  lemma SentRequestIsHeld(form: FormData, p: Profile, uid: UserId, s: Db, txRef: string)
    requires uid in s.profiles && s.profiles[uid] == p
    requires Decide(form, Some(Balances(p.checking, p.savings)), true).Send?
    ensures var req := Decide(form, Some(Balances(p.checking, p.savings)), true).request;
            ProcessTransfer.Admissible(s, SignedIn(uid), req) &&
            ProcessTransfer.Submit(s, SignedIn(uid), req, ProcessTransfer.WriteFaults(false, false, false), txRef).0.Held?
  {
    AvailableMatchesServer(p, form.accountType);
  }

  class WireTransferPage {
    var profile: Option<Balances>
    var beneficiaries: seq<Beneficiary>
    var formData: FormData
    var loading: bool

    constructor (profile: Option<Balances>, beneficiaries: seq<Beneficiary>)
      ensures this.profile == profile && this.beneficiaries == beneficiaries && !loading
      ensures formData == FormData("", "", "", "", "", "", "checking", None, "")
    {
      this.profile := profile;
      this.beneficiaries := beneficiaries;
      formData := FormData("", "", "", "", "", "", "checking", None, "");
      loading := false;
    }

    /** `handleBeneficiarySelect` */
    method SelectBeneficiary(id: string)
      modifies this
      ensures formData == AfterSelect(old(formData), beneficiaries, id)
      ensures profile == old(profile) && beneficiaries == old(beneficiaries) && loading == old(loading)
    {
      var found := FindBeneficiary(beneficiaries, id);
      if found.Some? {
        var b := found.value;
        formData := formData.(beneficiaryId := id, recipientName := b.name, bankName := b.bankName,
                              accountNumber := b.accountNumber, swiftCode := OrElse(b.swiftCode, ""),
                              iban := OrElse(b.iban, ""));
      }
    }

    /** `handleSubmit` up to the call: `loading` is raised for the duration and lowered at the end. */
    method Submit(hasSession: bool) returns (result: Submission)
      modifies this
      ensures result == Decide(old(formData), old(profile), hasSession)
      ensures !loading && formData == old(formData) && profile == old(profile) && beneficiaries == old(beneficiaries)
    {
      loading := true;
      var available := AvailableBalance(profile, formData.accountType);
      if formData.amount.None? || formData.amount.value <= 0 {
        result := Refuse(InvalidAmount);
      } else if formData.amount.value > available {
        result := Refuse(InsufficientBalance(available));
      } else if !hasSession {
        result := Refuse(NotLoggedIn);
      } else {
        result := Send(RequestBody(formData, formData.amount.value));
      }
      loading := false;
    }
  }
}
