/** The admin loan list: which loans it shows, the badge colour of each status and where the
    approve and reject controls appear. Its reject dialog and row toggle are AdminCommon.ReviewList. */
module AdminLoans {
  import opened Js
  import AdminCommon

  /** A loan as the list receives it (the columns the logic reads). */
  datatype LoanRow = LoanRow(id: string, userId: string, amount: int, purpose: Option<string>, status: string)

  predicate IsPending(l: LoanRow) {
    l.status == "pending"
  }

  /** `showAll ? loans : loans.filter(l => l.status === "pending")` */
  function DisplayLoans(loans: seq<LoanRow>, showAll: bool): (r: seq<LoanRow>)
    ensures showAll ==> r == loans
    ensures !showAll ==> r == Filter(loans, IsPending)
  {
    if showAll then loans else Filter(loans, IsPending)
  }

  /** Without showAll the list holds exactly the pending loans, in their original order;
      a list of pending loans only is shown whole. */
  lemma PendingView(loans: seq<LoanRow>)
    ensures var r := DisplayLoans(loans, false);
            (forall i :: 0 <= i < |r| ==> r[i].status == "pending" && r[i] in loans) &&
            (forall i :: 0 <= i < |loans| && loans[i].status == "pending" ==> loans[i] in r) &&
            (forall i, j :: 0 <= i < j < |loans| && IsPending(loans[i]) && IsPending(loans[j]) ==>
               exists p, q :: 0 <= p < q < |r| && r[p] == loans[i] && r[q] == loans[j])
    ensures (forall i :: 0 <= i < |loans| ==> loans[i].status == "pending") ==> DisplayLoans(loans, false) == loans
  {
    forall i, j | 0 <= i < j < |loans| && IsPending(loans[i]) && IsPending(loans[j])
      ensures exists p, q :: 0 <= p < q < |Filter(loans, IsPending)| &&
                Filter(loans, IsPending)[p] == loans[i] && Filter(loans, IsPending)[q] == loans[j]
    {
      FilterOrder(loans, IsPending, i, j);
    }
    if forall i :: 0 <= i < |loans| ==> loans[i].status == "pending" {
      FilterKeepsAll(loans, IsPending);
    }
  }

  const PendingColor := "bg-yellow-500/20 text-yellow-600"
  const ActiveColor := "bg-green-500/20 text-green-600"
  const RejectedColor := "bg-destructive/20 text-destructive"
  const CompletedColor := "bg-primary/20 text-primary"
  const DefaultColor := "bg-secondary text-secondary-foreground"

  /** `getStatusColor` */
  function StatusColor(status: string): (c: string)
    ensures status == "pending" ==> c == PendingColor
    ensures status == "active" ==> c == ActiveColor
    ensures status == "rejected" ==> c == RejectedColor
    ensures status == "completed" ==> c == CompletedColor
    ensures status != "pending" && status != "active" && status != "rejected" && status != "completed" ==>
              c == DefaultColor
  {
    match status
    case "pending" => PendingColor
    case "active" => ActiveColor
    case "rejected" => RejectedColor
    case "completed" => CompletedColor
    case _ => DefaultColor
  }

  /** The four known statuses get four different badges, none of them the default one, so a
      badge tells which of the four a loan is in. */
  lemma StatusColorsDistinct(a: string, b: string)
    requires a in ["pending", "active", "rejected", "completed"] && b in ["pending", "active", "rejected", "completed"]
    ensures StatusColor(a) != DefaultColor
    ensures StatusColor(a) == StatusColor(b) ==> a == b
  {
    assert PendingColor[3] != ActiveColor[3] && PendingColor[3] != RejectedColor[3] && PendingColor[3] != CompletedColor[3];
    assert ActiveColor[3] != RejectedColor[3] && ActiveColor[3] != CompletedColor[3];
    assert RejectedColor[3] != CompletedColor[3];
    assert DefaultColor[3] == 's' && PendingColor[3] == 'y' && ActiveColor[3] == 'g' &&
           RejectedColor[3] == 'd' && CompletedColor[3] == 'p';
  }

  /** The approve and reject controls are rendered for a loan only while it is expanded and pending. */
  predicate ActionsShown(expandedId: Option<string>, loan: LoanRow) {
    expandedId == Some(loan.id) && loan.status == "pending"
  }

  /** The controls are offered only for a pending loan, and for loans of one id at a time; clicking
      the row that shows them hides them. */
  lemma ActionsShownPendingOnly(expandedId: Option<string>, a: LoanRow, b: LoanRow)
    ensures ActionsShown(expandedId, a) ==> IsPending(a)
    ensures ActionsShown(expandedId, a) && ActionsShown(expandedId, b) ==> a.id == b.id
    ensures ActionsShown(expandedId, a) ==> !ActionsShown(AdminCommon.Toggle(expandedId, a.id), a)
  {
  }
}
