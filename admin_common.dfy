/** The pieces the admin lists share: a row that expands on click, one at a time, and the
    reject dialog whose confirmation requires a written reason. */
module AdminCommon {
  import opened Js

  /** The expand toggle on clicking row `id`: an expanded row collapses, any other row becomes
      the single expanded one. */
  function Toggle(expanded: Option<string>, id: string): (r: Option<string>)
    ensures expanded == Some(id) ==> r.None?
    ensures expanded != Some(id) ==> r == Some(id)
  {
    if expanded == Some(id) then None else Some(id)
  }

  /** Clicking the same row twice restores the state when that row or no row was expanded;
      when another row was expanded, two clicks leave no row expanded. */
  lemma ToggleTwice(expanded: Option<string>, id: string)
    ensures expanded.None? || expanded == Some(id) ==> Toggle(Toggle(expanded, id), id) == expanded
    ensures expanded.Some? && expanded != Some(id) ==> Toggle(Toggle(expanded, id), id).None?
  {
  }

  /** The call handed to the page's `onAction`. */
  datatype ActionCall = ActionCall(id: string, action: string, notes: Option<string>)

  /** `rejectDialog.id && rejectNotes.trim()`: a row is chosen and the reason is not blank. */
  predicate CanReject(id: Option<string>, notes: string) {
    Truthy(id) && Trim(notes) != ""
  }

  /** The guard holds exactly when a row is chosen and the reason has a character other than whitespace. */
  lemma CanRejectIff(id: Option<string>, notes: string)
    ensures CanReject(id, notes) <==> Truthy(id) && exists i :: 0 <= i < |notes| && !IsWhitespace(notes[i])
  {
    TrimEmptyIff(notes);
  }

  /** The reject dialog and the expanded row of one admin list. */
  class ReviewList {
    var dialogOpen: bool
    var dialogId: Option<string>
    var notes: string
    var expandedId: Option<string>

    constructor ()
      ensures !dialogOpen && dialogId.None? && notes == "" && expandedId.None?
    {
      dialogOpen := false;
      dialogId := None;
      notes := "";
      expandedId := None;
    }

    /** Clicking a row header. */
    method ClickRow(id: string)
      modifies this
      ensures expandedId == Toggle(old(expandedId), id)
      ensures dialogOpen == old(dialogOpen) && dialogId == old(dialogId) && notes == old(notes)
    {
      expandedId := Toggle(expandedId, id);
    }

    /** The Reject button of a row opens the dialog for that row. */
    method OpenReject(id: string)
      modifies this
      ensures dialogOpen && dialogId == Some(id)
      ensures notes == old(notes) && expandedId == old(expandedId)
    {
      dialogOpen := true;
      dialogId := Some(id);
    }

    /** Typing the reason. */
    method SetNotes(text: string)
      modifies this
      ensures notes == text
      ensures dialogOpen == old(dialogOpen) && dialogId == old(dialogId) && expandedId == old(expandedId)
    {
      notes := text;
    }

    /** The dialog's `onOpenChange`: closing it forgets the row, opening keeps it. */
    method OpenChange(open: bool)
      modifies this
      ensures dialogOpen == open && dialogId == (if open then old(dialogId) else None)
      ensures notes == old(notes) && expandedId == old(expandedId)
    {
      dialogId := if open then dialogId else None;
      dialogOpen := open;
    }

    /** The Cancel button. */
    method Cancel()
      modifies this
      ensures !dialogOpen && dialogId.None?
      ensures notes == old(notes) && expandedId == old(expandedId)
    {
      dialogOpen := false;
      dialogId := None;
    }

    /** "Confirm Rejection" is disabled while the reason is blank. */
    predicate ConfirmDisabled()
      reads this
    {
      Trim(notes) == ""
    }

    /** The button is disabled exactly when the reason is all whitespace; with a row chosen, exactly
        when handleReject would do nothing. */
    lemma ConfirmDisabledIff()
      ensures ConfirmDisabled() <==> AllWhitespace(notes)
      ensures Truthy(dialogId) ==> (ConfirmDisabled() <==> !CanReject(dialogId, notes))
    {
      TrimEmptyIff(notes);
    }

    /** `handleReject`: when the guard holds, reject the chosen row with the reason as typed, then close
        the dialog and clear the reason; otherwise do nothing. */
    method HandleReject() returns (call: Option<ActionCall>)
      modifies this
      ensures CanReject(old(dialogId), old(notes)) ==>
                call == Some(ActionCall(old(dialogId).value, "reject", Some(old(notes)))) &&
                !dialogOpen && dialogId.None? && notes == ""
      ensures !CanReject(old(dialogId), old(notes)) ==>
                call.None? && dialogOpen == old(dialogOpen) && dialogId == old(dialogId) && notes == old(notes)
      ensures expandedId == old(expandedId)
    {
      if Truthy(dialogId) && Trim(notes) != "" {
        call := Some(ActionCall(dialogId.value, "reject", Some(notes)));
        dialogOpen := false;
        dialogId := None;
        notes := "";
      } else {
        call := None;
      }
    }
  }
}
