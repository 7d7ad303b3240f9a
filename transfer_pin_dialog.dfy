/** The transfer-PIN dialog: in create mode the user enters a four-digit PIN, confirms it and it is
    written to the profile; in verify mode the entered PIN is compared with the stored one. */
module TransferPinDialog {
  import opened Js
  import opened Store

  datatype Mode = Create | Verify
  datatype PinStep = Enter | Confirm

  /** The PIN is stored on the user's own profile row, if there is one. */
  function WithPin(profiles: map<UserId, Profile>, u: UserId, pin: string): (r: map<UserId, Profile>)
    ensures r.Keys == profiles.Keys
    ensures u in profiles ==> r[u] == profiles[u].(pin := Some(pin))
    ensures forall w :: w in profiles && w != u ==> r[w] == profiles[w]
  {
    if u in profiles then profiles[u := profiles[u].(pin := Some(pin))] else profiles
  }

  class PinDialog {
    var pin: string
    var confirmPin: string
    var step: PinStep
    var loading: bool
    const mode: Mode
    const userId: UserId

    /** The confirm step is only ever reached in create mode, with a complete PIN entered. */
    predicate Valid()
      reads this
    {
      step == Confirm ==> mode == Create && |pin| == 4
    }

    constructor (mode: Mode, userId: UserId)
      ensures Valid()
      ensures this.mode == mode && this.userId == userId
      ensures pin == "" && confirmPin == "" && step == Enter && !loading
    {
      this.mode := mode;
      this.userId := userId;
      pin := "";
      confirmPin := "";
      step := Enter;
      loading := false;
    }

    /** The code field shows, and typing changes, the confirmation in the confirm step and the PIN otherwise. */
    method Input(value: string)
      requires Valid()
      modifies this
      ensures Valid()
      ensures Shown() == value
      ensures step == old(step) && loading == old(loading)
      ensures old(mode == Create && step == Confirm) ==> confirmPin == value && pin == old(pin)
      ensures !old(mode == Create && step == Confirm) ==> pin == value && confirmPin == old(confirmPin)
    {
      if mode == Create && step == Confirm {
        confirmPin := value;
      } else {
        pin := value;
      }
    }

    /** The code the input field shows: the confirmation in create mode's confirm step, the PIN otherwise. */
    function Shown(): string
      reads this
    {
      if mode == Create && step == Confirm then confirmPin else pin
    }

    /** The main button is enabled when the dialog is idle and the code relevant to the step has four characters. */
    predicate ButtonEnabled()
      reads this
    {
      !loading && (if mode == Create && step == Confirm then |confirmPin| == 4 else |pin| == 4)
    }

    /** The button is enabled exactly when the dialog is idle and the code the field shows is complete;
        in the enter step that is exactly when pressing it moves create mode on to the confirm step. */
    lemma ButtonEnabledIff()
      requires Valid()
      ensures ButtonEnabled() <==> !loading && |Shown()| == 4
      ensures step == Enter ==> (ButtonEnabled() <==> !loading && |pin| == 4)
    {
    }

    /** `handleCreatePin`. Returns whether onSuccess was called. `writeFails` says whether the profile write errs. */
    method CreatePin(db: Database, writeFails: bool) returns (succeeded: bool)
      requires Valid() && mode == Create && !loading
      modifies this, db
      ensures Valid() && !loading
      // enter step: a PIN of the wrong length stays put; a complete one moves on and stores nothing
      ensures old(step) == Enter && |old(pin)| != 4 ==>
                !succeeded && step == Enter && pin == old(pin) && confirmPin == old(confirmPin)
      ensures old(step) == Enter && |old(pin)| == 4 ==>
                !succeeded && step == Confirm && pin == old(pin) && confirmPin == old(confirmPin)
      ensures old(step) == Enter ==> db.State() == old(db.State())
      // confirm step: a mismatch clears the confirmation and stores nothing
      ensures old(step) == Confirm && old(confirmPin) != old(pin) ==>
                !succeeded && step == Confirm && confirmPin == "" && pin == old(pin) && db.State() == old(db.State())
      // confirm step: a match writes the four-character PIN to the user's profile, unless the write errs
      ensures old(step) == Confirm && old(confirmPin) == old(pin) ==>
                succeeded == !writeFails && step == Confirm && pin == old(pin) && confirmPin == old(confirmPin) &&
                |old(pin)| == 4 &&
                db.State() == if writeFails then old(db.State())
                              else old(db.State()).(profiles := WithPin(old(db.profiles), userId, old(pin)))
      ensures succeeded ==> old(step) == Confirm && old(confirmPin) == old(pin)
      ensures old(step) == Enter ==> (step == Confirm <==> old(ButtonEnabled()))
    {
      succeeded := false;
      if step == Enter {
        if |pin| != 4 {
          return;
        }
        step := Confirm;
        return;
      }
      if confirmPin != pin {
        confirmPin := "";
        return;
      }
      loading := true;
      if !writeFails {
        db.profiles := WithPin(db.profiles, userId, pin);
        succeeded := true;
      }
      loading := false;
    }

    /** `handleVerifyPin`. Returns whether onSuccess was called. `readFails` says whether the query errs;
        a user without a profile row is an error too. */
    method VerifyPin(profiles: map<UserId, Profile>, readFails: bool) returns (succeeded: bool)
      requires Valid() && mode == Verify && !loading
      modifies this
      ensures Valid() && !loading && step == old(step) && confirmPin == old(confirmPin)
      ensures |old(pin)| != 4 ==> !succeeded && pin == old(pin)
      ensures succeeded <==> |old(pin)| == 4 && !readFails && userId in profiles && profiles[userId].pin == Some(old(pin))
      ensures |old(pin)| == 4 && !readFails && userId in profiles && profiles[userId].pin != Some(old(pin)) ==> pin == ""
      ensures !(|old(pin)| == 4 && !readFails && userId in profiles && profiles[userId].pin != Some(old(pin))) ==>
                pin == old(pin)
    {
      succeeded := false;
      if |pin| != 4 {
        return;
      }
      loading := true;
      if readFails || userId !in profiles {
        loading := false;
        return;
      }
      if profiles[userId].pin != Some(pin) {
        pin := "";
        loading := false;
        return;
      }
      succeeded := true;
      loading := false;
    }

    /** `handleClose`: everything entered is forgotten and the dialog starts over. */
    method Close()
      modifies this
      ensures Valid()
      ensures pin == "" && confirmPin == "" && step == Enter && loading == old(loading)
    {
      pin := "";
      confirmPin := "";
      step := Enter;
    }

    /** "Go Back" from the confirm step: back to entering, with the confirmation cleared. */
    method GoBack()
      modifies this
      ensures Valid()
      ensures step == Enter && confirmPin == "" && pin == old(pin) && loading == old(loading)
    {
      step := Enter;
      confirmPin := "";
    }
  }
}
