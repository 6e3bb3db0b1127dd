/** The bracelet page: whether a bracelet is linked, the link dialog with its
    ID input and error line, and the loading flag of the simulated requests. */
module Bracelet {
  import opened Text

  const MissingId := "Please enter a bracelet ID"

  class BraceletPage {
    var braceletId: string
    var loading: bool
    var isLinked: bool
    var showLinkModal: bool
    var error: string

    /** The page opens with a linked bracelet and the dialog closed. */
    constructor ()
      ensures braceletId == "" && !loading && isLinked && !showLinkModal && error == ""
    {
      braceletId := "";
      loading := false;
      isLinked := true;
      showLinkModal := false;
      error := "";
    }

    /** "Link Bracelet" and "Replace Bracelet": the dialog opens. */
    method OpenLinkModal()
      modifies this`showLinkModal
      ensures showLinkModal
    {
      showLinkModal := true;
    }

    /** The ID input's change handler: stores the text and clears the error. */
    method ChangeBraceletId(value: string)
      modifies this`braceletId, this`error
      ensures braceletId == value && error == ""
    {
      braceletId := value;
      error := "";
    }

    /** The dialog's close button and "Cancel": the dialog closes and both the
        ID and the error are cleared; the link state is untouched. */
    method CloseLinkModal()
      modifies this`showLinkModal, this`braceletId, this`error
      ensures !showLinkModal && braceletId == "" && error == ""
    {
      showLinkModal := false;
      braceletId := "";
      error := "";
    }

    /** `handleLinkBracelet`: a blank ID only sets the error; any other ID,
        whatever its format, clears the error and starts loading. */
    method HandleLinkBracelet() returns (accepted: bool)
      modifies this`error, this`loading
      ensures accepted <==> !IsBlank(braceletId)
      ensures !accepted ==> error == MissingId && loading == old(loading)
      ensures accepted ==> error == "" && loading
    {
      if IsBlank(braceletId) {
        error := MissingId;
        return false;
      }
      error := "";
      loading := true;
      accepted := true;
    }

    /** The end of the simulated link request: loading stops, the dialog
        closes, the ID is cleared, and a bracelet is linked (also when one
        already was, as on the replace path). */
    method CompleteLink()
      modifies this`loading, this`showLinkModal, this`braceletId, this`isLinked
      ensures !loading && !showLinkModal && braceletId == "" && isLinked
    {
      loading := false;
      showLinkModal := false;
      braceletId := "";
      isLinked := true;
    }

    /** `handleUnlinkBracelet`, given the answer to the confirmation prompt:
        a declined prompt changes nothing; a confirmed one starts loading. */
    method HandleUnlinkBracelet(confirmed: bool)
      modifies this`loading
      ensures loading == (confirmed || old(loading))
    {
      if !confirmed {
        return;
      }
      loading := true;
    }

    /** The end of the simulated unlink request. */
    method CompleteUnlink()
      modifies this`loading, this`isLinked
      ensures !loading && !isLinked
    {
      loading := false;
      isLinked := false;
    }
  }
}
