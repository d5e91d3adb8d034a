/**
 * The add-note sheet: open either under its parent's control (when the
 * parent gives both `open` and `onOpenChange`) or by a flag of its own.
 * Open changes go to the parent's `onOpenChange` when there is one and to
 * the own flag otherwise; a close also calls `onClose`.  A submit closes
 * the sheet only once the note has been created.  The parent's callbacks
 * are reported as what the methods return rather than run.
 */
module AddNote {
  import opened Wrappers

  class Sheet {
    var internalOpen: bool
    /** The parent's `open` prop, None when it is not given. */
    const open: Option<bool>
    const hasOnOpenChange: bool
    const hasOnClose: bool

    constructor(open: Option<bool>, hasOnOpenChange: bool, hasOnClose: bool)
      ensures this.open == open && this.hasOnOpenChange == hasOnOpenChange && this.hasOnClose == hasOnClose
      ensures !internalOpen
    {
      this.open := open;
      this.hasOnOpenChange := hasOnOpenChange;
      this.hasOnClose := hasOnClose;
      internalOpen := false;
    }

    /** `isControlled`: both `open` and `onOpenChange` are given. */
    function IsControlled(): (controlled: bool)
      ensures controlled <==> open.Some? && hasOnOpenChange
    {
      open.Some? && hasOnOpenChange
    }

    /** `isOpen`: the parent's `open` under control, else the own flag. */
    function IsOpen(): (isOpen: bool)
      reads this
      ensures IsControlled() ==> isOpen == open.value
      ensures !IsControlled() ==> isOpen == internalOpen
    {
      if IsControlled() then open.value else internalOpen
    }

    /**
     * handleOpenChange: `forwarded` is the value handed to onOpenChange
     * (None when there is none, and then the own flag takes the value);
     * `closeCalled` says whether onClose ran, which is on a close only.
     */
    method HandleOpenChange(newOpen: bool) returns (forwarded: Option<bool>, closeCalled: bool)
      modifies this
      ensures hasOnOpenChange ==> forwarded == Some(newOpen) && internalOpen == old(internalOpen)
      ensures !hasOnOpenChange ==> forwarded.None? && internalOpen == newOpen
      ensures closeCalled <==> !newOpen && hasOnClose
      ensures !IsControlled() && !hasOnOpenChange ==> IsOpen() == newOpen
      ensures hasOnOpenChange && open.None? ==> IsOpen() == old(IsOpen())
    {
      if hasOnOpenChange {
        forwarded := Some(newOpen);
      } else {
        forwarded := None;
        internalOpen := newOpen;
      }
      closeCalled := !newOpen && hasOnClose;
    }

    /**
     * handleSubmit after the form sent its payload: `created` is whether
     * createNote resolved and `refetchThrew` whether refetchNotes threw.
     * The refetch runs only after a creation, and the sheet is closed (as
     * handleOpenChange(false) does) only when both went through; otherwise
     * the error is caught and nothing else happens.
     */
    method HandleSubmit(created: bool, refetchThrew: bool)
      returns (refetchCalled: bool, forwarded: Option<bool>, closeCalled: bool)
      modifies this
      ensures refetchCalled <==> created
      ensures created && !refetchThrew ==>
        (forwarded == (if hasOnOpenChange then Some(false) else None)) && (closeCalled <==> hasOnClose) &&
        (!hasOnOpenChange ==> !internalOpen)
      ensures !(created && !refetchThrew) ==> forwarded.None? && !closeCalled
      ensures hasOnOpenChange || !(created && !refetchThrew) ==> internalOpen == old(internalOpen)
    {
      refetchCalled := created;
      if created && !refetchThrew {
        forwarded, closeCalled := HandleOpenChange(false);
      } else {
        forwarded, closeCalled := None, false;
      }
    }
  }

  /**
   * With onOpenChange given but no `open`, the own flag is never written,
   * so a sheet that starts closed shows closed after any open change.
   */
  lemma HalfControlledStaysClosed(s: Sheet)
    requires s.hasOnOpenChange && s.open.None? && !s.internalOpen
    ensures !s.IsControlled() && !s.IsOpen()
  {
  }
}
