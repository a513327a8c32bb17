/**
  The camera screen as the object the event handlers update in place: one field per Compose
  state cell, the dialog's `copied` flag, the clipboard, and the analyzer's frame bookkeeping.
  Each handler is proved to take the state the step functions of `ScreenState` describe, and so
  keeps the invariant of `ScreenProperties`.
 */
module CameraScreenModel {
  import opened Wrappers
  import opened ScreenState
  import opened ScreenProperties

  class CameraScreen {
    var detectedBarcode: Option<Barcode>
    var showBarcodeDialog: bool
    var capturedBarcodeData: Option<string>
    var previewPaused: bool
    var copied: bool
    var clipboard: Option<Clip>
    var pendingFrame: Option<Frame>
    var deliveredFrames: seq<Frame>
    var closedFrames: seq<Frame>

    /** The object's fields as a `State` value. */
    function Snapshot(): State
      reads this
    {
      State(detectedBarcode, showBarcodeDialog, capturedBarcodeData, previewPaused, copied,
            clipboard, pendingFrame, deliveredFrames, closedFrames)
    }

    ghost predicate Valid()
      reads this
    {
      Inv(Snapshot())
    }

    constructor (clipboard: Option<Clip>)
      ensures Valid() && Snapshot() == Init(clipboard)
    {
      detectedBarcode := None;
      showBarcodeDialog := false;
      capturedBarcodeData := None;
      previewPaused := false;
      copied := false;
      this.clipboard := clipboard;
      pendingFrame := None;
      deliveredFrames := [];
      closedFrames := [];
    }

    /** `imageProxy.close()`. */
    method Close(f: Frame)
      modifies this`closedFrames
      ensures closedFrames == old(closedFrames) + [f]
    {
      closedFrames := closedFrames + [f];
    }

    /** The analyzer callback: drop the frame when paused or imageless, otherwise start decoding it. */
    method OnFrame(frame: Frame)
      requires Valid() && pendingFrame.None?
      modifies this
      ensures Valid()
      ensures Snapshot() == FrameArrived(old(Snapshot()), frame)
    {
      StepPreservesInv(Snapshot(), FrameDelivered(frame));
      deliveredFrames := deliveredFrames + [frame];
      if previewPaused {
        Close(frame);
        return;
      }
      if !frame.hasImage {
        Close(frame);
        return;
      }
      pendingFrame := Some(frame);
    }

    /** The decoder's success listener (if it succeeded) followed by its completion listener. */
    method OnDecodeComplete(outcome: DecodeOutcome)
      requires Valid() && pendingFrame.Some?
      modifies this
      ensures Valid()
      ensures Snapshot() == DecodeFinished(old(Snapshot()), outcome)
    {
      StepPreservesInv(Snapshot(), DecodeCompleted(outcome));
      if outcome.Decoded? {
        detectedBarcode := FirstOrNull(outcome.barcodes);
      }
      Close(pendingFrame.value);
      pendingFrame := None;
    }

    /** The capture button's click handler. */
    method OnCapture()
      requires Valid()
      modifies this
      ensures Valid()
      ensures Snapshot() == Capture(old(Snapshot()))
    {
      StepPreservesInv(Snapshot(), CaptureTapped);
      if detectedBarcode.Some? {
        capturedBarcodeData := detectedBarcode.value.rawValue;
        previewPaused := true;
        showBarcodeDialog := true;
        if capturedBarcodeData.None? {
          // the guard now fails, so the dialog leaves the composition and forgets `copied`
          copied := false;
        }
      }
    }

    /** The dialog's `onDismiss`. */
    method OnDismiss()
      requires Valid() && DialogComposed(Snapshot())
      modifies this
      ensures Valid()
      ensures Snapshot() == Dismiss(old(Snapshot()))
    {
      StepPreservesInv(Snapshot(), DismissTapped);
      showBarcodeDialog := false;
      previewPaused := false;
      capturedBarcodeData := None;
      // the dialog leaves the composition and forgets `copied`
      copied := false;
    }

    /** The copy icon's click handler in the shown dialog. */
    method OnCopy()
      requires Valid() && DialogComposed(Snapshot())
      modifies this
      ensures Valid()
      ensures Snapshot() == Copy(old(Snapshot()))
    {
      StepPreservesInv(Snapshot(), CopyTapped);
      var barcodeData := capturedBarcodeData.value;
      clipboard := Some(Clip(ClipLabel, barcodeData));
      copied := true;
    }
  }
}
