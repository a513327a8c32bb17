# ScanMyBook camera screen, modelled in Dafny

ScanMyBook is an Android app with one screen. The screen shows the camera preview. It hands every
camera frame that arrives while the preview is not paused, and that has an image, to a barcode
decoder. It remembers the latest detection. When the user taps the
capture button, it shows the detected text in a dialog. The dialog has a copy icon and a close
button.

This project models the screen's state machine in `CameraScreen` and `BarcodeResultDialog`
(`MainActivity.kt`). The state is:

- the four Compose state cells: `detectedBarcode`, `showBarcodeDialog`, `capturedBarcodeData` and `previewPaused`;
- the dialog's remembered `copied` flag;
- the system clipboard;
- a log of the frames delivered to the analyzer and of every `close()` called on them.

The model is in four files:

- `wrappers.dfy`: `Option`, which stands for Kotlin's nullable types. A barcode's `rawValue` is nullable too.
- `screen_state.dfy` (module `ScreenState`): the state as a value, one step function per event,
  the dialog's render guard, which events can happen in which state (`Enabled`), and `Run` over a
  sequence of events.
- `screen_properties.dfy` (module `ScreenProperties`): the invariant of reachable states and lemmas
  about single events and about event sequences.
- `camera_screen.dfy` (module `CameraScreenModel`): class `CameraScreen`. It has one field per
  state cell. Its handlers `OnFrame`, `OnDecodeComplete`, `OnCapture`, `OnDismiss` and `OnCopy`
  update the fields in place. Each handler is proved to produce exactly the state its step
  function gives, and to keep the invariant.

The analyzer is modelled as two events, because the decoder's `process` call is asynchronous:

- `FrameDelivered`: the analyzer lambda up to starting the decode.
- `DecodeCompleted`: the success listener and then the completion listener.

So a decode started before a capture can still change `detectedBarcode` after the preview is
paused. `AnalyzeFrameAtomically` shows that the two events, run back to back, do what the
analyzer does in one piece. The decoder's answer is an input to the model: a list of barcodes, or
a failure.

Some things are taken from the platform's contracts:

- The camera hands the analyzer the next frame only after the previous one is closed. So
  `FrameDelivered` can happen only when no decode is running.
- The close button and the copy icon exist only while the dialog is composed.
- The capture button is always there. The dialog's backdrop does not take clicks, so the button
  can be tapped while the dialog is up.
- Compose forgets the dialog's `copied` flag when the dialog leaves the composition.

A capture of a barcode whose `rawValue` is null sets the dialog flag and pauses the preview. The
dialog is not composed, because the captured value is null. The model keeps this behaviour as it
is written. `CaptureOfNullValueLocks` and `LockedIsPermanent` prove its result: unless a decode is
still running, the screen stays paused with no dialog and no close button after any further events.

A capture shows the dialog only when the detection's `rawValue` is non-null (`MainActivity.kt`
lines 223 and 243).

## Model

| member | source | states |
|---|---|---|
| ScreenState.RenderedDialog | ScanMyBook/app/src/main/java/net/pingu/MainActivity.kt:243-245 | the dialog is composed exactly when the dialog flag is set and a value is captured; it shows the captured value |
| ScreenState.Init | ScanMyBook/app/src/main/java/net/pingu/MainActivity.kt:87-90 | the screen starts with no detection, no captured value, not paused, no dialog flag, no dialog composed, and no frame delivered or in flight |
| ScreenState.Recompose | ScanMyBook/app/src/main/java/net/pingu/MainActivity.kt:303 | the dialog's remembered `copied` flag is kept while the dialog stays composed and cleared when it leaves the composition; nothing else changes |
| ScreenState.Enabled | ScanMyBook/app/src/main/java/net/pingu/MainActivity.kt:103-105 | a frame arrives only when no decode holds the previous one open, a completion only for a running decode, dismiss and copy only while the dialog is composed (lines 243-252, 317, 338), and capture always (line 221) |
| ScreenState.FrameArrived | ScanMyBook/app/src/main/java/net/pingu/MainActivity.kt:105-126 | a frame that arrives while paused or without an image is closed at once; any other frame stays open while it is decoded; the detection and everything else are unchanged |
| ScreenState.DecodeFinished | ScanMyBook/app/src/main/java/net/pingu/MainActivity.kt:126-132 | on success the detection becomes the first barcode found, or null when none was found; on failure it is kept; the decoded frame is closed either way; nothing else changes |
| ScreenState.Capture | ScanMyBook/app/src/main/java/net/pingu/MainActivity.kt:221-227 | without a detection nothing changes; with one, its raw value (possibly null) is captured and the preview is paused and the flag set; the dialog is then shown iff the raw value is non-null; `copied` is kept when the dialog is composed afterwards and cleared when a null raw value leaves it uncomposed; the detection, clipboard and frames are unchanged |
| ScreenState.Dismiss | ScanMyBook/app/src/main/java/net/pingu/MainActivity.kt:246-250 | the flag, the pause and the captured value are cleared, so the dialog is gone; the detection, the clipboard and the frames are unchanged |
| ScreenState.Copy | ScanMyBook/app/src/main/java/net/pingu/MainActivity.kt:317-331 | the clipboard holds a clip labelled "Barcode" whose text is exactly the text the dialog shows, and `copied` is set; nothing else changes |
| ScreenProperties.InitSatisfiesInv | ScanMyBook/app/src/main/java/net/pingu/MainActivity.kt:87-90 | the first composition satisfies the invariant |
| ScreenProperties.StepPreservesInv | ScanMyBook/app/src/main/java/net/pingu/MainActivity.kt:105-250 | every event that can happen keeps the invariant: pause equals the dialog flag, a capture implies the flag, the in-flight frame has an image, and closed frames plus the in-flight one equal the delivered frames |
| ScreenProperties.RunPreservesInv | ScanMyBook/app/src/main/java/net/pingu/MainActivity.kt:105-250 | any sequence of possible events keeps the invariant |
| ScreenProperties.ReachableStatesSatisfyInv | ScanMyBook/app/src/main/java/net/pingu/MainActivity.kt:87-250 | every state reachable from the first composition satisfies the invariant |
| ScreenProperties.PausedIffDialogFlag | ScanMyBook/app/src/main/java/net/pingu/MainActivity.kt:88-90 | in every reachable state `previewPaused == showBarcodeDialog` |
| ScreenProperties.FramesClosedOnce | ScanMyBook/app/src/main/java/net/pingu/MainActivity.kt:105-132 | in every reachable state each frame has been closed as often as it was delivered, except the one still being decoded |
| ScreenProperties.IdleScreenClosedAllFrames | ScanMyBook/app/src/main/java/net/pingu/MainActivity.kt:105-132 | when no decode is running, the close log equals the delivery log |
| ScreenProperties.DialogShowsCapturedValue | ScanMyBook/app/src/main/java/net/pingu/MainActivity.kt:243-245 | in every reachable state the dialog is shown exactly when a value is captured, and it shows that value |
| ScreenProperties.AnalyzeFrameAtomically | ScanMyBook/app/src/main/java/net/pingu/MainActivity.kt:105-132 | one analyzer pass with the decoder answering at once closes the frame exactly once and sets the detection to the first barcode found, or keeps it on failure |
| ScreenProperties.AnalysisSuspendedWhileDialogShown | ScanMyBook/app/src/main/java/net/pingu/MainActivity.kt:106-109 | while the dialog is shown, a delivered frame is only closed and nothing else changes |
| ScreenProperties.CaptureShowsDetectedValue | ScanMyBook/app/src/main/java/net/pingu/MainActivity.kt:222-226 | capturing a detection with raw value v shows the dialog with text v and pauses the preview |
| ScreenProperties.CopyAfterCapturePutsDetectedValue | ScanMyBook/app/src/main/java/net/pingu/MainActivity.kt:328-329 | copying after such a capture puts exactly v on the clipboard |
| ScreenProperties.DismissUndoesCapture | ScanMyBook/app/src/main/java/net/pingu/MainActivity.kt:221-250 | from a state satisfying the invariant with no dialog flag, capture then dismiss gives back the same state |
| ScreenProperties.CaptureOfNullValueLocks | ScanMyBook/app/src/main/java/net/pingu/MainActivity.kt:221-245 | capturing a detection whose raw value is null, with no decode running, leaves the screen paused with the flag set and no dialog composed |
| ScreenProperties.LockedIsPermanent | ScanMyBook/app/src/main/java/net/pingu/MainActivity.kt:105-250 | once locked in that way, the screen stays paused with no dialog after any sequence of possible events |
| CameraScreenModel.CameraScreen.constructor | ScanMyBook/app/src/main/java/net/pingu/MainActivity.kt:87-90 | the fields start as the initial state, which satisfies the invariant |
| CameraScreenModel.CameraScreen.Close | ScanMyBook/app/src/main/java/net/pingu/MainActivity.kt:131 | closing a frame appends it to the close log |
| CameraScreenModel.CameraScreen.OnFrame | ScanMyBook/app/src/main/java/net/pingu/MainActivity.kt:105-126 | the analyzer callback, with its early returns, leaves the fields as `FrameArrived` says and keeps the invariant |
| CameraScreenModel.CameraScreen.OnDecodeComplete | ScanMyBook/app/src/main/java/net/pingu/MainActivity.kt:126-132 | the success and completion listeners leave the fields as `DecodeFinished` says and keep the invariant |
| CameraScreenModel.CameraScreen.OnCapture | ScanMyBook/app/src/main/java/net/pingu/MainActivity.kt:221-227 | the capture click handler leaves the fields as `Capture` says and keeps the invariant |
| CameraScreenModel.CameraScreen.OnDismiss | ScanMyBook/app/src/main/java/net/pingu/MainActivity.kt:246-250 | `onDismiss` leaves the fields as `Dismiss` says and keeps the invariant |
| CameraScreenModel.CameraScreen.OnCopy | ScanMyBook/app/src/main/java/net/pingu/MainActivity.kt:317-331 | the copy click handler leaves the fields as `Copy` says and keeps the invariant |

## Left out

- Camera permission request and `finish()` on denial (lines 47-73): platform lifecycle.
- Camera provider binding, preview surface and the caught and printed binding exception (lines 136-150): calls into CameraX.
- Barcode decoding itself (lines 116-125): ML Kit is an external library. Only its outcome is modelled, as an input.
- The main executor and the keep-only-latest back-pressure policy (lines 93, 103): callbacks are atomic sequential events. Frames the camera drops before they reach the analyzer are not modelled.
- Compose layout, fonts, colours and the floating-point animations (shine offset and copy-icon pulse, lines 164-198 and 318-327): UI rendering.
- The Android clipboard service: replaced by the `clipboard` field. The clip's MIME type is not modelled.
- The fields of an ML Kit `Barcode` other than `rawValue`: the screen reads no other field.
