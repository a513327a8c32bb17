/**
  The state machine behind the barcode camera screen: the four Compose state cells of
  `CameraScreen`, the `copied` flag remembered by the result dialog, the system clipboard,
  and the camera frames handed to the image analyzer. Every callback runs on the main
  executor, so each event below is one atomic, sequential step.
 */
module ScreenState {
  import opened Wrappers

  /** A barcode reported by the decoder. Only its raw text is used, and the decoder may leave it unset. */
  datatype Barcode = Barcode(rawValue: Option<string>)

  /** A camera frame delivered to the analyzer; `hasImage` is false when it carries no media image. */
  datatype Frame = Frame(id: nat, hasImage: bool)

  /** How a decode request finished: with the barcodes found (possibly none), or with a failure. */
  datatype DecodeOutcome = Decoded(barcodes: seq<Barcode>) | DecodeFailed

  /** A plain-text clip as put on the clipboard: a label and the text. */
  datatype Clip = Clip(clipLabel: string, text: string)

  /** The label under which the copy action puts the barcode text on the clipboard. */
  const ClipLabel: string := "Barcode"

  /**
    The screen's state. `detected`, `showDialog`, `captured` and `paused` are the Compose state
    cells; `copied` belongs to the result dialog; `clipboard` is the system clipboard. `pending` is
    the frame whose decoding is still running, `delivered` lists every frame handed to the analyzer
    and `closed` every call of `close()` on a frame, in order.
   */
  datatype State = State(
    detected: Option<Barcode>,
    showDialog: bool,
    captured: Option<string>,
    paused: bool,
    copied: bool,
    clipboard: Option<Clip>,
    pending: Option<Frame>,
    delivered: seq<Frame>,
    closed: seq<Frame>)

  /** The state when the screen is first composed; the clipboard holds whatever it held before. */
  function Init(clipboard: Option<Clip>): (s: State)
    ensures s.detected.None? && s.captured.None? && !s.paused && !s.showDialog && !s.copied
    ensures RenderedDialog(s).None?
    ensures s.pending.None? && s.delivered == [] && s.closed == []
    ensures s.clipboard == clipboard
  {
    State(None, false, None, false, false, clipboard, None, [], [])
  }

  /** Kotlin's `firstOrNull` on the decoder's result list. */
  function FirstOrNull(barcodes: seq<Barcode>): Option<Barcode>
  {
    if |barcodes| == 0 then None else Some(barcodes[0])
  }

  /**
    The render guard of the result dialog: the dialog is composed exactly when the dialog flag is
    set and a value was captured, and it shows that value.
   */
  function RenderedDialog(s: State): (shown: Option<string>)
    ensures shown.Some? <==> s.showDialog && s.captured.Some?
    ensures shown.Some? ==> shown == s.captured
  {
    if s.showDialog then s.captured else None
  }

  predicate DialogComposed(s: State)
  {
    RenderedDialog(s).Some?
  }

  /**
    Compose forgets what the dialog remembered (its `copied` flag) once the dialog leaves the
    composition.
   */
  function Recompose(s: State): (t: State)
    ensures DialogComposed(t) == DialogComposed(s)
    ensures t.copied ==> DialogComposed(t)
    ensures DialogComposed(s) ==> t == s
    ensures t.(copied := s.copied) == s
  {
    if DialogComposed(s) then s else s.(copied := false)
  }

  /**
    The analyzer receives a frame. A paused preview or a frame without an image is closed at
    once; otherwise decoding starts and the frame stays open until decoding completes.
   */
  function FrameArrived(s: State, f: Frame): (t: State)
    requires s.pending.None?
    ensures t.delivered == s.delivered + [f]
    ensures t.detected == s.detected
    ensures t.pending.Some? <==> !s.paused && f.hasImage
    ensures t.pending.None? ==> t.closed == s.closed + [f]
    ensures t.pending.Some? ==> t.pending == Some(f) && t.closed == s.closed
    ensures t.(delivered := s.delivered, closed := s.closed, pending := s.pending) == s
  {
    var s' := s.(delivered := s.delivered + [f]);
    if s.paused then
      s'.(closed := s.closed + [f])
    else if !f.hasImage then
      s'.(closed := s.closed + [f])
    else
      s'.(pending := Some(f))
  }

  /**
    Decoding of the pending frame completes. On success the detection becomes the first barcode
    found, or none when nothing was found; on failure it is kept. Either way the frame is closed.
   */
  function DecodeFinished(s: State, outcome: DecodeOutcome): (t: State)
    requires s.pending.Some?
    ensures outcome.DecodeFailed? ==> t.detected == s.detected
    ensures outcome.Decoded? && |outcome.barcodes| == 0 ==> t.detected.None?
    ensures outcome.Decoded? && |outcome.barcodes| > 0 ==> t.detected == Some(outcome.barcodes[0])
    ensures t.pending.None? && t.closed == s.closed + [s.pending.value]
    ensures t.(detected := s.detected, pending := s.pending, closed := s.closed) == s
  {
    var detected := if outcome.Decoded? then FirstOrNull(outcome.barcodes) else s.detected;
    s.(detected := detected, pending := None, closed := s.closed + [s.pending.value])
  }

  /**
    The capture button is tapped. Without a detection nothing happens; otherwise the detection's
    raw text (possibly unset) is captured, the preview is paused and the dialog flag is set.
   */
  function Capture(s: State): (t: State)
    ensures s.detected.None? ==> t == s
    ensures s.detected.Some? ==> t.captured == s.detected.value.rawValue && t.paused && t.showDialog
    ensures s.detected.Some? ==> (DialogComposed(t) <==> s.detected.value.rawValue.Some?)
    ensures s.detected.Some? ==> t.copied == (s.copied && DialogComposed(t))
    ensures t.(captured := s.captured, paused := s.paused, showDialog := s.showDialog, copied := s.copied) == s
  {
    match s.detected
    case None => s
    case Some(b) => Recompose(s.(captured := b.rawValue, paused := true, showDialog := true))
  }

  /** The dialog is dismissed: the flag, the pause and the captured value are all cleared. */
  function Dismiss(s: State): (t: State)
    ensures !t.showDialog && !t.paused && t.captured.None? && !t.copied
    ensures !DialogComposed(t)
    ensures t.(showDialog := s.showDialog, paused := s.paused, captured := s.captured, copied := s.copied) == s
  {
    Recompose(s.(showDialog := false, paused := false, captured := None))
  }

  /** The copy icon of the shown dialog is tapped: its text goes to the clipboard and `copied` is set. */
  function Copy(s: State): (t: State)
    requires DialogComposed(s)
    ensures t.clipboard.Some? && RenderedDialog(s) == Some(t.clipboard.value.text)
    ensures t.clipboard.value.clipLabel == ClipLabel
    ensures t.copied
    ensures t.(clipboard := s.clipboard, copied := s.copied) == s
  {
    s.(clipboard := Some(Clip(ClipLabel, s.captured.value)), copied := true)
  }

  /** The events the screen reacts to. */
  datatype Event =
    | FrameDelivered(frame: Frame)
    | DecodeCompleted(outcome: DecodeOutcome)
    | CaptureTapped
    | DismissTapped
    | CopyTapped

  /**
    When an event can happen. The camera hands over the next frame only after the previous one
    was closed, a completion belongs to a running decode, and the dismiss button and the copy
    icon exist only while the dialog is composed. The capture button is always there.
   */
  predicate Enabled(s: State, e: Event)
    ensures e.FrameDelivered? ==> (Enabled(s, e) <==> s.pending.None?)
    ensures e.DecodeCompleted? ==> (Enabled(s, e) <==> s.pending.Some?)
    ensures e.CaptureTapped? ==> Enabled(s, e)
    ensures e.DismissTapped? || e.CopyTapped? ==> (Enabled(s, e) <==> DialogComposed(s))
  {
    match e
    case FrameDelivered(_) => s.pending.None?
    case DecodeCompleted(_) => s.pending.Some?
    case CaptureTapped => true
    case DismissTapped => DialogComposed(s)
    case CopyTapped => DialogComposed(s)
  }

  function Step(s: State, e: Event): State
    requires Enabled(s, e)
  {
    match e
    case FrameDelivered(f) => FrameArrived(s, f)
    case DecodeCompleted(o) => DecodeFinished(s, o)
    case CaptureTapped => Capture(s)
    case DismissTapped => Dismiss(s)
    case CopyTapped => Copy(s)
  }

  /** Runs a sequence of events; `None` when one of them cannot happen in the state it meets. */
  function Run(s: State, events: seq<Event>): Option<State>
    decreases |events|
  {
    if |events| == 0 then Some(s)
    else if !Enabled(s, events[0]) then None
    else Run(Step(s, events[0]), events[1..])
  }
}
