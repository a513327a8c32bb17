/**
  What holds of every state the camera screen can reach from its first composition, and what
  particular sequences of events do.
 */
module ScreenProperties {
  import opened Wrappers
  import opened ScreenState

  /** The frame still being decoded, as a sequence of zero or one frames. */
  function InFlight(s: State): seq<Frame>
  {
    if s.pending.Some? then [s.pending.value] else []
  }

  /**
    The invariant of the screen: the preview is paused exactly while the dialog flag is set, a
    value is captured only while the flag is set, `copied` is only set while the dialog is shown,
    the frame in flight has an image, and every delivered frame but the one in flight has been
    closed, once, in delivery order.
   */
  predicate Inv(s: State)
  {
    && s.paused == s.showDialog
    && (s.captured.Some? ==> s.showDialog)
    && (s.copied ==> DialogComposed(s))
    && (s.pending.Some? ==> s.pending.value.hasImage)
    && s.delivered == s.closed + InFlight(s)
  }

  lemma InitSatisfiesInv(clipboard: Option<Clip>)
    ensures Inv(Init(clipboard))
  {
  }

  lemma StepPreservesInv(s: State, e: Event)
    requires Inv(s) && Enabled(s, e)
    ensures Inv(Step(s, e))
  {
  }

  lemma {:induction false} RunPreservesInv(s: State, events: seq<Event>)
    requires Inv(s)
    ensures Run(s, events).Some? ==> Inv(Run(s, events).value)
    decreases |events|
  {
    if |events| > 0 && Enabled(s, events[0]) {
      StepPreservesInv(s, events[0]);
      RunPreservesInv(Step(s, events[0]), events[1..]);
    }
  }

  /** Every state reached from the first composition satisfies the invariant. */
  lemma ReachableStatesSatisfyInv(clipboard: Option<Clip>, events: seq<Event>)
    ensures Run(Init(clipboard), events).Some? ==> Inv(Run(Init(clipboard), events).value)
  {
    InitSatisfiesInv(clipboard);
    RunPreservesInv(Init(clipboard), events);
  }

  /** In every reachable state the preview is paused exactly while the dialog flag is set. */
  lemma PausedIffDialogFlag(clipboard: Option<Clip>, events: seq<Event>)
    requires Run(Init(clipboard), events).Some?
    ensures Run(Init(clipboard), events).value.paused == Run(Init(clipboard), events).value.showDialog
  {
    ReachableStatesSatisfyInv(clipboard, events);
  }

  /**
    In every reachable state each frame has been closed exactly as often as it was delivered,
    except the one frame still being decoded, which is closed once decoding completes.
   */
  lemma FramesClosedOnce(clipboard: Option<Clip>, events: seq<Event>, f: Frame)
    requires Run(Init(clipboard), events).Some?
    ensures var t := Run(Init(clipboard), events).value;
      multiset(t.closed)[f] + (if t.pending == Some(f) then 1 else 0) == multiset(t.delivered)[f]
  {
    ReachableStatesSatisfyInv(clipboard, events);
    var t := Run(Init(clipboard), events).value;
    assert multiset(t.delivered) == multiset(t.closed) + multiset(InFlight(t));
  }

  /** When no decode is running, every delivered frame has been closed, once, in delivery order. */
  lemma IdleScreenClosedAllFrames(clipboard: Option<Clip>, events: seq<Event>)
    requires Run(Init(clipboard), events).Some? && Run(Init(clipboard), events).value.pending.None?
    ensures Run(Init(clipboard), events).value.closed == Run(Init(clipboard), events).value.delivered
  {
    ReachableStatesSatisfyInv(clipboard, events);
    var t := Run(Init(clipboard), events).value;
    assert t.delivered == t.closed + [];
  }

  /** In a reachable state the dialog is shown exactly when a value is captured, and shows that value. */
  lemma DialogShowsCapturedValue(clipboard: Option<Clip>, events: seq<Event>)
    requires Run(Init(clipboard), events).Some?
    ensures RenderedDialog(Run(Init(clipboard), events).value) == Run(Init(clipboard), events).value.captured
  {
    ReachableStatesSatisfyInv(clipboard, events);
  }

  /**
    One analyzer pass on an unpaused preview and a frame with an image, with the decoder's answer
    arriving before anything else happens: the detection follows the decoder as in
    `DecodeFinished`, and the frame is closed exactly once.
   */
  lemma AnalyzeFrameAtomically(s: State, f: Frame, outcome: DecodeOutcome)
    requires s.pending.None? && !s.paused && f.hasImage
    ensures var t := DecodeFinished(FrameArrived(s, f), outcome);
      && t.closed == s.closed + [f]
      && t.delivered == s.delivered + [f]
      && t.pending.None?
      && (outcome.DecodeFailed? ==> t.detected == s.detected)
      && (outcome.Decoded? ==> t.detected == FirstOrNull(outcome.barcodes))
  {
  }

  /** While the dialog is shown, a delivered frame is closed at once and the detection is kept. */
  lemma AnalysisSuspendedWhileDialogShown(s: State, f: Frame)
    requires Inv(s) && DialogComposed(s) && s.pending.None?
    ensures FrameArrived(s, f) == s.(delivered := s.delivered + [f], closed := s.closed + [f])
  {
  }

  /** Capturing a detection with a raw value shows the dialog with that value and pauses the preview. */
  lemma CaptureShowsDetectedValue(s: State, value: string)
    requires s.detected.Some? && s.detected.value.rawValue == Some(value)
    ensures RenderedDialog(Capture(s)) == Some(value) && Capture(s).paused
  {
  }

  /** The copy action after such a capture puts exactly the detected value on the clipboard. */
  lemma CopyAfterCapturePutsDetectedValue(s: State, value: string)
    requires s.detected.Some? && s.detected.value.rawValue == Some(value)
    ensures DialogComposed(Capture(s))
    ensures Copy(Capture(s)).clipboard == Some(Clip(ClipLabel, value))
  {
  }

  /** From a state without a dialog, capturing and then dismissing gives back the same state. */
  lemma DismissUndoesCapture(s: State)
    requires Inv(s) && !s.showDialog
    ensures Dismiss(Capture(s)) == s
  {
  }

  /**
    The screen after a capture whose detection has no raw value, with no decode running: paused,
    the dialog flag set, nothing captured, so no dialog is composed and no dismiss button exists.
   */
  predicate Locked(s: State, b: Barcode)
  {
    && s.detected == Some(b) && b.rawValue.None?
    && s.paused && s.showDialog && s.captured.None?
    && s.pending.None?
  }

  /** Capturing a detection that has no raw value while no decode is running locks the screen. */
  lemma CaptureOfNullValueLocks(s: State, b: Barcode)
    requires s.detected == Some(b) && b.rawValue.None? && s.pending.None?
    ensures Locked(Capture(s), b) && !DialogComposed(Capture(s))
  {
  }

  /**
    A locked screen stays locked whatever happens next: frames are dropped because the preview is
    paused, further captures capture nothing again, and dismiss and copy cannot be reached.
   */
  lemma {:induction false} LockedIsPermanent(s: State, b: Barcode, events: seq<Event>)
    requires Locked(s, b)
    ensures Run(s, events).Some? ==> Locked(Run(s, events).value, b) && !DialogComposed(Run(s, events).value)
    decreases |events|
  {
    if |events| > 0 && Enabled(s, events[0]) {
      LockedIsPermanent(Step(s, events[0]), b, events[1..]);
    }
  }
}
