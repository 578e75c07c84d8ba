/**
 * The AR placement controller as a state machine over values.
 *
 * ControllerState gathers everything the handlers read and write: the
 * placement flag, the hit-test source bookkeeping, the reticle, the box and the
 * overlay. Each handler is a step function from state to state; the class in
 * module ArSession runs the same steps on mutable fields. Events and runs over
 * event sequences let the lemmas speak about whole sessions.
 */
module Placement {
  import opened Wrappers
  import opened Geometry
  import opened Sizing

  /** The one box mesh: built once, moved, rescaled, added to and removed from the scene. */
  datatype Box = Box(position: Vec3, scale: Vec3, inScene: bool)

  datatype ControllerState = ControllerState(
    isPlaced: bool,
    hitTestSourceRequested: bool,
    /** whether a hit-test source handle is stored */
    hitTestSourcePresent: bool,
    /** hit-test source requests issued whose promise chain has not resolved yet */
    inFlight: nat,
    reticleVisible: bool,
    reticlePose: Pose,
    box: Box,
    overlayShown: bool,
    /** the text the script last wrote into the info label, if any */
    infoText: Option<string>)

  /**
   * The link between the fields that every reachable state keeps: the box is in
   * the scene exactly when it is placed, and a requested source is either
   * stored or still on its way.
   */
  predicate Inv(s: ControllerState) {
    (s.isPlaced <==> s.box.inScene) &&
    (s.hitTestSourceRequested ==> s.hitTestSourcePresent || s.inFlight > 0)
  }

  /**
   * The state after init and createBox: nothing placed or requested, the reticle
   * hidden with an identity matrix, the box at the origin with scale 0.3 and out
   * of the scene. The overlay's first display comes from the page itself.
   */
  function Initial(overlayShown: bool): (s: ControllerState)
    ensures Inv(s)
    ensures !s.isPlaced && !s.box.inScene && !s.reticleVisible
    ensures !s.hitTestSourceRequested && !s.hitTestSourcePresent && s.inFlight == 0
    ensures s.box.scale == Scale(30, 30, 30) && s.infoText == None
  {
    InitialScaleIsThirtyCentimetres();
    ControllerState(false, false, false, 0, false, Identity,
                    Box(Origin, InitialScale, false), overlayShown, None)
  }

  /** onSelect: a tap. */
  function SelectStep(s: ControllerState): (r: ControllerState)
    // no visible reticle: nothing at all changes
    ensures !s.reticleVisible ==> r == s
    // a visible reticle moves the box to its position, placed or not
    ensures s.reticleVisible ==> r.isPlaced && r.box.position == Position(s.reticlePose)
    // the box joins the scene only when it was not yet placed
    ensures r.box.inScene != s.box.inScene ==> s.reticleVisible && !s.isPlaced
    ensures Inv(s) ==> Inv(r)
    // the tap touches only the box position, its scene membership and the flag
    ensures r.box.scale == s.box.scale && r.reticleVisible == s.reticleVisible
    ensures r.reticlePose == s.reticlePose && r.overlayShown == s.overlayShown
    ensures r.hitTestSourceRequested == s.hitTestSourceRequested
    ensures r.hitTestSourcePresent == s.hitTestSourcePresent && r.inFlight == s.inFlight
    ensures r.infoText == s.infoText
  {
    if s.reticleVisible then
      var moved := s.box.(position := Position(s.reticlePose));
      if !s.isPlaced then s.(box := moved.(inScene := true), isPlaced := true)
      else s.(box := moved)
    else s
  }

  /** onARSessionStart: the overlay is shown when the page has one. */
  function SessionStartStep(s: ControllerState, overlayPresent: bool): (r: ControllerState)
    ensures r.overlayShown == (overlayPresent || s.overlayShown)
    ensures r.(overlayShown := s.overlayShown) == s
  {
    if overlayPresent then s.(overlayShown := true) else s
  }

  /**
   * onARSessionEnd, together with the session 'end' listener that render
   * registers: placement, the source flag and handle are reset and the box
   * leaves the scene, whatever the state was. Shutting the session down rejects
   * the promises it still owes, so no request stays in flight.
   */
  function SessionEndStep(s: ControllerState, overlayPresent: bool): (r: ControllerState)
    ensures !r.isPlaced && !r.box.inScene
    ensures !r.hitTestSourceRequested && !r.hitTestSourcePresent
    ensures r.overlayShown == (if overlayPresent then false else s.overlayShown)
    ensures r.inFlight == 0
    ensures Inv(r)
    // the reticle, the box position and scale and the label stay
    ensures r.reticleVisible == s.reticleVisible && r.reticlePose == s.reticlePose
    ensures r.box.position == s.box.position && r.box.scale == s.box.scale
    ensures r.infoText == s.infoText
  {
    s.(overlayShown := if overlayPresent then false else s.overlayShown,
       isPlaced := false,
       hitTestSourceRequested := false,
       hitTestSourcePresent := false,
       inFlight := 0,
       box := s.box.(inScene := false))
  }

  /**
   * The controller part of render. frame is None when the animation loop runs
   * outside an XR session; otherwise it holds the hit-test results that frame
   * would report for the stored source, each with its pose in the renderer's
   * reference space (the viewer space only sets where the hit-test ray starts),
   * or None where getPose gives null. With a null first pose the reticle has
   * already been made visible when reading the matrix throws, so it shows at
   * its old pose.
   */
  function RenderStep(s: ControllerState, frame: Option<seq<Option<Pose>>>): (r: ControllerState)
    // no frame: no controller state changes
    ensures frame.None? ==> r == s
    // a frame issues a request exactly when none has been issued since the last session end
    ensures frame.Some? ==> r.hitTestSourceRequested
    ensures r.inFlight == s.inFlight + (if frame.Some? && !s.hitTestSourceRequested then 1 else 0)
    // with a source, the reticle shows the first hit, or hides when there is none
    ensures frame.Some? && s.hitTestSourcePresent ==>
              (r.reticleVisible <==> |frame.value| > 0) &&
              r.reticlePose == (if |frame.value| > 0 && frame.value[0].Some? then frame.value[0].value
                                else s.reticlePose)
    // without a source, the reticle is left alone
    ensures !s.hitTestSourcePresent ==> r.reticleVisible == s.reticleVisible && r.reticlePose == s.reticlePose
    ensures r.isPlaced == s.isPlaced && r.box == s.box && r.overlayShown == s.overlayShown
    ensures r.hitTestSourcePresent == s.hitTestSourcePresent && r.infoText == s.infoText
    ensures Inv(s) ==> Inv(r)
  {
    match frame
    case None => s
    case Some(results) =>
      var t := if !s.hitTestSourceRequested
               then s.(hitTestSourceRequested := true, inFlight := s.inFlight + 1)
               else s;
      if !t.hitTestSourcePresent then t
      else if |results| > 0 then
        match results[0]
        case Some(pose) => t.(reticleVisible := true, reticlePose := pose)
        case None => t.(reticleVisible := true)
      else t.(reticleVisible := false)
  }

  /**
   * The promise chain of one request settles and stores the source. With
   * nothing in flight the event cannot occur and the state stays.
   */
  function SourceResolvedStep(s: ControllerState): (r: ControllerState)
    ensures s.inFlight > 0 ==> r.hitTestSourcePresent && r.inFlight == s.inFlight - 1
    ensures s.inFlight == 0 ==> r == s
    ensures r.(hitTestSourcePresent := s.hitTestSourcePresent, inFlight := s.inFlight) == s
    ensures Inv(s) ==> Inv(r)
  {
    if s.inFlight == 0 then s
    else s.(hitTestSourcePresent := true, inFlight := s.inFlight - 1)
  }

  /**
   * updateBoxSize: the three slider values (None for a slider missing from the
   * page) and whether the info element exists.
   */
  function UpdateBoxSizeStep(s: ControllerState, w: Option<int>, h: Option<int>, d: Option<int>,
                             infoPresent: bool): (r: ControllerState)
    // a missing slider: nothing changes
    ensures w.None? || h.None? || d.None? ==> r == s
    // otherwise the scale is the slider values in metres, whatever the placement state
    ensures w.Some? && h.Some? && d.Some? ==>
              r.box.scale.x * 100.0 == w.value as real &&
              r.box.scale.y * 100.0 == h.value as real &&
              r.box.scale.z * 100.0 == d.value as real &&
              r.infoText == (if infoPresent then Some(Label(w.value, h.value, d.value)) else s.infoText)
    ensures r.(box := r.box.(scale := s.box.scale), infoText := s.infoText) == s
    ensures Inv(s) ==> Inv(r)
  {
    if w.None? || h.None? || d.None? then s
    else
      var text := if infoPresent then Some(Label(w.value, h.value, d.value)) else s.infoText;
      s.(infoText := text, box := s.box.(scale := Scale(w.value, h.value, d.value)))
  }

  /** Moving the sliders twice to the same values is the same as once. */
  lemma UpdateBoxSizeIdempotent(s: ControllerState, w: Option<int>, h: Option<int>, d: Option<int>,
                                infoPresent: bool)
    ensures var once := UpdateBoxSizeStep(s, w, h, d, infoPresent);
            UpdateBoxSizeStep(once, w, h, d, infoPresent) == once
  {
  }

  // ---------------------------------------------------------------------------
  // Sessions as event sequences

  datatype Event =
    | Select
    | SessionStart(overlayPresent: bool)
    | SessionEnd(overlayPresent: bool)
    | Render(frame: Option<seq<Option<Pose>>>)
    | HitTestSourceResolved
    | SliderInput(w: Option<int>, h: Option<int>, d: Option<int>, infoPresent: bool)

  function Step(s: ControllerState, e: Event): ControllerState {
    match e
    case Select => SelectStep(s)
    case SessionStart(overlay) => SessionStartStep(s, overlay)
    case SessionEnd(overlay) => SessionEndStep(s, overlay)
    case Render(frame) => RenderStep(s, frame)
    case HitTestSourceResolved => SourceResolvedStep(s)
    case SliderInput(w, h, d, info) => UpdateBoxSizeStep(s, w, h, d, info)
  }

  /** The state after handling the events in order. */
  function Run(s: ControllerState, events: seq<Event>): ControllerState
    decreases |events|
  {
    if events == [] then s else Run(Step(s, events[0]), events[1..])
  }

  /** Every state reachable from a consistent one is consistent. */
  lemma {:induction false} RunKeepsInv(s: ControllerState, events: seq<Event>)
    requires Inv(s)
    ensures Inv(Run(s, events))
    decreases |events|
  {
    if events != [] {
      RunKeepsInv(Step(s, events[0]), events[1..]);
    }
  }

  /** Every state a page can reach from start-up keeps the invariant. */
  lemma ReachableStatesKeepInv(overlayShown: bool, events: seq<Event>)
    ensures Inv(Run(Initial(overlayShown), events))
  {
    RunKeepsInv(Initial(overlayShown), events);
  }

  predicate NoSessionEnd(events: seq<Event>) {
    forall i :: 0 <= i < |events| ==> !events[i].SessionEnd?
  }

  /** Whether handling e in state s issues a hit-test source request. */
  predicate IssuesRequest(s: ControllerState, e: Event) {
    e.Render? && e.frame.Some? && !s.hitTestSourceRequested
  }

  function RequestCount(s: ControllerState, events: seq<Event>): nat
    decreases |events|
  {
    if events == [] then 0
    else (if IssuesRequest(s, events[0]) then 1 else 0) + RequestCount(Step(s, events[0]), events[1..])
  }

  /**
   * Between two session ends the hit-test source is requested at most once, and
   * not at all once a request is outstanding.
   */
  lemma {:induction false} AtMostOneRequestPerSession(s: ControllerState, events: seq<Event>)
    requires NoSessionEnd(events)
    ensures RequestCount(s, events) <= (if s.hitTestSourceRequested then 0 else 1)
    ensures s.hitTestSourceRequested ==> Run(s, events).hitTestSourceRequested
    decreases |events|
  {
    if events != [] {
      assert !events[0].SessionEnd?;
      assert NoSessionEnd(events[1..]) by {
        forall i | 0 <= i < |events[1..]| ensures !events[1..][i].SessionEnd? {
          assert events[1..][i] == events[i + 1];
        }
      }
      AtMostOneRequestPerSession(Step(s, events[0]), events[1..]);
    }
  }

  /** Whether handling e in state s adds the box to the scene. */
  predicate AddsBox(s: ControllerState, e: Event) {
    e.Select? && s.reticleVisible && !s.isPlaced
  }

  function PlacementCount(s: ControllerState, events: seq<Event>): nat
    decreases |events|
  {
    if events == [] then 0
    else (if AddsBox(s, events[0]) then 1 else 0) + PlacementCount(Step(s, events[0]), events[1..])
  }

  /**
   * Between two session ends the box is added to the scene at most once; later
   * taps only move it.
   */
  lemma {:induction false} AtMostOnePlacementPerSession(s: ControllerState, events: seq<Event>)
    requires NoSessionEnd(events)
    ensures PlacementCount(s, events) <= (if s.isPlaced then 0 else 1)
    ensures s.isPlaced ==> Run(s, events).isPlaced
    decreases |events|
  {
    if events != [] {
      assert !events[0].SessionEnd?;
      assert NoSessionEnd(events[1..]) by {
        forall i | 0 <= i < |events[1..]| ensures !events[1..][i].SessionEnd? {
          assert events[1..][i] == events[i + 1];
        }
      }
      AtMostOnePlacementPerSession(Step(s, events[0]), events[1..]);
    }
  }

  /**
   * Taps while the reticle is hidden, however many, leave the state as it was:
   * in particular the box is neither placed nor added to the scene.
   */
  lemma {:induction false} TapsWithoutReticleChangeNothing(s: ControllerState, n: nat)
    requires !s.reticleVisible
    ensures Run(s, seq(n, _ => Select)) == s
    decreases n
  {
    if n > 0 {
      var taps := seq(n, _ => Select);
      assert taps[1..] == seq(n - 1, _ => Select);
      TapsWithoutReticleChangeNothing(s, n - 1);
    }
  }

  /**
   * A session with a stored source that sees a frame with a hit at T and then
   * a tap has the box placed at T's position and in the scene; ending the
   * session then takes it out again.
   */
  lemma PlaceThenEnd(s: ControllerState, t: Pose, more: seq<Option<Pose>>, overlayPresent: bool)
    requires Inv(s) && s.hitTestSourcePresent
    ensures var placed := Run(s, [Render(Some([Some(t)] + more)), Select]);
            placed.isPlaced && placed.box.inScene && placed.box.position == Position(t) &&
            var ended := Step(placed, SessionEnd(overlayPresent));
            !ended.isPlaced && !ended.box.inScene && ended.box.position == Position(t)
  {
    var a := Step(s, Render(Some([Some(t)] + more)));
    assert a.reticleVisible && a.reticlePose == t;
    assert Run(s, [Render(Some([Some(t)] + more)), Select]) == Run(a, [Select]);
  }

  /** Whether e is a frame, the one event that can issue a hit-test source request. */
  predicate IsFrame(e: Event) {
    e.Render? && e.frame.Some?
  }

  predicate NoFrame(events: seq<Event>) {
    forall i :: 0 <= i < |events| ==> !IsFrame(events[i])
  }

  /** With no source stored and none on its way, no source appears until a frame requests one. */
  lemma {:induction false} NoSourceWithoutRequest(s: ControllerState, events: seq<Event>)
    requires !s.hitTestSourcePresent && s.inFlight == 0
    requires NoFrame(events)
    ensures !Run(s, events).hitTestSourcePresent && Run(s, events).inFlight == 0
    decreases |events|
  {
    if events != [] {
      assert !IsFrame(events[0]);
      assert NoFrame(events[1..]) by {
        forall i | 0 <= i < |events[1..]| ensures !IsFrame(events[1..][i]) {
          assert events[1..][i] == events[i + 1];
        }
      }
      NoSourceWithoutRequest(Step(s, events[0]), events[1..]);
    }
  }

  /**
   * After a session end no hit-test source is stored, and none is until a
   * frame of a new session issues a request and that request settles.
   */
  lemma NoSourceAfterSessionEnd(s: ControllerState, overlayPresent: bool, events: seq<Event>)
    requires NoFrame(events)
    ensures var r := Run(s, [SessionEnd(overlayPresent)] + events);
            !r.hitTestSourcePresent && r.inFlight == 0
  {
    var e := SessionEndStep(s, overlayPresent);
    assert ([SessionEnd(overlayPresent)] + events)[1..] == events;
    NoSourceWithoutRequest(e, events);
  }
}
