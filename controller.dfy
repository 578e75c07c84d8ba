/**
 * The placement controller as the script keeps it: module-level variables and
 * mesh properties that the event handlers assign in place. Each handler is a
 * method whose new state is the matching step of module Placement applied to
 * the old state, so the lemmas proved there hold of every run of these methods.
 */
module ArSession {
  import opened Wrappers
  import opened Geometry
  import opened Sizing
  import opened Placement

  class PlacementController {
    var isPlaced: bool
    var hitTestSourceRequested: bool
    /** whether the hitTestSource variable holds a source (it is null otherwise) */
    var hitTestSourcePresent: bool
    /** requests whose promise chain has not stored a source yet */
    var inFlight: nat
    var reticleVisible: bool
    /** reticle.matrix */
    var reticlePose: Pose
    /** boxMesh.position, boxMesh.scale, and whether boxMesh is a child of the scene */
    var boxPosition: Vec3
    var boxScale: Vec3
    var boxInScene: bool
    /** whether the overlay element is displayed */
    var overlayShown: bool
    /** what the script last wrote into the info element */
    var infoText: Option<string>

    /** The fields as one value. */
    function State(): ControllerState
      reads this
    {
      ControllerState(isPlaced, hitTestSourceRequested, hitTestSourcePresent, inFlight,
                      reticleVisible, reticlePose, Box(boxPosition, boxScale, boxInScene),
                      overlayShown, infoText)
    }

    ghost predicate Valid()
      reads this
    {
      Inv(State())
    }

    /** init and createBox; overlayShown is how the page first displays the overlay. */
    constructor (overlayShown: bool)
      ensures Valid()
      ensures State() == Initial(overlayShown)
    {
      isPlaced := false;
      hitTestSourceRequested := false;
      hitTestSourcePresent := false;
      inFlight := 0;
      reticleVisible := false;
      reticlePose := Identity;
      boxPosition := Origin;
      boxScale := InitialScale;
      boxInScene := false;
      this.overlayShown := overlayShown;
      infoText := None;
    }

    /** onSelect: a tap moves the box to the reticle, adding it to the scene the first time. */
    method OnSelect()
      requires Valid()
      modifies this
      ensures Valid()
      ensures State() == SelectStep(old(State()))
      ensures !old(reticleVisible) ==> unchanged(this)
      ensures old(reticleVisible) ==> isPlaced && boxInScene && boxPosition == Position(old(reticlePose))
    {
      if reticleVisible {
        boxPosition := Position(reticlePose);
        if !isPlaced {
          boxInScene := true;
          isPlaced := true;
        }
      }
    }

    /** onARSessionStart: show the overlay if the page has one. */
    method OnSessionStart(overlayPresent: bool)
      requires Valid()
      modifies this
      ensures Valid()
      ensures State() == SessionStartStep(old(State()), overlayPresent)
    {
      if overlayPresent {
        overlayShown := true;
      }
    }

    /** onARSessionEnd, with the reset the session's own 'end' listener repeats. */
    method OnSessionEnd(overlayPresent: bool)
      requires Valid()
      modifies this
      ensures Valid()
      ensures State() == SessionEndStep(old(State()), overlayPresent)
      ensures !isPlaced && !boxInScene && !hitTestSourceRequested && !hitTestSourcePresent
      ensures reticleVisible == old(reticleVisible) && boxPosition == old(boxPosition)
      ensures boxScale == old(boxScale) && inFlight == 0
    {
      if overlayPresent {
        overlayShown := false;
      }
      isPlaced := false;
      hitTestSourceRequested := false;
      hitTestSourcePresent := false;
      // the shut-down rejects the requests the session still owes an answer
      inFlight := 0;
      if boxInScene {
        boxInScene := false;
      }
    }

    /**
     * The hit-test part of render: request a source once per session, then let
     * the reticle follow the first hit when a source is stored. A first hit
     * without a pose (None) leaves the reticle visible at its old pose, which is
     * where the script stops when reading the null pose throws.
     */
    method Render(frame: Option<seq<Option<Pose>>>)
      requires Valid()
      modifies this
      ensures Valid()
      ensures State() == RenderStep(old(State()), frame)
      ensures frame.None? ==> unchanged(this)
    {
      if frame.Some? {
        if !hitTestSourceRequested {
          // the request's promise chain is now in flight
          inFlight := inFlight + 1;
          hitTestSourceRequested := true;
        }
        if hitTestSourcePresent {
          var results := frame.value;
          if |results| > 0 {
            reticleVisible := true;
            if results[0].Some? {
              reticlePose := results[0].value;
            }
          } else {
            reticleVisible := false;
          }
        }
      }
    }

    /** The requestHitTestSource promise resolves and the source is stored. */
    method OnHitTestSourceResolved()
      requires Valid()
      requires inFlight > 0
      modifies this
      ensures Valid()
      ensures State() == SourceResolvedStep(old(State()))
      ensures hitTestSourcePresent && inFlight == old(inFlight) - 1
    {
      hitTestSourcePresent := true;
      inFlight := inFlight - 1;
    }

    /**
     * updateBoxSize: w, h, d are the slider values, None for a slider missing
     * from the page; infoPresent says whether the info element exists.
     */
    method UpdateBoxSize(w: Option<int>, h: Option<int>, d: Option<int>, infoPresent: bool)
      requires Valid()
      modifies this
      ensures Valid()
      ensures State() == UpdateBoxSizeStep(old(State()), w, h, d, infoPresent)
      ensures w.None? || h.None? || d.None? ==> unchanged(this)
      ensures w.Some? && h.Some? && d.Some? ==> boxScale == Scale(w.value, h.value, d.value)
    {
      if w.None? || h.None? || d.None? {
        return;
      }
      if infoPresent {
        infoText := Some(Label(w.value, h.value, d.value));
      }
      boxScale := Scale(w.value, h.value, d.value);
    }
  }

  /**
   * A session on the class: a tap before any hit does nothing; a frame whose
   * first hit is at t, then a tap, puts the box in the scene at t's position;
   * the session end takes it out and hides the overlay.
   */
  method PlaceAndEndScenario(t: Pose)
  {
    var c := new PlacementController(false);
    c.OnSessionStart(true);
    c.Render(Some([]));       // issues the hit-test source request
    c.OnSelect();             // no reticle yet: nothing happens
    assert !c.isPlaced && !c.boxInScene;
    c.OnHitTestSourceResolved();
    c.Render(Some([Some(t)]));
    assert c.reticleVisible && c.reticlePose == t;
    c.OnSelect();
    assert c.isPlaced && c.boxInScene && c.boxPosition == Position(t);
    c.OnSessionEnd(true);
    assert !c.isPlaced && !c.boxInScene && !c.overlayShown;
  }

  /**
   * A session in which the stored source reports no surface for several
   * frames: the reticle stays hidden, and a tap leaves the box unplaced and out
   * of the scene.
   */
  method NoSurfaceScenario()
  {
    var c := new PlacementController(false);
    c.OnSessionStart(true);
    c.Render(Some([]));
    c.OnHitTestSourceResolved();
    c.Render(Some([]));
    c.Render(Some([]));
    c.Render(Some([]));
    assert !c.reticleVisible;
    c.OnSelect();
    assert !c.isPlaced && !c.boxInScene;
  }
}
