/** The live camera page (`/camera-analysis/:type`): the mount effect that checks the category
    and loads the five detection models, the unmount cleanup, the guard in front of the
    detection loop, one tick of that loop (clear the canvas, then draw), and the loop's cleanup.
    Detection, resizing and the library's drawing routines are opaque: a tick is handed the
    detections it draws. */
module CameraPage {
  import opened Common
  import opened Kinds
  import opened Media
  import opened PageRules

  /** The networks loaded with `Promise.all`, in order. */
  const ModelNets: seq<string> :=
    ["tinyFaceDetector", "faceLandmark68Net", "faceRecognitionNet", "faceExpressionNet", "ageGenderNet"]

  /** `Promise.all` resolves only when every promise resolves. */
  function AllSucceed(outcomes: seq<bool>): (r: bool)
    ensures r <==> forall i :: 0 <= i < |outcomes| ==> outcomes[i]
    decreases |outcomes|
  {
    if outcomes == [] then true
    else
      var rest := AllSucceed(outcomes[1..]);
      assert forall i :: 1 <= i < |outcomes| ==> outcomes[i] == outcomes[1..][i - 1];
      outcomes[0] && rest
  }

  /** The text field for one detection, anchored 15 pixels below the bottom-left corner of
      its box. */
  function Label(d: Detection): (r: Drawing)
    ensures r.TextField? && r.text == d.caption
    ensures r.x == d.box.x && r.y == Bottom(d.box) + 15
    ensures d.box.height >= 0 ==> r.y > d.box.y
  {
    TextField(d.caption, d.box.x, Bottom(d.box) + 15)
  }

  function Labels(dets: seq<Detection>): (r: seq<Drawing>)
    ensures |r| == |dets| && forall i :: 0 <= i < |dets| ==> r[i] == Label(dets[i])
  {
    seq(|dets|, i requires 0 <= i < |dets| => Label(dets[i]))
  }

  /** A frame's picture: overlays first, then the labels in detection order. */
  function Overlay(dets: seq<Detection>): (r: seq<Drawing>)
    ensures |r| == 3 + |dets|
    ensures r[..3] == [BoxesOverlay(dets), LandmarksOverlay(dets), ExpressionsOverlay(dets)]
    ensures forall i :: 0 <= i < |dets| ==> r[3 + i] == Label(dets[i])
  {
    [BoxesOverlay(dets), LandmarksOverlay(dets), ExpressionsOverlay(dets)] + Labels(dets)
  }

  /** `resizedDetections.forEach(...)`: one text field per detection, in order. */
  method DrawLabels(canvas: Canvas, dets: seq<Detection>)
    modifies canvas
    ensures canvas.drawings == old(canvas.drawings) + Labels(dets)
  {
    var i := 0;
    while i < |dets|
      invariant 0 <= i <= |dets|
      invariant canvas.drawings == old(canvas.drawings) + Labels(dets[..i])
    {
      assert Labels(dets[..i + 1]) == Labels(dets[..i]) + [Label(dets[i])];
      canvas.drawings := canvas.drawings + [Label(dets[i])];
      i := i + 1;
    }
    assert dets[..i] == dets;
  }

  class Page {
    var loading: bool
    var modelLoaded: bool
    var navigation: seq<string>
    /** The loading timer the mount effect started, if any. */
    var timer: Option<nat>
    var clearedTimers: set<nat>
    /** The current detection effect run's `animationFrame`, if it was set. */
    var frame: Option<nat>
    var cancelledFrames: set<nat>
    /** The stream the last successful `startCamera` attached, kept apart from the element. The
        page as written never reads it; the corrected cleanup stops it. */
    var keptStream: MediaStream?
    const camera: Camera
    /** `canvasRef.current`. */
    const canvas: Canvas?

    /** The page as it mounts, showing the loading screen; `video` is the element `videoRef`
        will point at once the page itself is rendered. */
    constructor (video: Video?, canvas: Canvas?)
      ensures loading && !modelLoaded && navigation == [] && timer.None? && clearedTimers == {}
      ensures frame.None? && cancelledFrames == {} && keptStream == null
      ensures fresh(camera) && camera.video == video && !camera.active && this.canvas == canvas
    {
      loading := true;
      modelLoaded := false;
      navigation := [];
      timer := None;
      clearedTimers := {};
      frame := None;
      cancelledFrames := {};
      keptStream := null;
      camera := new Camera(video);
      this.canvas := canvas;
    }

    /** The mount effect. An unknown or missing category leaves for the dashboard before any
        model load or timer is started; otherwise the model loads begin and the loading timer
        `timerId` is started. */
    method Mount(param: Option<string>, timerId: nat) returns (effect: MountEffect)
      modifies this
      ensures effect == OnMount(param, true)
      ensures effect.Redirect? ==> navigation == old(navigation) + ["/dashboard"] && timer == old(timer)
      ensures effect.StartLoading? ==> navigation == old(navigation) && timer == Some(timerId)
      ensures modelLoaded == old(modelLoaded) && loading == old(loading) && keptStream == old(keptStream)
      ensures clearedTimers == old(clearedTimers) && frame == old(frame) && cancelledFrames == old(cancelledFrames)
    {
      effect := OnMount(param, true);
      if effect.Redirect? {
        navigation := navigation + [effect.path];
      } else {
        timer := Some(timerId);
      }
    }

    /** The five loads have settled, `outcomes[i]` telling whether the i-th succeeded. The flag
        is set only when every load succeeded; a failure is logged and changes nothing. */
    method ModelsSettled(outcomes: seq<bool>)
      requires |outcomes| == |ModelNets|
      modifies this
      ensures modelLoaded == (old(modelLoaded) || forall i :: 0 <= i < |outcomes| ==> outcomes[i])
      ensures loading == old(loading) && navigation == old(navigation) && timer == old(timer)
      ensures clearedTimers == old(clearedTimers) && frame == old(frame) && cancelledFrames == old(cancelledFrames)
      ensures keptStream == old(keptStream)
    {
      if AllSucceed(outcomes) {
        modelLoaded := true;
      }
    }

    method LoadingTimerFired()
      modifies this
      ensures !loading
      ensures modelLoaded == old(modelLoaded) && navigation == old(navigation) && timer == old(timer)
      ensures clearedTimers == old(clearedTimers) && frame == old(frame) && cancelledFrames == old(cancelledFrames)
      ensures keptStream == old(keptStream)
    {
      loading := false;
    }

    /** `startCamera`, once `getUserMedia` has settled with `stream` (`null` when it threw). */
    method StartCamera(stream: MediaStream?)
      modifies this, camera, camera.video
      ensures camera.video == old(camera.video)
      ensures stream != null && camera.video != null ==>
        camera.video.srcObject == stream && camera.active && keptStream == stream
      ensures stream == null || camera.video == null ==>
        camera.active == old(camera.active) && keptStream == old(keptStream)
        && (camera.video != null ==> camera.video.srcObject == old(camera.video.srcObject))
      ensures loading == old(loading) && modelLoaded == old(modelLoaded) && navigation == old(navigation)
      ensures timer == old(timer) && clearedTimers == old(clearedTimers)
      ensures frame == old(frame) && cancelledFrames == old(cancelledFrames)
    {
      camera.Start(stream);
      if stream != null && camera.video != null {
        keptStream := stream;
      }
    }

    /** The mount effect's cleanup, as React runs it when the page is left: the removed
        `<video>` element's ref is detached before effect cleanups run, so after the timer is
        cleared `stopCamera` finds `videoRef.current` null and does nothing. An attached stream
        stays on the element and its tracks keep their state. */
    method Unmount()
      modifies this, camera
      ensures camera.video == null && camera.active == old(camera.active)
      ensures old(camera.video) != null ==> old(camera.video).srcObject == old(camera.video.srcObject)
      ensures old(camera.video) != null && old(camera.video.srcObject) != null ==>
        forall t :: t in old(camera.video.srcObject).tracks ==> t.live == old(t.live)
      ensures old(timer).Some? ==> clearedTimers == old(clearedTimers) + {old(timer).value}
      ensures old(timer).None? ==> clearedTimers == old(clearedTimers)
      ensures loading == old(loading) && modelLoaded == old(modelLoaded) && navigation == old(navigation)
      ensures frame == old(frame) && cancelledFrames == old(cancelledFrames) && keptStream == old(keptStream)
    {
      camera.video := null;
      if timer.Some? {
        clearedTimers := clearedTimers + {timer.value};
      }
      camera.Stop();
    }

    /** The cleanup as evidently intended: with the stream kept in a ref of its own, leaving the
        page stops every track of the stream the camera started, whatever became of the
        element's ref. */
    method UnmountStoppingKeptStream()
      modifies this, camera
      modifies if keptStream != null then set t | t in keptStream.tracks else {}
      ensures camera.video == null
      ensures old(keptStream) != null ==> forall t :: t in old(keptStream).tracks ==> !t.live
      ensures old(timer).Some? ==> clearedTimers == old(clearedTimers) + {old(timer).value}
      ensures old(timer).None? ==> clearedTimers == old(clearedTimers)
      ensures loading == old(loading) && modelLoaded == old(modelLoaded) && navigation == old(navigation)
      ensures frame == old(frame) && cancelledFrames == old(cancelledFrames)
    {
      camera.video := null;
      if timer.Some? {
        clearedTimers := clearedTimers + {timer.value};
      }
      if keptStream != null {
        StopAll(keptStream.tracks);
      }
    }

    /** The detection effect, run whenever `isCameraActive` or `isModelLoaded` changes: each run
        starts with its own unset `animationFrame`, and the loop starts only with a video
        element, a canvas, an active camera and loaded models. */
    method DetectionEffect() returns (starts: bool)
      modifies this
      ensures frame.None?
      ensures starts <==> camera.video != null && canvas != null && camera.active && modelLoaded
      ensures loading == old(loading) && modelLoaded == old(modelLoaded) && navigation == old(navigation)
      ensures timer == old(timer) && clearedTimers == old(clearedTimers) && cancelledFrames == old(cancelledFrames)
      ensures keptStream == old(keptStream)
    {
      frame := None;
      if camera.active {
        starts := camera.video != null && canvas != null && camera.active && modelLoaded;
      } else {
        starts := false;
      }
    }

    /** One `detectAndDraw` step; `detected` is what the detection resolved to, or `None` when it
        rejected. A rejection ends the step before anything is drawn or another frame is
        requested, so the loop stops. Otherwise, with a drawing context, the canvas is cleared
        before anything is drawn, so it shows exactly this frame's picture; without one it is
        left as it was. The next frame `nextFrame` is then requested. */
    method Tick(detected: Option<seq<Detection>>, nextFrame: nat)
      requires canvas != null
      modifies this, canvas
      ensures detected.None? ==> canvas.drawings == old(canvas.drawings) && frame == old(frame)
      ensures detected.Some? && canvas.hasContext ==> canvas.drawings == Overlay(detected.value)
      ensures detected.Some? && !canvas.hasContext ==> canvas.drawings == old(canvas.drawings)
      ensures detected.Some? ==> frame == Some(nextFrame)
      ensures loading == old(loading) && modelLoaded == old(modelLoaded) && navigation == old(navigation)
      ensures timer == old(timer) && clearedTimers == old(clearedTimers) && cancelledFrames == old(cancelledFrames)
      ensures keptStream == old(keptStream)
    {
      if detected.None? {
        return;
      }
      var dets := detected.value;
      if canvas.hasContext {
        canvas.drawings := [];
        canvas.drawings := canvas.drawings + [BoxesOverlay(dets)];
        canvas.drawings := canvas.drawings + [LandmarksOverlay(dets)];
        canvas.drawings := canvas.drawings + [ExpressionsOverlay(dets)];
        DrawLabels(canvas, dets);
      }
      frame := Some(nextFrame);
    }

    /** The detection effect's cleanup: `if (animationFrame) cancelAnimationFrame(animationFrame)`;
        a frame id of 0 is falsy and is not cancelled. */
    method DetectionCleanup()
      modifies this
      ensures old(frame).Some? && old(frame).value != 0 ==>
        cancelledFrames == old(cancelledFrames) + {old(frame).value}
      ensures old(frame).None? || old(frame).value == 0 ==> cancelledFrames == old(cancelledFrames)
      ensures frame == old(frame) && loading == old(loading) && modelLoaded == old(modelLoaded)
      ensures navigation == old(navigation) && timer == old(timer) && clearedTimers == old(clearedTimers)
      ensures keptStream == old(keptStream)
    {
      if frame.Some? && frame.value != 0 {
        cancelledFrames := cancelledFrames + {frame.value};
      }
    }
  }

  /** Leaving the page with the camera on, as written: the track is still live afterwards. */
  method UnmountLeavesCameraOn() returns (stillLive: bool)
    ensures stillLive
  {
    var track := new Track();
    var stream := new MediaStream([track]);
    var video := new Video();
    var canvas := new Canvas(true);
    var page := new Page(video, canvas);
    page.StartCamera(stream);
    page.Unmount();
    stillLive := track.live;
  }

  /** The same visit with the corrected cleanup: the track is stopped. */
  method CorrectedUnmountStopsCamera() returns (stillLive: bool)
    ensures !stillLive
  {
    var track := new Track();
    var stream := new MediaStream([track]);
    var video := new Video();
    var canvas := new Canvas(true);
    var page := new Page(video, canvas);
    page.StartCamera(stream);
    page.UnmountStoppingKeptStream();
    stillLive := track.live;
  }
}
