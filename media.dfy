/** The browser objects both analysis pages drive: media tracks, the stream `getUserMedia`
    hands back, the `<video>` element it is attached to, the camera on/off state a page keeps
    (`videoRef.current` and `isCameraActive`), and the result canvas with what the detection
    library draws on it. */
module Media {

  /** A `MediaStreamTrack`; `live` is `readyState === 'live'`. */
  class Track {
    var live: bool

    constructor ()
      ensures live
    {
      live := true;
    }

    /** `track.stop()`. */
    method Stop()
      modifies this
      ensures !live
    {
      live := false;
    }
  }

  /** A `MediaStream`; `getTracks()` gives its tracks, which do not change. */
  class MediaStream {
    const tracks: seq<Track>

    constructor (tracks: seq<Track>)
      ensures this.tracks == tracks
    {
      this.tracks := tracks;
    }
  }

  /** `tracks.forEach(track => track.stop())`. A track listed twice is stopped twice. */
  method StopAll(tracks: seq<Track>)
    modifies set t | t in tracks
    ensures forall t :: t in tracks ==> !t.live
  {
    var i := 0;
    while i < |tracks|
      invariant 0 <= i <= |tracks|
      invariant forall j :: 0 <= j < i ==> !tracks[j].live
    {
      tracks[i].Stop();
      i := i + 1;
    }
  }

  /** A `<video>` element. */
  class Video {
    var srcObject: MediaStream?

    constructor ()
      ensures srcObject == null
    {
      srcObject := null;
    }
  }

  /** The camera part of a page's state: the element `videoRef` points to (null when the ref
      is not attached) and the `isCameraActive` flag. */
  class Camera {
    var video: Video?
    var active: bool

    constructor (video: Video?)
      ensures this.video == video && !active
    {
      this.video := video;
      active := false;
    }

    /** `stopCamera` has nothing to release. */
    predicate Stopped()
      reads this, video
    {
      video == null || video.srcObject == null
    }

    /** `startCamera`, once `getUserMedia` has settled: `stream` is the stream it granted, or
        `null` when it threw. The stream is attached only when the ref points at an element. */
    method Start(stream: MediaStream?)
      modifies this, video
      ensures video == old(video)
      ensures stream != null && video != null ==> video.srcObject == stream && active
      ensures stream == null || video == null ==>
        active == old(active) && (video != null ==> video.srcObject == old(video.srcObject))
    {
      if stream != null && video != null {
        video.srcObject := stream;
        active := true;
      }
    }

    /** `stopCamera`: with a stream attached, stop every one of its tracks, detach it and clear
        the flag; otherwise do nothing. Afterwards there is nothing left to stop, so a second
        call changes nothing. */
    method Stop()
      modifies this, video
      modifies if video != null && video.srcObject != null then set t | t in video.srcObject.tracks else {}
      ensures video == old(video)
      ensures Stopped()
      ensures !old(Stopped()) ==>
        !active && forall t :: t in old(video.srcObject).tracks ==> !t.live
      ensures old(Stopped()) ==>
        active == old(active) && (video != null ==> video.srcObject == old(video.srcObject))
    {
      if video != null && video.srcObject != null {
        var stream := video.srcObject;
        StopAll(stream.tracks);
        video.srcObject := null;
        active := false;
      }
    }
  }

  /** A detection's bounding box, in canvas pixels. */
  datatype Box = Box(x: int, y: int, width: int, height: int)

  /** `box.bottom`. */
  function Bottom(b: Box): int {
    b.y + b.height
  }

  /** One detection, with the age and gender text the camera page writes under it. */
  datatype Detection = Detection(box: Box, caption: string)

  /** What a page puts on the canvas: the library's three overlays, and text fields. */
  datatype Drawing =
    | BoxesOverlay(boxes: seq<Detection>)
    | LandmarksOverlay(landmarks: seq<Detection>)
    | ExpressionsOverlay(expressions: seq<Detection>)
    | TextField(text: string, x: int, y: int)

  /** A result canvas; `hasContext` is whether `getContext('2d')` gives a context. */
  class Canvas {
    var drawings: seq<Drawing>
    const hasContext: bool

    constructor (hasContext: bool)
      ensures drawings == [] && this.hasContext == hasContext
    {
      drawings := [];
      this.hasContext := hasContext;
    }
  }
}
