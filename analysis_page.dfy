/** The upload analysis page (`/analysis/:type`): its loading flag, the selected image, the
    `isProcessing` flag around a detection run, and the camera controls. The detection itself
    and the drawing of its results belong to the face-detection library and are left out. */
module AnalysisPage {
  import opened Common
  import opened Kinds
  import opened Media
  import opened PageRules

  /** The process button, shown under the selected image. */
  datatype Button = Button(disabled: bool, caption: string)

  /** What `FileReader` produced for a selected file: its data URL, or a read error, after which
      `reader.result` is `null`. */
  datatype FileRead = DataUrl(url: string) | ReadError

  class Page {
    var loading: bool
    var image: Option<string>
    var processing: bool
    /** Every value `isProcessing` has been set to, in order. */
    var processingLog: seq<bool>
    var navigation: seq<string>
    const camera: Camera
    /** `canvasRef.current`, the result canvas rendered once the loading screen is gone. */
    const canvas: Canvas?

    /** The first render: loading, no image, nothing running. This page renders no `<video>`
        element with `ref={videoRef}`, so the camera's ref stays unattached. */
    constructor (canvas: Canvas?)
      ensures loading && image.None? && !processing && processingLog == [] && navigation == []
      ensures fresh(camera) && camera.video == null && !camera.active && this.canvas == canvas
    {
      loading := true;
      image := None;
      processing := false;
      processingLog := [];
      navigation := [];
      camera := new Camera(null);
      this.canvas := canvas;
    }

    /** The mount effect: an unknown or missing category leaves for the dashboard and starts no
        timer; otherwise the timer is started. */
    method Mount(param: Option<string>) returns (effect: MountEffect)
      modifies this
      ensures effect == OnMount(param, false)
      ensures effect.Redirect? ==> navigation == old(navigation) + ["/dashboard"]
      ensures effect.StartLoading? ==> navigation == old(navigation)
      ensures loading == old(loading) && image == old(image) && processing == old(processing)
      ensures processingLog == old(processingLog)
    {
      effect := OnMount(param, false);
      if effect.Redirect? {
        navigation := navigation + [effect.path];
      }
    }

    /** The timer fires: the loading screen gives way to the page. */
    method LoadingTimerFired()
      modifies this
      ensures !loading
      ensures image == old(image) && processing == old(processing) && processingLog == old(processingLog)
      ensures navigation == old(navigation)
    {
      loading := false;
    }

    /** `handleImageUpload`, once the reader has finished with the first selected file (`files`
        gives, per selected file, what reading it would produce): only the first file is read; a
        read error clears the image, since `onloadend` fires with a `null` result; and no
        selection leaves the image as it was. */
    method HandleImageUpload(files: Option<seq<FileRead>>)
      modifies this
      ensures files.Some? && |files.value| > 0 && files.value[0].DataUrl? ==> image == Some(files.value[0].url)
      ensures files.Some? && |files.value| > 0 && files.value[0].ReadError? ==> image.None?
      ensures files.None? || |files.value| == 0 ==> image == old(image)
      ensures loading == old(loading) && processing == old(processing) && processingLog == old(processingLog)
      ensures navigation == old(navigation)
    {
      if files.Some? && |files.value| > 0 {
        match files.value[0]
        case DataUrl(url) => image := Some(url);
        case ReadError => image := None;
      }
    }

    /** `processImage`; `detected` is what the model loads, the image fetch and the detection
        resolved to, or `None` when one of them threw. Without an image it returns at once.
        Otherwise the flag is raised; a successful run resizes the canvas, which clears it, and
        draws the three overlays; a failure is logged and draws nothing; and the `finally`
        clause lowers the flag in both cases. */
    method ProcessImage(detected: Option<seq<Detection>>)
      modifies this, canvas
      ensures old(image).None? ==> processing == old(processing) && processingLog == old(processingLog)
      ensures old(image).Some? ==> !processing && processingLog == old(processingLog) + [true, false]
      ensures old(image).Some? && detected.Some? && canvas != null ==>
        canvas.drawings == [BoxesOverlay(detected.value), LandmarksOverlay(detected.value), ExpressionsOverlay(detected.value)]
      ensures (old(image).None? || detected.None?) && canvas != null ==> canvas.drawings == old(canvas.drawings)
      ensures image == old(image) && loading == old(loading) && navigation == old(navigation)
    {
      if image.None? {
        return;
      }
      processing := true;
      processingLog := processingLog + [true];
      if detected.Some? && canvas != null {
        var dets := detected.value;
        canvas.drawings := [];
        canvas.drawings := canvas.drawings + [BoxesOverlay(dets), LandmarksOverlay(dets), ExpressionsOverlay(dets)];
      }
      processing := false;
      processingLog := processingLog + [false];
    }

    /** The process button, present only once an image is selected; it is disabled while a run
        is in progress, so a run cannot be started twice. */
    function ProcessButton(): (b: Option<Button>)
      reads this
      ensures b.Some? <==> image.Some?
      ensures b.Some? ==> (b.value.disabled <==> processing)
      ensures b.Some? ==> b.value.caption == if processing then "Processing..." else "Process Image"
    {
      if image.None? then None
      else Some(Button(processing, if processing then "Processing..." else "Process Image"))
    }
  }

  /** The "Start Camera Analysis" button's target: the camera page of the same category. */
  function CameraPagePath(param: Option<string>): (r: string)
    requires RouteKind(param).Some?
    ensures r == "/camera-analysis/" + Name(RouteKind(param).value)
  {
    "/camera-analysis/" + param.value
  }
}
