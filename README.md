# face_recog, modelled in Dafny

face_recog is a small face-analysis web application. An Express/MongoDB backend stores users
and analysis records. A React frontend lets a signed-in user choose an analysis category (`face`,
`group` or `crowd`), upload an image or open the camera, and browse a gallery of example results.
Detection itself is done by `face-api.js`. What remains is a set of decision rules, and this project
models them and proves what they promise:

- **The analysis store and its routes.** The upload pipeline in front of `POST /api/analysis/:type`:
  the field name, the unanchored `/jpeg|jpg|png/` file filter, the 5 MiB limit and the stored
  filename. Then the create handler, `GET /history` and `GET /:id`. The records form an
  `AnalysisCollection` class holding a `seq` of records, and the upload directory is a class
  holding a set of file names.
- **The user routes.** Register, login, profile and `PATCH /profile`, over a `UserCollection` class.
- **The frontend rules.** Route-parameter validation and headings on the two analysis pages. The
  camera on/off state (`Media.Camera`) and the track-stopping loop. The `isProcessing` flag. The
  model-loaded flag, unmount cleanup, detection-loop guard and the clear-then-draw tick of the camera
  page. The `PrivateRoute` decision with the route table. The gallery's filter, selector, cards and
  empty-state message.

Modules: `Common` (substring test, ASCII case mapping, capitalisation, `join`, decimal text),
`Kinds`, `AnalysisModel`, `AnalysisRoutes`, `UserRoutes`, `Media`, `PageRules`, `AnalysisPage`,
`CameraPage`, `PrivateRoute`, `Gallery`.

Clocks, fresh ObjectIds, database failures, `getUserMedia`'s outcome, the detections a tick
draws, timer and animation-frame ids are parameters. So are the error paths of foreign calls: a
failed save or a throwing `comparePassword`, a `FileReader` that fails, and a detection that
rejects. Password comparison is an opaque relation
`matches`, and a token is `Token(userId)`.

Where the compiled `backend/dist/routes/userRoutes.js` differs from the TypeScript source, the model
follows the source. The compiled file has no missing-field check, sends the whole user document and
gives no `details`.

The error middleware in `backend/dist/index.js` is part of the model: every error passed to `next`
is answered `500 {"error": "Something went wrong!"}`. `upload.single('image')` runs before the
create handler, so a wrong field name, a rejected file or an oversized file never reaches the type
check. Such requests get this 500, not a 400.

On `src/pages/Analysis.tsx`: no element carries `ref={videoRef}`, and nothing calls
`startCamera`/`stopCamera`. `AnalysisPage.Page` therefore builds its camera with an unattached
ref. By `Media.Camera.Start`'s contract, a granted stream is then never attached.

## Model

| member | source | states |
|---|---|---|
| Kinds.Parse | backend/src/routes/analysisRoutes.ts:40 | a category is recognised exactly when the text is one of `face`, `group`, `crowd`, and it names that text |
| Kinds.ParseName | backend/src/models/Analysis.ts:5 | every category's name parses back to that category |
| Kinds.NameInjective | backend/src/models/Analysis.ts:17-20 | distinct categories have distinct names |
| AnalysisModel.CastObjectId | backend/src/routes/analysisRoutes.ts:87-90 | a path id casts to an ObjectId exactly when it is 24 hex digits; the result is its lower-case form |
| AnalysisModel.CastCanonical | backend/src/routes/analysisRoutes.ts:87-90 | the text an ObjectId is sent as casts back to the same id |
| AnalysisModel.ValidationErrors | backend/src/models/Analysis.ts:11-29 | no validation error means every required path is present and `type` is in the enum |
| AnalysisModel.MissingFieldRejected | backend/src/models/Analysis.ts:12-29 | a draft missing `userId`, `type`, `imageUrl` or `results` fails validation |
| AnalysisModel.TypeOutsideEnumRejected | backend/src/models/Analysis.ts:17-21 | a `type` outside the enum is reported as a validation error of that path |
| AnalysisModel.Build | backend/src/models/Analysis.ts:30-32 | a valid draft becomes a conforming record with the draft's fields and both timestamps set to the save time |
| AnalysisModel.AnalysisCollection.Insert | backend/src/routes/analysisRoutes.ts:65 | `save()` fails on a validation error, a database fault or a duplicate `_id`, changing nothing; otherwise exactly the built record is appended, and ids stay unique |
| AnalysisRoutes.ExtName | backend/src/routes/analysisRoutes.ts:15 | `path.extname` is empty or one `.` followed by characters that are neither `.` nor `/` |
| AnalysisRoutes.ExtNameOfAppended | backend/src/routes/analysisRoutes.ts:15 | a name ending in a proper extension has exactly that extension |
| AnalysisRoutes.AllowedTypesTestIff | backend/src/routes/analysisRoutes.ts:25 | the unanchored regex holds exactly when `jpeg`, `jpg` or `png` occurs somewhere in the text |
| AnalysisRoutes.FileFilter | backend/src/routes/analysisRoutes.ts:24-33 | a file is accepted exactly when its lower-cased extension and its MIME type each contain an allowed pattern; otherwise it is rejected with `Only support jpeg, jpg or png` |
| AnalysisRoutes.FilterAcceptsExtensionContainingJpg | backend/src/routes/analysisRoutes.ts:25-26 | `photo.jpgx` with `image/jpeg` is accepted: the test is a substring test |
| AnalysisRoutes.FilterLowersExtension | backend/src/routes/analysisRoutes.ts:26 | `photo.JPG` is accepted, because the extension is lower-cased |
| AnalysisRoutes.FilterRejectsUpperCaseMimetype | backend/src/routes/analysisRoutes.ts:27 | the filter tests the reported MIME type as it is, without lower-casing it: a MIME type without lower-case letters is rejected whatever the file is called |
| AnalysisRoutes.StoredFilename | backend/src/routes/analysisRoutes.ts:14-16 | the stored name starts with the decimal text of the time and keeps the original name's extension |
| AnalysisRoutes.StoredFilenameInjective | backend/src/routes/analysisRoutes.ts:14-16 | two stored names coincide only for the same millisecond and the same extension |
| AnalysisRoutes.ImageUrl | backend/src/routes/analysisRoutes.ts:48 | the URL is `/uploads/` followed by the stored filename |
| AnalysisRoutes.Receive | backend/src/routes/analysisRoutes.ts:19-34 | a missing part, or a part with an empty file name, leaves the handler without a file; otherwise a file is handed on exactly for field `image`, an accepted file and at most 5 MiB, with the part's name, type and size and the stored name; a wrong field gives `Unexpected field`, a filter rejection the filter's message, an oversized file `File too large` |
| AnalysisRoutes.ProcessedResults | backend/src/routes/analysisRoutes.ts:52-56 | the stored results are an object marked processed that carries the handler's time as `timestamp` |
| AnalysisRoutes.HandleCreate | backend/src/routes/analysisRoutes.ts:37-70 | given what the upload step handed on: a bad type gives 400 `Invalid analysis type`, then a missing file 400 `No image provided`, a failed save 400 `Error creating analysis`, none of them storing anything; 201 happens exactly otherwise and echoes the one appended record |
| AnalysisRoutes.CreateAnalysis | backend/src/routes/analysisRoutes.ts:37-70 | upload errors give 500 with nothing stored; a bad type gives 400 `Invalid analysis type`, then a missing file gives 400 `No image provided`; a failed save gives 400 `Error creating analysis`; all of these leave the store unchanged. Otherwise 201 echoes the one appended record, with the caller's id, the path type, the upload URL, processed results and the save time |
| AnalysisRoutes.Owned | backend/src/routes/analysisRoutes.ts:75 | the owner query returns only records of the collection that belong to the owner |
| AnalysisRoutes.OwnedCounts | backend/src/routes/analysisRoutes.ts:75 | the owner query keeps each of the owner's records as often as it occurs, and nothing else |
| AnalysisRoutes.SortNewestFirst | backend/src/routes/analysisRoutes.ts:76 | the sort is a permutation in non-increasing `createdAt` order |
| AnalysisRoutes.History | backend/src/routes/analysisRoutes.ts:75-77 | the list holds at most 20 of the caller's records, newest first; it holds all of them when there are at most 20, and no omitted record is newer than a listed one |
| AnalysisRoutes.NewRecordHeadsHistory | backend/src/routes/analysisRoutes.ts:75-77 | a record newer than all others heads its owner's history |
| AnalysisRoutes.HistoryResponse | backend/src/routes/analysisRoutes.ts:73-82 | a fault gives 400 `Error fetching analysis history`; otherwise 200 with exactly the caller's history: at most 20 of the caller's records, newest first |
| AnalysisRoutes.FindOwned | backend/src/routes/analysisRoutes.ts:87-90 | the lookup finds a record only with both the id and the owner, and finds none exactly when no record has both |
| AnalysisRoutes.ByIdResponse | backend/src/routes/analysisRoutes.ts:85-100 | a bad id or a fault gives 400 `Error fetching analysis`; 404 `Analysis not found` exactly when no record of the caller has that id; a 200 returns only the caller's record with that id |
| AnalysisRoutes.CreatedRecordIsFetchable | backend/src/routes/analysisRoutes.ts:66 | the `_id` a create echoes fetches that record for its owner |
| AnalysisRoutes.HistoryIsNotAnId | backend/src/routes/analysisRoutes.ts:73 | `history` is not an ObjectId, so `GET /:id` would answer 400 for it |
| AnalysisRoutes.GetResponse | backend/src/routes/analysisRoutes.ts:73-100 | a segment that spells `history` in any letter case gets the history answer, since the router matches case-insensitively; every other segment gets the id route's answer, so a record or a 404 only comes for another segment |
| AnalysisRoutes.CapitalisedHistoryIsHistory | backend/src/routes/analysisRoutes.ts:7-73 | `GET /History` lists the caller's history |
| UserRoutes.Lookup | backend/src/routes/userRoutes.ts:11 | a body field is absent exactly when its key is not among the body's keys, and a present value comes from the body |
| UserRoutes.FindByEmail | backend/src/routes/userRoutes.ts:19 | the lookup finds a user with that address, and finds none exactly when none is stored |
| UserRoutes.UserCollection.Replace | backend/src/routes/userRoutes.ts:128 | saving a changed user fails exactly on a fault, changing nothing; otherwise only that position is replaced; ids stay unique, and so do addresses if they were |
| UserRoutes.UserCollection.Insert | backend/src/routes/userRoutes.ts:25-26 | saving a new user fails on a fault or a duplicate `_id`, changing nothing; otherwise it appends exactly that user; ids stay unique, and addresses stay unique when the new address was not stored |
| UserRoutes.Register | backend/src/routes/userRoutes.ts:9-50 | missing or empty email or password gives 400 `Email and password are required`; a lookup fault gives 400 `Error creating user` with details; a taken address gives 400 `Email already exists`; a failed save, or an id already in use, gives 400 `Error creating user` with the error's details; all leave the store unchanged. 201 happens exactly when all checks pass and the save succeeds: it appends one user and answers with `_id`, `email`, `name` and a token for the new id. Run alone, a registration keeps addresses unique |
| UserRoutes.Login | backend/src/routes/userRoutes.ts:53-98 | missing fields give 400; a failed lookup, or `comparePassword` throwing for a known address, gives 400 `Error logging in` with the error's details; unknown address and wrong password both give the same 401 `Invalid credentials`; 200 happens exactly for a known address whose password matches, with that user's view and a token for its id |
| UserRoutes.LoginFailuresLookAlike | backend/src/routes/userRoutes.ts:63-73 | an unknown address and a wrong password produce identical answers |
| UserRoutes.LoginAfterRegister | backend/src/routes/userRoutes.ts:25-26 | a registered user can log in with the same credentials |
| UserRoutes.ProfileResponse | backend/src/routes/userRoutes.ts:101-112 | the profile is answered with 200 and the caller's id, address and name |
| UserRoutes.AllAllowed | backend/src/routes/userRoutes.ts:116-118 | the whitelist holds exactly when every key is `name` or `password` |
| UserRoutes.AllAllowedIsInclusion | backend/src/routes/userRoutes.ts:117-118 | the whitelist is a set inclusion, so the empty body passes |
| UserRoutes.Overwrite | backend/src/routes/userRoutes.ts:125-127 | the updates never change `_id` or `email` |
| UserRoutes.OverwriteFields | backend/src/routes/userRoutes.ts:125-127 | after the updates each whitelisted field has the body's value, or its old one when absent; `_id` and `email` are unchanged |
| UserRoutes.OverwriteIdempotent | backend/src/routes/userRoutes.ts:125-127 | applying the same updates twice equals applying them once |
| UserRoutes.ApplyUpdates | backend/src/routes/userRoutes.ts:125-127 | the loop computes the in-order overwrite |
| UserRoutes.PatchProfile | backend/src/routes/userRoutes.ts:115-138 | a non-whitelisted key gives 400 `Invalid updates`, and a failed save gives 400 `Error updating profile`; both leave the store unchanged. Otherwise 200: only the caller's record changes, to the overwrite, and its `_id`, `email` and `name` are echoed; addresses stay unique if they were |
| Media.StopAll | src/pages/CameraAnalysis.tsx:140-141 | every track of the stream ends up stopped |
| Media.Camera.Start | src/pages/CameraAnalysis.tsx:118-135 | a granted stream is attached and the camera becomes active only when the ref points at an element; otherwise nothing changes |
| Media.Camera.Stop | src/pages/CameraAnalysis.tsx:137-145 | with a stream attached, every track is stopped, the stream is detached and the flag cleared; without one nothing changes; afterwards there is nothing to stop |
| PageRules.RouteKind | src/pages/Analysis.tsx:19-20 | the parameter names a category exactly when it is one of the three names |
| PageRules.OnMount | src/pages/Analysis.tsx:17-30 | an invalid or missing type redirects to `/dashboard`; otherwise the 1500 ms timer starts |
| PageRules.Title | src/pages/Analysis.tsx:37 | the heading is the capitalised type followed by ` Analysis`, or `Analysis` when the type is falsy |
| PageRules.CameraTitle | src/pages/CameraAnalysis.tsx:160 | the camera heading starts with `Real-time ` |
| PageRules.CameraTitleExtendsTitle | src/pages/CameraAnalysis.tsx:160 | on an accepted type the camera heading is `Real-time ` before the upload page's heading |
| PageRules.TitleInjective | src/pages/Analysis.tsx:37 | the heading determines the type |
| AnalysisPage.Page.Mount | src/pages/Analysis.tsx:17-30 | a rejected type navigates to `/dashboard` and starts no timer; nothing else changes |
| AnalysisPage.Page.LoadingTimerFired | src/pages/Analysis.tsx:25-27 | the timer ends the loading screen and changes nothing else |
| AnalysisPage.Page.HandleImageUpload | src/pages/Analysis.tsx:61-70 | only the first selected file becomes the image; a read error clears it; no selection leaves it unchanged |
| AnalysisPage.Page.ProcessImage | src/pages/Analysis.tsx:72-107 | without an image nothing changes; otherwise the flag is raised and then lowered, whether detection throws or not; a successful run leaves exactly the three overlays on the canvas, which the resize cleared, and a failed one draws nothing |
| AnalysisPage.Page.ProcessButton | src/pages/Analysis.tsx:128-137 | the button exists exactly when an image is selected and is disabled exactly while processing |
| AnalysisPage.CameraPagePath | src/pages/Analysis.tsx:145 | the camera button leads to the camera page of the same category |
| CameraPage.AllSucceed | src/pages/CameraAnalysis.tsx:26-32 | `Promise.all` succeeds exactly when every load succeeds |
| CameraPage.Page.Mount | src/pages/CameraAnalysis.tsx:17-43 | a rejected type navigates to `/dashboard` before any load or timer; otherwise the timer is recorded |
| CameraPage.Page.ModelsSettled | src/pages/CameraAnalysis.tsx:24-37 | the model flag is set only when all five loads succeed |
| CameraPage.Page.LoadingTimerFired | src/pages/CameraAnalysis.tsx:40-42 | the timer ends the loading screen and changes nothing else |
| CameraPage.Page.StartCamera | src/pages/CameraAnalysis.tsx:118-135 | a granted stream on an attached element is shown and kept, and the camera becomes active; otherwise nothing changes |
| CameraPage.Page.Unmount | src/pages/CameraAnalysis.tsx:44-47 | as React runs the cleanup: the ref is detached first, the loading timer is cleared, and the camera's stream and every one of its tracks keep their state |
| CameraPage.UnmountLeavesCameraOn | src/pages/CameraAnalysis.tsx:44-47 | starting the camera and leaving the page leaves the track live |
| CameraPage.Page.UnmountStoppingKeptStream | src/pages/CameraAnalysis.tsx:44-47 | the corrected cleanup clears the timer and stops every track of the stream the camera started |
| CameraPage.CorrectedUnmountStopsCamera | src/pages/CameraAnalysis.tsx:44-47 | with the corrected cleanup the same visit ends with the track stopped |
| CameraPage.Page.DetectionEffect | src/pages/CameraAnalysis.tsx:50-54 | each run starts with the frame id unset; the loop starts exactly with a video element, a canvas, an active camera and loaded models |
| CameraPage.Overlay | src/pages/CameraAnalysis.tsx:75-98 | a frame's picture is the three overlays, then one label per detection in order |
| CameraPage.Label | src/pages/CameraAnalysis.tsx:84 | a label carries the detection's caption, anchored at the box's left edge and 15 pixels below its bottom, so below the box's top |
| CameraPage.DrawLabels | src/pages/CameraAnalysis.tsx:80-98 | the loop appends one label per detection, in order |
| CameraPage.Page.Tick | src/pages/CameraAnalysis.tsx:62-102 | a rejected detection draws nothing and requests no frame, which ends the loop; otherwise, with a context, the canvas shows exactly this frame's overlay, whatever it showed before; without a context it is unchanged; the next frame is requested |
| CameraPage.Page.DetectionCleanup | src/pages/CameraAnalysis.tsx:111-115 | a recorded non-zero frame is cancelled |
| PrivateRoute.Decide | src/components/PrivateRoute.tsx:11-15 | while loading, the loading screen; otherwise the outlet exactly when authenticated, else a redirect to `/login` |
| PrivateRoute.Match | src/App.tsx:25-34 | a path selects at most one route, and a selected route is well formed |
| PrivateRoute.MatchPathOf | src/App.tsx:25-34 | every route's path selects that route |
| PrivateRoute.PathOfMatch | src/App.tsx:25-34 | a selected route has the path that selected it |
| PrivateRoute.Show | src/App.tsx:25-34 | an unknown path shows nothing, and a shown page is the route the path selects |
| PrivateRoute.GuardedPagesNeedSession | src/App.tsx:29-34 | the four guarded pages show exactly when loaded and authenticated; the open pages always show |
| Gallery.FilterKind | src/pages/Gallery.tsx:99 | the filtered list is no longer than the list, and holds only results of the list with that type |
| Gallery.Filtered | src/pages/Gallery.tsx:97-99 | `all` shows the full list; otherwise every shown result has the selected type and comes from the list |
| Gallery.FilteredCounts | src/pages/Gallery.tsx:99 | every matching result is kept as often as it occurs, and every other result is dropped |
| Gallery.FilteredIsSubsequence | src/pages/Gallery.tsx:99 | the filtered list keeps the original order |
| Gallery.FilteredIdempotent | src/pages/Gallery.tsx:99 | filtering twice equals filtering once |
| Gallery.FilteredEmptyIff | src/pages/Gallery.tsx:97-99 | the list is empty exactly when no result matches the selection |
| Gallery.OptionsComplete | src/pages/Gallery.tsx:83 | every selectable value has a button |
| Gallery.SelectorLabels | src/pages/Gallery.tsx:135-146 | the buttons read `All`, `Face`, `Group`, `Crowd` |
| Gallery.ButtonLabel | src/pages/Gallery.tsx:144 | a caption is non-empty and starts with a capital letter |
| Gallery.HighlightedIsSelected | src/pages/Gallery.tsx:140-142 | exactly the selected button is highlighted |
| Gallery.Gradient | src/pages/Gallery.tsx:105-111 | every category has a gradient |
| Gallery.GradientsDistinct | src/pages/Gallery.tsx:105-111 | each category has its own gradient |
| Gallery.CardHeading | src/pages/Gallery.tsx:173 | a card's heading is the upload page's heading for its category |
| Gallery.DetailLinesShow | src/pages/Gallery.tsx:178-196 | a face card has two lines, `Name: ` with the first name and `Confidence: ` with the confidence; a group card has `People: ` containing every name and `Count: ` with the count; a crowd card has the one line `People Count: ` with the count |
| Gallery.DetailLinesIgnoreOtherFields | src/pages/Gallery.tsx:178-196 | a card depends only on its own category's fields: a crowd card on neither names nor confidence, a face card not on the count, a group card not on the confidence |
| Gallery.NewAnalysisLinkAccepted | src/pages/Gallery.tsx:202 | a card's link selects a guarded analysis route whose type the analysis page accepts |
| Gallery.Render | src/pages/Gallery.tsx:101-221 | the loading screen while loading; then one card per filtered result in order, and "No results" exactly when there is none |
| Common.ContainsIff | backend/src/routes/analysisRoutes.ts:25 | the recursive substring test agrees with "occurs at some position" |
| Common.Capitalize | src/pages/Gallery.tsx:144 | capitalising keeps the length, upper-cases the first character and keeps the rest |
| Common.CapitalizeInjective | src/pages/Gallery.tsx:144 | capitalising words that start lower-case loses nothing |
| Common.JoinContains | src/pages/Gallery.tsx:187 | every name occurs in the joined text |
| Common.DecimalRoundTrip | backend/src/routes/analysisRoutes.ts:15 | reading back the decimal text of `Date.now()` gives the number |

## Left out

- Face detection, landmarks, expressions, age and gender, `matchDimensions`, `resizeResults` and
  the library's drawing routines: `face-api.js` is a foreign library. A tick is handed the
  detections and records the drawing calls it makes.
- The age/gender caption text uses `Math.round` on floating-point values. It is an opaque string
  per detection, and boxes are integers.
- Scheduling is left out. This covers `requestAnimationFrame`, overlapping asynchronous detection
  calls, and a detection that finishes after the effect's cleanup and requests another frame. It
  also covers the 1500 ms timers, and setState ordering inside a render.
- bcrypt hashing and `comparePassword` are the opaque relation `matches`. The stored `password`
  field stands for whatever the user model keeps.
- `jwt.sign` is `Token(userId)`: the secret and the 7-day expiry are not modelled.
- The user model (`backend/src/models/User.ts`) is not part of this model. Its validators,
  unique indexes, e-mail normalisation and the hashing hook are not modelled. Addresses are compared
  exactly, and a PATCH save fails only by the `saveFault` parameter.
- The authentication middleware (`backend/src/middleware/auth.ts`) is not part of this model, nor
  is its 401. The caller's id, or the caller's position in the user collection, is a parameter.
- Request bodies have string values only. JSON numbers, objects or arrays in `email`, `password`
  or `name` are not modelled.
- Multer's multipart parsing and disk I/O are not modelled. The `fileSize` limit is a comparison of
  the part's size with 5 MiB. Only the one `image` part is modelled.
- Mongoose query execution is a function over the record sequence. `sort({ createdAt: -1 })` keeps
  records with equal timestamps in collection order; MongoDB does not promise any order for ties.
- The `ref: 'User'` on `userId` is not enforced: MongoDB does not check it, so the model stores any
  ObjectId.
- ObjectIds are their 24-digit lower-case hexadecimal text. The real cast also accepts 12-byte
  strings.
- Case mapping covers ASCII letters only. Multer's busboy reports MIME types lower-cased, so
  `AnalysisRoutes.FileFilter` sees what busboy reports; the lower-casing itself is not modelled.
- `AnalysisPage.Page.ProcessImage` does not check for a drawing context: face-api's drawing
  routines do that themselves, and they are foreign code.
- The camera page's `animationFrame` variable, which each effect run declares afresh, is the page's
  `frame` field that `CameraPage.Page.DetectionEffect` resets.
- React Router's case-insensitive matching and trailing-slash tolerance are not modelled. Express's
  case-insensitive matching is modelled only for the `history` segment; its trailing-slash tolerance
  is not modelled.
- `UserRoutes.UserCollection.Insert` and `UserRoutes.Register`: requests are handled one at a time.
  In the server, `findOne` and `save` each yield to the event loop, so two registrations of one
  address can both pass the lookup and both be saved. `Insert` therefore does not require a fresh
  address, and unique addresses are proved only for requests run alone (`AddressesUnique`). The
  interleaving itself is not modelled.
- `Gallery` results: the example records' `peopleCount` and `confidence` are JavaScript numbers.
  The model takes a natural count and the confidence's text, so negative or fractional counts and
  JavaScript's number formatting are not modelled.
- `Media.Camera.Stop`: the contract says nothing about tracks of a stream that was never attached.
  In `Analysis.tsx` such a stream stays live.
- The backend's compiled `dist/` files, server start-up, the database connection and `listen` are
  build output or I/O. Only the error middleware is used. The presentational pages (Home, About,
  Footer, LoadingScreen, Dashboard) are static content. The gallery's example data is hard-coded,
  so the model takes any list of results.

## Findings

| source | as written | input that shows it | evidently intended | confidence | as-written member | corrected member |
|---|---|---|---|---|---|---|
| src/pages/CameraAnalysis.tsx:44-47 | the mount effect's cleanup calls `stopCamera`, which reads `videoRef.current`; when the page is left React has already detached that ref, so nothing is stopped and the camera stays on | start the camera, then navigate away from the camera page | leaving the page stops every track of the camera's stream, for instance by keeping the stream in a ref of its own | not executed | CameraPage.Page.Unmount, with CameraPage.UnmountLeavesCameraOn | CameraPage.Page.UnmountStoppingKeptStream, with CameraPage.CorrectedUnmountStopsCamera |
