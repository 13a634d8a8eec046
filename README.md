# Age/gender prediction: upload page and face service, modelled in Dafny

The repository is a two-part application. A React page (`age-gender-ui/src/App.js`) lets the
user pick an image or click one of three bundled samples, POSTs it as a multipart form to a
local Flask service, and shows the returned JPEG with a download link. The Flask service
(`app.py`) decodes the image, finds faces with an OpenCV network, keeps the detections whose
confidence is above 0.7, crops each face with 20 pixels of padding, classifies its gender and
age bracket, draws boxes and labels, and answers with the annotated JPEG or a 400 error.

The model has three files:

- `wrappers.dfy` — module `Wrappers`: the `Option` datatype.
- `face_service.dfy` — module `FaceService`, for `app.py`. The confidence filter
  (`Qualifying`, and `GetFaceBox` with its loop), the crop window (`CropWindow`, plus
  Python's slice normalisation `SliceBound`), the label `Label` and its inverse `ParseLabel`,
  the annotated image `Processed` and `ProcessImage` with its loop, and the route
  `UploadImage`. OpenCV is a `Vision` value of uninterpreted functions: `decode`, `faceNet`,
  `genderNet`, `ageNet` and `encodeJpeg`. An image is a `Frame`: its height, its width, its
  decoded pixels, and the marks (rectangles, texts) drawn on it.
- `upload_controller.dfy` — module `UploadController`, for `App.js`. The class `App` has the four
  state cells `file`, `imageUrl`, `errorMessage` and `imageBlob`. It also has `objectUrls`, the
  page's table of object URLs: `URL.createObjectURL` registers a blob and returns the new handle
  `ObjectUrl(i)`. The handlers `HandleFileChange`, `HandleUpload` and `HandleSampleClick` are
  methods, and so is `Render`, because the download link creates an object URL on every render.
  The network is an input. The outcome of the POST (`PostOutcome`) and of the sample fetch
  (`FetchOutcome`) are parameters. Each handler returns the requests it sent.

The class invariant `App.Valid()` says that a shown result always has its blob: whenever
`imageUrl` is non-empty, `imageBlob` is present and `imageUrl` is an object URL created for
it. So the render's `URL.createObjectURL(imageBlob)` is never called without a blob.

Behaviour the model follows from the code:

- A successful upload does not clear an earlier error message (App.js:62-64). A failed one does not
  clear an earlier result (App.js:65-68). So an error and a result can be shown together;
  `StaleErrorBesideResult` builds such a page.
- No object URL is ever revoked. A file change hides the result but keeps `imageBlob`.
- A sample whose fetch answers with an HTTP error status still resolves `fetch`. Its body is
  uploaded, and a failure there shows "Something went wrong. Please try again.", not the
  sample-load message. Only a rejected fetch or `res.blob()` gives "Failed to load the sample
  image." (App.js:71-78).
- The crop's stop bounds are exclusive slice ends clamped to `height - 1` and `width - 1`
  (app.py:84-85), so the crop never contains the image's last row or last column
  (`CropSkipsLastRowAndColumn`).

## Model

| member | source | states |
|---|---|---|
| `FaceService.Qualifying` | app.py:51-58 | the filter itself: never more boxes than detections; its meaning is stated by `QualifyingKeeps`, `QualifyingSound` and `QualifyingMembers` |
| `FaceService.QualifyingKeeps` | app.py:51-58 | a detection whose confidence is strictly above the threshold is never dropped: its box is in the result at the position equal to the number of qualifying detections before it (so order is kept) |
| `FaceService.QualifyingSound` | app.py:51-58 | every box of the result is the box of a detection strictly above the threshold, taken in its turn |
| `FaceService.QualifyingMembers` | app.py:51-58 | a box is in the filter's result if and only if some detection strictly above the threshold has it |
| `FaceService.QualifyingPrefix` | app.py:51-58 | the boxes kept from a prefix of the detections are a prefix of the boxes kept from all of them (the loop only appends) |
| `FaceService.GetFaceBox` | app.py:39-61 | the loop returns exactly the filter's boxes for the network's detections, and a copy of the frame with one rectangle per kept box drawn, in order |
| `FaceService.Rectangles` | app.py:59 | one rectangle mark per box |
| `FaceService.RectanglesAt` | app.py:59 | the k-th rectangle drawn is that of the k-th kept box |
| `FaceService.CropWindow` | app.py:83-86 | the start row is max(0, y1-20) and the start column max(0, x1-20), both never negative; the stop row is min(y2+20, height-1) and the stop column min(x2+20, width-1), so at most height-1 and width-1; a box at least 20 pixels inside the top/left edges and 21 inside the bottom/right edges gets exactly the box grown by 20 on each side |
| `FaceService.SliceBound` | app.py:83-86 | Python's normalisation of a slice bound: in [0, n], unchanged when already in range, counted from the end (and floored at 0) when negative, clamped to n when past the end |
| `FaceService.CropSkipsLastRowAndColumn` | app.py:84-85 | every row and column of the crop lies in [0, height-1) and [0, width-1): the last row and last column are never cropped |
| `FaceService.CropOfInnerBox` | app.py:84-85 | for a box well inside the image the crop covers exactly rows y1-20 up to, but excluding, y2+20 |
| `FaceService.AgeListDistinct` | app.py:24 | the eight AGE_LIST brackets are pairwise distinct |
| `FaceService.LabelRoundTrip` | app.py:24-25 | reading a label "gender, age" back yields the GENDER_LIST and AGE_LIST indexes it was made from |
| `FaceService.ParseLabelSound` | app.py:99 | whatever reads as a label is exactly a GENDER_LIST entry, ", ", and an AGE_LIST entry |
| `FaceService.Label` | app.py:99 | the label starts with the GENDER_LIST entry followed by ", " and the rest is the AGE_LIST entry; `LabelRoundTrip` and `ParseLabelSound` make it an invertible encoding |
| `FaceService.Predict` | app.py:83-97 | definition: the gender and age networks' arg-maxes on the padded crop of the undrawn image; see `LabelMarksAt` and `ProcessedMarks` |
| `FaceService.LabelMark` | app.py:99-100 | a text mark placed 10 pixels above the box's top-left corner holding the label of the networks' prediction; `ProcessedMarks` shows that text reads back as that prediction |
| `FaceService.LabelMarks` | app.py:81-100 | one label mark per box; `LabelMarksAt` gives the k-th |
| `FaceService.LabelMarksAt` | app.py:81-100 | the k-th label drawn is the label of the k-th kept box, placed 10 pixels above its top-left corner |
| `FaceService.Processed` | app.py:76-102 | the image process_image returns keeps the decoded size and pixels and only adds marks; `ProcessedMarks` says which |
| `FaceService.ProcessedMarks` | app.py:76-102 | the processed image keeps the size and pixels and extends the marks; with no face it adds only "No face detected" at (50, 100); otherwise a rectangle per face, then per face a text that reads back as the prediction of the networks on that face's padded crop |
| `FaceService.ProcessImage` | app.py:65-102 | exactly one of image and error is present; an undecodable upload gives (None, "Failed to read image."); otherwise no error and the processed image, computed by the loop over the boxes |
| `FaceService.UploadImage` | app.py:109-126 | no "file" part: 400 with {"error": "No file provided"}, whatever the image functions would do; undecodable file: 400 with the process_image error; otherwise 200 image/jpeg carrying the JPEG encoding of the processed image; status 400 if and only if the body is a JSON error |
| `UploadController.Decimal` | age-gender-ui/src/App.js:125 | the numeral of a number, as a template string writes `index + 1`: non-empty, only digits, at least two digits from 10 on; `DecimalValue` shows it denotes the number |
| `UploadController.DecimalValue` | age-gender-ui/src/App.js:125 | reading the numeral of n back, most significant digit first, gives n |
| `UploadController.DecimalInjective` | age-gender-ui/src/App.js:125 | distinct numbers have distinct numerals |
| `UploadController.ObjectUrl` | age-gender-ui/src/App.js:64 | an object-URL handle is never the empty string, so a stored one always shows the result panel |
| `UploadController.ObjectUrlInjective` | age-gender-ui/src/App.js:64 | handles of distinct registrations differ |
| `UploadController.App.constructor` | age-gender-ui/src/App.js:6-9 | the initial state: no file, no result URL, no error, no result blob |
| `UploadController.App.CreateObjectUrl` | age-gender-ui/src/App.js:64 | registers the blob and returns a handle different from every handle issued before, denoting that blob |
| `UploadController.App.HandleFileChange` | age-gender-ui/src/App.js:40-44 | stores the first picked file (none for an empty pick), sets errorMessage and imageUrl to ""; imageBlob and the object URLs are unchanged |
| `UploadController.App.HandleUpload` | age-gender-ui/src/App.js:46-69 | with no explicit payload and no stored file: sends nothing, sets errorMessage to "Please select an image first!", changes nothing else; otherwise sends one POST to the upload URL with one part named "file" holding the explicit payload if given, else the stored file; on success stores the body as an image/jpeg blob and shows it under a fresh handle, with file and errorMessage unchanged; on failure sets "Something went wrong. Please try again." with file, imageUrl and imageBlob unchanged |
| `UploadController.App.HandleSampleClick` | age-gender-ui/src/App.js:71-79 | always fetches the sample first; a failed fetch uploads nothing and sets "Failed to load the sample image."; a fetched sample is uploaded as the explicit payload, with the upload's success and failure effects; it never sets the "select an image" message, and an upload failure never shows as the sample-load message |
| `UploadController.App.Render` | age-gender-ui/src/App.js:121-156 | shows the three sample thumbnails with alt "Sample 1".."Sample 3"; shows the error panel if and only if errorMessage is non-empty, with that text; shows the result panel if and only if imageUrl is non-empty, with the image imageUrl and a download link named "processed-image.jpg" to a new object URL of imageBlob |
| `UploadController.StaleErrorBesideResult` | age-gender-ui/src/App.js:47-64 | an upload with nothing selected followed by a successful sample upload shows the "Please select an image first!" error and the result panel together |

## Left out

- OpenCV: loading the networks, `blobFromImage`, `forward`, `argmax` over the float outputs, `imdecode`, `imencode`, and drawing. These are uninterpreted functions of a `Vision` value. Colours, fonts, scales and line thicknesses are not modelled. A drawn mark is recorded in `Frame.marks`, not as pixels.
- The scaling `int(detections[0, 0, i, k] * w)` of the detector's relative coordinates: the model's detections already carry integer pixel coordinates, and confidences are exact `real`s rather than floats.
- `ProcessImage` assumes the OpenCV calls return. In particular, the exception OpenCV may raise for an empty crop is left out, and so is the 500 error Flask would then send.
- `UploadImage`: the success flag `imencode` returns is ignored, as in the code. Only the first part named "file" is seen, which is what `request.files["file"]` yields.
- Browser and HTTP machinery: axios, `fetch`, `FormData` multipart encoding and `Blob`. Their results are parameters; `console.error` logging is left out.
- The concrete text of an object URL, which the browser chooses. `ObjectUrl` needs only to be non-empty and never reused.
- Overlapping uploads: each handler runs as one atomic step from its check to its outcome, so the race between two pending uploads is not modelled.
- The dark-mode toggle and its ripple animation, the static markup, and the header's dropdown (`Header.js`).
- The Flask app, CORS setup and `app.run`.
