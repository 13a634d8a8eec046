/**
 * The upload page of the React client (age-gender-ui/src/App.js): four state
 * cells, the three event handlers that change them, and what the page shows.
 *
 * The handlers run as single atomic steps. The outcome of the POST to the
 * service and of the sample fetch are parameters; each handler returns the
 * requests it issued. URL.createObjectURL is the browser's object-URL table
 * `objectUrls`: entry i is the blob behind the handle ObjectUrl(i), and no
 * entry is ever revoked.
 */
module UploadController {
  import opened Wrappers

  // ---------------------------------------------------------------------
  // Constants of App.js
  // ---------------------------------------------------------------------

  const UploadUrl: string := "http://127.0.0.1:5000/upload"
  /** The name of the single multipart part of an upload. */
  const FileField: string := "file"
  const JpegMime: string := "image/jpeg"
  const NoFileMessage: string := "Please select an image first!"
  const UploadFailedMessage: string := "Something went wrong. Please try again."
  const SampleFailedMessage: string := "Failed to load the sample image."
  /** The download attribute of the result link. */
  const DownloadName: string := "processed-image.jpg"
  /** The sample catalogue shown under the upload button. */
  const SampleImages: seq<string> := ["/sample1.jpg", "/sample2.jpg", "/sample3.jpg"]

  // ---------------------------------------------------------------------
  // Data model
  // ---------------------------------------------------------------------

  /** A file picked in the file input, or an in-memory blob. */
  datatype Payload =
    | File(name: string, bytes: seq<bv8>, mime: string)
    | Blob(bytes: seq<bv8>, mime: string)

  datatype FormPart = FormPart(name: string, value: Payload)

  /** A request the page sends. */
  datatype Request = Get(url: string) | Post(url: string, form: seq<FormPart>)

  /** How axios.post settles: a 2xx answer with its body, or a rejection. */
  datatype PostOutcome = Responded(body: seq<bv8>) | Rejected

  /**
   * How fetch(url).then(res => res.blob()) settles. A response with an HTTP
   * error status still resolves fetch, so it is `Fetched` with that body.
   */
  datatype FetchOutcome = Fetched(body: seq<bv8>, mime: string) | FetchFailed

  datatype ResultPanel = ResultPanel(src: string, href: string, download: string)
  datatype Thumbnail = Thumbnail(src: string, alt: string)

  /** What the page shows below the upload button. */
  datatype View = View(samples: seq<Thumbnail>, error: Option<string>, result: Option<ResultPanel>)

  // ---------------------------------------------------------------------
  // Decimal numerals and object-URL handles
  // ---------------------------------------------------------------------

  function Digit(d: nat): (c: char)
    requires d < 10
    ensures '0' <= c <= '9'
  {
    ('0' as int + d) as char
  }

  /** The decimal numeral of n, as JavaScript writes a number into a template string. */
  function Decimal(n: nat): (s: string)
    ensures |s| >= 1 && (n >= 10 ==> |s| >= 2)
    ensures forall i :: 0 <= i < |s| ==> '0' <= s[i] <= '9'
  {
    if n < 10 then [Digit(n)] else Decimal(n / 10) + [Digit(n % 10)]
  }

  /** The number a string of decimal digits denotes, most significant digit first. */
  function Value(s: string): int
  {
    if s == [] then 0 else 10 * Value(s[..|s| - 1]) + (s[|s| - 1] as int - '0' as int)
  }

  /** The numeral Decimal(n) denotes n. */
  lemma {:induction false} DecimalValue(n: nat)
    ensures Value(Decimal(n)) == n
  {
    if n >= 10 {
      var d := Decimal(n);
      assert d[..|d| - 1] == Decimal(n / 10);
      DecimalValue(n / 10);
    }
  }

  /** Distinct numbers have distinct numerals. */
  lemma DecimalInjective(a: nat, b: nat)
    requires Decimal(a) == Decimal(b)
    ensures a == b
  {
    DecimalValue(a);
    DecimalValue(b);
  }

  /** The handle URL.createObjectURL gives the i-th blob registered on the page. */
  function ObjectUrl(i: nat): (url: string)
    ensures url != ""
  {
    "blob:" + Decimal(i)
  }

  /** Every object URL is a new one: handles of distinct registrations differ. */
  lemma ObjectUrlInjective(i: nat, j: nat)
    requires ObjectUrl(i) == ObjectUrl(j)
    ensures i == j
  {
    assert ObjectUrl(i)[5..] == Decimal(i) && ObjectUrl(j)[5..] == Decimal(j);
    DecimalInjective(i, j);
  }

  // ---------------------------------------------------------------------
  // The App component
  // ---------------------------------------------------------------------

  class App {
    /** The file last picked; null until a pick, undefined after an empty pick. */
    var file: Option<Payload>
    /** The handle of the shown result; "" when no result is shown. */
    var imageUrl: string
    /** The message shown in red; "" when none. */
    var errorMessage: string
    /** The last processed image received. */
    var imageBlob: Option<Payload>
    /** The page's object-URL table: ObjectUrl(i) stands for objectUrls[i]. */
    var objectUrls: seq<Payload>

    /** url is the handle of an object URL created for blob. */
    ghost predicate Denotes(url: string, blob: Payload)
      reads this
    {
      exists i :: 0 <= i < |objectUrls| && objectUrls[i] == blob && ObjectUrl(i) == url
    }

    /**
     * A shown result is always backed by the stored blob: imageBlob is set
     * before imageUrl and never cleared, and imageUrl is the handle of it.
     * So the render's URL.createObjectURL(imageBlob) always has a blob.
     */
    ghost predicate Valid()
      reads this
    {
      imageUrl != "" ==> imageBlob.Some? && Denotes(imageUrl, imageBlob.value)
    }

    /** The useState initial values. */
    constructor ()
      ensures Valid()
      ensures file == None && imageUrl == "" && errorMessage == "" && imageBlob == None
      ensures objectUrls == []
    {
      file, imageUrl, errorMessage, imageBlob := None, "", "", None;
      objectUrls := [];
    }

    /** URL.createObjectURL: registers blob under a handle never issued before. */
    method CreateObjectUrl(blob: Payload) returns (url: string)
      modifies this`objectUrls
      ensures objectUrls == old(objectUrls) + [blob]
      ensures url == ObjectUrl(|old(objectUrls)|)
      ensures forall j :: 0 <= j < |old(objectUrls)| ==> ObjectUrl(j) != url
      ensures Denotes(url, blob)
    {
      url := ObjectUrl(|objectUrls|);
      forall j | 0 <= j < |objectUrls| ensures ObjectUrl(j) != url {
        if ObjectUrl(j) == url {
          ObjectUrlInjective(j, |objectUrls|);
        }
      }
      objectUrls := objectUrls + [blob];
      assert objectUrls[|objectUrls| - 1] == blob;
    }

    /** handleFileChange: store files[0] and clear the error and the shown result. */
    method HandleFileChange(files: seq<Payload>)
      requires Valid()
      modifies this`file, this`errorMessage, this`imageUrl
      ensures Valid()
      ensures file == (if |files| > 0 then Some(files[0]) else None)
      ensures errorMessage == "" && imageUrl == ""
      ensures imageBlob == old(imageBlob) && objectUrls == old(objectUrls)
    {
      file := if |files| > 0 then Some(files[0]) else None;
      errorMessage := "";
      imageUrl := "";
    }

    /**
     * handleUpload: without an explicit payload and without a picked file,
     * set the "select an image" error and send nothing. Otherwise POST one
     * part named "file" (the explicit payload wins over the picked file); on
     * success store the body as a JPEG blob and show it under a fresh handle,
     * keeping any earlier error; on failure set the generic error, keeping
     * any earlier result.
     */
    method HandleUpload(fileToUpload: Option<Payload>, outcome: PostOutcome) returns (sent: seq<Request>)
      requires Valid()
      modifies this`errorMessage, this`imageUrl, this`imageBlob, this`objectUrls
      ensures Valid()
      ensures file == old(file)
      ensures fileToUpload.None? && file.None? ==>
        && sent == []
        && errorMessage == NoFileMessage
        && imageUrl == old(imageUrl) && imageBlob == old(imageBlob) && objectUrls == old(objectUrls)
      ensures fileToUpload.Some? || file.Some? ==>
        sent == [Post(UploadUrl, [FormPart(FileField, if fileToUpload.Some? then fileToUpload.value else file.value)])]
      ensures (fileToUpload.Some? || file.Some?) && outcome.Responded? ==>
        && imageBlob == Some(Blob(outcome.body, JpegMime))
        && objectUrls == old(objectUrls) + [imageBlob.value]
        && imageUrl == ObjectUrl(|old(objectUrls)|)
        && (forall j :: 0 <= j < |old(objectUrls)| ==> ObjectUrl(j) != imageUrl)
        && errorMessage == old(errorMessage)
      ensures (fileToUpload.Some? || file.Some?) && outcome.Rejected? ==>
        && errorMessage == UploadFailedMessage
        && imageUrl == old(imageUrl) && imageBlob == old(imageBlob) && objectUrls == old(objectUrls)
    {
      if fileToUpload.None? && file.None? {
        errorMessage := NoFileMessage;
        return [];
      }
      var payload := if fileToUpload.Some? then fileToUpload.value else file.value;
      var formData := [FormPart(FileField, payload)];
      sent := [Post(UploadUrl, formData)];
      match outcome {
        case Responded(body) =>
          var blob := Blob(body, JpegMime);
          imageBlob := Some(blob);
          imageUrl := CreateObjectUrl(blob);
        case Rejected =>
          errorMessage := UploadFailedMessage;
      }
    }

    /**
     * handleSampleClick: fetch the sample; if that fails, set the sample
     * error and upload nothing; otherwise hand the fetched blob to
     * handleUpload, whose own failures it catches itself.
     */
    method HandleSampleClick(sampleUrl: string, fetched: FetchOutcome, outcome: PostOutcome)
      returns (sent: seq<Request>)
      requires Valid()
      modifies this`errorMessage, this`imageUrl, this`imageBlob, this`objectUrls
      ensures Valid()
      ensures file == old(file)
      ensures fetched.FetchFailed? ==>
        && sent == [Get(sampleUrl)]
        && errorMessage == SampleFailedMessage
        && imageUrl == old(imageUrl) && imageBlob == old(imageBlob) && objectUrls == old(objectUrls)
      ensures fetched.Fetched? ==>
        sent == [Get(sampleUrl), Post(UploadUrl, [FormPart(FileField, Blob(fetched.body, fetched.mime))])]
      ensures fetched.Fetched? && outcome.Responded? ==>
        && imageBlob == Some(Blob(outcome.body, JpegMime))
        && objectUrls == old(objectUrls) + [imageBlob.value]
        && imageUrl == ObjectUrl(|old(objectUrls)|)
        && (forall j :: 0 <= j < |old(objectUrls)| ==> ObjectUrl(j) != imageUrl)
        && errorMessage == old(errorMessage)
      ensures fetched.Fetched? && outcome.Rejected? ==>
        && errorMessage == UploadFailedMessage
        && imageUrl == old(imageUrl) && imageBlob == old(imageBlob) && objectUrls == old(objectUrls)
      // A sample click never raises the "select an image" error ...
      ensures errorMessage == NoFileMessage ==> old(errorMessage) == NoFileMessage
      // ... and an upload failure never surfaces as the sample error.
      ensures fetched.Fetched? && errorMessage == SampleFailedMessage ==> old(errorMessage) == SampleFailedMessage
    {
      sent := [Get(sampleUrl)];
      match fetched {
        case FetchFailed =>
          errorMessage := SampleFailedMessage;
        case Fetched(body, mime) =>
          var posted := HandleUpload(Some(Blob(body, mime)), outcome);
          sent := sent + posted;
      }
    }

    /**
     * The rendered page: the sample thumbnails; the error paragraph exactly
     * when errorMessage is non-empty; the result panel exactly when imageUrl
     * is non-empty, with a download link to a new object URL made of
     * imageBlob on every render and named "processed-image.jpg".
     */
    method Render() returns (view: View)
      requires Valid()
      modifies this`objectUrls
      ensures Valid()
      ensures |view.samples| == |SampleImages|
      ensures forall i :: 0 <= i < |SampleImages| ==>
        view.samples[i] == Thumbnail(SampleImages[i], "Sample " + Decimal(i + 1))
      ensures view.error.Some? <==> errorMessage != ""
      ensures view.error.Some? ==> view.error.value == errorMessage
      ensures view.result.Some? <==> imageUrl != ""
      ensures imageUrl == "" ==> objectUrls == old(objectUrls)
      ensures imageUrl != "" ==>
        && view.result == Some(ResultPanel(imageUrl, ObjectUrl(|old(objectUrls)|), DownloadName))
        && objectUrls == old(objectUrls) + [imageBlob.value]
        && Denotes(imageUrl, imageBlob.value) && Denotes(view.result.value.href, imageBlob.value)
    {
      var samples := seq(|SampleImages|, i requires 0 <= i < |SampleImages| =>
                           Thumbnail(SampleImages[i], "Sample " + Decimal(i + 1)));
      var error := if errorMessage != "" then Some(errorMessage) else None;
      var result := None;
      if imageUrl != "" {
        ghost var k :| 0 <= k < |objectUrls| && objectUrls[k] == imageBlob.value && ObjectUrl(k) == imageUrl;
        var href := CreateObjectUrl(imageBlob.value);
        assert objectUrls[k] == imageBlob.value;
        result := Some(ResultPanel(imageUrl, href, DownloadName));
      }
      view := View(samples, error, result);
    }
  }

  /**
   * A stale error can sit beside a result: an upload with nothing picked
   * sets the "select an image" error, and a later successful sample upload
   * shows its result without clearing that error.
   */
  method StaleErrorBesideResult(sample: seq<bv8>, processed: seq<bv8>) returns (view: View)
    ensures view.error == Some(NoFileMessage)
    ensures view.result.Some? && view.result.value.download == DownloadName
  {
    var app := new App();
    var none := app.HandleUpload(None, Rejected);
    var both := app.HandleSampleClick(SampleImages[0], Fetched(sample, JpegMime), Responded(processed));
    view := app.Render();
  }
}
