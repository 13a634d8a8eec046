/**
 * The Flask service of app.py: the confidence filter over face detections
 * (get_face_box), the padded crop window and the age/gender label of each
 * face (process_image), and the HTTP answer of the /upload route
 * (upload_image).
 *
 * OpenCV is not modelled: decoding, the three networks and JPEG encoding are
 * the uninterpreted function fields of a `Vision` value. An image is a
 * `Frame`: its size, its decoded pixels, and the list of marks (rectangles
 * and texts) drawn on it so far.
 */
module FaceService {
  import opened Wrappers

  // ---------------------------------------------------------------------
  // Constants of app.py
  // ---------------------------------------------------------------------

  /** AGE_LIST: the age-bracket names, indexed by the age network's argmax. */
  const AgeList: seq<string> :=
    ["(0-2)", "(4-6)", "(8-12)", "(15-20)", "(25-32)", "(38-43)", "(48-53)", "(60-100)"]
  /** GENDER_LIST: the gender names, indexed by the gender network's argmax. */
  const GenderList: seq<string> := ["Male", "Female"]
  /** PADDING: pixels added on every side of a face box before cropping. */
  const Padding: int := 20
  /** The conf_threshold that process_image passes to get_face_box. */
  const ConfThreshold: real := 0.7
  /** What separates gender and age in a face label. */
  const LabelSeparator: string := ", "
  const NoFaceText: string := "No face detected"
  const ReadFailedMessage: string := "Failed to read image."
  const NoFileError: string := "No file provided"
  /** The name of the multipart field the route reads. */
  const UploadFileKey: string := "file"
  const JsonMime: string := "application/json"
  const JpegMimetype: string := "image/jpeg"

  /** An argmax over the gender network's two outputs. */
  type GenderIndex = i: int | 0 <= i < 2
  /** An argmax over the age network's eight outputs. */
  type AgeIndex = i: int | 0 <= i < 8

  // ---------------------------------------------------------------------
  // Data model
  // ---------------------------------------------------------------------

  /** A face box [x1, y1, x2, y2] in pixel coordinates. */
  datatype Box = Box(x1: int, y1: int, x2: int, y2: int)

  /** One row of the face network's output, already scaled to pixels. */
  datatype Detection = Detection(confidence: real, box: Box)

  datatype Point = Point(x: int, y: int)

  /** Something cv.rectangle or cv.putText drew on an image. */
  datatype Mark = Rectangle(box: Box) | Text(text: string, origin: Point)

  /** A decoded image: shape[0] is `height`, shape[1] is `width`. */
  datatype Frame = Frame(height: nat, width: nat, pixels: seq<bv8>, marks: seq<Mark>)

  /** The slice bounds image[rowStart:rowStop, colStart:colStop] of a face crop. */
  datatype Window = Window(rowStart: int, rowStop: int, colStart: int, colStop: int)

  /** The crop a classifier sees: a window of an image. */
  datatype Crop = Crop(frame: Frame, window: Window)

  /** The arg-maxes of the gender and the age network for one face. */
  datatype Prediction = Prediction(gender: GenderIndex, age: AgeIndex)

  /** The OpenCV calls app.py makes, as uninterpreted functions. */
  datatype Vision = Vision(
    decode: seq<bv8> -> Option<Frame>,      // cv.imdecode; None when the bytes are not an image
    faceNet: Frame -> seq<Detection>,       // blobFromImage + face_net.forward
    genderNet: Crop -> GenderIndex,         // blobFromImage + gender_net.forward + argmax
    ageNet: Crop -> AgeIndex,               // blobFromImage + age_net.forward + argmax
    encodeJpeg: Frame -> seq<bv8>)          // cv.imencode(".jpg", ...)

  datatype Body = JsonError(error: string) | Bytes(data: seq<bv8>)

  /** What the route hands back to Flask. */
  datatype Response = Response(status: nat, mimetype: string, body: Body)

  // ---------------------------------------------------------------------
  // get_face_box: the confidence filter
  // ---------------------------------------------------------------------

  /** The boxes of the detections whose confidence is strictly above `threshold`, in order. */
  function Qualifying(detections: seq<Detection>, threshold: real): (boxes: seq<Box>)
    ensures |boxes| <= |detections|
  {
    if detections == [] then []
    else
      var last := detections[|detections| - 1];
      Qualifying(detections[..|detections| - 1], threshold)
        + (if last.confidence > threshold then [last.box] else [])
  }

  /** One rectangle mark per box, in order. */
  function Rectangles(boxes: seq<Box>): (marks: seq<Mark>)
    ensures |marks| == |boxes|
  {
    if boxes == [] then [] else Rectangles(boxes[..|boxes| - 1]) + [Rectangle(boxes[|boxes| - 1])]
  }

  lemma {:induction false} RectanglesAt(boxes: seq<Box>, k: nat)
    requires k < |boxes|
    ensures Rectangles(boxes)[k] == Rectangle(boxes[k])
  {
    var n := |boxes|;
    if k < n - 1 {
      RectanglesAt(boxes[..n - 1], k);
    }
  }

  lemma QualifyingStep(detections: seq<Detection>, threshold: real, i: nat)
    requires i < |detections|
    ensures Qualifying(detections[..i + 1], threshold)
         == Qualifying(detections[..i], threshold)
            + (if detections[i].confidence > threshold then [detections[i].box] else [])
  {
    assert detections[..i + 1][..i] == detections[..i];
  }

  lemma RectanglesStep(boxes: seq<Box>, b: Box)
    ensures Rectangles(boxes + [b]) == Rectangles(boxes) + [Rectangle(b)]
  {
  }

  /** The filter is monotone: the boxes of a prefix are a prefix of the boxes. */
  lemma {:induction false} QualifyingPrefix(detections: seq<Detection>, threshold: real, i: nat)
    requires i <= |detections|
    ensures Qualifying(detections[..i], threshold) <= Qualifying(detections, threshold)
    decreases |detections| - i
  {
    if i < |detections| {
      var n := |detections|;
      QualifyingPrefix(detections[..n - 1], threshold, i);
      assert detections[..n - 1][..i] == detections[..i];
    } else {
      assert detections[..i] == detections;
    }
  }

  /**
   * No qualifying detection is dropped, and order is kept: the box of a
   * detection above the threshold sits at the position given by the number
   * of qualifying detections before it.
   */
  lemma QualifyingKeeps(detections: seq<Detection>, threshold: real, i: nat)
    requires i < |detections| && detections[i].confidence > threshold
    ensures |Qualifying(detections[..i], threshold)| < |Qualifying(detections, threshold)|
    ensures Qualifying(detections, threshold)[|Qualifying(detections[..i], threshold)|] == detections[i].box
  {
    var upTo := detections[..i + 1];
    assert upTo[..i] == detections[..i];
    assert Qualifying(upTo, threshold) == Qualifying(detections[..i], threshold) + [detections[i].box];
    QualifyingPrefix(detections, threshold, i + 1);
  }

  /**
   * Nothing but qualifying boxes is kept: each box of the result is the box
   * of a detection above the threshold, and it is that detection's turn.
   */
  lemma {:induction false} QualifyingSound(detections: seq<Detection>, threshold: real, k: nat)
    requires k < |Qualifying(detections, threshold)|
    ensures exists i :: 0 <= i < |detections| && detections[i].confidence > threshold
                        && |Qualifying(detections[..i], threshold)| == k
                        && detections[i].box == Qualifying(detections, threshold)[k]
  {
    var n := |detections|;
    var init := detections[..n - 1];
    var before := Qualifying(init, threshold);
    var last := detections[n - 1];
    assert Qualifying(detections, threshold) == before + (if last.confidence > threshold then [last.box] else []);
    if k < |before| {
      QualifyingSound(init, threshold, k);
      var i :| 0 <= i < |init| && init[i].confidence > threshold
               && |Qualifying(init[..i], threshold)| == k && init[i].box == before[k];
      assert init[..i] == detections[..i];
      assert detections[i] == init[i];
    } else {
      assert init == detections[..n - 1];
      assert |Qualifying(detections[..n - 1], threshold)| == k;
    }
  }

  /** A box is kept exactly when some detection above the threshold has it. */
  lemma QualifyingMembers(detections: seq<Detection>, threshold: real, b: Box)
    ensures b in Qualifying(detections, threshold)
        <==> exists i :: 0 <= i < |detections| && detections[i].confidence > threshold && detections[i].box == b
  {
    var boxes := Qualifying(detections, threshold);
    if b in boxes {
      var k :| 0 <= k < |boxes| && boxes[k] == b;
      QualifyingSound(detections, threshold, k);
    }
    if exists i :: 0 <= i < |detections| && detections[i].confidence > threshold && detections[i].box == b {
      var i :| 0 <= i < |detections| && detections[i].confidence > threshold && detections[i].box == b;
      QualifyingKeeps(detections, threshold, i);
    }
  }

  /**
   * get_face_box: keeps the box of every detection whose confidence is
   * above the threshold and draws a rectangle for it on a copy of the frame.
   */
  method GetFaceBox(net: Frame -> seq<Detection>, frame: Frame, confThreshold: real)
    returns (frameCopy: Frame, bboxes: seq<Box>)
    ensures bboxes == Qualifying(net(frame), confThreshold)
    ensures frameCopy == frame.(marks := frame.marks + Rectangles(bboxes))
  {
    var marks := frame.marks;
    var detections := net(frame);
    bboxes := [];
    for i := 0 to |detections|
      invariant bboxes == Qualifying(detections[..i], confThreshold)
      invariant marks == frame.marks + Rectangles(bboxes)
    {
      QualifyingStep(detections, confThreshold, i);
      var confidence := detections[i].confidence;
      if confidence > confThreshold {
        var b := detections[i].box;
        RectanglesStep(bboxes, b);
        bboxes := bboxes + [b];
        marks := marks + [Rectangle(b)];
      }
    }
    assert detections[..|detections|] == detections;
    frameCopy := frame.(marks := marks);
  }

  // ---------------------------------------------------------------------
  // process_image: the crop window
  // ---------------------------------------------------------------------

  function Max(a: int, b: int): int { if a < b then b else a }
  function Min(a: int, b: int): int { if a < b then a else b }

  /** The slice bounds of the padded face crop, clamped as process_image clamps them. */
  function CropWindow(b: Box, height: int, width: int): (w: Window)
    ensures w.rowStart >= 0 && w.rowStart >= b.y1 - Padding
    ensures w.rowStart == 0 || w.rowStart == b.y1 - Padding
    ensures w.colStart >= 0 && w.colStart >= b.x1 - Padding
    ensures w.colStart == 0 || w.colStart == b.x1 - Padding
    ensures w.rowStop <= height - 1 && w.rowStop <= b.y2 + Padding
    ensures w.rowStop == height - 1 || w.rowStop == b.y2 + Padding
    ensures w.colStop <= width - 1 && w.colStop <= b.x2 + Padding
    ensures w.colStop == width - 1 || w.colStop == b.x2 + Padding
    ensures b.y1 >= Padding && b.x1 >= Padding && b.y2 + Padding + 1 <= height && b.x2 + Padding + 1 <= width
            ==> w == Window(b.y1 - Padding, b.y2 + Padding, b.x1 - Padding, b.x2 + Padding)
  {
    Window(Max(0, b.y1 - Padding), Min(b.y2 + Padding, height - 1),
           Max(0, b.x1 - Padding), Min(b.x2 + Padding, width - 1))
  }

  /** Python's normalisation of one slice bound against a dimension of length n. */
  function SliceBound(i: int, n: nat): (r: nat)
    ensures r <= n
    ensures 0 <= i <= n ==> r == i
    ensures i < 0 ==> r == Max(0, i + n)
    ensures i > n ==> r == n
  {
    if i < 0 then (if i + n < 0 then 0 else i + n) else if i > n then n else i
  }

  /** Row r of the image lies in the slice [start:stop] of a dimension of length n. */
  predicate InSlice(r: int, start: int, stop: int, n: nat)
  {
    SliceBound(start, n) <= r < SliceBound(stop, n)
  }

  /**
   * The stop bounds are exclusive and clamped to height - 1 and width - 1,
   * so the crop never holds the image's last row or last column, even when
   * the padded box reaches past the edge.
   */
  lemma CropSkipsLastRowAndColumn(b: Box, f: Frame, r: int, c: int)
    requires f.height >= 1 && f.width >= 1
    requires InSlice(r, CropWindow(b, f.height, f.width).rowStart, CropWindow(b, f.height, f.width).rowStop, f.height)
    requires InSlice(c, CropWindow(b, f.height, f.width).colStart, CropWindow(b, f.height, f.width).colStop, f.width)
    ensures 0 <= r < f.height - 1 && 0 <= c < f.width - 1
  {
  }

  /** A box well inside the image is cropped to exactly its padded extent. */
  lemma CropOfInnerBox(b: Box, f: Frame, r: int)
    requires b.y1 >= Padding && b.y2 + Padding + 1 <= f.height && b.y1 <= b.y2
    requires b.x1 >= Padding && b.x2 + Padding + 1 <= f.width
    ensures InSlice(r, CropWindow(b, f.height, f.width).rowStart, CropWindow(b, f.height, f.width).rowStop, f.height)
        <==> b.y1 - Padding <= r < b.y2 + Padding
  {
  }

  // ---------------------------------------------------------------------
  // process_image: labels
  // ---------------------------------------------------------------------

  /** The label f"{gender}, {age}" drawn above a face. */
  function Label(p: Prediction): (s: string)
    ensures GenderList[p.gender] + LabelSeparator <= s
    ensures s[|GenderList[p.gender] + LabelSeparator|..] == AgeList[p.age]
  {
    GenderList[p.gender] + LabelSeparator + AgeList[p.age]
  }

  /** The first position of x in list. */
  function IndexOf(list: seq<string>, x: string): (r: Option<nat>)
    ensures r.Some? ==> r.value < |list| && list[r.value] == x && x !in list[..r.value]
    ensures r.None? ==> x !in list
  {
    if list == [] then None
    else if list[0] == x then Some(0)
    else match IndexOf(list[1..], x)
      case None => None
      case Some(i) =>
        assert list[1..][..i] == list[1..i + 1];
        Some(i + 1)
  }

  /** Reads a label back: the gender name, the separator, then an age bracket. */
  function ParseLabel(s: string): Option<Prediction>
  {
    ParseLabelFrom(s, 0)
  }

  function ParseLabelFrom(s: string, g: nat): Option<Prediction>
    decreases |GenderList| - g
  {
    if g >= |GenderList| then None
    else
      var prefix := GenderList[g] + LabelSeparator;
      if prefix <= s then
        match IndexOf(AgeList, s[|prefix|..])
        case Some(a) => Some(Prediction(g, a))
        case None => None
      else ParseLabelFrom(s, g + 1)
  }

  lemma AgeListDistinct()
    ensures forall i, j :: 0 <= i < j < |AgeList| ==> AgeList[i] != AgeList[j]
  {
  }

  /** A label determines the prediction it was made from. */
  lemma LabelRoundTrip(p: Prediction)
    ensures ParseLabel(Label(p)) == Some(p)
  {
    var s := Label(p);
    var prefix := GenderList[p.gender] + LabelSeparator;
    assert prefix <= s;
    assert s[|prefix|..] == AgeList[p.age];
    AgeListDistinct();
    var r := IndexOf(AgeList, AgeList[p.age]);
    assert AgeList[p.age] in AgeList;
    assert r == Some(p.age);
    if p.gender == 1 {
      assert s[0] == 'F';
      assert !(GenderList[0] + LabelSeparator <= s) by {
        assert (GenderList[0] + LabelSeparator)[0] == 'M';
      }
    }
  }

  /** Only labels parse: whatever ParseLabel accepts is gender, separator, age. */
  lemma ParseLabelSound(s: string, p: Prediction)
    requires ParseLabel(s) == Some(p)
    ensures s == Label(p)
  {
  }

  /** The classifiers' verdict on the padded crop of one face. */
  function Predict(image: Frame, b: Box, vision: Vision): Prediction
  {
    var crop := Crop(image, CropWindow(b, image.height, image.width));
    Prediction(vision.genderNet(crop), vision.ageNet(crop))
  }

  /** The label text drawn 10 pixels above a face box's top-left corner. */
  function LabelMark(image: Frame, b: Box, vision: Vision): (m: Mark)
    ensures m.Text? && m.origin == Point(b.x1, b.y1 - 10)
  {
    Text(Label(Predict(image, b, vision)), Point(b.x1, b.y1 - 10))
  }

  /** One label mark per box, in order. */
  function LabelMarks(image: Frame, boxes: seq<Box>, vision: Vision): (marks: seq<Mark>)
    ensures |marks| == |boxes|
  {
    if boxes == [] then []
    else LabelMarks(image, boxes[..|boxes| - 1], vision) + [LabelMark(image, boxes[|boxes| - 1], vision)]
  }

  lemma LabelMarksStep(image: Frame, boxes: seq<Box>, vision: Vision, k: nat)
    requires k < |boxes|
    ensures LabelMarks(image, boxes[..k + 1], vision) == LabelMarks(image, boxes[..k], vision) + [LabelMark(image, boxes[k], vision)]
  {
    assert boxes[..k + 1][..k] == boxes[..k];
  }

  lemma {:induction false} LabelMarksAt(image: Frame, boxes: seq<Box>, vision: Vision, k: nat)
    requires k < |boxes|
    ensures LabelMarks(image, boxes, vision)[k] == LabelMark(image, boxes[k], vision)
  {
    var n := |boxes|;
    if k < n - 1 {
      LabelMarksAt(image, boxes[..n - 1], vision, k);
    }
  }

  /** The image that process_image returns for a decoded frame. */
  function Processed(image: Frame, vision: Vision): (out: Frame)
    ensures out.height == image.height && out.width == image.width && out.pixels == image.pixels
    ensures image.marks <= out.marks
  {
    var bboxes := Qualifying(vision.faceNet(image), ConfThreshold);
    if bboxes == [] then image.(marks := image.marks + [Text(NoFaceText, Point(50, 100))])
    else image.(marks := image.marks + Rectangles(bboxes) + LabelMarks(image, bboxes, vision))
  }

  /**
   * What process_image draws: "No face detected" when no detection clears
   * the threshold; otherwise a rectangle per face and, after them, per face
   * the label "gender, age" made of a GENDER_LIST and an AGE_LIST entry.
   */
  lemma ProcessedMarks(image: Frame, vision: Vision)
    ensures var out := Processed(image, vision);
      var bboxes := Qualifying(vision.faceNet(image), ConfThreshold);
      && out.height == image.height && out.width == image.width && out.pixels == image.pixels
      && image.marks <= out.marks
      && (bboxes == [] ==> out.marks == image.marks + [Text(NoFaceText, Point(50, 100))])
      && (bboxes != [] ==>
            |out.marks| == |image.marks| + 2 * |bboxes|
            && (forall k :: 0 <= k < |bboxes| ==> out.marks[|image.marks| + k] == Rectangle(bboxes[k]))
            && (forall k :: 0 <= k < |bboxes| ==>
                  var m := out.marks[|image.marks| + |bboxes| + k];
                  && m == LabelMark(image, bboxes[k], vision)
                  && m.Text? && ParseLabel(m.text) == Some(Predict(image, bboxes[k], vision))))
  {
    var out := Processed(image, vision);
    var bboxes := Qualifying(vision.faceNet(image), ConfThreshold);
    if bboxes != [] {
      var rects := Rectangles(bboxes);
      var labels := LabelMarks(image, bboxes, vision);
      assert out.marks == image.marks + rects + labels;
      forall k | 0 <= k < |bboxes|
        ensures out.marks[|image.marks| + k] == Rectangle(bboxes[k])
      {
        assert out.marks[|image.marks| + k] == rects[k];
        RectanglesAt(bboxes, k);
      }
      forall k | 0 <= k < |bboxes|
        ensures var m := out.marks[|image.marks| + |bboxes| + k];
          && m == LabelMark(image, bboxes[k], vision)
          && m.Text? && ParseLabel(m.text) == Some(Predict(image, bboxes[k], vision))
      {
        assert out.marks[|image.marks| + |bboxes| + k] == labels[k];
        LabelMarksAt(image, bboxes, vision, k);
        LabelRoundTrip(Predict(image, bboxes[k], vision));
      }
      assert out.marks == image.marks + (rects + labels);
    }
  }

  /**
   * process_image: decode the upload; on failure answer the read error,
   * otherwise the annotated image and no error.
   */
  method ProcessImage(bytes: seq<bv8>, vision: Vision) returns (image: Option<Frame>, error: Option<string>)
    ensures image.None? <==> error.Some?
    ensures vision.decode(bytes).None? ==> image == None && error == Some(ReadFailedMessage)
    ensures vision.decode(bytes).Some? ==> error == None && image == Some(Processed(vision.decode(bytes).value, vision))
  {
    var decoded := vision.decode(bytes);
    if decoded.None? {
      return None, Some(ReadFailedMessage);
    }
    var frame := decoded.value;
    var frameFace, bboxes := GetFaceBox(vision.faceNet, frame, ConfThreshold);
    if bboxes == [] {
      return Some(frame.(marks := frame.marks + [Text(NoFaceText, Point(50, 100))])), None;
    }
    var marks := frameFace.marks;
    for k := 0 to |bboxes|
      invariant marks == frame.marks + Rectangles(bboxes) + LabelMarks(frame, bboxes[..k], vision)
    {
      LabelMarksStep(frame, bboxes, vision, k);
      var b := bboxes[k];
      var face := Crop(frame, CropWindow(b, frame.height, frame.width));
      var gender := vision.genderNet(face);
      var age := vision.ageNet(face);
      var caption := Label(Prediction(gender, age));
      assert Text(caption, Point(b.x1, b.y1 - 10)) == LabelMark(frame, b, vision);
      marks := marks + [Text(caption, Point(b.x1, b.y1 - 10))];
    }
    assert bboxes[..|bboxes|] == bboxes;
    frameFace := frameFace.(marks := marks);
    return Some(frameFace), None;
  }

  // ---------------------------------------------------------------------
  // upload_image: the /upload route
  // ---------------------------------------------------------------------

  /**
   * upload_image: 400 with "No file provided" when the form has no "file"
   * part (the image is then never decoded), 400 with process_image's error
   * when the image cannot be read, and otherwise the processed image as JPEG.
   */
  method UploadImage(files: map<string, seq<bv8>>, vision: Vision) returns (response: Response)
    ensures UploadFileKey !in files ==> response == Response(400, JsonMime, JsonError(NoFileError))
    ensures UploadFileKey in files && vision.decode(files[UploadFileKey]).None?
            ==> response == Response(400, JsonMime, JsonError(ReadFailedMessage))
    ensures UploadFileKey in files && vision.decode(files[UploadFileKey]).Some?
            ==> response == Response(200, JpegMimetype,
                                     Bytes(vision.encodeJpeg(Processed(vision.decode(files[UploadFileKey]).value, vision))))
    ensures response.status == 400 <==> response.body.JsonError?
  {
    if UploadFileKey !in files {
      return Response(400, JsonMime, JsonError(NoFileError));
    }
    var file := files[UploadFileKey];
    var processedImage, error := ProcessImage(file, vision);
    if processedImage.None? {
      return Response(400, JsonMime, JsonError(error.value));
    }
    var buffer := vision.encodeJpeg(processedImage.value);
    return Response(200, JpegMimetype, Bytes(buffer));
  }
}
