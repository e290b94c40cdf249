/**
 * The desktop detection tool: the sweep over confidence thresholds that fills
 * `detected_boxes`, the naming of classes, the save action that writes the
 * annotated image and the coordinate file, and the image load that replaces the
 * session's boxes.
 */
module Detect {
  import opened Text

  /** A box as the detector reports it: float corners (`xyxy`), confidence and class id. */
  datatype RawBox = RawBox(x1: real, y1: real, x2: real, y2: real, conf: real, cls: int)

  /** One record of `detected_boxes`. */
  datatype Detection = Detection(x1: int, y1: int, x2: int, y2: int, conf: real, cls: int, clsName: string)

  /**
   * The trained model's `predict` as a table: for an image path and a
   * threshold, the boxes of the first result (none for a pair not listed).
   * The pairs in `raises` are the calls that raise instead of returning (a
   * failing inference, or a result list without a first entry).
   */
  datatype Predictor = Predictor(answers: map<(string, real), seq<RawBox>>, raises: set<(string, real)>) {
    function Predict(path: string, conf: real): seq<RawBox> {
      if (path, conf) in answers then answers[(path, conf)] else []
    }

    predicate Raises(path: string, conf: real) {
      (path, conf) in raises
    }

    /** Some threshold of `ts` makes the call for `path` raise. */
    predicate RaisesOn(path: string, ts: seq<real>) {
      exists k :: 0 <= k < |ts| && Raises(path, ts[k])
    }
  }

  /** The thresholds of the sweep, in the order they are tried. */
  const Thresholds: seq<real> := [0.3, 0.5, 0.7]

  /** Python's `int` of a float: the integer part, rounding toward zero. */
  function Truncate(r: real): (t: int)
    ensures 0.0 <= r ==> 0 <= t && t as real <= r < t as real + 1.0
    ensures r < 0.0 ==> t <= 0 && t as real - 1.0 < r <= t as real
  {
    if r >= 0.0 then r.Floor else -((-r).Floor)
  }

  /** A truncated coordinate is non-negative exactly when the float is above -1. */
  lemma TruncateNonNegative(r: real)
    ensures Truncate(r) >= 0 <==> r > -1.0
  {
  }

  function ClassName(cls: int): (name: string)
    ensures name == "door" <==> cls == 0
    ensures name == "door" || name == "window"
  {
    if cls == 0 then "door" else "window"
  }

  function ToDetection(b: RawBox): Detection {
    Detection(Truncate(b.x1), Truncate(b.y1), Truncate(b.x2), Truncate(b.y2), b.conf, b.cls, ClassName(b.cls))
  }

  /** The records one `predict` call contributes, in the order the call returned its boxes. */
  function Converted(bs: seq<RawBox>): (ds: seq<Detection>)
    ensures |ds| == |bs|
  {
    if bs == [] then [] else Converted(bs[..|bs| - 1]) + [ToDetection(bs[|bs| - 1])]
  }

  /** The k-th record of a call is made from the call's k-th box. */
  lemma {:induction false} ConvertedAt(bs: seq<RawBox>, k: nat)
    requires k < |bs|
    ensures Converted(bs)[k] == ToDetection(bs[k])
  {
    if k < |bs| - 1 {
      ConvertedAt(bs[..|bs| - 1], k);
    }
  }

  /** Converting one more box appends its record. */
  lemma ConvertedSnoc(bs: seq<RawBox>, j: nat)
    requires j < |bs|
    ensures Converted(bs[..j + 1]) == Converted(bs[..j]) + [ToDetection(bs[j])]
  {
    assert bs[..j + 1][..j] == bs[..j];
  }

  /** What the sweep over the thresholds `ts` collects for `path`. */
  function Sweep(model: Predictor, path: string, ts: seq<real>): seq<Detection> {
    if ts == [] then [] else Sweep(model, path, ts[..|ts| - 1]) + Converted(model.Predict(path, ts[|ts| - 1]))
  }

  /** One more threshold appends the records of its call. */
  lemma SweepSnoc(model: Predictor, path: string, ts: seq<real>, i: nat)
    requires i < |ts|
    ensures Sweep(model, path, ts[..i + 1]) == Sweep(model, path, ts[..i]) + Converted(model.Predict(path, ts[i]))
  {
    assert ts[..i + 1][..i] == ts[..i];
  }

  /** The number of boxes the calls at `ts` return together. */
  function Count(model: Predictor, path: string, ts: seq<real>): nat {
    if ts == [] then 0 else Count(model, path, ts[..|ts| - 1]) + |model.Predict(path, ts[|ts| - 1])|
  }

  /** Nothing is merged or dropped: the sweep holds as many records as the calls returned boxes. */
  lemma {:induction false} SweepLength(model: Predictor, path: string, ts: seq<real>)
    ensures |Sweep(model, path, ts)| == Count(model, path, ts)
  {
    if ts != [] {
      SweepLength(model, path, ts[..|ts| - 1]);
    }
  }

  /** The sweep over the fixed thresholds is the three calls' records, concatenated in threshold order. */
  lemma SweepOfThresholds(model: Predictor, path: string)
    ensures Sweep(model, path, Thresholds)
         == Converted(model.Predict(path, 0.3)) + Converted(model.Predict(path, 0.5))
          + Converted(model.Predict(path, 0.7))
  {
    var ts := Thresholds;
    assert ts[..2] == [0.3, 0.5] && ts[..2][..1] == [0.3] && [0.3][..0] == [];
    calc {
      Sweep(model, path, ts);
      Sweep(model, path, ts[..2]) + Converted(model.Predict(path, 0.7));
      Sweep(model, path, ts[..2][..1]) + Converted(model.Predict(path, 0.5)) + Converted(model.Predict(path, 0.7));
      [] + Converted(model.Predict(path, 0.3)) + Converted(model.Predict(path, 0.5)) + Converted(model.Predict(path, 0.7));
    }
  }

  /** Every record carries the class name its class id determines. */
  predicate Named(ds: seq<Detection>) {
    forall k :: 0 <= k < |ds| ==> ds[k].clsName == ClassName(ds[k].cls)
  }

  lemma {:induction false} SweepNamed(model: Predictor, path: string, ts: seq<real>)
    ensures Named(Sweep(model, path, ts))
  {
    if ts != [] {
      SweepNamed(model, path, ts[..|ts| - 1]);
      var bs := model.Predict(path, ts[|ts| - 1]);
      var head: seq<Detection> := Sweep(model, path, ts[..|ts| - 1]);
      var tail: seq<Detection> := Converted(bs);
      forall k | |head| <= k < |head| + |tail|
        ensures (head + tail)[k].clsName == ClassName((head + tail)[k].cls)
      {
        ConvertedAt(bs, k - |head|);
      }
    }
  }

  /** One line of the coordinate file without its newline: `x1:A y1:B x2:C y2:D name`. */
  function CoordinateBody(d: Detection): string {
    "x1:" + IntToString(d.x1) + (" y1:" + IntToString(d.y1) + (" x2:" + IntToString(d.x2)
      + (" y2:" + IntToString(d.y2) + (" " + d.clsName))))
  }

  /** The line written for one record, newline included. */
  function CoordinateLine(d: Detection): string {
    CoordinateBody(d) + "\n"
  }

  /** The coordinate file for `ds`: one newline-terminated line per record, in order. */
  function CoordinateText(ds: seq<Detection>): string {
    if ds == [] then "" else CoordinateText(ds[..|ds| - 1]) + CoordinateLine(ds[|ds| - 1])
  }

  /** The file starts with the line of the first record, followed by the file of the others. */
  lemma {:induction false} CoordinateTextCons(ds: seq<Detection>)
    requires ds != []
    ensures CoordinateText(ds) == CoordinateLine(ds[0]) + CoordinateText(ds[1..])
  {
    if |ds| > 1 {
      var init, last := ds[..|ds| - 1], ds[|ds| - 1];
      CoordinateTextCons(init);
      InitTail(ds);
      assert CoordinateText(ds[1..]) == CoordinateText(init[1..]) + CoordinateLine(last);
      AppendAssoc(CoordinateLine(ds[0]), CoordinateText(init[1..]), CoordinateLine(last));
    }
  }

  /** The bodies of the lines of `ds`, in order. */
  function Bodies(ds: seq<Detection>): (ls: seq<string>)
    ensures |ls| == |ds|
    ensures forall k {:trigger ls[k]} :: 0 <= k < |ds| ==> ls[k] == CoordinateBody(ds[k])
  {
    if ds == [] then [] else [CoordinateBody(ds[0])] + Bodies(ds[1..])
  }

  lemma BodyHasNoNewline(d: Detection)
    requires IsWord(d.clsName)
    ensures '\n' !in CoordinateBody(d)
  {
    var n := d.clsName;
    assert forall i :: 0 <= i < |n| ==> n[i] != '\n';
    IntToStringNoNewline(d.x1);
    IntToStringNoNewline(d.y1);
    IntToStringNoNewline(d.x2);
    IntToStringNoNewline(d.y2);
  }

  /**
   * Splitting the coordinate file at its newlines gives exactly one piece per
   * record, in record order, followed by the empty piece after the last newline.
   */
  lemma {:induction false} CoordinateLines(ds: seq<Detection>)
    requires forall k :: 0 <= k < |ds| ==> IsWord(ds[k].clsName)
    ensures Split(CoordinateText(ds)) == Bodies(ds) + [""]
  {
    if ds != [] {
      BodyHasNoNewline(ds[0]);
      CoordinateLines(ds[1..]);
      CoordinateTextCons(ds);
      SplitLine(CoordinateBody(ds[0]), CoordinateText(ds[1..]));
      AppendAssoc([CoordinateBody(ds[0])], Bodies(ds[1..]), [""]);
    }
  }

  /** The loop of the save action that writes the coordinate file, line by line. */
  method WriteCoordinates(boxes: seq<Detection>) returns (text: string)
    ensures text == CoordinateText(boxes)
  {
    text := "";
    for i := 0 to |boxes|
      invariant text == CoordinateText(boxes[..i])
    {
      assert boxes[..i + 1][..i] == boxes[..i];
      text := text + CoordinateLine(boxes[i]);
    }
    assert boxes[..|boxes|] == boxes;
  }

  /** An OpenCV colour, in blue-green-red order. */
  datatype Bgr = Bgr(b: int, g: int, r: int)

  /** The colour a box is drawn in on the saved image: blue for doors, green for everything else. */
  function SaveColour(clsName: string): (c: Bgr)
    ensures c == Bgr(255, 0, 0) <==> clsName == "door"
    ensures c == Bgr(255, 0, 0) || c == Bgr(0, 255, 0)
  {
    if clsName == "door" then Bgr(255, 0, 0) else Bgr(0, 255, 0)
  }

  /**
   * What is drawn for one box on the saved copy: a rectangle over the box's
   * corners and, 5 pixels above its top-left corner, a label made of the class
   * name and the confidence.
   */
  datatype Mark = Mark(x1: int, y1: int, x2: int, y2: int, colour: Bgr,
                       labelName: string, labelConf: real, labelX: int, labelY: int)

  function MarkFor(d: Detection): Mark {
    Mark(d.x1, d.y1, d.x2, d.y2, SaveColour(d.clsName), d.clsName, d.conf, d.x1, d.y1 - 5)
  }

  /** The loop of the save action that draws the boxes on the copy. */
  method DrawMarks(boxes: seq<Detection>) returns (marks: seq<Mark>)
    ensures |marks| == |boxes|
    ensures forall k :: 0 <= k < |boxes| ==> marks[k] == MarkFor(boxes[k])
  {
    marks := [];
    for i := 0 to |boxes|
      invariant |marks| == i
      invariant forall k :: 0 <= k < i ==> marks[k] == MarkFor(boxes[k])
    {
      marks := marks + [MarkFor(boxes[i])];
    }
  }

  /** The pixels of an image as read from disk; their content is not interpreted. */
  datatype Raster = Raster(pixels: seq<int>)

  /** The saved image: a copy of the loaded image with the marks drawn on it. */
  datatype Annotated = Annotated(base: Raster, marks: seq<Mark>)

  const ResultsDir := "detection_results"
  const ImagePath := ResultsDir + "/" + "detected_hou3.jpg"
  const CoordsPath := ResultsDir + "/" + "coordinates_hou3.txt"

  /** What the status line shows; `Message` gives its text. */
  datatype Status = Initial | Loaded(fileName: string) | Saved | NothingToSave

  function Message(st: Status): string {
    match st
    case Initial => "Upload a house image to begin"
    case Loaded(name) => "Loaded house image: " + name
    case Saved => "Saved detection results:\nImage: " + ImagePath + "\nCoordinates: " + CoordsPath
    case NothingToSave => "No detection results to save"
  }

  /** `os.path.basename` on a POSIX path: what follows the last `/`. */
  function Basename(path: string): string {
    if path == [] || path[|path| - 1] == '/' then []
    else Basename(path[..|path| - 1]) + [path[|path| - 1]]
  }

  /**
   * The base name is the tail of the path that holds no `/` and that starts
   * right after a `/` or at the start of the path.
   */
  lemma {:induction false} BasenameIsLastComponent(path: string)
    ensures var name := Basename(path);
      && |name| <= |path| && name == path[|path| - |name|..]
      && '/' !in name
      && (|name| < |path| ==> path[|path| - |name| - 1] == '/')
  {
    if path != [] && path[|path| - 1] != '/' {
      var init := path[..|path| - 1];
      BasenameIsLastComponent(init);
      SuffixSnoc(path, |path| - |Basename(init)| - 1);
    }
  }

  /**
   * The inner loop of `detect_objects`: each box of one `predict` call, in
   * the order the call returned them, appended as one record. As in the tool,
   * the loop variable `conf` is rebound to each box's confidence; `lastConf`
   * is the value it holds when the loop ends.
   */
  method AppendBoxes(done: seq<Detection>, reported: seq<RawBox>, conf: real)
    returns (detected: seq<Detection>, lastConf: real)
    ensures detected == done + Converted(reported)
    ensures lastConf == if reported == [] then conf else reported[|reported| - 1].conf
  {
    detected, lastConf := done, conf;
    var j := 0;
    while j < |reported|
      invariant 0 <= j <= |reported|
      invariant detected == done + Converted(reported[..j])
      invariant lastConf == if j == 0 then conf else reported[j - 1].conf
    {
      var box := reported[j];
      lastConf := box.conf;
      var cls := box.cls;
      var clsName := ClassName(cls);
      ConvertedSnoc(reported, j);
      AppendAssoc(done, Converted(reported[..j]), [ToDetection(box)]);
      detected := detected + [Detection(Truncate(box.x1), Truncate(box.y1), Truncate(box.x2), Truncate(box.y2),
                                        lastConf, cls, clsName)];
      j := j + 1;
    }
    assert reported[..|reported|] == reported;
  }

  /**
   * The nested loops of `detect_objects` over a list of thresholds, with
   * `model` the detector the window holds: one `predict` call per threshold,
   * in list order, each box of each call appended as a record. `calls` lists
   * the thresholds handed to `predict`: although the inner loop rebinds
   * `conf`, the next outer step rebinds it from the list, so they are the
   * list itself, up to the call that raised when one did. A raising call
   * ends the sweep with no result (None), as the exception leaves the method.
   */
  method SweepThresholds(model: Predictor, imagePath: string, confThresholds: seq<real>)
    returns (detected: Option<seq<Detection>>, ghost calls: seq<real>)
    ensures detected.None? <==> model.RaisesOn(imagePath, confThresholds)
    ensures detected.Some? ==> detected.value == Sweep(model, imagePath, confThresholds) && calls == confThresholds
    ensures detected.None? ==>
      && 0 < |calls| <= |confThresholds| && calls == confThresholds[..|calls|]
      && model.Raises(imagePath, calls[|calls| - 1])
      && !model.RaisesOn(imagePath, calls[..|calls| - 1])
  {
    var collected: seq<Detection> := [];
    calls := [];
    var conf: real;
    var i := 0;
    while i < |confThresholds|
      invariant 0 <= i <= |confThresholds|
      invariant collected == Sweep(model, imagePath, confThresholds[..i])
      invariant calls == confThresholds[..i]
      invariant !model.RaisesOn(imagePath, calls)
    {
      conf := confThresholds[i];
      calls := calls + [conf];
      if model.Raises(imagePath, conf) {
        assert calls[..|calls| - 1] == confThresholds[..i];
        assert calls == confThresholds[..i + 1];
        return None, calls;
      }
      var results := model.Predict(imagePath, conf);
      if |results| > 0 {
        collected, conf := AppendBoxes(collected, results, conf);
      }
      SweepSnoc(model, imagePath, confThresholds, i);
      i := i + 1;
    }
    assert confThresholds[..i] == confThresholds;
    detected := Some(collected);
  }

  /**
   * The detection window's session: the loaded image, its boxes, the status
   * line, and the contents of the two output files as the last save left them.
   */
  class DetectionApp {
    const model: Predictor
    var houseImage: Option<Raster>
    var detectedBoxes: seq<Detection>
    var status: Status
    var savedImage: Option<Annotated>
    var savedCoordinates: Option<string>

    ghost predicate Valid()
      reads this
    {
      Named(detectedBoxes)
    }

    constructor (model: Predictor)
      ensures Valid()
      ensures this.model == model
      ensures houseImage == None && detectedBoxes == [] && status == Initial
      ensures savedImage == None && savedCoordinates == None
    {
      this.model := model;
      houseImage := None;
      detectedBoxes := [];
      status := Initial;
      savedImage := None;
      savedCoordinates := None;
    }

    /**
     * `detect_objects`: the sweep over the fixed thresholds 0.3, 0.5 and 0.7,
     * or None when one of its calls raises.
     */
    method DetectObjects(imagePath: string) returns (detected: Option<seq<Detection>>, ghost calls: seq<real>)
      ensures detected.None? <==> model.RaisesOn(imagePath, [0.3, 0.5, 0.7])
      ensures detected.Some? ==> detected.value == Sweep(model, imagePath, Thresholds) && calls == [0.3, 0.5, 0.7]
    {
      detected, calls := SweepThresholds(model, imagePath, Thresholds);
    }

    /**
     * `load_house_image` after the file dialog: an empty path (a cancelled
     * dialog) changes nothing. Otherwise the decoded image (None when it could
     * not be read) replaces the image first; then a fresh sweep replaces the
     * boxes wholesale and the status names the file. When a `predict` call
     * raises, the exception leaves the method after the image was replaced:
     * the old boxes and the old status stay.
     */
    method LoadHouseImage(filePath: string, decoded: Option<Raster>)
      requires Valid()
      modifies this
      ensures Valid()
      ensures filePath == "" ==> unchanged(this)
      ensures filePath != "" ==>
        && houseImage == decoded
        && savedImage == old(savedImage) && savedCoordinates == old(savedCoordinates)
      ensures filePath != "" && !model.RaisesOn(filePath, Thresholds) ==>
        && detectedBoxes == Sweep(model, filePath, Thresholds)
        && status == Loaded(Basename(filePath))
      ensures filePath != "" && model.RaisesOn(filePath, Thresholds) ==>
        detectedBoxes == old(detectedBoxes) && status == old(status)
    {
      if filePath != "" {
        houseImage := decoded;
        var detected, _ := DetectObjects(filePath);
        if detected.None? {
          return;
        }
        SweepNamed(model, filePath, Thresholds);
        detectedBoxes := detected.value;
        status := Loaded(Basename(filePath));
      }
    }

    /**
     * `save_results`: with an image and at least one box, both output files are
     * overwritten; otherwise nothing is written and the status says so.
     */
    method SaveResults()
      requires Valid()
      modifies this
      ensures Valid()
      ensures houseImage == old(houseImage) && detectedBoxes == old(detectedBoxes)
      ensures old(houseImage).Some? && old(detectedBoxes) != [] ==>
        && savedCoordinates == Some(CoordinateText(detectedBoxes))
        && savedImage.Some? && savedImage.value.base == houseImage.value
        && |savedImage.value.marks| == |detectedBoxes|
        && (forall k :: 0 <= k < |detectedBoxes| ==> savedImage.value.marks[k] == MarkFor(detectedBoxes[k]))
        && status == Saved
      ensures !(old(houseImage).Some? && old(detectedBoxes) != []) ==>
        && savedImage == old(savedImage) && savedCoordinates == old(savedCoordinates)
        && status == NothingToSave
    {
      if houseImage.Some? && detectedBoxes != [] {
        var marks := DrawMarks(detectedBoxes);
        savedImage := Some(Annotated(houseImage.value, marks));
        var text := WriteCoordinates(detectedBoxes);
        savedCoordinates := Some(text);
        status := Saved;
      } else {
        status := NothingToSave;
      }
    }
  }
}
