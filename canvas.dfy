/**
 * The browser page's editor: hit-testing a click against the loaded boxes,
 * and the state a click and a release leave behind: which image is placed in
 * which box, which boxes are marked as holding an image, and the drag state.
 */
module Canvas {
  import opened Text
  import opened Coordinates

  /** An image the user loaded, known by its `src` (a data URL). */
  datatype Picture = Picture(src: string)

  /**
   * An entry of `placedImages`: the image and the box it was placed in. The
   * page stores the box object itself; here it is the index of that box in
   * `boxes`, so that setting `hasImage` on it is seen through the entry too.
   */
  datatype Placement = Placement(image: Picture, box: nat)

  /**
   * `isPointInBox`: the point lies in the box, every edge included. Only a box
   * whose corners are in order contains any point.
   */
  predicate IsPointInBox(x: real, y: real, b: Box): (inside: bool)
    ensures inside ==> b.x1 <= b.x2 && b.y1 <= b.y2
  {
    b.x1 as real <= x <= b.x2 as real && b.y1 as real <= y <= b.y2 as real
  }

  /** Every edge belongs to the box: its four corners are inside, and a point past an edge is not. */
  lemma EdgesInclusive(b: Box, x: real, y: real)
    requires b.x1 <= b.x2 && b.y1 <= b.y2
    ensures IsPointInBox(b.x1 as real, b.y1 as real, b) && IsPointInBox(b.x2 as real, b.y2 as real, b)
    ensures IsPointInBox(b.x1 as real, b.y2 as real, b) && IsPointInBox(b.x2 as real, b.y1 as real, b)
    ensures x < b.x1 as real || x > b.x2 as real || y < b.y1 as real || y > b.y2 as real ==> !IsPointInBox(x, y, b)
  {
  }

  /**
   * `getBoxAtPoint`, that is `boxes.find(...)`: the index of the first box in
   * list order that contains the point, or None when no box does.
   */
  function GetBoxAtPoint(x: real, y: real, boxes: seq<Box>): (r: Option<nat>)
    ensures r.Some? ==> r.value < |boxes| && IsPointInBox(x, y, boxes[r.value])
    ensures r.Some? ==> forall k :: 0 <= k < r.value ==> !IsPointInBox(x, y, boxes[k])
    ensures r.None? <==> forall k :: 0 <= k < |boxes| ==> !IsPointInBox(x, y, boxes[k])
  {
    if boxes == [] then None
    else if IsPointInBox(x, y, boxes[0]) then Some(0)
    else
      match GetBoxAtPoint(x, y, boxes[1..])
      case None => None
      case Some(i) => Some(i + 1)
  }

  /** Marking a box as holding an image does not change which box a point hits. */
  lemma HitIgnoresImageFlag(x: real, y: real, boxes: seq<Box>, i: nat)
    requires i < |boxes|
    ensures GetBoxAtPoint(x, y, boxes[i := boxes[i].(hasImage := true)]) == GetBoxAtPoint(x, y, boxes)
  {
    var marked := boxes[i := boxes[i].(hasImage := true)];
    assert forall k :: 0 <= k < |boxes| ==> (IsPointInBox(x, y, marked[k]) <==> IsPointInBox(x, y, boxes[k]));
    var r, s := GetBoxAtPoint(x, y, marked), GetBoxAtPoint(x, y, boxes);
    if r.Some? && s.Some? {
      assert !(r.value < s.value) && !(s.value < r.value);
    }
  }

  /** The colour `drawBoxes` outlines a box in: blue for a door, green for anything else. */
  function DrawColour(kind: string): (colour: string)
    ensures colour == "blue" <==> kind == "door"
    ensures colour == "blue" || colour == "green"
  {
    if kind == "door" then "blue" else "green"
  }

  /**
   * The key of a box in `placedImages`: `box.x1 + '_' + box.y1`. Its only
   * underscore is the one right after the numeral of x1.
   */
  function PlacementKey(b: Box): (key: string)
    ensures forall i :: 0 <= i < |key| ==> (key[i] == '_' <==> i == |NatToString(b.x1)|)
  {
    NatToString(b.x1) + "_" + NatToString(b.y1)
  }

  /**
   * Two boxes share an entry of `placedImages` exactly when they share their
   * top-left corner; the other coordinates and the type play no part.
   */
  lemma PlacementKeyShared(a: Box, b: Box)
    ensures PlacementKey(a) == PlacementKey(b) <==> a.x1 == b.x1 && a.y1 == b.y1
  {
    if PlacementKey(a) == PlacementKey(b) {
      KeyParts(NatToString(a.x1), NatToString(a.y1), NatToString(b.x1), NatToString(b.y1));
      DigitsValueOfNatToString(a.x1);
      DigitsValueOfNatToString(b.x1);
      DigitsValueOfNatToString(a.y1);
      DigitsValueOfNatToString(b.y1);
    }
  }

  /** Digit runs joined by an underscore can be told apart again. */
  lemma KeyParts(p: string, q: string, p': string, q': string)
    requires AllDigits(p) && AllDigits(p')
    requires p + "_" + q == p' + "_" + q'
    ensures p == p' && q == q'
  {
    var k := p + "_" + q;
    AppendAssoc(p, "_", q);
    AppendAssoc(p', "_", q');
    SpanDigitsOf(p, "_" + q);
    SpanDigitsOf(p', "_" + q');
    assert k[|p| + 1..] == q;
    assert k[|p'| + 1..] == q';
  }

  /**
   * Every placement sits under the key of its box, and that box is marked as
   * holding an image.
   */
  ghost predicate PlacementsMarked(placed: map<string, Placement>, boxes: seq<Box>) {
    forall key :: key in placed ==>
      var p := placed[key];
      p.box < |boxes| && key == PlacementKey(boxes[p.box]) && boxes[p.box].hasImage
  }

  /** Placing an image in box `i` and marking the box keeps every placement under its box's key. */
  lemma PlaceKeepsMarked(placed: map<string, Placement>, boxes: seq<Box>, i: nat, img: Picture)
    requires i < |boxes| && PlacementsMarked(placed, boxes)
    ensures PlacementsMarked(placed[PlacementKey(boxes[i]) := Placement(img, i)], boxes[i := boxes[i].(hasImage := true)])
  {
    var marked := boxes[i := boxes[i].(hasImage := true)];
    assert PlacementKey(marked[i]) == PlacementKey(boxes[i]);
    forall j | 0 <= j < |boxes|
      ensures PlacementKey(marked[j]) == PlacementKey(boxes[j]) && (boxes[j].hasImage ==> marked[j].hasImage)
    {
      if j == i {
        assert marked[j].x1 == boxes[j].x1 && marked[j].y1 == boxes[j].y1;
      } else {
        assert marked[j] == boxes[j];
      }
    }
  }

  /** The page's own state, as the handlers leave it. */
  class Editor {
    var newImage: Option<Picture>
    var boxes: seq<Box>
    var isDragging: bool
    var dragImage: Option<Picture>
    var currentBox: Option<nat>
    var placedImages: map<string, Placement>
    var previewSrc: string
    var previewVisible: bool
    var status: string

    /**
     * The drag flags move together and the preview shows exactly during a
     * drag; every placement sits under the key of its box, which is marked
     * as holding an image.
     */
    ghost predicate Valid()
      reads this
    {
      && (currentBox.Some? ==> currentBox.value < |boxes|)
      && isDragging == currentBox.Some? && isDragging == dragImage.Some? && previewVisible == isDragging
      && PlacementsMarked(placedImages, boxes)
    }

    /**
     * `window.onload`: the boxes read from the coordinate file (none when it
     * could not be fetched), no image, no placements, and the ready message,
     * which replaces any error message the load left.
     */
    constructor (fetched: Option<string>)
      ensures Valid()
      ensures boxes == (if fetched.Some? then ParsedBoxes(fetched.value) else [])
      ensures newImage == None && !isDragging && dragImage == None && currentBox == None
      ensures placedImages == map[] && previewSrc == "" && !previewVisible
      ensures status == "Ready to place images"
    {
      var loaded: seq<Box> := [];
      if fetched.Some? {
        loaded := LoadCoordinates(fetched.value);
      }
      newImage := None;
      boxes := loaded;
      isDragging := false;
      dragImage := None;
      currentBox := None;
      placedImages := map[];
      previewSrc := "";
      previewVisible := false;
      status := "Ready to place images";
    }

    /** `handleImageUpload` once the image has loaded: it becomes the image to place. */
    method ImageLoaded(img: Picture)
      requires Valid()
      modifies this
      ensures Valid()
      ensures newImage == Some(img) && status == "Image loaded - Click on a box to place"
      ensures boxes == old(boxes) && isDragging == old(isDragging) && dragImage == old(dragImage)
      ensures currentBox == old(currentBox) && placedImages == old(placedImages)
      ensures previewSrc == old(previewSrc) && previewVisible == old(previewVisible)
    {
      newImage := Some(img);
      status := "Image loaded - Click on a box to place";
    }

    /**
     * The `mousedown` handler at canvas point (x, y). Without an image, or off
     * every box, nothing changes. Otherwise the first box hit gets the image:
     * its entry of `placedImages` is set (replacing whatever was placed at the
     * same corner), it is marked as holding an image, the drag starts with the
     * preview shown, and the status names the box's type.
     */
    method MouseDown(x: real, y: real)
      requires Valid()
      modifies this
      ensures Valid()
      ensures old(newImage).None? || GetBoxAtPoint(x, y, old(boxes)).None? ==> unchanged(this)
      ensures old(newImage).Some? && GetBoxAtPoint(x, y, old(boxes)).Some? ==>
        var i := GetBoxAtPoint(x, y, old(boxes)).value;
        var b := old(boxes)[i];
        && boxes == old(boxes)[i := b.(hasImage := true)]
        && placedImages == old(placedImages)[PlacementKey(b) := Placement(old(newImage).value, i)]
        && isDragging && currentBox == Some(i) && dragImage == old(newImage)
        && previewSrc == old(newImage).value.src && previewVisible
        && status == "Image placed in " + b.kind + " box"
        && newImage == old(newImage)
    {
      if newImage.None? {
        return;
      }
      var hit := GetBoxAtPoint(x, y, boxes);
      if hit.Some? {
        var i := hit.value;
        var box := boxes[i];
        PlaceKeepsMarked(placedImages, boxes, i, newImage.value);
        isDragging := true;
        currentBox := Some(i);
        dragImage := newImage;
        previewSrc := dragImage.value.src;
        previewVisible := true;
        placedImages := placedImages[PlacementKey(box) := Placement(dragImage.value, i)];
        boxes := boxes[i := box.(hasImage := true)];
        status := "Image placed in " + box.kind + " box";
      }
    }

    /**
     * The `mouseup` handler: a drag in progress ends, with the preview hidden;
     * placements and boxes stay. Without a drag nothing changes.
     */
    method MouseUp()
      requires Valid()
      modifies this
      ensures Valid()
      ensures !old(isDragging) || old(dragImage).None? || old(currentBox).None? ==> unchanged(this)
      ensures old(isDragging) && old(dragImage).Some? && old(currentBox).Some? ==>
        && !isDragging && dragImage == None && currentBox == None && !previewVisible
        && boxes == old(boxes) && placedImages == old(placedImages) && newImage == old(newImage)
        && previewSrc == old(previewSrc) && status == old(status)
    {
      if !isDragging || dragImage.None? || currentBox.None? {
        return;
      }
      isDragging := false;
      dragImage := None;
      currentBox := None;
      previewVisible := false;
    }
  }
}
