/**
 * The elements the vision model reports and the box-to-pixel pass that
 * analyzeImage runs over them.
 */
module Elements {
  import opened Common
  import opened Geometry

  /** Any JSON value other than the ones the pass reads or writes: kept opaque. */
  type Value = string

  /**
   * One element dictionary of the model's answer. The four keys the code reads
   * or writes get their own optional slot; every other key lives in `other`,
   * which therefore never holds "box_2d", "abs_box", "click_x" or "click_y".
   */
  datatype Element = Element(
    box2d: Option<seq<int>>,   // "box_2d": [ymin, xmin, ymax, xmax] on the 0..1000 scale
    absBox: Option<seq<int>>,  // "abs_box": [xmin, ymin, xmax, ymax] in pixels
    clickX: Option<int>,       // "click_x"
    clickY: Option<int>,       // "click_y"
    other: map<string, Value>)

  /** The parsed answer: an optional "elements" list and the remaining top-level keys. */
  datatype Analysis = Analysis(elements: Option<seq<Element>>, other: map<string, Value>)

  /** The pass can map this element without raising IndexError. */
  predicate Mappable(e: Element)
  {
    e.box2d.Some? ==> |e.box2d.value| >= 4
  }

  predicate AllMappable(s: seq<Element>)
  {
    forall i :: 0 <= i < |s| ==> Mappable(s[i])
  }

  /** The derived fields agree with box_2d for the given screen size (or there is no box_2d). */
  predicate Consistent(e: Element, width: int, height: int)
  {
    e.box2d.Some? ==>
      |e.box2d.value| >= 4 &&
      var abs := AbsBox(e.box2d.value, width, height);
      e.absBox == Some(abs) && e.clickX == Some(ClickX(abs)) && e.clickY == Some(ClickY(abs))
  }

  /** The loop body of analyzeImage for one element. */
  function MapElement(e: Element, width: int, height: int): (r: Element)
    requires Mappable(e)
    ensures r.box2d == e.box2d && r.other == e.other
    ensures e.box2d.None? ==> r == e
    ensures Consistent(r, width, height)
  {
    match e.box2d
    case None => e
    case Some(box) =>
      var abs := AbsBox(box, width, height);
      e.(absBox := Some(abs), clickX := Some(ClickX(abs)), clickY := Some(ClickY(abs)))
  }

  /** An element whose derived fields already agree with its box is left as it is. */
  lemma MapElementFixesConsistent(e: Element, width: int, height: int)
    requires Consistent(e, width, height)
    ensures Mappable(e) && MapElement(e, width, height) == e
  {
  }

  /** Running the pass twice gives the same element as running it once. */
  lemma MapElementIdempotent(e: Element, width: int, height: int)
    requires Mappable(e)
    ensures Mappable(MapElement(e, width, height))
    ensures MapElement(MapElement(e, width, height), width, height) == MapElement(e, width, height)
  {
    MapElementFixesConsistent(MapElement(e, width, height), width, height);
  }

  /** The pass over a whole list, specified element by element. */
  function MapAll(s: seq<Element>, width: int, height: int): (r: seq<Element>)
    requires AllMappable(s)
    ensures |r| == |s|
    ensures forall i :: 0 <= i < |s| ==> r[i] == MapElement(s[i], width, height)
  {
    if s == [] then [] else [MapElement(s[0], width, height)] + MapAll(s[1..], width, height)
  }

  /** Index of the first element whose box_2d is too short, if any. */
  function FirstUnmappable(s: seq<Element>): (k: Option<nat>)
    ensures k.None? <==> AllMappable(s)
    ensures k.Some? ==> k.value < |s| && !Mappable(s[k.value]) && AllMappable(s[..k.value])
  {
    if s == [] then None
    else if !Mappable(s[0]) then Some(0)
    else match FirstUnmappable(s[1..])
      case None => None
      case Some(j) => Some(j + 1)
  }

  /**
   * What analyzeImage does to the parsed answer: without an "elements" key the
   * answer is returned untouched; otherwise every element with a box_2d gets
   * abs_box, click_x and click_y, and a box_2d shorter than four raises IndexError.
   */
  function MapAnalysis(an: Analysis, width: int, height: int): (r: Result<Analysis>)
    ensures an.elements.None? ==> r == Ok(an)
    ensures r.Ok? <==> an.elements.None? || AllMappable(an.elements.value)
    ensures r.Ok? && an.elements.Some? ==>
      r.value == an.(elements := Some(MapAll(an.elements.value, width, height)))
    ensures r.Err? ==> r.error.IndexError?
  {
    match an.elements
    case None => Ok(an)
    case Some(s) =>
      if AllMappable(s) then Ok(an.(elements := Some(MapAll(s, width, height))))
      else Err(IndexError("list index out of range"))
  }

  /**
   * The for loop of analyzeImage, updating each element of the list in place.
   * On an element whose box_2d is too short the loop stops with IndexError at
   * that index: the elements before it are mapped, it and those after are not.
   */
  method MapElements(a: array<Element>, width: int, height: int) returns (failedAt: Option<nat>)
    modifies a
    ensures failedAt == FirstUnmappable(old(a[..]))
    ensures failedAt.None? ==> AllMappable(old(a[..])) && a[..] == MapAll(old(a[..]), width, height)
    ensures failedAt.Some? ==>
      failedAt.value < a.Length &&
      (forall j :: 0 <= j < failedAt.value ==> Mappable(old(a[j])) && a[j] == MapElement(old(a[j]), width, height)) &&
      (forall j :: failedAt.value <= j < a.Length ==> a[j] == old(a[j]))
  {
    var i := 0;
    while i < a.Length
      invariant 0 <= i <= a.Length
      invariant forall j :: 0 <= j < i ==> Mappable(old(a[j])) && a[j] == MapElement(old(a[j]), width, height)
      invariant forall j :: i <= j < a.Length ==> a[j] == old(a[j])
    {
      if !Mappable(a[i]) {
        failedAt := Some(i);
        FirstUnmappableAt(old(a[..]), i);
        return;
      }
      a[i] := MapElement(a[i], width, height);
      i := i + 1;
    }
    failedAt := None;
    assert AllMappable(old(a[..]));
    assert a[..] == MapAll(old(a[..]), width, height);
  }

  /** The first index that is not mappable, when all before it are. */
  lemma {:induction false} FirstUnmappableAt(s: seq<Element>, k: nat)
    requires k < |s| && !Mappable(s[k])
    requires forall j :: 0 <= j < k ==> Mappable(s[j])
    ensures FirstUnmappable(s) == Some(k)
  {
    if k > 0 {
      FirstUnmappableAt(s[1..], k - 1);
    }
  }

  /**
   * analyzeImage's post-processing of the parsed answer, run on a list the
   * function updates in place, agrees with MapAnalysis.
   */
  method MapAnalysisInPlace(an: Analysis, width: int, height: int) returns (r: Result<Analysis>)
    ensures r == MapAnalysis(an, width, height)
  {
    match an.elements {
      case None =>
        r := Ok(an);
      case Some(s) =>
        var a := new Element[|s|](i requires 0 <= i < |s| => s[i]);
        assert a[..] == s;
        var failedAt := MapElements(a, width, height);
        if failedAt.None? {
          r := Ok(an.(elements := Some(a[..])));
        } else {
          r := Err(IndexError("list index out of range"));
        }
    }
  }

  /**
   * The pass leaves every element without box_2d as it was, keeps the order and
   * length of the list, and changes nothing but the derived fields.
   */
  lemma MapAnalysisFrame(an: Analysis, width: int, height: int, i: int)
    requires an.elements.Some? && MapAnalysis(an, width, height).Ok?
    requires 0 <= i < |an.elements.value|
    ensures var out := MapAnalysis(an, width, height).value;
      out.other == an.other && out.elements.Some? &&
      |out.elements.value| == |an.elements.value| &&
      out.elements.value[i].box2d == an.elements.value[i].box2d &&
      out.elements.value[i].other == an.elements.value[i].other &&
      (an.elements.value[i].box2d.None? ==> out.elements.value[i] == an.elements.value[i]) &&
      Consistent(out.elements.value[i], width, height)
  {
  }
}
