/** The decision navigateTaskerStep takes once the screen has been analysed. */
module Navigation {
  import opened Common
  import opened Geometry
  import opened Elements

  /** Tap the first element's click point, report that nothing was found, or fail on a missing key. */
  datatype StepDecision = Tap(x: int, y: int) | NotFound | MissingKey(key: string)

  /**
   * A non-empty "elements" list selects its first element, whose click_x and
   * click_y are looked up in that order; an absent or empty list means not found.
   */
  function SelectStep(elements: Option<seq<Element>>): (d: StepDecision)
    ensures d.NotFound? <==> elements.None? || elements.value == []
    ensures d.Tap? <==>
      elements.Some? && elements.value != [] &&
      elements.value[0].clickX.Some? && elements.value[0].clickY.Some?
    ensures d.Tap? ==> d == Tap(elements.value[0].clickX.value, elements.value[0].clickY.value)
    ensures d.MissingKey? ==>
      d.key == (if elements.value[0].clickX.None? then "click_x" else "click_y")
  {
    match elements
    case None => NotFound
    case Some(s) =>
      if s == [] then NotFound
      else match (s[0].clickX, s[0].clickY)
        case (None, _) => MissingKey("click_x")
        case (Some(_), None) => MissingKey("click_y")
        case (Some(x), Some(y)) => Tap(x, y)
  }

  /** The reply dictionaries of navigateTaskerStep: {"status": ...} or {"error": ...}. */
  datatype Reply = Status(status: string) | ErrorReply(error: string)

  const StepExecuted: string := "Step executed"
  const ElementNotFound: string := "Element not found"

  /** Exactly one of the two replies, and which one follows the decision. */
  function StepReply(d: StepDecision): (r: Result<Reply>)
    ensures d.Tap? <==> r == Ok(Status(StepExecuted))
    ensures d.NotFound? <==> r == Ok(ErrorReply(ElementNotFound))
    ensures d.MissingKey? <==> r.Err?
    ensures d.MissingKey? ==> r == Err(KeyError(d.key))
  {
    match d
    case Tap(_, _) => Ok(Status(StepExecuted))
    case NotFound => Ok(ErrorReply(ElementNotFound))
    case MissingKey(k) => Err(KeyError(k))
  }

  /**
   * After the pass, a first element that carried an ordered box_2d is tapped at
   * a point inside its abs_box.
   */
  lemma MappedFirstElementTappedInside(an: Analysis, width: int, height: int)
    requires MapAnalysis(an, width, height).Ok? && an.elements.Some? && an.elements.value != []
    requires var e := an.elements.value[0];
      e.box2d.Some? && |e.box2d.value| >= 4 &&
      e.box2d.value[1] <= e.box2d.value[3] && e.box2d.value[0] <= e.box2d.value[2]
    requires width >= 0 && height >= 0
    ensures var abs := AbsBox(an.elements.value[0].box2d.value, width, height);
      var d := SelectStep(MapAnalysis(an, width, height).value.elements);
      d.Tap? && abs[0] <= d.x <= abs[2] && abs[1] <= d.y <= abs[3]
  {
    ClickInsideAbsBox(an.elements.value[0].box2d.value, width, height);
  }

  /**
   * A first element without box_2d keeps whatever click fields the model gave
   * it; without click_x the lookup raises KeyError, even if later elements
   * have a box.
   */
  lemma UnboxedFirstElementRaises(an: Analysis, width: int, height: int)
    requires MapAnalysis(an, width, height).Ok? && an.elements.Some? && an.elements.value != []
    requires an.elements.value[0].box2d.None? && an.elements.value[0].clickX.None?
    ensures SelectStep(MapAnalysis(an, width, height).value.elements) == MissingKey("click_x")
  {
    assert MapAnalysis(an, width, height).value.elements.value[0] == an.elements.value[0];
  }
}
