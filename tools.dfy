/**
 * The tool functions themselves. Every effect they have on the device or on
 * the vision model is appended to the session's trace; what the device and
 * the model answer comes in as a parameter.
 */
module Tools {
  import opened Common
  import opened Elements
  import opened Navigation
  import opened Commands

  const TaskerPackage: string := "net.dinglisch.android.taskerm"
  const ScreenPath: string := "current_screen.png"
  const NoSerialMessage: string := "DEVICE_SERIAL environment variable is not set"
  const DefaultQuery: string :=
    "Describe this Android screen, detect buttons/text, provide bounding boxes normalized 0-1000 for elements like 'Add Task'. Output as JSON."
  const StepQueryPrefix: string := "Find element for: "
  const StepQuerySuffix: string := ". Provide box for click."

  /** What the tool functions do to the outside world, in order. */
  datatype Effect =
    | U2Connect(serial: string)            // u2.connect in getDevice
    | AdbConnect(adbSerial: Option<string>)// AdbDeviceUsb(serial=...).connect()
    | AppStart(package: string)
    | Sleep(seconds: nat)
    | Screenshot(path: string)
    | ShellCommand(command: string)
    | OpenImage(path: string)              // Image.open
    | AskVision(imagePath: string, prompt: string)

  datatype Capture = Capture(imagePath: string, success: bool)
  datatype TaskReport = TaskReport(result: string, passed: bool)

  /** getDevice: connecting needs a configured serial, otherwise ValueError. */
  function GetDevice(serial: Option<string>): (r: Result<string>)
    ensures r.Err? <==> serial.None?
    ensures r.Ok? ==> r.value == serial.value
    ensures r.Err? ==> r.error == ConfigError(NoSerialMessage)
  {
    match serial
    case None => Err(ConfigError(NoSerialMessage))
    case Some(s) => Ok(s)
  }

  /** The prompt analyzeImage sends: the caller's query, or the generic one when there is none. */
  function Prompt(query: Option<string>): (prompt: string)
    ensures query.None? ==> prompt == DefaultQuery
    ensures query.Some? ==> prompt == query.value
  {
    match query
    case None => DefaultQuery
    case Some(q) => q
  }

  /** The query navigateTaskerStep builds: the step description between a fixed prefix and suffix. */
  function StepQuery(description: string): (query: string)
    ensures |query| == |StepQueryPrefix| + |description| + |StepQuerySuffix|
    ensures query[..|StepQueryPrefix|] == StepQueryPrefix
    ensures query[|StepQueryPrefix|..|StepQueryPrefix| + |description|] == description
    ensures query[|StepQueryPrefix| + |description|..] == StepQuerySuffix
  {
    StepQueryPrefix + description + StepQuerySuffix
  }

  /** The effects of navigateTaskerStep before the decision: launch, settle, capture, ask. */
  function NavigatePrelude(serial: string, description: string): seq<Effect>
  {
    [U2Connect(serial), AppStart(TaskerPackage), Sleep(2),
     U2Connect(serial), Screenshot(ScreenPath),
     OpenImage(ScreenPath), AskVision(ScreenPath, StepQuery(description))]
  }

  /** The step taps exactly when the pass succeeds and selects a click point. */
  predicate Taps(answer: Analysis, width: int, height: int)
  {
    MapAnalysis(answer, width, height).Ok? && SelectStep(MapAnalysis(answer, width, height).value.elements).Tap?
  }

  /**
   * The effects of navigateTaskerStep once the device is known: the prelude,
   * then one tap at the selected point when there is one, and nothing else.
   */
  function NavigateEffects(serial: string, description: string, answer: Analysis, width: int, height: int): (effects: seq<Effect>)
    ensures |effects| >= 7 && effects[..7] == NavigatePrelude(serial, description)
    ensures !Taps(answer, width, height) ==> |effects| == 7
    ensures Taps(answer, width, height) ==>
      var d := SelectStep(MapAnalysis(answer, width, height).value.elements);
      effects[7..] == [AdbConnect(Some(serial)), ShellCommand(TapCommand(d.x, d.y)), Sleep(1)]
  {
    NavigatePrelude(serial, description) +
    match MapAnalysis(answer, width, height)
    case Ok(an) =>
      (match SelectStep(an.elements)
       case Tap(x, y) => [AdbConnect(Some(serial)), ShellCommand(TapCommand(x, y)), Sleep(1)]
       case _ => [])
    case Err(_) => []
  }

  lemma NavigateEffectsCases(serial: string, description: string, answer: Analysis, width: int, height: int)
    ensures var m := MapAnalysis(answer, width, height);
      var effects := NavigateEffects(serial, description, answer, width, height);
      (m.Ok? && SelectStep(m.value.elements).Tap? ==>
        effects == NavigatePrelude(serial, description) +
          [AdbConnect(Some(serial)), ShellCommand(TapCommand(SelectStep(m.value.elements).x, SelectStep(m.value.elements).y)), Sleep(1)]) &&
      (!(m.Ok? && SelectStep(m.value.elements).Tap?) ==> effects == NavigatePrelude(serial, description))
  {
  }

  /**
   * The reply of navigateTaskerStep once the device is known: "Step executed"
   * exactly when it taps, "Element not found" exactly when the list is absent
   * or empty, and otherwise the IndexError or KeyError the code raises.
   */
  function NavigateReply(answer: Analysis, width: int, height: int): (r: Result<Reply>)
    ensures r == Ok(Status(StepExecuted)) <==> Taps(answer, width, height)
    ensures r == Ok(ErrorReply(ElementNotFound)) <==>
      MapAnalysis(answer, width, height).Ok? && SelectStep(MapAnalysis(answer, width, height).value.elements).NotFound?
    ensures r.Ok? || r.error.IndexError? || r.error.KeyError?
    ensures r.Ok? ==> r == Ok(Status(StepExecuted)) || r == Ok(ErrorReply(ElementNotFound))
    ensures r.Err? <==>
      MapAnalysis(answer, width, height).Err? || SelectStep(MapAnalysis(answer, width, height).value.elements).MissingKey?
    ensures MapAnalysis(answer, width, height).Err? ==> r == Err(MapAnalysis(answer, width, height).error)
    ensures MapAnalysis(answer, width, height).Ok? && SelectStep(MapAnalysis(answer, width, height).value.elements).MissingKey? ==>
      r == Err(KeyError(SelectStep(MapAnalysis(answer, width, height).value.elements).key))
  {
    match MapAnalysis(answer, width, height)
    case Ok(an) => StepReply(SelectStep(an.elements))
    case Err(e) => Err(e)
  }

  /** One run of the tools against the configured device. */
  class Session {
    const serial: Option<string>  // DEVICE_SERIAL
    const width: int              // DEVICE_WIDTH
    const height: int             // DEVICE_HEIGHT
    var trace: seq<Effect>

    constructor (serial: Option<string>, width: int, height: int)
      ensures this.serial == serial && this.width == width && this.height == height
      ensures trace == []
    {
      this.serial := serial;
      this.width := width;
      this.height := height;
      trace := [];
    }

    /** getDevice: raises without a serial, otherwise connects to that serial. */
    method Connect() returns (r: Result<string>)
      modifies this
      ensures r == GetDevice(serial)
      ensures serial.None? ==> trace == old(trace)
      ensures serial.Some? ==> trace == old(trace) + [U2Connect(serial.value)]
    {
      r := GetDevice(serial);
      if r.Ok? {
        trace := trace + [U2Connect(r.value)];
      }
    }

    /** captureScreen: a screenshot to the fixed path, reported as successful. */
    method CaptureScreen() returns (r: Result<Capture>)
      modifies this
      ensures r.Err? <==> serial.None?
      ensures serial.None? ==> r == Err(ConfigError(NoSerialMessage)) && trace == old(trace)
      ensures serial.Some? ==>
        r == Ok(Capture(ScreenPath, true)) &&
        trace == old(trace) + [U2Connect(serial.value), Screenshot(ScreenPath)]
    {
      var device := Connect();
      if device.Err? {
        return Err(device.error);
      }
      trace := trace + [Screenshot(ScreenPath)];
      r := Ok(Capture(ScreenPath, true));
    }

    /**
     * analyzeImage: opens the image and asks the vision model about it;
     * `answer` is its parsed reply, which then goes through the box-to-pixel pass.
     */
    method AnalyzeImage(imagePath: string, query: Option<string>, answer: Analysis) returns (r: Result<Analysis>)
      modifies this
      ensures trace == old(trace) + [OpenImage(imagePath), AskVision(imagePath, Prompt(query))]
      ensures r == MapAnalysis(answer, width, height)
    {
      trace := trace + [OpenImage(imagePath), AskVision(imagePath, Prompt(query))];
      r := MapAnalysisInPlace(answer, width, height);
    }

    /** performClick: taps (x, y), waits one second and reports the point. */
    method PerformClick(x: int, y: int) returns (r: Reply)
      modifies this
      ensures trace == old(trace) + [AdbConnect(serial), ShellCommand(TapCommand(x, y)), Sleep(1)]
      ensures r == Status(ClickStatus(x, y))
    {
      trace := trace + [AdbConnect(serial), ShellCommand(TapCommand(x, y)), Sleep(1)];
      r := Status(ClickStatus(x, y));
    }

    /**
     * navigateTaskerStep: launches Tasker, waits two seconds, captures and
     * analyses the screen, then taps the first element found, if any.
     */
    method NavigateTaskerStep(description: string, answer: Analysis) returns (r: Result<Reply>)
      modifies this
      ensures serial.None? ==> r == Err(ConfigError(NoSerialMessage)) && trace == old(trace)
      ensures serial.Some? ==>
        r == NavigateReply(answer, width, height) &&
        trace == old(trace) + NavigateEffects(serial.value, description, answer, width, height)
    {
      ghost var before := trace;
      var device := Connect();
      if device.Err? {
        return Err(device.error);
      }
      trace := trace + [AppStart(TaskerPackage), Sleep(2)];
      var capture := CaptureScreen();
      var analysis := AnalyzeImage(ScreenPath, Some(StepQuery(description)), answer);
      assert trace == before + NavigatePrelude(serial.value, description);
      if analysis.Err? {
        NavigateEffectsCases(serial.value, description, answer, width, height);
        return Err(analysis.error);
      }
      var decision := SelectStep(analysis.value.elements);
      NavigateEffectsCases(serial.value, description, answer, width, height);
      if decision.Tap? {
        var _ := PerformClick(decision.x, decision.y);
        assert trace == before + NavigatePrelude(serial.value, description) +
          [AdbConnect(serial), ShellCommand(TapCommand(decision.x, decision.y)), Sleep(1)];
      }
      r := StepReply(decision);
    }

    /** testTask: broadcasts the task name to Tasker; `output` is what the shell prints back. */
    method TestTask(taskName: string, output: string) returns (r: Result<TaskReport>)
      modifies this
      ensures serial.None? ==> r == Err(ConfigError(NoSerialMessage)) && trace == old(trace)
      ensures serial.Some? ==>
        r == Ok(TaskReport(output, Passed(output))) &&
        trace == old(trace) + [U2Connect(serial.value), ShellCommand(BroadcastCommand(taskName))]
    {
      var device := Connect();
      if device.Err? {
        return Err(device.error);
      }
      trace := trace + [ShellCommand(BroadcastCommand(taskName))];
      r := Ok(TaskReport(output, Passed(output)));
    }

    /** performTextInput: types the escaped text through the shell and reports it unescaped. */
    method PerformTextInput(text: string) returns (r: Reply)
      modifies this
      ensures trace == old(trace) + [AdbConnect(serial), ShellCommand(TextInputCommand(text)), Sleep(1)]
      ensures r == Status(InputStatus(text))
    {
      trace := trace + [AdbConnect(serial), ShellCommand(TextInputCommand(text)), Sleep(1)];
      r := Status(InputStatus(text));
    }
  }

  /**
   * A step on a screen whose first element has an ordered box taps exactly once,
   * inside that element's pixel box, and reports "Step executed".
   */
  lemma NavigateTapsFirstElement(serial: string, description: string, answer: Analysis, width: int, height: int)
    requires MapAnalysis(answer, width, height).Ok? && answer.elements.Some? && answer.elements.value != []
    requires var e := answer.elements.value[0];
      e.box2d.Some? && |e.box2d.value| >= 4 &&
      e.box2d.value[1] <= e.box2d.value[3] && e.box2d.value[0] <= e.box2d.value[2]
    requires width >= 0 && height >= 0
    ensures NavigateReply(answer, width, height) == Ok(Status(StepExecuted))
    ensures var d := SelectStep(MapAnalysis(answer, width, height).value.elements);
      var abs := Geometry.AbsBox(answer.elements.value[0].box2d.value, width, height);
      d.Tap? && abs[0] <= d.x <= abs[2] && abs[1] <= d.y <= abs[3] &&
      NavigateEffects(serial, description, answer, width, height)[7..] ==
        [AdbConnect(Some(serial)), ShellCommand(TapCommand(d.x, d.y)), Sleep(1)]
  {
    MappedFirstElementTappedInside(answer, width, height);
  }

  /** An absent or empty element list reports "Element not found" and sends no shell command. */
  lemma NavigateNotFoundTapsNothing(serial: string, description: string, answer: Analysis, width: int, height: int)
    requires answer.elements.None? || answer.elements.value == []
    ensures NavigateReply(answer, width, height) == Ok(ErrorReply(ElementNotFound))
    ensures var effects := NavigateEffects(serial, description, answer, width, height);
      |effects| == 7 && forall i :: 0 <= i < 7 ==> !effects[i].ShellCommand?
  {
  }
}
