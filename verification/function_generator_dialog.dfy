/**
 The per-channel state of the function generator dialog: the waveform combo
 index found by scanning the generator's shape list, the impedance combo, the
 duty-cycle lockout and which inputs a channel shows. Analog settings are
 `real` values that are only copied; the unit formatter and parser are
 parameters.
 */
module FunctionGeneratorDialog {

  /** The shapes the dialog distinguishes; every other shape is `OtherShape`. */
  datatype WaveShape = Sine | Square | Triangle | Pulse | PrbsNonstandard | OtherShape(code: int)

  datatype Impedance = HighZ | FiftyOhm

  const Impedances: seq<Impedance> := [HighZ, FiftyOhm]
  const ImpedanceNames: seq<string> := ["High-Z", "50\U{03A9}"]

  /** What the generator reports for one function channel. */
  datatype FunctionChannel = FunctionChannel(
    active: bool,
    amplitude: real,
    offset: real,
    dutyCycle: real,
    frequency: real,
    riseTime: real,
    fallTime: real,
    shapes: seq<WaveShape>,
    shape: WaveShape,
    impedance: Impedance)

  /**
   `FunctionGeneratorChannelUIState`; of the text buffers only the two edge
   times are kept, since the fall-time input is bound to one of them.
   */
  datatype ChannelUIState = ChannelUIState(
    outputEnabled: bool,
    committedAmplitude: real,
    committedOffset: real,
    committedDutyCycle: real,
    committedFrequency: real,
    committedRiseTime: real,
    committedFallTime: real,
    riseTimeText: string,
    fallTimeText: string,
    waveShapes: seq<WaveShape>,
    waveShapeNames: seq<string>,
    shapeIndex: nat,
    impedanceIndex: nat)

  /** The loop over the shape list: the LAST matching row (there is no break), or row 0. */
  method ShapeIndex(shapes: seq<WaveShape>, shape: WaveShape, nameOf: WaveShape -> string)
    returns (index: nat, names: seq<string>)
    ensures shape in shapes ==> index < |shapes| && shapes[index] == shape
    ensures forall j :: index < j < |shapes| ==> shapes[j] != shape
    ensures shape !in shapes ==> index == 0
    ensures |names| == |shapes| && forall j :: 0 <= j < |shapes| ==> names[j] == nameOf(shapes[j])
  {
    index := 0;
    names := [];
    var j := 0;
    while j < |shapes|
      invariant 0 <= j <= |shapes|
      invariant shape in shapes[..j] ==> index < j && shapes[index] == shape
      invariant forall k :: index < k < j ==> shapes[k] != shape
      invariant shape !in shapes[..j] ==> index == 0
      invariant |names| == j && forall k :: 0 <= k < j ==> names[k] == nameOf(shapes[k])
    {
      if shape == shapes[j] {
        index := j;
      }
      names := names + [nameOf(shapes[j])];
      assert shapes[..j + 1] == shapes[..j] + [shapes[j]];
      j := j + 1;
    }
    assert shapes[..j] == shapes;
  }

  /** 50 ohm selects row 1, anything else row 0. */
  function ImpedanceIndex(z: Impedance): (i: nat)
    ensures i < |Impedances| && Impedances[i] == z
  {
    if z == FiftyOhm then 1 else assert z == HighZ; 0
  }

  /** Both impedance rows map back to themselves, and the name list is aligned. */
  lemma ImpedanceRoundTrip()
    ensures |ImpedanceNames| == |Impedances|
    ensures forall i :: 0 <= i < |Impedances| ==> ImpedanceIndex(Impedances[i]) == i
  {
  }

  /** A UI state faithfully stands for a generator channel. */
  predicate Reflects(ui: ChannelUIState, g: FunctionChannel, nameOf: WaveShape -> string, pretty: real -> string)
  {
    && ui.outputEnabled == g.active
    && ui.committedAmplitude == g.amplitude
    && ui.committedOffset == g.offset
    && ui.committedDutyCycle == g.dutyCycle
    && ui.committedFrequency == g.frequency
    && ui.committedRiseTime == g.riseTime
    && ui.committedFallTime == g.fallTime
    && ui.riseTimeText == pretty(g.riseTime)
    && ui.fallTimeText == pretty(g.fallTime)
    && ui.waveShapes == g.shapes
    && |ui.waveShapeNames| == |g.shapes|
    && (forall j :: 0 <= j < |g.shapes| ==> ui.waveShapeNames[j] == nameOf(g.shapes[j]))
    && (g.shape in g.shapes ==> ui.shapeIndex < |g.shapes| && g.shapes[ui.shapeIndex] == g.shape)
    && (g.shape !in g.shapes ==> ui.shapeIndex == 0)
    && ui.impedanceIndex < |Impedances| && Impedances[ui.impedanceIndex] == g.impedance
  }

  /** The body of the constructor's loop for one channel. */
  method NewChannelUIState(g: FunctionChannel, nameOf: WaveShape -> string, pretty: real -> string)
    returns (ui: ChannelUIState)
    ensures Reflects(ui, g, nameOf, pretty)
  {
    var index, names := ShapeIndex(g.shapes, g.shape, nameOf);
    ui := ChannelUIState(
      g.active, g.amplitude, g.offset, g.dutyCycle, g.frequency, g.riseTime, g.fallTime,
      pretty(g.riseTime), pretty(g.fallTime), g.shapes, names, index, ImpedanceIndex(g.impedance));
  }

  /** The constructor: one UI state per function channel, in channel order. */
  method NewDialogState(channels: seq<FunctionChannel>, nameOf: WaveShape -> string, pretty: real -> string)
    returns (states: seq<ChannelUIState>)
    ensures |states| == |channels|
    ensures forall i :: 0 <= i < |channels| ==> Reflects(states[i], channels[i], nameOf, pretty)
  {
    states := [];
    var i := 0;
    while i < |channels|
      invariant 0 <= i <= |channels|
      invariant |states| == i
      invariant forall k :: 0 <= k < i ==> Reflects(states[k], channels[k], nameOf, pretty)
    {
      var ui := NewChannelUIState(channels[i], nameOf, pretty);
      states := states + [ui];
      i := i + 1;
    }
  }

  /** Shapes for which the duty-cycle input is editable. */
  predicate HasDutyCycle(shape: WaveShape)
  {
    match shape
    case Pulse => true
    case Square => true
    case PrbsNonstandard => true
    case _ => false
  }

  /** Which optional controls a channel of this generator has. */
  datatype Capabilities = Capabilities(impedanceControls: bool, dutyCycleControls: bool, riseFallControls: bool)

  /** An input a channel's section shows. */
  datatype Control =
    | OutputEnable
    | ImpedanceCombo
    | AmplitudeInput
    | OffsetInput
    | WaveformCombo
    | FrequencyInput
    | DutyCycleInput(editable: bool)
    | RiseTimeInput
    | FallTimeInput

  /**
   The inputs `DoChannel` shows for a channel. The selected shape is read
   from the shape list without a bounds check when duty-cycle controls exist.
   */
  function ChannelControls(caps: Capabilities, ui: ChannelUIState): (r: set<Control>)
    requires caps.dutyCycleControls ==> ui.shapeIndex < |ui.waveShapes|
    ensures {OutputEnable, AmplitudeInput, OffsetInput, WaveformCombo, FrequencyInput} <= r
    ensures ImpedanceCombo in r <==> caps.impedanceControls
    ensures RiseTimeInput in r <==> caps.riseFallControls
    ensures FallTimeInput in r <==> caps.riseFallControls
    ensures forall e :: DutyCycleInput(e) in r <==>
      caps.dutyCycleControls && e == HasDutyCycle(ui.waveShapes[ui.shapeIndex])
  {
    var always := {OutputEnable, AmplitudeInput, OffsetInput, WaveformCombo, FrequencyInput};
    var impedance := if caps.impedanceControls then {ImpedanceCombo} else {};
    var duty :=
      if caps.dutyCycleControls then {DutyCycleInput(HasDutyCycle(ui.waveShapes[ui.shapeIndex]))} else {};
    var edges := if caps.riseFallControls then {RiseTimeInput, FallTimeInput} else {};
    always + impedance + duty + edges
  }

  /** A command the dialog sends to the generator. */
  datatype Command =
    | SetShape(shape: WaveShape)
    | SetImpedance(impedance: Impedance)
    | SetRiseTime(riseTime: real)
    | SetFallTime(fallTime: real)

  /** The "Waveform" combo picks row `row` of the name list; the shape at that row is sent. */
  function SelectShape(ui: ChannelUIState, row: nat): (r: (ChannelUIState, Command))
    requires |ui.waveShapeNames| == |ui.waveShapes| && row < |ui.waveShapeNames|
    ensures r.0 == ui.(shapeIndex := row)
    ensures r.1.SetShape? && r.1.shape in ui.waveShapes && r.1.shape == r.0.waveShapes[r.0.shapeIndex]
  {
    (ui.(shapeIndex := row), SetShape(ui.waveShapes[row]))
  }

  /** The "Output Impedance" combo. */
  function SelectImpedance(ui: ChannelUIState, row: nat): (r: (ChannelUIState, Command))
    requires row < |ImpedanceNames|
    ensures r.0 == ui.(impedanceIndex := row)
    ensures r.1.SetImpedance? && ImpedanceIndex(r.1.impedance) == row
  {
    (ui.(impedanceIndex := row), SetImpedance(Impedances[row]))
  }

  datatype EdgeInput = RiseTime | FallTime

  /** The text an edge-time input shows, as written: both inputs are bound to the rise-time buffer. */
  function ShownTextAsWritten(ui: ChannelUIState, input: EdgeInput): string
  {
    ui.riseTimeText
  }

  /**
   Applying `text` in an edge-time input, as written: the text lands in the
   rise-time buffer for both inputs, while each input commits into and sends
   its own value.
   */
  function ApplyEdgeAsWritten(ui: ChannelUIState, input: EdgeInput, text: string, parse: string -> real)
    : (r: (ChannelUIState, Command))
    ensures r.0.riseTimeText == text && r.0.fallTimeText == ui.fallTimeText
    ensures input == RiseTime ==> r.1 == SetRiseTime(r.0.committedRiseTime) && r.0.committedRiseTime == parse(text)
    ensures input == FallTime ==> r.1 == SetFallTime(parse(text)) && r.0.committedFallTime == parse(text)
    ensures input == FallTime ==> r.0.committedRiseTime == ui.committedRiseTime
    ensures input == RiseTime ==> r.0.committedFallTime == ui.committedFallTime
    ensures r.0.(riseTimeText := ui.riseTimeText, committedRiseTime := ui.committedRiseTime,
                 committedFallTime := ui.committedFallTime) == ui
  {
    match input
    case RiseTime => (ui.(riseTimeText := text, committedRiseTime := parse(text)), SetRiseTime(parse(text)))
    case FallTime => (ui.(riseTimeText := text, committedFallTime := parse(text)), SetFallTime(parse(text)))
  }

  /**
   The fall-time input shows the rise-time text, and applying a fall time
   leaves the rise-time input showing text whose value was never committed.
   */
  lemma FallTimeEditsRiseBuffer(parse: string -> real)
    requires parse("1 ns") == 1.0 && parse("2 ns") == 2.0
    ensures
      var ui := ChannelUIState(true, 0.0, 0.0, 0.0, 0.0, 1.0, 3.0, "1 ns", "3 ns", [], [], 0, 0);
      var r := ApplyEdgeAsWritten(ui, FallTime, "2 ns", parse);
      && ShownTextAsWritten(ui, FallTime) != ui.fallTimeText
      && ShownTextAsWritten(r.0, RiseTime) == "2 ns"
      && parse(ShownTextAsWritten(r.0, RiseTime)) != r.0.committedRiseTime
  {
  }

  /** The text an edge-time input shows, corrected: each input shows its own buffer. */
  function ShownText(ui: ChannelUIState, input: EdgeInput): (r: string)
    ensures input == FallTime ==> r == ui.fallTimeText
    ensures input == RiseTime ==> r == ui.riseTimeText
  {
    match input
    case RiseTime => ui.riseTimeText
    case FallTime => ui.fallTimeText
  }

  /** Applying `text` in an edge-time input, corrected: the input's own buffer, value and command. */
  function ApplyEdge(ui: ChannelUIState, input: EdgeInput, text: string, parse: string -> real)
    : (r: (ChannelUIState, Command))
    ensures ShownText(r.0, input) == text
    ensures input == RiseTime ==> r.1 == SetRiseTime(parse(ShownText(r.0, input))) && r.0.committedRiseTime == parse(text)
    ensures input == FallTime ==> r.1 == SetFallTime(parse(ShownText(r.0, input))) && r.0.committedFallTime == parse(text)
    ensures r.0.(riseTimeText := ui.riseTimeText, fallTimeText := ui.fallTimeText,
                 committedRiseTime := ui.committedRiseTime, committedFallTime := ui.committedFallTime) == ui
  {
    match input
    case RiseTime => (ui.(riseTimeText := text, committedRiseTime := parse(text)), SetRiseTime(parse(text)))
    case FallTime => (ui.(fallTimeText := text, committedFallTime := parse(text)), SetFallTime(parse(text)))
  }

  /** The other edge's input: its shown text and committed value. */
  function OtherEdge(ui: ChannelUIState, input: EdgeInput): (string, real)
  {
    match input
    case RiseTime => (ui.fallTimeText, ui.committedFallTime)
    case FallTime => (ui.riseTimeText, ui.committedRiseTime)
  }

  /** With the correction, applying one edge time leaves the other input as it was. */
  lemma ApplyEdgeKeepsOther(ui: ChannelUIState, input: EdgeInput, text: string, parse: string -> real)
    ensures OtherEdge(ApplyEdge(ui, input, text, parse).0, input) == OtherEdge(ui, input)
    ensures ApplyEdge(ui, input, text, parse).0.waveShapes == ui.waveShapes
  {
  }
}
