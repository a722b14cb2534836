/**
 The per-channel state of the RF signal generator dialog: the combo-box
 indices derived from the generator's sweep enumerations, the aligned
 name/enumeration lists behind each combo, and which inputs a sweep locks.
 Level, frequency and other analog settings are `real` values that are only
 copied; their pretty-printed text is not modelled.
 */
module RFGeneratorDialog {

  datatype SweepType = SweepNone | SweepFreq | SweepLevel | SweepFreqLevel
  datatype SweepShape = Sawtooth | Triangle
  datatype SweepSpacing = Linear | Logarithmic
  datatype SweepDirection = Forward | Reverse

  const SweepTypeNames: seq<string> := ["None", "Frequency", "Level", "Frequency + Level"]
  const SweepTypes: seq<SweepType> := [SweepNone, SweepFreq, SweepLevel, SweepFreqLevel]
  const SweepShapeNames: seq<string> := ["Sawtooth", "Triangle"]
  const SweepShapes: seq<SweepShape> := [Sawtooth, Triangle]
  const SweepSpaceNames: seq<string> := ["Linear", "Logarithmic"]
  const SweepSpaceTypes: seq<SweepSpacing> := [Linear, Logarithmic]
  const SweepDirectionNames: seq<string> := ["Forward", "Reverse"]
  const SweepDirections: seq<SweepDirection> := [Forward, Reverse]

  /** What the generator reports for one channel when the dialog opens. */
  datatype GeneratorChannel = GeneratorChannel(
    outputEnabled: bool,
    level: real,
    frequency: real,
    sweepStart: real,
    sweepStop: real,
    sweepStartLevel: real,
    sweepStopLevel: real,
    sweepDwellTime: real,
    sweepPoints: int,
    sweepType: SweepType,
    sweepShape: SweepShape,
    sweepSpacing: SweepSpacing,
    sweepDirection: SweepDirection)

  /** `RFGeneratorChannelUIState`, less the pretty-printed text buffers. */
  datatype ChannelUIState = ChannelUIState(
    outputEnabled: bool,
    committedLevel: real,
    committedFrequency: real,
    committedSweepStart: real,
    committedSweepStop: real,
    committedSweepStartLevel: real,
    committedSweepStopLevel: real,
    committedSweepDwellTime: real,
    committedSweepPoints: int,
    sweepPoints: int,
    sweepType: nat,
    sweepShape: nat,
    sweepSpacing: nat,
    sweepDirection: nat)

  predicate ValidUIState(ui: ChannelUIState)
  {
    ui.sweepType < |SweepTypes| && ui.sweepShape < |SweepShapes|
    && ui.sweepSpacing < |SweepSpaceTypes| && ui.sweepDirection < |SweepDirections|
  }

  /** The switch on the sweep type: NONE, FREQ, LEVEL, FREQ_LEVEL select rows 0 to 3. */
  function SweepTypeIndex(t: SweepType): (i: nat)
    ensures i < |SweepTypes| && SweepTypes[i] == t
  {
    match t
    case SweepNone => 0
    case SweepFreq => 1
    case SweepLevel => 2
    case SweepFreqLevel => 3
  }

  /** Triangle selects row 1, anything else row 0. */
  function SweepShapeIndex(s: SweepShape): (i: nat)
    ensures i < |SweepShapes| && SweepShapes[i] == s
  {
    if s == Triangle then 1 else assert s == Sawtooth; 0
  }

  /** Logarithmic selects row 1, anything else row 0. */
  function SweepSpacingIndex(s: SweepSpacing): (i: nat)
    ensures i < |SweepSpaceTypes| && SweepSpaceTypes[i] == s
  {
    if s == Logarithmic then 1 else assert s == Linear; 0
  }

  /** Reverse selects row 1, anything else row 0. */
  function SweepDirectionIndex(d: SweepDirection): (i: nat)
    ensures i < |SweepDirections| && SweepDirections[i] == d
  {
    if d == Reverse then 1 else assert d == Forward; 0
  }

  /** Every row of each combo maps back to itself, and each name list is aligned with its enumeration list. */
  lemma IndexRoundTrips()
    ensures |SweepTypeNames| == |SweepTypes| && |SweepShapeNames| == |SweepShapes|
    ensures |SweepSpaceNames| == |SweepSpaceTypes| && |SweepDirectionNames| == |SweepDirections|
    ensures forall i :: 0 <= i < |SweepTypes| ==> SweepTypeIndex(SweepTypes[i]) == i
    ensures forall i :: 0 <= i < |SweepShapes| ==> SweepShapeIndex(SweepShapes[i]) == i
    ensures forall i :: 0 <= i < |SweepSpaceTypes| ==> SweepSpacingIndex(SweepSpaceTypes[i]) == i
    ensures forall i :: 0 <= i < |SweepDirections| ==> SweepDirectionIndex(SweepDirections[i]) == i
  {
  }

  /** The UI state built for one channel from the generator's current settings. */
  function NewChannelUIState(g: GeneratorChannel): (ui: ChannelUIState)
    ensures ValidUIState(ui)
    ensures ui.sweepPoints == ui.committedSweepPoints == g.sweepPoints
  {
    ChannelUIState(
      g.outputEnabled, g.level, g.frequency, g.sweepStart, g.sweepStop,
      g.sweepStartLevel, g.sweepStopLevel, g.sweepDwellTime, g.sweepPoints, g.sweepPoints,
      SweepTypeIndex(g.sweepType), SweepShapeIndex(g.sweepShape),
      SweepSpacingIndex(g.sweepSpacing), SweepDirectionIndex(g.sweepDirection))
  }

  /** The settings a UI state stands for: committed values, and the enumerations at the selected rows. */
  function Selected(ui: ChannelUIState): GeneratorChannel
    requires ValidUIState(ui)
  {
    GeneratorChannel(
      ui.outputEnabled, ui.committedLevel, ui.committedFrequency, ui.committedSweepStart,
      ui.committedSweepStop, ui.committedSweepStartLevel, ui.committedSweepStopLevel,
      ui.committedSweepDwellTime, ui.committedSweepPoints,
      SweepTypes[ui.sweepType], SweepShapes[ui.sweepShape],
      SweepSpaceTypes[ui.sweepSpacing], SweepDirections[ui.sweepDirection])
  }

  /** A freshly built UI state stands for exactly the generator's settings. */
  lemma UIStateRoundTrip(g: GeneratorChannel)
    ensures Selected(NewChannelUIState(g)) == g
  {
  }

  /** The dialog's constructor: one UI state per channel, in channel order. */
  function NewDialogState(channels: seq<GeneratorChannel>): (r: seq<ChannelUIState>)
    ensures |r| == |channels|
    ensures forall i :: 0 <= i < |r| ==> ValidUIState(r[i]) && Selected(r[i]) == channels[i]
  {
    seq(|channels|, i requires 0 <= i < |channels| => NewChannelUIState(channels[i]))
  }

  /** The two lockouts of a channel's main inputs. */
  datatype Lockout = Lockout(levelReadOnly: bool, frequencyReadOnly: bool)

  /** `sweepingPower` is index >= 2, `sweepingFrequency` is index 1 or 3. */
  function ChannelLockout(ui: ChannelUIState): (r: Lockout)
    requires ValidUIState(ui)
    ensures r.levelReadOnly <==> SweepTypes[ui.sweepType] in {SweepLevel, SweepFreqLevel}
    ensures r.frequencyReadOnly <==> SweepTypes[ui.sweepType] in {SweepFreq, SweepFreqLevel}
    ensures r.levelReadOnly && r.frequencyReadOnly <==> SweepTypes[ui.sweepType] == SweepFreqLevel
  {
    Lockout(ui.sweepType >= 2, ui.sweepType == 1 || ui.sweepType == 3)
  }

  /** A command the dialog sends to the generator when a combo changes. */
  datatype Command =
    | SetSweepType(sweepType: SweepType)
    | SetSweepShape(shape: SweepShape)
    | SetSweepSpacing(spacing: SweepSpacing)
    | SetSweepDirection(direction: SweepDirection)

  /** The "Mode" combo picks row `row`: the row is stored and the enumeration at that row is sent. */
  function SelectSweepType(ui: ChannelUIState, row: nat): (r: (ChannelUIState, Command))
    requires ValidUIState(ui) && row < |SweepTypeNames|
    ensures ValidUIState(r.0) && r.0 == ui.(sweepType := row)
    ensures r.1.SetSweepType? && SweepTypeIndex(r.1.sweepType) == row
    ensures Selected(r.0) == Selected(ui).(sweepType := r.1.sweepType)
  {
    IndexRoundTrips();
    (ui.(sweepType := row), SetSweepType(SweepTypes[row]))
  }

  /** The "Shape" combo. */
  function SelectSweepShape(ui: ChannelUIState, row: nat): (r: (ChannelUIState, Command))
    requires ValidUIState(ui) && row < |SweepShapeNames|
    ensures ValidUIState(r.0) && r.0 == ui.(sweepShape := row)
    ensures r.1.SetSweepShape? && SweepShapeIndex(r.1.shape) == row
    ensures Selected(r.0) == Selected(ui).(sweepShape := r.1.shape)
  {
    IndexRoundTrips();
    (ui.(sweepShape := row), SetSweepShape(SweepShapes[row]))
  }

  /** The "Spacing" combo. */
  function SelectSweepSpacing(ui: ChannelUIState, row: nat): (r: (ChannelUIState, Command))
    requires ValidUIState(ui) && row < |SweepSpaceNames|
    ensures ValidUIState(r.0) && r.0 == ui.(sweepSpacing := row)
    ensures r.1.SetSweepSpacing? && SweepSpacingIndex(r.1.spacing) == row
    ensures Selected(r.0) == Selected(ui).(sweepSpacing := r.1.spacing)
  {
    IndexRoundTrips();
    (ui.(sweepSpacing := row), SetSweepSpacing(SweepSpaceTypes[row]))
  }

  /** The "Direction" combo. */
  function SelectSweepDirection(ui: ChannelUIState, row: nat): (r: (ChannelUIState, Command))
    requires ValidUIState(ui) && row < |SweepDirectionNames|
    ensures ValidUIState(r.0) && r.0 == ui.(sweepDirection := row)
    ensures r.1.SetSweepDirection? && SweepDirectionIndex(r.1.direction) == row
    ensures Selected(r.0) == Selected(ui).(sweepDirection := r.1.direction)
  {
    IndexRoundTrips();
    (ui.(sweepDirection := row), SetSweepDirection(SweepDirections[row]))
  }
}
