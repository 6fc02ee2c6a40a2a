/** The constant tables and outcome messages of the application's configuration module. */
module Config {

  /** How an event-log line is rendered: the first half of every outcome pair. */
  datatype Severity = Success | Warning | Error

  /** A (severity, message) pair as handed to the event log. */
  type Outcome = (Severity, string)

  /** Outcome when the generator answers nothing. */
  function GenEmpty(): (o: Outcome)
    ensures o.0 == Warning && o.1 != []
  {
    (Warning, "The generator returned empty! Try to set the values again!")
  }

  /** Outcome when the generator answers with its success code 0xAA. */
  function GenAa(): (o: Outcome)
    ensures o.0 == Success && o.1 != []
  {
    (Success, "You have successfully set the values!")
  }

  /** Outcome for any other answer of the generator. */
  function GenErr(): (o: Outcome)
    ensures o.0 == Error && o.1 != []
  {
    (Error, "Invalid packet!")
  }

  /** Names of the generator's input fields, in the order they are encoded. */
  const SignalInput: seq<string> := [
    "low_alpha_amplitude",
    "low_alpha_frequency",
    "high_alpha_amplitude",
    "high_alpha_frequency",
    "low_beta_amplitude",
    "low_beta_frequency",
    "high_beta_amplitude",
    "high_beta_frequency",
    "delta_amplitude",
    "delta_frequency",
    "low_gamma_amplitude",
    "low_gamma_frequency",
    "mid_gamma_amplitude",
    "mid_gamma_frequency",
    "theta_amplitude",
    "theta_frequency"
  ]

  /** The keys of the sensor packet layout. The application names them by
      strings; Key gives each one's spelling. */
  datatype FieldName =
    | Sync | PLength | SignalQuality | AsicEegPowerInt | VLength
    | Delta | Theta | LowAlpha | HighAlpha | LowBeta | HighBeta | LowGamma | MidGamma
    | AttentionId | Attention | MeditationId | Meditation | Crc

  /** The dictionary key that names a field in the configuration module. */
  function Key(n: FieldName): string
  {
    match n
    case Sync => "sync"
    case PLength => "plength"
    case SignalQuality => "signal_quality"
    case AsicEegPowerInt => "asic_eeg_power_int"
    case VLength => "vlength"
    case Delta => "delta"
    case Theta => "theta"
    case LowAlpha => "low_alpha"
    case HighAlpha => "high_alpha"
    case LowBeta => "low_beta"
    case HighBeta => "high_beta"
    case LowGamma => "low_gamma"
    case MidGamma => "mid_gamma"
    case AttentionId => "attention_id"
    case Attention => "attention"
    case MeditationId => "meditation_id"
    case Meditation => "meditation"
    case Crc => "crc"
  }

  /** One entry of the sensor packet layout: a field name and its width in bytes. */
  datatype Field = Field(name: FieldName, width: nat)

  /** The sensor packet layout, after the MindSet Communications Protocol of
      June 28, 2010, in the order the fields sit in the packet. */
  const SignalProtocol: seq<Field> := [
    Field(Sync, 2),
    Field(PLength, 1),
    Field(SignalQuality, 2),
    Field(AsicEegPowerInt, 1),
    Field(VLength, 1),
    Field(Delta, 3),
    Field(Theta, 3),
    Field(LowAlpha, 3),
    Field(HighAlpha, 3),
    Field(LowBeta, 3),
    Field(HighBeta, 3),
    Field(LowGamma, 3),
    Field(MidGamma, 3),
    Field(AttentionId, 1),
    Field(Attention, 1),
    Field(MeditationId, 1),
    Field(Meditation, 1),
    Field(Crc, 1)
  ]

  /** The two plot groups, in the order the channels are visited. */
  const GraphTypes: seq<string> := ["eeg", "attention"]

  /** Channels of the EEG plot. */
  const EegOutput: seq<FieldName> := [
    LowAlpha,
    HighAlpha,
    LowBeta,
    HighBeta,
    Delta,
    LowGamma,
    MidGamma,
    Theta
  ]

  /** Channels of the attention plot. */
  const AttentionOutput: seq<FieldName> := [Attention, Meditation]

  /** Curve colours of the EEG channels, by channel position. */
  const EegColor: seq<string> := [
    "#8AD2D8",
    "#C6A68E",
    "#558AA4",
    "#F15E3D",
    "#56704B",
    "#CC3B7C",
    "#005594",
    "#EFCB5E"
  ]

  /** Curve colours of the attention channels, by channel position. */
  const AttentionColor: seq<string> := ["#89B65A", "#EBC9BE"]

  /** Every display channel, in the order the polling loop visits them:
      the EEG group first, then the attention group. */
  const Channels: seq<FieldName> := EegOutput + AttentionOutput

  // The band inputs are checked two bands at a time: each lemma below looks at
  // only four entries of the literal table, which keeps every proof small.

  /** The generator inputs of the two alpha bands. */
  lemma AlphaInputs(j: nat)
    requires j == 0 || j == 1
    ensures SignalInput[2 * j] == Key(EegOutput[j]) + "_amplitude"
    ensures SignalInput[2 * j + 1] == Key(EegOutput[j]) + "_frequency"
  {
    if j == 0 {
      assert SignalInput[0] == Key(LowAlpha) + "_amplitude";
      assert SignalInput[1] == Key(LowAlpha) + "_frequency";
    } else {
      assert SignalInput[2] == Key(HighAlpha) + "_amplitude";
      assert SignalInput[3] == Key(HighAlpha) + "_frequency";
    }
  }

  /** The generator inputs of the two beta bands. */
  lemma BetaInputs(j: nat)
    requires j == 2 || j == 3
    ensures SignalInput[2 * j] == Key(EegOutput[j]) + "_amplitude"
    ensures SignalInput[2 * j + 1] == Key(EegOutput[j]) + "_frequency"
  {
    if j == 2 {
      assert SignalInput[4] == Key(LowBeta) + "_amplitude";
      assert SignalInput[5] == Key(LowBeta) + "_frequency";
    } else {
      assert SignalInput[6] == Key(HighBeta) + "_amplitude";
      assert SignalInput[7] == Key(HighBeta) + "_frequency";
    }
  }

  /** The generator inputs of the delta and low gamma bands. */
  lemma DeltaLowGammaInputs(j: nat)
    requires j == 4 || j == 5
    ensures SignalInput[2 * j] == Key(EegOutput[j]) + "_amplitude"
    ensures SignalInput[2 * j + 1] == Key(EegOutput[j]) + "_frequency"
  {
    if j == 4 {
      assert SignalInput[8] == Key(Delta) + "_amplitude";
      assert SignalInput[9] == Key(Delta) + "_frequency";
    } else {
      assert SignalInput[10] == Key(LowGamma) + "_amplitude";
      assert SignalInput[11] == Key(LowGamma) + "_frequency";
    }
  }

  /** The generator inputs of the mid gamma and theta bands. */
  lemma MidGammaThetaInputs(j: nat)
    requires j == 6 || j == 7
    ensures SignalInput[2 * j] == Key(EegOutput[j]) + "_amplitude"
    ensures SignalInput[2 * j + 1] == Key(EegOutput[j]) + "_frequency"
  {
    if j == 6 {
      assert SignalInput[12] == Key(MidGamma) + "_amplitude";
      assert SignalInput[13] == Key(MidGamma) + "_frequency";
    } else {
      assert SignalInput[14] == Key(Theta) + "_amplitude";
      assert SignalInput[15] == Key(Theta) + "_frequency";
    }
  }

  /** The two generator inputs of EEG band j: its amplitude at position 2j and its
      frequency at position 2j+1. */
  lemma BandInputs(j: nat)
    requires j < |EegOutput|
    ensures SignalInput[2 * j] == Key(EegOutput[j]) + "_amplitude"
    ensures SignalInput[2 * j + 1] == Key(EegOutput[j]) + "_frequency"
  {
    if j < 2 {
      AlphaInputs(j);
    } else if j < 4 {
      BetaInputs(j);
    } else if j < 6 {
      DeltaLowGammaInputs(j);
    } else {
      MidGammaThetaInputs(j);
    }
  }

  /** The generator inputs are the EEG bands in plot order, each contributing its
      amplitude and then its frequency. */
  lemma SignalInputFollowsBands()
    ensures |SignalInput| == 2 * |EegOutput| == 16
    ensures forall j :: 0 <= j < |EegOutput| ==>
      SignalInput[2 * j] == Key(EegOutput[j]) + "_amplitude" &&
      SignalInput[2 * j + 1] == Key(EegOutput[j]) + "_frequency"
  {
    forall j | 0 <= j < |EegOutput|
      ensures SignalInput[2 * j] == Key(EegOutput[j]) + "_amplitude"
      ensures SignalInput[2 * j + 1] == Key(EegOutput[j]) + "_frequency"
    {
      BandInputs(j);
    }
  }

  /** Every EEG band's field is three bytes wide; attention, meditation, their
      identifier fields and the checksum are one byte each. */
  lemma FieldWidths()
    ensures |SignalProtocol| == 18
    ensures forall k :: 5 <= k < 13 ==> SignalProtocol[k].name in EegOutput && SignalProtocol[k].width == 3
    ensures forall k :: 13 <= k < 18 ==> SignalProtocol[k].width == 1
    ensures SignalProtocol[14].name == Attention && SignalProtocol[16].name == Meditation
  {
  }

  /** Each plot group has exactly one colour per channel. */
  lemma ColoursMatchChannels()
    ensures |EegColor| == |EegOutput| && |AttentionColor| == |AttentionOutput|
  {
  }
}
