/**
 * Identities shared by the whole editor: SoundFont generator numbers,
 * the attribute kinds the soundfont store answers for, the element
 * types of the tree, and the stereo role of a sample.
 */
module Attributes {

  // Generator numbers, section 8.1.2 of the SoundFont 2.04 specification.
  const StartAddrsOffset := 0
  const EndAddrsOffset := 1
  const StartloopAddrsOffset := 2
  const EndloopAddrsOffset := 3
  const StartAddrsCoarseOffset := 4
  const ModLfoToPitch := 5
  const VibLfoToPitch := 6
  const ModEnvToPitch := 7
  const InitialFilterFc := 8
  const InitialFilterQ := 9
  const ModLfoToFilterFc := 10
  const ModEnvToFilterFc := 11
  const EndAddrsCoarseOffset := 12
  const ModLfoToVolume := 13
  const ChorusEffectsSend := 15
  const ReverbEffectsSend := 16
  const Pan := 17
  const DelayModLfo := 21
  const FreqModLfo := 22
  const DelayVibLfo := 23
  const FreqVibLfo := 24
  const DelayModEnv := 25
  const AttackModEnv := 26
  const HoldModEnv := 27
  const DecayModEnv := 28
  const SustainModEnv := 29
  const ReleaseModEnv := 30
  const KeynumToModEnvHold := 31
  const KeynumToModEnvDecay := 32
  const DelayVolEnv := 33
  const AttackVolEnv := 34
  const HoldVolEnv := 35
  const DecayVolEnv := 36
  const SustainVolEnv := 37
  const ReleaseVolEnv := 38
  const KeynumToVolEnvHold := 39
  const KeynumToVolEnvDecay := 40
  const Instrument := 41
  const KeyRangeGen := 43
  const VelRange := 44
  const StartloopAddrsCoarseOffset := 45
  const Keynum := 46
  const Velocity := 47
  const InitialAttenuation := 48
  const EndloopAddrsCoarseOffset := 50
  const CoarseTune := 51
  const FineTune := 52
  const SampleId := 53
  const SampleModes := 54
  const ScaleTuning := 56
  const ExclusiveClass := 57
  const OverridingRootKey := 58

  /**
   * What the soundfont store can be asked for: a generator (by its
   * SoundFont number) or one of the header fields of a sample or preset.
   */
  datatype AttributeType =
    | Gen(num: int)
    | WPreset            // preset number of a preset header
    | DwLength           // sample length, in frames
    | DwStart16          // sample start, used for the start position
    | DwStartLoop
    | DwEndLoop
    | ChPitchCorrection  // sample pitch correction, in cents
    | ByOriginalPitch
    | SfSampleType
    | Name

  /** The element kinds of the soundfont tree. */
  datatype ElementType =
    | Unknown | Sf2
    | Smpl | Inst | Prst
    | InstSmpl | PrstInst
    | InstMod | PrstMod | InstSmplMod | PrstInstMod
    | InstGen | PrstGen | InstSmplGen | PrstInstGen
    | RootSmpl | RootInst | RootPrst

  /** Stereo role of a sample (sfSampleType, section 7.10 of SoundFont 2.04). */
  datatype SampleLink =
    | MonoSample | RightSample | LeftSample | LinkedSample
    | RomMonoSample | RomRightSample | RomLeftSample | RomLinkedSample
  {
    predicate IsRight() { this == RightSample || this == RomRightSample }
    predicate IsLeft() { this == LeftSample || this == RomLeftSample }
  }

  /**
   * The pan (in tenths of a percent) given to a sample by its stereo
   * role: hard right, hard left, or centre.
   */
  function LinkPan(link: SampleLink): (r: int)
    ensures r > 0 <==> link.IsRight()
    ensures r < 0 <==> link.IsLeft()
    ensures r == 500 || r == -500 || r == 0
  {
    if link.IsRight() then 500
    else if link.IsLeft() then -500
    else 0
  }
}
