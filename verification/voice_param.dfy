/**
 * Per-voice generator resolution (VoiceParam): a fixed table of
 * generator slots filled from three tiers -- the sample header, the
 * instrument zone and the preset zone -- following the global-zone rule
 * of sections 7.5 and 7.9 of the SoundFont 2.04 specification: a zone's
 * own generators shadow those of its instrument's or preset's global zone.
 *
 * The combination of the tiers inside one slot (ModulatedParameter, with
 * its per-generator override/additive policy and unit conversion) is not
 * part of this model: every query takes it as a `resolve` parameter.
 */
module VoiceParams {
  import opened Wrappers
  import opened IntCasts
  import opened Attributes

  /** The tier a zone writes into: instrument level or preset level. */
  datatype Tier = InstTier | PrstTier

  /** One generator slot: the last values given to initInst and initPrst. */
  datatype Slot = Slot(inst: Option<int>, prst: Option<int>)

  /** One explicitly set attribute of a zone, as the store enumerates it. */
  datatype Attr = Attr(kind: AttributeType, value: int)

  /** The attributes of a zone and those of its parent's global zone. */
  datatype Zone = Zone(division: seq<Attr>, global: seq<Attr>)

  /** A preset zone, with the preset number read from the preset header. */
  datatype PresetZone = PresetZone(zone: Zone, presetNumber: u16)

  /** The fields the voice reads from the sample header. */
  datatype SampleHeader = SampleHeader(
    originalPitch: int,
    pitchCorrection: int,
    length: u32,
    startLoop: u32,
    endLoop: u32)

  /** ModulatedParameter::getIntValue / getRealValue, left uninterpreted. */
  type IntResolver = (AttributeType, Slot) -> int
  type RealResolver = (AttributeType, Slot) -> real

  /**
   * The generators that get a slot (prepareParameters): offsets, both
   * envelopes, both LFOs, filter, attenuation, effects, pan, tuning and
   * the per-note generators. Instrument, key/velocity range, sampleID and
   * the unused numbers have none.
   */
  const SlotNumbers: set<int> := {
    StartAddrsOffset, StartAddrsCoarseOffset, EndAddrsOffset, EndAddrsCoarseOffset,
    StartloopAddrsOffset, StartloopAddrsCoarseOffset, EndloopAddrsOffset, EndloopAddrsCoarseOffset,
    DelayVolEnv, AttackVolEnv, HoldVolEnv, DecayVolEnv, SustainVolEnv, ReleaseVolEnv,
    KeynumToVolEnvHold, KeynumToVolEnvDecay,
    DelayModEnv, AttackModEnv, HoldModEnv, DecayModEnv, SustainModEnv, ReleaseModEnv,
    KeynumToModEnvHold, KeynumToModEnvDecay, ModEnvToFilterFc, ModEnvToPitch,
    DelayModLfo, FreqModLfo, ModLfoToPitch, ModLfoToFilterFc, ModLfoToVolume,
    DelayVibLfo, FreqVibLfo, VibLfoToPitch,
    InitialFilterFc, InitialFilterQ, InitialAttenuation,
    ChorusEffectsSend, ReverbEffectsSend, Pan,
    CoarseTune, FineTune, ScaleTuning,
    OverridingRootKey, Keynum, Velocity, SampleModes, ExclusiveClass
  }

  predicate HasSlot(t: AttributeType) {
    t.Gen? && t.num in SlotNumbers
  }

  /** Release time given to a previewed sample: round(1200 * ln 0.2 / ln 2) timecents, about 50 ms. */
  const DefaultReleaseTimecents := -2786

  datatype VoiceParam = VoiceParam(
    slots: map<AttributeType, Slot>,
    sampleFineTune: int,
    sampleLength: i32,
    sampleLoopStart: i32,
    sampleLoopEnd: i32,
    presetNumber: int)
  {
    /** Exactly the prepared slots exist. */
    ghost predicate Valid() {
      forall t :: t in slots <==> HasSlot(t)
    }
  }

  /** prepareParameters: one empty slot per generator of SlotNumbers. */
  function PrepareParameters(): (slots: map<AttributeType, Slot>)
    ensures forall t :: t in slots <==> HasSlot(t)
    ensures forall t :: t in slots ==> slots[t] == Slot(None, None)
  {
    map n | n in SlotNumbers :: Gen(n) := Slot(None, None)
  }

  function SetTier(s: Slot, tier: Tier, value: int): Slot {
    match tier
    case InstTier => s.(inst := Some(value))
    case PrstTier => s.(prst := Some(value))
  }

  /** The value of the last attribute of kind `kind` in `attrs`, if any. */
  function LastValue(attrs: seq<Attr>, kind: AttributeType): Option<int>
    decreases |attrs|
  {
    if |attrs| == 0 then None
    else if attrs[|attrs| - 1].kind == kind then Some(attrs[|attrs| - 1].value)
    else LastValue(attrs[..|attrs| - 1], kind)
  }

  function KindsOf(attrs: seq<Attr>): set<AttributeType> {
    set i | 0 <= i < |attrs| :: attrs[i].kind
  }

  /**
   * The global-zone rule: the value a zone gives to `kind` is its own
   * last setting, and only when it sets none, its global zone's.
   */
  function ZoneValue(zone: Zone, kind: AttributeType): Option<int> {
    if LastValue(zone.division, kind).Some? then LastValue(zone.division, kind)
    else LastValue(zone.global, kind)
  }

  lemma {:induction false} LastValueSetIffListed(attrs: seq<Attr>, kind: AttributeType)
    ensures LastValue(attrs, kind).Some? <==> kind in KindsOf(attrs)
    decreases |attrs|
  {
    if |attrs| > 0 {
      var init := attrs[..|attrs| - 1];
      LastValueSetIffListed(init, kind);
      assert KindsOf(attrs) == KindsOf(init) + {attrs[|attrs| - 1].kind} by {
        forall k | k in KindsOf(attrs) ensures k in KindsOf(init) + {attrs[|attrs| - 1].kind} {
          var i :| 0 <= i < |attrs| && attrs[i].kind == k;
          if i < |attrs| - 1 { assert init[i] == attrs[i]; }
        }
        forall k | k in KindsOf(init) ensures k in KindsOf(attrs) {
          var i :| 0 <= i < |init| && init[i].kind == k;
          assert attrs[i] == init[i];
        }
      }
    }
  }

  /** LastValue seen from the front: the tail's last setting wins over the head. */
  lemma {:induction false} LastValueTail(attrs: seq<Attr>, kind: AttributeType)
    requires |attrs| > 0
    ensures LastValue(attrs, kind) ==
      if LastValue(attrs[1..], kind).Some? then LastValue(attrs[1..], kind)
      else if attrs[0].kind == kind then Some(attrs[0].value)
      else None
    decreases |attrs|
  {
    var n := |attrs|;
    if n > 1 && attrs[n - 1].kind != kind {
      var init := attrs[..n - 1];
      LastValueTail(init, kind);
      assert init[1..] == attrs[1..][..n - 2];
      assert attrs[1..][n - 2] == attrs[n - 1];
    }
  }

  /**
   * The loops of readInstSmpl/readPrstInst: each listed attribute whose
   * kind has a slot and is not `shadowed` is written into `tier`, in list
   * order.
   */
  function ApplyAttrs(slots: map<AttributeType, Slot>, attrs: seq<Attr>, shadowed: set<AttributeType>, tier: Tier)
    : (r: map<AttributeType, Slot>)
    ensures r.Keys == slots.Keys
    ensures forall t :: t in r ==>
              r[t] == if t !in shadowed && LastValue(attrs, t).Some? then SetTier(slots[t], tier, LastValue(attrs, t).value)
                      else slots[t]
    decreases |attrs|
  {
    if |attrs| == 0 then slots
    else
      var a := attrs[0];
      var next := if a.kind in slots && a.kind !in shadowed then slots[a.kind := SetTier(slots[a.kind], tier, a.value)] else slots;
      var r := ApplyAttrs(next, attrs[1..], shadowed, tier);
      assert forall t :: t in r ==>
                LastValue(attrs, t) == if LastValue(attrs[1..], t).Some? then LastValue(attrs[1..], t)
                                       else if a.kind == t then Some(a.value)
                                       else None
      by {
        forall t | t in r { LastValueTail(attrs, t); }
      }
      r
  }

  /**
   * readInstSmpl / readPrstInst: the zone's attributes, then the global
   * zone's attributes of every kind the zone did not list.
   */
  function ReadZone(slots: map<AttributeType, Slot>, zone: Zone, tier: Tier): (r: map<AttributeType, Slot>)
    ensures r.Keys == slots.Keys
    ensures forall t :: t in r ==>
              r[t] == if ZoneValue(zone, t).Some? then SetTier(slots[t], tier, ZoneValue(zone, t).value)
                      else slots[t]
  {
    var afterDivision := ApplyAttrs(slots, zone.division, {}, tier);
    var r := ApplyAttrs(afterDivision, zone.global, KindsOf(zone.division), tier);
    assert forall t :: t in r ==> (LastValue(zone.division, t).Some? <==> t in KindsOf(zone.division)) by {
      forall t | t in r { LastValueSetIffListed(zone.division, t); }
    }
    r
  }

  /** What the instrument tier of a slot holds after construction. */
  function InstTierValue(instSmpl: Option<Zone>, smpl: SampleHeader, t: AttributeType): Option<int> {
    if instSmpl.Some? && ZoneValue(instSmpl.value, t).Some? then ZoneValue(instSmpl.value, t)
    else if t == Gen(OverridingRootKey) then Some(smpl.originalPitch)
    else None
  }

  /** What the preset tier of a slot holds after construction. */
  function PrstTierValue(prstInst: Option<PresetZone>, t: AttributeType): Option<int> {
    if prstInst.Some? then ZoneValue(prstInst.value.zone, t) else None
  }

  /** readSmpl's part of the slots: the sample's original pitch as instrument-level root key. */
  function SampleSlots(smpl: SampleHeader): (slots: map<AttributeType, Slot>)
    ensures forall t :: t in slots <==> HasSlot(t)
    ensures forall t :: t in slots ==>
              slots[t] == Slot(if t == Gen(OverridingRootKey) then Some(smpl.originalPitch) else None, None)
  {
    var prepared := PrepareParameters();
    prepared[Gen(OverridingRootKey) := SetTier(prepared[Gen(OverridingRootKey)], InstTier, smpl.originalPitch)]
  }

  /** The slots once the instrument zone, if any, has been read over the sample's. */
  function InstSlots(instSmpl: Option<Zone>, smpl: SampleHeader): (slots: map<AttributeType, Slot>)
    ensures forall t :: t in slots <==> HasSlot(t)
    ensures forall t :: t in slots ==> slots[t] == Slot(InstTierValue(instSmpl, smpl, t), None)
  {
    var withSample := SampleSlots(smpl);
    if instSmpl.Some? then ReadZone(withSample, instSmpl.value, InstTier) else withSample
  }

  /**
   * The constructor: prepare the slots, read the sample header (root key,
   * pitch correction, length and loop), then the instrument zone if there
   * is one, then the preset zone if there is one.
   */
  function NewVoiceParam(prstInst: Option<PresetZone>, instSmpl: Option<Zone>, smpl: SampleHeader): (v: VoiceParam)
    ensures v.Valid()
    ensures forall t :: t in v.slots ==>
              v.slots[t] == Slot(InstTierValue(instSmpl, smpl, t), PrstTierValue(prstInst, t))
    ensures v.sampleFineTune == smpl.pitchCorrection
    ensures ToUint32(v.sampleLength) == smpl.length
    ensures ToUint32(v.sampleLoopStart) == smpl.startLoop
    ensures ToUint32(v.sampleLoopEnd) == smpl.endLoop
    ensures v.presetNumber == if prstInst.Some? then prstInst.value.presetNumber else -1
  {
    var withInst := InstSlots(instSmpl, smpl);
    var withPrst := if prstInst.Some? then ReadZone(withInst, prstInst.value.zone, PrstTier) else withInst;
    UnsignedSignedRoundTrip(smpl.length);
    UnsignedSignedRoundTrip(smpl.startLoop);
    UnsignedSignedRoundTrip(smpl.endLoop);
    VoiceParam(
      withPrst,
      smpl.pitchCorrection,
      ToInt32(smpl.length),
      ToInt32(smpl.startLoop),
      ToInt32(smpl.endLoop),
      if prstInst.Some? then prstInst.value.presetNumber else -1)
  }

  /** getDouble: the resolved slot, or 0.0 for a type without a slot. */
  function GetDouble(v: VoiceParam, t: AttributeType, resolve: RealResolver): (r: real)
    ensures v.Valid() && HasSlot(t) ==> r == resolve(t, v.slots[t])
    ensures v.Valid() && !HasSlot(t) ==> r == 0.0
  {
    if t in v.slots then resolve(t, v.slots[t]) else 0.0
  }

  /**
   * getInteger: the resolved slot, plus the sample's pitch correction for
   * fine tune; the preset number for wPreset; 0 otherwise.
   */
  function GetInteger(v: VoiceParam, t: AttributeType, resolve: IntResolver): (r: int)
    ensures v.Valid() && HasSlot(t) && t != Gen(FineTune) ==> r == resolve(t, v.slots[t])
    ensures v.Valid() && t == Gen(FineTune) ==> r == v.sampleFineTune + resolve(t, v.slots[t])
    ensures v.Valid() && !HasSlot(t) ==> r == (if t == WPreset then v.presetNumber else 0)
  {
    if t in v.slots then (if t == Gen(FineTune) then v.sampleFineTune else 0) + resolve(t, v.slots[t])
    else if t == WPreset then v.presetNumber
    else 0
  }

  /** A fine offset plus 32768 times its coarse counterpart (section 8.1.2 of SoundFont 2.04). */
  function Offset(v: VoiceParam, fine: int, coarse: int, resolve: IntResolver): int
    requires v.Valid() && fine in SlotNumbers && coarse in SlotNumbers
  {
    resolve(Gen(fine), v.slots[Gen(fine)]) + 32768 * resolve(Gen(coarse), v.slots[Gen(coarse)])
  }

  /**
   * getPosition(dwLength): a negative end offset shortens the sample (not
   * below 0), a positive one is ignored.
   */
  function LengthPosition(v: VoiceParam, resolve: IntResolver): (r: u32)
    requires v.Valid()
    ensures r <= ToUint32(v.sampleLength)
  {
    var offset := Offset(v, EndAddrsOffset, EndAddrsCoarseOffset, resolve);
    if v.sampleLength + offset < 0 then 0
    else if offset > 0 then ToUint32(v.sampleLength)
    else ToUint32(v.sampleLength + offset)
  }

  /** A start or loop point moved by its offset, kept within [0, length]. */
  function BoundedPosition(base: int, offset: int, length: u32): (r: nat)
    ensures r <= length
  {
    if base + offset < 0 then 0
    else if base + offset > length then length
    else base + offset
  }

  /** getPosition: sample length, start and loop points after their offsets; 0 for any other type. */
  function GetPosition(v: VoiceParam, t: AttributeType, resolve: IntResolver): (r: nat)
    requires v.Valid()
    ensures t == DwLength ==> r <= ToUint32(v.sampleLength)
    ensures t in {DwStart16, DwStartLoop, DwEndLoop} ==> r <= LengthPosition(v, resolve)
    ensures t !in {DwLength, DwStart16, DwStartLoop, DwEndLoop} ==> r == 0
  {
    match t
    case DwStart16 =>
      BoundedPosition(0, Offset(v, StartAddrsOffset, StartAddrsCoarseOffset, resolve), LengthPosition(v, resolve))
    case DwLength =>
      LengthPosition(v, resolve)
    case DwStartLoop =>
      BoundedPosition(v.sampleLoopStart, Offset(v, StartloopAddrsOffset, StartloopAddrsCoarseOffset, resolve), LengthPosition(v, resolve))
    case DwEndLoop =>
      BoundedPosition(v.sampleLoopEnd, Offset(v, EndloopAddrsOffset, EndloopAddrsCoarseOffset, resolve), LengthPosition(v, resolve))
    case _ => 0
  }

  /** Writes `value` into the instrument tier of the slot of generator `gen`. */
  function SetInst(v: VoiceParam, gen: int, value: int): (r: VoiceParam)
    requires v.Valid() && gen in SlotNumbers
    ensures r.Valid()
    ensures r.slots[Gen(gen)] == Slot(Some(value), v.slots[Gen(gen)].prst)
    ensures forall t :: t in v.slots && t != Gen(gen) ==> r.slots[t] == v.slots[t]
    ensures r == v.(slots := r.slots)
  {
    v.(slots := v.slots[Gen(gen) := SetTier(v.slots[Gen(gen)], InstTier, value)])
  }

  /**
   * prepareForSmpl: settings for previewing a bare sample -- the key as
   * exclusive class (so replaying it mutes the previous voice), a short
   * release, and pan by stereo role.
   */
  function PrepareForSmpl(v: VoiceParam, key: int, link: SampleLink): (r: VoiceParam)
    requires v.Valid()
    ensures r.Valid()
    ensures r.slots[Gen(ExclusiveClass)].inst == Some(ToUint16(key))
    ensures r.slots[Gen(ReleaseVolEnv)].inst == Some(DefaultReleaseTimecents)
    ensures r.slots[Gen(Pan)].inst == Some(LinkPan(link))
    ensures forall t :: t in r.slots ==> r.slots[t].prst == v.slots[t].prst
    ensures forall t :: t in v.slots && t !in {Gen(ExclusiveClass), Gen(ReleaseVolEnv), Gen(Pan)} ==> r.slots[t] == v.slots[t]
    ensures r == v.(slots := r.slots)
  {
    var withClass := SetInst(v, ExclusiveClass, ToUint16(key));
    var withRelease := SetInst(withClass, ReleaseVolEnv, ToInt16(DefaultReleaseTimecents));
    SetInst(withRelease, Pan, LinkPan(link))
  }

  /** setPan: pan in percent, stored as tenths rounded to a 16-bit integer. */
  function SetPan(v: VoiceParam, val: real): (r: VoiceParam)
    requires v.Valid()
    ensures r.Valid()
    ensures r.slots[Gen(Pan)].inst == Some(ToInt16(QRound(val * 10.0)))
  {
    SetInst(v, Pan, ToInt16(QRound(val * 10.0)))
  }

  function SetLoopMode(v: VoiceParam, val: u16): (r: VoiceParam)
    requires v.Valid()
    ensures r.Valid()
    ensures r.slots[Gen(SampleModes)].inst == Some(val)
  {
    SetInst(v, SampleModes, val)
  }

  function SetFineTune(v: VoiceParam, val: i16): (r: VoiceParam)
    requires v.Valid()
    ensures r.Valid()
    ensures r.slots[Gen(FineTune)].inst == Some(val)
  {
    SetInst(v, FineTune, val)
  }

  function SetLoopStart(v: VoiceParam, val: u32): (r: VoiceParam)
    ensures ToUint32(r.sampleLoopStart) == val
    ensures r == v.(sampleLoopStart := r.sampleLoopStart)
  {
    UnsignedSignedRoundTrip(val);
    v.(sampleLoopStart := ToInt32(val))
  }

  function SetLoopEnd(v: VoiceParam, val: u32): (r: VoiceParam)
    ensures ToUint32(r.sampleLoopEnd) == val
    ensures r == v.(sampleLoopEnd := r.sampleLoopEnd)
  {
    UnsignedSignedRoundTrip(val);
    v.(sampleLoopEnd := ToInt32(val))
  }

  // ---------------------------------------------------------------------
  // Properties of the resolved voice

  /** The sample-offset generators, whose slots feed getPosition. */
  const OffsetNumbers: set<int> := {
    StartAddrsOffset, StartAddrsCoarseOffset, EndAddrsOffset, EndAddrsCoarseOffset,
    StartloopAddrsOffset, StartloopAddrsCoarseOffset, EndloopAddrsOffset, EndloopAddrsCoarseOffset
  }

  function Max(a: int, b: int): int { if a >= b then a else b }
  function Min(a: int, b: int): int { if a <= b then a else b }

  /**
   * Global-zone rule: a kind the zone lists itself takes the zone's value,
   * whatever the global zone says; the global value is used only for kinds
   * the zone does not list.
   */
  lemma ZoneShadowsGlobal(zone: Zone, t: AttributeType)
    ensures t in KindsOf(zone.division) ==>
              ZoneValue(zone, t).Some? && ZoneValue(zone, t) == LastValue(zone.division, t)
    ensures t !in KindsOf(zone.division) ==> ZoneValue(zone, t) == LastValue(zone.global, t)
  {
    LastValueSetIffListed(zone.division, t);
  }

  /** Each zone writes only its own tier: instrument zone to inst, preset zone to prst. */
  lemma ZonesWriteTheirTier(prstInst: Option<PresetZone>, instSmpl: Option<Zone>, smpl: SampleHeader, t: AttributeType)
    requires HasSlot(t)
    ensures var v := NewVoiceParam(prstInst, instSmpl, smpl);
            && (instSmpl.Some? && t in KindsOf(instSmpl.value.division) ==>
                  v.slots[t].inst == LastValue(instSmpl.value.division, t))
            && (prstInst.Some? && t in KindsOf(prstInst.value.zone.division) ==>
                  v.slots[t].prst == LastValue(prstInst.value.zone.division, t))
            && (prstInst.None? ==> v.slots[t].prst.None?)
  {
    var v := NewVoiceParam(prstInst, instSmpl, smpl);
    assert t in v.slots;
    if instSmpl.Some? { ZoneShadowsGlobal(instSmpl.value, t); }
    if prstInst.Some? { ZoneShadowsGlobal(prstInst.value.zone, t); }
  }

  /**
   * Attribute kinds without a slot are ignored when zones are read: the
   * queries answer the defaults whatever the zones list.
   */
  lemma UnslottedTypesIgnored(prstInst: Option<PresetZone>, instSmpl: Option<Zone>, smpl: SampleHeader,
                              t: AttributeType, resolve: IntResolver, resolveReal: RealResolver)
    requires !HasSlot(t)
    ensures var v := NewVoiceParam(prstInst, instSmpl, smpl);
            && t !in v.slots
            && GetDouble(v, t, resolveReal) == 0.0
            && GetInteger(v, t, resolve) == (if t == WPreset then v.presetNumber else 0)
            && GetInteger(v, WPreset, resolve) == (if prstInst.Some? then prstInst.value.presetNumber else -1)
  {
    var v := NewVoiceParam(prstInst, instSmpl, smpl);
    assert !HasSlot(WPreset);
  }

  /**
   * Fine tune is cumulative: the sample's pitch correction is added to the
   * resolved fine-tune generator; every other slot answers its resolved
   * value alone.
   */
  lemma FineTuneIsCumulative(prstInst: Option<PresetZone>, instSmpl: Option<Zone>, smpl: SampleHeader,
                             t: AttributeType, resolve: IntResolver)
    requires HasSlot(t)
    ensures var v := NewVoiceParam(prstInst, instSmpl, smpl);
            var slot := Slot(InstTierValue(instSmpl, smpl, t), PrstTierValue(prstInst, t));
            GetInteger(v, t, resolve) == (if t == Gen(FineTune) then smpl.pitchCorrection else 0) + resolve(t, slot)
  {
    var v := NewVoiceParam(prstInst, instSmpl, smpl);
    assert t in v.slots;
  }

  /** The resolved length never exceeds the sample header's length. */
  lemma LengthWithinSample(prstInst: Option<PresetZone>, instSmpl: Option<Zone>, smpl: SampleHeader, resolve: IntResolver)
    ensures var v := NewVoiceParam(prstInst, instSmpl, smpl);
            GetPosition(v, DwLength, resolve) <= smpl.length
  {
  }

  /**
   * The asymmetric end clamp: for a sample shorter than 2^31 frames the
   * length is the header length shortened by any negative end offset,
   * never below 0 and never lengthened.
   */
  lemma LengthOnlyShrinks(v: VoiceParam, resolve: IntResolver)
    requires v.Valid() && v.sampleLength >= 0
    ensures var offset := Offset(v, EndAddrsOffset, EndAddrsCoarseOffset, resolve);
            GetPosition(v, DwLength, resolve) == Max(0, v.sampleLength + Min(0, offset))
  {
  }

  /**
   * Start and loop points: base point (0, loop start or loop end) plus
   * offset, clamped into [0, resolved length].
   */
  lemma PositionsClampedToLength(v: VoiceParam, t: AttributeType, resolve: IntResolver)
    requires v.Valid() && t in {DwStart16, DwStartLoop, DwEndLoop}
    ensures var base := if t == DwStart16 then 0 else if t == DwStartLoop then v.sampleLoopStart else v.sampleLoopEnd;
            var offset := if t == DwStart16 then Offset(v, StartAddrsOffset, StartAddrsCoarseOffset, resolve)
                          else if t == DwStartLoop then Offset(v, StartloopAddrsOffset, StartloopAddrsCoarseOffset, resolve)
                          else Offset(v, EndloopAddrsOffset, EndloopAddrsCoarseOffset, resolve);
            GetPosition(v, t, resolve) == Max(0, Min(base + offset, LengthPosition(v, resolve)))
  {
  }

  /** Writing a slot outside a fine/coarse pair leaves that pair's offset alone. */
  lemma OffsetUntouched(v: VoiceParam, gen: int, value: int, fine: int, coarse: int, resolve: IntResolver)
    requires v.Valid() && gen in SlotNumbers && fine in SlotNumbers && coarse in SlotNumbers
    requires gen != fine && gen != coarse
    ensures Offset(SetInst(v, gen, value), fine, coarse, resolve) == Offset(v, fine, coarse, resolve)
  {
    var r := SetInst(v, gen, value);
    assert r.slots[Gen(fine)] == v.slots[Gen(fine)] && r.slots[Gen(coarse)] == v.slots[Gen(coarse)];
  }

  /**
   * Writing the instrument tier of one slot changes no other query: every
   * other type answers as before, and positions move only when the slot
   * is a sample offset.
   */
  lemma SetInstTouchesOnlyItsSlot(v: VoiceParam, gen: int, value: int, resolve: IntResolver, resolveReal: RealResolver)
    requires v.Valid() && gen in SlotNumbers
    ensures var r := SetInst(v, gen, value);
            && (forall t :: t != Gen(gen) ==>
                  GetInteger(r, t, resolve) == GetInteger(v, t, resolve) && GetDouble(r, t, resolveReal) == GetDouble(v, t, resolveReal))
            && GetInteger(r, Gen(gen), resolve) ==
                 (if gen == FineTune then v.sampleFineTune else 0) + resolve(Gen(gen), Slot(Some(value), v.slots[Gen(gen)].prst))
            && (gen !in OffsetNumbers ==> forall t :: GetPosition(r, t, resolve) == GetPosition(v, t, resolve))
  {
    var r := SetInst(v, gen, value);
    if gen !in OffsetNumbers {
      OffsetUntouched(v, gen, value, EndAddrsOffset, EndAddrsCoarseOffset, resolve);
      OffsetUntouched(v, gen, value, StartAddrsOffset, StartAddrsCoarseOffset, resolve);
      OffsetUntouched(v, gen, value, StartloopAddrsOffset, StartloopAddrsCoarseOffset, resolve);
      OffsetUntouched(v, gen, value, EndloopAddrsOffset, EndloopAddrsCoarseOffset, resolve);
      assert LengthPosition(r, resolve) == LengthPosition(v, resolve);
      forall t ensures GetPosition(r, t, resolve) == GetPosition(v, t, resolve) {
      }
    }
  }

  /** setFineTune: getInteger(fineTune) becomes pitch correction plus the new fine tune; nothing else moves. */
  lemma SetFineTuneEffect(v: VoiceParam, val: i16, resolve: IntResolver, resolveReal: RealResolver)
    requires v.Valid()
    ensures var r := SetFineTune(v, val);
            && GetInteger(r, Gen(FineTune), resolve) ==
                 v.sampleFineTune + resolve(Gen(FineTune), Slot(Some(val), v.slots[Gen(FineTune)].prst))
            && (forall t :: t != Gen(FineTune) ==>
                  GetInteger(r, t, resolve) == GetInteger(v, t, resolve) && GetDouble(r, t, resolveReal) == GetDouble(v, t, resolveReal))
            && (forall t :: GetPosition(r, t, resolve) == GetPosition(v, t, resolve))
  {
    SetInstTouchesOnlyItsSlot(v, FineTune, val, resolve, resolveReal);
  }

  /**
   * setLoopStart changes only the stored loop start: every query but the
   * loop start position answers as before.
   */
  lemma SetLoopStartEffect(v: VoiceParam, start: u32, resolve: IntResolver, resolveReal: RealResolver)
    requires v.Valid()
    ensures var r := SetLoopStart(v, start);
            && r.Valid()
            && (forall t :: GetInteger(r, t, resolve) == GetInteger(v, t, resolve) && GetDouble(r, t, resolveReal) == GetDouble(v, t, resolveReal))
            && (forall t :: t != DwStartLoop ==> GetPosition(r, t, resolve) == GetPosition(v, t, resolve))
            && (start < 0x8000_0000 ==>
                  GetPosition(r, DwStartLoop, resolve) ==
                    Max(0, Min(start + Offset(v, StartloopAddrsOffset, StartloopAddrsCoarseOffset, resolve), LengthPosition(v, resolve))))
  {
    var r := SetLoopStart(v, start);
    UnsignedSignedRoundTrip(start);
    assert r.slots == v.slots && r.sampleLength == v.sampleLength && r.sampleLoopEnd == v.sampleLoopEnd;
    assert LengthPosition(r, resolve) == LengthPosition(v, resolve);
    forall t | t != DwStartLoop ensures GetPosition(r, t, resolve) == GetPosition(v, t, resolve) {
    }
  }

  /**
   * setLoopEnd changes only the stored loop end: every query but the loop
   * end position answers as before.
   */
  lemma SetLoopEndEffect(v: VoiceParam, end: u32, resolve: IntResolver, resolveReal: RealResolver)
    requires v.Valid()
    ensures var r := SetLoopEnd(v, end);
            && r.Valid()
            && (forall t :: GetInteger(r, t, resolve) == GetInteger(v, t, resolve) && GetDouble(r, t, resolveReal) == GetDouble(v, t, resolveReal))
            && (forall t :: t != DwEndLoop ==> GetPosition(r, t, resolve) == GetPosition(v, t, resolve))
            && (end < 0x8000_0000 ==>
                  GetPosition(r, DwEndLoop, resolve) ==
                    Max(0, Min(end + Offset(v, EndloopAddrsOffset, EndloopAddrsCoarseOffset, resolve), LengthPosition(v, resolve))))
  {
    var r := SetLoopEnd(v, end);
    UnsignedSignedRoundTrip(end);
    assert r.slots == v.slots && r.sampleLength == v.sampleLength && r.sampleLoopStart == v.sampleLoopStart;
    assert LengthPosition(r, resolve) == LengthPosition(v, resolve);
    forall t | t != DwEndLoop ensures GetPosition(r, t, resolve) == GetPosition(v, t, resolve) {
    }
  }

  /**
   * The exclusive class of a previewed sample tells keys apart: -1 becomes
   * 65535, and distinct keys in -1..127 get distinct classes, so only
   * replaying the same key mutes the previous voice.
   */
  lemma ExclusiveClassPerKey(v: VoiceParam, k1: int, k2: int, link: SampleLink)
    requires v.Valid() && -1 <= k1 <= 127 && -1 <= k2 <= 127
    ensures PrepareForSmpl(v, -1, link).slots[Gen(ExclusiveClass)].inst == Some(65535)
    ensures (PrepareForSmpl(v, k1, link).slots[Gen(ExclusiveClass)] == PrepareForSmpl(v, k2, link).slots[Gen(ExclusiveClass)])
            <==> k1 == k2
  {
    assert ToUint16(-1) == 65535;
    var c1 := PrepareForSmpl(v, k1, link).slots[Gen(ExclusiveClass)];
    var c2 := PrepareForSmpl(v, k2, link).slots[Gen(ExclusiveClass)];
    assert c1.inst == Some(ToUint16(k1)) && c2.inst == Some(ToUint16(k2));
    if k1 != k2 {
      assert ToUint16(k1) != ToUint16(k2);
    }
  }
}
