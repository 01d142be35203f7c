/**
 * The MIDI controller state machine (MidiDevice): decoding of
 * channel-voice messages (MIDI 1.0 Detailed Specification), the sustain
 * pedal's queue of keys to release, the 4-message RPN history that
 * recognises RPN 00 00 (pitch bend sensitivity), and the controller value
 * store. Notifications, the synth calls and the gain setting are returned
 * as a list of outputs; the keyboard and controller-area widgets, the
 * mutex and the port handling are not modelled.
 */
module MidiDevice {
  import opened Wrappers

  type byte = x: int | 0 <= x < 256

  /** The events the transport callback posts. */
  datatype Event =
    | NoteEvent(note: int, velocity: int)
    | PolyPressureEvent(note: int, pressure: int)
    | ControllerEvent(controller: int, value: int)
    | ProgramEvent(program: int)
    | MonoPressureEvent(pressure: int)
    | BendEvent(value: int)

  /** What the device emits, in order. */
  datatype Output =
    | KeyPlayed(key: int, velocity: int)   // velocity 0 is a release
    | StopSample                           // the synth's play(EltID(), -1, 0)
    | StopVoices                           // the synth's stop()
    | PolyPressureChanged(key: int, pressure: int)
    | MonoPressureChanged(value: int)
    | BendChanged(value: int)
    | BendSensitivityChanged(semitones: real)
    | GainSetting(decibels: real)          // written to the sound engine configuration

  // ---------------------------------------------------------------------
  // Decoding

  /** status & 0xF0: the message kind, channel cleared. */
  function StatusKind(status: byte): int {
    status / 16 * 16
  }

  /**
   * Number of data bytes the decoder reads for a status byte: a note off
   * never reads its velocity, and bend reads only its first data byte.
   */
  function DataLength(status: byte): nat {
    var kind := StatusKind(status);
    if kind in {0x90, 0xA0, 0xB0} then 2
    else if kind in {0x80, 0xC0, 0xD0, 0xE0} then 1
    else 0
  }

  /** A message carrying every data byte the decoder reads. */
  predicate Complete(message: seq<byte>) {
    |message| >= 1 && |message| >= 1 + DataLength(message[0])
  }

  /**
   * midiCallback: the high nibble of the status selects the event; note
   * off, and note on with velocity 0, both give a note of velocity 0;
   * bend keeps only the first data byte; status 0xF0 and above (and data
   * bytes) give no event.
   */
  function Decode(message: seq<byte>): (ev: Option<Event>)
    requires Complete(message)
    ensures ev.None? <==> message[0] < 0x80 || message[0] >= 0xF0
    ensures ev.Some? && ev.value.NoteEvent? ==>
              StatusKind(message[0]) in {0x80, 0x90} &&
              ev.value.velocity == (if StatusKind(message[0]) == 0x80 then 0 else message[2])
  {
    var kind := StatusKind(message[0]);
    if kind == 0x80 || kind == 0x90 then
      if kind == 0x80 || message[2] == 0 then Some(NoteEvent(message[1], 0))
      else Some(NoteEvent(message[1], message[2]))
    else if kind == 0xA0 then Some(PolyPressureEvent(message[1], message[2]))
    else if kind == 0xB0 then Some(ControllerEvent(message[1], message[2]))
    else if kind == 0xC0 then Some(ProgramEvent(message[1]))
    else if kind == 0xD0 then Some(MonoPressureEvent(message[1]))
    else if kind == 0xE0 then Some(BendEvent(message[1]))
    else None
  }

  predicate DataByte(x: int) { 0 <= x < 0x80 }

  /** Events whose fields fit MIDI data bytes. */
  predicate Encodable(ev: Event) {
    match ev
    case NoteEvent(n, v) => DataByte(n) && DataByte(v)
    case PolyPressureEvent(n, p) => DataByte(n) && DataByte(p)
    case ControllerEvent(c, v) => DataByte(c) && DataByte(v)
    case ProgramEvent(p) => DataByte(p)
    case MonoPressureEvent(p) => DataByte(p)
    case BendEvent(v) => DataByte(v)
  }

  /** A channel-voice message for an event, on a given channel (bend MSB 0). */
  function Encode(ev: Event, channel: int): seq<byte>
    requires Encodable(ev) && 0 <= channel < 16
  {
    match ev
    case NoteEvent(n, v) => if v == 0 then [0x80 + channel, n, 0] else [0x90 + channel, n, v]
    case PolyPressureEvent(n, p) => [0xA0 + channel, n, p]
    case ControllerEvent(c, v) => [0xB0 + channel, c, v]
    case ProgramEvent(p) => [0xC0 + channel, p]
    case MonoPressureEvent(p) => [0xD0 + channel, p]
    case BendEvent(v) => [0xE0 + channel, v, 0]
  }

  /** Decoding inverts encoding, on every channel. */
  lemma DecodeEncode(ev: Event, channel: int)
    requires Encodable(ev) && 0 <= channel < 16
    ensures Complete(Encode(ev, channel))
    ensures Decode(Encode(ev, channel)) == Some(ev)
  {
    var m := Encode(ev, channel);
    assert StatusKind(m[0]) == m[0] - channel;
  }

  /** A note off or a bend without its second data byte still decodes. */
  lemma ShortMessagesDecode(channel: int, x: byte)
    requires 0 <= channel < 16
    ensures Complete([0x80 + channel, x]) && Decode([0x80 + channel, x]) == Some(NoteEvent(x, 0))
    ensures Complete([0xE0 + channel, x]) && Decode([0xE0 + channel, x]) == Some(BendEvent(x))
  {
    assert StatusKind(0x80 + channel) == 0x80;
    assert StatusKind(0xE0 + channel) == 0xE0;
  }

  /**
   * The decoder ignores the channel nibble, a note-on of velocity 0 is a
   * note-off, and bend ignores its second data byte.
   */
  lemma DecodeIgnores(status: byte, channel: int, d1: byte, d2: byte, d2': byte)
    requires 0 <= channel < 16
    ensures var same := StatusKind(status) + channel;
            Decode([same, d1, d2]) == Decode([status, d1, d2])
    ensures Decode([0x90 + channel, d1, 0]) == Decode([0x80, d1, d2])
    ensures Decode([0xE0 + channel, d1, d2]) == Decode([0xE0, d1, d2'])
  {
    var same := StatusKind(status) + channel;
    assert StatusKind(same) == StatusKind(status);
    assert StatusKind(0x90 + channel) == 0x90;
    assert StatusKind(0xE0 + channel) == 0xE0;
  }

  // ---------------------------------------------------------------------
  // State

  datatype RpnMessage = RpnMessage(controller: int, value: int)

  datatype State = State(
    controllers: map<int, int>,
    bend: int,
    bendSensitivity: real,
    monoPressure: int,
    sustainOn: bool,
    held: seq<int>,            // keys released under sustain, oldest first
    rpnHistory: seq<RpnMessage>)

  /** The constructor: nothing received yet, sustain off. */
  const Initial := State(map[], -1, -1.0, -1, false, [], [])

  /** Controllers whose messages enter the RPN history (101, 100, 6, 38). */
  const RpnControllers: set<int> := {101, 100, 6, 38}

  predicate NoDuplicates(keys: seq<int>) {
    forall i, j :: 0 <= i < j < |keys| ==> keys[i] != keys[j]
  }

  /**
   * What every reachable state satisfies: a non-empty hold queue means the
   * pedal is down, the queue holds each key once and never the stop key
   * -1, and the RPN history is at most four RPN messages.
   */
  ghost predicate Inv(st: State) {
    && (|st.held| > 0 ==> st.sustainOn)
    && NoDuplicates(st.held)
    && -1 !in st.held
    && |st.rpnHistory| <= 4
    && forall i :: 0 <= i < |st.rpnHistory| ==> st.rpnHistory[i].controller in RpnControllers
  }

  lemma InitialSatisfiesInv()
    ensures Inv(Initial)
    ensures forall n :: GetControllerValue(Initial, n) == -1
    ensures Initial.bend == -1 && Initial.monoPressure == -1 && Initial.bendSensitivity == -1.0
  {
  }

  // ---------------------------------------------------------------------
  // Keys

  /** The output of releasing one key with the pedal up. */
  function KeyOffOutput(key: int): Output {
    if key == -1 then StopSample else KeyPlayed(key, 0)
  }

  /** Releases of `keys`, in order. */
  function ReleaseOutputs(keys: seq<int>): (outs: seq<Output>)
    ensures |outs| == |keys|
  {
    seq(|keys|, i requires 0 <= i < |keys| => KeyOffOutput(keys[i]))
  }

  /**
   * processKeyOff: key -1 stops the sample preview and is never queued;
   * with sustain on, the key is queued once and nothing is emitted;
   * otherwise the key is released.
   */
  function ProcessKeyOff(st: State, key: int): (r: (State, seq<Output>))
    ensures key == -1 ==> r == (st, [StopSample])
    ensures key != -1 && st.sustainOn ==>
              r.1 == [] && key in r.0.held && r.0 == st.(held := r.0.held) &&
              r.0.held == (if key in st.held then st.held else st.held + [key])
    ensures key != -1 && !st.sustainOn ==> r == (st, [KeyPlayed(key, 0)])
    ensures Inv(st) ==> Inv(r.0)
  {
    if key == -1 then (st, [StopSample])
    else if st.sustainOn then
      (st.(held := if key in st.held then st.held else st.held + [key]), [])
    else (st, [KeyPlayed(key, 0)])
  }

  /**
   * processKeyOn: a queued key is first passed to processKeyOff, then the
   * key is played.
   */
  function ProcessKeyOn(st: State, key: int, vel: int): (r: (State, seq<Output>))
    ensures |r.1| >= 1 && r.1[|r.1| - 1] == KeyPlayed(key, vel)
    ensures r.0 == st.(held := r.0.held)
    ensures Inv(st) ==> Inv(r.0)
  {
    var (st1, out1) := if key in st.held then ProcessKeyOff(st, key) else (st, []);
    (st1, out1 + [KeyPlayed(key, vel)])
  }

  /**
   * Replaying a key that the pedal holds releases nothing: since the queue
   * is non-empty only while the pedal is down, the nested processKeyOff
   * finds the key already queued, and the key stays queued.
   */
  lemma KeyOnOfHeldKey(st: State, key: int, vel: int)
    requires Inv(st)
    ensures ProcessKeyOn(st, key, vel) == (st, [KeyPlayed(key, vel)])
  {
    if key in st.held {
      assert st.sustainOn && key != -1;
      var off := ProcessKeyOff(st, key);
      assert off.0.held == st.held;
      assert off == (st, []);
      assert [] + [KeyPlayed(key, vel)] == [KeyPlayed(key, vel)];
    } else {
      assert [] + [KeyPlayed(key, vel)] == [KeyPlayed(key, vel)];
    }
  }

  /**
   * The release loop of the sustain pedal: takes the oldest queued key and
   * passes it to processKeyOff until the queue is empty. With the pedal up
   * each key is released, oldest first.
   */
  function ReleaseHeld(st: State): (r: (State, seq<Output>))
    requires !st.sustainOn
    ensures r.0 == st.(held := [])
    ensures r.1 == ReleaseOutputs(st.held)
    decreases |st.held|
  {
    if |st.held| == 0 then (st, [])
    else
      var (st1, out1) := ProcessKeyOff(st.(held := st.held[1..]), st.held[0]);
      var (st2, out2) := ReleaseHeld(st1);
      assert ReleaseOutputs(st.held) == [KeyOffOutput(st.held[0])] + ReleaseOutputs(st.held[1..]);
      (st2, out1 + out2)
  }

  // ---------------------------------------------------------------------
  // Controllers

  /** Appends to the RPN history, dropping the oldest message beyond four. */
  function PushRpn(history: seq<RpnMessage>, m: RpnMessage): (r: seq<RpnMessage>)
    ensures |history| <= 4 ==> r == LastN(history + [m], 4)
  {
    var h := history + [m];
    if |h| > 4 then h[1..] else h
  }

  /** The last n elements of s (all of s when it is shorter). */
  function LastN<T>(s: seq<T>, n: nat): (r: seq<T>)
    ensures |r| == if |s| <= n then |s| else n
    ensures r == s[|s| - |r|..]
  {
    if |s| <= n then s else s[|s| - n..]
  }

  /** RPN 00 00: (101, 0), (100, 0), (6, semitones), (38, cents). */
  predicate IsBendSensitivityRpn(h: seq<RpnMessage>) {
    && |h| == 4
    && h[0] == RpnMessage(101, 0)
    && h[1] == RpnMessage(100, 0)
    && h[2].controller == 6
    && h[3].controller == 38
  }

  /** Controller 7: value 0..127 mapped linearly to -50.5..50.5 dB. */
  function VolumeGain(value: int): (r: real)
    ensures (r + 50.5) * 127.0 == value as real * 101.0
    ensures 0 <= value <= 127 ==> -50.5 <= r <= 50.5
  {
    value as real / 127.0 * 101.0 - 50.5
  }

  predicate PublishesSensitivity(outs: seq<Output>) {
    exists i :: 0 <= i < |outs| && outs[i].BendSensitivityChanged?
  }

  /** Controller 64: the pedal is down at 64 and above; lifting it releases every queued key. */
  function SustainChanged(st: State, value: int): (r: (State, seq<Output>))
    ensures value >= 64 ==> r == (st.(sustainOn := true), [])
    ensures value < 64 ==> r == (st.(sustainOn := false, held := []), ReleaseOutputs(st.held))
  {
    var pedal := st.(sustainOn := value >= 64);
    if value >= 64 then (pedal, []) else ReleaseHeld(pedal)
  }

  /**
   * Controllers 101, 100, 6 and 38: the message enters the history, and a
   * 38 that completes RPN 00 00 publishes semitones + cents / 100.
   */
  function RpnReceived(st: State, num: int, value: int): (r: (State, seq<Output>))
    ensures r.0 == st.(rpnHistory := PushRpn(st.rpnHistory, RpnMessage(num, value)), bendSensitivity := r.0.bendSensitivity)
    ensures var h := r.0.rpnHistory;
            if num == 38 && IsBendSensitivityRpn(h)
            then r.0.bendSensitivity == h[2].value as real + value as real / 100.0 && r.1 == [BendSensitivityChanged(r.0.bendSensitivity)]
            else r.0.bendSensitivity == st.bendSensitivity && r.1 == []
  {
    var history := PushRpn(st.rpnHistory, RpnMessage(num, value));
    var withHistory := st.(rpnHistory := history);
    if num == 38 && IsBendSensitivityRpn(history) then
      SetBendSensitivity(withHistory, 0.01 * history[3].value as real + history[2].value as real)
    else (withHistory, [])
  }

  /**
   * processControllerChanged: store the value; 64 is the sustain pedal,
   * 7 sets the gain, and 101, 100, 6, 38 go to the RPN history.
   */
  function ProcessControllerChanged(st: State, num: int, value: int): (r: (State, seq<Output>))
    ensures r.0.controllers == st.controllers[num := value]
    ensures num == 64 ==> r == SustainChanged(st.(controllers := r.0.controllers), value)
    ensures num == 7 ==> r == (st.(controllers := r.0.controllers), [GainSetting(VolumeGain(value))])
    ensures num in RpnControllers ==> r == RpnReceived(st.(controllers := r.0.controllers), num, value)
    ensures num != 64 && num != 7 && num !in RpnControllers ==> r == (st.(controllers := r.0.controllers), [])
  {
    var stored := st.(controllers := st.controllers[num := value]);
    if num == 64 then SustainChanged(stored, value)
    else if num == 7 then (stored, [GainSetting(VolumeGain(value))])
    else if num in RpnControllers then RpnReceived(stored, num, value)
    else (stored, [])
  }

  /** getBendValue: the last pitch bend received, -1 before any. */
  function GetBendValue(st: State): int {
    st.bend
  }

  /** getBendSensitivityValue: the last sensitivity published, -1 before any. */
  function GetBendSensitivity(st: State): real {
    st.bendSensitivity
  }

  /** getMonoPressure: the last channel pressure received, -1 before any. */
  function GetMonoPressure(st: State): int {
    st.monoPressure
  }

  /** getBendValue answers the value of the last bend event, -1 before any. */
  lemma GetBendValueReadsLast(st: State, ev: Event)
    ensures GetBendValue(Initial) == -1
    ensures GetBendValue(Dispatch(st, ev).0) == if ev.BendEvent? then ev.value else GetBendValue(st)
  {
  }

  /** getMonoPressure answers the value of the last channel-pressure event, -1 before any. */
  lemma GetMonoPressureReadsLast(st: State, ev: Event)
    ensures GetMonoPressure(Initial) == -1
    ensures GetMonoPressure(Dispatch(st, ev).0) == if ev.MonoPressureEvent? then ev.pressure else GetMonoPressure(st)
  {
  }

  /**
   * getBendSensitivityValue answers the last sensitivity published, -1
   * before any: an event that publishes none leaves it unchanged, and one
   * that publishes announces the value the getter then answers.
   */
  lemma GetBendSensitivityReadsLast(st: State, ev: Event)
    ensures GetBendSensitivity(Initial) == -1.0
    ensures var r := Dispatch(st, ev);
            && (!PublishesSensitivity(r.1) ==> GetBendSensitivity(r.0) == GetBendSensitivity(st))
            && (PublishesSensitivity(r.1) ==> r.1 == [BendSensitivityChanged(GetBendSensitivity(r.0))])
  {
    var r := Dispatch(st, ev);
    match ev
    case ControllerEvent(num, value) =>
      var stored := st.(controllers := st.controllers[num := value]);
      if num == 64 {
        if value < 64 { ReleaseOutputsNeverPublish(st.held); }
      } else if num in RpnControllers {
        assert r == RpnReceived(stored, num, value);
        if num == 38 && IsBendSensitivityRpn(r.0.rpnHistory) {
          assert r.1[0].BendSensitivityChanged?;
        }
      }
    case NoteEvent(note, vel) =>
      assert !PublishesSensitivity(r.1) by {
        if vel > 0 && note in st.held {
          assert ProcessKeyOff(st, note).1 == [] || ProcessKeyOff(st, note).1 == [StopSample]
              || ProcessKeyOff(st, note).1 == [KeyPlayed(note, 0)];
        }
      }
    case _ =>
  }

  /** Controller messages keep the invariant; the pedal rule keeps the queue tied to the pedal. */
  lemma ControllerChangedKeepsInv(st: State, num: int, value: int)
    requires Inv(st)
    ensures Inv(ProcessControllerChanged(st, num, value).0)
  {
    var stored := st.(controllers := st.controllers[num := value]);
    assert Inv(stored);
    if num == 64 {
    } else if num in RpnControllers {
      var h := PushRpn(stored.rpnHistory, RpnMessage(num, value));
      assert forall i :: 0 <= i < |h| ==> h[i].controller in RpnControllers by {
        var full := stored.rpnHistory + [RpnMessage(num, value)];
        assert forall i :: 0 <= i < |full| ==> full[i].controller in RpnControllers;
      }
      var withHistory := stored.(rpnHistory := h);
      assert Inv(withHistory);
      var r := RpnReceived(stored, num, value).0;
      assert r == withHistory.(bendSensitivity := r.bendSensitivity);
    }
  }

  /**
   * processBendSensitivityChanged: the getter answers the new value, no
   * other field moves, and the value is published once.
   */
  function SetBendSensitivity(st: State, semitones: real): (r: (State, seq<Output>))
    ensures GetBendSensitivity(r.0) == semitones
    ensures r.0 == st.(bendSensitivity := r.0.bendSensitivity)
    ensures Inv(st) ==> Inv(r.0)
    ensures r.1 == [BendSensitivityChanged(GetBendSensitivity(r.0))]
  {
    (st.(bendSensitivity := semitones), [BendSensitivityChanged(semitones)])
  }

  /** getControllerValue: the last value written, -1 for a controller never seen. */
  function GetControllerValue(st: State, num: int): (r: int)
    ensures num !in st.controllers ==> r == -1
  {
    if num in st.controllers then st.controllers[num] else -1
  }

  /** The controller store answers the last value written and forgets nothing else. */
  lemma ControllerReadsLastWrite(st: State, num: int, value: int, other: int)
    ensures GetControllerValue(ProcessControllerChanged(st, num, value).0, num) == value
    ensures other != num ==>
              GetControllerValue(ProcessControllerChanged(st, num, value).0, other) == GetControllerValue(st, other)
  {
  }

  /** Volume endpoints and monotonicity: 0 -> -50.5 dB, 127 -> 50.5 dB, increasing in between. */
  lemma VolumeGainRange(v1: int, v2: int)
    requires v1 < v2
    ensures VolumeGain(0) == -50.5 && VolumeGain(127) == 50.5
    ensures VolumeGain(v1) < VolumeGain(v2)
  {
  }

  /**
   * The bend sensitivity is published exactly when controller 38 follows
   * (101, 0), (100, 0), (6, s) in the history, and its value is then
   * s + c/100 semitones.
   */
  lemma BendSensitivityRule(st: State, num: int, value: int)
    requires Inv(st)
    ensures var r := ProcessControllerChanged(st, num, value);
            var h := st.rpnHistory;
            && (PublishesSensitivity(r.1) <==>
                  num == 38 && |h| >= 3 &&
                  h[|h| - 3] == RpnMessage(101, 0) && h[|h| - 2] == RpnMessage(100, 0) && h[|h| - 1].controller == 6)
            && (PublishesSensitivity(r.1) ==>
                  r.0.bendSensitivity == h[|h| - 1].value as real + value as real / 100.0)
            && (!PublishesSensitivity(r.1) ==> r.0.bendSensitivity == st.bendSensitivity)
  {
    var r := ProcessControllerChanged(st, num, value);
    var h := st.rpnHistory;
    var stored := st.(controllers := st.controllers[num := value]);
    if num == 64 {
      if value < 64 { ReleaseOutputsNeverPublish(st.held); }
    } else if num in RpnControllers {
      var m := RpnMessage(num, value);
      var h' := PushRpn(h, m);
      assert r == RpnReceived(stored, num, value);
      assert r.0.rpnHistory == h';
      if |h| >= 3 {
        assert h' == h[|h| - 3..] + [m];
        assert h'[0] == h[|h| - 3] && h'[1] == h[|h| - 2] && h'[2] == h[|h| - 1];
      } else {
        assert |h'| < 4;
      }
      if num == 38 && IsBendSensitivityRpn(h') {
        assert r.1 == [BendSensitivityChanged(r.0.bendSensitivity)];
        assert r.1[0].BendSensitivityChanged?;
      } else {
        assert r.1 == [];
      }
    } else {
      assert r.1 == [] || r.1 == [GainSetting(VolumeGain(value))];
    }
  }

  lemma ReleaseOutputsNeverPublish(keys: seq<int>)
    ensures !PublishesSensitivity(ReleaseOutputs(keys))
  {
  }

  // ---------------------------------------------------------------------
  // Event dispatch

  /** customEvent: route a posted event to its handler. */
  function Dispatch(st: State, ev: Event): (r: (State, seq<Output>))
    ensures ev.ControllerEvent? ==> r == ProcessControllerChanged(st, ev.controller, ev.value)
    ensures ev.NoteEvent? ==> r.0 == st.(held := r.0.held)
    ensures ev.NoteEvent? && ev.velocity > 0 ==> |r.1| >= 1 && r.1[|r.1| - 1] == KeyPlayed(ev.note, ev.velocity)
    ensures ev.PolyPressureEvent? ==> r == (st, [PolyPressureChanged(ev.note, ev.pressure)])
    ensures ev.MonoPressureEvent? ==>
              && GetMonoPressure(r.0) == ev.pressure
              && r.0 == st.(monoPressure := r.0.monoPressure)
              && r.1 == [MonoPressureChanged(GetMonoPressure(r.0))]
    ensures ev.BendEvent? ==>
              && GetBendValue(r.0) == ev.value
              && r.0 == st.(bend := r.0.bend)
              && r.1 == [BendChanged(GetBendValue(r.0))]
    ensures ev.ProgramEvent? ==> r == (st, [])
  {
    match ev
    case NoteEvent(note, vel) =>
      if vel > 0 then ProcessKeyOn(st, note, vel) else ProcessKeyOff(st, note)
    case ControllerEvent(num, value) => ProcessControllerChanged(st, num, value)
    case PolyPressureEvent(note, pressure) => (st, [PolyPressureChanged(note, pressure)])
    case MonoPressureEvent(pressure) => (st.(monoPressure := pressure), [MonoPressureChanged(pressure)])
    case BendEvent(value) => (st.(bend := value), [BendChanged(value)])
    case ProgramEvent(_) => (st, [])
  }

  /** The RPN history after one event: only RPN controller events enter it. */
  function NextHistory(history: seq<RpnMessage>, ev: Event): seq<RpnMessage> {
    if ev.ControllerEvent? && ev.controller in RpnControllers
    then PushRpn(history, RpnMessage(ev.controller, ev.value))
    else history
  }

  lemma DispatchRpnHistory(st: State, ev: Event)
    ensures Dispatch(st, ev).0.rpnHistory == NextHistory(st.rpnHistory, ev)
  {
    match ev
    case NoteEvent(note, vel) =>
      if vel > 0 && note in st.held {
        assert ProcessKeyOff(st, note).0.rpnHistory == st.rpnHistory;
      }
    case ControllerEvent(num, value) =>
    case _ =>
  }

  lemma DispatchKeepsInv(st: State, ev: Event)
    requires Inv(st)
    ensures Inv(Dispatch(st, ev).0)
  {
    if ev.ControllerEvent? { ControllerChangedKeepsInv(st, ev.controller, ev.value); }
  }

  /** Events processed in arrival order. */
  function Run(st: State, evs: seq<Event>): (r: (State, seq<Output>))
    decreases |evs|
  {
    if |evs| == 0 then (st, [])
    else
      var (st1, out1) := Dispatch(st, evs[0]);
      var (st2, out2) := Run(st1, evs[1..]);
      (st2, out1 + out2)
  }

  /** The RPN messages among a list of events. */
  function RpnMessages(evs: seq<Event>): seq<RpnMessage>
    decreases |evs|
  {
    if |evs| == 0 then []
    else
      var rest := RpnMessages(evs[1..]);
      if evs[0].ControllerEvent? && evs[0].controller in RpnControllers
      then [RpnMessage(evs[0].controller, evs[0].value)] + rest
      else rest
  }

  lemma {:induction false} LastNAppend<T>(a: seq<T>, b: seq<T>, n: nat)
    ensures LastN(LastN(a, n) + b, n) == LastN(a + b, n)
  {
    var la := LastN(a, n);
    if |a| > n {
      assert la == a[|a| - n..];
      assert (a + b)[|a + b| - |LastN(a + b, n)|..] == (la + b)[|la + b| - |LastN(a + b, n)|..];
    }
  }

  lemma {:induction false} RunKeepsInv(st: State, evs: seq<Event>)
    requires Inv(st)
    ensures Inv(Run(st, evs).0)
    decreases |evs|
  {
    if |evs| > 0 {
      DispatchKeepsInv(st, evs[0]);
      RunKeepsInv(Dispatch(st, evs[0]).0, evs[1..]);
    }
  }

  /** The RPN history after a run of events, event by event. */
  function HistoryAfter(history: seq<RpnMessage>, evs: seq<Event>): seq<RpnMessage>
    decreases |evs|
  {
    if |evs| == 0 then history else HistoryAfter(NextHistory(history, evs[0]), evs[1..])
  }

  lemma {:induction false} RunHistory(st: State, evs: seq<Event>)
    ensures Run(st, evs).0.rpnHistory == HistoryAfter(st.rpnHistory, evs)
    decreases |evs|
  {
    if |evs| > 0 {
      RunCons(st, evs);
      DispatchRpnHistory(st, evs[0]);
      RunHistory(Dispatch(st, evs[0]).0, evs[1..]);
    }
  }

  lemma {:induction false} HistoryAfterIsLastFour(history: seq<RpnMessage>, evs: seq<Event>)
    requires |history| <= 4
    ensures HistoryAfter(history, evs) == LastN(history + RpnMessages(evs), 4)
    decreases |evs|
  {
    if |evs| == 0 {
      assert history + RpnMessages(evs) == history;
    } else {
      var ev := evs[0];
      var next := NextHistory(history, ev);
      var rest := RpnMessages(evs[1..]);
      assert HistoryAfter(history, evs) == HistoryAfter(next, evs[1..]);
      HistoryAfterIsLastFour(next, evs[1..]);
      if ev.ControllerEvent? && ev.controller in RpnControllers {
        var m := RpnMessage(ev.controller, ev.value);
        assert RpnMessages(evs) == [m] + rest;
        LastFourPush(history, m, rest);
      } else {
        assert RpnMessages(evs) == rest;
      }
    }
  }

  lemma LastFourPush(history: seq<RpnMessage>, m: RpnMessage, rest: seq<RpnMessage>)
    requires |history| <= 4
    ensures LastN(PushRpn(history, m) + rest, 4) == LastN(history + ([m] + rest), 4)
  {
    LastNAppend(history + [m], rest, 4);
    assert history + [m] + rest == history + ([m] + rest);
  }

  /**
   * The RPN history after any run of events is the last four RPN messages
   * received; controllers 64, 7 and all others never enter it.
   */
  lemma RpnHistoryIsLastFour(st: State, evs: seq<Event>)
    requires |st.rpnHistory| <= 4
    ensures Run(st, evs).0.rpnHistory == LastN(st.rpnHistory + RpnMessages(evs), 4)
  {
    RunHistory(st, evs);
    HistoryAfterIsLastFour(st.rpnHistory, evs);
  }

  /** One step of Run: the first event, then the rest from the state it leaves. */
  lemma RunCons(st: State, evs: seq<Event>)
    requires |evs| > 0
    ensures var d := Dispatch(st, evs[0]);
            var rest := Run(d.0, evs[1..]);
            Run(st, evs) == (rest.0, d.1 + rest.1)
  {
  }

  // ---------------------------------------------------------------------
  // stopAll

  /**
   * stopAll as written: while the queue is not empty, take its first key
   * and pass it to processKeyOff; then stop all voices. Modelled with a
   * step budget: None means the budget ran out with keys still queued.
   */
  function StopAllAsWritten(st: State, fuel: nat): (r: Option<(State, seq<Output>)>)
    ensures r.Some? ==> r.value.0 == st.(held := [])
    ensures r.Some? ==> |r.value.1| >= 1 && r.value.1[|r.value.1| - 1] == StopVoices
    decreases fuel
  {
    if |st.held| == 0 then Some((st, [StopVoices]))
    else if fuel == 0 then None
    else
      var (st1, out1) := ProcessKeyOff(st.(held := st.held[1..]), st.held[0]);
      match StopAllAsWritten(st1, fuel - 1)
      case None => None
      case Some(done) => Some((done.0, out1 + done.1))
  }

  /**
   * With the pedal down, processKeyOff puts back every key the loop takes
   * out, so the queue never shrinks and stopAll never returns, whatever
   * the budget.
   */
  lemma {:induction false} StopAllAsWrittenDiverges(st: State, fuel: nat)
    requires Inv(st) && st.sustainOn && |st.held| > 0
    ensures StopAllAsWritten(st, fuel).None?
    decreases fuel
  {
    if fuel > 0 {
      var st1 := ProcessKeyOff(st.(held := st.held[1..]), st.held[0]).0;
      RequeueFirst(st);
      StopAllAsWrittenDiverges(st1, fuel - 1);
    }
  }

  /** One turn of the written loop with the pedal down moves the oldest key to the back of the queue. */
  lemma RequeueFirst(st: State)
    requires Inv(st) && st.sustainOn && |st.held| > 0
    ensures var st1 := ProcessKeyOff(st.(held := st.held[1..]), st.held[0]).0;
            && st1.held == st.held[1..] + [st.held[0]]
            && st1.sustainOn && Inv(st1)
  {
    var k := st.held[0];
    var st1 := ProcessKeyOff(st.(held := st.held[1..]), k).0;
    assert k !in st.held[1..];
    assert st1.held == st.held[1..] + [k];
    forall i, j | 0 <= i < j < |st1.held| ensures st1.held[i] != st1.held[j] {
      if j == |st1.held| - 1 {
        assert st1.held[i] == st.held[i + 1];
      } else {
        assert st1.held[i] == st.held[i + 1] && st1.held[j] == st.held[j + 1];
      }
    }
  }

  /** A concrete run that hangs: pedal down, key 60 played and released, then stopAll. */
  lemma StopAllHangsAfterSustainedKey(fuel: nat)
    ensures var st := Run(Initial, [ControllerEvent(64, 127), NoteEvent(60, 100), NoteEvent(60, 0)]).0;
            st.held == [60] && st.sustainOn && StopAllAsWritten(st, fuel).None?
  {
    var evs := [ControllerEvent(64, 127), NoteEvent(60, 100), NoteEvent(60, 0)];
    var st := Run(Initial, evs).0;
    assert st.held == [60];
    InitialSatisfiesInv();
    StopAllAsWrittenDiverges(st, fuel);
  }

  /**
   * stopAll as evidently intended: release every queued key, oldest
   * first, whatever the pedal, then stop all voices. The pedal state is
   * kept.
   */
  function StopAll(st: State): (r: (State, seq<Output>))
    ensures r.0 == st.(held := [])
    ensures r.1 == ReleaseOutputs(st.held) + [StopVoices]
    ensures Inv(st) ==> Inv(r.0) && forall i :: 0 <= i < |st.held| ==> r.1[i] == KeyPlayed(st.held[i], 0)
  {
    var (released, outs) := ReleaseHeld(st.(sustainOn := false));
    (released.(sustainOn := st.sustainOn), outs + [StopVoices])
  }

  /** With the pedal up, the written loop terminates and agrees with StopAll. */
  lemma {:induction false} StopAllAgreesWithoutSustain(st: State)
    requires !st.sustainOn
    ensures StopAllAsWritten(st, |st.held|) == Some(StopAll(st))
    decreases |st.held|
  {
    if |st.held| > 0 {
      var k := st.held[0];
      var st1 := st.(held := st.held[1..]);
      StopAllAgreesWithoutSustain(st1);
      var off := ProcessKeyOff(st1, k);
      assert off == (st1, [KeyOffOutput(k)]);
      var done := StopAll(st1);
      assert StopAllAsWritten(st, |st.held|) == Some((done.0, off.1 + done.1));
      assert ReleaseOutputs(st.held) == [KeyOffOutput(k)] + ReleaseOutputs(st.held[1..]);
      assert off.1 + done.1 == ReleaseOutputs(st.held) + [StopVoices];
    } else {
      assert st.held == [] && st.(held := []) == st;
      assert ReleaseOutputs(st.held) + [StopVoices] == [StopVoices];
    }
  }

  // ---------------------------------------------------------------------
  // Scenarios

  /**
   * Sustain round trip: a key released with the pedal down is not
   * released until the pedal lifts, which releases it exactly once and
   * empties the queue.
   */
  lemma SustainRoundTrip()
    ensures var r1 := Run(Initial, [NoteEvent(60, 100), ControllerEvent(64, 127), NoteEvent(60, 0)]);
            var r2 := Run(r1.0, [ControllerEvent(64, 0)]);
            && r1.1 == [KeyPlayed(60, 100)]
            && r1.0.held == [60]
            && r2.1 == [KeyPlayed(60, 0)]
            && r2.0.held == []
  {
    var r1 := Run(Initial, [NoteEvent(60, 100), ControllerEvent(64, 127), NoteEvent(60, 0)]);
    assert r1.0.held == [60];
    assert ReleaseOutputs([60]) == [KeyPlayed(60, 0)];
  }

  /** One RPN controller value, seen through the RPN handler alone. */
  lemma RpnStep(st: State, num: int, value: int)
    requires num in RpnControllers
    ensures var d := ProcessControllerChanged(st, num, value);
            && d.0.rpnHistory == PushRpn(st.rpnHistory, RpnMessage(num, value))
            && (num != 38 || !IsBendSensitivityRpn(d.0.rpnHistory) ==>
                  |d.1| == 0 && d.0.bendSensitivity == st.bendSensitivity)
            && (num == 38 && IsBendSensitivityRpn(d.0.rpnHistory) ==>
                  d.0.bendSensitivity == d.0.rpnHistory[2].value as real + value as real / 100.0 &&
                  |d.1| == 1 && d.1[0] == BendSensitivityChanged(d.0.bendSensitivity))
  {
    var stored := st.(controllers := st.controllers[num := value]);
    assert ProcessControllerChanged(st, num, value) == RpnReceived(stored, num, value);
  }

  /** Four RPN messages in a row leave exactly those four in the history. */
  lemma PushFour(h: seq<RpnMessage>, m1: RpnMessage, m2: RpnMessage, m3: RpnMessage, m4: RpnMessage)
    requires |h| <= 4
    ensures PushRpn(PushRpn(PushRpn(PushRpn(h, m1), m2), m3), m4) == [m1, m2, m3, m4]
  {
    var h1 := PushRpn(h, m1);
    var h2 := PushRpn(h1, m2);
    var h3 := PushRpn(h2, m3);
    assert h2 == LastN(h + [m1, m2], 4) by {
      LastNAppend(h + [m1], [m2], 4);
      assert h + [m1] + [m2] == h + [m1, m2];
    }
    assert h3 == LastN(h + [m1, m2, m3], 4) by {
      LastNAppend(h + [m1, m2], [m3], 4);
      assert h + [m1, m2] + [m3] == h + [m1, m2, m3];
    }
    var all := h + [m1, m2, m3, m4];
    assert PushRpn(h3, m4) == LastN(all, 4) by {
      LastNAppend(h + [m1, m2, m3], [m4], 4);
      assert h + [m1, m2, m3] + [m4] == all;
    }
    assert |LastN(all, 4)| == 4;
    assert all[|all| - 4..] == [m1, m2, m3, m4];
  }

  /**
   * From any state, RPN 00 00 with s semitones and c cents (controllers
   * 101, 100, 6, 38 in this order) publishes s + c/100 once, on the last
   * message, whatever the history held before.
   */
  lemma BendSensitivityScenario(st: State, semitones: int, cents: int)
    requires |st.rpnHistory| <= 4
    ensures var a := ProcessControllerChanged(st, 101, 0);
            var b := ProcessControllerChanged(a.0, 100, 0);
            var c := ProcessControllerChanged(b.0, 6, semitones);
            var d := ProcessControllerChanged(c.0, 38, cents);
            && |a.1| == 0 && |b.1| == 0 && |c.1| == 0
            && d.0.bendSensitivity == semitones as real + cents as real / 100.0
            && |d.1| == 1 && d.1[0] == BendSensitivityChanged(d.0.bendSensitivity)
  {
    var a := ProcessControllerChanged(st, 101, 0);
    RpnStep(st, 101, 0);
    var b := ProcessControllerChanged(a.0, 100, 0);
    RpnStep(a.0, 100, 0);
    var c := ProcessControllerChanged(b.0, 6, semitones);
    RpnStep(b.0, 6, semitones);
    var d := ProcessControllerChanged(c.0, 38, cents);
    RpnStep(c.0, 38, cents);
    PushFour(st.rpnHistory, RpnMessage(101, 0), RpnMessage(100, 0), RpnMessage(6, semitones), RpnMessage(38, cents));
    assert IsBendSensitivityRpn(d.0.rpnHistory) && d.0.rpnHistory[2].value == semitones;
  }

  /** With the two selectors swapped nothing is published and the sensitivity stays. */
  lemma BendSensitivityNeedsOrder(st: State, semitones: int, cents: int)
    requires |st.rpnHistory| <= 4
    ensures var a := ProcessControllerChanged(st, 100, 0);
            var b := ProcessControllerChanged(a.0, 101, 0);
            var c := ProcessControllerChanged(b.0, 6, semitones);
            var d := ProcessControllerChanged(c.0, 38, cents);
            && |a.1| == 0 && |b.1| == 0 && |c.1| == 0 && |d.1| == 0
            && d.0.bendSensitivity == st.bendSensitivity
  {
    var a := ProcessControllerChanged(st, 100, 0);
    RpnStep(st, 100, 0);
    var b := ProcessControllerChanged(a.0, 101, 0);
    RpnStep(a.0, 101, 0);
    var c := ProcessControllerChanged(b.0, 6, semitones);
    RpnStep(b.0, 6, semitones);
    var d := ProcessControllerChanged(c.0, 38, cents);
    RpnStep(c.0, 38, cents);
    PushFour(st.rpnHistory, RpnMessage(100, 0), RpnMessage(101, 0), RpnMessage(6, semitones), RpnMessage(38, cents));
    assert !IsBendSensitivityRpn(d.0.rpnHistory);
  }
}
