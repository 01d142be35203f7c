# Polyphone editor core, modelled in Dafny

This project models the editing and playback logic at the core of Polyphone,
a SoundFont 2 editor, and proves properties of that model. It covers five
parts:

- **VoiceParam** is the table of generator values of one playing voice. It is
  filled from the sample header, the instrument zone and the preset zone under
  the global-zone rule (sections 7.5 and 7.9 of the SoundFont 2.04
  specification). It answers `getDouble`, `getInteger` and `getPosition`, and
  has setters for sample preview.
- **MidiDevice** decodes MIDI 1.0 channel-voice messages into events. Its state
  machine covers the sustain pedal and its queue of keys to release, the RPN
  history that recognises RPN 00 00 (pitch bend sensitivity), the controller
  store, the volume controller and `stopAll`.
- **ModulatorEditor** is the list logic of the modulator panel:
  - copying a modulator list (`getModList`), which renumbers indexes from 0,
    remaps links and repairs broken ones;
  - pasting it into a division, with the preset-level destination rules;
  - clearing links when modulators are deleted;
  - the coarse offsets added to the selection in `setIds`;
  - the defaults of a new modulator.
- **TreeViewMenu** is the tree's context menu: which actions a selection
  enables, bulk rename in its five modes with the 20-character name limit,
  associating samples or instruments, and replacing a division's sample or
  instrument.
- **GrandOrgueDataThrough** is the bookkeeping of a GrandOrgue import:
  - the maximum gain per rank and overall;
  - the soundfont ids created for each GrandOrgue instrument and sample file;
  - the sample names already used, compared without regard to case.

The soundfont store appears only as what the operations read and write. A
zone is the list of attributes it sets. The modulator list of a division is a
map from modulator index to modulator. Fixed-width C++ and Qt integer types
are subset types of `int`, and their casts wrap around explicitly
(`IntCasts`).

Files: `wrappers.dfy` (Option), `int_casts.dfy`, `attributes.dfy` (generator
numbers from section 8.1.2 of SoundFont 2.04, attribute kinds, element types,
sample links), `voice_param.dfy`, `midi_device.dfy`, `modulator_editor.dfy`,
`tree_view_menu.dfy`, `grandorgue_data_through.dfy`.

## Model

| member | source | states |
|---|---|---|
| IntCasts.ToUint16 | sources/sound_engine/voiceparam.cpp:203 | a cast to quint16 gives the 16-bit value congruent to its argument, and leaves values already in range unchanged |
| IntCasts.ToInt16 | sources/sound_engine/voiceparam.cpp:231 | a cast to qint16 gives the signed 16-bit value congruent to its argument, and leaves in-range values unchanged |
| IntCasts.ToInt32 | sources/sound_engine/voiceparam.cpp:138-140 | a cast to qint32 gives the signed 32-bit value congruent to its argument |
| IntCasts.ToUint32 | sources/sound_engine/voiceparam.cpp:307 | a cast to quint32 gives the unsigned 32-bit value congruent to its argument |
| IntCasts.UnsignedSignedRoundTrip | sources/sound_engine/voiceparam.cpp:138-140 | storing a quint32 sample length or loop point in a qint32 loses nothing: casting back gives the header value; it is negative exactly when the value is 2^31 or more |
| IntCasts.QRound | sources/sound_engine/voiceparam.cpp:231 | qRound (as in Qt 5) returns the integer within half a unit of its argument, so halves round up |
| Attributes.LinkPan | sources/sound_engine/voiceparam.cpp:211-225 | a right sample (ROM or not) pans +500, a left one -500, any other 0; the pan is positive exactly for right and negative exactly for left |
| VoiceParams.PrepareParameters | sources/sound_engine/voiceparam.cpp:61-131 | there is exactly one empty slot for each generator of the slot list, and none for instrument, key range, velocity range, sampleID or unused numbers |
| VoiceParams.ApplyAttrs | sources/sound_engine/voiceparam.cpp:151-155 | after the attribute loop, each slotted kind that is listed and not shadowed holds the value of its last occurrence in the chosen tier; other slots are unchanged and no slot is added |
| VoiceParams.ReadZone | sources/sound_engine/voiceparam.cpp:143-169 | after reading a zone, each slot's tier holds the zone's own last value, else the global zone's, else stays as it was (global-zone rule) |
| VoiceParams.SampleSlots | sources/sound_engine/voiceparam.cpp:133-136 | reading the sample sets only the instrument tier of overridingRootKey, to the sample's original pitch |
| VoiceParams.InstSlots | sources/sound_engine/voiceparam.cpp:38-42 | an instrument zone overrides the sample's root key; with no instrument zone only the sample's value is present |
| VoiceParams.NewVoiceParam | sources/sound_engine/voiceparam.cpp:31-52 | construction is well formed; each slot's tiers are what the instrument and preset zones give; pitch correction is kept; length and loop points read back as the header values; the preset number is the preset's, or -1 with no preset zone |
| VoiceParams.ZoneShadowsGlobal | sources/sound_engine/voiceparam.cpp:163-168 | a kind the zone lists takes the zone's value whatever the global zone says; only unlisted kinds take the global value |
| VoiceParams.ZonesWriteTheirTier | sources/sound_engine/voiceparam.cpp:143-197 | the instrument zone writes only the instrument tier and the preset zone only the preset tier; without a preset zone every preset tier is empty |
| VoiceParams.UnslottedTypesIgnored | sources/sound_engine/voiceparam.cpp:259-280 | a kind without a slot is ignored whatever the zones list: getDouble answers 0.0, getInteger 0, and wPreset answers the preset number or -1 |
| VoiceParams.FineTuneIsCumulative | sources/sound_engine/voiceparam.cpp:268-274 | getInteger adds the sample's pitch correction to the resolved fine tune and to no other generator |
| VoiceParams.LengthPosition | sources/sound_engine/voiceparam.cpp:301-310 | the resolved length never exceeds the sample header's length |
| VoiceParams.BoundedPosition | sources/sound_engine/voiceparam.cpp:288-300 | a start or loop point after its offset lies within [0, resolved length] |
| VoiceParams.GetPosition | sources/sound_engine/voiceparam.cpp:282-342 | the length is at most the sample length; start and loop points are at most the resolved length; other kinds answer 0 |
| VoiceParams.GetDouble | sources/sound_engine/voiceparam.cpp:259-266 | on a prepared voice, a generator with a slot reads its resolved value and every other attribute reads 0.0 |
| VoiceParams.GetInteger | sources/sound_engine/voiceparam.cpp:268-280 | on a prepared voice, a generator with a slot reads its resolved value, fine tune adds the sample's pitch correction to it, wPreset reads the preset number, and every other attribute reads 0 |
| VoiceParams.LengthWithinSample | sources/sound_engine/voiceparam.cpp:301-310 | for any zones, the voice's resolved length is at most the header's length |
| VoiceParams.LengthOnlyShrinks | sources/sound_engine/voiceparam.cpp:301-310 | the end clamp is asymmetric: a negative end offset shortens the sample (never below 0), a positive one never lengthens it |
| VoiceParams.PositionsClampedToLength | sources/sound_engine/voiceparam.cpp:288-336 | start, loop start and loop end are their base point plus offset, clamped to [0, resolved length] |
| VoiceParams.PrepareForSmpl | sources/sound_engine/voiceparam.cpp:199-226 | sample preview sets the key as exclusive class, a release of -2786 timecents and the pan of the stereo role; these three instrument tiers change and nothing else does |
| VoiceParams.ExclusiveClassPerKey | sources/sound_engine/voiceparam.cpp:201-204 | key -1 becomes class 65535, and two keys in -1..127 share a class only when equal, so only replaying the same key mutes the previous voice |
| VoiceParams.SetPan | sources/sound_engine/voiceparam.cpp:228-233 | setPan stores ten times the percent value, rounded by qRound and cast to qint16 |
| VoiceParams.SetLoopMode | sources/sound_engine/voiceparam.cpp:235-240 | setLoopMode stores the mode in the instrument tier of sampleModes |
| VoiceParams.SetFineTune | sources/sound_engine/voiceparam.cpp:252-257 | setFineTune stores the value in the instrument tier of fineTune |
| VoiceParams.SetLoopStart | sources/sound_engine/voiceparam.cpp:242-245 | the stored loop start reads back as the given quint32 and nothing else changes |
| VoiceParams.SetLoopEnd | sources/sound_engine/voiceparam.cpp:247-250 | the stored loop end reads back as the given quint32 and nothing else changes |
| VoiceParams.SetInstTouchesOnlyItsSlot | sources/sound_engine/voiceparam.cpp:228-257 | writing one instrument tier changes no query of another kind, and moves no position unless the slot is a sample offset |
| VoiceParams.SetFineTuneEffect | sources/sound_engine/voiceparam.cpp:252-257 | after setFineTune, getInteger(fineTune) is the pitch correction plus the resolved new fine tune; all other queries and positions are unchanged |
| VoiceParams.SetLoopStartEffect | sources/sound_engine/voiceparam.cpp:242-245 | setLoopStart moves only the loop-start position, which becomes the new start plus its offset clamped to the length |
| VoiceParams.SetLoopEndEffect | sources/sound_engine/voiceparam.cpp:247-250 | setLoopEnd moves only the loop-end position, which becomes the new end plus its offset clamped to the length |
| MidiDevice.Decode | sources/context/mididevice.cpp:40-89 | a message gives no event exactly when its status is a data byte or 0xF0 and above; a note off, or a note on of velocity 0, gives a note of velocity 0 |
| MidiDevice.DecodeEncode | sources/context/mididevice.cpp:40-89 | decoding inverts encoding: every event with data-byte fields, on every channel, decodes back to itself |
| MidiDevice.DecodeIgnores | sources/context/mididevice.cpp:46-76 | the decoder ignores the channel nibble, a note on of velocity 0 means note off, and bend ignores its second data byte |
| MidiDevice.ShortMessagesDecode | sources/context/mididevice.cpp:52-55 | a two-byte note off decodes to a note of velocity 0 and a two-byte bend to a bend, since neither reads a third byte |
| MidiDevice.InitialSatisfiesInv | sources/context/mididevice.cpp:91-99 | the new device satisfies the state invariant; every controller reads -1, and bend, bend sensitivity and mono pressure are -1 |
| MidiDevice.ProcessKeyOff | sources/context/mididevice.cpp:273-296 | key -1 stops the sample preview; with sustain on a key is queued once and nothing is emitted; otherwise the key is released; the invariant is kept |
| MidiDevice.ProcessKeyOn | sources/context/mididevice.cpp:259-271 | a key on always ends with the key played at its velocity, and keeps the invariant |
| MidiDevice.KeyOnOfHeldKey | sources/context/mididevice.cpp:265-267 | replaying a key the pedal holds releases nothing and leaves the state unchanged, because a queued key implies the pedal is down |
| MidiDevice.ReleaseHeld | sources/context/mididevice.cpp:221-226 | with the pedal up, the release loop empties the queue and releases each queued key once, oldest first |
| MidiDevice.PushRpn | sources/context/mididevice.cpp:238-240 | the RPN history keeps the last four messages received |
| MidiDevice.SustainChanged | sources/context/mididevice.cpp:217-227 | the pedal is down exactly from value 64; pressing it emits nothing; lifting it releases every queued key and empties the queue |
| MidiDevice.RpnReceived | sources/context/mididevice.cpp:234-253 | an RPN controller enters the history; a 38 completing RPN 00 00 publishes semitones plus cents/100 once; otherwise the sensitivity is kept and nothing is emitted |
| MidiDevice.ProcessControllerChanged | sources/context/mididevice.cpp:211-257 | every value is stored; 64 drives the pedal, 7 sets the gain, 101/100/6/38 go to the RPN history, and other controllers emit nothing |
| MidiDevice.ControllerChangedKeepsInv | sources/context/mididevice.cpp:211-257 | controller messages keep the invariant (queue tied to the pedal, no duplicates, at most four RPN messages) |
| MidiDevice.SetBendSensitivity | sources/context/mididevice.cpp:326-335 | after the setter, getBendSensitivityValue answers the new value, no other field of the device changes, the invariant is kept, and the value read back is announced once |
| MidiDevice.GetControllerValue | sources/context/mididevice.cpp:366-372 | a controller never received reads -1 |
| MidiDevice.GetBendValueReadsLast | sources/context/mididevice.cpp:374-380 | getBendValue reads the value of the last bend event, -1 before any |
| MidiDevice.GetBendSensitivityReadsLast | sources/context/mididevice.cpp:382-388 | getBendSensitivityValue reads -1 before any publication; an event that publishes no sensitivity leaves it unchanged, and one that publishes announces exactly the value then read |
| MidiDevice.GetMonoPressureReadsLast | sources/context/mididevice.cpp:390-396 | getMonoPressure reads the value of the last channel-pressure event, -1 before any |
| MidiDevice.ControllerReadsLastWrite | sources/context/mididevice.cpp:213-215 | a controller reads the last value written to it, and writing one controller leaves the others unchanged |
| MidiDevice.VolumeGainRange | sources/context/mididevice.cpp:228-233 | controller 7 maps 0 to -50.5 dB and 127 to +50.5 dB, strictly increasing |
| MidiDevice.VolumeGain | sources/context/mididevice.cpp:228-233 | the gain rises 101 dB over 127 controller steps from -50.5 dB at 0, and stays within -50.5..50.5 dB for values 0..127 |
| MidiDevice.BendSensitivityRule | sources/context/mididevice.cpp:234-253 | a controller message publishes a sensitivity exactly when it is a 38 following (101,0), (100,0), (6,s); the value is then s + c/100, and otherwise the sensitivity is unchanged |
| MidiDevice.Dispatch | sources/context/mididevice.cpp:163-209 | a controller event goes to processControllerChanged; a note event changes only the pedal queue and a note-on ends with the key played; poly pressure is forwarded without changing anything; mono pressure and bend change only what getMonoPressure and getBendValue then answer, and announce it; a program change does nothing |
| MidiDevice.DispatchRpnHistory | sources/context/mididevice.cpp:163-209 | only controller events of 101, 100, 6 or 38 change the RPN history |
| MidiDevice.DispatchKeepsInv | sources/context/mididevice.cpp:163-209 | every event keeps the invariant |
| MidiDevice.RunKeepsInv | sources/context/mididevice.cpp:163-209 | every reachable state satisfies the invariant |
| MidiDevice.RpnHistoryIsLastFour | sources/context/mididevice.cpp:234-240 | after any run of events, the RPN history is the last four RPN messages received |
| MidiDevice.StopAllAsWrittenDiverges | sources/context/mididevice.cpp:353-357 | with the pedal down and a key queued, stopAll's loop re-queues every key it takes, so no step budget is enough |
| MidiDevice.RequeueFirst | sources/context/mididevice.cpp:353-357 | with the pedal down, one turn of the loop moves the oldest queued key to the back of the queue and keeps the invariant |
| MidiDevice.StopAllAsWritten | sources/context/mididevice.cpp:353-357 | when the written loop does end, the queue is empty, no other field has changed, and the last output stops all voices |
| MidiDevice.StopAllHangsAfterSustainedKey | sources/context/mididevice.cpp:353-357 | pedal down, key 60 played and released, then stopAll: the loop never ends |
| MidiDevice.StopAll | sources/context/mididevice.cpp:353-364 | stopAll as intended: the queue is emptied, each queued key is released once, oldest first, then all voices stop, and the invariant is kept |
| MidiDevice.StopAllAgreesWithoutSustain | sources/context/mididevice.cpp:353-364 | with the pedal up, the written loop ends within one step per key and gives the same state and outputs as the intended stopAll |
| MidiDevice.SustainRoundTrip | sources/context/mididevice.cpp:217-227 | a key released under the pedal is not released until the pedal lifts, which releases it exactly once and empties the queue |
| MidiDevice.BendSensitivityScenario | sources/context/mididevice.cpp:241-251 | from any state, controllers 101=0, 100=0, 6=s, 38=c publish s + c/100 once, on the last message only |
| MidiDevice.BendSensitivityNeedsOrder | sources/context/mididevice.cpp:244-247 | with 100 and 101 swapped, nothing is published and the sensitivity is unchanged |
| ModulatorEditor.ModType | sources/editor/modulator/modulatoreditor.cpp:160-177 | only instruments, presets and their zones have a modulator list, and each maps to a modulator element type |
| ModulatorEditor.ModTypeInverse | sources/editor/modulator/modulatoreditor.cpp:266-283 | the division-to-modulator-list mapping is one-to-one |
| ModulatorEditor.Distinct | sources/editor/modulator/modulatoreditor.cpp:452-456 | the index list holds each index read exactly once |
| ModulatorEditor.RenumberDest | sources/editor/modulator/modulatoreditor.cpp:462-470 | a link to a copied modulator is renumbered to that modulator's position in the index list; a link to one left behind becomes fineTune; other destinations are kept |
| ModulatorEditor.Renumber | sources/editor/modulator/modulatoreditor.cpp:458-476 | the first pass changes only index and destination; each index becomes its position in the index list |
| ModulatorEditor.RepairSources | sources/editor/modulator/modulatoreditor.cpp:478-497 | the second pass clears the index of a link source that no other modulator feeds, and changes nothing else |
| ModulatorEditor.GetModList | sources/editor/modulator/modulatoreditor.cpp:414-500 | the copy has one modulator per one read; amount, amount source and transform are kept; the source is kept, or only its link index is cleared |
| ModulatorEditor.GetModListIndexes | sources/editor/modulator/modulatoreditor.cpp:452-476 | new indexes count from 0 without gaps, and two modulators share a new index exactly when they shared the old one |
| ModulatorEditor.GetModListLinks | sources/editor/modulator/modulatoreditor.cpp:462-470 | a link to another copied modulator still points at it under the new numbering; a link out of the copy becomes fineTune; non-links are kept |
| ModulatorEditor.GetModListHasNoBrokenLinks | sources/editor/modulator/modulatoreditor.cpp:462-470 | after the copy every link points at a modulator of the list |
| ModulatorEditor.GetModListLinkSourcesFed | sources/editor/modulator/modulatoreditor.cpp:478-497 | after the copy a modulator keeps a link source only if another modulator links to it; an unfed link source has its index cleared |
| ModulatorEditor.GetModListPositions | sources/editor/modulator/modulatoreditor.cpp:472-473 | with distinct indexes read, each modulator's new index is its position in the list |
| ModulatorEditor.Shift | sources/editor/modulator/modulatoreditor.cpp:571-578 | pasting moves a modulator's index and link destination by the first allocated index, and keeps everything else |
| ModulatorEditor.PasteMod | sources/editor/modulator/modulatoreditor.cpp:515-597 | nothing happens for an empty list or a non-division; at preset level a forbidden destination rejects the whole paste; otherwise the store gains exactly the allocated indexes, the old modulators are untouched, and each new one is the shifted copy |
| ModulatorEditor.CopyPasteKeepsLinks | sources/editor/modulator/modulatoreditor.cpp:571-578 | copy then paste keeps the link structure: a modulator linked to another copied modulator is linked to that modulator's new index |
| ModulatorEditor.PasteShiftsLinks | sources/editor/modulator/modulatoreditor.cpp:574-576 | a pasted link to the j-th pasted modulator points at the index allocated to it |
| ModulatorEditor.PresetRuleOnlyAtPresetLevel | sources/editor/modulator/modulatoreditor.cpp:530-561 | pasting into an instrument or instrument zone is never rejected; into a preset it is rejected exactly when some destination is forbidden there |
| ModulatorEditor.ClearLinksTo | sources/editor/modulator/modulatoreditor.cpp:386-401 | clearing links before a delete removes no modulator |
| ModulatorEditor.DeleteModsEffect | sources/editor/modulator/modulatoreditor.cpp:369-406 | deleting removes exactly the selected modulators, resets to 0 each destination that linked to one of them, and changes nothing else |
| ModulatorEditor.DeleteMods | sources/editor/modulator/modulatoreditor.cpp:369-404 | deleting adds no modulator and leaves none of the selected ones |
| ModulatorEditor.NoLinkToDeleted | sources/editor/modulator/modulatoreditor.cpp:384-404 | after a delete no remaining modulator links to a deleted one |
| ModulatorEditor.RowAfterDelete | sources/editor/modulator/modulatoreditor.cpp:408-411 | the row selected after a delete is the old row if it still exists, else the last remaining row; that is -1 when every row was deleted, and the row stays -1 when none was current |
| ModulatorEditor.AddCoarseOffsets | sources/editor/modulator/modulatoreditor.cpp:142-149 | the selection keeps its attributes in order and gains exactly the coarse counterpart of each fine offset selected, at most four |
| ModulatorEditor.CoarseOf | sources/editor/modulator/modulatoreditor.cpp:142-149 | exactly the four fine sample offsets have a coarse counterpart, and that counterpart is one of the four coarse offset generators |
| ModulatorEditor.SetIds | sources/editor/modulator/modulatoreditor.cpp:108-154 | a division is edited exactly when one id is given, and the coarse counterpart of each selected fine offset is highlighted |
| ModulatorEditor.SelectedRows | sources/editor/modulator/modulatoreditor.cpp:201-202 | a modulator row is selected exactly when its destination is highlighted |
| ModulatorEditor.FineSelectsCoarseModulators | sources/editor/modulator/modulatoreditor.cpp:142-149 | selecting a fine offset also selects the modulators of its coarse counterpart |
| ModulatorEditor.SummaryTargets | sources/editor/modulator/modulatoreditor.cpp:190-192 | the summary lists exactly the destinations below 99, so links are left out |
| ModulatorEditor.NewModulator | sources/editor/modulator/modulatoreditor.cpp:259-305 | a new modulator exists only in a division; its sources, amount and transform are 0; its destination is fineTune at preset level and 0 at instrument level |
| ModulatorEditor.NewModulatorPastes | sources/editor/modulator/modulatoreditor.cpp:300-302 | a new modulator is valid where it was created: copied alone it keeps everything but its index, and pasting it at the same level is accepted |
| TreeViewMenu.SameElementFromMeaning | sources/editor/tree/treeviewmenu.cpp:106-118 | the scan's kind, once known, is the kind of every later id |
| TreeViewMenu.SameElementMeaning | sources/editor/tree/treeviewmenu.cpp:106-118 | a selection is of one element type exactly when no id of known type is followed by one of another type; without unknown ids, every id has the first id's type |
| TreeViewMenu.SameElement | sources/editor/tree/treeviewmenu.cpp:106-118 | the scan finds one element type exactly when no id of known type is followed by one of another type |
| TreeViewMenu.Initialize | sources/editor/tree/treeviewmenu.cpp:102-167 | associate needs one type among samples and instruments; replace needs a single zone; rename needs samples, instruments or presets only; paste needs a single id; copy, duplicate and delete need one type |
| TreeViewMenu.AssociateNeedsOneKind | sources/editor/tree/treeviewmenu.cpp:120-130 | association is offered exactly for a selection of samples only or of instruments only |
| TreeViewMenu.Left | sources/editor/tree/treeviewmenu.cpp:437 | QString::left keeps the whole name when it is short enough, else exactly the first n characters, and returns a prefix |
| TreeViewMenu.InsertAt | sources/editor/tree/treeviewmenu.cpp:424 | the inserted text sits at the position, between the two untouched halves of the name |
| TreeViewMenu.RemoveAt | sources/editor/tree/treeviewmenu.cpp:430-433 | a position past the end removes nothing; a count past the end truncates at the position |
| TreeViewMenu.InsertThenRemove | sources/editor/tree/treeviewmenu.cpp:418-434 | removing what was just inserted gives the name back |
| TreeViewMenu.TwoDigits | sources/editor/tree/treeviewmenu.cpp:399-412 | the counter is written on two digits |
| TreeViewMenu.TwoDigitsRoundTrip | sources/editor/tree/treeviewmenu.cpp:399-412 | reading the two digits back gives the counter |
| TreeViewMenu.KeySuffix | sources/editor/tree/treeviewmenu.cpp:382-387 | the suffix is the key name, plus R for a right sample or L for a left one |
| TreeViewMenu.Written | sources/editor/tree/treeviewmenu.cpp:437-440 | a name is written exactly when its 20-character cut differs from the current name, and it is that cut |
| TreeViewMenu.BulkRename | sources/editor/tree/treeviewmenu.cpp:369-443 | bulk rename aborts exactly on an empty insert text or an empty delete range (with items to rename); otherwise each item gets at most one new name, of at most 20 characters and different from its old one; insert mode clamps the position to each name's own length, the corrected behaviour listed under Findings |
| TreeViewMenu.IndexModeName | sources/editor/tree/treeviewmenu.cpp:397-413 | in index mode the name ends with (i+1) mod 100 on two digits, after the first 17 characters of the text and a dash when the text is not empty |
| TreeViewMenu.ComputedNameByMode | sources/editor/tree/treeviewmenu.cpp:378-434 | per mode: the key-name suffix, alone or after the text and a space; a name ending in the two-digit counter; the replaced name; the name with the text inserted at the position, or appended when the position is past the end; the name without the range between the two positions, cut at the end of the name; the name unchanged for any other mode |
| TreeViewMenu.KeyNameModeName | sources/editor/tree/treeviewmenu.cpp:389-395 | with a prefix, the prefix is cut so that prefix, a space and the suffix fit in 20 characters, and the whole key suffix survives |
| TreeViewMenu.DeleteModeSymmetric | sources/editor/tree/treeviewmenu.cpp:426-434 | delete mode removes the same characters whichever bound is given first |
| TreeViewMenu.InsertThenDeleteMode | sources/editor/tree/treeviewmenu.cpp:418-434 | deleting the inserted range from a renamed item gives its name back |
| TreeViewMenu.BulkRenameAsWrittenFrom | sources/editor/tree/treeviewmenu.cpp:418-425 | the written loop gives one result per remaining item, with the insert position clamped in place |
| TreeViewMenu.InsertClampCarriesOver | sources/editor/tree/treeviewmenu.cpp:422-424 | inserting X at 5 into "ab" then "abcdef": the written loop gives "abXcdef" for the second name, where the per-name clamp gives "abcdeXf" |
| TreeViewMenu.BulkRenameAsWritten | sources/editor/tree/treeviewmenu.cpp:369-443 | the written loop aborts exactly when the corrected one does and otherwise gives one entry per item |
| TreeViewMenu.AsWrittenStep | sources/editor/tree/treeviewmenu.cpp:422-424 | when the insert position fits the current name, the written loop renames it at that position and passes the position on unchanged |
| TreeViewMenu.AsWrittenAgreesWhenPositionFits | sources/editor/tree/treeviewmenu.cpp:369-443 | outside insert mode, or when the position fits every later name, the written loop names each item as the per-name definition does |
| TreeViewMenu.AsWrittenAgreesWithBulkRename | sources/editor/tree/treeviewmenu.cpp:369-443 | the written and corrected bulk renames agree whenever the insert position fits every name |
| TreeViewMenu.MinLo | sources/editor/tree/treeviewmenu.cpp:259-270 | the lowest key starts at 127 and is the smallest lower bound of the zones that set a range |
| TreeViewMenu.MaxHi | sources/editor/tree/treeviewmenu.cpp:259-270 | the highest key starts at 0 and is the largest upper bound of the zones that set a range |
| TreeViewMenu.KeyRangeUnion | sources/editor/tree/treeviewmenu.cpp:259-283 | a new preset zone's key range runs from the smallest lower key (starting from 127) to the largest upper key (starting from 0) over the instrument's zones when that range is not empty or a single key, and is the full keyboard otherwise; it covers every zone range, and when some zone has a proper range both ends are attained |
| TreeViewMenu.SingleKeyZonesUnion | sources/editor/tree/treeviewmenu.cpp:263-277 | an instrument of single-key zones 60 and 72 gets the range 60..72, not the full keyboard |
| TreeViewMenu.KeyRangeUnionTight | sources/editor/tree/treeviewmenu.cpp:272-277 | when the union is not the fallback, its upper end is some zone's upper key and its lower end some zone's lower key (or 127) |
| TreeViewMenu.Associate | sources/editor/tree/treeviewmenu.cpp:217-295 | one new division per source; into an instrument each sample zone gets the sample and the pan of its stereo role (+500 right, -500 left, 0 otherwise); into a preset each instrument zone gets the key-range union of that instrument's zones; the parent is selected |
| TreeViewMenu.Replace | sources/editor/tree/treeviewmenu.cpp:297-317 | replace acts exactly for a sample or instrument into an instrument or preset zone, writing sampleID for a sample and instrument for an instrument, with the source's index |
| TreeViewMenu.ReplaceMatchesAssociate | sources/editor/tree/treeviewmenu.cpp:305-315 | replacing writes the same generator and index that associating would have written |
| GrandOrgueDataThrough.SetMaxRankGain | sources/core/input/grandorgue/grandorguedatathrough.cpp:33-39 | a rank keeps the largest gain it has been given; other ranks and fields are unchanged |
| GrandOrgueDataThrough.GetMaxRankGain | sources/core/input/grandorgue/grandorguedatathrough.cpp:41-44 | a rank never given a gain reads 0; a recorded rank reads its recorded gain |
| GrandOrgueDataThrough.SetMaxRankGainCommutes | sources/core/input/grandorgue/grandorguedatathrough.cpp:33-39 | the order in which gains arrive does not matter |
| GrandOrgueDataThrough.SetMaxRankGainIdempotent | sources/core/input/grandorgue/grandorguedatathrough.cpp:33-39 | giving a rank the same gain again changes nothing |
| GrandOrgueDataThrough.SetAllKeepsMaximum | sources/core/input/grandorgue/grandorguedatathrough.cpp:33-44 | after any sequence of gains, a rank reads the largest gain it was given, or its earlier value |
| GrandOrgueDataThrough.SetAllKeepsRanks | sources/core/input/grandorgue/grandorguedatathrough.cpp:33-39 | recording gains never forgets a rank and leaves the overall maximum alone |
| GrandOrgueDataThrough.FinalizePreprocess | sources/core/input/grandorgue/grandorguedatathrough.cpp:46-51 | the overall maximum becomes the largest of its value and every rank's gain, and is one of them |
| GrandOrgueDataThrough.FinalizeFresh | sources/core/input/grandorgue/grandorguedatathrough.cpp:27-51 | on a fresh import the overall maximum is at least 0 and at least every gain given |
| GrandOrgueDataThrough.SetSf2InstId | sources/core/input/grandorgue/grandorguedatathrough.cpp:53-61 | the instrument reads back the id just set; other instruments are unchanged |
| GrandOrgueDataThrough.SetSf2SmplId | sources/core/input/grandorgue/grandorguedatathrough.cpp:63-71 | the sample file reads back the ids just set; other files are unchanged |
| GrandOrgueDataThrough.GetSf2InstId | sources/core/input/grandorgue/grandorguedatathrough.cpp:58-61 | an instrument never recorded reads -1; a recorded one reads its soundfont id |
| GrandOrgueDataThrough.GetSf2SmplId | sources/core/input/grandorgue/grandorguedatathrough.cpp:68-71 | a sample file never recorded reads no ids; a recorded one reads its ids |
| GrandOrgueDataThrough.IdDefaultsAndOverwrite | sources/core/input/grandorgue/grandorguedatathrough.cpp:53-71 | unknown instruments read -1 and unknown files no ids; the last write wins |
| GrandOrgueDataThrough.ToLower | sources/core/input/grandorgue/grandorguedatathrough.cpp:75 | lowering case maps each ASCII capital to its small letter and leaves other characters alone |
| GrandOrgueDataThrough.ToLowerIdempotent | sources/core/input/grandorgue/grandorguedatathrough.cpp:80 | lowering case twice is lowering it once |
| GrandOrgueDataThrough.StoreSampleName | sources/core/input/grandorgue/grandorguedatathrough.cpp:73-76 | storing a name forgets no name known before |
| GrandOrgueDataThrough.StoreThenExists | sources/core/input/grandorgue/grandorguedatathrough.cpp:73-81 | after storing a name, a query is found exactly when it was found before or is a case variant of that name |
| GrandOrgueDataThrough.SampleNameExists | sources/core/input/grandorgue/grandorguedatathrough.cpp:78-81 | a name is found only when a case variant of it is stored, and a stored lower-case name is found |
| GrandOrgueDataThrough.ExistsIgnoresCase | sources/core/input/grandorgue/grandorguedatathrough.cpp:78-81 | two case variants are found alike |

## Left out

- ModulatedParameter (the override/additive combination of the tiers inside a slot, and unit conversion) is not part of this model. `getDouble`, `getInteger` and `getPosition` take it as a `resolve` parameter.
- VoiceParams.GetPosition: offsets are unbounded integers. Overflow of the qint32 sum of fine and coarse offsets is undefined behaviour in C++ and is not modelled. The qint32 cast of sample length and loop points is modelled.
- VoiceParams.SetLoopStartEffect, VoiceParams.SetLoopEndEffect: the value of the moved position is stated only for points below 2^31. Above that the qint32 reading is negative, and only the clamp to the length is stated.
- The soundfont store (SoundfontManager), `endEditing` and undo, `QMessageBox` warnings, tooltips, widgets and labels are left out. Operations return what they would write.
- ModulatorEditor.PasteMod: the store is taken to allocate consecutive indexes from `first`, as appending to a list does. The 16-bit wrap of a shifted link destination is not modelled.
- ModulatorEditor: `duplicateMod` and `on_pushClone_clicked` are left out. Each is `getModList` followed by `pasteMod` on other elements, both modelled.
- ModulatorEditor.GetModList takes the list read (every modulator, or the selected ones) as input, because the widget selection is UI state.
- MidiDevice: RtMidi, port handling, `postEvent`, the value mutex, and keyboard and controller-area synchronisation are left out. Notifications, synth calls and the gain setting are returned as outputs.
- MidiDevice.Decode requires a message with every data byte the callback reads: two for note on, poly pressure and controller, one for note off, program, channel pressure and bend. On a shorter message the callback's `std::vector::at` throws `std::out_of_range`; that throwing path is not modelled.
- MidiDevice: the bend sensitivity and gain are kept as exact reals, not doubles.
- MidiDevice.BendSensitivityScenario: stated over four processControllerChanged calls, not a run of posted events. The event-level history is covered by RpnHistoryIsLastFour.
- TreeViewMenu.BulkRename: mode 2 (case-insensitive QString::replace) and the key-name lookup of mode 0 are not modelled. Each item carries its replaced name and its key name as inputs.
- TreeViewMenu.BulkRename: positions come from spin boxes whose minimum is 0, so they are taken as natural numbers.
- TreeViewMenu: the other menu slots (copy, paste, duplicate, extract, remove, the rename dialog) are not part of this model.
- VoiceParams.SetPan: the product `val * 10.` is taken as an exact real, not a double. The double product can round up to a half that the exact product falls short of: for the double nearest 1.15, the source computes 11.5 and stores 12, while the model's exact product is just below 11.5 and gives 11 (likewise 0.35 and 2.05). qRound is modelled as in Qt 5, halves up; Qt 6 rounds negative halves away from zero.
- GrandOrgueDataThrough: gains are kept as exact reals, not doubles.
- TreeViewMenu.BulkRename: names are sequences of Unicode characters, while QString counts UTF-16 code units. The 20-unit cut and the positions of insert and delete therefore differ for names with characters outside the Basic Multilingual Plane.
- GrandOrgueDataThrough.ToLower: only ASCII letters are lowered. QString::toLower also lowers other Unicode letters.
- The waveform painter and the rename dialog are not part of this model.

## Findings

| source | as written | input that shows it | evidently intended | confidence | as-written member | corrected member |
|---|---|---|---|---|---|---|
| sources/context/mididevice.cpp:353-357 | `stopAll` loops while the release queue is non-empty and passes each key to `processKeyOff`, which re-queues it while the sustain pedal is down | pedal down (controller 64 = 127), key 60 on then off, then `stopAll`: the queue stays [60] forever | release every queued key whatever the pedal, then stop all voices | high (proved; not executed) | MidiDevice.StopAllAsWritten (StopAllAsWrittenDiverges, StopAllHangsAfterSustainedKey) | MidiDevice.StopAll (StopAllAgreesWithoutSustain) |
| sources/editor/tree/treeviewmenu.cpp:422-424 | insert mode clamps `val1` to the current name's length in place, so the clamp carries over to every later name | names "ab" and "abcdef", insert "X" at 5: the second name becomes "abXcdef" | clamp the position per name: "abcdeXf" | medium (proved on the model; not executed) | TreeViewMenu.BulkRenameAsWritten (InsertClampCarriesOver) | TreeViewMenu.BulkRename (AsWrittenAgreesWithBulkRename) |

A note-on of a key queued by the pedal does not release it. `processKeyOn`
passes the key to `processKeyOff` (sources/context/mididevice.cpp:265-267),
which queues it again while the pedal is down, and a key is queued only while
the pedal is down. See MidiDevice.KeyOnOfHeldKey.
