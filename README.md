# EKG electrode-placement tutorial — verified model of the progress tracking

This project models, in Dafny, the logic that tracks a learner's progress through the
EKG electrode-placement training scenes:

- the pad registry `GameState`: the set of mounts that hold a pad, the "all pads placed"
  flag (ten pads) and the power-button flag;
- the attach/detach machine of one electrode pad, `PadPlacement`: snapping to a mount,
  leaving it, grab/release and trigger contacts, and the choice of the nearest mount;
- the slide sequencer `SlideController`: advancing, running a slide's action, skipping
  slides whose gating condition fails, recording conditions and jumping by id;
- the slide catalogue asset `SlideSet`: lookups by position and id and the default slides;
- the sticker/lead tracker: `ElectrodesModel` (twenty flags and the two "done"
  conjunctions), `ElectrodesViewModel` (flag writes by lead, the missing-leads message and
  the once-only phase transitions) and `ElectrodeMount` (correct or wrong lead).

Modules:

| file | module | models |
|---|---|---|
| wrappers.dfy | `Wrappers` | `Option` (a C# null result) |
| leads.dfy | `Leads` | `LeadIndex`, its int numbering and labels, `ElectrodeMount` |
| electrodes.dfy | `Electrodes` | `ElectrodesModel`, the missing-leads message, `ElectrodesViewModel` |
| slides.dfy | `Slides` | `SlideData`, `CheckCondition`, the skip and id search, the controller's default slides |
| slide_catalogue.dfy | `SlideCatalogue` | `SlideSet` |
| mount_selection.dfy | `MountSelection` | mount candidates and the nearest-mount loop |
| tutorial.dfy | `Tutorial` | `GameState`, `SlideController`, `PadPlacement` |

`GameState`, `SlideController` and `PadPlacement` call one another (the registry notifies
the sequencer, the sequencer enables the power button, pads report to the registry), so
they share one module. The singletons (`GameState.Instance`) and the scene lookups
(`GameObject.Find`) are `const` references fixed at construction. Each UnityEvent is an
append-only log (`events`, `phases`), so "fires once" and "fires with this argument" can
be stated. The physics overlap query becomes a given list of candidates, each a mount
object (name and tag) and its distance. A reactive property notifies only when its value
changes, and the two "done" subjects are fed by `CombineLatest` over the flags; the model
recomputes the done values synchronously after every flag write that changes a flag, and
runs the subscribers in the order `SetPlatform` registered them.

## Model

| member | source | states |
|---|---|---|
| Tutorial.GameState.constructor | Assets/Scripts/SB12/GameState.cs:12-27 | the registry starts empty with both flags false, which satisfies its invariant |
| Tutorial.GameState.ReportPadPlaced | Assets/Scripts/SB12/GameState.cs:68-86 | a mount already present changes nothing (set, flags, events, sequencer); a new mount adds exactly that name and the count grows by one; OnAllPadsPlaced fires and the sequencer receives `OnConditionMet("PadsPlaced", 10)` exactly on a false-to-true transition of the flag; the invariant `allPadsPlaced <==> count >= 10`, `powerEnabled ==> allPadsPlaced && button exists` is kept |
| Tutorial.GameState.OnAllPadsComplete | Assets/Scripts/SB12/GameState.cs:103-113 | fires OnAllPadsPlaced once and performs the sequencer's `OnConditionMet("PadsPlaced", 10)` when a sequencer exists |
| Tutorial.GameState.ReportPadRemoved | Assets/Scripts/SB12/GameState.cs:88-101 | an absent mount changes nothing; a present one is the only name removed and the count drops by one; dropping below ten clears the flag and, when the button exists, the power flag; no event fires; the invariant is kept |
| Tutorial.GameState.EnablePowerButton | Assets/Scripts/SB12/GameState.cs:115-139 | the power flag is set and OnPowerEnabled fires only when the button exists and all pads are placed; the set and the pad flag are untouched; the invariant is kept |
| Tutorial.GameState.DisablePowerButton | Assets/Scripts/SB12/GameState.cs:141-159 | the power flag is cleared when the button exists and left alone otherwise |
| Tutorial.GameState.ArePadsPlaced | Assets/Scripts/SB12/GameState.cs:202 | under the invariant, true iff the placed count is at least ten |
| Tutorial.GameState.GetPlacedCount | Assets/Scripts/SB12/GameState.cs:203 | the number of distinct occupied mounts |
| Tutorial.GameState.IsPowerEnabled | Assets/Scripts/SB12/GameState.cs:204 | under the invariant, power enabled implies all pads placed |
| Tutorial.SlideController.constructor | Assets/Scripts/SB12/SlideController.cs:17-26 | no slides, index 0, no recorded conditions, no actions run |
| Tutorial.SlideController.Awake | Assets/Scripts/SB12/SlideController.cs:50-57 | an empty slide list becomes the default list; a non-empty one is kept |
| Tutorial.SlideController.InitializeDefaultSlides | Assets/Scripts/SB12/SlideController.cs:92-206 | the list becomes exactly the default list, whatever it held |
| Tutorial.SlideController.Start | Assets/Scripts/SB12/SlideController.cs:59-90 | the index moves to where the display's skip stops |
| Tutorial.SlideController.ShowCurrentSlide | Assets/Scripts/SB12/SlideController.cs:208-248 | terminates; the index never decreases, ends at the first slide from the old index whose condition holds or that has none, or at the end of the list; every slide passed over fails its condition |
| Tutorial.SlideController.NextSlide | Assets/Scripts/SB12/SlideController.cs:250-270 | at or past the end nothing changes; otherwise the current slide's action runs exactly once, the index becomes old index + 1 and then skips as the display does; the power button is enabled (with its guard) exactly when that action is EnablePowerButton, and the registry is otherwise untouched |
| Tutorial.SlideController.ExecuteSlideAction | Assets/Scripts/SB12/SlideController.cs:272-326 | records the action once; EnablePowerButton enables the registry's power button under its guard; no other action touches the registry |
| Tutorial.SlideController.OnConditionMet | Assets/Scripts/SB12/SlideController.cs:348-361 | always records the value under the key; re-runs the display only when the current slide is gated on that key, and otherwise leaves the index alone |
| Tutorial.SlideController.JumpToSlide | Assets/Scripts/SB12/SlideController.cs:363-374 | moves to the first slide with the id (then skips as the display does); an unknown id leaves the index unchanged |
| Tutorial.SlideController.GetCurrentSlideIndex | Assets/Scripts/SB12/SlideController.cs:376 | the current index |
| Tutorial.SlideController.GetTotalSlides | Assets/Scripts/SB12/SlideController.cs:377 | the number of slides |
| Tutorial.PadPlacement.constructor | Assets/Scripts/SB12/PadPlacement.cs:10-28 | a pad starts unplaced with mount name "" and no events |
| Tutorial.PadPlacement.SnapToMount | Assets/Scripts/SB12/PadPlacement.cs:108-152 | the mount the pad already occupies: nothing changes and nothing is reported; otherwise a placed pad first leaves its old mount (OnRemoved fired), then takes the new mount (OnPlaced fired); the registry ends as a placement report makes it: from the state the removal left: the old name gone and the new one added, the power flag kept only while ten or more mounts remained after the removal, OnPadPlaced fired for a new name followed by OnAllPadsPlaced when the count reaches ten, and the sequencer told `OnConditionMet("PadsPlaced", 10)` exactly then and untouched otherwise; for non-empty mount names `isPlaced <==> currentMount != ""` |
| Tutorial.PadPlacement.PlaceOn | Assets/Scripts/SB12/PadPlacement.cs:120-150 | an unplaced pad takes the mount and OnPlaced fires with it; the registry ends as a placement report makes it: the name added, the power flag kept, OnPadPlaced fired for a new name followed by OnAllPadsPlaced when the count reaches ten, and the sequencer told `OnConditionMet("PadsPlaced", 10)` exactly then and untouched otherwise |
| Tutorial.PadPlacement.RemoveFromMount | Assets/Scripts/SB12/PadPlacement.cs:154-179 | an unplaced pad changes nothing and nothing is reported; a placed pad is cleared (`isPlaced` false, mount "") and OnRemoved fires with the previous name; the registry ends as a removal report makes it: exactly that name gone, power cleared when the count drops below ten while all pads were placed and the button exists, no registry event, the sequencer untouched |
| Tutorial.PadPlacement.OnGrabbed | Assets/Scripts/SB12/PadPlacement.cs:52-61 | a grabbed pad is off its mount afterwards, with the pad and registry effects of `RemoveFromMount` |
| Tutorial.PadPlacement.OnGrabReleased | Assets/Scripts/SB12/PadPlacement.cs:63-69 | with auto-snap off nothing changes; with it on, the pad snaps (with every effect of `SnapToMount`) to the nearest eligible mount, or nothing changes when there is none |
| Tutorial.PadPlacement.TrySnapToNearestMount | Assets/Scripts/SB12/PadPlacement.cs:71-95 | with no mount-like candidate strictly closer than the snap distance nothing changes; otherwise the pad snaps, with every effect of `SnapToMount`, to the nearest such candidate |
| Tutorial.PadPlacement.OnTriggerEnter | Assets/Scripts/SB12/PadPlacement.cs:97-106 | snaps, with every effect of `SnapToMount`, exactly when the pad is neither held nor placed and the other object is a mount (tag "Mount" or a name containing "Mount_"); otherwise nothing changes |
| Tutorial.PadPlacement.ResetToOriginalPosition | Assets/Scripts/SB12/PadPlacement.cs:244-260 | a placed pad leaves its mount with the pad and registry effects of `RemoveFromMount`; afterwards the pad is unplaced |
| Tutorial.PadPlacement.IsPlaced | Assets/Scripts/SB12/PadPlacement.cs:262 | true iff the pad holds a mount object |
| Tutorial.PadPlacement.GetCurrentMount | Assets/Scripts/SB12/PadPlacement.cs:263 | "" for an unplaced pad |
| MountSelection.NearestIsUnique | Assets/Scripts/SB12/PadPlacement.cs:73-94 | at most one candidate is the nearest eligible one |
| MountSelection.SelectNearest | Assets/Scripts/SB12/PadPlacement.cs:73-94 | the loop returns nothing iff no candidate is mount-like and strictly closer than the snap distance; otherwise the eligible candidate with the smallest distance, the first one on a tie |
| Slides.CheckCondition | Assets/Scripts/SB12/SlideController.cs:328-346 | a recorded value decides alone and holds iff it is an int at least the required value; with nothing recorded, "PadsPlaced" holds iff a registry exists and its count is at least the value, and any other key is false |
| Slides.RecordedTakesPrecedence | Assets/Scripts/SB12/SlideController.cs:330-337 | with a recorded value the registry's count does not matter |
| Slides.FirstShown | Assets/Scripts/SB12/SlideController.cs:210-228 | the first index at or after the start whose slide shows, or the end of the list; every index passed over holds a slide whose condition fails |
| Slides.IndexOfId | Assets/Scripts/SB12/SlideController.cs:363-374 | the first index whose slide has the id, or -1 iff no slide has it |
| Slides.DefaultSlides | Assets/Scripts/SB12/SlideController.cs:92-206 | thirteen slides with pairwise distinct ids; exactly the 8th and 9th are gated, both on "PadsPlaced" at least 10; the 9th enables the power button on advance |
| SlideCatalogue.NewSlide | Assets/Scripts/SB12/SlideSet.cs:15-46 | a new slide has footer "Press Continue", no advance action, no condition, empty id and key |
| SlideCatalogue.FirstIndexOf | Assets/Scripts/SB12/SlideSet.cs:284-292 | the first index whose slide has the id, or -1 iff none has it |
| SlideCatalogue.Find | Assets/Scripts/SB12/SlideSet.cs:279-282 | the list search agrees with the index search: nothing iff the index is -1, otherwise the slide at that index |
| SlideCatalogue.DefaultSlides | Assets/Scripts/SB12/SlideSet.cs:69-270 | thirteen slides with pairwise distinct ids; exactly the 8th and 9th have a condition, both PadsPlaced with value 10; only the last one completes the training |
| SlideCatalogue.SlideSet.constructor | Assets/Scripts/SB12/SlideSet.cs:10 | the slide list starts empty |
| SlideCatalogue.SlideSet.InitializeDefaultSlides | Assets/Scripts/SB12/SlideSet.cs:69-270 | the list becomes exactly the default list, whatever it held |
| SlideCatalogue.SlideSet.GetSlide | Assets/Scripts/SB12/SlideSet.cs:272-277 | the slide at the index for `0 <= index < Count`, nothing otherwise |
| SlideCatalogue.SlideSet.GetSlideById | Assets/Scripts/SB12/SlideSet.cs:279-282 | nothing iff no slide has the id, otherwise a slide with that id |
| SlideCatalogue.SlideSet.GetSlideIndex | Assets/Scripts/SB12/SlideSet.cs:284-292 | the smallest index whose slide has the id, or -1 iff none has it |
| Leads.Ordinal | Assets/Code/SL12/ElectrodesViewModel.cs:10-22 | each lead's number is in 0..9 |
| Leads.FromOrdinal | Assets/Code/SL12/ElectrodesViewModel.cs:10-22 | an int names a lead iff it is in 0..9, and then the lead with that number |
| Leads.OrdinalRoundTrip | Assets/Code/SL12/ElectrodesViewModel.cs:10-22 | numbering a lead and reading the number back gives the lead |
| Leads.LabelsDistinct | Assets/Code/SL12/ElectrodesViewModel.cs:125-137 | different leads print different labels, so the message names each missing lead unambiguously |
| Leads.ElectrodeMount.LinkSticker | Assets/Code/SL12/ElectrodeMount.cs:13-16 | always reports the mount's own lead |
| Leads.ElectrodeMount.LinkLead | Assets/Code/SL12/ElectrodeMount.cs:18-28 | exactly one outcome: the mount's own lead iff the detected lead matches, the wrong-lead event iff it does not |
| Electrodes.ElectrodesModel.constructor | Assets/Code/SL12/ElectrodesModel.cs:7-34 | all twenty flags start false, and so do both done values |
| Electrodes.ElectrodesModel.StickersDone | Assets/Code/SL12/ElectrodesModel.cs:48-60 | true iff every lead's sticker flag is true |
| Electrodes.ElectrodesModel.LeadsDone | Assets/Code/SL12/ElectrodesModel.cs:62-74 | true iff every lead's lead flag is true |
| Electrodes.ElectrodesModel.WriteSticker | Assets/Code/SL12/ElectrodesViewModel.cs:73-106 | exactly the named lead's sticker flag takes the value; the other 19 flags are unchanged |
| Electrodes.ElectrodesModel.WriteLead | Assets/Code/SL12/ElectrodesViewModel.cs:162-195 | exactly the named lead's lead flag takes the value; the other 19 flags are unchanged |
| Electrodes.MissingLeadMessageIsListing | Assets/Code/SL12/ElectrodesViewModel.cs:122-138 | the message is the prefix "Missing or Incorrect leads: " followed by the label and a space of each unplugged lead, in the order LA, LL, RA, RL, V1..V6 |
| Electrodes.MissingEmptyIff | Assets/Code/SL12/ElectrodesViewModel.cs:125-137 | the listing after the prefix is empty iff every lead in the order is plugged in |
| Electrodes.MessageOrderCoversAll | Assets/Code/SL12/ElectrodesViewModel.cs:125-137 | every lead appears in the message order |
| Electrodes.MessageIsPrefixIffLeadsDone | Assets/Code/SL12/ElectrodesViewModel.cs:125-137 | the message is exactly the prefix iff all ten leads are plugged in |
| Electrodes.ElectrodesViewModel.constructor | Assets/Code/SL12/ElectrodesViewModel.cs:32-38 | after subscribing to a fresh model no transition is taken, no phase has fired and the invariant holds |
| Electrodes.ElectrodesViewModel.Prep | Assets/Code/SL12/ElectrodesViewModel.cs:40-45 | fires DoPrep; nothing else changes |
| Electrodes.ElectrodesViewModel.Stickers | Assets/Code/SL12/ElectrodesViewModel.cs:47-53 | the instructions become the sticker instruction and DoStickers fires |
| Electrodes.ElectrodesViewModel.SetSticker | Assets/Code/SL12/ElectrodesViewModel.cs:71-108 | exactly that sticker flag changes; clearing it makes StickersDone false; LeadsDone is unaffected; the leads phase (DoLeads and its instruction) fires on the first true StickersDone and never again |
| Electrodes.ElectrodesViewModel.StickersDone | Assets/Code/SL12/ElectrodesViewModel.cs:115-120 | takes the once-only transition: DoLeads fires and the instructions become the lead instruction |
| Electrodes.ElectrodesViewModel.SetLead | Assets/Code/SL12/ElectrodesViewModel.cs:160-197 | exactly that lead flag changes; clearing it makes LeadsDone false; StickersDone is unaffected; a change rebuilds the missing-leads message once the stickers were done at some push, and the EKG phase fires on the first true LeadsDone and never again |
| Electrodes.ElectrodesViewModel.LeadsDonePushed | Assets/Code/SL12/ElectrodesViewModel.cs:32-38 | a pushed LeadsDone value runs the missing-leads subscriber (unless still skipping) and then the once-only EKG subscriber, in that order |
| Electrodes.ElectrodesViewModel.BuildMissingLeadString | Assets/Code/SL12/ElectrodesViewModel.cs:122-138 | the instructions become the missing-leads message of the current flags |
| Electrodes.ElectrodesViewModel.LeadsDone | Assets/Code/SL12/ElectrodesViewModel.cs:205-210 | takes the once-only transition: DoEKG fires and the instructions become the EKG instruction |
| Electrodes.ElectrodesViewModel.EKGDone | Assets/Code/SL12/ElectrodesViewModel.cs:212-217 | DoDone fires and the instructions are cleared |
| Electrodes.ElectrodesViewModel.AttachSticker | Assets/Code/SL12/ElectrodesViewModel.cs:66-69 | the whole effect of `SetSticker(lead, true)`: the sticker flag set and no other flag changed, and the leads phase (DoLeads and its instruction) taken on the first true StickersDone |
| Electrodes.ElectrodesViewModel.AttachStickerAt | Assets/Code/SL12/ElectrodesViewModel.cs:61-64 | an int in 0..9 has the whole effect of `SetSticker` on that lead with true: the sticker flag set and no other flag changed, and the leads phase (DoLeads and its instruction) taken on the first true StickersDone; any other int changes nothing |
| Electrodes.ElectrodesViewModel.AttachLead | Assets/Code/SL12/ElectrodesViewModel.cs:145-148 | the whole effect of `SetLead(lead, true)`: the lead flag set and no other flag changed, the missing-leads message rebuilt when the flag changes once the stickers were done, and the EKG phase taken on the first true LeadsDone |
| Electrodes.ElectrodesViewModel.AttachLeadAt | Assets/Code/SL12/ElectrodesViewModel.cs:140-143 | an int in 0..9 has the whole effect of `SetLead` on that lead with true: the lead flag set and no other flag changed, the missing-leads message rebuilt when the flag changes once the stickers were done, and the EKG phase taken on the first true LeadsDone; any other int changes nothing |
| Electrodes.ElectrodesViewModel.DetachLead | Assets/Code/SL12/ElectrodesViewModel.cs:155-158 | the whole effect of `SetLead(lead, false)`: the lead flag cleared and no other flag changed, the missing-leads message rebuilt when the flag changes once the stickers were done, and the EKG phase taken on the first true LeadsDone; LeadsDone is false afterwards |
| Electrodes.ElectrodesViewModel.DetachLeadAt | Assets/Code/SL12/ElectrodesViewModel.cs:150-153 | an int in 0..9 has the whole effect of `SetLead` on that lead with false: the lead flag cleared and no other flag changed, the missing-leads message rebuilt when the flag changes once the stickers were done, and the EKG phase taken on the first true LeadsDone; any other int changes nothing |
| Electrodes.AttachThenDetach | Assets/Code/SL12/ElectrodesViewModel.cs:140-158 | attaching and then detaching a lead leaves its flag false, LeadsDone false and every other flag as it was; the detach always changes the flag, so once the stickers are done the instructions end as the missing-leads message, which is then more than the prefix |

## Left out

- Text shown on screen, Debug.Log messages, audio, the peeled-backing object, rigid-body
  and transform writes, colours and the waveform panel: engine effects with no bearing on
  the tracked state.
- Tutorial.PadPlacement.SnapToMount: the grab lock after a snap (grabbing disabled, and
  re-enabled by a timer 0.5 s later, Assets/Scripts/SB12/PadPlacement.cs:136-138) is not
  modelled; in the model a snapped pad can be grabbed at once.
- `Physics.OverlapSphere`: replaced by a given list of candidates with their distances;
  distances are exact reals, not single-precision floats.
- The unity scene lookups (`GameObject.Find`, `GetComponent`): each is a fixed optional
  reference; the cases where a component is missing are not modelled.
- `GameState.Awake`/`Start` (singleton setup, listener wiring) and `OnPowerButtonPressed`
  (the waveform display after power-on): scene setup and display.
- Tutorial.GameState.EnablePowerButton: repeated calls add the button's click listener
  again in the source; the listeners are not modelled.
- Dialogue (`RunDialogue`, `DroppedObject`, `PeelFirst`, `WrongLead`, `Complete`) and the
  `EKGRunning` flag of `ElectrodesModel`: dialogue playback and a flag nothing in the
  tracked sequence writes.
- The view model's instruction output (`SetPermanentInstructions`) is recorded as the last
  string given; the dialogue runner behind it is not modelled.
- `SlideSet`'s scene objects to (de)activate and its visual settings, and the UI text
  writes of `ShowCurrentSlide` (Assets/Scripts/SB12/SlideController.cs:230-247):
  presentation only.
- Tutorial.SlideController.ExecuteSlideAction: the scene effects of ActivateEquipment,
  EnablePads and EnableWires are not modelled; only the fact that the action ran is.
- Slides.CheckCondition: the branch for a non-int required value is not modelled, because
  every caller in the source passes the slide's int `conditionValue`.
- The slide index is a natural number; a negative index set in the inspector is not
  modelled.
- The R3 plumbing: subscriptions are assumed to run synchronously, in the order they were
  registered, on every changed flag value.
- Editor tooling, `WireRuntime`, `PadGravityController` and `WireEndController` are not part
  of this model: scene construction, rendering and physics.
