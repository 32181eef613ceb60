/** The slide records of SlideController and the pure parts of its sequencing: the
    condition check, the skip over slides whose condition fails, the lookup by id and
    the default slide list. */
module Slides {
  import opened Wrappers

  /** The action a slide runs when the learner advances past it. */
  datatype SlideAction = NoAction | ActivateEquipment | EnablePads | EnableWires | EnablePowerButton

  /** A slide; an empty `conditionKey` means the slide is not gated. */
  datatype SlideData = SlideData(
    id: string,
    title: string,
    body: string,
    footer: string,
    onAdvanceAction: SlideAction,
    conditionKey: string,
    conditionValue: int)

  /** A value recorded in the conditions dictionary (a boxed `object`): an int, or any
      other object, described by a string. */
  datatype Boxed = BoxedInt(n: int) | BoxedOther(description: string)

  const PadsPlacedKey: string := "PadsPlaced"

  /** `CheckCondition(key, value)`: a recorded value for `key` decides alone, and holds iff
      it is an int at least `value`; with nothing recorded only "PadsPlaced" can hold, by
      comparing the registry's pad count (`padCount`, None when there is no registry). */
  function CheckCondition(conditions: map<string, Boxed>, padCount: Option<nat>, key: string, value: int): (holds: bool)
    ensures key in conditions ==> (holds <==> conditions[key].BoxedInt? && conditions[key].n >= value)
    ensures key !in conditions && key != PadsPlacedKey ==> !holds
    ensures key !in conditions && key == PadsPlacedKey ==> (holds <==> padCount.Some? && padCount.value >= value)
  {
    if key in conditions then
      match conditions[key]
      case BoxedInt(recorded) => recorded >= value
      case BoxedOther(_) => false
    else key == PadsPlacedKey && padCount.Some? && padCount.value >= value
  }

  /** A recorded value takes precedence over the live pad count. */
  lemma RecordedTakesPrecedence(conditions: map<string, Boxed>, a: Option<nat>, b: Option<nat>, key: string, value: int)
    requires key in conditions
    ensures CheckCondition(conditions, a, key, value) == CheckCondition(conditions, b, key, value)
  {
  }

  /** A slide is shown when it has no condition or its condition holds. */
  predicate Shows(slide: SlideData, conditions: map<string, Boxed>, padCount: Option<nat>)
  {
    slide.conditionKey == "" || CheckCondition(conditions, padCount, slide.conditionKey, slide.conditionValue)
  }

  /** Where `ShowCurrentSlide` stops when started at index `from`: the first index at or
      after `from` whose slide shows, or the end of the list; every slide passed over
      fails its condition. From an index at or past the end it stays put. */
  function FirstShown(slides: seq<SlideData>, from: nat, conditions: map<string, Boxed>, padCount: Option<nat>): (r: nat)
    decreases |slides| - from
    ensures from <= r
    ensures from < |slides| ==> r <= |slides|
    ensures from >= |slides| ==> r == from
    ensures forall k :: from <= k < r ==> k < |slides| && !Shows(slides[k], conditions, padCount)
    ensures r < |slides| ==> Shows(slides[r], conditions, padCount)
  {
    if from >= |slides| then from
    else if Shows(slides[from], conditions, padCount) then from
    else FirstShown(slides, from + 1, conditions, padCount)
  }

  /** The index `JumpToSlide` loops to: the first slide with the id, or -1 if none has it.
      The slide catalogue has the same search over its own slide record, a different type
      from the controller's `SlideData`, each following its own source class. */
  function IndexOfId(slides: seq<SlideData>, id: string): (r: int)
    ensures -1 <= r < |slides|
    ensures r >= 0 ==> slides[r].id == id && forall k :: 0 <= k < r ==> slides[k].id != id
    ensures r == -1 <==> forall k :: 0 <= k < |slides| ==> slides[k].id != id
  {
    if slides == [] then -1
    else if slides[0].id == id then 0
    else
      var rest := IndexOfId(slides[1..], id);
      if rest == -1 then -1 else rest + 1
  }

  /** The body texts of the default slides. */
  const IntroBody: string :=
    "In this training, you will learn to properly place electrodes for a 10-lead EKG.\n\nYou'll be placing electrodes on specific locations on the patient's chest and limbs."

  const SkinPrepBody: string :=
    "Before placing electrodes, ensure the patient's skin is clean and dry.\n\nIn a real scenario, you would:\n• Clean the area with alcohol wipes\n• Allow to dry completely\n• Shave hair if necessary"

  const AdhesionBody: string :=
    "For best signal quality:\n\n• Press firmly on the center of each electrode\n• Ensure edges are sealed\n• Avoid placing over bones or tendons"

  const EquipmentBody: string :=
    "The EKG cart with electrodes is now available.\n\nYou'll see:\n• 10 electrode pads on the tray\n• The EKG machine\n• Target markers on the patient"

  const LocationsBody: string :=
    "Place electrodes at the marked locations:\n\nLIMBS (Yellow markers):\n• RA - Right arm\n• LA - Left arm\n• RL - Right leg\n• LL - Left leg\n\nCHEST (Green markers):\n• V1-V6 across the chest"

  const PeelBody: string :=
    "When you grab an electrode pad:\n\n• The backing will peel away automatically\n• Place the sticky side on the skin marker\n• The pad will snap into place when close enough"

  const OrderBody: string :=
    "While there's no strict order required, many practitioners prefer:\n\n1. Start with limb leads (RA, LA, RL, LL)\n2. Then place chest leads (V1-V6)\n\nThis helps establish a baseline before chest placement."

  const VerifyBody: string :=
    "Excellent work!\n\nAll 10 electrode pads are now in place.\n\nNext, we'll verify the connections and power on the EKG machine."

  const PowerBody: string :=
    "The power button is now active (glowing green).\n\nPress the power button on the EKG machine to begin monitoring."

  const CompleteBody: string :=
    "The EKG is now recording!\n\nYou can see the waveform on the display.\n\nThe machine is monitoring all 10 leads."

  const SuccessBody: string :=
    "You have successfully placed all electrodes for a 10-lead EKG.\n\nProper electrode placement ensures accurate cardiac monitoring."

  const ReviewBody: string :=
    "Remember:\n\n• Clean and dry skin before placement\n• Press firmly for good adhesion\n• Check all connections before starting\n• Monitor for loose electrodes during recording"

  const ExitBody: string :=
    "Thank you for completing the SB12 EKG electrode placement training.\n\nYou may now exit the simulation or practice again."

  /** The thirteen slides of `InitializeDefaultSlides`. */
  function DefaultSlides(): (r: seq<SlideData>)
    ensures |r| == 13
    ensures forall i, j :: 0 <= i < j < |r| ==> r[i].id != r[j].id
    ensures forall i :: 0 <= i < |r| ==> (r[i].conditionKey != "" <==> i == 7 || i == 8)
    ensures r[7].conditionKey == PadsPlacedKey && r[7].conditionValue == 10
    ensures r[8].conditionKey == PadsPlacedKey && r[8].conditionValue == 10
    ensures r[8].onAdvanceAction == EnablePowerButton
  {
    [
      SlideData("intro", "SB12 EKG Training", IntroBody,
        "Press Continue to begin.", NoAction, "", 0),
      SlideData("skin_prep", "Skin Preparation", SkinPrepBody,
        "Press Continue", NoAction, "", 0),
      SlideData("adhesion", "Proper Adhesion", AdhesionBody,
        "Press Continue", NoAction, "", 0),
      SlideData("equipment", "Equipment Ready", EquipmentBody,
        "Press Continue", ActivateEquipment, "", 0),
      SlideData("locations", "Electrode Placement", LocationsBody,
        "Grab and place the electrodes", EnablePads, "", 0),
      SlideData("peel", "Remove Backing", PeelBody,
        "Continue placing electrodes", NoAction, "", 0),
      SlideData("order", "Placement Order", OrderBody,
        "Continue placing electrodes", NoAction, "", 0),
      SlideData("verify", "Almost Done!", VerifyBody,
        "Press Continue", NoAction, PadsPlacedKey, 10),
      SlideData("power", "Power On", PowerBody,
        "Press the power button", EnablePowerButton, PadsPlacedKey, 10),
      SlideData("complete", "Setup Complete", CompleteBody,
        "Press Continue", NoAction, "", 0),
      SlideData("success", "Congratulations!", SuccessBody,
        "Press Continue", NoAction, "", 0),
      SlideData("review", "Key Points", ReviewBody,
        "Press Continue", NoAction, "", 0),
      SlideData("exit", "Training Complete", ExitBody,
        "End Training", NoAction, "", 0)
    ]
  }
}
