/** The slide catalogue asset (`SlideSet`): a list of slides, lookups by position and by
    id, and the thirteen default slides. */
module SlideCatalogue {
  import opened Wrappers

  datatype AdvanceAction =
    | NoAction | ActivateEquipment | EnablePads | EnableWires | EnablePowerButton
    | ShowWaveform | CompleteTraining | CustomAction

  datatype ConditionType = NoCondition | PadsPlaced | PowerEnabled | WaveformActive | CustomCondition

  /** A slide; the scene objects to (de)activate and the visual settings are not modelled. */
  datatype Slide = Slide(
    id: string,
    name: string,
    title: string,
    body: string,
    footer: string,
    onAdvanceAction: AdvanceAction,
    conditionType: ConditionType,
    conditionKey: string,
    conditionIntValue: int,
    conditionBoolValue: bool)

  /** A slide as `new Slide()` makes it, before an object initializer sets any field. */
  function NewSlide(): (s: Slide)
    ensures s.footer == "Press Continue"
    ensures s.onAdvanceAction == NoAction && s.conditionType == NoCondition
    ensures s.id == "" && s.conditionKey == "" && s.conditionIntValue == 0 && !s.conditionBoolValue
  {
    Slide("", "", "", "", "Press Continue", NoAction, NoCondition, "", 0, false)
  }

  /** The index of the first slide with the id, or -1 when no slide has it. */
  function FirstIndexOf(slides: seq<Slide>, id: string): (r: int)
    ensures -1 <= r < |slides|
    ensures r >= 0 ==> slides[r].id == id && forall k :: 0 <= k < r ==> slides[k].id != id
    ensures r == -1 <==> forall k :: 0 <= k < |slides| ==> slides[k].id != id
  {
    if slides == [] then -1
    else if slides[0].id == id then 0
    else
      var rest := FirstIndexOf(slides[1..], id);
      if rest == -1 then -1 else rest + 1
  }

  /** `List.Find` with the predicate "has this id": scans from the front and returns the
      first match. It agrees with the index search: nothing exactly when the index is -1,
      and otherwise the slide at that index. */
  function Find(slides: seq<Slide>, id: string): (r: Option<Slide>)
    ensures r.None? <==> FirstIndexOf(slides, id) == -1
    ensures r.Some? ==> r.value == slides[FirstIndexOf(slides, id)]
  {
    if slides == [] then None
    else if slides[0].id == id then Some(slides[0])
    else Find(slides[1..], id)
  }

  /** The body texts of the default slides. */
  const Slide01Body: string :=
    "In this training, you will learn to properly place electrodes for a 10-lead EKG.\n\nYou'll be placing electrodes on specific locations on the patient's chest and limbs.\n\nFollow the instructions carefully and use the visual markers as guides."

  const Slide02Body: string :=
    "Before placing electrodes, ensure the patient's skin is properly prepared:\n\n• Clean the area with alcohol wipes\n• Allow the skin to dry completely\n• Shave excessive hair if necessary\n• Avoid areas with skin irritation or wounds\n\nProper skin preparation ensures good electrode adhesion and signal quality."

  const Slide03Body: string :=
    "For optimal signal quality:\n\n• Remove the adhesive backing just before placement\n• Press firmly on the center of each electrode for 5-10 seconds\n• Ensure all edges are sealed to the skin\n• Avoid placing electrodes over bones or joints\n• Replace electrodes that don't adhere properly"

  const Slide04Body: string :=
    "The EKG equipment is now ready for use.\n\nYou can see:\n• The EKG machine on the cart\n• 10 electrode pads on the tray\n• Yellow markers for limb placement (RA, LA, RL, LL)\n• Green markers for chest placement (V1-V6)\n\nThe markers indicate the correct placement positions."

  const Slide05Body: string :=
    "LIMB ELECTRODES (Yellow Markers):\n• RA (Right Arm): Right shoulder/upper arm\n• LA (Left Arm): Left shoulder/upper arm\n• RL (Right Leg): Right lower abdomen\n• LL (Left Leg): Left lower abdomen\n\nCHEST ELECTRODES (Green Markers):\n• V1: 4th intercostal space, right sternal border\n• V2: 4th intercostal space, left sternal border\n• V3: Between V2 and V4\n• V4: 5th intercostal space, midclavicular line\n• V5: Anterior axillary line, level with V4\n• V6: Midaxillary line, level with V4"

  const Slide06Body: string :=
    "To place an electrode:\n\n1. Grab an electrode pad from the tray\n2. The backing will automatically peel away\n3. Move the pad near a placement marker\n4. The pad will snap into place when close enough\n5. You'll hear a confirmation sound\n\nIf you need to reposition, simply grab and move the pad again."

  const Slide07Body: string :=
    "While any order works, many practitioners follow this sequence:\n\n1. Start with limb leads for baseline:\n   • RA → LA → RL → LL\n\n2. Then place chest leads in order:\n   • V1 → V2 → V3 → V4 → V5 → V6\n\nThis systematic approach helps ensure no electrodes are missed."

  const Slide08Body: string :=
    "All 10 electrode pads are now in place!\n\nBefore proceeding, verify that:\n• Each electrode is firmly attached\n• All markers have been covered\n• The pads are properly positioned\n\nNext, we'll power on the EKG machine."

  const Slide09Body: string :=
    "The EKG machine is ready to be powered on.\n\nNotice the power button is now glowing green.\n\nPress the power button to:\n• Initialize the EKG system\n• Begin signal acquisition\n• Display the cardiac waveforms"

  const Slide10Body: string :=
    "The EKG is now actively monitoring!\n\nThe display shows:\n• Real-time cardiac waveforms\n• Heart rate measurement\n• Signal quality indicators\n\nAll 10 leads are providing data for comprehensive cardiac assessment."

  const Slide11Body: string :=
    "You have successfully completed the 10-lead EKG setup!\n\nYour proper electrode placement ensures:\n• Accurate cardiac monitoring\n• Clear signal quality\n• Reliable diagnostic data\n\nThis skill is essential for cardiac care and emergency medicine."

  const Slide12Body: string :=
    "Remember these key points:\n\n• Always prepare the skin properly\n• Follow anatomical landmarks for placement\n• Ensure firm electrode adhesion\n• Check all connections before recording\n• Replace electrodes if signal quality is poor\n• Document any placement variations\n\nRegular practice improves speed and accuracy."

  const Slide13Body: string :=
    "Thank you for completing the SB12 EKG Electrode Placement Training.\n\nYou have demonstrated proficiency in:\n• Identifying correct electrode positions\n• Proper placement technique\n• EKG system operation\n\nFeel free to practice again or exit the simulation."

  /** The thirteen slides of `InitializeDefaultSlides`. */
  function DefaultSlides(): (r: seq<Slide>)
    ensures |r| == 13
    ensures forall i, j :: 0 <= i < j < |r| ==> r[i].id != r[j].id
    ensures forall i :: 0 <= i < |r| ==> (r[i].conditionType != NoCondition <==> i == 7 || i == 8)
    ensures r[7].conditionType == PadsPlaced && r[7].conditionIntValue == 10
    ensures r[8].conditionType == PadsPlaced && r[8].conditionIntValue == 10
    ensures forall i :: 0 <= i < |r| ==> (r[i].onAdvanceAction == CompleteTraining <==> i == 12)
  {
    [
      NewSlide().(
        id := "slide_01_intro",
        name := "Task Introduction",
        title := "SB12 EKG Training",
        body := Slide01Body,
        footer := "Press Continue to begin",
        onAdvanceAction := NoAction),
      NewSlide().(
        id := "slide_02_prep",
        name := "Skin Preparation",
        title := "Preparing the Skin",
        body := Slide02Body,
        footer := "Press Continue"),
      NewSlide().(
        id := "slide_03_adhesion",
        name := "Adhesion Tips",
        title := "Ensuring Good Contact",
        body := Slide03Body,
        footer := "Press Continue"),
      NewSlide().(
        id := "slide_04_equipment",
        name := "Equipment Ready",
        title := "Equipment Overview",
        body := Slide04Body,
        footer := "Press Continue to start placing electrodes",
        onAdvanceAction := ActivateEquipment),
      NewSlide().(
        id := "slide_05_locations",
        name := "Placement Guide",
        title := "Electrode Placement Locations",
        body := Slide05Body,
        footer := "Grab electrodes from the tray and place them",
        onAdvanceAction := EnablePads),
      NewSlide().(
        id := "slide_06_interaction",
        name := "How to Place",
        title := "Placing the Electrodes",
        body := Slide06Body,
        footer := "Continue placing all 10 electrodes"),
      NewSlide().(
        id := "slide_07_order",
        name := "Suggested Order",
        title := "Recommended Placement Order",
        body := Slide07Body,
        footer := "Continue placing electrodes"),
      NewSlide().(
        id := "slide_08_verify",
        name := "Verify Placement",
        title := "Excellent Work!",
        body := Slide08Body,
        footer := "Press Continue",
        conditionType := PadsPlaced,
        conditionIntValue := 10),
      NewSlide().(
        id := "slide_09_power",
        name := "Power On",
        title := "Activate the EKG Machine",
        body := Slide09Body,
        footer := "Press the green power button",
        onAdvanceAction := EnablePowerButton,
        conditionType := PadsPlaced,
        conditionIntValue := 10),
      NewSlide().(
        id := "slide_10_monitoring",
        name := "Monitoring Active",
        title := "EKG Recording Active",
        body := Slide10Body,
        footer := "Press Continue"),
      NewSlide().(
        id := "slide_11_success",
        name := "Success",
        title := "Congratulations!",
        body := Slide11Body,
        footer := "Press Continue"),
      NewSlide().(
        id := "slide_12_review",
        name := "Key Takeaways",
        title := "Important Reminders",
        body := Slide12Body,
        footer := "Press Continue"),
      NewSlide().(
        id := "slide_13_complete",
        name := "Training Complete",
        title := "Training Session Complete",
        body := Slide13Body,
        footer := "End Training",
        onAdvanceAction := CompleteTraining)
    ]
  }

  class SlideSet {
    var slides: seq<Slide>

    constructor ()
      ensures slides == []
    {
      slides := [];
    }

    /** Clears the list and adds the default slides, whatever it held before. */
    method InitializeDefaultSlides()
      modifies this
      ensures slides == DefaultSlides()
    {
      slides := [];
      slides := slides + DefaultSlides();
    }

    /** The slide at `index`, or nothing (null) outside the list. */
    function GetSlide(index: int): (r: Option<Slide>)
      reads this
      ensures r.Some? <==> 0 <= index < |slides|
      ensures r.Some? ==> r.value == slides[index]
    {
      if 0 <= index < |slides| then Some(slides[index]) else None
    }

    function GetSlideById(id: string): (r: Option<Slide>)
      reads this
      ensures r.None? <==> forall k :: 0 <= k < |slides| ==> slides[k].id != id
      ensures r.Some? ==> r.value.id == id
    {
      Find(slides, id)
    }

    /** The loop over the list: the smallest index whose slide has the id, or -1. */
    method GetSlideIndex(id: string) returns (index: int)
      ensures index == FirstIndexOf(slides, id)
      ensures -1 <= index < |slides|
      ensures index >= 0 ==> slides[index].id == id && forall k :: 0 <= k < index ==> slides[k].id != id
      ensures index == -1 <==> forall k :: 0 <= k < |slides| ==> slides[k].id != id
    {
      for i := 0 to |slides|
        invariant forall k :: 0 <= k < i ==> slides[k].id != id
      {
        if slides[i].id == id {
          return i;
        }
      }
      return -1;
    }
  }
}
