/** The SB12 tutorial's progress tracking: the pad registry (`GameState`), the slide
    sequencer (`SlideController`) and the attach/detach machine of one electrode pad
    (`PadPlacement`). GameState notifies the sequencer when the last pad is placed, the
    sequencer asks GameState to enable the power button, and every pad reports to
    GameState, so the three classes share one module. The singletons and scene lookups
    of the source are fixed references given at construction. */
module Tutorial {
  import opened Wrappers
  import opened Slides
  import opened MountSelection

  /** Number of electrode pads the registry waits for. */
  const TotalPads: nat := 10

  /** The UnityEvents GameState invokes: OnPadPlaced(mount), OnAllPadsPlaced, OnPowerEnabled. */
  datatype RegistryEvent = PadPlaced(mount: string) | AllPadsPlaced | PowerEnabled

  /** Registry of the mounts that hold a pad, and the two flags derived from it. */
  class GameState {
    var placedMounts: set<string>
    var allPadsPlaced: bool
    var powerEnabled: bool
    /** Whether the scene has a power button (the `powerButton` reference is non-null). */
    const hasPowerButton: bool
    const slideController: SlideController?
    var events: seq<RegistryEvent>

    /** "All pads placed" is exactly "at least ten mounts occupied", and the power button
        is enabled only when it exists and all pads are placed. */
    ghost predicate Valid()
      reads this
    {
      (allPadsPlaced <==> |placedMounts| >= TotalPads) &&
      (powerEnabled ==> allPadsPlaced && hasPowerButton)
    }

    constructor (hasPowerButton: bool, slideController: SlideController?)
      ensures Valid()
      ensures placedMounts == {} && !allPadsPlaced && !powerEnabled && events == []
      ensures this.hasPowerButton == hasPowerButton && this.slideController == slideController
    {
      placedMounts := {};
      allPadsPlaced := false;
      powerEnabled := false;
      this.hasPowerButton := hasPowerButton;
      this.slideController := slideController;
      events := [];
    }

    /** The sequencer and the registry it consults: what `OnAllPadsComplete` can touch
        beyond this registry. */
    ghost function SequencerFootprint(): set<object>
    {
      if slideController == null then {} else {slideController} + (if slideController.registry == null then {} else {slideController.registry})
    }

    /** The events one new report adds: OnPadPlaced(name), followed by OnAllPadsPlaced when
        the name takes the count from below ten to ten or more. An already present name adds
        none. */
    static function PlacedEvents(before: set<string>, name: string): seq<RegistryEvent>
    {
      if name in before then []
      else [PadPlaced(name)] + (if ReachesAll(before, name) then [AllPadsPlaced] else [])
    }

    /** Whether adding `name` takes the occupied mounts from below ten to ten or more. */
    static predicate ReachesAll(before: set<string>, name: string)
    {
      |before| < TotalPads <= |before + {name}|
    }

    /** The registry after a placement report of `name` arriving when it held the mounts
        `before`, the power flag `powerBefore` and the event log `eventsBefore`: the name is
        added, power is left as it was, the events of `PlacedEvents` are appended, and the
        sequencer is told `OnConditionMet("PadsPlaced", 10)` exactly when the count reaches
        ten, and is untouched otherwise. */
    twostate predicate PlacedFrom(before: set<string>, powerBefore: bool, eventsBefore: seq<RegistryEvent>, name: string)
      reads this, SequencerFootprint()
    {
      placedMounts == before + {name} &&
      powerEnabled == powerBefore &&
      events == eventsBefore + PlacedEvents(before, name) &&
      (slideController != null ==>
        if ReachesAll(before, name) then slideController.ConditionMet(PadsPlacedKey, BoxedInt(TotalPads))
        else unchanged(slideController))
    }

    /** What `ReportPadPlaced(name)` does, from the registry's own previous state. */
    twostate predicate PlacementEffect(name: string)
      reads this, SequencerFootprint()
    {
      PlacedFrom(old(placedMounts), old(powerEnabled), old(events), name)
    }

    /** What `ReportPadRemoved(name)` does: exactly that name leaves the set, power is
        cleared when the count drops below ten while all pads were placed and the button
        exists, and no event fires. */
    twostate predicate RemovalEffect(name: string)
      reads this
    {
      placedMounts == old(placedMounts) - {name} &&
      powerEnabled == (if old(allPadsPlaced) && !allPadsPlaced && hasPowerButton then false else old(powerEnabled)) &&
      events == old(events)
    }

    /** A pad reports the mount it snapped to. A mount already in the set changes nothing;
        a new one is added, and reaching ten for the first time since the flag was last
        false sets the flag, fires OnAllPadsPlaced and tells the sequencer
        `OnConditionMet("PadsPlaced", 10)`. */
    method ReportPadPlaced(mountName: string)
      requires Valid()
      modifies this, slideController
      ensures Valid()
      ensures PlacementEffect(mountName)
      ensures mountName !in old(placedMounts) ==> |placedMounts| == |old(placedMounts)| + 1
      ensures mountName in old(placedMounts) ==> unchanged(this)
      ensures events == old(events) +
                (if mountName in old(placedMounts) then []
                 else [PadPlaced(mountName)] + (if !old(allPadsPlaced) && allPadsPlaced then [AllPadsPlaced] else []))
    {
      if mountName in placedMounts {
        return;
      }
      placedMounts := placedMounts + {mountName};
      events := events + [PadPlaced(mountName)];
      if |placedMounts| >= TotalPads && !allPadsPlaced {
        allPadsPlaced := true;
        OnAllPadsComplete();
      }
    }

    method OnAllPadsComplete()
      modifies this`events, slideController
      ensures events == old(events) + [AllPadsPlaced]
      ensures slideController != null ==> slideController.ConditionMet(PadsPlacedKey, BoxedInt(TotalPads))
    {
      events := events + [AllPadsPlaced];
      if slideController != null {
        slideController.OnConditionMet(PadsPlacedKey, BoxedInt(TotalPads));
      }
    }

    /** A pad reports leaving a mount. An absent mount changes nothing; otherwise exactly
        that name is removed, and dropping below ten clears the flag and disables the
        power button. */
    method ReportPadRemoved(mountName: string)
      requires Valid()
      modifies this
      ensures Valid()
      ensures mountName !in old(placedMounts) ==> unchanged(this)
      ensures RemovalEffect(mountName)
      ensures mountName in old(placedMounts) ==> |placedMounts| == |old(placedMounts)| - 1
    {
      if mountName in placedMounts {
        placedMounts := placedMounts - {mountName};
        if allPadsPlaced && |placedMounts| < TotalPads {
          allPadsPlaced := false;
          DisablePowerButton();
        }
      }
    }

    /** What `EnablePowerButton` does: the flag is set (and OnPowerEnabled fired) only when
        the button exists and all pads are placed; nothing else changes. */
    twostate predicate PowerEnableEffect()
      reads this
    {
      placedMounts == old(placedMounts) && allPadsPlaced == old(allPadsPlaced) &&
      powerEnabled == (old(powerEnabled) || (hasPowerButton && allPadsPlaced)) &&
      events == old(events) + (if hasPowerButton && allPadsPlaced then [PowerEnabled] else [])
    }

    method EnablePowerButton()
      requires Valid()
      modifies this
      ensures Valid()
      ensures PowerEnableEffect()
    {
      if hasPowerButton && allPadsPlaced {
        powerEnabled := true;
        events := events + [PowerEnabled];
      }
    }

    method DisablePowerButton()
      modifies this`powerEnabled
      ensures powerEnabled == (old(powerEnabled) && !hasPowerButton)
    {
      if hasPowerButton {
        powerEnabled := false;
      }
    }

    function ArePadsPlaced(): (placed: bool)
      reads this
      ensures Valid() ==> (placed <==> GetPlacedCount() >= TotalPads)
    {
      allPadsPlaced
    }

    function GetPlacedCount(): (n: nat)
      reads this
      ensures n == |placedMounts|
    {
      |placedMounts|
    }

    function IsPowerEnabled(): (enabled: bool)
      reads this
      ensures Valid() && enabled ==> ArePadsPlaced()
    {
      powerEnabled
    }
  }

  /** The slide sequencer. `actionsRun` records every slide action executed, in order; the
      scene effects of the actions other than EnablePowerButton are not modelled. */
  class SlideController {
    var slides: seq<SlideData>
    var currentSlideIndex: nat
    var conditions: map<string, Boxed>
    /** The registry the sequencer consults (`GameState.Instance`). */
    const registry: GameState?
    var actionsRun: seq<SlideAction>

    constructor (registry: GameState?)
      ensures slides == [] && currentSlideIndex == 0 && conditions == map[] && actionsRun == []
      ensures this.registry == registry
    {
      slides := [];
      currentSlideIndex := 0;
      conditions := map[];
      this.registry := registry;
      actionsRun := [];
    }

    /** The registry's pad count, None when there is no registry. */
    function PadCount(): Option<nat>
      reads this, registry
    {
      if registry == null then None else Some(|registry.placedMounts|)
    }

    /** What `OnConditionMet(key, value)` does: records the value, and re-runs the display
        only when the current slide is gated on that key. */
    twostate predicate ConditionMet(key: string, value: Boxed)
      reads this, registry
    {
      slides == old(slides) && actionsRun == old(actionsRun) &&
      conditions == old(conditions)[key := value] &&
      currentSlideIndex ==
        if old(currentSlideIndex) < |slides| && slides[old(currentSlideIndex)].conditionKey == key
        then FirstShown(slides, old(currentSlideIndex), conditions, PadCount())
        else old(currentSlideIndex)
    }

    /** Awake: an empty list is filled with the default slides. */
    method Awake()
      modifies this`slides
      ensures old(slides) == [] ==> slides == DefaultSlides()
      ensures old(slides) != [] ==> slides == old(slides)
    {
      if |slides| == 0 {
        InitializeDefaultSlides();
      }
    }

    method InitializeDefaultSlides()
      modifies this`slides
      ensures slides == DefaultSlides()
    {
      slides := DefaultSlides();
    }

    /** Start: shows the first slide (the UI lookups are not modelled). */
    method Start()
      modifies this`currentSlideIndex
      ensures currentSlideIndex == FirstShown(slides, old(currentSlideIndex), conditions, PadCount())
    {
      ShowCurrentSlide();
    }

    /** Skips, one recursive call per slide, every slide whose condition fails; the index
        stops at the first slide that shows or at the end of the list. */
    method ShowCurrentSlide()
      modifies this`currentSlideIndex
      decreases |slides| - currentSlideIndex
      ensures currentSlideIndex == FirstShown(slides, old(currentSlideIndex), conditions, PadCount())
      ensures old(currentSlideIndex) <= currentSlideIndex
      ensures currentSlideIndex < |slides| ==> Shows(slides[currentSlideIndex], conditions, PadCount())
    {
      if currentSlideIndex >= |slides| {
        return;
      }
      var slide := slides[currentSlideIndex];
      if slide.conditionKey != "" {
        if !CheckCondition(conditions, PadCount(), slide.conditionKey, slide.conditionValue) {
          currentSlideIndex := currentSlideIndex + 1;
          ShowCurrentSlide();
          return;
        }
      }
    }

    /** Continue: past the end nothing happens; otherwise the current slide's action runs
        once, the index moves on by one and the display skips from there. */
    method NextSlide()
      requires registry != null ==> registry.Valid()
      modifies this, registry
      ensures registry != null ==> registry.Valid()
      ensures slides == old(slides) && conditions == old(conditions)
      ensures old(currentSlideIndex) >= |slides| ==>
                currentSlideIndex == old(currentSlideIndex) && actionsRun == old(actionsRun) &&
                (registry != null ==> unchanged(registry))
      ensures old(currentSlideIndex) < |slides| ==>
                actionsRun == old(actionsRun) + [slides[old(currentSlideIndex)].onAdvanceAction] &&
                currentSlideIndex == FirstShown(slides, old(currentSlideIndex) + 1, conditions, PadCount())
      ensures registry != null ==>
                if old(currentSlideIndex) < |slides| && slides[old(currentSlideIndex)].onAdvanceAction == EnablePowerButton
                then registry.PowerEnableEffect()
                else unchanged(registry)
    {
      if currentSlideIndex >= |slides| {
        return;
      }
      var currentSlide := slides[currentSlideIndex];
      ExecuteSlideAction(currentSlide.onAdvanceAction);
      currentSlideIndex := currentSlideIndex + 1;
      if currentSlideIndex < |slides| {
        ShowCurrentSlide();
      }
    }

    method ExecuteSlideAction(action: SlideAction)
      requires registry != null ==> registry.Valid()
      modifies this`actionsRun, registry
      ensures registry != null ==> registry.Valid()
      ensures actionsRun == old(actionsRun) + [action]
      ensures registry != null ==>
                if action == EnablePowerButton then registry.PowerEnableEffect() else unchanged(registry)
    {
      actionsRun := actionsRun + [action];
      if action == EnablePowerButton && registry != null {
        registry.EnablePowerButton();
      }
    }

    method OnConditionMet(key: string, value: Boxed)
      modifies this`conditions, this`currentSlideIndex
      ensures ConditionMet(key, value)
    {
      conditions := conditions[key := value];
      if currentSlideIndex < |slides| {
        var nextSlide := slides[currentSlideIndex];
        if nextSlide.conditionKey == key {
          ShowCurrentSlide();
        }
      }
    }

    /** Moves to the first slide with the id (then skips as the display does); an unknown
        id leaves the index where it was. */
    method JumpToSlide(slideId: string)
      modifies this`currentSlideIndex
      ensures IndexOfId(slides, slideId) == -1 ==> currentSlideIndex == old(currentSlideIndex)
      ensures IndexOfId(slides, slideId) >= 0 ==>
                currentSlideIndex == FirstShown(slides, IndexOfId(slides, slideId), conditions, PadCount())
    {
      for i := 0 to |slides|
        invariant forall k :: 0 <= k < i ==> slides[k].id != slideId
        invariant currentSlideIndex == old(currentSlideIndex)
      {
        if slides[i].id == slideId {
          currentSlideIndex := i;
          ShowCurrentSlide();
          return;
        }
      }
    }

    function GetCurrentSlideIndex(): (i: nat)
      reads this
      ensures i == currentSlideIndex
    {
      currentSlideIndex
    }

    function GetTotalSlides(): (n: nat)
      reads this
      ensures n == |slides|
    {
      |slides|
    }
  }

  /** The OnPlaced / OnRemoved UnityEvents of a pad. */
  datatype PadEvent = Placed(mount: string) | Removed(mount: string)

  /** One electrode pad. `registry` stands for `GameState.Instance`; the settings
      `autoSnap` and `snapDistance` are fixed. */
  class PadPlacement {
    const registry: GameState?
    const autoSnap: bool
    const snapDistance: real
    var isPlaced: bool
    var currentMount: string
    var currentMountObject: Option<MountObject>
    var events: seq<PadEvent>

    /** A placed pad knows its mount object, whose name is `currentMount`; an unplaced pad
        has no mount and the name "". */
    ghost predicate Valid()
      reads this, registry
    {
      (isPlaced ==> currentMountObject.Some? && currentMountObject.value.name == currentMount) &&
      (!isPlaced ==> currentMount == "" && currentMountObject.None?) &&
      (registry != null ==> registry.Valid())
    }

    /** The objects a report to the registry can change. */
    ghost function Footprint(): set<object>
    {
      {this} + (if registry == null then {} else {registry} + (if registry.slideController == null then {} else {registry.slideController}))
    }

    constructor (registry: GameState?, autoSnap: bool, snapDistance: real)
      requires registry != null ==> registry.Valid()
      ensures Valid() && !isPlaced && currentMount == "" && events == []
      ensures this.registry == registry && this.autoSnap == autoSnap && this.snapDistance == snapDistance
    {
      this.registry := registry;
      this.autoSnap := autoSnap;
      this.snapDistance := snapDistance;
      isPlaced := false;
      currentMount := "";
      currentMountObject := None;
      events := [];
    }

    /** What a snap can observe: besides `Footprint()`, the registry the sequencer consults. */
    ghost function Observed(): set<object>
    {
      Footprint() + (if registry == null then {} else registry.SequencerFootprint())
    }

    /** The registry and the sequencer behind it are left as they were. */
    twostate predicate RegistryUnchanged()
      reads Footprint()
    {
      registry != null ==> unchanged(registry) && (registry.slideController != null ==> unchanged(registry.slideController))
    }

    /** What `RemoveFromMount` does: nothing for an unplaced pad; otherwise the pad is
        cleared, OnRemoved fires with the previous mount and the registry loses exactly
        that name. */
    twostate predicate TookOff()
      reads Footprint()
    {
      if !old(isPlaced) then unchanged(this) && RegistryUnchanged()
      else
        !isPlaced && currentMount == "" && currentMountObject.None? &&
        events == old(events) + [Removed(old(currentMount))] &&
        (registry != null ==>
          registry.RemovalEffect(old(currentMount)) &&
          (registry.slideController != null ==> unchanged(registry.slideController)))
    }

    /** What `SnapToMount(mount)` does: nothing when the pad is already on that mount;
        otherwise the pad first leaves its old mount (reported), then takes the new one
        (reported). The registry ends as a placement report of the new name makes it from
        the state the removal report left: the old name gone, the power flag kept only while
        ten or more mounts remained, the placement events appended, and the sequencer told
        when the count reaches ten. */
    twostate predicate Snapped(mount: MountObject)
      reads Observed()
    {
      if old(isPlaced) && old(currentMount) == mount.name then unchanged(this) && RegistryUnchanged()
      else
        isPlaced && currentMount == mount.name && currentMountObject == Some(mount) &&
        events == old(events) + (if old(isPlaced) then [Removed(old(currentMount))] else []) + [Placed(mount.name)] &&
        (registry != null ==>
          var before := old(registry.placedMounts) - (if old(isPlaced) then {old(currentMount)} else {});
          registry.PlacedFrom(before, old(registry.powerEnabled) && |before| >= TotalPads, old(registry.events), mount.name))
    }

    method SnapToMount(mount: MountObject)
      requires Valid()
      modifies Footprint()
      ensures Valid()
      ensures Snapped(mount)
      ensures mount.name != "" ==> (isPlaced <==> currentMount != "")
    {
      if isPlaced && currentMount == mount.name {
        return;
      }
      if isPlaced {
        RemoveFromMount();
      }
      PlaceOn(mount);
    }

    /** The second half of `SnapToMount`, for a pad that is not on a mount. */
    method PlaceOn(mount: MountObject)
      requires Valid() && !isPlaced
      modifies Footprint()
      ensures Valid()
      ensures isPlaced && currentMount == mount.name && currentMountObject == Some(mount)
      ensures events == old(events) + [Placed(mount.name)]
      ensures registry != null ==> registry.PlacementEffect(mount.name)
    {
      currentMount := mount.name;
      currentMountObject := Some(mount);
      isPlaced := true;
      if registry != null {
        registry.ReportPadPlaced(currentMount);
      }
      events := events + [Placed(currentMount)];
    }

    method RemoveFromMount()
      requires Valid()
      modifies this, registry
      ensures Valid()
      ensures TookOff()
    {
      if !isPlaced {
        return;
      }
      var previousMount := currentMount;
      isPlaced := false;
      currentMount := "";
      currentMountObject := None;
      if registry != null {
        registry.ReportPadRemoved(previousMount);
      }
      events := events + [Removed(previousMount)];
    }

    /** Grabbing a placed pad takes it off its mount. */
    method OnGrabbed()
      requires Valid()
      modifies this, registry
      ensures Valid() && !isPlaced
      ensures TookOff()
    {
      if isPlaced {
        RemoveFromMount();
      }
    }

    /** Releasing a pad with auto-snap on tries the nearest mount among the colliders the
        overlap query returned. */
    method OnGrabReleased(cands: seq<Candidate>)
      requires Valid()
      modifies Footprint()
      ensures Valid()
      ensures !autoSnap ==> unchanged(this) && RegistryUnchanged()
      ensures autoSnap && (forall i :: 0 <= i < |cands| ==> !Eligible(cands[i], snapDistance)) ==>
                unchanged(this) && RegistryUnchanged()
      ensures autoSnap && (exists i :: 0 <= i < |cands| && Eligible(cands[i], snapDistance)) ==>
                exists i :: IsNearest(cands, snapDistance, i) && Snapped(cands[i].mount)
    {
      if autoSnap {
        TrySnapToNearestMount(cands);
      }
    }

    method TrySnapToNearestMount(cands: seq<Candidate>)
      requires Valid()
      modifies Footprint()
      ensures Valid()
      ensures (forall i :: 0 <= i < |cands| ==> !Eligible(cands[i], snapDistance)) ==>
                unchanged(this) && RegistryUnchanged()
      ensures (exists i :: 0 <= i < |cands| && Eligible(cands[i], snapDistance)) ==>
                exists i :: IsNearest(cands, snapDistance, i) && Snapped(cands[i].mount)
    {
      var nearest := SelectNearest(cands, snapDistance);
      if nearest.Some? {
        SnapToMount(cands[nearest.value].mount);
      }
    }

    /** A trigger contact snaps only a pad that is neither held (`isSelected`) nor placed,
        and only onto a mount. */
    method OnTriggerEnter(other: MountObject, isSelected: bool)
      requires Valid()
      modifies Footprint()
      ensures Valid()
      ensures !isSelected && !old(isPlaced) && IsMountLike(other) ==> Snapped(other)
      ensures !(!isSelected && !old(isPlaced) && IsMountLike(other)) ==> unchanged(this) && RegistryUnchanged()
    {
      if !isSelected && !isPlaced {
        if IsMountLike(other) {
          SnapToMount(other);
        }
      }
    }

    /** The state part of `ResetToOriginalPosition`: a placed pad leaves its mount. */
    method ResetToOriginalPosition()
      requires Valid()
      modifies this, registry
      ensures Valid() && !isPlaced
      ensures TookOff()
    {
      if isPlaced {
        RemoveFromMount();
      }
    }

    function IsPlaced(): (placed: bool)
      reads this, registry
      ensures Valid() ==> (placed <==> currentMountObject.Some?)
    {
      isPlaced
    }

    function GetCurrentMount(): (name: string)
      reads this, registry
      ensures Valid() && !IsPlaced() ==> name == ""
    {
      currentMount
    }
  }
}
