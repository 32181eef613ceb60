/** The sticker/lead progress of the electrode-placement sequence: `ElectrodesModel`
    holds one sticker flag and one lead flag per EKG lead, and `ElectrodesViewModel`
    writes them and reacts to the "done" values. The reactive streams of the source
    are modelled as a synchronous recomputation after every flag write that changes
    a flag (a reactive property notifies only when its value changes). */
module Electrodes {
  import opened Wrappers
  import opened Leads

  class ElectrodesModel {
    var LASticker: bool
    var LALead: bool
    var RASticker: bool
    var RALead: bool
    var LLSticker: bool
    var LLLead: bool
    var RLSticker: bool
    var RLLead: bool
    var V1Sticker: bool
    var V1Lead: bool
    var V2Sticker: bool
    var V2Lead: bool
    var V3Sticker: bool
    var V3Lead: bool
    var V4Sticker: bool
    var V4Lead: bool
    var V5Sticker: bool
    var V5Lead: bool
    var V6Sticker: bool
    var V6Lead: bool

    /** Every flag starts false, and so do both done values. */
    constructor ()
      ensures forall lead :: !Sticker(lead) && !Lead(lead)
      ensures !StickersDone() && !LeadsDone()
    {
      LASticker, LALead, RASticker, RALead, LLSticker := false, false, false, false, false;
      LLLead, RLSticker, RLLead, V1Sticker, V1Lead := false, false, false, false, false;
      V2Sticker, V2Lead, V3Sticker, V3Lead, V4Sticker := false, false, false, false, false;
      V4Lead, V5Sticker, V5Lead, V6Sticker, V6Lead := false, false, false, false, false;
    }

    /** The sticker flag of one lead. */
    function Sticker(lead: LeadIndex): bool
      reads this
    {
      match lead
      case LA => LASticker
      case RA => RASticker
      case LL => LLSticker
      case RL => RLSticker
      case V1 => V1Sticker
      case V2 => V2Sticker
      case V3 => V3Sticker
      case V4 => V4Sticker
      case V5 => V5Sticker
      case V6 => V6Sticker
    }

    /** The lead flag of one lead. */
    function Lead(lead: LeadIndex): bool
      reads this
    {
      match lead
      case LA => LALead
      case RA => RALead
      case LL => LLLead
      case RL => RLLead
      case V1 => V1Lead
      case V2 => V2Lead
      case V3 => V3Lead
      case V4 => V4Lead
      case V5 => V5Lead
      case V6 => V6Lead
    }

    /** The value the sticker CombineLatest pushes: true iff every lead has its sticker. */
    function StickersDone(): (done: bool)
      reads this
      ensures done <==> forall lead :: Sticker(lead)
    {
      Sticker(LA) && Sticker(LL) && Sticker(RA) && Sticker(RL) && Sticker(V1) &&
      Sticker(V2) && Sticker(V3) && Sticker(V4) && Sticker(V5) && Sticker(V6)
    }

    /** The value the lead CombineLatest pushes: true iff every lead is plugged in. */
    function LeadsDone(): (done: bool)
      reads this
      ensures done <==> forall lead :: Lead(lead)
    {
      Lead(LA) && Lead(LL) && Lead(RA) && Lead(RL) && Lead(V1) &&
      Lead(V2) && Lead(V3) && Lead(V4) && Lead(V5) && Lead(V6)
    }

    /** Assigning the `Value` of one sticker property: exactly that flag changes. */
    method WriteSticker(lead: LeadIndex, value: bool)
      modifies this
      ensures forall l :: Sticker(l) == (if l == lead then value else old(Sticker(l)))
      ensures forall l :: Lead(l) == old(Lead(l))
    {
      match lead {
        case LA => LASticker := value;
        case RA => RASticker := value;
        case LL => LLSticker := value;
        case RL => RLSticker := value;
        case V1 => V1Sticker := value;
        case V2 => V2Sticker := value;
        case V3 => V3Sticker := value;
        case V4 => V4Sticker := value;
        case V5 => V5Sticker := value;
        case V6 => V6Sticker := value;
      }
    }

    /** Assigning the `Value` of one lead property: exactly that flag changes. */
    method WriteLead(lead: LeadIndex, value: bool)
      modifies this
      ensures forall l :: Lead(l) == (if l == lead then value else old(Lead(l)))
      ensures forall l :: Sticker(l) == old(Sticker(l))
    {
      match lead {
        case LA => LALead := value;
        case RA => RALead := value;
        case LL => LLLead := value;
        case RL => RLLead := value;
        case V1 => V1Lead := value;
        case V2 => V2Lead := value;
        case V3 => V3Lead := value;
        case V4 => V4Lead := value;
        case V5 => V5Lead := value;
        case V6 => V6Lead := value;
      }
    }
  }

  /** The order in which the missing-leads message lists the leads. */
  const MessageOrder: seq<LeadIndex> := [LA, LL, RA, RL, V1, V2, V3, V4, V5, V6]

  const MissingPrefix: string := "Missing or Incorrect leads: "

  /** The instruction `BuildMissingLeadString` sets: the prefix, then the label of every
      lead whose flag is false, each followed by a space. */
  function MissingLeadMessage(m: ElectrodesModel): string
    reads m
  {
    MissingPrefix +
    Term(m.LALead, "LA ") +
    Term(m.LLLead, "LL ") +
    Term(m.RALead, "RA ") +
    Term(m.RLLead, "RL ") +
    Term(m.V1Lead, "V1 ") +
    Term(m.V2Lead, "V2 ") +
    Term(m.V3Lead, "V3 ") +
    Term(m.V4Lead, "V4 ") +
    Term(m.V5Lead, "V5 ") +
    Term(m.V6Lead, "V6 ")
  }

  /** What the message prints for one lead: nothing if it is plugged in, otherwise
      its label and a space. */
  function Piece(m: ElectrodesModel, lead: LeadIndex): string
    reads m
  {
    Term(m.Lead(lead), Label(lead) + " ")
  }

  /** One term of the message: empty when the lead is plugged in, otherwise its label. */
  function Term(plugged: bool, text: string): string
  {
    if plugged then "" else text
  }

  /** Reference listing: the labels of the leads of `order` whose flag is false, each
      followed by a space, in the order given. */
  function Missing(m: ElectrodesModel, order: seq<LeadIndex>): string
    reads m
  {
    if order == [] then "" else Missing(m, order[..|order| - 1]) + Piece(m, order[|order| - 1])
  }

  /** Each term of the message is the piece of its lead. */
  lemma PiecesAreTerms(m: ElectrodesModel)
    ensures Piece(m, LA) == Term(m.LALead, "LA ")
    ensures Piece(m, LL) == Term(m.LLLead, "LL ")
    ensures Piece(m, RA) == Term(m.RALead, "RA ")
    ensures Piece(m, RL) == Term(m.RLLead, "RL ")
    ensures Piece(m, V1) == Term(m.V1Lead, "V1 ")
    ensures Piece(m, V2) == Term(m.V2Lead, "V2 ")
    ensures Piece(m, V3) == Term(m.V3Lead, "V3 ")
    ensures Piece(m, V4) == Term(m.V4Lead, "V4 ")
    ensures Piece(m, V5) == Term(m.V5Lead, "V5 ")
    ensures Piece(m, V6) == Term(m.V6Lead, "V6 ")
  {
  }

  /** The message is the prefix followed by the reference listing over the message order:
      the message, read term by term, is the listing of one more lead each time. */
  lemma MissingLeadMessageIsListing(m: ElectrodesModel)
    ensures MissingLeadMessage(m) == MissingPrefix + Missing(m, MessageOrder)
  {
    PiecesAreTerms(m);
    var o, p := MessageOrder, MissingPrefix;
    assert o[..0] == [];
    var acc := p;
    assert o[0] == LA;
    ListingStep(m, p, 1); acc := acc + Piece(m, LA); assert p + Missing(m, o[..1]) == acc;
    assert o[1] == LL;
    ListingStep(m, p, 2); acc := acc + Piece(m, LL); assert p + Missing(m, o[..2]) == acc;
    assert o[2] == RA;
    ListingStep(m, p, 3); acc := acc + Piece(m, RA); assert p + Missing(m, o[..3]) == acc;
    assert o[3] == RL;
    ListingStep(m, p, 4); acc := acc + Piece(m, RL); assert p + Missing(m, o[..4]) == acc;
    assert o[4] == V1;
    ListingStep(m, p, 5); acc := acc + Piece(m, V1); assert p + Missing(m, o[..5]) == acc;
    assert o[5] == V2;
    ListingStep(m, p, 6); acc := acc + Piece(m, V2); assert p + Missing(m, o[..6]) == acc;
    assert o[6] == V3;
    ListingStep(m, p, 7); acc := acc + Piece(m, V3); assert p + Missing(m, o[..7]) == acc;
    assert o[7] == V4;
    ListingStep(m, p, 8); acc := acc + Piece(m, V4); assert p + Missing(m, o[..8]) == acc;
    assert o[8] == V5;
    ListingStep(m, p, 9); acc := acc + Piece(m, V5); assert p + Missing(m, o[..9]) == acc;
    assert o[9] == V6;
    ListingStep(m, p, 10); acc := acc + Piece(m, V6); assert p + Missing(m, o[..10]) == acc;
    assert o[..10] == o;
    assert MissingLeadMessage(m) == acc;
  }

  /** Behind any prefix, listing the first `k` leads of the order appends the `k`-th lead's
      piece to the listing of the first `k - 1`. */
  lemma ListingStep(m: ElectrodesModel, p: string, k: nat)
    requires 0 < k <= |MessageOrder|
    ensures p + Missing(m, MessageOrder[..k]) == p + Missing(m, MessageOrder[..k - 1]) + Piece(m, MessageOrder[k - 1])
  {
    assert MessageOrder[..k][..k - 1] == MessageOrder[..k - 1];
  }

  /** The listing is empty iff every lead of `order` is plugged in. */
  lemma {:induction false} MissingEmptyIff(m: ElectrodesModel, order: seq<LeadIndex>)
    ensures Missing(m, order) == "" <==> forall i :: 0 <= i < |order| ==> m.Lead(order[i])
  {
    if order != [] {
      var init := order[..|order| - 1];
      MissingEmptyIff(m, init);
      assert forall i :: 0 <= i < |init| ==> init[i] == order[i];
      assert Missing(m, order) == Missing(m, init) + Piece(m, order[|order| - 1]);
    }
  }

  /** Every lead appears in the message order. */
  lemma MessageOrderCoversAll(lead: LeadIndex)
    ensures lead in MessageOrder
  {
    match lead
    case LA => case RA => case LL => case RL => case V1 =>
    case V2 => case V3 => case V4 => case V5 => case V6 =>
  }

  /** The message is exactly the prefix iff all ten leads are plugged in. */
  lemma MessageIsPrefixIffLeadsDone(m: ElectrodesModel)
    ensures MissingLeadMessage(m) == MissingPrefix <==> m.LeadsDone()
  {
    MissingLeadMessageIsListing(m);
    MissingEmptyIff(m, MessageOrder);
    forall lead ensures lead in MessageOrder { MessageOrderCoversAll(lead); }
    if MissingLeadMessage(m) == MissingPrefix {
      assert Missing(m, MessageOrder) == (MissingPrefix + Missing(m, MessageOrder))[|MissingPrefix|..];
    }
  }

  /** The UnityEvents the view model invokes as the sequence advances. */
  datatype Phase = DoPrep | DoStickers | DoLeads | DoEKG | DoDone

  const StickersInstruction: string := "Peel the back off the pads and apply them to the patient"
  const LeadsInstruction: string := "Attach the correct lead to each electrode pad"
  const EKGInstruction: string := "Turn on the EKG machine"

  /** The view model of the sticker/lead sequence. `instructions` is the last text given to
      `SetPermanentInstructions`; `phases` records the phase events in the order invoked. The
      three flags record the state of the subscriptions made in `SetPlatform`: the two
      `Take(1)` transitions (taken or not) and whether the `SkipWhile` in front of the
      missing-leads message has stopped skipping. */
  class ElectrodesViewModel {
    const model: ElectrodesModel
    var instructions: string
    var phases: seq<Phase>
    var stickersTransitionTaken: bool
    var leadsTransitionTaken: bool
    var missingLeadsListening: bool

    /** Each transition fires on the first true "done" value and never again, so its phase
        event is in the log exactly once from then on and never before. */
    ghost predicate Valid()
      reads this, model
    {
      (model.StickersDone() ==> stickersTransitionTaken) &&
      (model.LeadsDone() ==> leadsTransitionTaken) &&
      multiset(phases)[DoLeads] == (if stickersTransitionTaken then 1 else 0) &&
      multiset(phases)[DoEKG] == (if leadsTransitionTaken then 1 else 0) &&
      (missingLeadsListening ==> stickersTransitionTaken)
    }

    /** The state right after `SetPlatform` subscribed to a fresh model. */
    constructor (model: ElectrodesModel)
      requires forall lead :: !model.Sticker(lead) && !model.Lead(lead)
      ensures Valid() && this.model == model
      ensures instructions == "" && phases == []
      ensures !stickersTransitionTaken && !leadsTransitionTaken && !missingLeadsListening
    {
      this.model := model;
      instructions := "";
      phases := [];
      stickersTransitionTaken, leadsTransitionTaken, missingLeadsListening := false, false, false;
    }

    method Prep()
      modifies this
      ensures phases == old(phases) + [DoPrep]
      ensures instructions == old(instructions)
      ensures stickersTransitionTaken == old(stickersTransitionTaken)
      ensures leadsTransitionTaken == old(leadsTransitionTaken)
      ensures missingLeadsListening == old(missingLeadsListening)
    {
      phases := phases + [DoPrep];
    }

    method Stickers()
      modifies this
      ensures instructions == StickersInstruction
      ensures phases == old(phases) + [DoStickers]
      ensures stickersTransitionTaken == old(stickersTransitionTaken)
      ensures leadsTransitionTaken == old(leadsTransitionTaken)
      ensures missingLeadsListening == old(missingLeadsListening)
    {
      instructions := StickersInstruction;
      phases := phases + [DoStickers];
    }

    method EKGDone()
      modifies this
      ensures instructions == ""
      ensures phases == old(phases) + [DoDone]
      ensures stickersTransitionTaken == old(stickersTransitionTaken)
      ensures leadsTransitionTaken == old(leadsTransitionTaken)
      ensures missingLeadsListening == old(missingLeadsListening)
    {
      phases := phases + [DoDone];
      instructions := "";
    }

    /** What `SetSticker(lead, attached)` does: exactly one sticker flag is written; a write
        that changes it makes the model push the new StickersDone value, and the first true
        value takes the leads phase. */
    twostate predicate SetStickerEffect(lead: LeadIndex, attached: bool)
      reads this, model
    {
      (forall l :: model.Sticker(l) == (if l == lead then attached else old(model.Sticker(l)))) &&
      (forall l :: model.Lead(l) == old(model.Lead(l))) &&
      stickersTransitionTaken == (old(stickersTransitionTaken) || model.StickersDone()) &&
      phases == old(phases) + (if !old(stickersTransitionTaken) && model.StickersDone() then [DoLeads] else []) &&
      instructions == (if !old(stickersTransitionTaken) && model.StickersDone() then LeadsInstruction else old(instructions)) &&
      leadsTransitionTaken == old(leadsTransitionTaken) &&
      missingLeadsListening == old(missingLeadsListening)
    }

    method SetSticker(lead: LeadIndex, attached: bool)
      requires Valid()
      modifies this, model
      ensures Valid()
      ensures SetStickerEffect(lead, attached)
      ensures model.LeadsDone() == old(model.LeadsDone())
      ensures !attached ==> !model.StickersDone()
    {
      var changed := model.Sticker(lead) != attached;
      model.WriteSticker(lead, attached);
      if changed && model.StickersDone() && !stickersTransitionTaken {
        StickersDone();
      }
    }

    /** The `Take(1)` subscriber on StickersDone. */
    method StickersDone()
      requires !stickersTransitionTaken
      modifies this
      ensures stickersTransitionTaken
      ensures phases == old(phases) + [DoLeads]
      ensures instructions == LeadsInstruction
      ensures leadsTransitionTaken == old(leadsTransitionTaken)
      ensures missingLeadsListening == old(missingLeadsListening)
    {
      stickersTransitionTaken := true;
      instructions := LeadsInstruction;
      phases := phases + [DoLeads];
    }

    /** What `SetLead(lead, attached)` does: exactly one lead flag is written; a write that
        changes it makes the model push the new LeadsDone value, which first rebuilds the
        missing-leads message (once the stickers have been done at some push) and then, on
        the first true value, takes the EKG phase. */
    twostate predicate SetLeadEffect(lead: LeadIndex, attached: bool)
      reads this, model
    {
      (forall l :: model.Lead(l) == (if l == lead then attached else old(model.Lead(l)))) &&
      (forall l :: model.Sticker(l) == old(model.Sticker(l))) &&
      missingLeadsListening ==
        (old(missingLeadsListening) || (old(model.Lead(lead)) != attached && model.StickersDone())) &&
      leadsTransitionTaken == (old(leadsTransitionTaken) || model.LeadsDone()) &&
      phases == old(phases) + (if !old(leadsTransitionTaken) && model.LeadsDone() then [DoEKG] else []) &&
      instructions ==
        (if !old(leadsTransitionTaken) && model.LeadsDone() then EKGInstruction
         else if old(model.Lead(lead)) != attached && missingLeadsListening then MissingLeadMessage(model)
         else old(instructions)) &&
      stickersTransitionTaken == old(stickersTransitionTaken)
    }

    method SetLead(lead: LeadIndex, attached: bool)
      requires Valid()
      modifies this, model
      ensures Valid()
      ensures SetLeadEffect(lead, attached)
      ensures model.StickersDone() == old(model.StickersDone())
      ensures !attached ==> !model.LeadsDone()
    {
      var changed := model.Lead(lead) != attached;
      model.WriteLead(lead, attached);
      if changed {
        LeadsDonePushed();
      }
    }

    /** The model pushes a LeadsDone value: the subscribers run in the order `SetPlatform`
        made them, the missing-leads message first (unless still skipping) and then the
        once-only EKG phase. */
    method LeadsDonePushed()
      modifies this
      ensures missingLeadsListening == (old(missingLeadsListening) || model.StickersDone())
      ensures leadsTransitionTaken == (old(leadsTransitionTaken) || model.LeadsDone())
      ensures phases == old(phases) + (if !old(leadsTransitionTaken) && model.LeadsDone() then [DoEKG] else [])
      ensures instructions ==
                if !old(leadsTransitionTaken) && model.LeadsDone() then EKGInstruction
                else if missingLeadsListening then MissingLeadMessage(model)
                else old(instructions)
      ensures stickersTransitionTaken == old(stickersTransitionTaken)
    {
      if missingLeadsListening || model.StickersDone() {
        missingLeadsListening := true;
        BuildMissingLeadString();
      }
      if model.LeadsDone() && !leadsTransitionTaken {
        LeadsDone();
      }
    }

    method BuildMissingLeadString()
      modifies this`instructions
      ensures instructions == MissingLeadMessage(model)
    {
      instructions := MissingLeadMessage(model);
    }

    /** The `Take(1)` subscriber on LeadsDone. */
    method LeadsDone()
      requires !leadsTransitionTaken
      modifies this
      ensures leadsTransitionTaken
      ensures phases == old(phases) + [DoEKG]
      ensures instructions == EKGInstruction
      ensures stickersTransitionTaken == old(stickersTransitionTaken)
      ensures missingLeadsListening == old(missingLeadsListening)
    {
      leadsTransitionTaken := true;
      phases := phases + [DoEKG];
      instructions := EKGInstruction;
    }

    method AttachSticker(lead: LeadIndex)
      requires Valid()
      modifies this, model
      ensures Valid()
      ensures SetStickerEffect(lead, true)
      ensures model.Sticker(lead)
    {
      SetSticker(lead, true);
    }

    /** The int overload: a value outside 0..9 reaches the switch's default and changes nothing. */
    method AttachStickerAt(lead: int)
      requires Valid()
      modifies this, model
      ensures Valid()
      ensures FromOrdinal(lead).None? ==> unchanged(this, model)
      ensures FromOrdinal(lead).Some? ==> SetStickerEffect(FromOrdinal(lead).value, true)
    {
      match FromOrdinal(lead) {
        case None =>
        case Some(l) => SetSticker(l, true);
      }
    }

    method AttachLead(lead: LeadIndex)
      requires Valid()
      modifies this, model
      ensures Valid()
      ensures SetLeadEffect(lead, true)
      ensures model.Lead(lead)
    {
      SetLead(lead, true);
    }

    method AttachLeadAt(lead: int)
      requires Valid()
      modifies this, model
      ensures Valid()
      ensures FromOrdinal(lead).None? ==> unchanged(this, model)
      ensures FromOrdinal(lead).Some? ==> SetLeadEffect(FromOrdinal(lead).value, true)
    {
      match FromOrdinal(lead) {
        case None =>
        case Some(l) => SetLead(l, true);
      }
    }

    method DetachLead(lead: LeadIndex)
      requires Valid()
      modifies this, model
      ensures Valid()
      ensures SetLeadEffect(lead, false)
      ensures !model.Lead(lead) && !model.LeadsDone()
    {
      SetLead(lead, false);
    }

    method DetachLeadAt(lead: int)
      requires Valid()
      modifies this, model
      ensures Valid()
      ensures FromOrdinal(lead).None? ==> unchanged(this, model)
      ensures FromOrdinal(lead).Some? ==> SetLeadEffect(FromOrdinal(lead).value, false)
    {
      match FromOrdinal(lead) {
        case None =>
        case Some(l) => SetLead(l, false);
      }
    }
  }

  /** Attaching and then detaching a lead leaves its flag false, whatever it was, and every
      other flag as it was. The detach always changes the flag, so it always pushes a
      LeadsDone value: once the stickers are done, the instructions end as the missing-leads
      message, which then names at least one lead. */
  method AttachThenDetach(vm: ElectrodesViewModel, lead: LeadIndex)
    requires vm.Valid()
    modifies vm, vm.model
    ensures vm.Valid() && !vm.model.Lead(lead) && !vm.model.LeadsDone()
    ensures forall l :: l != lead ==> vm.model.Lead(l) == old(vm.model.Lead(l))
    ensures forall l :: vm.model.Sticker(l) == old(vm.model.Sticker(l))
    ensures vm.missingLeadsListening == (old(vm.missingLeadsListening) || vm.model.StickersDone())
    ensures vm.missingLeadsListening ==>
              vm.instructions == MissingLeadMessage(vm.model) && vm.instructions != MissingPrefix
  {
    vm.AttachLead(lead);
    vm.DetachLead(lead);
    MessageIsPrefixIffLeadsDone(vm.model);
  }
}
