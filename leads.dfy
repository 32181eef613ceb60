/** The ten EKG leads (the `LeadIndex` enum of ElectrodesViewModel) and the
    `ElectrodeMount` component that decides whether a plugged lead is correct. */
module Leads {
  import opened Wrappers

  /** The ten electrode positions, declared in the order of their integer values
      (LA = 0, RA = 1, LL = 2, RL = 3, V1 = 4, ..., V6 = 9). */
  datatype LeadIndex = LA | RA | LL | RL | V1 | V2 | V3 | V4 | V5 | V6

  /** The integer value the enum member carries. */
  function Ordinal(lead: LeadIndex): (n: int)
    ensures 0 <= n < 10
  {
    match lead
    case LA => 0
    case RA => 1
    case LL => 2
    case RL => 3
    case V1 => 4
    case V2 => 5
    case V3 => 6
    case V4 => 7
    case V5 => 8
    case V6 => 9
  }

  /** The cast `(LeadIndex)lead` used by the int overloads: a value outside 0..9 names
      no member, and the switch statements that receive it fall to their default branch. */
  function FromOrdinal(i: int): (r: Option<LeadIndex>)
    ensures r.Some? <==> 0 <= i < 10
    ensures r.Some? ==> Ordinal(r.value) == i
  {
    if i == 0 then Some(LA)
    else if i == 1 then Some(RA)
    else if i == 2 then Some(LL)
    else if i == 3 then Some(RL)
    else if i == 4 then Some(V1)
    else if i == 5 then Some(V2)
    else if i == 6 then Some(V3)
    else if i == 7 then Some(V4)
    else if i == 8 then Some(V5)
    else if i == 9 then Some(V6)
    else None
  }

  /** Every lead survives the round trip through its integer value, so the int
      overloads reach every lead and no two leads share a value. */
  lemma OrdinalRoundTrip(lead: LeadIndex)
    ensures FromOrdinal(Ordinal(lead)) == Some(lead)
  {
  }

  /** The label the missing-leads message prints for a lead. */
  function Label(lead: LeadIndex): string
  {
    match lead
    case LA => "LA"
    case RA => "RA"
    case LL => "LL"
    case RL => "RL"
    case V1 => "V1"
    case V2 => "V2"
    case V3 => "V3"
    case V4 => "V4"
    case V5 => "V5"
    case V6 => "V6"
  }

  /** Different leads print different labels, so the missing-leads message names each
      lead unambiguously. */
  lemma LabelsDistinct(a: LeadIndex, b: LeadIndex)
    ensures Label(a) == Label(b) ==> a == b
  {
    if Label(a) == Label(b) {
      assert Label(a)[0] == Label(b)[0] && Label(a)[1] == Label(b)[1];
    }
  }

  /** What an ElectrodeMount reports through its UnityEvents: `OnSticker(lead)`,
      `OnLead(lead)` or `OnWrongLead()`. */
  datatype MountOutcome = StickerLinked(lead: LeadIndex) | LeadLinked(lead: LeadIndex) | WrongLead

  /** A mount on the patient, configured with the lead it expects. */
  datatype ElectrodeMount = ElectrodeMount(leadID: LeadIndex) {

    /** A sticker applied here is always reported under this mount's own lead. */
    function LinkSticker(): (o: MountOutcome)
      ensures o.StickerLinked? && o.lead == leadID
    {
      StickerLinked(leadID)
    }

    /** A lead plugged in here, whose metadata names `detected`: exactly one of the
        two outcomes, the correct one iff the ids match, reported under this mount's id. */
    function LinkLead(detected: LeadIndex): (o: MountOutcome)
      ensures o.LeadLinked? <==> detected == leadID
      ensures o.WrongLead? <==> detected != leadID
      ensures o.LeadLinked? ==> o.lead == leadID
    {
      if detected == leadID then LeadLinked(leadID) else WrongLead
    }
  }
}
