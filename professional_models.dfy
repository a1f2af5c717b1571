/**
 * The professional profile and its derived facts: which verification
 * documents a profile needs, the auto-verification done on every save,
 * profile completeness and the completion percentage. Also the shapes of
 * the SOP documents and escalation tickets stored beside it.
 */
module ProfessionalModels {
  import opened Wrappers
  import Strings

  /**
   * A `Professional` row. `user` is the owning user's id; the degree
   * picture is only present or absent here.
   */
  datatype Professional = Professional(
    user: nat,
    professionalType: string,
    specialization: string,
    availability: string,
    verified: bool,
    city: string,
    pmdcId: string,
    hasDegreePicture: bool,
    universityName: string,
    createdAt: int)

  /** `x and x.strip()` is truthy: the text holds something other than whitespace. */
  predicate Filled(s: string) {
    !Strings.AllSpace(s)
  }

  lemma FilledIff(s: string)
    ensures Filled(s) <==> Strings.Strip(s) != ""
    ensures Filled(s) ==> s != ""
  {
    Strings.StripEmptyIff(s);
  }

  /** The professional type whose documents are a PMDC registration number. */
  const Psychiatrist: string := "psychiatrist"

  /**
   * `has_verification_documents`: nothing without a type; a PMDC id for a
   * psychiatrist; a degree picture and a university for anyone else.
   */
  predicate HasVerificationDocuments(p: Professional) {
    if p.professionalType == "" then false
    else if p.professionalType == Psychiatrist then Filled(p.pmdcId)
    else p.hasDegreePicture && Filled(p.universityName)
  }

  /** The row `save` writes: verified once the documents are there, never un-verified. */
  function Saved(p: Professional): (r: Professional)
    ensures r.verified <==> p.verified || HasVerificationDocuments(p)
    ensures r == p.(verified := r.verified)
  {
    if HasVerificationDocuments(p) && !p.verified then p.(verified := true) else p
  }

  /** Saving twice writes what saving once does, and a profile without a type keeps its flag. */
  lemma SavedFacts(p: Professional)
    ensures Saved(Saved(p)) == Saved(p)
    ensures p.verified ==> Saved(p).verified
    ensures p.professionalType == "" ==> Saved(p) == p
    ensures HasVerificationDocuments(p) ==> Saved(p).verified
  {
  }

  /** `is_profile_complete`: specialization and city both hold non-whitespace text. */
  predicate IsProfileComplete(p: Professional) {
    Filled(p.specialization) && Filled(p.city)
  }

  /** `get_missing_fields`: the required fields that are blank, in the order specialization, city. */
  function MissingFields(p: Professional): (r: seq<string>)
    ensures r == [] <==> IsProfileComplete(p)
    ensures "specialization" in r <==> !Filled(p.specialization)
    ensures "city" in r <==> !Filled(p.city)
    ensures r == [] || r == ["specialization"] || r == ["city"] || r == ["specialization", "city"]
  {
    var missing := if !Filled(p.specialization) then ["specialization"] else [];
    missing + (if !Filled(p.city) then ["city"] else [])
  }

  /** How many of specialization, city and availability hold non-whitespace text. */
  function FilledCount(p: Professional): (k: nat)
    ensures k <= 3
  {
    (if Filled(p.specialization) then 1 else 0) + (if Filled(p.city) then 1 else 0)
      + (if Filled(p.availability) then 1 else 0)
  }

  /**
   * `get_profile_completion_percentage`: `int(k / 3 * 100)`. For k in 0..3
   * the float product truncates to the integer quotient below.
   */
  function CompletionPercentage(p: Professional): (r: nat)
    ensures r in {0, 33, 66, 100}
    ensures r == 100 <==> FilledCount(p) == 3
    ensures r == 0 <==> FilledCount(p) == 0
    ensures r * 3 <= FilledCount(p) * 100 < (r + 1) * 3
  {
    FilledCount(p) * 100 / 3
  }

  /** A complete profile is at least two thirds done, and a fully filled one is complete. */
  lemma CompleteIsTwoThirds(p: Professional)
    ensures IsProfileComplete(p) ==> CompletionPercentage(p) >= 66
    ensures CompletionPercentage(p) == 100 ==> IsProfileComplete(p) && MissingFields(p) == []
  {
  }

  // ----- SOP documents and escalation tickets ------------------------------

  /** A `ProfessionalSOPDoc` row. */
  datatype SopDoc = SopDoc(title: string, category: string, content: string, createdBy: nat, active: bool, createdAt: int)

  datatype TicketStatus = Pending | Reviewed

  /** `VERDICT_CHOICES`. */
  datatype Verdict = ConsultRequired | Monitor | NoAction

  /** An `EscalationTicket` row; `session`, `user` and `assignedProfessional` are ids. */
  datatype EscalationTicket = EscalationTicket(
    session: nat,
    user: nat,
    assignedProfessional: nat,
    reason: string,
    status: TicketStatus,
    verdict: Option<Verdict>,
    professionalNotes: string,
    createdAt: int,
    reviewedAt: Option<int>)

  /** The stored spelling of a verdict. */
  function VerdictName(v: Verdict): string {
    match v
    case ConsultRequired => "consult_required"
    case Monitor => "monitor"
    case NoAction => "no_action"
  }

  /** The verdict a choice string names, if any. */
  function ParseVerdict(s: string): (r: Option<Verdict>)
    ensures r.Some? ==> VerdictName(r.value) == s
  {
    if s == "consult_required" then Some(ConsultRequired)
    else if s == "monitor" then Some(Monitor)
    else if s == "no_action" then Some(NoAction)
    else None
  }

  /** Exactly the three choice strings are accepted, and each one names its own verdict. */
  lemma VerdictChoices(v: Verdict, s: string)
    ensures ParseVerdict(VerdictName(v)) == Some(v)
    ensures ParseVerdict(s).Some? <==> s in {"consult_required", "monitor", "no_action"}
  {
  }
}
