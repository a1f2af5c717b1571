/**
 * The professionals' endpoints: the public list, the verified-professional
 * guard, the tickets assigned to a professional, a ticket's detail, the
 * verdict that reviews a pending ticket, and a user's own tickets.
 */
module ProfessionalViews {
  import opened Wrappers
  import PM = ProfessionalModels
  import Database
  import Seqs
  import CS = ChatServices
  import PS = ProfessionalSerializers

  function IsVerified(): PM.Professional -> bool {
    (p: PM.Professional) => p.verified
  }

  /** `ProfessionalListView`: the ids of the verified profiles, newest first (the model's `-created_at` ordering). */
  function ListProfessionals(pros: seq<PM.Professional>): (r: seq<nat>)
    ensures forall id :: id in r <==> 1 <= id <= |pros| && pros[id - 1].verified
    ensures forall i, j :: 0 <= i < j < |r| ==> r[i] > r[j]
  {
    Seqs.IdsWhere(pros, IsVerified())
  }

  /** Who may use the escalation endpoints. */
  datatype Access = NotAProfessional | NotVerified | Granted(pro: nat)

  /**
   * The guard of the three escalation endpoints: 403 without a profile,
   * 403 with an unverified one, else the requester's profile id.
   */
  function Guard(pros: seq<PM.Professional>, user: nat): (r: Access)
    ensures r.NotAProfessional? <==> forall k :: 0 <= k < |pros| ==> pros[k].user != user
    ensures r.NotVerified? <==> Database.ProfileOf(pros, user).Some? && !pros[Database.ProfileOf(pros, user).value - 1].verified
    ensures r.Granted? ==> Database.ProfileOf(pros, user) == Some(r.pro) && pros[r.pro - 1].verified && pros[r.pro - 1].user == user
  {
    match Database.ProfileOf(pros, user)
    case None => NotAProfessional
    case Some(id) => if pros[id - 1].verified then Granted(id) else NotVerified
  }

  /** Under the one-profile constraint, only a verified profile of the requester opens the endpoints. */
  lemma GuardGrants(pros: seq<PM.Professional>, user: nat, k: nat)
    requires Database.OneProfilePerUser(pros) && k < |pros| && pros[k].user == user
    ensures Guard(pros, user) == if pros[k].verified then Granted(k + 1) else NotVerified
  {
    Database.ProfileOfUnique(pros, user, k);
  }

  /** A list answer: 403, or ticket ids. */
  datatype Listing = ListForbidden | Tickets(ids: seq<nat>)

  /** `professional_escalations`: the pending tickets assigned to the requester, newest first. */
  function ProfessionalEscalations(pros: seq<PM.Professional>, tickets: seq<PM.EscalationTicket>, user: nat): (r: Listing)
    ensures r.ListForbidden? <==> !Guard(pros, user).Granted?
    ensures r.Tickets? ==> forall id :: id in r.ids <==>
      1 <= id <= |tickets| && tickets[id - 1].assignedProfessional == Guard(pros, user).pro && tickets[id - 1].status == PM.Pending
    ensures r.Tickets? ==> forall i, j :: 0 <= i < j < |r.ids| ==> r.ids[i] > r.ids[j]
  {
    match Guard(pros, user)
    case Granted(pro) => Tickets(Seqs.IdsWhere(tickets, CS.PendingFor(pro)))
    case _ => ListForbidden
  }

  /** A ticket answer: 403, 404, or the ticket. */
  datatype Detail = DetailForbidden | DetailNotFound | Found(ticket: PM.EscalationTicket)

  /** `professional_escalation_detail`: the ticket, when it is assigned to the requester, whatever its status. */
  function EscalationDetail(pros: seq<PM.Professional>, tickets: seq<PM.EscalationTicket>, user: nat, ticketId: nat): (r: Detail)
    ensures r.DetailForbidden? <==> !Guard(pros, user).Granted?
    ensures r.Found? <==> Guard(pros, user).Granted? && 1 <= ticketId <= |tickets|
                          && tickets[ticketId - 1].assignedProfessional == Guard(pros, user).pro
    ensures r.Found? ==> r.ticket == tickets[ticketId - 1]
  {
    match Guard(pros, user)
    case Granted(pro) =>
      if 1 <= ticketId <= |tickets| && tickets[ticketId - 1].assignedProfessional == pro then Found(tickets[ticketId - 1])
      else DetailNotFound
    case _ => DetailForbidden
  }

  /** What a verdict request answers. */
  datatype VerdictOutcome = VerdictForbidden | VerdictNotFound | VerdictInvalid | VerdictRecorded(ticket: PM.EscalationTicket)

  /** The ticket once reviewed: the verdict, the notes ('' when none), reviewed, stamped with `now`. */
  function Reviewed(t: PM.EscalationTicket, d: PS.VerdictData, now: int): PM.EscalationTicket {
    t.(verdict := Some(d.verdict), professionalNotes := if d.notes.Some? then d.notes.value else "",
       status := PM.Reviewed, reviewedAt := Some(now))
  }

  /** `get_object_or_404(EscalationTicket, id=..., assigned_professional=..., status='pending')` finds the ticket. */
  predicate Reviewable(tickets: seq<PM.EscalationTicket>, pro: nat, ticketId: nat) {
    1 <= ticketId <= |tickets| && tickets[ticketId - 1].assignedProfessional == pro && tickets[ticketId - 1].status == PM.Pending
  }

  /**
   * `professional_escalation_verdict`: 403 from the guard, 404 unless the
   * ticket is pending and assigned to the requester, 400 for an invalid
   * body; otherwise the ticket alone is reviewed.
   */
  function VerdictOn(pros: seq<PM.Professional>, tickets: seq<PM.EscalationTicket>, user: nat, ticketId: nat,
                     input: PS.VerdictInput, now: int): (r: (seq<PM.EscalationTicket>, VerdictOutcome))
    ensures r.1.VerdictForbidden? <==> !Guard(pros, user).Granted?
    ensures r.1.VerdictNotFound? <==> (Guard(pros, user).Granted? && !Reviewable(tickets, Guard(pros, user).pro, ticketId))
    ensures !r.1.VerdictRecorded? ==> r.0 == tickets
    ensures r.1.VerdictRecorded? ==>
      && 1 <= ticketId <= |tickets| && PS.ValidateVerdict(input).Some?
      && r.0 == tickets[ticketId - 1 := r.1.ticket]
      && r.1.ticket == Reviewed(tickets[ticketId - 1], PS.ValidateVerdict(input).value, now)
  {
    var access := Guard(pros, user);
    if !access.Granted? then (tickets, VerdictForbidden)
    else if !Reviewable(tickets, access.pro, ticketId) then (tickets, VerdictNotFound)
    else if PS.ValidateVerdict(input).None? then (tickets, VerdictInvalid)
    else
      var t := Reviewed(tickets[ticketId - 1], PS.ValidateVerdict(input).value, now);
      (tickets[ticketId - 1 := t], VerdictRecorded(t))
  }

  /**
   * A recorded verdict changes only the verdict, the notes, the status and
   * the review time of that one ticket; a second verdict on it gets 404
   * and changes nothing.
   */
  lemma VerdictOnce(pros: seq<PM.Professional>, tickets: seq<PM.EscalationTicket>, user: nat, ticketId: nat,
                    input: PS.VerdictInput, now: int, again: PS.VerdictInput, later: int)
    requires VerdictOn(pros, tickets, user, ticketId, input, now).1.VerdictRecorded?
    ensures var (after, r) := VerdictOn(pros, tickets, user, ticketId, input, now);
      && |after| == |tickets|
      && (forall k :: 0 <= k < |tickets| && k != ticketId - 1 ==> after[k] == tickets[k])
      && after[ticketId - 1].status == PM.Reviewed && after[ticketId - 1].reviewedAt == Some(now)
      && after[ticketId - 1] == tickets[ticketId - 1].(verdict := after[ticketId - 1].verdict,
           professionalNotes := after[ticketId - 1].professionalNotes, status := PM.Reviewed, reviewedAt := Some(now))
      && VerdictOn(pros, after, user, ticketId, again, later) == (after, VerdictNotFound)
  {
  }

  /** `professional_escalation_verdict` on the store. */
  method EscalationVerdict(db: Database.Db, user: nat, ticketId: nat, input: PS.VerdictInput, now: int)
    returns (r: VerdictOutcome)
    modifies db`tickets
    ensures (db.tickets, r) == VerdictOn(db.professionals, old(db.tickets), user, ticketId, input, now)
  {
    var access := Guard(db.professionals, user);
    if !access.Granted? {
      return VerdictForbidden;
    }
    if !Reviewable(db.tickets, access.pro, ticketId) {
      return VerdictNotFound;
    }
    var validated := PS.ValidateVerdict(input);
    if validated.None? {
      return VerdictInvalid;
    }
    var ticket := db.tickets[ticketId - 1];
    ticket := ticket.(verdict := Some(validated.value.verdict));
    ticket := ticket.(professionalNotes := if validated.value.notes.Some? then validated.value.notes.value else "");
    ticket := ticket.(status := PM.Reviewed);
    ticket := ticket.(reviewedAt := Some(now));
    db.tickets := db.tickets[ticketId - 1 := ticket];
    r := VerdictRecorded(ticket);
  }

  function RaisedFor(user: nat): PM.EscalationTicket -> bool {
    (t: PM.EscalationTicket) => t.user == user
  }

  /** `my_escalations`: the requester's own tickets, newest first. */
  function MyEscalations(tickets: seq<PM.EscalationTicket>, user: nat): (r: seq<nat>)
    ensures forall id :: id in r <==> 1 <= id <= |tickets| && tickets[id - 1].user == user
    ensures forall i, j :: 0 <= i < j < |r| ==> r[i] > r[j]
  {
    Seqs.IdsWhere(tickets, RaisedFor(user))
  }
}
