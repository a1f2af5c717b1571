/**
 * The consent endpoints: a user grants a verified professional access to
 * their history, and lists the grants that are active.
 */
module ConsentViews {
  import opened Wrappers
  import opened Records
  import PM = ProfessionalModels
  import Database
  import Seqs

  /** The row of the pair `(user, professional)`. */
  function PairOf(user: nat, pro: nat): ConsentGrant -> bool {
    (c: ConsentGrant) => c.user == user && c.professional == pro
  }

  /** The id of the grant from `user` to `pro`, if there is one. */
  function GrantOf(consents: seq<ConsentGrant>, user: nat, pro: nat): (r: Option<nat>)
    ensures r.None? <==> forall k :: 0 <= k < |consents| ==> !(consents[k].user == user && consents[k].professional == pro)
    ensures r.Some? ==> 1 <= r.value <= |consents| && consents[r.value - 1].user == user && consents[r.value - 1].professional == pro
  {
    Seqs.Newest(consents, PairOf(user, pro))
  }

  /** What `grant_consent` answers: 400, 404, or the grant's id and whether it is new (201) or not (200). */
  datatype GrantOutcome = GrantInvalid | GrantNotFound | Granted(id: nat, created: bool)

  function GrantStatus(r: GrantOutcome): int {
    match r
    case GrantInvalid => 400
    case GrantNotFound => 404
    case Granted(_, created) => if created then 201 else 200
  }

  /**
   * `grant_consent`: 400 without an integer `professional_id`, 404 unless
   * it names a verified profile; otherwise `get_or_create` on the pair
   * with `active` true, and an existing grant is set active again.
   */
  function GrantOn(pros: seq<PM.Professional>, consents: seq<ConsentGrant>, user: nat, professionalId: Option<int>,
                   now: int): (r: (seq<ConsentGrant>, GrantOutcome))
    ensures r.1.GrantInvalid? <==> professionalId.None?
    ensures r.1.GrantNotFound? <==> professionalId.Some? && !(1 <= professionalId.value <= |pros| && pros[professionalId.value - 1].verified)
    ensures !r.1.Granted? ==> r.0 == consents
    ensures r.1.Granted? ==>
      && 1 <= r.1.id <= |r.0| && r.0[r.1.id - 1] == ConsentGrant(user, professionalId.value, true, r.0[r.1.id - 1].createdAt)
      && (r.1.created <==> GrantOf(consents, user, professionalId.value).None?)
      && (r.1.created ==> r.0 == consents + [ConsentGrant(user, professionalId.value, true, now)] && r.1.id == |r.0|)
      && (!r.1.created ==>
            Some(r.1.id) == GrantOf(consents, user, professionalId.value) &&
            r.0 == consents[r.1.id - 1 := consents[r.1.id - 1].(active := true)])
  {
    if professionalId.None? then (consents, GrantInvalid)
    else
      var pro := professionalId.value;
      if !(1 <= pro <= |pros| && pros[pro - 1].verified) then (consents, GrantNotFound)
      else
        match GrantOf(consents, user, pro)
        case None => (consents + [ConsentGrant(user, pro, true, now)], Granted(|consents| + 1, true))
        case Some(id) => (consents[id - 1 := consents[id - 1].(active := true)], Granted(id, false))
  }

  /** A grant keeps one row per pair. */
  lemma GrantKeepsOnePerPair(pros: seq<PM.Professional>, consents: seq<ConsentGrant>, user: nat, professionalId: Option<int>,
                             now: int)
    requires Database.OneGrantPerPair(consents)
    ensures Database.OneGrantPerPair(GrantOn(pros, consents, user, professionalId, now).0)
  {
    var (after, r) := GrantOn(pros, consents, user, professionalId, now);
    if r.Granted? {
      var pro := professionalId.value;
      forall i, j | 0 <= i < j < |after| ensures (after[i].user, after[i].professional) != (after[j].user, after[j].professional) {
        if r.created && j == |consents| {
          assert !(consents[i].user == user && consents[i].professional == pro);
        } else {
          assert (after[i].user, after[i].professional) == (consents[i].user, consents[i].professional);
          assert (after[j].user, after[j].professional) == (consents[j].user, consents[j].professional);
        }
      }
    }
  }

  /** After a grant the pair's row is the one granted. */
  lemma GrantFound(pros: seq<PM.Professional>, consents: seq<ConsentGrant>, user: nat, professionalId: Option<int>, now: int)
    requires GrantOn(pros, consents, user, professionalId, now).1.Granted?
    ensures GrantOf(GrantOn(pros, consents, user, professionalId, now).0, user, professionalId.value)
            == Some(GrantOn(pros, consents, user, professionalId, now).1.id)
  {
    var (after, r) := GrantOn(pros, consents, user, professionalId, now);
    var pro := professionalId.value;
    if r.created {
      Seqs.NewestSnoc(consents, ConsentGrant(user, pro, true, now), PairOf(user, pro));
    } else {
      Seqs.IdsWhereSame(after, PairOf(user, pro), consents, PairOf(user, pro));
    }
  }

  /** After a grant the pair's row is the one granted, and a second grant answers 200 with that row and changes nothing. */
  lemma GrantTwice(pros: seq<PM.Professional>, consents: seq<ConsentGrant>, user: nat, professionalId: Option<int>,
                   now: int, later: int)
    ensures var (after, r) := GrantOn(pros, consents, user, professionalId, now);
      r.Granted? ==>
        && GrantOf(after, user, professionalId.value) == Some(r.id)
        && GrantOn(pros, after, user, professionalId, later) == (after, Granted(r.id, false))
  {
    var (after, r) := GrantOn(pros, consents, user, professionalId, now);
    if r.Granted? {
      GrantFound(pros, consents, user, professionalId, now);
      assert after[r.id - 1].active;
      assert after[r.id - 1 := after[r.id - 1].(active := true)] == after;
    }
  }

  /** `grant_consent` on the store. */
  method GrantConsent(db: Database.Db, user: nat, professionalId: Option<int>, now: int) returns (r: GrantOutcome)
    modifies db`consents
    ensures (db.consents, r) == GrantOn(db.professionals, old(db.consents), user, professionalId, now)
  {
    if professionalId.None? {
      return GrantInvalid;
    }
    var pro := professionalId.value;
    if !(1 <= pro <= |db.professionals| && db.professionals[pro - 1].verified) {
      return GrantNotFound;
    }
    var existing := GrantOf(db.consents, user, pro);
    if existing.None? {
      db.consents := db.consents + [ConsentGrant(user, pro, true, now)];
      r := Granted(|db.consents|, true);
    } else {
      var consent := db.consents[existing.value - 1];
      consent := consent.(active := true);
      db.consents := db.consents[existing.value - 1 := consent];
      r := Granted(existing.value, false);
    }
  }

  function ActiveFor(user: nat): ConsentGrant -> bool {
    (c: ConsentGrant) => c.user == user && c.active
  }

  /** `consent_status`: the ids of the requester's active grants, newest first. */
  function ConsentStatus(consents: seq<ConsentGrant>, user: nat): (r: seq<nat>)
    ensures forall id :: id in r <==> 1 <= id <= |consents| && consents[id - 1].user == user && consents[id - 1].active
    ensures forall i, j :: 0 <= i < j < |r| ==> r[i] > r[j]
  {
    Seqs.IdsWhere(consents, ActiveFor(user))
  }

  /** After a grant the professional's row is among the requester's active grants. */
  lemma GrantShows(pros: seq<PM.Professional>, consents: seq<ConsentGrant>, user: nat, professionalId: Option<int>, now: int)
    ensures var (after, r) := GrantOn(pros, consents, user, professionalId, now);
      r.Granted? ==> r.id in ConsentStatus(after, user)
  {
  }
}
