/**
 * The post-save receiver that gives a newly registered professional user an
 * unverified profile, unless the user already has one.
 */
module Signals {
  import opened Wrappers
  import opened Records
  import PM = ProfessionalModels
  import Database

  /** The model class whose save sent the signal. */
  datatype SenderModel = UserModel | OtherModel

  const GeneralPractice: string := "General Practice"

  /** `professional_type or 'General Practice'`: the type when it is set and non-empty. */
  function DefaultSpecialization(u: User): (r: string)
    ensures r != ""
    ensures u.professionalType.Some? && u.professionalType.value != "" ==> r == u.professionalType.value
  {
    if u.professionalType.Some? && u.professionalType.value != "" then u.professionalType.value else GeneralPractice
  }

  /** The profile `get_or_create` makes for user `id`: no type, the default specialization, '' availability and city. */
  function NewRecord(id: nat, u: User, verified: bool, now: int): PM.Professional {
    PM.Professional(id, "", DefaultSpecialization(u), "", verified, "", "", false, "", now)
  }

  /** Saving a new record keeps its flag: without a type there are no documents. */
  lemma NewRecordSaved(id: nat, u: User, verified: bool, now: int)
    ensures PM.Saved(NewRecord(id, u, verified, now)) == NewRecord(id, u, verified, now)
  {
    PM.SavedFacts(NewRecord(id, u, verified, now));
  }

  /** The signal acts only on the creation of a professional user. */
  predicate Acts(users: seq<User>, sender: SenderModel, instance: nat, created: bool) {
    sender == UserModel && created && 1 <= instance <= |users| && users[instance - 1].isProfessional
  }

  /**
   * `create_professional_profile`: the profile table after the signal. A
   * user who already has a profile keeps it; otherwise one unverified
   * profile is appended.
   */
  function AfterSignal(pros: seq<PM.Professional>, users: seq<User>, sender: SenderModel, instance: nat, created: bool,
                       now: int): (r: seq<PM.Professional>)
    ensures !Acts(users, sender, instance, created) || Database.ProfileOf(pros, instance).Some? ==> r == pros
    ensures Acts(users, sender, instance, created) && Database.ProfileOf(pros, instance).None? ==>
      r == pros + [NewRecord(instance, users[instance - 1], false, now)]
  {
    if !Acts(users, sender, instance, created) then pros
    else match Database.ProfileOf(pros, instance)
      case Some(_) => pros
      case None =>
        NewRecordSaved(instance, users[instance - 1], false, now);
        pros + [PM.Saved(NewRecord(instance, users[instance - 1], false, now))]
  }

  /**
   * After the signal a created professional user has a profile, the table
   * keeps one profile per user, nothing is verified that was not, and a
   * repeated signal changes nothing.
   */
  lemma SignalFacts(pros: seq<PM.Professional>, users: seq<User>, sender: SenderModel, instance: nat, created: bool,
                    now: int, later: int)
    ensures var r := AfterSignal(pros, users, sender, instance, created, now);
      && (Acts(users, sender, instance, created) ==> Database.ProfileOf(r, instance).Some?)
      && (Database.OneProfilePerUser(pros) ==> Database.OneProfilePerUser(r))
      && |r| >= |pros| && r[..|pros|] == pros
      && (forall k :: |pros| <= k < |r| ==> !r[k].verified && r[k].user == instance)
      && AfterSignal(r, users, sender, instance, created, later) == r
  {
    var r := AfterSignal(pros, users, sender, instance, created, now);
    if Acts(users, sender, instance, created) && Database.ProfileOf(pros, instance).None? {
      var x := NewRecord(instance, users[instance - 1], false, now);
      Database.ProfileOfSnoc(pros, x, instance);
      if Database.OneProfilePerUser(pros) {
        Database.OneProfileKept(pros, x, 0, x);
      }
      assert r[..|pros|] == pros;
    }
  }

  /** The receiver on the store. */
  method CreateProfessionalProfile(db: Database.Db, sender: SenderModel, instance: nat, created: bool, now: int)
    modifies db`professionals
    ensures db.professionals == AfterSignal(old(db.professionals), db.users, sender, instance, created, now)
  {
    if sender != UserModel {
      return;
    }
    if created && 1 <= instance <= |db.users| && db.users[instance - 1].isProfessional {
      var existing := Database.ProfileOf(db.professionals, instance);
      if existing.None? {
        db.professionals := db.professionals + [PM.Saved(NewRecord(instance, db.users[instance - 1], false, now))];
      }
    }
  }
}
