/**
 * The history endpoints: a user stores a new snapshot of their history,
 * fetches the PDF of one of their own snapshots, and a verified
 * professional with the patient's active consent reads the patient's
 * latest snapshot, generated on first demand.
 */
module HistoryViews {
  import opened Wrappers
  import opened Records
  import PM = ProfessionalModels
  import Database
  import Seqs
  import PV = ProfessionalViews
  import HS = HistoryServices

  /** What `generate_history` answers: the new snapshot's id, or 500 when generation raises. */
  datatype GenerateOutcome = Generated(snapshotId: nat) | GenerateFailed

  /**
   * `generate_history`: `history` is what `generate_history_json` returns
   * for the requester (None when it raises); a success stores one new
   * snapshot stamped `now`.
   */
  function GenerateOn(history: Option<HistoryJson>, snapshots: seq<Snapshot>, user: nat, now: int)
    : (r: (seq<Snapshot>, GenerateOutcome))
    ensures r.1.GenerateFailed? <==> history.None?
    ensures r.1.GenerateFailed? ==> r.0 == snapshots
    ensures r.1.Generated? ==> r.0 == snapshots + [Snapshot(user, history.value, now)] && r.1.snapshotId == |r.0|
  {
    match history
    case None => (snapshots, GenerateFailed)
    case Some(h) => (snapshots + [Snapshot(user, h, now)], Generated(|snapshots| + 1))
  }

  /** `generate_history` on the store. */
  method GenerateHistory(db: Database.Db, user: nat, now: int) returns (r: GenerateOutcome)
    requires 1 <= user <= |db.users|
    modifies db`snapshots
    ensures (db.snapshots, r) ==
      GenerateOn(HS.HistoryOf(db.users, user, db.journals, db.sessions, db.messages, db.tickets, now), old(db.snapshots), user, now)
  {
    var history := HS.GenerateHistoryJson(db, user, now);
    if history.None? {
      return GenerateFailed;
    }
    db.snapshots := db.snapshots + [Snapshot(user, history.value, now)];
    r := Generated(|db.snapshots|);
  }

  /** Each successful generation adds exactly one snapshot, the requester's, and it is then their newest. */
  lemma GenerateAddsOne(history: Option<HistoryJson>, snapshots: seq<Snapshot>, user: nat, now: int)
    requires history.Some?
    ensures var (after, r) := GenerateOn(history, snapshots, user, now);
      |after| == |snapshots| + 1 && after[..|snapshots|] == snapshots &&
      Newest(after, user) == Some(r.snapshotId) && GetPdf(after, user, r.snapshotId) == Some(history.value)
  {
    var (after, r) := GenerateOn(history, snapshots, user, now);
    assert after == snapshots + [Snapshot(user, history.value, now)];
    assert after[..|snapshots|] == snapshots;
    Seqs.NewestSnoc(snapshots, Snapshot(user, history.value, now), OwnedBy(user));
  }

  function OwnedBy(user: nat): Snapshot -> bool {
    (s: Snapshot) => s.user == user
  }

  /** `PatientHistorySnapshot.objects.filter(user=...).first()` under the newest-first ordering. */
  function Newest(snapshots: seq<Snapshot>, user: nat): (r: Option<nat>)
    ensures r.None? <==> forall k :: 0 <= k < |snapshots| ==> snapshots[k].user != user
    ensures r.Some? ==> 1 <= r.value <= |snapshots| && snapshots[r.value - 1].user == user
    ensures r.Some? ==> forall k :: r.value <= k < |snapshots| ==> snapshots[k].user != user
  {
    Seqs.Newest(snapshots, OwnedBy(user))
  }

  /**
   * `get_pdf`: 404 unless the snapshot exists and belongs to the
   * requester; otherwise the JSON the PDF is rendered from.
   */
  function GetPdf(snapshots: seq<Snapshot>, requester: nat, snapshotId: nat): (r: Option<HistoryJson>)
    ensures r.Some? <==> 1 <= snapshotId <= |snapshots| && snapshots[snapshotId - 1].user == requester
    ensures r.Some? ==> r.value == snapshots[snapshotId - 1].jsonData
  {
    if 1 <= snapshotId <= |snapshots| && snapshots[snapshotId - 1].user == requester then Some(snapshots[snapshotId - 1].jsonData)
    else None
  }

  function ActiveGrant(patient: nat, pro: nat): ConsentGrant -> bool {
    (c: ConsentGrant) => c.user == patient && c.professional == pro && c.active
  }

  /** `ConsentGrant.objects.filter(user=patient, professional=professional, active=True).first()` finds a row. */
  predicate HasConsent(consents: seq<ConsentGrant>, patient: nat, pro: nat) {
    Seqs.Newest(consents, ActiveGrant(patient, pro)).Some?
  }

  /** What `professional_patient_history` answers. */
  datatype PatientOutcome =
    | NotAProfessional      // 403
    | NotVerified           // 403
    | PatientNotFound       // 404
    | NoConsent             // 403
    | PatientError          // 500: generating the missing snapshot raised
    | PatientHistory(snapshotId: nat, json: HistoryJson)

  function PatientStatus(r: PatientOutcome): int {
    match r
    case NotAProfessional => 403
    case NotVerified => 403
    case PatientNotFound => 404
    case NoConsent => 403
    case PatientError => 500
    case PatientHistory(_, _) => 200
  }

  /**
   * `professional_patient_history`: the verified-professional guard, 404
   * for an unknown patient, 403 without an active consent of the patient
   * to the requester's profile; then the patient's newest snapshot, or a
   * new one made from `history` (what `generate_history_json` returns for
   * the patient) when there is none.
   */
  function PatientOn(pros: seq<PM.Professional>, users: seq<User>, consents: seq<ConsentGrant>, snapshots: seq<Snapshot>,
                     requester: nat, patient: nat, history: Option<HistoryJson>, now: int): (r: (seq<Snapshot>, PatientOutcome))
    ensures r.1.NotAProfessional? <==> PV.Guard(pros, requester).NotAProfessional?
    ensures r.1.NotVerified? <==> PV.Guard(pros, requester).NotVerified?
    ensures r.1.PatientNotFound? <==> PV.Guard(pros, requester).Granted? && !(1 <= patient <= |users|)
    ensures r.1.NoConsent? <==>
      PV.Guard(pros, requester).Granted? && 1 <= patient <= |users| && !HasConsent(consents, patient, PV.Guard(pros, requester).pro)
    ensures r.1.PatientHistory? || r.1.PatientError? ==>
      PV.Guard(pros, requester).Granted? && 1 <= patient <= |users| && HasConsent(consents, patient, PV.Guard(pros, requester).pro)
    ensures r.1.PatientError? <==>
      PV.Guard(pros, requester).Granted? && 1 <= patient <= |users| &&
      HasConsent(consents, patient, PV.Guard(pros, requester).pro) && Newest(snapshots, patient).None? && history.None?
    ensures !(r.1.PatientHistory? && Newest(snapshots, patient).None?) ==> r.0 == snapshots
    ensures r.1.PatientHistory? && Newest(snapshots, patient).Some? ==>
      r.1.snapshotId == Newest(snapshots, patient).value && r.1.json == snapshots[r.1.snapshotId - 1].jsonData
    ensures r.1.PatientHistory? && Newest(snapshots, patient).None? ==>
      r.0 == snapshots + [Snapshot(patient, history.value, now)] && r.1 == PatientHistory(|r.0|, history.value)
  {
    match PV.Guard(pros, requester)
    case NotAProfessional => (snapshots, NotAProfessional)
    case NotVerified => (snapshots, NotVerified)
    case Granted(pro) =>
      if !(1 <= patient <= |users|) then (snapshots, PatientNotFound)
      else if !HasConsent(consents, patient, pro) then (snapshots, NoConsent)
      else ServeOn(snapshots, patient, history, now)
  }

  /** The patient's newest snapshot, or a new one from `history`; 500 when there is none and generation raises. */
  function ServeOn(snapshots: seq<Snapshot>, patient: nat, history: Option<HistoryJson>, now: int): (r: (seq<Snapshot>, PatientOutcome))
    ensures r.1.PatientHistory? || r.1.PatientError?
  {
    match Newest(snapshots, patient)
    case Some(id) => (snapshots, PatientHistory(id, snapshots[id - 1].jsonData))
    case None =>
      if history.None? then (snapshots, PatientError)
      else (snapshots + [Snapshot(patient, history.value, now)], PatientHistory(|snapshots| + 1, history.value))
  }

  /** What `generate_history_json(patient)` returns on the store, for a patient who exists. */
  function HistoryFor(users: seq<User>, journals: seq<JournalEntry>, sessions: seq<ChatSession>, messages: seq<ChatMessage>,
                      tickets: seq<PM.EscalationTicket>, patient: nat, now: int): Option<HistoryJson>
  {
    if 1 <= patient <= |users| then HS.HistoryOf(users, patient, journals, sessions, messages, tickets, now) else None
  }

  /** `professional_patient_history` on the store. */
  method ProfessionalPatientHistory(db: Database.Db, requester: nat, patient: nat, now: int) returns (r: PatientOutcome)
    modifies db`snapshots
    ensures (db.snapshots, r) == PatientOn(db.professionals, db.users, db.consents, old(db.snapshots), requester, patient,
                                           HistoryFor(db.users, db.journals, db.sessions, db.messages, db.tickets, patient, now), now)
  {
    var access := PV.Guard(db.professionals, requester);
    if access.NotAProfessional? {
      return NotAProfessional;
    }
    if access.NotVerified? {
      return NotVerified;
    }
    if !(1 <= patient <= |db.users|) {
      return PatientNotFound;
    }
    if !HasConsent(db.consents, patient, access.pro) {
      return NoConsent;
    }
    r := ServePatient(db, patient, now);
  }

  /** The end of `professional_patient_history` on the store, past the guards. */
  method ServePatient(db: Database.Db, patient: nat, now: int) returns (r: PatientOutcome)
    requires 1 <= patient <= |db.users|
    modifies db`snapshots
    ensures (db.snapshots, r) ==
      ServeOn(old(db.snapshots), patient, HS.HistoryOf(db.users, patient, db.journals, db.sessions, db.messages, db.tickets, now), now)
  {
    var latest := Newest(db.snapshots, patient);
    if latest.Some? {
      return PatientHistory(latest.value, db.snapshots[latest.value - 1].jsonData);
    }
    var history := HS.GenerateHistoryJson(db, patient, now);
    if history.None? {
      return PatientError;
    }
    db.snapshots := db.snapshots + [Snapshot(patient, history.value, now)];
    r := PatientHistory(|db.snapshots|, history.value);
  }

  /**
   * Once a patient's history has been served, later requests serve the
   * same snapshot and store nothing, whatever generation would now return.
   */
  lemma PatientSnapshotReused(pros: seq<PM.Professional>, users: seq<User>, consents: seq<ConsentGrant>,
                              snapshots: seq<Snapshot>, requester: nat, patient: nat, history: Option<HistoryJson>, now: int,
                              later: Option<HistoryJson>, laterNow: int)
    requires PatientOn(pros, users, consents, snapshots, requester, patient, history, now).1.PatientHistory?
    ensures var (after, r) := PatientOn(pros, users, consents, snapshots, requester, patient, history, now);
      PatientOn(pros, users, consents, after, requester, patient, later, laterNow) == (after, r)
  {
    var (after, r) := PatientOn(pros, users, consents, snapshots, requester, patient, history, now);
    if Newest(snapshots, patient).None? {
      Seqs.NewestSnoc(snapshots, Snapshot(patient, history.value, now), OwnedBy(patient));
    }
  }
}
