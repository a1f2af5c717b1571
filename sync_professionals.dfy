/**
 * The `sync_professionals` management command: every professional user
 * gets a profile (verified when `--verify` is given), `--verify` also
 * verifies the existing unverified profiles it meets, and `--verify-all`
 * verifies every profile.
 */
module SyncProfessionals {
  import opened Wrappers
  import opened Records
  import PM = ProfessionalModels
  import Database
  import Seqs
  import Signals

  function IsPro(): User -> bool {
    (u: User) => u.isProfessional
  }

  predicate UserIds(users: seq<User>, ids: seq<nat>) {
    forall i :: 0 <= i < |ids| ==> 1 <= ids[i] <= |users|
  }

  /** `User.objects.filter(is_professional=True)` under the newest-first ordering: the ids of the professional users. */
  function ProfessionalUsers(users: seq<User>): (r: seq<nat>)
    ensures forall id :: id in r <==> 1 <= id <= |users| && users[id - 1].isProfessional
    ensures forall i, j :: 0 <= i < j < |r| ==> r[i] > r[j]
    ensures UserIds(users, r)
  {
    var r := Seqs.IdsWhere(users, IsPro());
    assert forall i :: 0 <= i < |r| ==> r[i] in r;
    r
  }

  /** The profile table and the two counters as the loop goes. */
  datatype SyncState = SyncState(pros: seq<PM.Professional>, created: nat, updated: nat)

  /** One turn of the loop, for user `id`: create the profile, or verify the existing one under `--verify`. */
  function Step(s: SyncState, users: seq<User>, id: nat, verify: bool, now: int): SyncState
    requires 1 <= id <= |users|
  {
    match Database.ProfileOf(s.pros, id)
    case None => SyncState(s.pros + [PM.Saved(Signals.NewRecord(id, users[id - 1], verify, now))], s.created + 1, s.updated)
    case Some(k) =>
      if verify && !s.pros[k - 1].verified then
        SyncState(s.pros[k - 1 := PM.Saved(s.pros[k - 1].(verified := true))], s.created, s.updated + 1)
      else s
  }

  /** The loop over `ids`, in order. */
  function Run(s: SyncState, users: seq<User>, ids: seq<nat>, verify: bool, now: int): SyncState
    requires UserIds(users, ids)
    decreases |ids|
  {
    if ids == [] then s else Step(Run(s, users, ids[..|ids| - 1], verify, now), users, ids[|ids| - 1], verify, now)
  }

  /** The verified flag of the user's profile, if the user has one. */
  function Flag(pros: seq<PM.Professional>, v: nat): Option<bool> {
    match Database.ProfileOf(pros, v)
    case None => None
    case Some(k) => Some(pros[k - 1].verified)
  }

  /** Two tables that find the same profile for `v`, with the same flag, give `v` the same flag. */
  lemma FlagSame(a: seq<PM.Professional>, b: seq<PM.Professional>, v: nat)
    requires Database.ProfileOf(a, v) == Database.ProfileOf(b, v)
    requires Database.ProfileOf(a, v).Some? ==>
      a[Database.ProfileOf(a, v).value - 1].verified == b[Database.ProfileOf(a, v).value - 1].verified
    ensures Flag(a, v) == Flag(b, v)
  {
  }

  /** The flag is the one of the row the lookup finds. */
  lemma FlagSameAt(a: seq<PM.Professional>, v: nat, k: nat)
    requires Database.ProfileOf(a, v) == Some(k)
    ensures Flag(a, v) == Some(a[k - 1].verified)
  {
  }

  /** A user the loop has visited: a new profile is verified as `--verify` says, an existing one is verified under `--verify`. */
  function Synced(f: Option<bool>, verify: bool): (r: Option<bool>)
    ensures r.Some? && (verify ==> r.value) && (f.Some? && f.value ==> r.value)
  {
    if f.None? then Some(verify) else Some(f.value || verify)
  }

  function Lacking(pros: seq<PM.Professional>): nat -> bool {
    (id: nat) => Flag(pros, id).None?
  }

  function Unverified(pros: seq<PM.Professional>, verify: bool): nat -> bool {
    (id: nat) => verify && Flag(pros, id) == Some(false)
  }

  /** A step that creates the user's profile: the new row carries `--verify`, and every other user's flag stays. */
  lemma StepFlagNew(s: SyncState, users: seq<User>, id: nat, verify: bool, now: int)
    requires 1 <= id <= |users| && Database.ProfileOf(s.pros, id).None?
    ensures Flag(Step(s, users, id, verify, now).pros, id) == Some(verify)
    ensures forall v: nat :: v != id ==> Flag(Step(s, users, id, verify, now).pros, v) == Flag(s.pros, v)
  {
    var t := Step(s, users, id, verify, now);
    var x := PM.Saved(Signals.NewRecord(id, users[id - 1], verify, now));
    Signals.NewRecordSaved(id, users[id - 1], verify, now);
    Database.ProfileOfSnoc(s.pros, x, id);
    forall v: nat | v != id ensures Flag(t.pros, v) == Flag(s.pros, v) {
      Database.ProfileOfSnoc(s.pros, x, v);
      var p := Database.ProfileOf(s.pros, v);
      if p.Some? {
        assert t.pros[p.value - 1] == s.pros[p.value - 1];
      }
      FlagSame(t.pros, s.pros, v);
    }
  }

  /** A step on a user who has a profile verifies it under `--verify`, and every other user's flag stays. */
  lemma StepFlagOld(s: SyncState, users: seq<User>, id: nat, verify: bool, now: int)
    requires 1 <= id <= |users| && Database.ProfileOf(s.pros, id).Some?
    ensures Flag(Step(s, users, id, verify, now).pros, id) == Some(Flag(s.pros, id).value || verify)
    ensures forall v: nat :: v != id ==> Flag(Step(s, users, id, verify, now).pros, v) == Flag(s.pros, v)
  {
    var k := Database.ProfileOf(s.pros, id).value;
    FlagSameAt(s.pros, id, k);
    if !(verify && !s.pros[k - 1].verified) {
      assert Step(s, users, id, verify, now) == s;
    } else {
      var y := PM.Saved(s.pros[k - 1].(verified := true));
      assert y.verified && y.user == id;
      var t := s.pros[k - 1 := y];
      assert Step(s, users, id, verify, now).pros == t;
      Database.ProfileOfUpdate(s.pros, k - 1, y, id);
      assert t[k - 1] == y;
      FlagSameAt(t, id, k);
      forall v: nat | v != id ensures Flag(t, v) == Flag(s.pros, v) {
        Database.ProfileOfUpdate(s.pros, k - 1, y, v);
        var j := Database.ProfileOf(s.pros, v);
        if j.Some? {
          assert j.value != k;
          assert t[j.value - 1] == s.pros[j.value - 1];
        }
        FlagSame(t, s.pros, v);
      }
    }
  }

  /** One step syncs the user's flag, leaves every other user's flag alone, and moves the counter that matches. */
  lemma StepFlag(s: SyncState, users: seq<User>, id: nat, verify: bool, now: int)
    requires 1 <= id <= |users|
    ensures Flag(Step(s, users, id, verify, now).pros, id) == Synced(Flag(s.pros, id), verify)
    ensures forall v: nat :: v != id ==> Flag(Step(s, users, id, verify, now).pros, v) == Flag(s.pros, v)
    ensures Step(s, users, id, verify, now).created == s.created + (if Lacking(s.pros)(id) then 1 else 0)
    ensures Step(s, users, id, verify, now).updated == s.updated + (if Unverified(s.pros, verify)(id) then 1 else 0)
  {
    if Database.ProfileOf(s.pros, id).None? {
      StepFlagNew(s, users, id, verify, now);
    } else {
      StepFlagOld(s, users, id, verify, now);
    }
  }

  /** One step keeps every old row but its flag, sets a flag only on the user's row under `--verify`, and appends only the user's row. */
  lemma StepRows(s: SyncState, users: seq<User>, id: nat, verify: bool, now: int)
    requires 1 <= id <= |users|
    ensures var t := Step(s, users, id, verify, now);
      && |s.pros| <= |t.pros| <= |s.pros| + 1
      && (forall k :: 0 <= k < |s.pros| ==> t.pros[k] == s.pros[k].(verified := t.pros[k].verified))
      && (forall k :: 0 <= k < |s.pros| && t.pros[k].verified != s.pros[k].verified ==>
            verify && t.pros[k].verified && s.pros[k].user == id)
      && (forall k :: |s.pros| <= k < |t.pros| ==> t.pros[k].user == id && t.pros[k].verified == verify)
  {
    if Database.ProfileOf(s.pros, id).None? {
      Signals.NewRecordSaved(id, users[id - 1], verify, now);
    }
  }

  /** One step keeps one profile per user. */
  lemma StepUnique(s: SyncState, users: seq<User>, id: nat, verify: bool, now: int)
    requires 1 <= id <= |users| && Database.OneProfilePerUser(s.pros)
    ensures Database.OneProfilePerUser(Step(s, users, id, verify, now).pros)
  {
    var x := PM.Saved(Signals.NewRecord(id, users[id - 1], verify, now));
    match Database.ProfileOf(s.pros, id)
    case None =>
      Signals.NewRecordSaved(id, users[id - 1], verify, now);
      Database.OneProfileKept(s.pros, x, 0, x);
    case Some(k) =>
      Database.OneProfileKept(s.pros, x, k - 1, PM.Saved(s.pros[k - 1].(verified := true)));
  }

  predicate Distinct(ids: seq<nat>) {
    forall i, j :: 0 <= i < j < |ids| ==> ids[i] != ids[j]
  }

  /** The flag a user should have after the loop over `ids`. */
  function Expected(pros: seq<PM.Professional>, ids: seq<nat>, verify: bool, v: nat): Option<bool> {
    if v in ids then Synced(Flag(pros, v), verify) else Flag(pros, v)
  }

  /** After the loop over distinct `ids`, exactly the listed users' flags are synced. */
  lemma {:induction false} RunFlag(s: SyncState, users: seq<User>, ids: seq<nat>, verify: bool, now: int)
    requires UserIds(users, ids) && Distinct(ids)
    ensures forall v: nat :: Flag(Run(s, users, ids, verify, now).pros, v) == Expected(s.pros, ids, verify, v)
    decreases |ids|
  {
    if ids != [] {
      var init, id := ids[..|ids| - 1], ids[|ids| - 1];
      assert ids == init + [id];
      RunFlag(s, users, init, verify, now);
      var m := Run(s, users, init, verify, now);
      assert Run(s, users, ids, verify, now) == Step(m, users, id, verify, now);
      StepFlag(m, users, id, verify, now);
      assert id !in init;
      forall v: nat ensures Flag(Step(m, users, id, verify, now).pros, v) == Expected(s.pros, ids, verify, v) {
        assert (v in ids) == (v in init || v == id);
      }
    }
  }

  /** The counters are the numbers of listed users that had no profile, and that had an unverified one under `--verify`. */
  lemma {:induction false} RunCounts(s: SyncState, users: seq<User>, ids: seq<nat>, verify: bool, now: int)
    requires UserIds(users, ids) && Distinct(ids)
    ensures Run(s, users, ids, verify, now).created == s.created + Seqs.CountWhere(ids, Lacking(s.pros))
    ensures Run(s, users, ids, verify, now).updated == s.updated + Seqs.CountWhere(ids, Unverified(s.pros, verify))
    decreases |ids|
  {
    if ids != [] {
      var init, id := ids[..|ids| - 1], ids[|ids| - 1];
      assert ids == init + [id];
      assert id !in init;
      RunCounts(s, users, init, verify, now);
      RunFlag(s, users, init, verify, now);
      StepFlag(Run(s, users, init, verify, now), users, id, verify, now);
      Seqs.CountWhereSnoc(init, id, Lacking(s.pros));
      Seqs.CountWhereSnoc(init, id, Unverified(s.pros, verify));
    }
  }

  /** After the loop the old rows differ at most by a flag set under `--verify` on a listed user's row, and the new rows belong to listed users. */
  lemma {:induction false} RunRows(s: SyncState, users: seq<User>, ids: seq<nat>, verify: bool, now: int)
    requires UserIds(users, ids)
    ensures var t := Run(s, users, ids, verify, now);
      && |s.pros| <= |t.pros|
      && (forall k :: 0 <= k < |s.pros| ==> t.pros[k] == s.pros[k].(verified := t.pros[k].verified))
      && (forall k :: 0 <= k < |s.pros| && t.pros[k].verified != s.pros[k].verified ==>
            verify && t.pros[k].verified && s.pros[k].user in ids)
      && (forall k :: |s.pros| <= k < |t.pros| ==> t.pros[k].user in ids && t.pros[k].verified == verify)
    decreases |ids|
  {
    if ids != [] {
      var init, id := ids[..|ids| - 1], ids[|ids| - 1];
      assert ids == init + [id];
      RunRows(s, users, init, verify, now);
      StepRows(Run(s, users, init, verify, now), users, id, verify, now);
    }
  }

  /** The loop keeps one profile per user. */
  lemma {:induction false} RunUnique(s: SyncState, users: seq<User>, ids: seq<nat>, verify: bool, now: int)
    requires UserIds(users, ids) && Database.OneProfilePerUser(s.pros)
    ensures Database.OneProfilePerUser(Run(s, users, ids, verify, now).pros)
    decreases |ids|
  {
    if ids != [] {
      RunUnique(s, users, ids[..|ids| - 1], verify, now);
      StepUnique(Run(s, users, ids[..|ids| - 1], verify, now), users, ids[|ids| - 1], verify, now);
    }
  }

  /** `--verify-all`: `filter(verified=False).update(verified=True)` on the profile table. */
  function VerifiedAll(pros: seq<PM.Professional>): (r: seq<PM.Professional>)
    ensures |r| == |pros|
    ensures forall k :: 0 <= k < |r| ==> r[k] == pros[k].(verified := true)
    decreases |pros|
  {
    if pros == [] then [] else VerifiedAll(pros[..|pros| - 1]) + [pros[|pros| - 1].(verified := true)]
  }

  function NotVerified(): PM.Professional -> bool {
    (p: PM.Professional) => !p.verified
  }

  /** What a run reports: profiles created, existing profiles verified, and the `--verify-all` update count. */
  datatype Summary = Summary(created: nat, updated: nat, verifiedAll: Option<nat>)

  /** The loop over one more id is one more step. */
  lemma RunSnoc(s: SyncState, users: seq<User>, ids: seq<nat>, i: nat, verify: bool, now: int)
    requires UserIds(users, ids) && i < |ids|
    ensures UserIds(users, ids[..i]) && UserIds(users, ids[..i + 1]) && 1 <= ids[i] <= |users|
    ensures Run(s, users, ids[..i + 1], verify, now) == Step(Run(s, users, ids[..i], verify, now), users, ids[i], verify, now)
  {
    assert ids[..i + 1][..i] == ids[..i];
  }

  /** One turn of the loop of `Command.handle`: `get_or_create`, then the `--verify` update. */
  method SyncOne(pros: seq<PM.Professional>, created: nat, updated: nat, users: seq<User>, id: nat, verify: bool, now: int)
    returns (pros': seq<PM.Professional>, created': nat, updated': nat)
    requires 1 <= id <= |users|
    ensures SyncState(pros', created', updated') == Step(SyncState(pros, created, updated), users, id, verify, now)
  {
    pros', created', updated' := pros, created, updated;
    var existing := Database.ProfileOf(pros, id);
    if existing.None? {
      pros' := pros + [PM.Saved(Signals.NewRecord(id, users[id - 1], verify, now))];
      created' := created + 1;
    } else if verify && !pros[existing.value - 1].verified {
      var p := pros[existing.value - 1].(verified := true);
      pros' := pros[existing.value - 1 := PM.Saved(p)];
      updated' := updated + 1;
    }
  }

  /** The loop of `Command.handle` over the professional users, on the store. */
  method SyncUsers(db: Database.Db, verify: bool, now: int) returns (created: nat, updated: nat)
    modifies db`professionals
    ensures SyncState(db.professionals, created, updated) ==
      Run(SyncState(old(db.professionals), 0, 0), db.users, ProfessionalUsers(db.users), verify, now)
  {
    var ids := ProfessionalUsers(db.users);
    var users := db.users;
    var pros := db.professionals;
    ghost var start := SyncState(pros, 0, 0);
    created, updated := 0, 0;
    for i := 0 to |ids|
      invariant SyncState(pros, created, updated) == Run(start, users, ids[..i], verify, now)
    {
      RunSnoc(start, users, ids, i, verify, now);
      pros, created, updated := SyncOne(pros, created, updated, users, ids[i], verify, now);
    }
    assert ids[..|ids|] == ids;
    assert SyncState(pros, created, updated) == Run(start, users, ids, verify, now);
    db.professionals := pros;
  }

  /** `Command.handle` on the store: the loop, then `--verify-all`. */
  method Handle(db: Database.Db, verify: bool, verifyAll: bool, now: int) returns (summary: Summary)
    modifies db`professionals
    ensures var t := Run(SyncState(old(db.professionals), 0, 0), db.users, ProfessionalUsers(db.users), verify, now);
      && summary.created == t.created && summary.updated == t.updated
      && (verifyAll ==> db.professionals == VerifiedAll(t.pros) && summary.verifiedAll == Some(Seqs.CountWhere(t.pros, NotVerified())))
      && (!verifyAll ==> db.professionals == t.pros && summary.verifiedAll.None?)
  {
    var created, updated := SyncUsers(db, verify, now);
    summary := Summary(created, updated, None);
    if verifyAll {
      var count := Seqs.CountWhere(db.professionals, NotVerified());
      db.professionals := VerifiedAll(db.professionals);
      summary := summary.(verifiedAll := Some(count));
    }
  }

  /** A run keeps one profile per user. */
  lemma SyncUnique(pros: seq<PM.Professional>, users: seq<User>, verify: bool, now: int)
    requires Database.OneProfilePerUser(pros)
    ensures Database.OneProfilePerUser(Run(SyncState(pros, 0, 0), users, ProfessionalUsers(users), verify, now).pros)
  {
    RunUnique(SyncState(pros, 0, 0), users, ProfessionalUsers(users), verify, now);
  }

  /**
   * After a run every professional user has a profile, verified under
   * `--verify`, a verified profile stays verified, and every other user's
   * profile is as it was.
   */
  lemma SyncFlags(pros: seq<PM.Professional>, users: seq<User>, verify: bool, now: int, v: nat)
    ensures var f := Flag(Run(SyncState(pros, 0, 0), users, ProfessionalUsers(users), verify, now).pros, v);
      && (1 <= v <= |users| && users[v - 1].isProfessional ==>
            f.Some? && (verify ==> f.value) && (Flag(pros, v) == Some(true) ==> f.value))
      && (!(1 <= v <= |users| && users[v - 1].isProfessional) ==> f == Flag(pros, v))
  {
    var ids := ProfessionalUsers(users);
    var t := Run(SyncState(pros, 0, 0), users, ids, verify, now);
    RunFlag(SyncState(pros, 0, 0), users, ids, verify, now);
    FlagMeaning(pros, users, ids, verify, t.pros, v);
  }

  /** What the expected flag says about a professional user and about anyone else. */
  lemma FlagMeaning(pros: seq<PM.Professional>, users: seq<User>, ids: seq<nat>, verify: bool, after: seq<PM.Professional>, v: nat)
    requires Flag(after, v) == Expected(pros, ids, verify, v)
    requires v in ids <==> 1 <= v <= |users| && users[v - 1].isProfessional
    ensures var f := Flag(after, v);
      && (1 <= v <= |users| && users[v - 1].isProfessional ==>
            f.Some? && (verify ==> f.value) && (Flag(pros, v) == Some(true) ==> f.value))
      && (!(1 <= v <= |users| && users[v - 1].isProfessional) ==> f == Flag(pros, v))
  {
  }

  /**
   * A run creates one profile per professional user that had none, and
   * verifies one per professional user whose profile was unverified,
   * under `--verify` only.
   */
  lemma SyncCounts(pros: seq<PM.Professional>, users: seq<User>, verify: bool, now: int)
    ensures var t := Run(SyncState(pros, 0, 0), users, ProfessionalUsers(users), verify, now);
      && t.created == Seqs.CountWhere(ProfessionalUsers(users), Lacking(pros))
      && t.updated == Seqs.CountWhere(ProfessionalUsers(users), Unverified(pros, verify))
      && (!verify ==> t.updated == 0)
  {
    var ids := ProfessionalUsers(users);
    RunCounts(SyncState(pros, 0, 0), users, ids, verify, now);
    if !verify {
      Seqs.CountWhereNone(ids, Unverified(pros, verify));
    }
  }

  /** The profiles a run creates are verified exactly under `--verify`, and old rows change at most by a flag it sets. */
  lemma NewProfilesFlag(pros: seq<PM.Professional>, users: seq<User>, verify: bool, now: int)
    ensures var t := Run(SyncState(pros, 0, 0), users, ProfessionalUsers(users), verify, now);
      && |pros| <= |t.pros|
      && (forall k :: |pros| <= k < |t.pros| ==> t.pros[k].verified == verify && t.pros[k].user in ProfessionalUsers(users))
      && (forall k :: 0 <= k < |pros| ==> t.pros[k] == pros[k].(verified := t.pros[k].verified))
      && (forall k :: 0 <= k < |pros| && pros[k].verified ==> t.pros[k].verified)
  {
    RunRows(SyncState(pros, 0, 0), users, ProfessionalUsers(users), verify, now);
  }

  /** A second run right after the first creates nothing. */
  lemma SecondRunCreatesNothing(pros: seq<PM.Professional>, users: seq<User>, verify: bool, now: int, verify2: bool, later: int)
    ensures var t := Run(SyncState(pros, 0, 0), users, ProfessionalUsers(users), verify, now);
      Run(SyncState(t.pros, 0, 0), users, ProfessionalUsers(users), verify2, later).created == 0
  {
    var ids := ProfessionalUsers(users);
    var t := Run(SyncState(pros, 0, 0), users, ids, verify, now);
    RunFlag(SyncState(pros, 0, 0), users, ids, verify, now);
    forall i | 0 <= i < |ids| ensures !Lacking(t.pros)(ids[i]) {
      assert ids[i] in ids;
      assert Flag(t.pros, ids[i]) == Expected(pros, ids, verify, ids[i]);
    }
    Seqs.CountWhereNone(ids, Lacking(t.pros));
    RunCounts(SyncState(t.pros, 0, 0), users, ids, verify2, later);
  }

  /** `--verify-all` leaves no unverified profile. */
  lemma VerifyAllFacts(pros: seq<PM.Professional>)
    ensures Seqs.CountWhere(VerifiedAll(pros), NotVerified()) == 0
  {
    Seqs.CountWhereNone(VerifiedAll(pros), NotVerified());
  }
}
