/**
 * The backend's tables as one store. Each table is a sequence of rows in
 * insertion order, a row's id is its position counted from 1, and
 * creation times follow insertion order, so "newest first" is "highest id
 * first".
 */
module Database {
  import opened Wrappers
  import opened Records
  import PM = ProfessionalModels
  import Seqs

  class Db {
    var users: seq<User>
    var professionals: seq<PM.Professional>
    var sops: seq<PM.SopDoc>
    var tickets: seq<PM.EscalationTicket>
    var sessions: seq<ChatSession>
    var messages: seq<ChatMessage>
    var consents: seq<ConsentGrant>
    var journals: seq<JournalEntry>
    var snapshots: seq<Snapshot>

    constructor()
      ensures users == [] && professionals == [] && sops == [] && tickets == [] && sessions == []
      ensures messages == [] && consents == [] && journals == [] && snapshots == []
    {
      users, professionals, sops, tickets, sessions := [], [], [], [], [];
      messages, consents, journals, snapshots := [], [], [], [];
    }
  }

  predicate OneProfilePerUser(pros: seq<PM.Professional>) {
    forall i, j :: 0 <= i < j < |pros| ==> pros[i].user != pros[j].user
  }

  predicate OneGrantPerPair(cs: seq<ConsentGrant>) {
    forall i, j :: 0 <= i < j < |cs| ==> (cs[i].user, cs[i].professional) != (cs[j].user, cs[j].professional)
  }

  function ProfileOwner(user: nat): PM.Professional -> bool {
    (p: PM.Professional) => p.user == user
  }

  /** `user.professional_profile`: the id of the user's profile, if there is one. */
  function ProfileOf(pros: seq<PM.Professional>, user: nat): (r: Option<nat>)
    ensures r.None? <==> forall k :: 0 <= k < |pros| ==> pros[k].user != user
    ensures r.Some? ==> 1 <= r.value <= |pros| && pros[r.value - 1].user == user
  {
    Seqs.Newest(pros, ProfileOwner(user))
  }

  /** Under the constraint, the profile found is the only one the user has. */
  lemma ProfileOfUnique(pros: seq<PM.Professional>, user: nat, k: nat)
    requires OneProfilePerUser(pros) && k < |pros| && pros[k].user == user
    ensures ProfileOf(pros, user) == Some(k + 1)
  {
  }

  /** Appending a profile makes it its owner's, and leaves every other user's lookup as it was. */
  lemma ProfileOfSnoc(pros: seq<PM.Professional>, x: PM.Professional, user: nat)
    ensures ProfileOf(pros + [x], user) == if x.user == user then Some(|pros| + 1) else ProfileOf(pros, user)
  {
    if x.user == user {
      Seqs.NewestSnoc(pros, x, ProfileOwner(user));
    } else {
      Seqs.NewestSnocOther(pros, x, ProfileOwner(user));
    }
  }

  /** Rewriting a profile without changing its owner leaves every lookup as it was. */
  lemma ProfileOfUpdate(pros: seq<PM.Professional>, k: nat, y: PM.Professional, user: nat)
    requires k < |pros| && y.user == pros[k].user
    ensures ProfileOf(pros[k := y], user) == ProfileOf(pros, user)
  {
    Seqs.IdsWhereSame(pros[k := y], ProfileOwner(user), pros, ProfileOwner(user));
  }

  /** Appending a profile for a user without one, or rewriting one in place, keeps one profile per user. */
  lemma OneProfileKept(pros: seq<PM.Professional>, x: PM.Professional, k: nat, y: PM.Professional)
    requires OneProfilePerUser(pros)
    ensures ProfileOf(pros, x.user).None? ==> OneProfilePerUser(pros + [x])
    ensures k < |pros| && y.user == pros[k].user ==> OneProfilePerUser(pros[k := y])
  {
    if ProfileOf(pros, x.user).None? {
      var ys := pros + [x];
      forall i, j | 0 <= i < j < |ys| ensures ys[i].user != ys[j].user {
        if j == |pros| {
          assert pros[i].user != x.user;
        }
      }
    }
  }

  /** The row with id `id`, if the table has one. */
  function Row<T>(xs: seq<T>, id: nat): (r: Option<T>)
    ensures r.Some? <==> 1 <= id <= |xs|
    ensures r.Some? ==> r.value == xs[id - 1]
  {
    if 1 <= id <= |xs| then Some(xs[id - 1]) else None
  }
}
