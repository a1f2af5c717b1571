/**
 * The registration serializer: the check that the two passwords agree, the
 * defaults `create` fills in for a new user, and registration on the store,
 * where saving the new user fires the professional-profile receiver.
 */
module AccountsSerializers {
  import opened Wrappers
  import opened Records
  import PM = ProfessionalModels
  import Database
  import Signals
  import Strings

  /**
   * The validated fields of a registration request. The optional ones are
   * None when the request leaves them out.
   */
  datatype Attrs = Attrs(
    username: string,
    password: string,
    passwordConfirm: string,
    email: Option<string>,
    displayName: Option<string>,
    isProfessional: Option<bool>,
    professionalType: Option<string>)

  const PasswordField: string := "password"
  const Mismatch: string := "Passwords don't match."

  /** What `validate` gives: a `ValidationError` keyed by a field, or the attributes. */
  datatype Validation = Invalid(field: string, message: string) | Valid(attrs: Attrs)

  /** `validate`: the request is refused, on the password field, exactly when the two passwords differ. */
  function Validate(a: Attrs): (r: Validation)
    ensures r.Invalid? <==> a.password != a.passwordConfirm
    ensures r.Invalid? ==> r.field == PasswordField && r.message == Mismatch
    ensures r.Valid? ==> r.attrs == a
  {
    if a.password != a.passwordConfirm then Invalid(PasswordField, Mismatch) else Valid(a)
  }

  /** Python truthiness of an optional string: present and non-empty. */
  predicate Given(s: Option<string>) {
    s.Some? && s.value != ""
  }

  /** The position of the last '@', where `rsplit("@", 1)` cuts. */
  function LastAt(s: string): (r: Option<nat>)
    ensures r.Some? ==> r.value < |s| && s[r.value] == '@' && '@' !in s[r.value + 1..]
    ensures r.None? <==> '@' !in s
    decreases |s|
  {
    if s == [] then None
    else if s[|s| - 1] == '@' then Some(|s| - 1)
    else
      var init := s[..|s| - 1];
      assert s == init + [s[|s| - 1]];
      var r := LastAt(init);
      assert r.Some? ==> s[r.value + 1..] == init[r.value + 1..] + [s[|s| - 1]];
      r
  }

  /** An '@' with no '@' after it is the last one. */
  lemma LastAtIs(s: string, i: nat)
    requires i < |s| && s[i] == '@' && '@' !in s[i + 1..]
    ensures LastAt(s) == Some(i)
  {
    var j := LastAt(s).value;
    forall k | j < k < |s| ensures s[k] != '@' { assert s[j + 1..][k - j - 1] == s[k]; }
    forall k | i < k < |s| ensures s[k] != '@' { assert s[i + 1..][k - i - 1] == s[k]; }
  }

  /** The stripped address `t` cut at its last '@', at `i`, with the part after it lower-cased. */
  function WithLowerDomain(t: string, i: nat): string
    requires i < |t|
  {
    t[..i] + "@" + Strings.Lower(t[i + 1..])
  }

  /**
   * `r` is `t` with the part after its last '@' lower-cased: the same length,
   * the same text up to that '@', equal up to case, and no capital after it.
   */
  predicate DomainLowered(t: string, r: string)
    requires LastAt(t).Some?
  {
    && LastAt(r) == LastAt(t)
    && |r| == |t|
    && r[..LastAt(t).value] == t[..LastAt(t).value]
    && Strings.Lower(r) == Strings.Lower(t)
    && forall k :: LastAt(t).value < k < |r| ==> !Strings.IsUpper(r[k])
  }

  /** Lowering the domain changes only the case of letters after the '@'. */
  lemma WithLowerDomainShape(t: string, i: nat)
    requires i < |t| && t[i] == '@'
    ensures var r := WithLowerDomain(t, i);
      && |r| == |t| && r[..i] == t[..i] && r[i + 1..] == Strings.Lower(t[i + 1..])
      && Strings.Lower(r) == Strings.Lower(t)
      && forall k :: i < k < |r| ==> !Strings.IsUpper(r[k])
  {
    var r := WithLowerDomain(t, i);
    var d := Strings.Lower(t[i + 1..]);
    assert r[i + 1..] == d;
    forall k | i < k < |r| ensures !Strings.IsUpper(r[k]) { assert r[k] == d[k - i - 1]; }
    Strings.LowerAppend(t[..i] + "@", t[i + 1..]);
    Strings.LowerAppend(t[..i] + "@", d);
    Strings.LowerIdempotent(t[i + 1..]);
    assert t == t[..i] + "@" + t[i + 1..];
  }

  /** Lower-casing brings in no '@'. */
  lemma LowerKeepsNoAt(x: string)
    requires '@' !in x
    ensures '@' !in Strings.Lower(x)
  {
    forall k | 0 <= k < |x| ensures Strings.Lower(x)[k] != '@' { assert x[k] in x; }
  }

  /** The normalised form of a stripped address is stripped. */
  lemma WithLowerDomainStripped(t: string, i: nat)
    requires Strings.Stripped(t) && i < |t| && t[i] == '@'
    ensures Strings.Stripped(WithLowerDomain(t, i))
  {
    var r := WithLowerDomain(t, i);
    var d := Strings.Lower(t[i + 1..]);
    if |r| - 1 > i {
      assert r[|r| - 1] == d[|d| - 1];
      assert d[|d| - 1] == Strings.LowerChar(t[|t| - 1]);
    }
    if i > 0 { assert r[0] == t[0]; }
  }

  /** The normalised form keeps its '@' in the same place, as the last one. */
  lemma WithLowerDomainAt(t: string, i: nat)
    requires i < |t| && t[i] == '@' && '@' !in t[i + 1..]
    ensures LastAt(WithLowerDomain(t, i)) == Some(i)
  {
    var r := WithLowerDomain(t, i);
    LowerKeepsNoAt(t[i + 1..]);
    assert r[i] == '@' && r[i + 1..] == Strings.Lower(t[i + 1..]);
    LastAtIs(r, i);
  }

  /** For the last '@' of a stripped `t`, the lowered form is stripped and has the domain lowered. */
  lemma WithLowerDomainFacts(t: string)
    requires Strings.Stripped(t) && LastAt(t).Some?
    ensures Strings.Stripped(WithLowerDomain(t, LastAt(t).value))
    ensures DomainLowered(t, WithLowerDomain(t, LastAt(t).value))
  {
    var i := LastAt(t).value;
    WithLowerDomainShape(t, i);
    WithLowerDomainStripped(t, i);
    WithLowerDomainAt(t, i);
  }

  /**
   * `BaseUserManager.normalize_email`: an address with no '@' once stripped
   * is kept exactly as given; otherwise the stripped address keeps its local
   * part and has the part after its last '@' lower-cased.
   */
  function NormalizeEmail(email: string): (r: string)
    ensures '@' !in Strings.Strip(email) ==> r == email
    ensures '@' in Strings.Strip(email) ==> Strings.Stripped(r) && DomainLowered(Strings.Strip(email), r)
  {
    var t := Strings.Strip(email);
    if LastAt(t).None? then email
    else
      WithLowerDomainFacts(t);
      WithLowerDomain(t, LastAt(t).value)
  }

  /** On an address that is already stripped, normalising cuts at its last '@'. */
  lemma NormalizeStripped(t: string)
    requires Strings.Stripped(t) && LastAt(t).Some?
    ensures NormalizeEmail(t) == WithLowerDomain(t, LastAt(t).value)
  {
    Strings.StripStripped(t);
  }

  /** A domain that is already lower-case is left as it is. */
  lemma LowerDomainFixed(t: string, i: nat)
    requires i < |t| && t[i] == '@' && Strings.Lower(t[i + 1..]) == t[i + 1..]
    ensures WithLowerDomain(t, i) == t
  {
    assert Strings.OccursAt(t, "@", i);
    Strings.Reassemble(t, "@", i);
  }

  /** Normalising an address a second time changes nothing. */
  lemma NormalizeEmailIdempotent(email: string)
    ensures NormalizeEmail(NormalizeEmail(email)) == NormalizeEmail(email)
  {
    var t := Strings.Strip(email);
    if LastAt(t).Some? {
      var i := LastAt(t).value;
      var r := NormalizeEmail(email);
      WithLowerDomainShape(t, i);
      WithLowerDomainFacts(t);
      NormalizeStripped(r);
      Strings.LowerIdempotent(t[i + 1..]);
      LowerDomainFixed(r, i);
    }
  }

  /**
   * The row `create_user` stores for `create`: the address is normalised,
   * the stored password is the hash of `password`, and the confirmation is
   * not kept.
   */
  function NewUser(a: Attrs, hashed: string, now: int): (u: User)
    ensures u.username == a.username && u.password == hashed && u.createdAt == now
    ensures Given(a.email) ==> u.email == NormalizeEmail(a.email.value)
    ensures !Given(a.email) ==> u.email == ""
    ensures Given(a.displayName) ==> u.displayName == a.displayName.value
    ensures !Given(a.displayName) ==> u.displayName == a.username
    ensures u.isAnonymousMode
    ensures u.isProfessional <==> a.isProfessional == Some(true)
    ensures u.isProfessional ==> u.professionalType == a.professionalType
    ensures !u.isProfessional ==> u.professionalType.None?
  {
    var isProfessional := if a.isProfessional.Some? then a.isProfessional.value else false;
    User(a.username, hashed,
         if Given(a.email) then NormalizeEmail(a.email.value) else "",
         if Given(a.displayName) then a.displayName.value else a.username,
         true, isProfessional,
         if isProfessional then a.professionalType else None,
         now)
  }

  /** What registration answers: the validation error, or the new user's id. */
  datatype Outcome = Rejected(field: string, message: string) | Registered(id: nat)

  /**
   * Registration: a refused request changes nothing; otherwise the user is
   * appended, and the receiver runs for the created user.
   */
  function RegisterOn(users: seq<User>, pros: seq<PM.Professional>, a: Attrs, hash: string -> string, now: int)
    : (r: (seq<User>, seq<PM.Professional>, Outcome))
    ensures r.2.Rejected? <==> a.password != a.passwordConfirm
    ensures r.2.Rejected? ==> r.0 == users && r.1 == pros && r.2.field == PasswordField
    ensures r.2.Registered? ==>
      && r.2.id == |users| + 1
      && r.0 == users + [NewUser(a, hash(a.password), now)]
      && r.1 == Signals.AfterSignal(pros, r.0, Signals.UserModel, r.2.id, true, now)
  {
    match Validate(a)
    case Invalid(f, m) => (users, pros, Rejected(f, m))
    case Valid(v) =>
      var users' := users + [NewUser(v, hash(v.password), now)];
      (users', Signals.AfterSignal(pros, users', Signals.UserModel, |users'|, true, now), Registered(|users'|))
  }

  /** Every profile belongs to a stored user. */
  predicate ProfilesOfUsers(users: seq<User>, pros: seq<PM.Professional>) {
    forall k :: 0 <= k < |pros| ==> 1 <= pros[k].user <= |users|
  }

  /**
   * After a registration the new user is the last row. A professional gets
   * exactly one new profile, unverified, with the chosen type's
   * specialization; anyone else leaves the profiles as they were. The
   * profile constraints are kept.
   */
  lemma RegisterFacts(users: seq<User>, pros: seq<PM.Professional>, a: Attrs, hash: string -> string, now: int)
    requires ProfilesOfUsers(users, pros)
    requires RegisterOn(users, pros, a, hash, now).2.Registered?
    ensures var (users', pros', r) := RegisterOn(users, pros, a, hash, now);
      && users'[r.id - 1].username == a.username
      && ProfilesOfUsers(users', pros')
      && (a.isProfessional == Some(true) ==>
            pros' == pros + [Signals.NewRecord(r.id, users'[r.id - 1], false, now)]
            && Database.ProfileOf(pros', r.id) == Some(|pros'|))
      && (a.isProfessional != Some(true) ==> pros' == pros)
      && (Database.OneProfilePerUser(pros) ==> Database.OneProfilePerUser(pros'))
  {
    var (users', pros', r) := RegisterOn(users, pros, a, hash, now);
    assert Database.ProfileOf(pros, r.id).None?;
    Signals.SignalFacts(pros, users', Signals.UserModel, r.id, true, now, now);
    if a.isProfessional == Some(true) {
      Database.ProfileOfSnoc(pros, Signals.NewRecord(r.id, users'[r.id - 1], false, now), r.id);
    }
  }

  /** `UserRegistrationSerializer.save()` on the store. */
  method Register(db: Database.Db, a: Attrs, hash: string -> string, now: int) returns (r: Outcome)
    modifies db`users, db`professionals
    ensures (db.users, db.professionals, r) == RegisterOn(old(db.users), old(db.professionals), a, hash, now)
  {
    var v := Validate(a);
    if v.Invalid? {
      return Rejected(v.field, v.message);
    }
    var user := NewUser(v.attrs, hash(v.attrs.password), now);
    db.users := db.users + [user];
    Signals.CreateProfessionalProfile(db, Signals.UserModel, |db.users|, true, now);
    r := Registered(|db.users|);
  }
}
