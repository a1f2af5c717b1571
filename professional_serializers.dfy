/**
 * Applying to be a professional (get or create the requester's profile,
 * then overwrite the supplied fields and save), and the verdict a
 * professional submits on a ticket.
 */
module ProfessionalSerializers {
  import opened Wrappers
  import opened Records
  import PM = ProfessionalModels
  import Database

  // ----- the apply request -------------------------------------------------

  /** The fields of `ProfessionalApplySerializer`, in declaration order. */
  datatype ApplyField = Specialization | Availability | City

  /** A field's `max_length`; the availability is a `TextField` with none. */
  function MaxLength(f: ApplyField): Option<nat> {
    match f
    case Specialization => Some(200)
    case Availability => None
    case City => Some(100)
  }

  /** One supplied field as the serializer validates it: a `CharField` that allows blanks, within the length bound. */
  function ValidField(f: ApplyField, s: string): (r: Option<string>)
    ensures r.Some? <==> CharField(s, true).Some? && (MaxLength(f).Some? ==> |CharField(s, true).value| <= MaxLength(f).value)
    ensures r.Some? ==> r.value == CharField(s, true).value
  {
    match CharField(s, true)
    case None => None
    case Some(v) => if MaxLength(f).Some? && |v| > MaxLength(f).value then None else Some(v)
  }

  /** The request body, or the validated data: each field is supplied or not (none is required). */
  datatype ApplyData = ApplyData(specialization: Option<string>, availability: Option<string>, city: Option<string>)

  function Checked(f: ApplyField, s: Option<string>): Option<Option<string>> {
    match s
    case None => Some(None)
    case Some(v) => match ValidField(f, v) case None => None case Some(w) => Some(Some(w))
  }

  /** `is_valid`: every supplied field validates; the result holds the cleaned values of the same fields. */
  function Validate(d: ApplyData): (r: Option<ApplyData>)
    ensures r.Some? <==> Checked(Specialization, d.specialization).Some? && Checked(Availability, d.availability).Some?
                         && Checked(City, d.city).Some?
    ensures r.Some? ==> (r.value.specialization.Some? <==> d.specialization.Some?)
                        && (r.value.availability.Some? <==> d.availability.Some?) && (r.value.city.Some? <==> d.city.Some?)
  {
    match (Checked(Specialization, d.specialization), Checked(Availability, d.availability), Checked(City, d.city))
    case (Some(s), Some(a), Some(c)) => Some(ApplyData(s, a, c))
    case _ => None
  }

  /** `validated_data.items()`: the supplied fields in declaration order. */
  function Items(d: ApplyData): (r: seq<(ApplyField, string)>)
    ensures |r| <= 3
  {
    (if d.specialization.Some? then [(Specialization, d.specialization.value)] else [])
    + (if d.availability.Some? then [(Availability, d.availability.value)] else [])
    + (if d.city.Some? then [(City, d.city.value)] else [])
  }

  /** `setattr(professional, key, value)`. */
  function SetField(p: PM.Professional, item: (ApplyField, string)): PM.Professional {
    match item.0
    case Specialization => p.(specialization := item.1)
    case Availability => p.(availability := item.1)
    case City => p.(city := item.1)
  }

  /** The profile after setting each item in turn. */
  function Overwrite(p: PM.Professional, items: seq<(ApplyField, string)>): PM.Professional
    decreases |items|
  {
    if items == [] then p else SetField(Overwrite(p, items[..|items| - 1]), items[|items| - 1])
  }

  /** The value the last item for `f` carries, if any. */
  function Supplied(items: seq<(ApplyField, string)>, f: ApplyField): Option<string>
    decreases |items|
  {
    if items == [] then None
    else if items[|items| - 1].0 == f then Some(items[|items| - 1].1)
    else Supplied(items[..|items| - 1], f)
  }

  /** Overwriting sets each supplied field to its value and touches nothing else. */
  lemma {:induction false} OverwriteFields(p: PM.Professional, items: seq<(ApplyField, string)>)
    ensures var q := Overwrite(p, items);
      && q.specialization == (if Supplied(items, Specialization).Some? then Supplied(items, Specialization).value else p.specialization)
      && q.availability == (if Supplied(items, Availability).Some? then Supplied(items, Availability).value else p.availability)
      && q.city == (if Supplied(items, City).Some? then Supplied(items, City).value else p.city)
      && q == p.(specialization := q.specialization, availability := q.availability, city := q.city)
    decreases |items|
  {
    if items != [] {
      OverwriteFields(p, items[..|items| - 1]);
    }
  }

  /** A later item for a field wins over an earlier one. */
  lemma {:induction false} SuppliedAppend(xs: seq<(ApplyField, string)>, ys: seq<(ApplyField, string)>, f: ApplyField)
    ensures Supplied(xs + ys, f) == if Supplied(ys, f).Some? then Supplied(ys, f) else Supplied(xs, f)
    decreases |ys|
  {
    if ys == [] {
      assert xs + ys == xs;
    } else {
      assert (xs + ys)[..|xs + ys| - 1] == xs + ys[..|ys| - 1];
      SuppliedAppend(xs, ys[..|ys| - 1], f);
    }
  }

  /** The items of the validated data supply exactly its fields. */
  lemma ItemsSupply(d: ApplyData)
    ensures Supplied(Items(d), Specialization) == d.specialization
    ensures Supplied(Items(d), Availability) == d.availability
    ensures Supplied(Items(d), City) == d.city
  {
    var s := if d.specialization.Some? then [(Specialization, d.specialization.value)] else [];
    var a := if d.availability.Some? then [(Availability, d.availability.value)] else [];
    var c := if d.city.Some? then [(City, d.city.value)] else [];
    assert Items(d) == s + a + c;
    forall f: ApplyField
      ensures Supplied(s + a + c, f) == if Supplied(c, f).Some? then Supplied(c, f)
                                        else if Supplied(a, f).Some? then Supplied(a, f) else Supplied(s, f)
    {
      SuppliedAppend(s + a, c, f);
      SuppliedAppend(s, a, f);
    }
    if s != [] { SuppliedOne(s[0], Specialization); SuppliedOne(s[0], Availability); SuppliedOne(s[0], City); }
    if a != [] { SuppliedOne(a[0], Specialization); SuppliedOne(a[0], Availability); SuppliedOne(a[0], City); }
    if c != [] { SuppliedOne(c[0], Specialization); SuppliedOne(c[0], Availability); SuppliedOne(c[0], City); }
  }

  lemma SuppliedOne(item: (ApplyField, string), f: ApplyField)
    ensures Supplied([item], f) == if item.0 == f then Some(item.1) else None
  {
    assert [item][..0] == [];
  }

  /** The `for key, value in validated_data.items(): setattr(...)` loop. */
  method SetAttrs(p: PM.Professional, items: seq<(ApplyField, string)>) returns (q: PM.Professional)
    ensures q == Overwrite(p, items)
  {
    q := p;
    for i := 0 to |items|
      invariant q == Overwrite(p, items[..i])
    {
      assert items[..i + 1][..i] == items[..i];
      q := SetField(q, items[i]);
    }
    assert items[..|items|] == items;
  }

  /** The profile `get_or_create` makes from the defaults: availability and city '' when absent, unverified. */
  function NewProfile(user: nat, specialization: string, d: ApplyData, now: int): PM.Professional {
    PM.Professional(user, "", specialization, if d.availability.Some? then d.availability.value else "",
                    false, if d.city.Some? then d.city.value else "", "", false, "", now)
  }

  /** What an apply answers: the profile's id (201), a validation error (400), or the KeyError a missing specialization raises (500). */
  datatype ApplyOutcome = Applied(id: nat) | Rejected | MissingSpecialization

  /**
   * `ProfessionalApplySerializer.create` on valid data. The defaults are
   * built before the lookup, so a request without a specialization raises
   * whether or not the profile exists.
   */
  function ApplyValid(pros: seq<PM.Professional>, user: nat, d: ApplyData, now: int): (r: (seq<PM.Professional>, ApplyOutcome))
    ensures !r.1.Rejected?
    ensures r.1.MissingSpecialization? <==> d.specialization.None?
    ensures r.1.MissingSpecialization? ==> r.0 == pros
    ensures r.1.Applied? ==> 1 <= r.1.id <= |r.0| && r.0[r.1.id - 1].user == user
  {
    if d.specialization.None? then (pros, MissingSpecialization)
    else match Database.ProfileOf(pros, user)
      case None => (pros + [PM.Saved(NewProfile(user, d.specialization.value, d, now))], Applied(|pros| + 1))
      case Some(id) =>
        OverwriteFields(pros[id - 1], Items(d));
        (pros[id - 1 := PM.Saved(Overwrite(pros[id - 1], Items(d)))], Applied(id))
  }

  /** The whole apply: validation first, then `create`. */
  function ApplyTo(pros: seq<PM.Professional>, user: nat, request: ApplyData, now: int): (r: (seq<PM.Professional>, ApplyOutcome))
    ensures r.1.Rejected? <==> Validate(request).None?
    ensures r.1.Rejected? ==> r.0 == pros
    ensures !r.1.Rejected? ==> r == ApplyValid(pros, user, Validate(request).value, now)
  {
    match Validate(request)
    case None => (pros, Rejected)
    case Some(d) => ApplyValid(pros, user, d, now)
  }

  /** An apply keeps one profile per user. */
  lemma ApplyKeepsOneProfile(pros: seq<PM.Professional>, user: nat, request: ApplyData, now: int)
    requires Database.OneProfilePerUser(pros)
    ensures Database.OneProfilePerUser(ApplyTo(pros, user, request, now).0)
  {
    var v := Validate(request);
    if v.Some? && v.value.specialization.Some? {
      if Database.ProfileOf(pros, user).None? {
        ApplyCreates(pros, user, v.value, now);
      } else {
        ApplyUpdates(pros, user, v.value, now);
      }
    }
  }

  /** `ProfessionalApplyView.create` on the store. */
  method Apply(db: Database.Db, user: nat, request: ApplyData, now: int) returns (r: ApplyOutcome)
    modifies db`professionals
    ensures (db.professionals, r) == ApplyTo(old(db.professionals), user, request, now)
  {
    var validated := Validate(request);
    if validated.None? {
      return Rejected;
    }
    var d := validated.value;
    if d.specialization.None? {
      return MissingSpecialization;
    }
    var existing := Database.ProfileOf(db.professionals, user);
    if existing.None? {
      db.professionals := db.professionals + [PM.Saved(NewProfile(user, d.specialization.value, d, now))];
      return Applied(|db.professionals|);
    }
    var id := existing.value;
    var p := SetAttrs(db.professionals[id - 1], Items(d));
    db.professionals := db.professionals[id - 1 := PM.Saved(p)];
    r := Applied(id);
  }

  /**
   * A first apply creates an unverified profile with the given
   * specialization and '' for the fields left out; the table keeps one
   * profile per user.
   */
  lemma ApplyCreates(pros: seq<PM.Professional>, user: nat, d: ApplyData, now: int)
    requires d.specialization.Some? && Database.ProfileOf(pros, user).None?
    ensures var (after, r) := ApplyValid(pros, user, d, now);
      && r == Applied(|pros| + 1) && after[..|pros|] == pros && |after| == |pros| + 1
      && !after[|pros|].verified && after[|pros|].specialization == d.specialization.value
      && after[|pros|].availability == (if d.availability.Some? then d.availability.value else "")
      && after[|pros|].city == (if d.city.Some? then d.city.value else "")
      && (Database.OneProfilePerUser(pros) ==> Database.OneProfilePerUser(after))
  {
    var (after, r) := ApplyValid(pros, user, d, now);
    PM.SavedFacts(NewProfile(user, d.specialization.value, d, now));
    assert after == pros + [after[|pros|]];
  }

  /**
   * A later apply overwrites exactly the supplied fields of the user's
   * profile; `verified` is never cleared and is set only when the
   * documents are there; everyone else's profile is unchanged.
   */
  lemma ApplyUpdates(pros: seq<PM.Professional>, user: nat, d: ApplyData, now: int)
    requires d.specialization.Some? && Database.ProfileOf(pros, user).Some?
    ensures var id := Database.ProfileOf(pros, user).value;
      var (after, r) := ApplyValid(pros, user, d, now);
      var old_ := pros[id - 1];
      var q := after[id - 1];
      && r == Applied(id) && |after| == |pros|
      && (forall k :: 0 <= k < |pros| && k != id - 1 ==> after[k] == pros[k])
      && q.specialization == d.specialization.value
      && q.availability == (if d.availability.Some? then d.availability.value else old_.availability)
      && q.city == (if d.city.Some? then d.city.value else old_.city)
      && (q.verified <==> old_.verified || PM.HasVerificationDocuments(q.(verified := old_.verified)))
      && q == old_.(specialization := q.specialization, availability := q.availability, city := q.city, verified := q.verified)
      && (Database.OneProfilePerUser(pros) ==> Database.OneProfilePerUser(after))
  {
    var id := Database.ProfileOf(pros, user).value;
    OverwriteFields(pros[id - 1], Items(d));
    ItemsSupply(d);
  }

  // ----- the verdict request -----------------------------------------------

  /** The verdict request body: `verdict` is required, `professional_notes` optional. */
  datatype VerdictInput = VerdictInput(verdict: Option<string>, notes: Option<string>)

  /** `EscalationVerdictSerializer`'s validated data: a choice, and the notes when supplied. */
  datatype VerdictData = VerdictData(verdict: PM.Verdict, notes: Option<string>)

  /** `is_valid`: the verdict is one of the three choices and the notes, when supplied, a `CharField` that allows blanks. */
  function ValidateVerdict(v: VerdictInput): (r: Option<VerdictData>)
    ensures r.Some? <==> v.verdict.Some? && v.verdict.value in {"consult_required", "monitor", "no_action"}
                         && (v.notes.Some? ==> CharField(v.notes.value, true).Some?)
    ensures r.Some? ==> PM.VerdictName(r.value.verdict) == v.verdict.value
    ensures r.Some? ==> (r.value.notes.Some? <==> v.notes.Some?)
    ensures r.Some? && v.notes.Some? ==> r.value.notes == CharField(v.notes.value, true)
  {
    if v.verdict.None? then None
    else
      PM.VerdictChoices(PM.Monitor, v.verdict.value);
      match PM.ParseVerdict(v.verdict.value)
      case None => None
      case Some(choice) =>
        if v.notes.None? then Some(VerdictData(choice, None))
        else match CharField(v.notes.value, true)
          case None => None
          case Some(n) => Some(VerdictData(choice, Some(n)))
  }
}
