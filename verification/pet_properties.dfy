/** Properties that relate several operations of the Pet aggregate: the two
    factories against each other, the persistence round trip, and the
    equals/hashCode contract. */
module PetProperties {
  import opened Wrappers
  import opened Dates
  import opened Uuids
  import opened Strings
  import opened PetAggregate

  /** `create` and a `reconstitute` without id, lists or timestamps give the same
      outcome, except exactly when a required field is missing and the birth date
      is in the future: `create` then reports the missing field and `reconstitute`
      the future date, because each runs its own check first. */
  lemma CreateAgreesWithReconstitute<Sex, Vaccine, Dewormer, Reminder, Timestamp>(
    input: PetInput<Sex>, freshId: Uuid, today: Date)
    ensures
      var created := Create<Sex, Vaccine, Dewormer, Reminder, Timestamp>(input, freshId, today);
      var loaded := Reconstitute<Sex, Vaccine, Dewormer, Reminder, Timestamp>(None, input, None, None, None, None, None, freshId, today);
      && (created != loaded <==> MissingRequired(input) && input.birthDate.Some? && IsAfter(input.birthDate.value, today))
      && (created != loaded ==> created == Failure(FieldRequired) && loaded == Failure(BirthDateInFuture))
  {
  }

  /** Loading a stored Pet whose birth date is not after `today` rebuilds exactly
      that Pet: the supplied id, scalars, lists and timestamps all survive, and no
      fresh id is drawn. */
  lemma ReconstituteRoundTrip<Sex, Vaccine, Dewormer, Reminder, Timestamp>(
    p: Pet<Sex, Vaccine, Dewormer, Reminder, Timestamp>, freshId: Uuid, today: Date)
    requires Invariant(p) && !IsAfter(p.birthDate, today)
    ensures Reconstitute(Some(p.id), Scalars(p), Some(p.vaccineApplications), Some(p.dewormerApplications),
                         Some(p.reminders), p.createdAt, p.updatedAt, freshId, today) == Success(p)
  {
  }

  /** A stored Pet whose birth date is now after `today` cannot be loaded again. */
  lemma ReconstituteRejectsStoredFutureBirth<Sex, Vaccine, Dewormer, Reminder, Timestamp>(
    p: Pet<Sex, Vaccine, Dewormer, Reminder, Timestamp>, freshId: Uuid, today: Date)
    requires IsAfter(p.birthDate, today)
    ensures Reconstitute(Some(p.id), Scalars(p), Some(p.vaccineApplications), Some(p.dewormerApplications),
                         Some(p.reminders), p.createdAt, p.updatedAt, freshId, today) == Failure(BirthDateInFuture)
  {
  }

  /** Two successful `create` calls with different fresh ids give Pets that are
      not equal. */
  lemma CreatedPetsAreDistinct<Sex, Vaccine, Dewormer, Reminder, Timestamp>(
    input1: PetInput<Sex>, input2: PetInput<Sex>, freshId1: Uuid, freshId2: Uuid, today: Date)
    requires freshId1 != freshId2
    requires Create<Sex, Vaccine, Dewormer, Reminder, Timestamp>(input1, freshId1, today).Success?
    requires Create<Sex, Vaccine, Dewormer, Reminder, Timestamp>(input2, freshId2, today).Success?
    ensures !Equals(Create<Sex, Vaccine, Dewormer, Reminder, Timestamp>(input1, freshId1, today).value,
                    PetRef(Create<Sex, Vaccine, Dewormer, Reminder, Timestamp>(input2, freshId2, today).value))
  {
  }

  /** `equals` is an equivalence relation on Pets that holds exactly when the ids
      agree, and it never holds against null or an object of another class. */
  lemma EqualsIsIdEquivalence<Sex, Vaccine, Dewormer, Reminder, Timestamp>(
    a: Pet<Sex, Vaccine, Dewormer, Reminder, Timestamp>,
    b: Pet<Sex, Vaccine, Dewormer, Reminder, Timestamp>,
    c: Pet<Sex, Vaccine, Dewormer, Reminder, Timestamp>)
    ensures Equals(a, PetRef(b)) <==> a.id == b.id
    ensures Equals(a, PetRef(a))
    ensures Equals(a, PetRef(b)) ==> Equals(b, PetRef(a))
    ensures Equals(a, PetRef(b)) && Equals(b, PetRef(c)) ==> Equals(a, PetRef(c))
    ensures !Equals(a, Null) && !Equals(a, OtherObject)
  {
  }

  /** The equals/hashCode contract: equal Pets hash alike, however much their
      other fields differ. */
  lemma EqualPetsHashAlike<Sex, Vaccine, Dewormer, Reminder, Timestamp>(
    a: Pet<Sex, Vaccine, Dewormer, Reminder, Timestamp>, b: Pet<Sex, Vaccine, Dewormer, Reminder, Timestamp>)
    requires Equals(a, PetRef(b))
    ensures HashCode(a) == HashCode(b)
  {
  }

  /** A worked case: a Labrador born on 2023-05-01, created on 2024-05-01, is
      accepted and is one year old that day; created a day earlier it is refused
      as born in the future. */
  lemma LabradorExample<Sex, Vaccine, Dewormer, Reminder, Timestamp>(guardian: Uuid, sex: Sex, freshId: Uuid)
    ensures
      var input := PetInput(Some(guardian), Some("Rex"), Some(Date(2023, 5, 1)), Some("Labrador"),
                            Some(sex), Some(true), None, None);
      var r := Create<Sex, Vaccine, Dewormer, Reminder, Timestamp>(input, freshId, Date(2024, 5, 1));
      && r.Success?
      && CalculateAgeInYears(r.value, Date(2024, 5, 1)) == 1
      && Create<Sex, Vaccine, Dewormer, Reminder, Timestamp>(input, freshId, Date(2023, 4, 30)) == Failure(BirthDateInFuture)
  {
    var input := PetInput(Some(guardian), Some("Rex"), Some(Date(2023, 5, 1)), Some("Labrador"),
                          Some(sex), Some(true), None, None);
    assert !IsWhitespace("Labrador"[0]);
    assert !MissingRequired(input);
  }
}
