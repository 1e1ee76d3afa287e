/** The Pet aggregate root: a clinic patient with its guardian link, scalar
    fields, three owned child lists and audit timestamps.

    The Java class mutates itself in place; here each mutator is a function from
    the old Pet to the new one. Types the aggregate only stores and never
    inspects (Sex, the three child records, the audit timestamp) are type
    parameters. The clock (`LocalDate.now()`) is the `today` parameter and the
    random identifier (`UUID.randomUUID()`) is the `freshId` parameter. */
module PetAggregate {
  import opened Wrappers
  import opened Dates
  import opened Strings
  import opened Uuids

  /** The two reasons the aggregate refuses to exist: the two messages of
      ExceptionMessages, thrown as InvalidPetException. */
  datatype PetError = FieldRequired | BirthDateInFuture

  /** The eight scalar arguments `create` and `reconstitute` share, each of them
      nullable as in Java. */
  datatype PetInput<Sex> = PetInput(
    guardianId: Option<Uuid>,
    name: Option<string>,
    birthDate: Option<Date>,
    breed: Option<string>,
    sex: Option<Sex>,
    isCastrated: Option<bool>,
    microchipNumber: Option<string>,
    history: Option<string>)

  /** A constructed Pet. The fields the constructor proves non-null are plain
      values; the rest stay optional. The destructors are the getters. */
  datatype Pet<Sex, Vaccine, Dewormer, Reminder, Timestamp> = Pet(
    id: Uuid,
    guardianId: Uuid,
    name: string,
    birthDate: Date,
    breed: string,
    sex: Sex,
    isCastrated: bool,
    microchipNumber: Option<string>,
    history: Option<string>,
    vaccineApplications: seq<Vaccine>,
    dewormerApplications: seq<Dewormer>,
    reminders: seq<Reminder>,
    createdAt: Option<Timestamp>,
    updatedAt: Option<Timestamp>)

  /** What the types do not already say about a constructed Pet: its breed is
      not blank. */
  predicate Invariant<Sex, Vaccine, Dewormer, Reminder, Timestamp>(p: Pet<Sex, Vaccine, Dewormer, Reminder, Timestamp>) {
    !IsBlank(p.breed)
  }

  /** The required-field check both the constructor and `create` perform. */
  predicate MissingRequired<Sex>(input: PetInput<Sex>) {
    || input.guardianId.None?
    || input.name.None?
    || input.birthDate.None?
    || input.sex.None?
    || input.isCastrated.None?
    || input.breed.None?
    || IsBlank(input.breed.value)
  }

  /** The scalar getters of `p`, read back as constructor arguments. */
  function Scalars<Sex, Vaccine, Dewormer, Reminder, Timestamp>(p: Pet<Sex, Vaccine, Dewormer, Reminder, Timestamp>): PetInput<Sex> {
    PetInput(Some(p.guardianId), Some(p.name), Some(p.birthDate), Some(p.breed),
             Some(p.sex), Some(p.isCastrated), p.microchipNumber, p.history)
  }

  /** The fields no method of the aggregate can change after construction. */
  ghost predicate SameFinalFields<Sex, Vaccine, Dewormer, Reminder, Timestamp>(
    p: Pet<Sex, Vaccine, Dewormer, Reminder, Timestamp>, q: Pet<Sex, Vaccine, Dewormer, Reminder, Timestamp>)
  {
    && q.id == p.id
    && q.guardianId == p.guardianId
    && q.name == p.name
    && q.birthDate == p.birthDate
    && q.sex == p.sex
    && q.isCastrated == p.isCastrated
    && q.createdAt == p.createdAt
    && q.updatedAt == p.updatedAt
  }

  /** The private constructor: checks the required fields, keeps a supplied id or
      takes `freshId`, and copies each supplied list, a null list becoming an
      empty one. */
  function Construct<Sex, Vaccine, Dewormer, Reminder, Timestamp>(
    id: Option<Uuid>,
    input: PetInput<Sex>,
    vaccineApplications: Option<seq<Vaccine>>,
    dewormerApplications: Option<seq<Dewormer>>,
    reminders: Option<seq<Reminder>>,
    createdAt: Option<Timestamp>,
    updatedAt: Option<Timestamp>,
    freshId: Uuid): (r: Result<Pet<Sex, Vaccine, Dewormer, Reminder, Timestamp>, PetError>)
    ensures r.Failure? <==> MissingRequired(input)
    ensures r.Failure? ==> r.error == FieldRequired
    ensures r.Success? ==> Invariant(r.value) && Scalars(r.value) == input
    ensures r.Success? && id.Some? ==> r.value.id == id.value
    ensures r.Success? && id.None? ==> r.value.id == freshId
    ensures r.Success? ==> r.value.createdAt == createdAt && r.value.updatedAt == updatedAt
    ensures r.Success? && vaccineApplications.Some? ==> r.value.vaccineApplications == vaccineApplications.value
    ensures r.Success? && vaccineApplications.None? ==> r.value.vaccineApplications == []
    ensures r.Success? && dewormerApplications.Some? ==> r.value.dewormerApplications == dewormerApplications.value
    ensures r.Success? && dewormerApplications.None? ==> r.value.dewormerApplications == []
    ensures r.Success? && reminders.Some? ==> r.value.reminders == reminders.value
    ensures r.Success? && reminders.None? ==> r.value.reminders == []
  {
    if MissingRequired(input) then Failure(FieldRequired)
    else
      Success(Pet(
        id.GetOr(freshId),
        input.guardianId.value,
        input.name.value,
        input.birthDate.value,
        input.breed.value,
        input.sex.value,
        input.isCastrated.value,
        input.microchipNumber,
        input.history,
        vaccineApplications.GetOr([]),
        dewormerApplications.GetOr([]),
        reminders.GetOr([]),
        createdAt,
        updatedAt))
  }

  /** Pet.create: the required-field check first, then the birth date against
      `today`; a new Pet gets the freshId id, empty lists and no audit timestamps. */
  function Create<Sex, Vaccine, Dewormer, Reminder, Timestamp>(
    input: PetInput<Sex>, freshId: Uuid, today: Date): (r: Result<Pet<Sex, Vaccine, Dewormer, Reminder, Timestamp>, PetError>)
    ensures r == Failure(FieldRequired) <==> MissingRequired(input)
    ensures r == Failure(BirthDateInFuture) <==> !MissingRequired(input) && IsAfter(input.birthDate.value, today)
    ensures r.Success? ==> Invariant(r.value) && Scalars(r.value) == input && !IsAfter(r.value.birthDate, today)
    ensures r.Success? ==> r.value.id == freshId
    ensures r.Success? ==> r.value.vaccineApplications == [] && r.value.dewormerApplications == [] && r.value.reminders == []
    ensures r.Success? ==> r.value.createdAt.None? && r.value.updatedAt.None?
  {
    if MissingRequired(input) then Failure(FieldRequired)
    else if IsAfter(input.birthDate.value, today) then Failure(BirthDateInFuture)
    else Construct(None, input, None, None, None, None, None, freshId)
  }

  /** Pet.reconstitute: the birth date (when present) against `today` first, then
      the constructor with everything supplied, which still checks the required
      fields. */
  function Reconstitute<Sex, Vaccine, Dewormer, Reminder, Timestamp>(
    id: Option<Uuid>,
    input: PetInput<Sex>,
    vaccineApplications: Option<seq<Vaccine>>,
    dewormerApplications: Option<seq<Dewormer>>,
    reminders: Option<seq<Reminder>>,
    createdAt: Option<Timestamp>,
    updatedAt: Option<Timestamp>,
    freshId: Uuid,
    today: Date): (r: Result<Pet<Sex, Vaccine, Dewormer, Reminder, Timestamp>, PetError>)
    ensures r == Failure(BirthDateInFuture) <==> input.birthDate.Some? && IsAfter(input.birthDate.value, today)
    ensures r == Failure(FieldRequired) <==>
              MissingRequired(input) && !(input.birthDate.Some? && IsAfter(input.birthDate.value, today))
    ensures r.Success? ==> Invariant(r.value) && Scalars(r.value) == input && !IsAfter(r.value.birthDate, today)
    ensures r.Success? && id.Some? ==> r.value.id == id.value
    ensures r.Success? && id.None? ==> r.value.id == freshId
    ensures r.Success? ==> r.value.createdAt == createdAt && r.value.updatedAt == updatedAt
    ensures r.Success? ==> r.value.vaccineApplications == vaccineApplications.GetOr([])
    ensures r.Success? ==> r.value.dewormerApplications == dewormerApplications.GetOr([])
    ensures r.Success? ==> r.value.reminders == reminders.GetOr([])
  {
    if input.birthDate.Some? && IsAfter(input.birthDate.value, today) then Failure(BirthDateInFuture)
    else Construct(id, input, vaccineApplications, dewormerApplications, reminders, createdAt, updatedAt, freshId)
  }

  /** Pet.updateBreed: a null or blank breed is ignored, any other replaces the
      current one, so a non-blank breed stays non-blank. */
  function UpdateBreed<Sex, Vaccine, Dewormer, Reminder, Timestamp>(
    p: Pet<Sex, Vaccine, Dewormer, Reminder, Timestamp>, newBreed: Option<string>): (q: Pet<Sex, Vaccine, Dewormer, Reminder, Timestamp>)
    ensures Invariant(p) ==> Invariant(q)
    ensures newBreed.None? || IsBlank(newBreed.value) ==> q == p
    ensures newBreed.Some? && !IsBlank(newBreed.value) ==> q.breed == newBreed.value
    ensures SameFinalFields(p, q)
    ensures q.microchipNumber == p.microchipNumber && q.history == p.history
    ensures q.vaccineApplications == p.vaccineApplications
    ensures q.dewormerApplications == p.dewormerApplications
    ensures q.reminders == p.reminders
  {
    if newBreed.Some? && !IsBlank(newBreed.value) then p.(breed := newBreed.value) else p
  }

  /** Pet.updateMicrochipNumber: replaces the number unconditionally, null included. */
  function UpdateMicrochipNumber<Sex, Vaccine, Dewormer, Reminder, Timestamp>(
    p: Pet<Sex, Vaccine, Dewormer, Reminder, Timestamp>, newMicrochipNumber: Option<string>): (q: Pet<Sex, Vaccine, Dewormer, Reminder, Timestamp>)
    ensures q.microchipNumber == newMicrochipNumber
    ensures Invariant(p) ==> Invariant(q)
    ensures SameFinalFields(p, q)
    ensures q.breed == p.breed && q.history == p.history
    ensures q.vaccineApplications == p.vaccineApplications
    ensures q.dewormerApplications == p.dewormerApplications
    ensures q.reminders == p.reminders
  {
    p.(microchipNumber := newMicrochipNumber)
  }

  /** Pet.updateHistory: replaces the history unconditionally, null included. */
  function UpdateHistory<Sex, Vaccine, Dewormer, Reminder, Timestamp>(
    p: Pet<Sex, Vaccine, Dewormer, Reminder, Timestamp>, newHistory: Option<string>): (q: Pet<Sex, Vaccine, Dewormer, Reminder, Timestamp>)
    ensures q.history == newHistory
    ensures Invariant(p) ==> Invariant(q)
    ensures SameFinalFields(p, q)
    ensures q.breed == p.breed && q.microchipNumber == p.microchipNumber
    ensures q.vaccineApplications == p.vaccineApplications
    ensures q.dewormerApplications == p.dewormerApplications
    ensures q.reminders == p.reminders
  {
    p.(history := newHistory)
  }

  /** Pet.addVaccineApplication: a null item is ignored, any other is appended. */
  function AddVaccineApplication<Sex, Vaccine, Dewormer, Reminder, Timestamp>(
    p: Pet<Sex, Vaccine, Dewormer, Reminder, Timestamp>, item: Option<Vaccine>): (q: Pet<Sex, Vaccine, Dewormer, Reminder, Timestamp>)
    ensures item.None? ==> q == p
    ensures item.Some? ==> q.vaccineApplications == p.vaccineApplications + [item.value]
    ensures q.vaccineApplications[..|p.vaccineApplications|] == p.vaccineApplications
    ensures Invariant(p) ==> Invariant(q)
    ensures SameFinalFields(p, q) && Scalars(q) == Scalars(p)
    ensures q.dewormerApplications == p.dewormerApplications
    ensures q.reminders == p.reminders
  {
    if item.Some? then p.(vaccineApplications := p.vaccineApplications + [item.value]) else p
  }

  /** Pet.addDewormerApplication: a null item is ignored, any other is appended. */
  function AddDewormerApplication<Sex, Vaccine, Dewormer, Reminder, Timestamp>(
    p: Pet<Sex, Vaccine, Dewormer, Reminder, Timestamp>, item: Option<Dewormer>): (q: Pet<Sex, Vaccine, Dewormer, Reminder, Timestamp>)
    ensures item.None? ==> q == p
    ensures item.Some? ==> q.dewormerApplications == p.dewormerApplications + [item.value]
    ensures q.dewormerApplications[..|p.dewormerApplications|] == p.dewormerApplications
    ensures Invariant(p) ==> Invariant(q)
    ensures SameFinalFields(p, q) && Scalars(q) == Scalars(p)
    ensures q.vaccineApplications == p.vaccineApplications
    ensures q.reminders == p.reminders
  {
    if item.Some? then p.(dewormerApplications := p.dewormerApplications + [item.value]) else p
  }

  /** Pet.addReminder: a null item is ignored, any other is appended. */
  function AddReminder<Sex, Vaccine, Dewormer, Reminder, Timestamp>(
    p: Pet<Sex, Vaccine, Dewormer, Reminder, Timestamp>, item: Option<Reminder>): (q: Pet<Sex, Vaccine, Dewormer, Reminder, Timestamp>)
    ensures item.None? ==> q == p
    ensures item.Some? ==> q.reminders == p.reminders + [item.value]
    ensures q.reminders[..|p.reminders|] == p.reminders
    ensures Invariant(p) ==> Invariant(q)
    ensures SameFinalFields(p, q) && Scalars(q) == Scalars(p)
    ensures q.vaccineApplications == p.vaccineApplications
    ensures q.dewormerApplications == p.dewormerApplications
  {
    if item.Some? then p.(reminders := p.reminders + [item.value]) else p
  }

  /** Pet.calculateAgeInYears: Period.between(birthDate, today).getYears(). For a
      birth date not after `today` this is the number of whole calendar years
      lived, and it always fits in a Java int. */
  function CalculateAgeInYears<Sex, Vaccine, Dewormer, Reminder, Timestamp>(
    p: Pet<Sex, Vaccine, Dewormer, Reminder, Timestamp>, today: Date): (years: int)
    ensures ValidDate(p.birthDate) && ValidDate(today) ==> IntMin <= years <= IntMax
    ensures ValidDate(p.birthDate) && ValidDate(today) && !IsAfter(p.birthDate, today) ==>
              years == WholeYears(p.birthDate, today) && years >= 0
  {
    YearsBetween(p.birthDate, today)
  }

  /** The argument of `equals(Object)`: null, a Pet, or an object of another class. */
  datatype Obj<P> = Null | PetRef(pet: P) | OtherObject

  /** Pet.equals: only a Pet can be equal, and then exactly when the ids are
      (Objects.equals on two ids that are never null). The reference-identity
      shortcut gives the same answer, since the same object has the same id. */
  function Equals<Sex, Vaccine, Dewormer, Reminder, Timestamp>(
    p: Pet<Sex, Vaccine, Dewormer, Reminder, Timestamp>, o: Obj<Pet<Sex, Vaccine, Dewormer, Reminder, Timestamp>>): (equal: bool)
    ensures equal ==> o.PetRef?
    ensures o.PetRef? ==> (equal <==> p.id == o.pet.id)
  {
    match o
    case Null => false
    case OtherObject => false
    case PetRef(q) => p.id == q.id
  }

  /** Pet.hashCode: Objects.hash(id), that is 31 * 1 + id.hashCode() in 32-bit
      arithmetic. */
  function HashCode<Sex, Vaccine, Dewormer, Reminder, Timestamp>(p: Pet<Sex, Vaccine, Dewormer, Reminder, Timestamp>): bv32 {
    31 + UuidHashCode(p.id)
  }
}
