# Pet aggregate of the clinic backend, in Dafny

This project models the `Pet` aggregate root of the veterinary clinic backend
(`modules/domain/.../pet/Pet.java`): a clinic patient linked to a guardian, with
scalar fields, three owned child lists (vaccine applications, dewormer
applications, reminders) and audit timestamps. The model covers:

- the two validating factories, `create` (new pet) and `reconstitute` (pet loaded
  from storage), and the private constructor both go through, each with its own
  checks in its own order, reporting the two errors `FieldRequired` and
  `BirthDateInFuture`;
- identity: an id is generated when none is supplied and kept when one is;
- the mutators `updateBreed`, `updateMicrochipNumber`, `updateHistory` and the
  three `add*` methods, and what a whole sequence of them preserves;
- `calculateAgeInYears`, i.e. `Period.between(birthDate, today).getYears()`;
- `equals` and `hashCode`, both decided by the id alone.

Modelling choices:

- `Pet` is an immutable datatype; each mutator is a function from the old Pet to
  the new one. Its destructors are the getters; `Collections.unmodifiableList`
  adds nothing once the lists are Dafny sequences.
- A Java reference that may be null is an `Option`. The constructor proves the
  required fields non-null, so in a constructed `Pet` they are plain values;
  what remains of the class invariant is "breed is not blank" (`Invariant`).
  In particular a constructed Pet's id is never null.
- The eight scalar arguments shared by `create` and `reconstitute` are grouped in
  a `PetInput` record; `Scalars(p)` reads a Pet's getters back into one.
- `LocalDate.now()` is the `today` parameter and `UUID.randomUUID()` the
  `freshId` parameter (also of `reconstitute`, whose constructor draws a new id
  when the supplied one is null).
- `Sex`, `VaccineApplication`, `DewormerApplication`, `Reminder` and
  `LocalDateTime` are type parameters: the aggregate stores them and never looks
  inside.
- A `LocalDate` is a (year, month, day) triple; `ValidDate` states the range
  `LocalDate` enforces. `isAfter` follows `LocalDate.compareTo0`; the age follows
  `LocalDate.until`'s month arithmetic, including Java's truncating division.
- `String.isBlank` and `Character.isWhitespace` are modelled on Unicode scalar
  values, with the JDK's list of whitespace code points.
- `UUID` is its two 64-bit halves and `hashCode` is computed in 32-bit
  arithmetic as the JDK does (`Objects.hash(id)` is `31 + id.hashCode()`).

Points about the code worth stating:

- `create` passes 12 arguments to the 14-parameter constructor
  (`Pet.java:97-110`), which would not compile. The model takes the evident
  intent: no id, null lists, and absent `createdAt`/`updatedAt`.
- `reconstitute` does not check the required fields itself, but the constructor
  it calls does. So a stored pet with a missing field is refused with
  `FieldRequired`, unless its birth date is in the future, which is checked and
  reported first.
- `Pet.equals` compares ids with `Objects.equals`, and a constructed Pet's id is
  never null, so no special case for null ids arises. (The rule that entities
  with null ids are never equal belongs to `PetEntity.equals`, which is not part
  of this model.)

Modules: `Wrappers` (Option, Result), `Dates`, `Strings`, `Uuids`,
`PetAggregate` (the class itself), `PetProperties` (relations between its
operations) and `PetLifecycle` (sequences of mutator calls).

## Model

All source paths are under `modules/domain/src/main/java/com/bichomania/clinicavet/domain/pet/`.

| member | source | states |
|---|---|---|
| PetAggregate.Construct | modules/domain/src/main/java/com/bichomania/clinicavet/domain/pet/Pet.java:51-78 | fails (only with FieldRequired) exactly when a required field is null or the breed is blank; on success the getters read back the inputs, the breed invariant holds, a supplied id is kept and a null one replaced by the fresh id, each supplied list is copied and a null list becomes empty, timestamps are passed through |
| PetAggregate.Create | modules/domain/src/main/java/com/bichomania/clinicavet/domain/pet/Pet.java:84-111 | FieldRequired exactly when a required field is null or the breed blank; BirthDateInFuture exactly when the fields are present and the birth date is after today (a birth date of today is accepted); otherwise success with getters echoing the inputs, id equal to the fresh id, all three lists empty and both timestamps absent |
| PetAggregate.Reconstitute | modules/domain/src/main/java/com/bichomania/clinicavet/domain/pet/Pet.java:117-131 | BirthDateInFuture exactly when a birth date is present and after today, whatever else is missing; otherwise FieldRequired exactly when a required field is missing; on success a supplied id is kept, lists are copied with null as empty, timestamps and scalars are carried over |
| Strings.IsBlank | modules/domain/src/main/java/com/bichomania/clinicavet/domain/pet/Pet.java:88 | `isBlank` holds exactly when every character is Java whitespace; the empty string is blank |
| PetAggregate.UpdateBreed | modules/domain/src/main/java/com/bichomania/clinicavet/domain/pet/Pet.java:135-139 | a null or blank breed leaves the Pet unchanged; any other becomes the breed; a non-blank breed stays non-blank; every other field is unchanged |
| PetAggregate.UpdateMicrochipNumber | modules/domain/src/main/java/com/bichomania/clinicavet/domain/pet/Pet.java:141-143 | the microchip number becomes the argument, null included; every other field is unchanged |
| PetAggregate.UpdateHistory | modules/domain/src/main/java/com/bichomania/clinicavet/domain/pet/Pet.java:145-147 | the history becomes the argument, null included; every other field is unchanged |
| PetAggregate.AddVaccineApplication | modules/domain/src/main/java/com/bichomania/clinicavet/domain/pet/Pet.java:149-153 | a null item leaves the Pet unchanged; otherwise the new list is the old list plus the item at the end; the other lists and all scalars are unchanged |
| PetAggregate.AddDewormerApplication | modules/domain/src/main/java/com/bichomania/clinicavet/domain/pet/Pet.java:155-159 | a null item leaves the Pet unchanged; otherwise the item is appended; the other lists and all scalars are unchanged |
| PetAggregate.AddReminder | modules/domain/src/main/java/com/bichomania/clinicavet/domain/pet/Pet.java:161-165 | a null item leaves the Pet unchanged; otherwise the item is appended; the other lists and all scalars are unchanged |
| PetAggregate.CalculateAgeInYears | modules/domain/src/main/java/com/bichomania/clinicavet/domain/pet/Pet.java:167-171 | for LocalDates the age fits in a Java int; when the birth date is not after today it equals the whole calendar years lived (independent WholeYears definition) and is non-negative |
| Dates.IsAfterStrictTotalOrder | modules/domain/src/main/java/com/bichomania/clinicavet/domain/pet/Pet.java:93 | `isAfter` is irreflexive, asymmetric, transitive and total on distinct dates |
| Dates.YearsBetweenIsWholeYears | modules/domain/src/main/java/com/bichomania/clinicavet/domain/pet/Pet.java:171 | when birth is not after today, Java's month arithmetic equals year difference minus one when (month, day) of today is before that of the birth date, and is at least 0 |
| Dates.YearsBetweenAntisymmetric | modules/domain/src/main/java/com/bichomania/clinicavet/domain/pet/Pet.java:171 | counting from b to a gives minus the count from a to b |
| Dates.YearsBetweenFuture | modules/domain/src/main/java/com/bichomania/clinicavet/domain/pet/Pet.java:171 | for a birth date after today the age is minus the whole years back, so at most 0, and 0 when less than a year ahead |
| Dates.YearsOnAnniversary | modules/domain/src/main/java/com/bichomania/clinicavet/domain/pet/Pet.java:171 | on the n-th anniversary of the birth date the age is n |
| Dates.YearsOnDayBeforeAnniversary | modules/domain/src/main/java/com/bichomania/clinicavet/domain/pet/Pet.java:171 | on the day before the n-th anniversary the age is n - 1 |
| Dates.YearsBetweenMonotone | modules/domain/src/main/java/com/bichomania/clinicavet/domain/pet/Pet.java:171 | the age never decreases as today advances |
| Dates.YearsBetweenFitsInInt | modules/domain/src/main/java/com/bichomania/clinicavet/domain/pet/Pet.java:170-171 | between any two LocalDates the years count is within Java int range |
| PetProperties.CreateAgreesWithReconstitute | modules/domain/src/main/java/com/bichomania/clinicavet/domain/pet/Pet.java:84-131 | `create` and a `reconstitute` with no id, lists or timestamps agree, except exactly when a required field is missing and the birth date is in the future; then `create` says FieldRequired and `reconstitute` BirthDateInFuture |
| PetProperties.ReconstituteRoundTrip | modules/domain/src/main/java/com/bichomania/clinicavet/domain/pet/Pet.java:117-131 | reconstituting a valid Pet from its own getters (birth date not after today) yields that same Pet |
| PetProperties.ReconstituteRejectsStoredFutureBirth | modules/domain/src/main/java/com/bichomania/clinicavet/domain/pet/Pet.java:124-126 | a stored Pet whose birth date is after today is refused with BirthDateInFuture |
| PetProperties.CreatedPetsAreDistinct | modules/domain/src/main/java/com/bichomania/clinicavet/domain/pet/Pet.java:64 | two successful creations with different fresh ids are not equal |
| PetAggregate.Equals | modules/domain/src/main/java/com/bichomania/clinicavet/domain/pet/Pet.java:233-238 | false for null and for objects of other classes; for a Pet, true exactly when the ids are equal |
| PetAggregate.HashCode | modules/domain/src/main/java/com/bichomania/clinicavet/domain/pet/Pet.java:240-243 | `Objects.hash(id)`: 31 + the id's hash code, in 32-bit wrap-around arithmetic; it reads nothing but the id |
| Uuids.UuidHashCode | modules/domain/src/main/java/com/bichomania/clinicavet/domain/pet/Pet.java:242 | the JDK's `UUID.hashCode`: the xor of the two 32-bit halves of `mostSigBits ^ leastSigBits`, that is the xor of the UUID's four 32-bit words |
| PetProperties.EqualsIsIdEquivalence | modules/domain/src/main/java/com/bichomania/clinicavet/domain/pet/Pet.java:233-238 | `equals` holds between Pets exactly when the ids are equal; it is reflexive, symmetric and transitive, and false for null and for other classes |
| PetProperties.EqualPetsHashAlike | modules/domain/src/main/java/com/bichomania/clinicavet/domain/pet/Pet.java:233-243 | equal Pets have equal hash codes |
| PetProperties.LabradorExample | modules/domain/src/main/java/com/bichomania/clinicavet/domain/pet/Pet.java:84-111 | a Labrador born 2023-05-01 created on 2024-05-01 is accepted and is 1 year old; created on 2023-04-30 it is refused as BirthDateInFuture |
| PetLifecycle.ApplyAppends | modules/domain/src/main/java/com/bichomania/clinicavet/domain/pet/Pet.java:149-165 | one mutator call appends to each child list exactly the non-null item it adds to that list, and nothing otherwise |
| PetLifecycle.ApplyAllPreservesInvariant | modules/domain/src/main/java/com/bichomania/clinicavet/domain/pet/Pet.java:135-139 | no sequence of mutator calls makes a non-blank breed blank |
| PetLifecycle.ApplyAllKeepsIdentity | modules/domain/src/main/java/com/bichomania/clinicavet/domain/pet/Pet.java:28-45 | no sequence of mutator calls changes id, guardian, name, birth date, sex, castration flag or timestamps, so the Pet stays equal to itself and keeps its hash code |
| PetLifecycle.ApplyAllAppendsVaccines | modules/domain/src/main/java/com/bichomania/clinicavet/domain/pet/Pet.java:149-153 | after any sequence of calls the vaccine list is the old list followed by the non-null vaccines added, in call order |
| PetLifecycle.ApplyAllAppendsDewormers | modules/domain/src/main/java/com/bichomania/clinicavet/domain/pet/Pet.java:155-159 | after any sequence of calls the dewormer list is the old list followed by the non-null dewormers added, in call order |
| PetLifecycle.ApplyAllAppendsReminders | modules/domain/src/main/java/com/bichomania/clinicavet/domain/pet/Pet.java:161-165 | after any sequence of calls the reminder list is the old list followed by the non-null reminders added, in call order |
| PetLifecycle.ChildListsOnlyGrow | modules/domain/src/main/java/com/bichomania/clinicavet/domain/pet/Pet.java:149-165 | each old child list is a prefix of the list after any sequence of calls |

## Left out

- `PetEntity.java` (the ORM mapping): annotations, auditing listeners, the version counter, database-enforced microchip uniqueness, and its own null-id equality rule. This is persistence glue, not domain logic.
- `PetController.java`: declarative HTTP routing that delegates to a service which is not part of this model.
- `DewormerApplication.java`: its source does not parse (an inner class is cut in the middle), so it has no behaviour to state. Its type is a type parameter here.
- `ExceptionMessages.java`: the two message strings are the two `PetError` variants; their Portuguese text is not modelled.
- The Gradle build scripts: they contain no logic.
- The real clock and random UUID generation: they are the `today` and `freshId` parameters. The uniqueness of generated ids is therefore an assumption about the caller.
- A null element inside a list passed to `reconstitute`: Java copies it as-is. The element types are opaque here, so the model does not tell null elements apart from others.
- The months and days of the `Period` built by `calculateAgeInYears`: the method reads only `getYears()`.
- `equals`'s `this == o` reference shortcut: in a value model the same object has the same id, so it is folded into the id comparison.
- PetAggregate.CalculateAgeInYears: its contract speaks only of LocalDate-valid triples, since a Java `LocalDate` cannot hold any other; for a birth date after today its value is described by `Dates.YearsBetweenFuture`.
- The getters: they are the `Pet` datatype's destructors, with `Scalars` reading the scalar ones back as constructor arguments.
