/** A Pet's life after construction is a sequence of calls to its mutators.
    This module replays such a sequence and states what survives it: the breed
    invariant, every final field (so equality), and the three child lists, which
    only ever grow by appending. */
module PetLifecycle {
  import opened Wrappers
  import opened Strings
  import opened PetAggregate

  /** One call to a mutator of the aggregate, with its (nullable) argument. */
  datatype Op<Vaccine, Dewormer, Reminder> =
    | BreedUpdate(newBreed: Option<string>)
    | MicrochipNumberUpdate(newMicrochipNumber: Option<string>)
    | HistoryUpdate(newHistory: Option<string>)
    | VaccineApplicationAdded(vaccine: Option<Vaccine>)
    | DewormerApplicationAdded(dewormer: Option<Dewormer>)
    | ReminderAdded(reminder: Option<Reminder>)

  function Apply<Sex, Vaccine, Dewormer, Reminder, Timestamp>(
    p: Pet<Sex, Vaccine, Dewormer, Reminder, Timestamp>, op: Op<Vaccine, Dewormer, Reminder>)
    : Pet<Sex, Vaccine, Dewormer, Reminder, Timestamp>
  {
    match op
    case BreedUpdate(b) => UpdateBreed(p, b)
    case MicrochipNumberUpdate(m) => UpdateMicrochipNumber(p, m)
    case HistoryUpdate(h) => UpdateHistory(p, h)
    case VaccineApplicationAdded(v) => AddVaccineApplication(p, v)
    case DewormerApplicationAdded(d) => AddDewormerApplication(p, d)
    case ReminderAdded(r) => AddReminder(p, r)
  }

  /** The calls in `ops`, first to last. */
  function ApplyAll<Sex, Vaccine, Dewormer, Reminder, Timestamp>(
    p: Pet<Sex, Vaccine, Dewormer, Reminder, Timestamp>, ops: seq<Op<Vaccine, Dewormer, Reminder>>)
    : Pet<Sex, Vaccine, Dewormer, Reminder, Timestamp>
    decreases |ops|
  {
    if |ops| == 0 then p else ApplyAll(Apply(p, ops[0]), ops[1..])
  }

  /** The vaccine application one call adds: none unless it is a non-null
      `addVaccineApplication`. */
  function VaccineOf<Vaccine, Dewormer, Reminder>(op: Op<Vaccine, Dewormer, Reminder>): seq<Vaccine> {
    if op.VaccineApplicationAdded? && op.vaccine.Some? then [op.vaccine.value] else []
  }

  /** The dewormer application one call adds. */
  function DewormerOf<Vaccine, Dewormer, Reminder>(op: Op<Vaccine, Dewormer, Reminder>): seq<Dewormer> {
    if op.DewormerApplicationAdded? && op.dewormer.Some? then [op.dewormer.value] else []
  }

  /** The reminder one call adds. */
  function ReminderOf<Vaccine, Dewormer, Reminder>(op: Op<Vaccine, Dewormer, Reminder>): seq<Reminder> {
    if op.ReminderAdded? && op.reminder.Some? then [op.reminder.value] else []
  }

  /** The non-null vaccine applications the calls in `ops` add, in call order. */
  function VaccinesAdded<Vaccine, Dewormer, Reminder>(ops: seq<Op<Vaccine, Dewormer, Reminder>>): seq<Vaccine> {
    if |ops| == 0 then [] else VaccineOf(ops[0]) + VaccinesAdded(ops[1..])
  }

  /** The non-null dewormer applications the calls in `ops` add, in call order. */
  function DewormersAdded<Vaccine, Dewormer, Reminder>(ops: seq<Op<Vaccine, Dewormer, Reminder>>): seq<Dewormer> {
    if |ops| == 0 then [] else DewormerOf(ops[0]) + DewormersAdded(ops[1..])
  }

  /** The non-null reminders the calls in `ops` add, in call order. */
  function RemindersAdded<Vaccine, Dewormer, Reminder>(ops: seq<Op<Vaccine, Dewormer, Reminder>>): seq<Reminder> {
    if |ops| == 0 then [] else ReminderOf(ops[0]) + RemindersAdded(ops[1..])
  }

  /** One call appends to each child list exactly what it adds to it. */
  lemma ApplyAppends<Sex, Vaccine, Dewormer, Reminder, Timestamp>(
    p: Pet<Sex, Vaccine, Dewormer, Reminder, Timestamp>, op: Op<Vaccine, Dewormer, Reminder>)
    ensures Apply(p, op).vaccineApplications == p.vaccineApplications + VaccineOf(op)
    ensures Apply(p, op).dewormerApplications == p.dewormerApplications + DewormerOf(op)
    ensures Apply(p, op).reminders == p.reminders + ReminderOf(op)
  {
    assert p.vaccineApplications + [] == p.vaccineApplications;
    assert p.dewormerApplications + [] == p.dewormerApplications;
    assert p.reminders + [] == p.reminders;
  }

  /** No sequence of mutator calls makes the breed blank. */
  lemma {:induction false} ApplyAllPreservesInvariant<Sex, Vaccine, Dewormer, Reminder, Timestamp>(
    p: Pet<Sex, Vaccine, Dewormer, Reminder, Timestamp>, ops: seq<Op<Vaccine, Dewormer, Reminder>>)
    requires Invariant(p)
    ensures Invariant(ApplyAll(p, ops))
    decreases |ops|
  {
    if |ops| > 0 {
      ApplyAllPreservesInvariant(Apply(p, ops[0]), ops[1..]);
    }
  }

  /** No sequence of mutator calls changes the id, guardian, name, birth date,
      sex, castration flag or audit timestamps, so the Pet stays equal to what
      it was and keeps its hash code. */
  lemma {:induction false} ApplyAllKeepsIdentity<Sex, Vaccine, Dewormer, Reminder, Timestamp>(
    p: Pet<Sex, Vaccine, Dewormer, Reminder, Timestamp>, ops: seq<Op<Vaccine, Dewormer, Reminder>>)
    ensures SameFinalFields(p, ApplyAll(p, ops))
    ensures Equals(ApplyAll(p, ops), PetRef(p))
    ensures HashCode(ApplyAll(p, ops)) == HashCode(p)
    decreases |ops|
  {
    if |ops| > 0 {
      ApplyAllKeepsIdentity(Apply(p, ops[0]), ops[1..]);
    }
  }

  /** The vaccine applications end as the old list followed by exactly the
      non-null ones the calls add, in call order: nothing is removed or reordered. */
  lemma {:induction false} ApplyAllAppendsVaccines<Sex, Vaccine, Dewormer, Reminder, Timestamp>(
    p: Pet<Sex, Vaccine, Dewormer, Reminder, Timestamp>, ops: seq<Op<Vaccine, Dewormer, Reminder>>)
    ensures ApplyAll(p, ops).vaccineApplications == p.vaccineApplications + VaccinesAdded(ops)
    decreases |ops|
  {
    if |ops| == 0 {
      assert p.vaccineApplications + [] == p.vaccineApplications;
    } else {
      var q := Apply(p, ops[0]);
      var head := VaccineOf(ops[0]);
      ApplyAppends(p, ops[0]);
      assert q.vaccineApplications == p.vaccineApplications + head;
      ApplyAllAppendsVaccines(q, ops[1..]);
      assert VaccinesAdded(ops) == head + VaccinesAdded(ops[1..]);
      assert (p.vaccineApplications + head) + VaccinesAdded(ops[1..]) == p.vaccineApplications + (head + VaccinesAdded(ops[1..]));
    }
  }

  /** The dewormer applications end as the old list followed by exactly the
      non-null ones the calls add, in call order. */
  lemma {:induction false} ApplyAllAppendsDewormers<Sex, Vaccine, Dewormer, Reminder, Timestamp>(
    p: Pet<Sex, Vaccine, Dewormer, Reminder, Timestamp>, ops: seq<Op<Vaccine, Dewormer, Reminder>>)
    ensures ApplyAll(p, ops).dewormerApplications == p.dewormerApplications + DewormersAdded(ops)
    decreases |ops|
  {
    if |ops| == 0 {
      assert p.dewormerApplications + [] == p.dewormerApplications;
    } else {
      var q := Apply(p, ops[0]);
      var head := DewormerOf(ops[0]);
      ApplyAppends(p, ops[0]);
      assert q.dewormerApplications == p.dewormerApplications + head;
      ApplyAllAppendsDewormers(q, ops[1..]);
      assert DewormersAdded(ops) == head + DewormersAdded(ops[1..]);
      assert (p.dewormerApplications + head) + DewormersAdded(ops[1..]) == p.dewormerApplications + (head + DewormersAdded(ops[1..]));
    }
  }

  /** The reminders end as the old list followed by exactly the non-null ones
      the calls add, in call order. */
  lemma {:induction false} ApplyAllAppendsReminders<Sex, Vaccine, Dewormer, Reminder, Timestamp>(
    p: Pet<Sex, Vaccine, Dewormer, Reminder, Timestamp>, ops: seq<Op<Vaccine, Dewormer, Reminder>>)
    ensures ApplyAll(p, ops).reminders == p.reminders + RemindersAdded(ops)
    decreases |ops|
  {
    if |ops| == 0 {
      assert p.reminders + [] == p.reminders;
    } else {
      var q := Apply(p, ops[0]);
      var head := ReminderOf(ops[0]);
      ApplyAppends(p, ops[0]);
      assert q.reminders == p.reminders + head;
      ApplyAllAppendsReminders(q, ops[1..]);
      assert RemindersAdded(ops) == head + RemindersAdded(ops[1..]);
      assert (p.reminders + head) + RemindersAdded(ops[1..]) == p.reminders + (head + RemindersAdded(ops[1..]));
    }
  }

  /** Consequence: each old child list is a prefix of the new one. */
  lemma ChildListsOnlyGrow<Sex, Vaccine, Dewormer, Reminder, Timestamp>(
    p: Pet<Sex, Vaccine, Dewormer, Reminder, Timestamp>, ops: seq<Op<Vaccine, Dewormer, Reminder>>)
    ensures p.vaccineApplications <= ApplyAll(p, ops).vaccineApplications
    ensures p.dewormerApplications <= ApplyAll(p, ops).dewormerApplications
    ensures p.reminders <= ApplyAll(p, ops).reminders
  {
    ApplyAllAppendsVaccines(p, ops);
    ApplyAllAppendsDewormers(p, ops);
    ApplyAllAppendsReminders(p, ops);
  }
}
