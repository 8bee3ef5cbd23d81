/**
 * `PetCareScheduler`: the in-memory record store (pets by identifier,
 * appointment buckets by date-time), its reports, and the console loop that
 * drives it. The `Scanner` is modelled as the list of lines it has yet to
 * deliver; the clock, the UUID generator and the UUID and date-time parsers
 * are supplied as an `Environment`.
 */
module Scheduling {
  import opened Common
  import opened Numerals
  import opened Appointments
  import opened Pets
  import opened Tally

  /** The appointment table: one bucket per exact date-time, `null` included. */
  type Buckets = map<Option<DateTime>, seq<Appointment>>

  /** What the program takes from outside the record store. */
  datatype Environment = Environment(
    uuid: nat -> PetId,                         // the n-th value of UUID.randomUUID()
    today: Date,                                // LocalDate.now()
    now: DateTime,                               // LocalDateTime.now()
    parseUuid: string -> Option<PetId>,         // UUID.fromString, None when it throws
    parseDateTime: string -> Option<DateTime>)   // LocalDateTime.parse with "yyyy-MM-dd HH:mm"

  /** The bucket for `key`, or the empty list `computeIfAbsent` would create. */
  function BucketAt(m: Buckets, key: Option<DateTime>): seq<Appointment>
  {
    if key in m then m[key] else []
  }

  /** `m.computeIfAbsent(key, k -> new ArrayList<>()).add(a)`, as a value. */
  function Appended(m: Buckets, key: Option<DateTime>, a: Appointment): (r: Buckets)
    ensures r.Keys == m.Keys + {key}
    ensures key in m ==> r[key] == m[key] + [a]
    ensures key !in m ==> r[key] == [a]
    ensures forall k :: k in m && k != key ==> r[k] == m[k]
  {
    m[key := BucketAt(m, key) + [a]]
  }

  /** `now.toLocalDate().atStartOfDay()`: midnight of `now`'s day (floor, also before 1970). */
  function StartOfDay(now: DateTime): (midnight: DateTime)
    ensures midnight <= now < midnight + NanosPerDay
    ensures midnight % NanosPerDay == 0
  {
    now - now % NanosPerDay
  }

  /** A midnight at most `now` is at most `now`'s own midnight. */
  lemma StartOfDayIsLatestMidnight(m: DateTime, now: DateTime)
    requires m % NanosPerDay == 0 && m <= now
    ensures m <= StartOfDay(now)
  {
    MidnightBelow(m, StartOfDay(now));
  }

  /** Midnights are a whole day apart: one less than a day after another is not after it. */
  lemma MidnightBelow(u: DateTime, m: DateTime)
    requires u % NanosPerDay == 0 && m % NanosPerDay == 0 && u < m + NanosPerDay
    ensures u <= m
  {
    var i, j := u / NanosPerDay, m / NanosPerDay;
    assert u == i * NanosPerDay && m == j * NanosPerDay;
    assert i < j + 1;
  }

  /**
   * The test of `displayTodaysAppointments`: after midnight today and before
   * midnight tomorrow, i.e. on `now`'s calendar day but not at its midnight.
   */
  predicate InToday(t: DateTime, now: DateTime): (b: bool)
    ensures b <==> StartOfDay(t) == StartOfDay(now) && t != StartOfDay(now)
  {
    SameDay(t, now);
    StartOfDay(now) < t < StartOfDay(now) + NanosPerDay
  }

  /** Two instants share a midnight iff the one lies in the day that starts at the other's midnight. */
  lemma SameDay(t: DateTime, now: DateTime)
    ensures StartOfDay(t) == StartOfDay(now) <==> StartOfDay(now) <= t < StartOfDay(now) + NanosPerDay
  {
    var s, u := StartOfDay(now), StartOfDay(t);
    if s <= t < s + NanosPerDay {
      StartOfDayIsLatestMidnight(s, t);
      MidnightBelow(u, s);
    }
  }

  /**
   * The test of `displayUpcomingAppointments`: after now and before one week
   * from now, so on today or one of the next seven calendar days.
   */
  predicate InUpcoming(t: DateTime, now: DateTime): (b: bool)
    ensures b ==> StartOfDay(now) <= StartOfDay(t) <= StartOfDay(now) + NanosPerWeek
  {
    UpcomingDays(t, now);
    now < t < now + NanosPerWeek
  }

  /** An instant in the coming week falls on today or one of the next seven calendar days. */
  lemma UpcomingDays(t: DateTime, now: DateTime)
    ensures now < t < now + NanosPerWeek ==> StartOfDay(now) <= StartOfDay(t) <= StartOfDay(now) + NanosPerWeek
  {
    if now < t < now + NanosPerWeek {
      var s := StartOfDay(now);
      StartOfDayIsLatestMidnight(s, t);
      assert s == (s / NanosPerDay) * NanosPerDay;
      assert s + NanosPerWeek == (s / NanosPerDay + 7) * NanosPerDay;
      MidnightBelow(StartOfDay(t), s + NanosPerWeek);
    }
  }

  /** "Today" is exactly the instants of `now`'s calendar day, except its midnight. */
  lemma TodayIsSameDayAfterMidnight(t: DateTime, now: DateTime)
    ensures InToday(t, now) <==> t / NanosPerDay == now / NanosPerDay && t % NanosPerDay != 0
  {
    var day := now / NanosPerDay;
    assert StartOfDay(now) == day * NanosPerDay;
    if InToday(t, now) {
      assert day * NanosPerDay < t < (day + 1) * NanosPerDay;
      assert t / NanosPerDay == day;
    }
  }

  /** Both ends of both windows are left out: midnight today and tomorrow, now and a week from now. */
  lemma WindowsAreOpen(now: DateTime)
    ensures !InToday(StartOfDay(now), now) && !InToday(StartOfDay(now) + NanosPerDay, now)
    ensures !InUpcoming(now, now) && !InUpcoming(now + NanosPerWeek, now)
    ensures InUpcoming(now + 1, now) && InUpcoming(now + NanosPerWeek - 1, now)
  {
  }

  /** A list without repeats that holds exactly the members of `keys` is as long as `keys` is large. */
  lemma {:induction false} DistinctCount(ids: seq<PetId>, keys: set<PetId>)
    requires forall i, j :: 0 <= i < j < |ids| ==> ids[i] != ids[j]
    requires forall i :: 0 <= i < |ids| ==> ids[i] in keys
    requires forall k :: k in keys ==> k in ids
    ensures |ids| == |keys|
  {
    if ids != [] {
      var last := ids[|ids| - 1];
      var front := ids[..|ids| - 1];
      forall k | k in keys - {last}
        ensures k in front
      {
        var i :| 0 <= i < |ids| && ids[i] == k;
      }
      DistinctCount(front, keys - {last});
    }
  }

  /**
   * Listing the pets of `table` by a list of all its identifiers without
   * repeats lists each pet exactly once.
   */
  lemma ListedOnce(table: map<PetId, Pet>, list: seq<Pet>, ids: seq<PetId>)
    requires forall id :: id in table ==> table[id].petId == id
    requires |ids| == |list|
    requires forall i :: 0 <= i < |ids| ==> ids[i] in table && list[i] == table[ids[i]]
    requires forall id :: id in table ==> id in ids
    requires forall i, j :: 0 <= i < j < |ids| ==> ids[i] != ids[j]
    ensures |list| == |table|
    ensures forall id :: id in table ==> table[id] in list
    ensures forall i :: 0 <= i < |list| ==> list[i] in table.Values
    ensures forall i, j :: 0 <= i < j < |list| ==> list[i] != list[j]
  {
    DistinctCount(ids, table.Keys);
    forall id | id in table
      ensures table[id] in list
    {
      var i :| 0 <= i < |ids| && ids[i] == id;
      assert list[i] == table[id];
    }
    forall i, j | 0 <= i < j < |list|
      ensures list[i] != list[j]
    {
      assert list[i].petId == ids[i] && list[j].petId == ids[j];
    }
  }

  /** Each filed pet's breed, by identifier. */
  ghost function BreedTable(pets: map<PetId, Pet>): (breeds: map<PetId, string>)
    reads pets.Values
    ensures breeds.Keys == pets.Keys
    ensures forall id :: id in pets ==> breeds[id] == pets[id].breed
  {
    map id | id in pets :: pets[id].breed
  }

  /** The identifiers among `ids` whose pet has exactly the breed `breed`. */
  ghost function OfBreed(breeds: map<PetId, string>, ids: set<PetId>, breed: string): set<PetId>
  {
    set id | id in ids && id in breeds && breeds[id] == breed
  }

  /** The breeds of the pets filed under `ids`. */
  ghost function BreedsOf(breeds: map<PetId, string>, ids: set<PetId>): set<string>
  {
    set id | id in ids && id in breeds :: breeds[id]
  }

  /** `counts` is the breed histogram of the pets filed under `done`. */
  ghost predicate Tallied(breeds: map<PetId, string>, done: set<PetId>, counts: map<string, nat>)
  {
    && counts.Keys == BreedsOf(breeds, done)
    && (forall b :: b in counts ==> counts[b] == |OfBreed(breeds, done, b)|)
  }

  /** Pets with known breeds have at least one breed among them. */
  lemma SomeBreedOccurs(breeds: map<PetId, string>, done: set<PetId>)
    requires done <= breeds.Keys
    ensures done != {} ==> BreedsOf(breeds, done) != {}
  {
    if done != {} {
      var id :| id in done;
      assert breeds[id] in BreedsOf(breeds, done);
    }
  }

  /**
   * The groups of a histogram partition the pets it was built from, so its
   * counts add up to their number.
   */
  lemma {:induction false} TalliedTotal(breeds: map<PetId, string>, done: set<PetId>, counts: map<string, nat>)
    requires done <= breeds.Keys
    requires Tallied(breeds, done, counts)
    ensures Total(counts) == |done|
    decreases |counts|
  {
    if |counts| == 0 {
      SomeBreedOccurs(breeds, done);
    } else {
      var b := AnyKey(counts);
      var rest := done - OfBreed(breeds, done, b);
      TalliedWithout(breeds, done, counts, b);
      TalliedTotal(breeds, rest, counts - {b});
      TotalWithout(counts, b);
    }
  }

  /** Taking one breed's group out of a histogram's pets leaves the histogram of the others. */
  lemma TalliedWithout(breeds: map<PetId, string>, done: set<PetId>, counts: map<string, nat>, b: string)
    requires done <= breeds.Keys && b in counts
    requires Tallied(breeds, done, counts)
    ensures var rest := done - OfBreed(breeds, done, b);
            Tallied(breeds, rest, counts - {b}) &&
            |done| == counts[b] + |rest| && |counts - {b}| < |counts|
  {
    var group := OfBreed(breeds, done, b);
    var rest := done - group;
    var fewer := counts - {b};
    assert fewer.Keys == counts.Keys - {b};
    forall id | id in rest
      ensures breeds[id] != b
    {
    }
    assert BreedsOf(breeds, rest) == BreedsOf(breeds, done) - {b};
    forall c | c in fewer
      ensures fewer[c] == |OfBreed(breeds, rest, c)|
    {
      assert OfBreed(breeds, rest, c) == OfBreed(breeds, done, c);
    }
    assert done == group + rest && group * rest == {};
  }

  /** Adding one pet to `done` adds it to its own breed's group and to no other. */
  lemma OfBreedStep(breeds: map<PetId, string>, done: set<PetId>, id: PetId)
    requires id in breeds && id !in done
    ensures OfBreed(breeds, done + {id}, breeds[id]) == OfBreed(breeds, done, breeds[id]) + {id}
    ensures id !in OfBreed(breeds, done, breeds[id])
    ensures forall b :: b != breeds[id] ==> OfBreed(breeds, done + {id}, b) == OfBreed(breeds, done, b)
    ensures BreedsOf(breeds, done + {id}) == BreedsOf(breeds, done) + {breeds[id]}
  {
  }

  /** A breed with a non-empty group is the breed of some pet in `done`. */
  lemma GroupedBreedOccurs(breeds: map<PetId, string>, done: set<PetId>, breed: string)
    ensures OfBreed(breeds, done, breed) != {} ==> breed in BreedsOf(breeds, done)
  {
    if OfBreed(breeds, done, breed) != {} {
      var other :| other in OfBreed(breeds, done, breed);
      assert breeds[other] == breed;
    }
  }

  /** Merging the breed of one more pet extends the histogram to that pet. */
  lemma TallyStep(breeds: map<PetId, string>, done: set<PetId>, counts: map<string, nat>, id: PetId)
    requires id in breeds && id !in done
    requires Tallied(breeds, done, counts)
    ensures Tallied(breeds, done + {id}, Merged(counts, breeds[id]))
  {
    var breed := breeds[id];
    OfBreedStep(breeds, done, id);
    GroupedBreedOccurs(breeds, done, breed);
    var merged := Merged(counts, breed);
    forall b | b in merged
      ensures merged[b] == |OfBreed(breeds, done + {id}, b)|
    {
      if b == breed {
        if breed in counts {
          assert merged[b] == counts[b] + 1;
        } else {
          assert OfBreed(breeds, done, breed) == {};
          assert merged[b] == 1;
        }
      } else {
        assert b in counts;
        assert merged[b] == counts[b];
      }
    }
    assert merged.Keys == BreedsOf(breeds, done + {id});
  }

  /** What one report run found: the listed bucket times, or the `NullPointerException` of a `null` key. */
  datatype Report = Listed(times: set<DateTime>, found: bool) | NullKey

  /** What choosing "Generate Reports" did. */
  datatype ReportRun =
    | Today(report: Report)
    | Upcoming(report: Report)
    | Statistics(petCount: nat, breeds: map<string, nat>)
    | InvalidReportChoice(choice: Int32)
    | ReportChoiceNotANumber
    | ReportInputExhausted

  /** What "Register New Pet" did. */
  datatype Registration = Registered(pet: Pet) | InvalidAge | RegistrationInputExhausted

  /** What "Schedule Appointment" did. */
  datatype ScheduleOutcome =
    | Scheduled(pet: Pet, appointment: Appointment)
    | InvalidPetId
    | PetNotFound
    | InvalidDateTime
    | SchedulingInputExhausted

  /**
   * `choices` are lines of `lines`, read in order from its start: the `i`th
   * stood at `at[i]`, before the first `consumed` lines were used up.
   */
  ghost predicate ReadInOrder(lines: seq<string>, consumed: nat, choices: seq<string>, at: seq<nat>) {
    consumed <= |lines| && |at| == |choices| &&
    (forall i :: 0 <= i < |at| ==> at[i] < consumed && lines[at[i]] == choices[i]) &&
    (forall i, j :: 0 <= i < j < |at| ==> at[i] < at[j]) &&
    (choices != [] ==> at[0] == 0)
  }

  /** A suffix of a suffix of `lines` is a suffix of `lines`. */
  lemma SuffixOfSuffix(lines: seq<string>, mid: seq<string>, rest: seq<string>)
    requires |mid| <= |lines| && mid == lines[|lines| - |mid|..]
    requires |rest| <= |mid| && rest == mid[|mid| - |rest|..]
    ensures rest == lines[|lines| - |rest|..]
  {
  }

  /** Reading the next line as a choice, and then using up more lines, keeps the record in order. */
  lemma ReadNext(lines: seq<string>, consumed: nat, choices: seq<string>, at: seq<nat>, later: nat)
    requires ReadInOrder(lines, consumed, choices, at)
    requires choices == [] ==> consumed == 0
    requires consumed < later <= |lines|
    ensures ReadInOrder(lines, later, choices + [lines[consumed]], at + [consumed])
  {
  }

  /**
   * What `main`'s loop has done with its input so far: `rest` is what is
   * left of `lines`, `choices` are the menu lines read (at positions `at`),
   * and the loop is `running` until a "6" has been read, which is then the
   * last choice. When the very first line is "6", nothing else is read.
   */
  ghost predicate MenuProgress(lines: seq<string>, rest: seq<string>, choices: seq<string>, at: seq<nat>, running: bool) {
    |rest| <= |lines| && rest == lines[|lines| - |rest|..] &&
    ReadInOrder(lines, |lines| - |rest|, choices, at) &&
    (choices == [] ==> rest == lines) &&
    (running <==> "6" !in choices) &&
    (!running ==> |choices| > 0 && choices[|choices| - 1] == "6") &&
    (choices != [] ==> "6" !in choices[..|choices| - 1]) &&
    (lines != [] && lines[0] == "6" && choices != [] ==> choices == ["6"] && rest == lines[1..])
  }

  /** One more turn of the loop: read `rest[0]`, then use up that line and possibly more. */
  lemma MenuProgressStep(lines: seq<string>, rest: seq<string>, choices: seq<string>, at: seq<nat>,
                         choice: string, running: bool, later: seq<string>)
    requires MenuProgress(lines, rest, choices, at, true) && rest != [] && choice == rest[0]
    requires |later| < |rest| && later == rest[|rest| - |later|..]
    requires running <==> choice != "6"
    requires choice == "6" ==> later == rest[1..]
    ensures MenuProgress(lines, later, choices + [choice], at + [|lines| - |rest|], running)
  {
    SuffixOfSuffix(lines, rest, later);
    ReadNext(lines, |lines| - |rest|, choices, at, |lines| - |later|);
    assert (choices + [rest[0]])[..|choices|] == choices;
    assert rest[0] == lines[|lines| - |rest|];
  }

  /**
   * The identifier bookkeeping of `main`'s loop: of the first `bound`
   * identifiers `uuid` can draw, the `generated` ones already filed were
   * drawn while reading the first `consumed` lines (at most one per line),
   * and none of the later ones is in `keys`.
   */
  ghost predicate IdsUnused(uuid: nat -> PetId, generated: nat, bound: nat, consumed: nat, keys: set<PetId>) {
    generated <= consumed &&
    forall n :: generated <= n < bound ==> uuid(n) !in keys
  }

  /**
   * One more turn of the loop, which used up at least one line: filing the
   * identifier numbered `generated` (when `registered`) leaves all later
   * ones unused, provided the first `bound` identifiers are pairwise
   * distinct.
   */
  lemma IdsUnusedStep(uuid: nat -> PetId, generated: nat, bound: nat, consumed: nat, later: nat,
                      before: set<PetId>, after: set<PetId>, registered: bool)
    requires forall m: nat, n: nat :: m < n < bound ==> uuid(m) != uuid(n)
    requires IdsUnused(uuid, generated, bound, consumed, before) && consumed < later
    requires after == if registered then before + {uuid(generated)} else before
    ensures IdsUnused(uuid, if registered then generated + 1 else generated, bound, later, after)
  {
    if registered {
      forall n | generated + 1 <= n < bound
        ensures uuid(n) !in after
      {
        assert uuid(generated) != uuid(n);
      }
    }
  }

  class Scheduler {
    var pets: map<PetId, Pet>
    var appointments: Buckets
    /** The lines the `Scanner` on standard input has yet to deliver. */
    var input: seq<string>

    /** Every pet is filed under its own identifier (`addPet` keys by `getPetId()`). */
    ghost predicate Valid()
      reads this`pets
    {
      forall id :: id in pets ==> pets[id].petId == id
    }

    ghost function PetObjects(): set<Pet>
      reads this`pets
    {
      pets.Values
    }

    /** Both tables start empty (`loadData` is not part of this model). */
    constructor (input: seq<string>)
      ensures Valid()
      ensures pets == map[] && appointments == map[] && this.input == input
    {
      pets := map[];
      appointments := map[];
      this.input := input;
    }

    /** `addPet`: file `pet` under its identifier, replacing any pet already there. */
    method AddPet(pet: Pet)
      requires Valid()
      modifies this`pets
      ensures Valid()
      ensures pets == old(pets)[pet.petId := pet]
      ensures |pets| == if pet.petId in old(pets) then |old(pets)| else |old(pets)| + 1
    {
      pets := pets[pet.petId := pet];
    }

    /** `getPet`: the pet filed under `id`, or `null`. */
    function GetPet(id: PetId): (r: Option<Pet>)
      requires Valid()
      reads this
      ensures r.Some? <==> id in pets
      ensures r.Some? ==> r.value in pets.Values && r.value.petId == id
    {
      if id in pets then Some(pets[id]) else None
    }

    /**
     * `addAppointment`: append `a` to the bucket of its date-time, creating
     * the bucket if needed, and to `pet`'s own list.
     */
    method AddAppointment(a: Appointment, pet: Pet)
      modifies this`appointments, pet`appointments
      ensures appointments == Appended(old(appointments), a.dateTime, a)
      ensures pet.appointments == old(pet.appointments) + [a]
      ensures pet.name == old(pet.name) && pet.breed == old(pet.breed) && pet.age == old(pet.age)
      ensures pet.ownerName == old(pet.ownerName) && pet.contactInfo == old(pet.contactInfo)
    {
      appointments := Appended(appointments, a.dateTime, a);
      pet.AddAppointment(a);
    }

    /** `getAllPets`: a new list holding each filed pet once, in no particular order. */
    method GetAllPets() returns (list: seq<Pet>)
      requires Valid()
      ensures |list| == |pets|
      ensures forall id :: id in pets ==> pets[id] in list
      ensures forall i :: 0 <= i < |list| ==> list[i] in pets.Values
      ensures forall i, j :: 0 <= i < j < |list| ==> list[i] != list[j]
    {
      var table := pets;
      list := [];
      var remaining := table.Keys;
      ghost var ids: seq<PetId> := [];
      while remaining != {}
        invariant remaining <= table.Keys && |ids| == |list|
        invariant forall i :: 0 <= i < |ids| ==> ids[i] in table && ids[i] !in remaining && list[i] == table[ids[i]]
        invariant forall id :: id in table && id !in remaining ==> id in ids
        invariant forall i, j :: 0 <= i < j < |ids| ==> ids[i] != ids[j]
        decreases remaining
      {
        var id :| id in remaining;
        list := list + [table[id]];
        ids := ids + [id];
        remaining := remaining - {id};
      }
      ListedOnce(table, list, ids);
    }

    /**
     * The loop both date reports share: list every bucket whose date-time
     * lies strictly between `from` and `to`. Meeting the `null` bucket
     * throws, so a table holding one never yields a report.
     */
    method AppointmentsBetween(from: DateTime, to: DateTime) returns (report: Report)
      ensures report.NullKey? <==> None in appointments
      ensures report.Listed? ==> forall t :: t in report.times <==> Some(t) in appointments && from < t < to
      ensures report.Listed? ==> (report.found <==> report.times != {})
    {
      var remaining := appointments.Keys;
      var times: set<DateTime> := {};
      var found := false;
      while remaining != {}
        invariant remaining <= appointments.Keys
        invariant None !in appointments.Keys - remaining
        invariant forall t :: t in times <==> Some(t) in appointments.Keys - remaining && from < t < to
        invariant found <==> times != {}
        decreases remaining
      {
        var key :| key in remaining;
        if key.None? {
          return NullKey;
        }
        if from < key.value < to {
          times := times + {key.value};
          found := true;
        }
        remaining := remaining - {key};
      }
      report := Listed(times, found);
    }

    /** `displayTodaysAppointments`: the buckets of `now`'s day, strictly after its midnight. */
    method TodaysAppointments(now: DateTime) returns (report: Report)
      ensures report.NullKey? <==> None in appointments
      ensures report.Listed? ==> forall t :: t in report.times <==> Some(t) in appointments && InToday(t, now)
      ensures report.Listed? ==> (report.found <==> report.times != {})
    {
      report := AppointmentsBetween(StartOfDay(now), StartOfDay(now) + NanosPerDay);
    }

    /** `displayUpcomingAppointments`: the buckets strictly within the coming week. */
    method UpcomingAppointments(now: DateTime) returns (report: Report)
      ensures report.NullKey? <==> None in appointments
      ensures report.Listed? ==> forall t :: t in report.times <==> Some(t) in appointments && InUpcoming(t, now)
      ensures report.Listed? ==> (report.found <==> report.times != {})
    {
      report := AppointmentsBetween(now, now + NanosPerWeek);
    }

    /**
     * The breed histogram of `displayPetStatistics`: one count per breed
     * that occurs, equal to the number of pets of exactly that breed; the
     * counts add up to the number of pets.
     */
    method BreedCounts() returns (counts: map<string, nat>)
      ensures counts.Keys == BreedsOf(BreedTable(pets), pets.Keys)
      ensures forall b :: b in counts ==> counts[b] == |OfBreed(BreedTable(pets), pets.Keys, b)|
      ensures Total(counts) == |pets|
    {
      ghost var breeds := BreedTable(pets);
      counts := map[];
      var remaining := pets.Keys;
      ghost var done: set<PetId> := {};
      while remaining != {}
        invariant done <= pets.Keys && remaining == pets.Keys - done
        invariant Tallied(breeds, done, counts)
        decreases remaining
      {
        var id :| id in remaining;
        TallyStep(breeds, done, counts, id);
        counts := Merged(counts, pets[id].breed);
        done := done + {id};
        remaining := remaining - {id};
      }
      assert done == pets.Keys;
      TalliedTotal(breeds, done, counts);
    }

    /** `scanner.nextLine()`; `None` stands for the `NoSuchElementException` at end of input. */
    method ReadLine() returns (line: Option<string>)
      modifies this`input
      ensures old(input) == [] ==> line == None && input == []
      ensures old(input) != [] ==> line == Some(old(input)[0]) && input == old(input)[1..]
    {
      if input == [] {
        line := None;
      } else {
        line := Some(input[0]);
        input := input[1..];
      }
    }

    /**
     * `registerPet`: read name, breed and age, parse the age at once, then
     * read owner and contact, and only then build and file the pet. A bad
     * age or missing input files nothing.
     */
    method RegisterPet(id: PetId, today: Date) returns (outcome: Registration)
      requires Valid()
      modifies this`pets, this`input
      ensures Valid()
      ensures outcome.InvalidAge? <==> |old(input)| >= 3 && ParseInt(old(input)[2]).None?
      ensures outcome.Registered? <==> |old(input)| >= 5 && ParseInt(old(input)[2]).Some?
      ensures outcome.InvalidAge? ==> input == old(input)[3..]
      ensures outcome.Registered? ==> input == old(input)[5..]
      ensures outcome.RegistrationInputExhausted? ==> input == []
      ensures !outcome.Registered? ==> pets == old(pets)
      ensures outcome.Registered? ==>
                var pet := outcome.pet;
                fresh(pet) && pets == old(pets)[id := pet] &&
                pet.petId == id && pet.registrationDate == today && pet.appointments == [] &&
                pet.name == old(input)[0] && pet.breed == old(input)[1] &&
                Some(pet.age) == ParseInt(old(input)[2]) &&
                pet.ownerName == old(input)[3] && pet.contactInfo == old(input)[4]
      ensures outcome.Registered? && id !in old(pets) ==> |pets| == |old(pets)| + 1
      ensures |input| <= |old(input)| && input == old(input)[|old(input)| - |input|..]
    {
      var name := ReadLine();
      if name.None? { return RegistrationInputExhausted; }
      var breed := ReadLine();
      if breed.None? { return RegistrationInputExhausted; }
      var ageText := ReadLine();
      if ageText.None? { return RegistrationInputExhausted; }
      var age := ParseInt(ageText.value);
      if age.None? { return InvalidAge; }
      outcome := FileNewPet(id, today, name.value, breed.value, age.value);
    }

    /**
     * The rest of `registerPet` once the age was parsed: read owner and
     * contact, then build the pet and file it under `id`.
     */
    method FileNewPet(id: PetId, today: Date, name: string, breed: string, age: Int32) returns (outcome: Registration)
      requires Valid()
      modifies this`pets, this`input
      ensures Valid()
      ensures outcome.Registered? <==> |old(input)| >= 2
      ensures outcome.Registered? ==> input == old(input)[2..]
      ensures !outcome.Registered? ==> outcome.RegistrationInputExhausted? && input == [] && pets == old(pets)
      ensures outcome.Registered? ==>
                var pet := outcome.pet;
                fresh(pet) && pets == old(pets)[id := pet] &&
                |pets| == (if id in old(pets) then |old(pets)| else |old(pets)| + 1) &&
                pet.petId == id && pet.registrationDate == today && pet.appointments == [] &&
                pet.name == name && pet.breed == breed && pet.age == age &&
                pet.ownerName == old(input)[0] && pet.contactInfo == old(input)[1]
    {
      var ownerName := ReadLine();
      if ownerName.None? { return RegistrationInputExhausted; }
      var contactInfo := ReadLine();
      if contactInfo.None? { return RegistrationInputExhausted; }
      var pet := new Pet(name, breed, age, ownerName.value, contactInfo.value, id, today);
      AddPet(pet);
      outcome := Registered(pet);
    }

    /**
     * `scheduleAppointment`: read and parse the pet id and give up if no
     * pet is filed under it, before reading anything else; then read type,
     * date-time (parsed at once) and notes, and only then build the
     * appointment and add it to both collections.
     */
    method ScheduleAppointment(env: Environment) returns (outcome: ScheduleOutcome)
      requires Valid()
      modifies this`appointments, this`input, PetObjects()`appointments
      ensures Valid() && pets == old(pets)
      ensures outcome.InvalidPetId? <==> |old(input)| >= 1 && env.parseUuid(old(input)[0]).None?
      ensures outcome.PetNotFound? <==>
                |old(input)| >= 1 && env.parseUuid(old(input)[0]).Some? && env.parseUuid(old(input)[0]).value !in pets
      ensures outcome.InvalidPetId? || outcome.PetNotFound? ==> input == old(input)[1..]
      ensures outcome.InvalidDateTime? <==>
                |old(input)| >= 3 && env.parseUuid(old(input)[0]).Some? && env.parseUuid(old(input)[0]).value in pets &&
                env.parseDateTime(old(input)[2]).None?
      ensures outcome.Scheduled? <==>
                |old(input)| >= 4 && env.parseUuid(old(input)[0]).Some? && env.parseUuid(old(input)[0]).value in pets &&
                env.parseDateTime(old(input)[2]).Some?
      ensures outcome.InvalidDateTime? ==> |old(input)| >= 3 && input == old(input)[3..]
      ensures outcome.Scheduled? ==> |old(input)| >= 4 && input == old(input)[4..]
      ensures outcome.SchedulingInputExhausted? ==> input == []
      ensures |input| <= |old(input)| && input == old(input)[|old(input)| - |input|..]
      ensures !outcome.Scheduled? ==> appointments == old(appointments) && unchanged(PetObjects())
      ensures outcome.Scheduled? ==>
                var pet, a := outcome.pet, outcome.appointment;
                |old(input)| >= 4 && env.parseUuid(old(input)[0]) == Some(pet.petId) && pet.petId in pets &&
                pets[pet.petId] == pet && fresh(a) &&
                a.appointmentType == Some(old(input)[1]) &&
                a.dateTime.Some? && a.dateTime == env.parseDateTime(old(input)[2]) &&
                a.notes == Some(old(input)[3]) &&
                appointments == Appended(old(appointments), a.dateTime, a) &&
                pet.appointments == old(pet.appointments) + [a] &&
                pet.name == old(pet.name) && pet.breed == old(pet.breed) && pet.age == old(pet.age) &&
                pet.ownerName == old(pet.ownerName) && pet.contactInfo == old(pet.contactInfo) &&
                unchanged(PetObjects() - {pet})
    {
      var idText := ReadLine();
      if idText.None? { return SchedulingInputExhausted; }
      var id := env.parseUuid(idText.value);
      if id.None? { return InvalidPetId; }
      var pet := GetPet(id.value);
      if pet.None? { return PetNotFound; }
      outcome := ScheduleFor(pet.value, env);
    }

    /**
     * The rest of `scheduleAppointment` once the pet was found: read type,
     * date-time (parsed at once) and notes, and only then build the
     * appointment and add it to the bucket and to `pet`'s list.
     */
    method ScheduleFor(pet: Pet, env: Environment) returns (outcome: ScheduleOutcome)
      modifies this`appointments, this`input, pet`appointments
      ensures outcome.Scheduled? || outcome.InvalidDateTime? || outcome.SchedulingInputExhausted?
      ensures outcome.InvalidDateTime? <==> |old(input)| >= 2 && env.parseDateTime(old(input)[1]).None?
      ensures outcome.Scheduled? <==> |old(input)| >= 3 && env.parseDateTime(old(input)[1]).Some?
      ensures outcome.InvalidDateTime? ==> input == old(input)[2..]
      ensures outcome.Scheduled? ==> input == old(input)[3..]
      ensures outcome.SchedulingInputExhausted? ==> input == []
      ensures !outcome.Scheduled? ==> appointments == old(appointments) && unchanged(pet)
      ensures outcome.Scheduled? ==>
                var a := outcome.appointment;
                |old(input)| >= 3 && outcome.pet == pet && fresh(a) &&
                a.appointmentType == Some(old(input)[0]) &&
                a.dateTime.Some? && a.dateTime == env.parseDateTime(old(input)[1]) &&
                a.notes == Some(old(input)[2]) &&
                appointments == Appended(old(appointments), a.dateTime, a) &&
                pet.appointments == old(pet.appointments) + [a] &&
                pet.name == old(pet.name) && pet.breed == old(pet.breed) && pet.age == old(pet.age) &&
                pet.ownerName == old(pet.ownerName) && pet.contactInfo == old(pet.contactInfo)
    {
      var appointmentType := ReadLine();
      if appointmentType.None? { return SchedulingInputExhausted; }
      var dateTimeText := ReadLine();
      if dateTimeText.None? { return SchedulingInputExhausted; }
      var dateTime := env.parseDateTime(dateTimeText.value);
      if dateTime.None? { return InvalidDateTime; }
      var notes := ReadLine();
      if notes.None? { return SchedulingInputExhausted; }
      var a := NewAppointment(appointmentType.value, dateTime.value, notes.value);
      AddAppointment(a, pet);
      outcome := Scheduled(pet, a);
    }

    /**
     * `generateReports`: read the report number with `Integer.parseInt`
     * (so "01" and "+1" also choose report 1) and run that report. No
     * report changes the store.
     */
    method GenerateReports(now: DateTime) returns (run: ReportRun)
      modifies this`input
      ensures run.ReportInputExhausted? <==> old(input) == []
      ensures run.ReportInputExhausted? ==> input == []
      ensures !run.ReportInputExhausted? ==> input == old(input)[1..]
      ensures |input| <= |old(input)| && input == old(input)[|old(input)| - |input|..]
      ensures run.Today? <==> old(input) != [] && ParseInt(old(input)[0]) == Some(1)
      ensures run.Upcoming? <==> old(input) != [] && ParseInt(old(input)[0]) == Some(2)
      ensures run.Statistics? <==> old(input) != [] && ParseInt(old(input)[0]) == Some(3)
      ensures run.ReportChoiceNotANumber? <==> old(input) != [] && ParseInt(old(input)[0]).None?
      ensures run.InvalidReportChoice? <==>
                old(input) != [] && ParseInt(old(input)[0]).Some? && ParseInt(old(input)[0]).value !in {1, 2, 3}
      ensures run.InvalidReportChoice? ==> Some(run.choice) == ParseInt(old(input)[0])
      ensures run.Today? ==>
                (run.report.NullKey? <==> None in appointments) &&
                (run.report.Listed? ==>
                   (forall t :: t in run.report.times <==> Some(t) in appointments && InToday(t, now)) &&
                   (run.report.found <==> run.report.times != {}))
      ensures run.Upcoming? ==>
                (run.report.NullKey? <==> None in appointments) &&
                (run.report.Listed? ==>
                   (forall t :: t in run.report.times <==> Some(t) in appointments && InUpcoming(t, now)) &&
                   (run.report.found <==> run.report.times != {}))
      ensures run.Statistics? ==> run.petCount == |pets|
      ensures run.Statistics? ==> run.breeds.Keys == BreedsOf(BreedTable(pets), pets.Keys)
      ensures run.Statistics? ==>
                forall b :: b in run.breeds ==> run.breeds[b] == |OfBreed(BreedTable(pets), pets.Keys, b)|
      ensures run.Statistics? ==> Total(run.breeds) == |pets|
    {
      var line := ReadLine();
      if line.None? { return ReportInputExhausted; }
      var choice := ParseInt(line.value);
      if choice.None? { return ReportChoiceNotANumber; }
      match choice.value {
        case 1 =>
          var report := TodaysAppointments(now);
          run := Today(report);
        case 2 =>
          var report := UpcomingAppointments(now);
          run := Upcoming(report);
        case 3 =>
          var breeds := BreedCounts();
          run := Statistics(|pets|, breeds);
        case _ =>
          run := InvalidReportChoice(choice.value);
      }
    }

    /**
     * One pass of the `switch` in `main`, which matches the line exactly.
     * "6" is the only choice that stops the loop. Only "1", "2" and "4"
     * read further input or touch the store, so any string other than "1"
     * to "6" changes nothing at all and keeps the loop running.
     * `id` is the identifier a new pet would receive; `registered` says
     * whether it was used.
     */
    method Dispatch(choice: string, env: Environment, id: PetId) returns (running: bool, registered: bool)
      requires Valid()
      modifies this`pets, this`appointments, this`input, PetObjects()`appointments
      ensures Valid()
      ensures running <==> choice != "6"
      ensures choice !in {"1", "2", "4"} ==>
                pets == old(pets) && appointments == old(appointments) && input == old(input) &&
                unchanged(old(PetObjects()))
      ensures choice == "4" ==> pets == old(pets) && appointments == old(appointments) && unchanged(old(PetObjects()))
      ensures registered ==> choice == "1" && pets.Keys == old(pets).Keys + {id} && fresh(pets[id])
      ensures !registered ==> pets == old(pets)
      ensures forall k :: k in old(pets) && k != id ==> k in pets && pets[k] == old(pets)[k]
      ensures forall k :: k in old(appointments) ==> k in appointments && old(appointments)[k] <= appointments[k]
      ensures forall p :: p in old(PetObjects()) ==>
                old(p.appointments) <= p.appointments &&
                p.name == old(p.name) && p.breed == old(p.breed) && p.age == old(p.age) &&
                p.ownerName == old(p.ownerName) && p.contactInfo == old(p.contactInfo)
      ensures |input| <= |old(input)| && input == old(input)[|old(input)| - |input|..]
    {
      running, registered := true, false;
      match choice {
        case "1" =>
          var outcome := RegisterPet(id, env.today);
          registered := outcome.Registered?;
        case "2" =>
          var _ := ScheduleAppointment(env);
        case "3" =>
          // displayRecords only prints.
        case "4" =>
          var _ := GenerateReports(env.now);
        case "5" =>
          // saveData writes the tables out; the store is unchanged.
        case "6" =>
          running := false;
        case _ =>
          // "Invalid choice!"
      }
    }

    /**
     * Read the menu line and dispatch it. `id` is the identifier a new pet
     * would receive; `registered` says whether it was used.
     */
    method ReadAndDispatch(env: Environment, id: PetId) returns (choice: string, running: bool, registered: bool)
      requires Valid() && input != [] && id !in pets
      modifies this`pets, this`appointments, this`input, PetObjects()`appointments
      ensures Valid()
      ensures choice == old(input)[0]
      ensures running <==> choice != "6"
      ensures choice == "6" ==> input == old(input)[1..]
      ensures |input| < |old(input)| && input == old(input)[|old(input)| - |input|..]
      ensures registered ==> choice == "1" && pets.Keys == old(pets).Keys + {id} && fresh(pets[id])
      ensures !registered ==> pets == old(pets)
      ensures forall k :: k in old(pets) ==> k in pets && pets[k] == old(pets)[k]
      ensures forall p :: p in PetObjects() ==> p in old(PetObjects()) || fresh(p)
      ensures old(PetObjects()) <= PetObjects()
      ensures forall k :: k in old(appointments) ==> k in appointments && old(appointments)[k] <= appointments[k]
      ensures forall p :: p in old(PetObjects()) ==>
                old(p.appointments) <= p.appointments &&
                p.name == old(p.name) && p.breed == old(p.breed) && p.age == old(p.age) &&
                p.ownerName == old(p.ownerName) && p.contactInfo == old(p.contactInfo)
    {
      var line := ReadLine();
      choice := line.value;
      ghost var mid := input;
      running, registered := Dispatch(choice, env, id);
      SuffixOfSuffix(old(input), mid, input);
    }

    /**
     * One turn of `main`'s loop: read the menu line and dispatch it. A pet
     * registered in this turn receives the identifier numbered `generated`,
     * and `nextGenerated` counts it. `lines`, `choices` and `at` are the
     * loop's record of its input (see `MenuProgress`), brought up to date in
     * `nextChoices` and `nextAt`.
     */
    method MenuStep(env: Environment, generated: nat, ghost lines: seq<string>, ghost choices: seq<string>,
                    ghost at: seq<nat>)
      returns (choice: string, running: bool, nextGenerated: nat, ghost nextChoices: seq<string>,
               ghost nextAt: seq<nat>)
      requires Valid() && input != []
      requires MenuProgress(lines, input, choices, at, true)
      requires forall m: nat, n: nat :: m < n < |lines| ==> env.uuid(m) != env.uuid(n)
      requires IdsUnused(env.uuid, generated, |lines|, |lines| - |input|, pets.Keys)
      modifies this`pets, this`appointments, this`input, PetObjects()`appointments
      ensures Valid()
      ensures choice == old(input)[0] && nextChoices == choices + [choice]
      ensures running <==> choice != "6"
      ensures choice == "6" ==> input == old(input)[1..]
      ensures |input| < |old(input)| && input == old(input)[|old(input)| - |input|..]
      ensures MenuProgress(lines, input, nextChoices, nextAt, running)
      ensures IdsUnused(env.uuid, nextGenerated, |lines|, |lines| - |input|, pets.Keys)
      ensures nextGenerated == generated ==> pets == old(pets)
      ensures nextGenerated != generated ==>
                nextGenerated == generated + 1 && choice == "1" &&
                pets.Keys == old(pets).Keys + {env.uuid(generated)} && fresh(pets[env.uuid(generated)])
      ensures forall k :: k in old(pets) ==> k in pets && pets[k] == old(pets)[k]
      ensures forall p :: p in PetObjects() ==> p in old(PetObjects()) || fresh(p)
      ensures old(PetObjects()) <= PetObjects()
      ensures forall k :: k in old(appointments) ==> k in appointments && old(appointments)[k] <= appointments[k]
      ensures forall p :: p in old(PetObjects()) ==>
                old(p.appointments) <= p.appointments &&
                p.name == old(p.name) && p.breed == old(p.breed) && p.age == old(p.age) &&
                p.ownerName == old(p.ownerName) && p.contactInfo == old(p.contactInfo)
    {
      var registered;
      choice, running, registered := ReadAndDispatch(env, env.uuid(generated));
      MenuProgressStep(lines, old(input), choices, at, choice, running, input);
      IdsUnusedStep(env.uuid, generated, |lines|, |lines| - |old(input)|, |lines| - |input|,
                    old(pets).Keys, pets.Keys, registered);
      nextChoices, nextAt := choices + [choice], at + [|lines| - |old(input)|];
      nextGenerated := if registered then generated + 1 else generated;
    }

    /**
     * The `while (running)` loop of `main`: read a choice, dispatch it, and
     * repeat until "6" is chosen. `choices` records the menu lines read, in
     * order, and `at` where each stood in the input. The loop stops at the
     * first "6" and at no other choice; when the input runs out first, it
     * stops there too (Java would keep catching `NoSuchElementException`).
     * Nothing ever filed is lost: pets keep their identifiers, buckets and
     * pets' lists only grow.
     */
    method RunMenu(env: Environment) returns (stopped: bool, ghost choices: seq<string>, ghost at: seq<nat>)
      requires Valid()
      requires forall n: nat :: n < |input| ==> env.uuid(n) !in pets
      requires forall m: nat, n: nat :: m < n < |input| ==> env.uuid(m) != env.uuid(n)
      modifies this`pets, this`appointments, this`input, PetObjects()`appointments
      ensures Valid()
      ensures |input| <= |old(input)| && input == old(input)[|old(input)| - |input|..]
      ensures ReadInOrder(old(input), |old(input)| - |input|, choices, at)
      ensures choices == [] <==> old(input) == []
      ensures stopped <==> "6" in choices
      ensures stopped ==> choices[|choices| - 1] == "6" && "6" !in choices[..|choices| - 1]
      ensures !stopped ==> input == []
      ensures old(input) != [] && old(input)[0] == "6" ==> stopped && choices == ["6"] && input == old(input)[1..]
      ensures forall k :: k in old(pets) ==> k in pets && pets[k] == old(pets)[k]
      ensures forall k :: k in old(appointments) ==> k in appointments && old(appointments)[k] <= appointments[k]
      ensures forall p :: p in old(PetObjects()) ==>
                old(p.appointments) <= p.appointments &&
                p.name == old(p.name) && p.breed == old(p.breed) && p.age == old(p.age) &&
                p.ownerName == old(p.ownerName) && p.contactInfo == old(p.contactInfo)
    {
      var running := true;
      var generated: nat := 0;
      choices, at := [], [];
      while running && input != []
        invariant Valid()
        invariant MenuProgress(old(input), input, choices, at, running)
        invariant IdsUnused(env.uuid, generated, |old(input)|, |old(input)| - |input|, pets.Keys)
        invariant forall p :: p in PetObjects() ==> p in old(PetObjects()) || fresh(p)
        invariant old(PetObjects()) <= PetObjects()
        invariant forall k :: k in old(pets) ==> k in pets && pets[k] == old(pets)[k]
        invariant forall k :: k in old(appointments) ==> k in appointments && old(appointments)[k] <= appointments[k]
        invariant forall p :: p in old(PetObjects()) ==> old(p.appointments) <= p.appointments
        decreases |input|
      {
        var choice;
        choice, running, generated, choices, at := MenuStep(env, generated, old(input), choices, at);
      }
      stopped := !running;
    }
  }
}
