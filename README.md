# PetCare Scheduler: a verified model of the record store

This project models the core of the PetCare Scheduler, a console program for
registering pets and booking their appointments. The core is the in-memory
record store `PetCareScheduler` and the two entity classes it holds.

- The store keeps two tables:
  - `pets`: pet identifier → `Pet`;
  - `appointments`: date-time → list of `Appointment` ("buckets").
- Scheduling appends the same `Appointment` object both to its date-time
  bucket and to the owning pet's own list.
- Two reports select buckets by open date-time windows: "today" and "the next
  7 days". A third report counts pets per breed.
- `main` is a two-state loop (running / stopped) that dispatches on the exact
  menu line read.

Files and modules:

- `common.dfy` (`Common`): Java `null` as `Option`, the 32-bit `int` range, and
  clock values. A `LocalDateTime` is nanoseconds since 1970-01-01T00:00 on the
  zone-free local clock. A `LocalDate` is days since that date.
- `numerals.dfy` (`Numerals`): `Integer.parseInt`, which the shell applies to
  the pet's age and to the report number, and the `%d` rendering.
- `appointment.dfy` (`Appointments`): the `Appointment` bean as a class.
- `pet.dfy` (`Pets`): the `Pet` record as a class. Its identifier and
  registration date are `const`, so no method can change them. Its list of
  appointments is a field that methods reassign.
- `tally.dfy` (`Tally`): `Map.merge(key, 1, Integer::sum)` and the sum of a
  histogram's counts.
- `scheduler.dfy` (`Scheduling`): the store as a class, with:
  - its operations and its invariant: every pet is filed under its own
    identifier;
  - the report windows and the breed histogram;
  - the console actions and the `main` loop.

The `Scanner` is modelled as the list of lines it has yet to deliver, a field
of the store. Running past its end stands for `NoSuchElementException`.
Everything else the program takes from outside is passed in as an
`Environment`:

- the values of `UUID.randomUUID()`;
- the clock (`LocalDate.now()`, `LocalDateTime.now()`);
- `UUID.fromString`;
- `LocalDateTime.parse` with `yyyy-MM-dd HH:mm`.

The formatting of a UUID, a date and a date-time in the two `toString`
methods is passed as function parameters.

Time is counted in nanoseconds rather than minutes because
`LocalDateTime.now()` carries seconds and fractions of a second. In minutes,
an appointment at `now`'s minute exactly one week later would be wrongly left
out of "upcoming". `StartOfDay(t) = t - t % day` uses Dafny's Euclidean `%`,
which rounds toward minus infinity like `toLocalDate()`, also before 1970.

The pet's list and the date-time bucket hold the same `Appointment` object
(src/PetCareScheduler.java:177-183), and the model shares the reference.

## Model

| member | source | states |
|---|---|---|
| `Numerals.ParseInt` | src/PetCareScheduler.java:116 | `Integer.parseInt` succeeds iff the text is an optional sign followed by one or more digits, with a value in the `int` range. Leading zeros and a '+' are accepted. The result is the signed value of those digits. |
| `Numerals.ParseIntSamples` | src/PetCareScheduler.java:219 | "01" and "+3" parse, so "01" chooses report 1. "-0" parses to 0. An empty text, a lone '-' and "1a" are rejected. |
| `Numerals.IntText` | src/Pet.java:88-92 | `%d` writes a '-' exactly for negative numbers, followed by digits whose value is the magnitude. |
| `Numerals.NatTextReadsBack` | src/Pet.java:88-92 | The `%d` text of a natural number is a non-empty string of digits that reads back as that number. |
| `Numerals.ParseIntText` | src/Pet.java:88-92 | Every Java `int` printed with `%d` parses back to itself with `Integer.parseInt`. |
| `Appointments.Appointment.constructor` | src/Appointment.java:4-7 | The implicit constructor leaves type, date-time and notes all `null`. |
| `Appointments.Appointment.SetAppointmentType` | src/Appointment.java:21-23 | Sets the type and leaves date-time and notes unchanged. |
| `Appointments.Appointment.SetDateTime` | src/Appointment.java:25-27 | Sets the date-time and leaves type and notes unchanged. |
| `Appointments.Appointment.SetNotes` | src/Appointment.java:29-31 | Sets the notes and leaves type and date-time unchanged. |
| `Appointments.Appointment.ToString` | src/Appointment.java:33-43 | The type is shown verbatim, or "Not specified" when `null`. The date-time is formatted, or "Not scheduled" when `null`. The notes are shown verbatim, or "No notes" when `null` or empty. |
| `Appointments.MissingNotesIndistinguishable` | src/Appointment.java:37 | `null` notes, empty notes and the literal notes "No notes" print alike, so the notes cannot be read back from `toString`. |
| `Pets.FirstIndex` | src/Pet.java:83-85 | The index found holds `a`, by reference, and no earlier index does. |
| `Pets.RemoveFirstPresent` | src/Pet.java:83-85 | Removing a present appointment shortens the list by one and removes exactly one occurrence (multiset difference). |
| `Pets.RemoveFirst` | src/Pet.java:84 | `List.remove(Object)` leaves a list without `a` unchanged. It shortens a list holding `a` by one and adds no element. |
| `Pets.RemoveFirstKeepsOrder` | src/Pet.java:83-85 | Entries before the first occurrence stay in place. Entries after it shift left by one. |
| `Pets.Pet.constructor` | src/Pet.java:16-25 | The new pet has the given id and today's date, fields equal to the arguments, and no appointments. |
| `Pets.Pet.GetAppointments` | src/Pet.java:55-57 | Returns a fresh list with the pet's appointments in order. Changing that list cannot change the pet. |
| `Pets.Pet.SetName` | src/Pet.java:59-61 | Sets the name. Every other field is unchanged. Id and registration date are `const`. |
| `Pets.Pet.SetBreed` | src/Pet.java:63-65 | Sets the breed. Every other field is unchanged. |
| `Pets.Pet.SetAge` | src/Pet.java:67-69 | Sets the age. Every other field is unchanged. |
| `Pets.Pet.SetOwnerName` | src/Pet.java:71-73 | Sets the owner name. Every other field is unchanged. |
| `Pets.Pet.SetContactInfo` | src/Pet.java:75-77 | Sets the contact info. Every other field is unchanged. |
| `Pets.Pet.AddAppointment` | src/Pet.java:79-81 | The list becomes the old list plus `a` at the end. The other fields are unchanged. |
| `Pets.Pet.RemoveAppointment` | src/Pet.java:83-85 | The list loses the first occurrence of `a`, if any, by reference. The other fields are unchanged. |
| `Pets.Pet.ToString` | src/Pet.java:87-93 | The text starts with the pet's id and ends with the number of appointments the pet holds. |
| `Pets.ReportedCountReadsBack` | src/Pet.java:87-93 | `toString` ends with '=', the appointment count and '}'. The count holds no '=', so it is the text between the last '=' and the final '}'. It parses back to the size of the pet's list. |
| `Tally.Merged` | src/PetCareScheduler.java:286 | `merge(b, 1, Integer::sum)` starts an absent breed at 1 or adds 1 to a present one. Other breeds are unchanged. |
| `Tally.TotalWithout` | src/PetCareScheduler.java:284-287 | A histogram's total does not depend on the order its keys are summed. |
| `Scheduling.Appended` | src/PetCareScheduler.java:179-180 | `computeIfAbsent(...).add(a)`: the bucket for the key ends with `a`. It grows by one, or is new with exactly `[a]`. Every other bucket is unchanged. |
| `Scheduling.StartOfDay` | src/PetCareScheduler.java:240 | `toLocalDate().atStartOfDay()` is a midnight no later than `now`, and less than a day before it. |
| `Scheduling.InToday` | src/PetCareScheduler.java:240-246 | The "today" test holds iff the instant shares `now`'s midnight and is not that midnight itself. |
| `Scheduling.InUpcoming` | src/PetCareScheduler.java:261-266 | An instant that passes the "upcoming" test falls on today or on one of the next seven calendar days. |
| `Scheduling.TodayIsSameDayAfterMidnight` | src/PetCareScheduler.java:240-246 | An instant is in "today" iff it falls on `now`'s calendar day and is not exactly that day's midnight. |
| `Scheduling.WindowsAreOpen` | src/PetCareScheduler.java:238-266 | Both windows exclude both bounds: midnight today and midnight tomorrow, `now` and `now` plus one week. |
| `Scheduling.TalliedTotal` | src/PetCareScheduler.java:281-287 | A histogram whose count per breed is the size of that breed's group sums to the number of pets. |
| `Scheduling.TallyStep` | src/PetCareScheduler.java:285-287 | Merging one more pet's breed yields the histogram of one more pet. |
| `Scheduling.Scheduler.constructor` | src/PetCareScheduler.java:22-26 | Both tables start empty. |
| `Scheduling.Scheduler.AddPet` | src/PetCareScheduler.java:134-136 | `pets` becomes the old map with the pet filed under its id. A pet already there is replaced, and every other entry is unchanged. The count grows by one iff the id was new. |
| `Scheduling.Scheduler.GetPet` | src/PetCareScheduler.java:185-187 | Finds a pet iff one is filed under the id. The pet found has that id. |
| `Scheduling.Scheduler.AddAppointment` | src/PetCareScheduler.java:177-183 | The bucket table becomes `Appended(old, a.dateTime, a)`. The pet's list becomes the old list plus `a`. Nothing else about the pet changes. |
| `Scheduling.Scheduler.GetAllPets` | src/PetCareScheduler.java:207-209 | Returns exactly the filed pets: `pets.size()` entries, each pet once, no duplicates. |
| `Scheduling.Scheduler.AppointmentsBetween` | src/PetCareScheduler.java:244-254 | Lists exactly the bucket times strictly between the bounds. `found` is set iff something is listed. A `null` bucket key aborts the report, as `isAfter` on `null` throws. |
| `Scheduling.Scheduler.TodaysAppointments` | src/PetCareScheduler.java:238-257 | Lists exactly the bucket times `t` with `startOfDay < t < startOfDay + 1 day`. |
| `Scheduling.Scheduler.UpcomingAppointments` | src/PetCareScheduler.java:259-277 | Lists exactly the bucket times `t` with `now < t < now + 7 days`. |
| `Scheduling.Scheduler.BreedCounts` | src/PetCareScheduler.java:279-293 | Gives one key per breed present. Each count is the number of pets of exactly that breed. The counts sum to `pets.size()`. |
| `Scheduling.Scheduler.ReadLine` | src/PetCareScheduler.java:39 | `scanner.nextLine()`, here and in every other call such as line 110, yields the next unread line and consumes it. At end of input it fails and consumes nothing. |
| `Scheduling.Scheduler.RegisterPet` | src/PetCareScheduler.java:106-132 | The age is parsed right after the third line. A bad age or missing input files no pet. Success files a fresh pet built from the five lines under the new id, and adds one pet when the id is new. |
| `Scheduling.Scheduler.FileNewPet` | src/PetCareScheduler.java:120-127 | With two more lines, a fresh pet with the given name, breed and age, owner and contact from those lines, an empty list and today's date is filed under `id`. The count grows by one iff `id` was new. Without them nothing is filed and the input is used up. |
| `Appointments.NewAppointment` | src/PetCareScheduler.java:160-163 | The appointment built by the default constructor and the three setters is new and holds exactly the given type, date-time and notes. |
| `Scheduling.Scheduler.ScheduleAppointment` | src/PetCareScheduler.java:138-174 | Each outcome holds iff its input conditions hold. A bad or unknown pet id stops after one line, with nothing changed. A filed id with an unparseable date-time stops after three lines, with nothing changed. A filed id, a parseable date-time and four lines schedule the appointment. It is added to its bucket and to the end of that pet's list, and no other pet changes. |
| `Scheduling.Scheduler.ScheduleFor` | src/PetCareScheduler.java:149-165 | With a parseable date-time on the second line and three lines in all, a fresh appointment with that type, date-time and notes is appended to its bucket and to the end of `pet`'s list; `pet`'s other fields are unchanged. A bad date-time stops after two lines and missing input stops at the end, both with nothing changed. |
| `Scheduling.Scheduler.GenerateReports` | src/PetCareScheduler.java:211-236 | The report number goes through `parseInt`: 1, 2 and 3 choose today, upcoming and statistics. Any other number is an invalid choice, and text that is not a number is reported as such. Each report has the contents its own method promises: the bucket times in the window, or one count per breed equal to that breed's number of pets. No report changes the store. |
| `Scheduling.Scheduler.Dispatch` | src/PetCareScheduler.java:41-62 | Only "6" stops the loop. Any string except "1", "2" and "4" changes nothing, and "4" changes neither the tables nor any pet. Every filed pet except one under the new pet's id stays filed. A registration may replace that one. Buckets and pets' lists are never lost or shortened, and no pet's name, breed, age, owner or contact changes. Input is only consumed from the front. |
| `Scheduling.Scheduler.ReadAndDispatch` | src/PetCareScheduler.java:36-62 | The next line is the choice, and it is dispatched. Given an unused new id, every filed pet stays filed, only new pets are added, buckets and lists only grow, and no pet's details change. |
| `Scheduling.Scheduler.MenuStep` | src/PetCareScheduler.java:36-62 | One turn of the loop keeps its record of the input in order (`MenuProgress`) and its identifier bookkeeping (`IdsUnused`). A pet registered in the turn gets the next drawn identifier, and the count of drawn ones grows by one exactly then. The store facts of `ReadAndDispatch` carry over. |
| `Scheduling.IdsUnusedStep` | src/Pet.java:17 | When the first identifiers drawn are pairwise distinct, filing the next one leaves all later ones unused, and each turn draws at most one per line read. |
| `Scheduling.Scheduler.RunMenu` | src/PetCareScheduler.java:31-73 | The choices are lines of the input, read in order from its first line. The loop stops iff a "6" was read, and that "6" is the last choice. Otherwise the input is used up. A first line "6" stops it after that line alone. No pet, bucket entry or pet's appointment is lost across the session, and no pet's name, breed, age, owner or contact changes. |

## Left out

- `loadData` and `saveData` (src/PetCareScheduler.java:76-93, 295-310): Java object-stream files, an opaque library format. Choice "5" leaves the store unchanged, and the final save after the loop is not modelled. The store starts empty.
- Printing: the menu, `displayRecords`, and the lines the reports and statistics print. Choice "3" only prints, so it changes nothing. The reports return what they would print: the selected bucket times, or the breed histogram.
- `UUID.randomUUID`, `UUID.fromString`, `LocalDate.now`, `LocalDateTime.now`, and the `DateTimeFormatter` parse and format. These are `Environment` fields or function parameters. The clock is read once per session rather than once per report.
- `HashMap` iteration order: reports are stated as sets, and `GetAllPets` promises no order.
- `Numerals.ParseInt`: accepts only the ASCII digits '0'-'9'. `Character.digit` also accepts other Unicode decimal digits.
- `Scheduling.Scheduler.RunMenu`: requires that the identifiers one session can draw are pairwise distinct and not already filed. A session draws at most one per input line, so this is about the first `|input|` of them. The code does not check it: it relies on random 128-bit UUIDs not colliding.
- `Scheduling.Scheduler.RunMenu`: stops when the input runs out. Java's `main` instead catches the `NoSuchElementException` and repeats the loop forever.
- `Pets.Pet.ToString`: states only the leading id and the trailing appointment count. The middle fields are rendered by the body but not stated.
- `Pets.Pet.GetAppointments`: returns a fixed-size array where Java returns a growable `ArrayList`. The copy is fresh, and its contents and order match.
- Pet string fields are never `null` in the model, because the only caller passes lines read from input. Java would print `null` for them.
- Getters are plain field reads in the model.
- The commented-out `removePet`, `removeAppointment`, `getAppointmentsForDate` and `getAllAppointments` (src/PetCareScheduler.java:314-339): not active code.
