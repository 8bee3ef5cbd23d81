/**
 * `Pet`: a mutable record whose identifier and registration date are fixed
 * at construction (`const` here, since the class has no setter for them),
 * with one setter per other field and an owned, ordered appointment list
 * that is appended to and has first occurrences removed in place.
 */
module Pets {
  import opened Common
  import opened Numerals
  import opened Appointments

  /** A `java.util.UUID`: two 64-bit halves. */
  datatype PetId = PetId(mostSigBits: bv64, leastSigBits: bv64)

  /** The index of the first occurrence of `a` in `s` (`List.indexOf`, by reference). */
  function FirstIndex(s: seq<Appointment>, a: Appointment): (i: nat)
    requires a in s
    ensures i < |s| && s[i] == a
    ensures a !in s[..i]
  {
    if s[0] == a then 0 else 1 + FirstIndex(s[1..], a)
  }

  /**
   * `List.remove(Object)`: drop the first occurrence of `a`, if there is
   * one; an absent `a` leaves the list as it was.
   */
  function RemoveFirst(s: seq<Appointment>, a: Appointment): (r: seq<Appointment>)
    ensures a !in s ==> r == s
    ensures |r| == if a in s then |s| - 1 else |s|
    ensures forall b :: b in r ==> b in s
  {
    if a in s then s[..FirstIndex(s, a)] + s[FirstIndex(s, a) + 1..] else s
  }

  /** Removing an appointment that is present shortens the list by one and takes away exactly one occurrence. */
  lemma RemoveFirstPresent(s: seq<Appointment>, a: Appointment)
    requires a in s
    ensures |RemoveFirst(s, a)| == |s| - 1
    ensures multiset(RemoveFirst(s, a)) == multiset(s) - multiset{a}
  {
    var i := FirstIndex(s, a);
    assert s == s[..i] + [a] + s[i + 1..];
  }

  /** Other appointments keep their relative order: everything before the removed one stays put, the rest shift left by one. */
  lemma RemoveFirstKeepsOrder(s: seq<Appointment>, a: Appointment, k: nat)
    requires a in s && k < |s| - 1
    ensures var i := FirstIndex(s, a);
            RemoveFirst(s, a)[k] == if k < i then s[k] else s[k + 1]
  {
  }

  class Pet {
    const petId: PetId
    var name: string
    var breed: string
    var age: Int32
    var ownerName: string
    var contactInfo: string
    const registrationDate: Date
    var appointments: seq<Appointment>

    /**
     * `new Pet(name, breed, age, ownerName, contactInfo)`; `id` is the value
     * `UUID.randomUUID()` returned and `today` the value of `LocalDate.now()`.
     */
    constructor (name: string, breed: string, age: Int32, ownerName: string, contactInfo: string,
                 id: PetId, today: Date)
      ensures petId == id && registrationDate == today
      ensures this.name == name && this.breed == breed && this.age == age
      ensures this.ownerName == ownerName && this.contactInfo == contactInfo
      ensures appointments == []
    {
      petId := id;
      this.name := name;
      this.breed := breed;
      this.age := age;
      this.ownerName := ownerName;
      this.contactInfo := contactInfo;
      registrationDate := today;
      appointments := [];
    }

    /** `getAppointments`: a new list with the same appointments in the same order. */
    method GetAppointments() returns (copy: array<Appointment>)
      ensures fresh(copy)
      ensures copy[..] == appointments
    {
      var s := appointments;
      copy := new Appointment[|s|](i requires 0 <= i < |s| => s[i]);
    }

    method SetName(name: string)
      modifies this
      ensures this.name == name
      ensures breed == old(breed) && age == old(age) && ownerName == old(ownerName)
      ensures contactInfo == old(contactInfo) && appointments == old(appointments)
    {
      this.name := name;
    }

    method SetBreed(breed: string)
      modifies this
      ensures this.breed == breed
      ensures name == old(name) && age == old(age) && ownerName == old(ownerName)
      ensures contactInfo == old(contactInfo) && appointments == old(appointments)
    {
      this.breed := breed;
    }

    method SetAge(age: Int32)
      modifies this
      ensures this.age == age
      ensures name == old(name) && breed == old(breed) && ownerName == old(ownerName)
      ensures contactInfo == old(contactInfo) && appointments == old(appointments)
    {
      this.age := age;
    }

    method SetOwnerName(ownerName: string)
      modifies this
      ensures this.ownerName == ownerName
      ensures name == old(name) && breed == old(breed) && age == old(age)
      ensures contactInfo == old(contactInfo) && appointments == old(appointments)
    {
      this.ownerName := ownerName;
    }

    method SetContactInfo(contactInfo: string)
      modifies this
      ensures this.contactInfo == contactInfo
      ensures name == old(name) && breed == old(breed) && age == old(age)
      ensures ownerName == old(ownerName) && appointments == old(appointments)
    {
      this.contactInfo := contactInfo;
    }

    /** Appends `a`; every other field is untouched. */
    method AddAppointment(a: Appointment)
      modifies this`appointments
      ensures appointments == old(appointments) + [a]
      ensures name == old(name) && breed == old(breed) && age == old(age)
      ensures ownerName == old(ownerName) && contactInfo == old(contactInfo)
    {
      appointments := appointments + [a];
    }

    /** Removes the first occurrence of `a` (by reference), or nothing if `a` is absent. */
    method RemoveAppointment(a: Appointment)
      modifies this`appointments
      ensures appointments == RemoveFirst(old(appointments), a)
      ensures name == old(name) && breed == old(breed) && age == old(age)
      ensures ownerName == old(ownerName) && contactInfo == old(contactInfo)
    {
      appointments := RemoveFirst(appointments, a);
    }

    /**
     * `toString`, with `idText` and `dateText` standing for the `UUID` and
     * `LocalDate` renderings. It ends with the number of appointments the
     * pet holds, written so that `Integer.parseInt` reads it back.
     */
    function ToString(idText: PetId -> string, dateText: Date -> string): (r: string)
      reads this
      ensures StartsWith(r, "Pet{id=" + idText(petId) + ", name='")
      ensures EndsWith(r, ", appointments=" + IntText(|appointments|) + "}")
    {
      var head := "Pet{id=" + idText(petId) + ", name='";
      var middle := name + "', breed='" + breed + "', age=" + IntText(age) + ", owner='" + ownerName
                    + "', contact='" + contactInfo + "', registered=" + dateText(registrationDate);
      var tail := ", appointments=" + IntText(|appointments|) + "}";
      PartsOfConcat(head, middle, tail);
      head + middle + tail
    }
  }

  /** A text that ends with `", appointments=" + count + "}"` ends with `"=" + count + "}"`. */
  lemma CountBeforeBrace(r: string, count: string)
    requires EndsWith(r, ", appointments=" + count + "}")
    ensures EndsWith(r, "=" + count + "}")
  {
    var long, short := ", appointments=" + count + "}", "=" + count + "}";
    assert long == ", appointments" + short;
    assert r[|r| - |short|..] == long[|long| - |short|..];
  }

  /** A `%d` text holds no '='. */
  lemma NoEqualsInIntText(n: int)
    ensures '=' !in IntText(n)
  {
    var t := IntText(n);
    if n < 0 {
      assert t == [t[0]] + t[1..];
      assert forall i :: 0 <= i < |t[1..]| ==> IsDigit(t[1..][i]);
    }
  }

  /**
   * `toString` ends with '=', the appointment count and '}'. The count holds
   * no '=', so it is exactly the text between the last '=' and the closing
   * '}', and it parses back to the size of the pet's list.
   */
  lemma ReportedCountReadsBack(p: Pet, idText: PetId -> string, dateText: Date -> string)
    requires |p.appointments| <= MaxInt32
    ensures var count := IntText(|p.appointments|);
            EndsWith(p.ToString(idText, dateText), "=" + count + "}") &&
            '=' !in count && ParseInt(count) == Some(|p.appointments|)
  {
    CountBeforeBrace(p.ToString(idText, dateText), IntText(|p.appointments|));
    NoEqualsInIntText(|p.appointments|);
    ParseIntText(|p.appointments|);
  }
}
