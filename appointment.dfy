/**
 * `Appointment`: a mutable bean with three nullable fields, no explicit
 * constructor, one setter per field and a `toString` with placeholders.
 * Two appointments are the same only if they are the same object: the class
 * does not override `equals`, and Dafny's `==` on class references is
 * reference equality too.
 */
module Appointments {
  import opened Common

  const NoType := "Not specified"
  const NoDateTime := "Not scheduled"
  const NoNotes := "No notes"

  class Appointment {
    var appointmentType: Option<string>
    var dateTime: Option<DateTime>
    var notes: Option<string>

    /** The implicit default constructor leaves every field `null`. */
    constructor ()
      ensures appointmentType == None && dateTime == None && notes == None
    {
      appointmentType, dateTime, notes := None, None, None;
    }

    method SetAppointmentType(t: Option<string>)
      modifies this
      ensures appointmentType == t
      ensures dateTime == old(dateTime) && notes == old(notes)
    {
      appointmentType := t;
    }

    method SetDateTime(t: Option<DateTime>)
      modifies this
      ensures dateTime == t
      ensures appointmentType == old(appointmentType) && notes == old(notes)
    {
      dateTime := t;
    }

    method SetNotes(n: Option<string>)
      modifies this
      ensures notes == n
      ensures appointmentType == old(appointmentType) && dateTime == old(dateTime)
    {
      notes := n;
    }

    /**
     * `toString`, with `format` standing for the `yyyy-MM-dd HH:mm`
     * formatter. Each field is shown verbatim when present and by its
     * placeholder otherwise; empty notes count as missing.
     */
    function ToString(format: DateTime -> string): (r: string)
      reads this
      ensures appointmentType.None? ==> StartsWith(r, "Appointment{type='" + NoType + "', datetime=")
      ensures appointmentType.Some? ==> StartsWith(r, "Appointment{type='" + appointmentType.value + "', datetime=")
      ensures notes.None? || notes == Some("") ==> EndsWith(r, ", notes='" + NoNotes + "'}")
      ensures notes.Some? && notes.value != "" ==> EndsWith(r, ", notes='" + notes.value + "'}")
      ensures var shown := if dateTime.Some? then format(dateTime.value) else NoDateTime;
              var start := |"Appointment{type='"| + |TypeText()| + |"', datetime="|;
              start + |shown| <= |r| && r[start..start + |shown|] == shown
    {
      var head := "Appointment{type='" + TypeText() + "', datetime=";
      var tail := ", notes='" + NotesText() + "'}";
      PartsOfConcat(head, DateTimeText(format), tail);
      PartsOfConcat("Appointment{type='", TypeText(), "', datetime=");
      PartsOfConcat(", notes='", NotesText(), "'}");
      head + DateTimeText(format) + tail
    }

    function TypeText(): string
      reads this
    {
      if appointmentType.Some? then appointmentType.value else NoType
    }

    function DateTimeText(format: DateTime -> string): string
      reads this
    {
      if dateTime.Some? then format(dateTime.value) else NoDateTime
    }

    function NotesText(): string
      reads this
    {
      if notes.Some? && notes.value != "" then notes.value else NoNotes
    }
  }

  /** A new appointment filled in through its three setters, as `scheduleAppointment` builds one. */
  method NewAppointment(appointmentType: string, dateTime: DateTime, notes: string) returns (a: Appointment)
    ensures fresh(a)
    ensures a.appointmentType == Some(appointmentType) && a.dateTime == Some(dateTime) && a.notes == Some(notes)
  {
    a := new Appointment();
    a.SetAppointmentType(Some(appointmentType));
    a.SetDateTime(Some(dateTime));
    a.SetNotes(Some(notes));
  }

  /**
   * An appointment with no notes, one with empty notes and one whose notes
   * are literally the placeholder all print alike: `toString` cannot be
   * read back into the notes.
   */
  lemma MissingNotesIndistinguishable(a: Appointment, b: Appointment, format: DateTime -> string)
    requires a.appointmentType == b.appointmentType && a.dateTime == b.dateTime
    requires a.notes in {None, Some(""), Some(NoNotes)} && b.notes in {None, Some(""), Some(NoNotes)}
    ensures a.ToString(format) == b.ToString(format)
  {
  }
}
