/** The calendar overlay (components/ClinicalCalendar.tsx): a fixed grid of
    31 days with decorative markers, and an agenda of up to six slots built
    from the patient list. */
module ClinicalCalendar {

  import opened Types
  import opened Text

  datatype SlotColor = GreenSlot | BlueSlot

  datatype Slot = Slot(time: string, patient: PatientInfo, kind: AppointmentType, color: SlotColor)

  /** The slot built for the patient at position `i`. */
  function SlotAt(p: PatientInfo, i: nat): (s: Slot)
    ensures s.patient == p
    ensures s.time == NatToString(9 + i) + ":00"
    ensures s.kind == Tratamiento <==> i % 2 == 0
    ensures s.kind == Revision <==> i % 2 == 1
    ensures s.color == GreenSlot <==> s.kind == Tratamiento
  {
    if i % 2 == 0 then Slot(NatToString(9 + i) + ":00", p, Tratamiento, GreenSlot)
    else Slot(NatToString(9 + i) + ":00", p, Revision, BlueSlot)
  }

  /** `mockAppointments`: a slot per patient, then the first six. */
  function Slots(ps: seq<PatientInfo>): (r: seq<Slot>)
    ensures |r| == (if |ps| < 6 then |ps| else 6)
    ensures forall i :: 0 <= i < |r| ==> r[i] == SlotAt(ps[i], i)
  {
    var all := seq(|ps|, i requires 0 <= i < |ps| => SlotAt(ps[i], i));
    all[..if |ps| < 6 then |ps| else 6]
  }

  /** Reading a slot's time back with `parseInt` gives its hour, 9 plus its
      position: the agenda runs hourly from 9:00 to at most 14:00. */
  lemma SlotHours(ps: seq<PatientInfo>, i: int)
    requires 0 <= i < |Slots(ps)|
    ensures ParseInt(Slots(ps)[i].time) == Some(9 + i)
    ensures 9 <= 9 + i <= 14
  {
    SlotAtHour(ps[i], i);
  }

  lemma SlotAtHour(p: PatientInfo, i: nat)
    ensures ParseInt(SlotAt(p, i).time) == Some(9 + i)
  {
    assert !IsDigit(":00"[0]);
    ParseIntNatToString(9 + i, ":00");
  }

  /** `days`: the numbers 1 to 31, in order. */
  function Days(): (r: seq<int>)
    ensures |r| == 31
    ensures forall i :: 0 <= i < 31 ==> r[i] == i + 1
  {
    seq(31, i requires 0 <= i < 31 => i + 1)
  }

  lemma DaysAreTheMonth()
    ensures forall d :: d in Days() <==> 1 <= d <= 31
  {
    var r := Days();
    forall d | 1 <= d <= 31 ensures d in r {
      assert r[d - 1] == d;
    }
  }

  datatype Marker = BlueDot | GreenDot | PurpleDot

  /** The dots under day `d`, in the order they are drawn. */
  function Markers(d: int): (r: seq<Marker>)
    ensures BlueDot in r <==> d % 7 == 0
    ensures GreenDot in r <==> d % 10 == 0
    ensures PurpleDot in r <==> d % 4 == 0 && d % 7 != 0
    ensures !(BlueDot in r && PurpleDot in r)
  {
    (if d % 7 == 0 then [BlueDot] else [])
    + (if d % 10 == 0 then [GreenDot] else [])
    + (if d % 4 == 0 && d % 7 != 0 then [PurpleDot] else [])
  }

  /** In the 31-day grid no day carries both blue and green, and day 20 is the
      only one with two dots. */
  lemma MarkersInGrid(d: int)
    requires 1 <= d <= 31
    ensures !(BlueDot in Markers(d) && GreenDot in Markers(d))
    ensures |Markers(d)| == 2 <==> d == 20
  {
    if d % 7 == 0 {
      assert d == 7 || d == 14 || d == 21 || d == 28;
    }
    if d % 10 == 0 {
      assert d == 10 || d == 20 || d == 30;
    }
  }
}
