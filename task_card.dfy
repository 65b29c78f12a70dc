/**
 * The task card: the 12-hour due time, the tag chips with their `+n`
 * overflow chip, and the subtask progress line.
 */
module TaskCard {
  import opened Options
  import opened Strings
  import opened Seqs
  import opened TaskTypes

  /** What a template literal prints for a missing array element. */
  const UNDEFINED_TEXT: string := "undefined"

  /** JavaScript `%` with a positive divisor: the remainder keeps the dividend's sign. */
  function JsRem(a: int, b: int): (r: int)
    requires b > 0
    ensures -b < r < b
    ensures a >= 0 ==> r == a % b
    ensures a < 0 ==> r == -((-a) % b)
    ensures r != 0 ==> (r < 0 <==> a < 0)
  {
    if a >= 0 then a % b else -((-a) % b)
  }

  /** `hour % 12 || 12`, `None` standing for `NaN`: a zero or `NaN` remainder is falsy and shows 12. */
  function DisplayHour(hour: Option<int>): (r: int)
    ensures hour.None? ==> r == 12
    ensures hour.Some? && 0 <= hour.value < 24 ==> 1 <= r <= 12
  {
    if hour.Some? && JsRem(hour.value, 12) != 0 then JsRem(hour.value, 12) else 12
  }

  /** `hour >= 12 ? 'PM' : 'AM'`: a `NaN` hour compares false, so it is AM. */
  predicate IsPM(hour: Option<int>) {
    hour.Some? && hour.value >= 12
  }

  function Meridiem(pm: bool): string {
    if pm then "PM" else "AM"
  }

  /** The 24-hour clock hour that a 12-hour label and its AM/PM stand for. */
  function Hour24(display: int, pm: bool): int {
    if display == 12 then (if pm then 12 else 0) else if pm then display + 12 else display
  }

  /** Every hour of the day reads back from its label: 0 is 12 AM, 12 is 12 PM, 13..23 are 1..11 PM. */
  lemma TwelveHourRoundTrip(h: int)
    requires 0 <= h < 24
    ensures Hour24(DisplayHour(Some(h)), IsPM(Some(h))) == h
    ensures h == 0 ==> DisplayHour(Some(h)) == 12 && !IsPM(Some(h))
    ensures 1 <= h <= 11 ==> DisplayHour(Some(h)) == h && !IsPM(Some(h))
    ensures h == 12 ==> DisplayHour(Some(h)) == 12 && IsPM(Some(h))
    ensures 13 <= h <= 23 ==> DisplayHour(Some(h)) == h - 12 && IsPM(Some(h))
  {
    assert JsRem(h, 12) == h % 12;
  }

  /** `formatTime`: `H:MM AM`; the empty text for an absent or empty time. */
  function FormatTime(timeString: Option<string>): (r: string)
    ensures r == [] <==> !IsSetText(timeString)
  {
    if !IsSetText(timeString) then ""
    else
      var parts := Split(timeString.value, ':');
      var hour := ParseInt(parts[0]);
      var minutes := if |parts| > 1 then parts[1] else UNDEFINED_TEXT;
      var hourText := IntToString(DisplayHour(hour));
      assert |hourText| >= 1;
      hourText + ":" + minutes + " " + Meridiem(IsPM(hour))
  }

  /** The minutes text after the colon appears unchanged, and the hour part alone decides the label. */
  lemma MinutesPassThrough(hours: string, minutes: string)
    requires ':' !in hours && ':' !in minutes && hours != []
    ensures var h := ParseInt(hours);
            FormatTime(Some(hours + ":" + minutes))
            == IntToString(DisplayHour(h)) + ":" + minutes + " " + Meridiem(IsPM(h))
  {
    SplitAt(hours, minutes, ':');
    SplitAt(minutes, [], ':');
    assert hours + ":" + minutes == hours + [':'] + minutes;
  }

  /** The tag chips: the first two tags, and a `+n` chip for the `n` left over; nothing without tags. */
  function TagChips(tags: Option<seq<string>>): (r: (seq<string>, nat))
    ensures |r.0| <= 2
    ensures tags.None? ==> r.0 == [] && r.1 == 0
    ensures tags.Some? ==> |r.0| <= |tags.value| && r.0 == tags.value[..|r.0|] && |r.0| + r.1 == |tags.value|
    ensures r.1 > 0 <==> tags.Some? && |tags.value| > 2
  {
    if tags.None? then ([], 0) else Truncate(tags.value, 2)
  }

  predicate IsDone(s: SubTask) {
    s.completed
  }

  /** The `done/total subtasks` line, shown only for a non-empty list. */
  function SubtaskProgress(subtasks: Option<seq<SubTask>>): (r: Option<(nat, nat)>)
    ensures r.None? <==> subtasks.None? || subtasks.value == []
    ensures r.Some? ==> r.value.0 <= r.value.1 && r.value.1 == |subtasks.value|
    ensures r.Some? ==> (r.value.0 == r.value.1 <==> forall i :: 0 <= i < |subtasks.value| ==> subtasks.value[i].completed)
  {
    if subtasks.None? || subtasks.value == [] then None
    else
      CountAll(subtasks.value, IsDone);
      Some((Count(subtasks.value, IsDone), |subtasks.value|))
  }
}
