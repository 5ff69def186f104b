/**
 The records the application stores: members, tags, fronting entries and
 board messages, with their "complete" variants whose member reference is
 resolved to the full member record. Time is a local calendar day plus the
 millisecond within that day, which is what the date filters look at.
 */
module Entities {

  datatype Option<+T> = None | Some(value: T)

  /** An operation that either returns a value or throws (a `TypeError` in the source). */
  datatype Result<+T> = Ok(value: T) | Thrown(reason: string)

  type Uuid = string

  /** Months are numbered 1..12, as a person writes them. */
  type Month = m: int | 1 <= m <= 12 witness 1

  type DayOfMonth = d: int | 1 <= d <= 31 witness 1

  /** A calendar day: what `startOf("day")` keeps of an instant. */
  datatype Date = Date(year: int, month: Month, day: DayOfMonth)

  /** A JavaScript `Date`, seen in local time: its calendar day and the time within it. */
  datatype Instant = Instant(date: Date, msOfDay: nat)

  /** `dayjs(t).startOf("day")`: two instants on the same calendar day compare equal. */
  function StartOfDay(t: Instant): Date
  {
    t.date
  }

  datatype Member = Member(
    uuid: Uuid,
    name: string,
    pronouns: Option<string>,
    role: Option<string>,
    isArchived: bool,
    isCustomFront: bool,
    tags: seq<Uuid>)

  /** A label; `tagType` is the source's `type` field. */
  datatype Tag = Tag(uuid: Uuid, name: string, tagType: string)

  /** One row of the fronting-entry table: an interval that is open while `endTime` is absent. */
  datatype FrontingEntry = FrontingEntry(
    uuid: Uuid,
    member: Uuid,
    startTime: Instant,
    endTime: Option<Instant>,
    isMainFronter: bool,
    customStatus: Option<string>)

  datatype FrontingEntryComplete = FrontingEntryComplete(
    uuid: Uuid,
    member: Member,
    startTime: Instant,
    endTime: Option<Instant>,
    isMainFronter: bool,
    customStatus: Option<string>)

  datatype BoardMessage = BoardMessage(uuid: Uuid, member: Uuid, title: string, date: Instant)

  datatype BoardMessageComplete = BoardMessageComplete(uuid: Uuid, member: Member, title: string, date: Instant)

  /** A fronting entry is active, its member currently fronting, while it has no end time. */
  predicate Active(e: FrontingEntry)
  {
    e.endTime.None?
  }

  /** JavaScript truthiness of an optional string: present and not `""`. */
  predicate Given(s: Option<string>)
  {
    s.Some? && |s.value| > 0
  }

  /** JavaScript truthiness of an optional number: present and not `0`. */
  predicate GivenNumber(n: Option<int>)
  {
    n.Some? && n.value != 0
  }

  // -------------------------------------------------------- date predicates

  /** A date string from the query, as `dayjs` parses it: a calendar day, or invalid. */
  datatype DateText = Unparsable | OnDay(day: Date)

  /** `dayjs(text).startOf("day")` equals `dayjs(t).startOf("day")`; an invalid date equals nothing. */
  predicate SameDay(text: DateText, t: Instant)
  {
    text.OnDay? && text.day == StartOfDay(t)
  }

  /** An optional date constraint; absent or empty text constrains nothing. */
  predicate DateMatches(filter: Option<DateText>, t: Instant)
  {
    filter.None? || SameDay(filter.value, t)
  }

  /** An optional numeric component; absent or zero constrains nothing. */
  predicate ComponentMatches(filter: Option<int>, actual: int)
  {
    !GivenNumber(filter) || filter.value == actual
  }

  /** `dayjs(t).get("month")`: the month counted from 0. */
  function MonthIndex(t: Instant): int
  {
    t.date.month - 1
  }
}
