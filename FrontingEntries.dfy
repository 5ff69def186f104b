/**
 The fronting-entry table and the operations that change who is fronting.

 The table is a sequence of rows whose `uuid` is the primary key. The
 in-memory snapshot the operations consult is taken to equal the table when
 an operation starts, so the operations read the rows directly; the join
 that builds the snapshot (`UpdateFrontingEntriesRef`) is modelled as well,
 with a lemma that it loses nothing. The current time is a parameter, and
 the id of a new entry is an uninterpreted function of its member and start
 time.
 */
module FrontingEntries {
  import opened Entities
  import opened Text
  import opened Seqs

  // --------------------------------------------------------- table invariants

  /** The primary key: no two rows share a uuid. */
  predicate UniqueIds(rows: seq<FrontingEntry>)
  {
    forall i, j :: 0 <= i < j < |rows| ==> rows[i].uuid != rows[j].uuid
  }

  predicate HasId(rows: seq<FrontingEntry>, id: Uuid)
  {
    exists i :: 0 <= i < |rows| && rows[i].uuid == id
  }

  /** The business rule the operations aim to keep: a member has at most one active entry. */
  predicate AtMostOneActivePerMember(rows: seq<FrontingEntry>)
  {
    forall i, j ::
      (0 <= i < |rows| && 0 <= j < |rows| && Active(rows[i]) && Active(rows[j]) && rows[i].member == rows[j].member)
      ==> i == j
  }

  /** `x.endTime === undefined && x.member.uuid === member.uuid`. */
  predicate IsCurrentFor(e: FrontingEntry, member: Uuid)
  {
    Active(e) && e.member == member
  }

  // ------------------------------------------------------------ finding rows

  /** The position of the first active entry of `member`, if there is one. */
  function CurrentIndex(rows: seq<FrontingEntry>, member: Uuid): (r: Option<nat>)
    ensures r.Some? ==>
      (r.value < |rows| && IsCurrentFor(rows[r.value], member) &&
       forall j :: 0 <= j < r.value ==> !IsCurrentFor(rows[j], member))
    ensures r.None? ==> forall j :: 0 <= j < |rows| ==> !IsCurrentFor(rows[j], member)
  {
    if |rows| == 0 then None
    else if IsCurrentFor(rows[0], member) then Some(0)
    else match CurrentIndex(rows[1..], member)
      case None => None
      case Some(i) => Some(i + 1)
  }

  /** `getCurrentFrontEntryForMember`: the first entry without an end time whose member is `member`. */
  function GetCurrentFrontEntryForMember(rows: seq<FrontingEntry>, member: Member): (r: Option<FrontingEntry>)
    ensures r.None? <==> forall j :: 0 <= j < |rows| ==> !IsCurrentFor(rows[j], member.uuid)
    ensures r.Some? ==>
      exists i :: (0 <= i < |rows| && rows[i] == r.value && IsCurrentFor(rows[i], member.uuid) &&
                   forall j :: 0 <= j < i ==> !IsCurrentFor(rows[j], member.uuid))
  {
    match CurrentIndex(rows, member.uuid)
    case None => None
    case Some(i) => Some(rows[i])
  }

  /** Two tables with the same active entries of `member`, row for row, agree on its current index. */
  lemma CurrentIndexAgree(a: seq<FrontingEntry>, b: seq<FrontingEntry>, member: Uuid)
    requires |a| == |b|
    requires forall j :: 0 <= j < |a| ==> IsCurrentFor(a[j], member) == IsCurrentFor(b[j], member)
    ensures CurrentIndex(a, member) == CurrentIndex(b, member)
  {
  }

  // ----------------------------------------------------------- table updates

  /** The changes `getTable().update(uuid, changes)` is given in this file. */
  datatype Patch = EndAt(endTime: Instant) | MainFronter(isMainFronter: bool)

  function Apply(e: FrontingEntry, p: Patch): FrontingEntry
  {
    match p
    case EndAt(t) => e.(endTime := Some(t))
    case MainFronter(b) => e.(isMainFronter := b)
  }

  /** `table.update(key, changes)`: the row with that primary key takes the changes. */
  function UpdateRows(rows: seq<FrontingEntry>, key: Uuid, p: Patch): seq<FrontingEntry>
  {
    seq(|rows|, i requires 0 <= i < |rows| => if rows[i].uuid == key then Apply(rows[i], p) else rows[i])
  }

  /** `x => x.uuid` */
  function IdOf(e: FrontingEntry): Uuid
  {
    e.uuid
  }

  /** `x => !x.endTime && x.member.uuid !== member.uuid` */
  function OtherActive(member: Uuid): FrontingEntry -> bool
  {
    e => Active(e) && e.member != member
  }

  /** With unique keys, a row's uuid is among the uuids of the selected rows exactly when the row is selected. */
  lemma SelectedIds(rows: seq<FrontingEntry>, p: FrontingEntry -> bool)
    requires UniqueIds(rows)
    ensures forall j :: 0 <= j < |rows| ==> (rows[j].uuid in Map(IdOf, Filter(p, rows)) <==> p(rows[j]))
  {
    forall j | 0 <= j < |rows|
      ensures rows[j].uuid in Map(IdOf, Filter(p, rows)) <==> p(rows[j])
    {
      SelectedId(rows, p, j);
    }
  }

  /** `SelectedIds` for one row. */
  lemma SelectedId(rows: seq<FrontingEntry>, p: FrontingEntry -> bool, j: int)
    requires UniqueIds(rows)
    requires 0 <= j < |rows|
    ensures rows[j].uuid in Map(IdOf, Filter(p, rows)) <==> p(rows[j])
  {
    var kept := Filter(p, rows);
    var ids := Map(IdOf, kept);
    if p(rows[j]) {
      FilterKeepsSatisfying(p, rows, rows[j]);
      var k :| 0 <= k < |kept| && kept[k] == rows[j];
      assert ids[k] == rows[j].uuid;
    }
    if rows[j].uuid in ids {
      var k :| 0 <= k < |ids| && ids[k] == rows[j].uuid;
      assert kept[k] in kept;
      var l :| 0 <= l < |rows| && rows[l] == kept[k];
      assert l == j;
    }
  }

  // ------------------------------------------------ what each operation does

  /** The table after `removeFronter(member)` at time `now`. */
  function RemoveFronterResult(rows: seq<FrontingEntry>, member: Uuid, now: Instant): seq<FrontingEntry>
  {
    match CurrentIndex(rows, member)
    case None => rows
    case Some(i) => rows[i := rows[i].(endTime := Some(now))]
  }

  /** The table after `setMainFronter(member, value)`. */
  function MainFronterResult(rows: seq<FrontingEntry>, member: Uuid, value: bool): seq<FrontingEntry>
  {
    match CurrentIndex(rows, member)
    case None => rows
    case Some(i) =>
      seq(|rows|, j requires 0 <= j < |rows| =>
        if j == i then rows[j].(isMainFronter := value)
        else if value && Active(rows[j]) && rows[j].member != member then rows[j].(isMainFronter := false)
        else rows[j])
  }

  /** Every other member's active entry, ended at `endTime`. */
  function EndOthers(rows: seq<FrontingEntry>, member: Uuid, endTime: Instant): seq<FrontingEntry>
  {
    seq(|rows|, j requires 0 <= j < |rows| =>
      if Active(rows[j]) && rows[j].member != member then rows[j].(endTime := Some(endTime)) else rows[j])
  }

  /** The row `newFrontingEntry` adds for a member who starts fronting at `startTime`. */
  function StartedEntry(id: Uuid, member: Uuid, startTime: Instant): FrontingEntry
  {
    FrontingEntry(id, member, startTime, None, false, None)
  }

  /**
   The table after `setSoleFronter(member)` at time `now`, where `newId` is the
   id a new entry of `member` starting at `now` would get. The new row is added
   only when the member had no active entry and the id is not taken.
   */
  function SoleFronterResult(rows: seq<FrontingEntry>, member: Uuid, now: Instant, newId: Uuid): seq<FrontingEntry>
  {
    var ended := EndOthers(rows, member, now);
    if CurrentIndex(rows, member).None? && !HasId(rows, newId)
    then ended + [StartedEntry(newId, member, now)]
    else ended
  }

  // ------------------------------------------------------------------- table

  class FrontingTable {
    var rows: seq<FrontingEntry>

    /** `genid(member + startTime.getTime())`: a name-based UUID, a function of member and start time only. */
    const genid: (Uuid, Instant) -> Uuid

    predicate Valid()
      reads this
    {
      UniqueIds(rows)
    }

    constructor (genid: (Uuid, Instant) -> Uuid, rows: seq<FrontingEntry>)
      requires UniqueIds(rows)
      ensures Valid()
      ensures this.rows == rows && this.genid == genid
    {
      this.genid := genid;
      this.rows := rows;
    }

    /** `getTable().update(key, changes)`. */
    method Update(key: Uuid, p: Patch)
      requires Valid()
      modifies this
      ensures Valid()
      ensures rows == UpdateRows(old(rows), key, p)
    {
      rows := UpdateRows(rows, key, p);
    }

    /** `for (const uuid of keys) await getTable().update(uuid, changes)`. */
    method UpdateEach(keys: seq<Uuid>, p: Patch)
      requires Valid()
      modifies this
      ensures Valid()
      ensures |rows| == |old(rows)|
      ensures forall j :: 0 <= j < |rows| ==>
        rows[j] == if old(rows)[j].uuid in keys then Apply(old(rows)[j], p) else old(rows)[j]
    {
      for k := 0 to |keys|
        invariant Valid()
        invariant |rows| == |old(rows)|
        invariant forall j :: 0 <= j < |rows| ==>
          rows[j] == if old(rows)[j].uuid in keys[..k] then Apply(old(rows)[j], p) else old(rows)[j]
      {
        Update(keys[k], p);
        assert keys[..k + 1] == keys[..k] + [keys[k]];
      }
      assert keys[..|keys|] == keys;
    }

    /** `newFrontingEntry`: adds a row under its generated id; the add fails when that id is taken. */
    method NewFrontingEntry(member: Uuid, startTime: Instant, endTime: Option<Instant>, isMainFronter: bool,
                            customStatus: Option<string>) returns (added: bool)
      requires Valid()
      modifies this
      ensures Valid()
      ensures added == !HasId(old(rows), genid(member, startTime))
      ensures added ==> rows == old(rows) + [FrontingEntry(genid(member, startTime), member, startTime, endTime, isMainFronter, customStatus)]
      ensures !added ==> rows == old(rows)
    {
      var uuid := genid(member, startTime);
      added := forall i | 0 <= i < |rows| :: rows[i].uuid != uuid;
      if added {
        rows := rows + [FrontingEntry(uuid, member, startTime, endTime, isMainFronter, customStatus)];
      }
    }

    /** `removeFronter`: stamps the member's current entry with the end time `now`. */
    method RemoveFronter(member: Member, now: Instant)
      requires Valid()
      modifies this
      ensures Valid()
      ensures rows == RemoveFronterResult(old(rows), member.uuid, now)
    {
      var f := GetCurrentFrontEntryForMember(rows, member);
      if f.None? {
        return;
      }
      ghost var i := CurrentIndex(rows, member.uuid).value;
      Update(f.value.uuid, EndAt(now));
      assert rows == old(rows)[i := old(rows)[i].(endTime := Some(now))];
    }

    /**
     `setMainFronter`: when `value` is set, first clears the flag on every other
     member's active entry, one update per entry; then sets the flag of the
     member's current entry to `value`.
     */
    method SetMainFronter(member: Member, value: bool)
      requires Valid()
      modifies this
      ensures Valid()
      ensures rows == MainFronterResult(old(rows), member.uuid, value)
    {
      var f := GetCurrentFrontEntryForMember(rows, member);
      if f.None? {
        return;
      }
      ghost var i := CurrentIndex(rows, member.uuid).value;
      ghost var before := rows;
      if value {
        var toUpdate := Map(IdOf, Filter(OtherActive(member.uuid), rows));
        UpdateEach(toUpdate, MainFronter(false));
        SelectedIds(before, OtherActive(member.uuid));
      }
      Update(f.value.uuid, MainFronter(value));
      forall j | 0 <= j < |rows|
        ensures rows[j] == MainFronterResult(before, member.uuid, value)[j]
      {
        if j != i {
          assert before[j].uuid != before[i].uuid;
        }
      }
    }

    /**
     `setSoleFronter`: ends every other member's active entry at one shared time,
     then, if the member has no active entry, adds one starting at that time.
     */
    method SetSoleFronter(member: Member, now: Instant)
      requires Valid()
      modifies this
      ensures Valid()
      ensures rows == SoleFronterResult(old(rows), member.uuid, now, genid(member.uuid, now))
    {
      var toUpdate := Map(IdOf, Filter(OtherActive(member.uuid), rows));
      var endTime := now;
      ghost var before := rows;
      UpdateEach(toUpdate, EndAt(endTime));
      SelectedIds(before, OtherActive(member.uuid));
      assert rows == EndOthers(before, member.uuid, endTime);
      CurrentIndexAgree(rows, before, member.uuid);
      assert HasId(rows, genid(member.uuid, endTime)) == HasId(before, genid(member.uuid, endTime)) by {
        assert forall j :: 0 <= j < |rows| ==> rows[j].uuid == before[j].uuid;
      }
      var f := GetCurrentFrontEntryForMember(rows, member);
      if f.None? {
        var added := NewFrontingEntry(member.uuid, endTime, None, false, None);
      }
    }
  }

  // -------------------------------------------------- properties of the ops

  /** Ending the member's current entry leaves the member with no active entry, and keeps the invariant. */
  lemma RemoveFronterEndsMember(rows: seq<FrontingEntry>, member: Uuid, now: Instant)
    requires AtMostOneActivePerMember(rows)
    ensures CurrentIndex(RemoveFronterResult(rows, member, now), member).None?
    ensures AtMostOneActivePerMember(RemoveFronterResult(rows, member, now))
  {
  }

  /** Removing a fronter twice is removing once: the second call finds no active entry. */
  lemma RemoveFronterIdempotent(rows: seq<FrontingEntry>, member: Uuid, now: Instant, later: Instant)
    requires AtMostOneActivePerMember(rows)
    ensures RemoveFronterResult(RemoveFronterResult(rows, member, now), member, later) == RemoveFronterResult(rows, member, now)
  {
  }

  /** Removing a fronter changes only the end time of the member's current entry. */
  lemma RemoveFronterChangesOneEndTime(rows: seq<FrontingEntry>, member: Uuid, now: Instant)
    ensures var r := RemoveFronterResult(rows, member, now);
      |r| == |rows| &&
      forall j :: 0 <= j < |rows| ==>
        (r[j] == rows[j] || (IsCurrentFor(rows[j], member) && r[j] == rows[j].(endTime := Some(now))))
  {
  }

  /**
   Making a member main fronter leaves exactly one active entry flagged main,
   the member's current one, when every member has at most one active entry.
   */
  lemma MainFronterLeavesOneMain(rows: seq<FrontingEntry>, member: Uuid, i: nat)
    requires AtMostOneActivePerMember(rows)
    requires CurrentIndex(rows, member) == Some(i)
    ensures var r := MainFronterResult(rows, member, true);
      Active(r[i]) && r[i].isMainFronter && r[i].member == member &&
      forall j :: 0 <= j < |r| && Active(r[j]) && r[j].isMainFronter ==> j == i
  {
  }

  /** Setting the main-fronter flag touches only that flag, and never an ended entry. */
  lemma MainFronterTouchesOnlyFlags(rows: seq<FrontingEntry>, member: Uuid, value: bool)
    ensures var r := MainFronterResult(rows, member, value);
      |r| == |rows| &&
      (forall j :: 0 <= j < |rows| ==> r[j] == rows[j].(isMainFronter := r[j].isMainFronter)) &&
      (forall j :: 0 <= j < |rows| && !Active(rows[j]) ==> r[j] == rows[j])
  {
  }

  /** Clearing the main-fronter flag changes only the flag of the member's current entry. */
  lemma MainFronterClearOnlyTarget(rows: seq<FrontingEntry>, member: Uuid, i: nat)
    requires CurrentIndex(rows, member) == Some(i)
    ensures MainFronterResult(rows, member, false) == rows[i := rows[i].(isMainFronter := false)]
  {
  }

  /** Setting the main-fronter flag keeps the one-active-entry invariant. */
  lemma MainFronterKeepsInvariant(rows: seq<FrontingEntry>, member: Uuid, value: bool)
    requires AtMostOneActivePerMember(rows)
    ensures AtMostOneActivePerMember(MainFronterResult(rows, member, value))
  {
  }

  /** After `setSoleFronter`, no other member has an active entry, and all of them share one end time. */
  lemma SoleFronterEndsOthers(rows: seq<FrontingEntry>, member: Uuid, now: Instant, newId: Uuid)
    ensures var r := SoleFronterResult(rows, member, now, newId);
      |rows| <= |r| <= |rows| + 1 &&
      (forall e :: e in r && Active(e) ==> e.member == member) &&
      (forall j :: 0 <= j < |rows| && Active(rows[j]) && rows[j].member != member ==>
         r[j] == rows[j].(endTime := Some(now))) &&
      (forall j :: 0 <= j < |rows| && !(Active(rows[j]) && rows[j].member != member) ==> r[j] == rows[j])
  {
  }

  /** A member who was not fronting gets exactly one new entry: starting now, open, not main. */
  lemma SoleFronterStartsMember(rows: seq<FrontingEntry>, member: Uuid, now: Instant, newId: Uuid)
    requires CurrentIndex(rows, member).None?
    requires !HasId(rows, newId)
    ensures var r := SoleFronterResult(rows, member, now, newId);
      |r| == |rows| + 1 &&
      r[|rows|] == FrontingEntry(newId, member, now, None, false, None) &&
      forall j :: 0 <= j < |r| && Active(r[j]) ==> j == |rows|
  {
  }

  /** A member who was fronting keeps their active entry exactly as it was. */
  lemma SoleFronterKeepsCurrent(rows: seq<FrontingEntry>, member: Uuid, now: Instant, newId: Uuid, i: nat)
    requires CurrentIndex(rows, member) == Some(i)
    ensures var r := SoleFronterResult(rows, member, now, newId);
      |r| == |rows| && r[i] == rows[i]
  {
  }

  /**
   Under the one-active-entry invariant, and unless the new entry's id is
   already taken, `setSoleFronter` leaves exactly one active entry, the member's.
   */
  lemma SoleFronterLeavesOnlyMember(rows: seq<FrontingEntry>, member: Uuid, now: Instant, newId: Uuid)
    requires AtMostOneActivePerMember(rows)
    requires CurrentIndex(rows, member).Some? || !HasId(rows, newId)
    ensures var r := SoleFronterResult(rows, member, now, newId);
      exists k :: 0 <= k < |r| && Active(r[k]) && r[k].member == member &&
        forall j :: 0 <= j < |r| && Active(r[j]) ==> j == k
  {
    var r := SoleFronterResult(rows, member, now, newId);
    SoleFronterEndsOthers(rows, member, now, newId);
    match CurrentIndex(rows, member)
    case None =>
      SoleFronterStartsMember(rows, member, now, newId);
      assert Active(r[|rows|]);
    case Some(i) =>
      forall j | 0 <= j < |r| && Active(r[j]) ensures j == i {
        assert r[j] in r;
        assert r[j] == rows[j];
      }
      assert Active(r[i]);
  }

  // ------------------------------------------------------ the joined snapshot

  /** `members.find(y => y.uuid === id)`. */
  function FindMember(members: seq<Member>, id: Uuid): (r: Option<Member>)
    ensures r.Some? ==>
      (r.value.uuid == id &&
       exists i :: (0 <= i < |members| && members[i] == r.value && forall j :: 0 <= j < i ==> members[j].uuid != id))
    ensures r.None? ==> forall y :: y in members ==> y.uuid != id
  {
    if |members| == 0 then None
    else if members[0].uuid == id then Some(members[0])
    else
      var r := FindMember(members[1..], id);
      if r.Some? then
        ghost var i :| 0 <= i < |members[1..]| && members[1..][i] == r.value &&
          forall j :: 0 <= j < i ==> members[1..][j].uuid != id;
        assert members[i + 1] == r.value;
        assert forall j :: 0 < j < i + 1 ==> members[j] == members[1..][j - 1];
        r
      else r
  }

  /** A snapshot entry: the row with its member id replaced by the member found, `undefined` when none is. */
  datatype ResolvedEntry = ResolvedEntry(
    uuid: Uuid,
    member: Option<Member>,
    startTime: Instant,
    endTime: Option<Instant>,
    isMainFronter: bool,
    customStatus: Option<string>)

  function Resolve(members: seq<Member>): FrontingEntry -> ResolvedEntry
  {
    (x: FrontingEntry) => ResolvedEntry(x.uuid, FindMember(members, x.member), x.startTime, x.endTime, x.isMainFronter, x.customStatus)
  }

  /** `updateFrontingEntriesRef`: one snapshot entry per row, in table order, each joined to its member. */
  function UpdateFrontingEntriesRef(rows: seq<FrontingEntry>, members: seq<Member>): (r: seq<ResolvedEntry>)
    ensures |r| == |rows|
    ensures forall i :: 0 <= i < |rows| ==>
      (r[i].uuid == rows[i].uuid && r[i].startTime == rows[i].startTime && r[i].endTime == rows[i].endTime &&
       r[i].isMainFronter == rows[i].isMainFronter && r[i].customStatus == rows[i].customStatus)
    ensures forall i :: 0 <= i < |rows| && r[i].member.Some? ==> r[i].member.value.uuid == rows[i].member
    ensures forall i :: 0 <= i < |rows| ==> r[i].member == FindMember(members, rows[i].member)
    ensures forall i :: 0 <= i < |rows| ==> (r[i].member.None? <==> forall y :: y in members ==> y.uuid != rows[i].member)
  {
    Map(Resolve(members), rows)
  }

  /** Back from a resolved entry to its row; an entry whose member is `undefined` no longer names one. */
  function Unresolve(x: ResolvedEntry): Option<FrontingEntry>
  {
    if x.member.Some?
    then Some(FrontingEntry(x.uuid, x.member.value.uuid, x.startTime, x.endTime, x.isMainFronter, x.customStatus))
    else None
  }

  /**
   The join loses nothing for rows whose member is known: each such row is
   rebuilt from its snapshot entry alone, so a test on `x.member.uuid` in the
   snapshot is the same test on the row's member id. A row whose member is
   unknown loses its member id.
   */
  lemma JoinRoundTrip(rows: seq<FrontingEntry>, members: seq<Member>)
    ensures var snapshot := UpdateFrontingEntriesRef(rows, members);
      forall i :: 0 <= i < |rows| ==>
        Unresolve(snapshot[i]) == if exists y :: y in members && y.uuid == rows[i].member then Some(rows[i]) else None
  {
  }

  // -------------------------------------------- the case-sensitive entry filter

  /** What the fronting filter parser gives `getFrontingEntriesFromFilterQuery`: it reads these fields. */
  datatype EntryFilterQuery = EntryFilterQuery(
    query: string,
    currentlyFronting: bool,
    date: Option<DateText>,
    day: Option<int>,
    month: Option<int>,
    year: Option<int>)

  /** The filter callback on an entry whose member resolved; dates are those of the start time. */
  predicate EntryMatches(q: EntryFilterQuery, x: ResolvedEntry)
  {
    x.member.Some?
    && StartsWith(x.member.value.name, q.query)
    && (!q.currentlyFronting || x.endTime.None?)
    && DateMatches(q.date, x.startTime)
    && ComponentMatches(q.day, x.startTime.date.day)
    && ComponentMatches(q.month, MonthIndex(x.startTime) + 1)
    && ComponentMatches(q.year, x.startTime.date.year)
  }

  function MatchesQuery(q: EntryFilterQuery): ResolvedEntry -> bool
  {
    x => EntryMatches(q, x)
  }

  /**
   `getFrontingEntriesFromFilterQuery`. The callback reads `x.member.name` first,
   so an entry whose member is `undefined` makes the whole call throw.
   */
  function GetFrontingEntriesFromFilterQuery(snapshot: seq<ResolvedEntry>, parse: string -> EntryFilterQuery, filterQuery: string)
    : (r: Result<seq<ResolvedEntry>>)
    ensures r.Thrown? <==> exists i :: 0 <= i < |snapshot| && snapshot[i].member.None?
    ensures r.Ok? ==> IsSubsequence(r.value, snapshot)
    ensures r.Ok? ==> forall x :: x in r.value <==> x in snapshot && EntryMatches(parse(filterQuery), x)
    ensures r.Ok? ==>
      forall x :: multiset(r.value)[x] == if EntryMatches(parse(filterQuery), x) then multiset(snapshot)[x] else 0
  {
    var parsed := parse(filterQuery);
    if exists i :: 0 <= i < |snapshot| && snapshot[i].member.None? then
      Thrown("Cannot read properties of undefined (reading 'name')")
    else
      FilterIsSubsequence(MatchesQuery(parsed), snapshot);
      FilterMembership(MatchesQuery(parsed), snapshot);
      FilterCount(MatchesQuery(parsed), snapshot);
      Ok(Filter(MatchesQuery(parsed), snapshot))
  }

  /** Unlike the fronting-history view, this filter is case-sensitive: "an" does not select "Ann". */
  lemma EntryFilterIsCaseSensitive(parse: string -> EntryFilterQuery, x: ResolvedEntry)
    requires parse("an") == EntryFilterQuery("an", false, None, None, None, None)
    requires x.member.Some? && x.member.value.name == "Ann"
    ensures GetFrontingEntriesFromFilterQuery([x], parse, "an") == Ok([])
  {
    assert "Ann"[..2] != "an" by { assert "Ann"[0] != "an"[0]; }
    assert !MatchesQuery(parse("an"))(x);
    assert [x][1..] == [];
  }
}
