/**
 The filtered views of members, tags, fronting history and board messages.

 Each view resolves the effective query (the search text, or the configured
 default for that view when the search text is empty), hands it to the
 query parser, and keeps, in input order, the elements the parsed query
 admits. The parser and the functions that complete an entry or a message
 with its member are outside this model: they are parameters here, total
 functions of their input. Every optional query field is checked with
 JavaScript truthiness, so `0` and `""` impose no constraint.
 */
module Search {
  import opened Entities
  import opened Text
  import opened Seqs

  /** `search.length ? search : (defaultQuery || "")`. */
  function EffectiveQuery(search: string, defaultQuery: Option<string>): (q: string)
    ensures |search| == 0 && defaultQuery.Some? ==> q == defaultQuery.value
    ensures |search| == 0 && defaultQuery.None? ==> q == ""
    ensures |search| > 0 ==> q == search
  {
    if |search| > 0 then search
    else if defaultQuery.Some? then defaultQuery.value
    else ""
  }

  // ---------------------------------------------------------------- members

  /** What the member-query parser produces. */
  datatype MemberQuery = MemberQuery(
    all: bool,
    query: string,
    pronouns: Option<string>,
    role: Option<string>,
    isArchived: Option<bool>,
    isCustomFront: Option<bool>,
    tags: seq<Uuid>)

  /** The loop over `parsed.tags`: false at the first required tag the member lacks. */
  predicate HasEveryTag(have: seq<Uuid>, required: seq<Uuid>)
  {
    |required| == 0 || (required[0] in have && HasEveryTag(have, required[1..]))
  }

  lemma {:induction false} HasEveryTagMeaning(have: seq<Uuid>, required: seq<Uuid>)
    ensures HasEveryTag(have, required) <==> forall u :: u in required ==> u in have
  {
    if |required| > 0 {
      HasEveryTagMeaning(have, required[1..]);
      assert required == [required[0]] + required[1..];
    }
  }

  /** The member filter callback, check by check with its early returns. */
  predicate MemberKept(q: MemberQuery, x: Member)
  {
    if q.all then true
    else if !StartsWith(Lower(x.name), Lower(q.query)) then false
    else if Given(q.pronouns) && (!Given(x.pronouns) || Lower(x.pronouns.value) != Lower(q.pronouns.value)) then false
    else if Given(q.role) && (!Given(x.role) || Lower(x.role.value) != Lower(q.role.value)) then false
    else if q.isArchived.Some? && x.isArchived != q.isArchived.value then false
    else if q.isCustomFront.Some? && x.isCustomFront != q.isCustomFront.value then false
    else if |q.tags| > 0 && !HasEveryTag(x.tags, q.tags) then false
    else true
  }

  /** A pronouns or role filter: no constraint unless given, then a given field equal up to case. */
  predicate FieldMatches(filter: Option<string>, field: Option<string>)
  {
    !Given(filter) || (Given(field) && Lower(field.value) == Lower(filter.value))
  }

  /** The member callback is the conjunction of its checks, with tags read as "every listed tag". */
  lemma MemberKeptMeaning(q: MemberQuery, x: Member)
    ensures MemberKept(q, x) <==>
      q.all ||
      (StartsWith(Lower(x.name), Lower(q.query))
       && FieldMatches(q.pronouns, x.pronouns)
       && FieldMatches(q.role, x.role)
       && (q.isArchived.Some? ==> x.isArchived == q.isArchived.value)
       && (q.isCustomFront.Some? ==> x.isCustomFront == q.isCustomFront.value)
       && (forall u :: u in q.tags ==> u in x.tags))
  {
    HasEveryTagMeaning(x.tags, q.tags);
  }

  function KeepMember(q: MemberQuery): Member -> bool
  {
    x => MemberKept(q, x)
  }

  /** `getFilteredMembers`: the members the parsed effective query admits, in input order. */
  function FilterMembers(search: string, defaultQuery: Option<string>, parse: string -> MemberQuery, members: seq<Member>): (r: seq<Member>)
    ensures IsSubsequence(r, members)
    ensures forall x :: x in r <==> x in members && MemberKept(parse(EffectiveQuery(search, defaultQuery)), x)
    ensures forall x ::
      multiset(r)[x] == if MemberKept(parse(EffectiveQuery(search, defaultQuery)), x) then multiset(members)[x] else 0
  {
    var parsed := parse(EffectiveQuery(search, defaultQuery));
    FilterIsSubsequence(KeepMember(parsed), members);
    FilterMembership(KeepMember(parsed), members);
    FilterCount(KeepMember(parsed), members);
    Filter(KeepMember(parsed), members)
  }

  /** With `all` in the parsed query every member is kept, in order. */
  lemma MembersAllKept(search: string, defaultQuery: Option<string>, parse: string -> MemberQuery, members: seq<Member>)
    requires parse(EffectiveQuery(search, defaultQuery)).all
    ensures FilterMembers(search, defaultQuery, parse, members) == members
  {
    FilterKeepsAll(KeepMember(parse(EffectiveQuery(search, defaultQuery))), members);
  }

  /** A given pronouns or role filter drops members without that field and keeps only equal ones up to case. */
  lemma MemberFieldFilters(search: string, defaultQuery: Option<string>, parse: string -> MemberQuery, members: seq<Member>, x: Member)
    requires !parse(EffectiveQuery(search, defaultQuery)).all
    requires x in FilterMembers(search, defaultQuery, parse, members)
    ensures var q := parse(EffectiveQuery(search, defaultQuery));
      (Given(q.pronouns) ==> Given(x.pronouns) && Lower(x.pronouns.value) == Lower(q.pronouns.value)) &&
      (Given(q.role) ==> Given(x.role) && Lower(x.role.value) == Lower(q.role.value)) &&
      (forall u :: u in q.tags ==> u in x.tags)
  {
    MemberKeptMeaning(parse(EffectiveQuery(search, defaultQuery)), x);
  }

  /** Members A with pronouns "she" and B with "he": `pronouns:she` keeps only A. */
  lemma PronounsExample(parse: string -> MemberQuery, a: Member, b: Member)
    requires parse("pronouns:she") == MemberQuery(false, "", Some("she"), None, None, None, [])
    requires a.pronouns == Some("she") && b.pronouns == Some("he")
    ensures FilterMembers("pronouns:she", None, parse, [a, b]) == [a]
  {
    var q := parse("pronouns:she");
    assert Lower("she") == "she";
    assert Lower("he") == "he";
    assert KeepMember(q)(a);
    assert !KeepMember(q)(b);
    assert [a, b][1..] == [b];
    assert Filter(KeepMember(q), [b]) == [];
  }

  // ------------------------------------------------------------------- tags

  /** A tag survives when its type is the selected one and its name starts with the query, ignoring case. */
  predicate TagKept(query: string, tagType: string, x: Tag)
  {
    StartsWith(Lower(x.name), Lower(query)) && x.tagType == tagType
  }

  function KeepTag(query: string, tagType: string): Tag -> bool
  {
    x => TagKept(query, tagType, x)
  }

  function OfType(tagType: string): Tag -> bool
  {
    (x: Tag) => x.tagType == tagType
  }

  /**
   `getFilteredTags`. The query is matched as text, not parsed. With an empty
   effective query the source filters by type only; that branch and the other
   select the same tags, so the result is one filter either way.
   */
  function FilterTags(search: string, defaultQuery: Option<string>, tagType: string, tags: seq<Tag>): (r: seq<Tag>)
    ensures IsSubsequence(r, tags)
    ensures forall x :: x in r <==> x in tags && TagKept(EffectiveQuery(search, defaultQuery), tagType, x)
    ensures forall x :: x in r ==> x.tagType == tagType
    ensures r == Filter(KeepTag(EffectiveQuery(search, defaultQuery), tagType), tags)
  {
    var query := EffectiveQuery(search, defaultQuery);
    FilterIsSubsequence(KeepTag(query, tagType), tags);
    FilterMembership(KeepTag(query, tagType), tags);
    if |query| == 0 then
      FilterAgree(OfType(tagType), KeepTag(query, tagType), tags);
      Filter(OfType(tagType), tags)
    else
      Filter(KeepTag(query, tagType), tags)
  }

  /** With an empty effective query the result is exactly the tags of the selected type, in input order. */
  lemma TagsOfTypeWhenQueryEmpty(search: string, defaultQuery: Option<string>, tagType: string, tags: seq<Tag>)
    requires EffectiveQuery(search, defaultQuery) == ""
    ensures FilterTags(search, defaultQuery, tagType, tags) == Filter(OfType(tagType), tags)
  {
  }

  // ------------------------------------------------------- fronting history

  /** What the fronting-history query parser produces. */
  datatype FrontingHistoryQuery = FrontingHistoryQuery(
    all: bool,
    query: string,
    member: Option<Uuid>,
    currentlyFronting: bool,
    startDate: Option<DateText>,
    endDate: Option<DateText>,
    startDay: Option<int>,
    endDay: Option<int>,
    startMonth: Option<int>,
    endMonth: Option<int>,
    startYear: Option<int>,
    endYear: Option<int>)

  /** `dayjs(x.endTime)`: the end time, or the current time when the entry is still open. */
  function EndOrNow(x: FrontingEntry, now: Instant): Instant
  {
    if x.endTime.Some? then x.endTime.value else now
  }

  /** The checks an entry must pass when the query does not say `all`; `c` is the entry completed with its member. */
  predicate FrontingChecksPass(q: FrontingHistoryQuery, c: FrontingEntryComplete, x: FrontingEntry, now: Instant)
  {
    StartsWith(Lower(c.member.name), Lower(q.query))
    && (!Given(q.member) || x.member == q.member.value)
    && (!q.currentlyFronting || Active(x))
    && DateMatches(q.startDate, x.startTime)
    && DateMatches(q.endDate, EndOrNow(x, now))
    && ComponentMatches(q.startDay, x.startTime.date.day)
    && ComponentMatches(q.endDay, EndOrNow(x, now).date.day)
    && ComponentMatches(q.startMonth, x.startTime.date.month)
    && ComponentMatches(q.endMonth, EndOrNow(x, now).date.month)
    && ComponentMatches(q.startYear, x.startTime.date.year)
    && ComponentMatches(q.endYear, EndOrNow(x, now).date.year)
  }

  /** An entry survives the fronting-history filter. */
  predicate FrontingKept(q: FrontingHistoryQuery, c: FrontingEntryComplete, x: FrontingEntry, now: Instant)
  {
    q.all || FrontingChecksPass(q, c, x, now)
  }

  function KeepFronting(q: FrontingHistoryQuery, complete: FrontingEntry -> FrontingEntryComplete, now: Instant): FrontingEntry -> bool
  {
    x => FrontingKept(q, complete(x), x, now)
  }

  /** The entries the fronting-history view shows: all of them for an empty effective query. */
  function FrontingSelection(search: string, defaultQuery: Option<string>, parse: string -> FrontingHistoryQuery,
                             complete: FrontingEntry -> FrontingEntryComplete, now: Instant, entries: seq<FrontingEntry>): seq<FrontingEntry>
  {
    var query := EffectiveQuery(search, defaultQuery);
    if |query| == 0 then entries else Filter(KeepFronting(parse(query), complete, now), entries)
  }

  /** `getFilteredFrontingEntries`: the loop that completes each entry and pushes the ones no check skips. */
  method FilterFrontingEntries(search: string, defaultQuery: Option<string>, parse: string -> FrontingHistoryQuery,
                               complete: FrontingEntry -> FrontingEntryComplete, now: Instant, entries: seq<FrontingEntry>)
    returns (filtered: seq<FrontingEntryComplete>)
    ensures filtered == Map(complete, FrontingSelection(search, defaultQuery, parse, complete, now, entries))
  {
    filtered := [];
    var query := EffectiveQuery(search, defaultQuery);
    if |query| == 0 {
      for i := 0 to |entries|
        invariant filtered == Map(complete, entries[..i])
      {
        MapStep(complete, entries, i);
        filtered := filtered + [complete(entries[i])];
      }
      assert entries[..|entries|] == entries;
    } else {
      var parsed := parse(query);
      ghost var keep := KeepFronting(parsed, complete, now);
      for i := 0 to |entries|
        invariant filtered == Map(complete, Filter(keep, entries[..i]))
      {
        var x := entries[i];
        var c := complete(x);
        MapFilterStep(complete, keep, entries, i);
        if parsed.all {
          filtered := filtered + [c];
          continue;
        }
        if !StartsWith(Lower(c.member.name), Lower(parsed.query)) {
          continue;
        }
        if Given(parsed.member) && x.member != parsed.member.value {
          continue;
        }
        if parsed.currentlyFronting && x.endTime.Some? {
          continue;
        }
        if !DateMatches(parsed.startDate, x.startTime) {
          continue;
        }
        if !DateMatches(parsed.endDate, EndOrNow(x, now)) {
          continue;
        }
        if !ComponentMatches(parsed.startDay, x.startTime.date.day) {
          continue;
        }
        if !ComponentMatches(parsed.endDay, EndOrNow(x, now).date.day) {
          continue;
        }
        if !ComponentMatches(parsed.startMonth, MonthIndex(x.startTime) + 1) {
          continue;
        }
        if !ComponentMatches(parsed.endMonth, MonthIndex(EndOrNow(x, now)) + 1) {
          continue;
        }
        if !ComponentMatches(parsed.startYear, x.startTime.date.year) {
          continue;
        }
        if !ComponentMatches(parsed.endYear, EndOrNow(x, now).date.year) {
          continue;
        }
        filtered := filtered + [c];
      }
      assert entries[..|entries|] == entries;
    }
  }

  /** The fronting-history selection keeps input order and holds exactly the admitted entries. */
  lemma FrontingSelectionOrdered(search: string, defaultQuery: Option<string>, parse: string -> FrontingHistoryQuery,
                                 complete: FrontingEntry -> FrontingEntryComplete, now: Instant, entries: seq<FrontingEntry>)
    ensures var sel := FrontingSelection(search, defaultQuery, parse, complete, now, entries);
      var query := EffectiveQuery(search, defaultQuery);
      IsSubsequence(sel, entries) &&
      (forall x :: x in sel <==> x in entries && (|query| == 0 || FrontingKept(parse(query), complete(x), x, now))) &&
      (forall x :: multiset(sel)[x] ==
         if |query| == 0 || FrontingKept(parse(query), complete(x), x, now) then multiset(entries)[x] else 0)
  {
    var query := EffectiveQuery(search, defaultQuery);
    if |query| == 0 {
      SubsequenceOfItself(entries);
    } else {
      FilterIsSubsequence(KeepFronting(parse(query), complete, now), entries);
      FilterMembership(KeepFronting(parse(query), complete, now), entries);
      FilterCount(KeepFronting(parse(query), complete, now), entries);
    }
  }

  /** With an empty effective query, or `all` in the parsed one, every entry is shown. */
  lemma FrontingSelectionAll(search: string, defaultQuery: Option<string>, parse: string -> FrontingHistoryQuery,
                             complete: FrontingEntry -> FrontingEntryComplete, now: Instant, entries: seq<FrontingEntry>)
    requires var query := EffectiveQuery(search, defaultQuery); |query| == 0 || parse(query).all
    ensures FrontingSelection(search, defaultQuery, parse, complete, now, entries) == entries
  {
    var query := EffectiveQuery(search, defaultQuery);
    if |query| > 0 {
      FilterKeepsAll(KeepFronting(parse(query), complete, now), entries);
    }
  }

  /** Every shown entry meets each constraint the parsed query gives; the constraints hold independently. */
  lemma FrontingSelectionConstraints(search: string, defaultQuery: Option<string>, parse: string -> FrontingHistoryQuery,
                                     complete: FrontingEntry -> FrontingEntryComplete, now: Instant, entries: seq<FrontingEntry>,
                                     x: FrontingEntry)
    requires var query := EffectiveQuery(search, defaultQuery); |query| > 0 && !parse(query).all
    requires x in FrontingSelection(search, defaultQuery, parse, complete, now, entries)
    ensures var q := parse(EffectiveQuery(search, defaultQuery));
      StartsWith(Lower(complete(x).member.name), Lower(q.query)) &&
      (q.currentlyFronting ==> Active(x)) &&
      (Given(q.member) ==> x.member == q.member.value) &&
      (GivenNumber(q.startDay) ==> x.startTime.date.day == q.startDay.value) &&
      (GivenNumber(q.startMonth) ==> x.startTime.date.month == q.startMonth.value) &&
      (GivenNumber(q.startYear) ==> x.startTime.date.year == q.startYear.value) &&
      (GivenNumber(q.endDay) ==> EndOrNow(x, now).date.day == q.endDay.value) &&
      (GivenNumber(q.endMonth) ==> EndOrNow(x, now).date.month == q.endMonth.value) &&
      (GivenNumber(q.endYear) ==> EndOrNow(x, now).date.year == q.endYear.value)
  {
  }

  /** With an empty name query and no other constraint every entry is shown, in order. */
  lemma FrontingSelectionUnconstrained(search: string, defaultQuery: Option<string>, parse: string -> FrontingHistoryQuery,
                                       complete: FrontingEntry -> FrontingEntryComplete, now: Instant, entries: seq<FrontingEntry>)
    requires var query := EffectiveQuery(search, defaultQuery);
      |query| > 0 ==> parse(query) == FrontingHistoryQuery(false, "", None, false, None, None, None, None, None, None, None, None)
    ensures FrontingSelection(search, defaultQuery, parse, complete, now, entries) == entries
  {
    var query := EffectiveQuery(search, defaultQuery);
    if |query| > 0 {
      var keep := KeepFronting(parse(query), complete, now);
      forall i | 0 <= i < |entries| ensures keep(entries[i]) {
        StartsWithEmpty(Lower(complete(entries[i]).member.name));
      }
      FilterKeepsAll(keep, entries);
    }
  }

  /** Day 15 and month 6 without a year: an entry is shown exactly when it started on June 15 of any year. */
  lemma FrontingDayAndMonthAnyYear(search: string, parse: string -> FrontingHistoryQuery,
                                   complete: FrontingEntry -> FrontingEntryComplete, now: Instant, entries: seq<FrontingEntry>)
    requires |search| > 0
    requires parse(search) == FrontingHistoryQuery(false, "", None, false, None, None, Some(15), None, Some(6), None, None, None)
    ensures forall x :: x in FrontingSelection(search, None, parse, complete, now, entries) <==>
      x in entries && x.startTime.date.month == 6 && x.startTime.date.day == 15
  {
    FrontingSelectionOrdered(search, None, parse, complete, now, entries);
    forall x | x in entries ensures StartsWith(Lower(complete(x).member.name), Lower("")) {
      StartsWithEmpty(Lower(complete(x).member.name));
    }
  }

  // --------------------------------------------------------- board messages

  /** What the board-message query parser produces. */
  datatype BoardMessageQuery = BoardMessageQuery(
    all: bool,
    query: string,
    member: Option<Uuid>,
    date: Option<DateText>,
    day: Option<int>,
    month: Option<int>,
    year: Option<int>)

  /** The space-split lower-cased title, followed by the space-split lower-cased author name. */
  function Tokens(title: string, authorName: string): seq<string>
  {
    Split(Lower(title)) + Split(Lower(authorName))
  }

  /** `tokens.find(t => t.startsWith(prefix))`: the first token with that prefix, if any. */
  function Find(tokens: seq<string>, prefix: string): (r: Option<string>)
    ensures r.Some? ==> r.value in tokens && StartsWith(r.value, prefix)
    ensures r.Some? ==>
      exists i :: (0 <= i < |tokens| && tokens[i] == r.value &&
                   forall j :: 0 <= j < i ==> !StartsWith(tokens[j], prefix))
    ensures r.None? ==> forall t :: t in tokens ==> !StartsWith(t, prefix)
  {
    if |tokens| == 0 then None
    else if StartsWith(tokens[0], prefix) then Some(tokens[0])
    else
      var r := Find(tokens[1..], prefix);
      if r.Some? then
        ghost var i :| 0 <= i < |tokens[1..]| && tokens[1..][i] == r.value &&
          forall j :: 0 <= j < i ==> !StartsWith(tokens[1..][j], prefix);
        assert tokens[i + 1] == r.value;
        assert forall j :: 0 < j < i + 1 ==> tokens[j] == tokens[1..][j - 1];
        r
      else r
  }

  /** The truthiness test on the found token: it must exist and not be `""`. */
  predicate TokenHit(tokens: seq<string>, prefix: string)
  {
    var found := Find(tokens, prefix);
    found.Some? && |found.value| > 0
  }

  /** Token `i` is the one `find` returns, and it is not empty. */
  predicate HitAt(tokens: seq<string>, prefix: string, i: int)
  {
    0 <= i < |tokens| && |tokens[i]| > 0 && StartsWith(tokens[i], prefix) &&
    forall j :: 0 <= j < i ==> !StartsWith(tokens[j], prefix)
  }

  /** A hit is a non-empty token with the prefix before which no token, empty or not, has the prefix. */
  lemma {:induction false} TokenHitMeaning(tokens: seq<string>, prefix: string)
    ensures TokenHit(tokens, prefix) <==> exists i :: HitAt(tokens, prefix, i)
  {
    if |tokens| > 0 {
      if StartsWith(tokens[0], prefix) {
        if |tokens[0]| > 0 {
          assert HitAt(tokens, prefix, 0);
        } else {
          forall i ensures !HitAt(tokens, prefix, i) {
            if 0 < i < |tokens| {
              assert StartsWith(tokens[0], prefix);
            }
          }
        }
      } else {
        var tail := tokens[1..];
        TokenHitMeaning(tail, prefix);
        forall k | HitAt(tail, prefix, k) ensures HitAt(tokens, prefix, k + 1) {
          forall j | 0 <= j < k + 1 ensures !StartsWith(tokens[j], prefix) {
            if j > 0 { assert tokens[j] == tail[j - 1]; }
          }
        }
        forall i | HitAt(tokens, prefix, i) ensures HitAt(tail, prefix, i - 1) {
          assert i > 0;
          forall j | 0 <= j < i - 1 ensures !StartsWith(tail[j], prefix) {
            assert tail[j] == tokens[j + 1];
          }
        }
      }
    }
  }

  /** The checks a message must pass when the query does not say `all`. */
  predicate BoardChecksPass(q: BoardMessageQuery, c: BoardMessageComplete, x: BoardMessage)
  {
    TokenHit(Tokens(x.title, c.member.name), Lower(q.query))
    && (!Given(q.member) || x.member == q.member.value)
    && DateMatches(q.date, x.date)
    && ComponentMatches(q.day, x.date.date.day)
    && ComponentMatches(q.month, x.date.date.month)
    && ComponentMatches(q.year, x.date.date.year)
  }

  /** A message survives the board filter; `c` is the message completed with its author. */
  predicate BoardKept(q: BoardMessageQuery, c: BoardMessageComplete, x: BoardMessage)
  {
    q.all || BoardChecksPass(q, c, x)
  }

  function KeepBoard(q: BoardMessageQuery, complete: BoardMessage -> BoardMessageComplete): BoardMessage -> bool
  {
    x => BoardKept(q, complete(x), x)
  }

  /** The messages the board view shows: all of them for an empty effective query. */
  function BoardSelection(search: string, defaultQuery: Option<string>, parse: string -> BoardMessageQuery,
                          complete: BoardMessage -> BoardMessageComplete, messages: seq<BoardMessage>): seq<BoardMessage>
  {
    var query := EffectiveQuery(search, defaultQuery);
    if |query| == 0 then messages else Filter(KeepBoard(parse(query), complete), messages)
  }

  /** `getFilteredBoardMessages`: the loop that completes each message and pushes the ones no check skips. */
  method FilterBoardMessages(search: string, defaultQuery: Option<string>, parse: string -> BoardMessageQuery,
                             complete: BoardMessage -> BoardMessageComplete, messages: seq<BoardMessage>)
    returns (filtered: seq<BoardMessageComplete>)
    ensures filtered == Map(complete, BoardSelection(search, defaultQuery, parse, complete, messages))
  {
    filtered := [];
    var query := EffectiveQuery(search, defaultQuery);
    if |query| == 0 {
      for i := 0 to |messages|
        invariant filtered == Map(complete, messages[..i])
      {
        MapStep(complete, messages, i);
        filtered := filtered + [complete(messages[i])];
      }
      assert messages[..|messages|] == messages;
    } else {
      var parsed := parse(query);
      ghost var keep := KeepBoard(parsed, complete);
      for i := 0 to |messages|
        invariant filtered == Map(complete, Filter(keep, messages[..i]))
      {
        var x := messages[i];
        var c := complete(x);
        MapFilterStep(complete, keep, messages, i);
        if parsed.all {
          filtered := filtered + [c];
          continue;
        }
        var found := Find(Tokens(x.title, c.member.name), Lower(parsed.query));
        assert TokenHit(Tokens(x.title, c.member.name), Lower(parsed.query)) == (found.Some? && |found.value| > 0);
        if found.None? || |found.value| == 0 {
          continue;
        }
        if Given(parsed.member) && x.member != parsed.member.value {
          continue;
        }
        if !DateMatches(parsed.date, x.date) {
          continue;
        }
        if !ComponentMatches(parsed.day, x.date.date.day) {
          continue;
        }
        if !ComponentMatches(parsed.month, MonthIndex(x.date) + 1) {
          continue;
        }
        if !ComponentMatches(parsed.year, x.date.date.year) {
          continue;
        }
        filtered := filtered + [c];
      }
      assert messages[..|messages|] == messages;
    }
  }

  /** The board selection keeps input order and holds exactly the admitted messages. */
  lemma BoardSelectionOrdered(search: string, defaultQuery: Option<string>, parse: string -> BoardMessageQuery,
                              complete: BoardMessage -> BoardMessageComplete, messages: seq<BoardMessage>)
    ensures var sel := BoardSelection(search, defaultQuery, parse, complete, messages);
      var query := EffectiveQuery(search, defaultQuery);
      IsSubsequence(sel, messages) &&
      (forall x :: x in sel <==> x in messages && (|query| == 0 || BoardKept(parse(query), complete(x), x))) &&
      (forall x :: multiset(sel)[x] ==
         if |query| == 0 || BoardKept(parse(query), complete(x), x) then multiset(messages)[x] else 0)
  {
    var query := EffectiveQuery(search, defaultQuery);
    if |query| == 0 {
      SubsequenceOfItself(messages);
    } else {
      FilterIsSubsequence(KeepBoard(parse(query), complete), messages);
      FilterMembership(KeepBoard(parse(query), complete), messages);
      FilterCount(KeepBoard(parse(query), complete), messages);
    }
  }

  /** With an empty effective query, or `all` in the parsed one, every message is shown. */
  lemma BoardSelectionAll(search: string, defaultQuery: Option<string>, parse: string -> BoardMessageQuery,
                          complete: BoardMessage -> BoardMessageComplete, messages: seq<BoardMessage>)
    requires var query := EffectiveQuery(search, defaultQuery); |query| == 0 || parse(query).all
    ensures BoardSelection(search, defaultQuery, parse, complete, messages) == messages
  {
    var query := EffectiveQuery(search, defaultQuery);
    if |query| > 0 {
      FilterKeepsAll(KeepBoard(parse(query), complete), messages);
    }
  }

  /**
   Every shown message has a non-empty title or author-name token starting with the
   lower-cased query, with no earlier token starting with it, and meets each
   member and date-component constraint given.
   */
  lemma BoardSelectionConstraints(search: string, defaultQuery: Option<string>, parse: string -> BoardMessageQuery,
                                  complete: BoardMessage -> BoardMessageComplete, messages: seq<BoardMessage>, x: BoardMessage)
    requires var query := EffectiveQuery(search, defaultQuery); |query| > 0 && !parse(query).all
    requires x in BoardSelection(search, defaultQuery, parse, complete, messages)
    ensures var q := parse(EffectiveQuery(search, defaultQuery));
      var tokens := Tokens(x.title, complete(x).member.name);
      (exists i :: HitAt(tokens, Lower(q.query), i)) &&
      (Given(q.member) ==> x.member == q.member.value) &&
      (GivenNumber(q.day) ==> x.date.date.day == q.day.value) &&
      (GivenNumber(q.month) ==> x.date.date.month == q.month.value) &&
      (GivenNumber(q.year) ==> x.date.date.year == q.year.value)
  {
    BoardSelectionOrdered(search, defaultQuery, parse, complete, messages);
    var q := parse(EffectiveQuery(search, defaultQuery));
    TokenHitMeaning(Tokens(x.title, complete(x).member.name), Lower(q.query));
  }

  /** The first piece of `split(" ")` is empty exactly when the string is empty or starts with a space. */
  lemma SplitFirstEmpty(s: string)
    ensures |Split(s)[0]| == 0 <==> |s| == 0 || s[0] == ' '
  {
  }

  /**
   With an empty name query the first token always matches, so a message is
   shown only when its title is non-empty and does not start with a space,
   whatever its author is called.
   */
  lemma BoardEmptyQueryNeedsTitle(title: string, authorName: string)
    ensures TokenHit(Tokens(title, authorName), "") <==> |title| > 0 && title[0] != ' '
  {
  }
}
