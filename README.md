# Ampersand: filtered views and fronting entries, in Dafny

Ampersand is a plural-system manager. The system's members take turns
"fronting". A fronting entry records that a member fronted from a start time
to an end time. While the entry has no end time, the member is fronting now.
This project models two parts of the program:

- **The filtered views** (`src/lib/db/search.ts`). These are the lists of
  members, tags, fronting history and board messages. Each list is narrowed
  by a search box. An empty search box falls back to the default query
  configured for that view. The member, fronting-history and board views
  parse a non-empty effective query and keep, in input order, the elements
  the parsed query admits. The fronting-history and board views show every
  element, without parsing, when the effective query is empty. The tag view
  never parses its query: it keeps the tags of the selected type whose name
  starts with the query text.
- **The fronting-entry table** (`src/lib/db/entities/frontingEntries.ts`).
  This covers its in-memory snapshot joined with the members, and the
  operations that change who is fronting:
  - ending a member's current entry;
  - setting the main-fronter flag;
  - making one member the sole fronter;
  - adding an entry under a generated id.

Layout:

| file | module | contents |
|---|---|---|
| `Seqs.dfy` | `Seqs` | order-preserving `Filter` and `Map`, subsequences, loop-step lemmas |
| `Text.dfy` | `Text` | lower-casing, `startsWith`, `split(" ")` and `join(" ")` |
| `Entities.dfy` | `Entities` | the stored records, calendar time, JavaScript truthiness, the date-filter predicates |
| `Search.dfy` | `Search` | the four filtered views |
| `FrontingEntries.dfy` | `FrontingEntries` | the table class, its operations, the joined snapshot and its filter |

Some things the views depend on are not modelled here. They are parameters
that are total functions of their input:

- the query parsers;
- the configured default queries;
- the functions that complete an entry or message with its member.

The current time is also a parameter.

Times are calendar days plus a time of day. This is all the filters look at:
- `startOf("day")` keeps the day;
- `get("date")` reads the day of the month;
- `get("month")` reads the month counted from 0 (`Entities.MonthIndex`);
- `get("year")` reads the year.

A date string in a query is either a day or unparsable. An unparsable date
matches nothing, as dayjs's `NaN` does.

Query fields are tested with JavaScript truthiness. Dafny models this with:
- `Given`: a string that is present and not `""`;
- `GivenNumber`: a number that is present and not `0`.

So an empty or zero field constrains nothing. `isArchived` and
`isCustomFront` are tested against `undefined` instead. For them, `false`
does constrain.

The fronting table is a class, `FrontingEntries.FrontingTable`:
- Its field `rows` is the table in primary-key order. Its invariant is that
  the `uuid`s are unique.
- `update(key, changes)` patches the row with that key.
- `add` appends a row. It fails when the key is already taken.
- Each operation's final state is given by a specification function:
  `RemoveFronterResult`, `MainFronterResult` or `SoleFronterResult`.
- Lemmas state what those functions guarantee under the business rule "a
  member has at most one active entry" (`AtMostOneActivePerMember`).

The operations read the in-memory snapshot, `frontingEntries.value`. The
model takes that snapshot to equal the table when the operation starts.
`setSoleFronter` consults the snapshot again after its updates. That is
sound because the updates never touch the target member's own entries.
`FrontingEntries.CurrentIndexAgree` proves this. Where the source reads the
joined snapshot through `x.member.uuid`, the model reads the row's member
id. `FrontingEntries.JoinRoundTrip` shows that the join preserves that id
for every row whose member is in the members list. For an active row whose
member is missing, the source's `x.member.uuid` throws; that case is under
"## Left out". An ended row is never read that far, since the end-time test
comes first and `&&` short-circuits.

One behaviour of the board filter is modelled as written. It looks like a
slip, but its intent cannot be known:
- The name test keeps a message when `find` returns a token that starts with
  the query. A returned empty token is falsy.
- With an empty name query, the first title token is always the one
  returned. So a message whose title is empty or starts with a space is
  dropped, for example when filtering only by date or by member.
- `Search.BoardEmptyQueryNeedsTitle` states this.

`getFrontingEntriesFromFilterQuery` reads fields named `dateString`, `day`,
`month` and `year` from its parsed query. `query` and `currentlyFronting`
are read as well. Its parser is imported under another name, and the parser
is not part of this model. So its query is a record of its own with exactly
those fields: `FrontingEntries.EntryFilterQuery`.

## Model

| member | source | states |
|---|---|---|
| Search.EffectiveQuery | src/lib/db/search.ts:17-21 | the search text when non-empty; otherwise the configured default, or `""` when there is none |
| Search.HasEveryTagMeaning | src/lib/db/search.ts:53-58 | the loop over the required tags passes exactly when every required tag is among the member's tags |
| Search.MemberKeptMeaning | src/lib/db/search.ts:25-61 | the member callback with its early returns is: `all`, or the case-insensitive name prefix matches, and each given field (pronouns, role, archived, custom front, tags) matches |
| Search.FilterMembers | src/lib/db/search.ts:17-61 | the members shown are an order-preserving subsequence of the input; a member is shown exactly when the parsed effective query admits it, as many times as it occurs in the input |
| Search.MembersAllKept | src/lib/db/search.ts:27-28 | with `all`, every member is shown, in order |
| Search.MemberFieldFilters | src/lib/db/search.ts:33-58 | a shown member has the given pronouns and role (case-insensitively) and every required tag |
| Search.PronounsExample | src/lib/db/search.ts:33-36 | of a member with pronouns "she" and one with "he", `pronouns:she` shows only the first |
| Search.FilterTags | src/lib/db/search.ts:75-86 | the tags shown are an order-preserving subsequence, all of the selected type, and they are exactly the tags whose lower-cased name starts with the lower-cased query; both branches are one filter |
| Search.TagsOfTypeWhenQueryEmpty | src/lib/db/search.ts:83-84 | with an empty effective query, the tags shown are exactly those of the selected type |
| Search.FilterFrontingEntries | src/lib/db/search.ts:99-180 | the loop pushes the completed form of exactly the selected entries, in input order: all entries for an empty query, else those the parsed query admits |
| Search.FrontingSelectionOrdered | src/lib/db/search.ts:107-177 | the fronting selection is an order-preserving subsequence; an entry is in it, as many times as in the input, exactly when the query is empty or admits it |
| Search.FrontingSelectionAll | src/lib/db/search.ts:107-119 | with an empty query or `all`, every entry is shown |
| Search.FrontingSelectionConstraints | src/lib/db/search.ts:121-174 | a shown entry meets each given constraint: name prefix, member, currently fronting, and the start and end day, month and year; the end is the current time while the entry is open |
| Search.FrontingSelectionUnconstrained | src/lib/db/search.ts:121-176 | a parsed query with no constraint shows every entry |
| Search.FrontingDayAndMonthAnyYear | src/lib/db/search.ts:146-160 | day 15 and month 6 with no year show exactly the entries that started on June 15 of any year (the 0-based month is shifted back) |
| Search.Find | src/lib/db/search.ts:217-221 | `find` returns the first token that starts with the prefix, or nothing when no token does |
| Search.TokenHitMeaning | src/lib/db/search.ts:217-223 | the name test passes exactly when the first token with the prefix exists and is non-empty |
| Search.FilterBoardMessages | src/lib/db/search.ts:193-255 | the loop pushes the completed form of exactly the selected messages, in input order: all messages for an empty query, else those the parsed query admits |
| Search.BoardSelectionOrdered | src/lib/db/search.ts:203-252 | the board selection is an order-preserving subsequence; a message is in it, as many times as in the input, exactly when the query is empty or admits it |
| Search.BoardSelectionAll | src/lib/db/search.ts:203-215 | with an empty query or `all`, every message is shown |
| Search.BoardSelectionConstraints | src/lib/db/search.ts:217-249 | a shown message has a non-empty title or author token starting with the lower-cased query, with no earlier token starting with it; it also meets the member, day, month and year constraints |
| Search.SplitFirstEmpty | src/lib/db/search.ts:219-220 | the first piece of `split(" ")` is empty exactly when the text is empty or starts with a space |
| Search.BoardEmptyQueryNeedsTitle | src/lib/db/search.ts:217-223 | with an empty name query, a message passes the name test exactly when its title is non-empty and does not start with a space, whoever its author is |
| Text.Lower | src/lib/db/search.ts:30 | `toLowerCase` keeps the length, maps each ASCII capital to its lower-case letter and leaves every other character alone |
| Text.StartsWithLower | src/lib/db/entities/frontingEntries.ts:113 | in this ASCII model, a case-sensitive prefix match is also a case-insensitive one, so the snapshot filter admits no more names than the view's does |
| Text.Split | src/lib/db/search.ts:219-220 | `split(" ")` gives at least one piece, and no piece contains a space |
| Text.JoinSplit | src/lib/db/search.ts:219-220 | joining the pieces of `split(" ")` with spaces gives back the text |
| Text.SplitJoin | src/lib/db/search.ts:219-220 | splitting a space-join of space-free pieces gives back the pieces |
| Seqs.FilterIsSubsequence | src/lib/db/search.ts:25 | `filter` keeps an order-preserving subsequence |
| Seqs.FilterMembership | src/lib/db/search.ts:25 | an element survives `filter` exactly when it is in the input and the callback accepts it |
| Seqs.FilterCount | src/lib/db/search.ts:25 | `filter` keeps every copy of an accepted element and no copy of a rejected one |
| Seqs.Map | src/lib/db/entities/frontingEntries.ts:30 | `map` keeps the length and maps each element in place |
| FrontingEntries.GetCurrentFrontEntryForMember | src/lib/db/entities/frontingEntries.ts:101-105 | nothing is found exactly when the member has no entry without an end time; otherwise the result is the first such entry |
| FrontingEntries.CurrentIndexAgree | src/lib/db/entities/frontingEntries.ts:86-92 | two tables that agree, row for row, on which rows are the member's active ones give the same current index, so the second lookup in `setSoleFronter` finds the member's current entry at the same position as before the updates |
| FrontingEntries.SelectedIds | src/lib/db/entities/frontingEntries.ts:68 | with unique keys, a row's uuid is in the list `filter(...).map(x => x.uuid)` exactly when the row passes the filter |
| FrontingEntries.FrontingTable.Update | src/lib/db/entities/frontingEntries.ts:58-60 | `update(key, changes)` applies the changes to the row with that key and keeps keys unique |
| FrontingEntries.FrontingTable.UpdateEach | src/lib/db/entities/frontingEntries.ts:70-74 | updating each listed key in turn changes exactly the rows whose key is listed, each once |
| FrontingEntries.FrontingTable.NewFrontingEntry | src/lib/db/entities/frontingEntries.ts:46-52 | the row is appended under `genid(member, startTime)` exactly when that id is not taken; otherwise the table is unchanged |
| FrontingEntries.FrontingTable.RemoveFronter | src/lib/db/entities/frontingEntries.ts:54-61 | only the member's current entry is stamped with end time `now`; with no current entry nothing changes |
| FrontingEntries.FrontingTable.SetMainFronter | src/lib/db/entities/frontingEntries.ts:63-80 | with no current entry nothing changes; otherwise, when `value` is set, every other member's active entry loses the flag, and the member's current entry takes `value` |
| FrontingEntries.FrontingTable.SetSoleFronter | src/lib/db/entities/frontingEntries.ts:82-99 | every other member's active entry ends at one shared time; a member with no active entry gets a new open entry starting at that time, provided its generated id is not already a key |
| FrontingEntries.RemoveFronterEndsMember | src/lib/db/entities/frontingEntries.ts:54-61 | afterwards the member has no active entry, and the one-active-entry rule still holds |
| FrontingEntries.RemoveFronterIdempotent | src/lib/db/entities/frontingEntries.ts:54-61 | removing a fronter twice is removing once |
| FrontingEntries.RemoveFronterChangesOneEndTime | src/lib/db/entities/frontingEntries.ts:58-60 | each row is unchanged, except the member's active entry, which gains the end time |
| FrontingEntries.MainFronterLeavesOneMain | src/lib/db/entities/frontingEntries.ts:67-79 | after making a member main fronter, the member's current entry is the only active entry flagged main |
| FrontingEntries.MainFronterTouchesOnlyFlags | src/lib/db/entities/frontingEntries.ts:68-79 | only the `isMainFronter` flag changes, and never on an ended entry |
| FrontingEntries.MainFronterClearOnlyTarget | src/lib/db/entities/frontingEntries.ts:67-79 | clearing the flag changes only the member's current entry |
| FrontingEntries.MainFronterKeepsInvariant | src/lib/db/entities/frontingEntries.ts:63-80 | setting the flag keeps the one-active-entry rule |
| FrontingEntries.SoleFronterEndsOthers | src/lib/db/entities/frontingEntries.ts:83-90 | afterwards every active entry is the member's; other members' active entries end at `now`; all other rows are unchanged |
| FrontingEntries.SoleFronterStartsMember | src/lib/db/entities/frontingEntries.ts:92-98 | when the generated id of the new entry is not already a key, a member who was not fronting gets exactly one new entry, open, not main, starting now, and it is the only active entry |
| FrontingEntries.SoleFronterKeepsCurrent | src/lib/db/entities/frontingEntries.ts:92 | a member who was fronting keeps their entry as it was, and no row is added |
| FrontingEntries.SoleFronterLeavesOnlyMember | src/lib/db/entities/frontingEntries.ts:82-99 | under the one-active-entry rule, and provided the generated id is free whenever a new entry must be added, afterwards exactly one entry is active, and it is the member's |
| FrontingEntries.FindMember | src/lib/db/entities/frontingEntries.ts:32 | `members.find(y => y.uuid === id)` returns the first member with that uuid, or nothing when there is none |
| FrontingEntries.UpdateFrontingEntriesRef | src/lib/db/entities/frontingEntries.ts:28-34 | the snapshot has one entry per row, in table order, with every field kept; the member is the first member in the list with the row's member uuid, and `undefined` exactly when no member has that uuid |
| FrontingEntries.JoinRoundTrip | src/lib/db/entities/frontingEntries.ts:30-33 | a row whose member is in the list is rebuilt from its snapshot entry alone; a row whose member is not loses its member id |
| FrontingEntries.GetFrontingEntriesFromFilterQuery | src/lib/db/entities/frontingEntries.ts:106-144 | it throws exactly when some snapshot entry's member is `undefined`; otherwise the result is an order-preserving subsequence holding every copy of the entries that match case-sensitively, and nothing else |
| FrontingEntries.EntryFilterIsCaseSensitive | src/lib/db/entities/frontingEntries.ts:113 | the query "an" does not select a member named "Ann" |

## Left out

- Vue reactivity is not modelled. This covers `watch`, `ref`, `shallowRef` and `liveQuery`. Each view is modelled as one evaluation of its watcher body on the current inputs.
- `async`/`await` is not modelled. Operations run to completion one at a time, with no interleaving.
- The query parsers and `appConfig.defaultFilterQueries` are not part of this model. They are parameters.
- `toFrontingEntryComplete` and `toBoardMessageComplete` are parameters. They are total, so a failure to find the member is not modelled in the two history views.
- dayjs and time zones are not modelled. An instant is its local calendar day and time of day. Date-string parsing is a parameter, and its result is a day or "unparsable".
- Text.Lower: lower-cases ASCII letters only. `toLowerCase` also folds other Unicode letters, which this model does not do.
- `makeUUIDv5` and the system UUID are not part of this model. `genid` is an uninterpreted function of the member and start time. The string concatenation `member + startTime.getTime()` is folded into it.
- The `TypeError` is not modelled for the table operations that read the snapshot. This is the error thrown when an active entry's member is missing from the members list. The model reads rows directly. `GetFrontingEntriesFromFilterQuery` does model its throw.
- FrontingEntries.SoleFronterLeavesOnlyMember: assumes the generated id of the new entry is not already a key. When it is taken, `add` rejects, and a member who was not fronting is left with no active entry at all, so "the member ends up the sole fronter" is not promised in that case.
- FrontingEntries.FrontingTable.NewFrontingEntry: a rejected `add` is reported as `added == false` with the table unchanged. The rejection is not propagated as a thrown error to the caller.
- Dexie keeps `toArray()` in primary-key order. The model appends new rows at the end, so only membership and the relative order of existing rows are faithful for rows added later.
- Board-message fields other than `uuid`, `member`, `title` and `date` are not modelled, since no filter reads them.
- The `console.log` in `getFrontingEntriesFromFilterQuery` is not modelled.
- `src/lib/db/impl/dexie/members.ts` is not part of this model.
