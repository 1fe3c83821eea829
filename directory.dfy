/** The pure list logic of App.tsx: the view filter behind `filteredGroups`,
    the mapping of fetched rows into groups, and the two list transforms the
    optimistic updates hand to `setGroups` (remove by id, replace by id). */
module Directory {
  import opened Types
  import opened Text
  import opened Seqs

  // ---------------------------------------------------------------------
  // View filter (App.tsx:66-73)
  // ---------------------------------------------------------------------

  /** `matchesSearch`: the lower-cased query occurs, at some position, in
      the lower-cased name or in the lower-cased description. */
  predicate MatchesSearch(g: Group, query: string): (r: bool)
    ensures r <==> Occurs(Lower(g.name), Lower(query)) || Occurs(Lower(g.description), Lower(query))
  {
    IncludesIffOccurs(Lower(g.name), Lower(query));
    IncludesIffOccurs(Lower(g.description), Lower(query));
    Includes(Lower(g.name), Lower(query)) || Includes(Lower(g.description), Lower(query))
  }

  /** `matchesCategory`: the selector is 'All', or names exactly the group's category. */
  predicate MatchesCategory(g: Group, selected: CategoryFilter): (r: bool)
    ensures r <==> selected == All || selected == Only(g.category)
  {
    selected.All? || g.category == selected.category
  }

  predicate Matches(g: Group, query: string, selected: CategoryFilter) {
    MatchesSearch(g, query) && MatchesCategory(g, selected)
  }

  function MatchPredicate(query: string, selected: CategoryFilter): Group -> bool {
    (g: Group) => Matches(g, query, selected)
  }

  /** `groups.filter(...)` with the search and category tests ANDed. */
  function FilterGroups(groups: seq<Group>, query: string, selected: CategoryFilter): (r: seq<Group>)
    ensures |r| <= |groups|
    ensures forall i :: 0 <= i < |r| ==> Matches(r[i], query, selected)
  {
    FilterBy(groups, MatchPredicate(query, selected))
  }

  /** The view keeps exactly the matching groups, each as often as it occurs
      in the list, and in the list's order. */
  lemma FilterGroupsExact(groups: seq<Group>, query: string, selected: CategoryFilter, g: Group)
    ensures IsSubsequence(FilterGroups(groups, query, selected), groups)
    ensures multiset(FilterGroups(groups, query, selected))[g]
            == if Matches(g, query, selected) then multiset(groups)[g] else 0
    ensures g in FilterGroups(groups, query, selected) <==> g in groups && Matches(g, query, selected)
  {
    FilterBySubsequence(groups, MatchPredicate(query, selected));
    FilterByCount(groups, MatchPredicate(query, selected), g);
    FilterByMember(groups, MatchPredicate(query, selected), g);
  }

  /** Every group is displayed exactly when it is listed and matches. */
  lemma FilterGroupsMembers(groups: seq<Group>, query: string, selected: CategoryFilter)
    ensures forall g :: g in FilterGroups(groups, query, selected) <==> g in groups && Matches(g, query, selected)
  {
    forall g ensures (g in FilterGroups(groups, query, selected) <==> g in groups && Matches(g, query, selected)) {
      FilterGroupsExact(groups, query, selected, g);
    }
  }

  /** With an empty query and 'All' the view is the whole list. */
  lemma FilterGroupsShowsAll(groups: seq<Group>)
    ensures FilterGroups(groups, "", All) == groups
  {
    assert Lower("") == "";
    forall i | 0 <= i < |groups| ensures MatchPredicate("", All)(groups[i]) {
      IncludesEmpty(Lower(groups[i].name));
    }
    FilterByKeepsAll(groups, MatchPredicate("", All));
  }

  /** Selecting one category narrows the 'All' view to a subsequence whose
      groups all have that category. */
  lemma FilterGroupsCategoryNarrows(groups: seq<Group>, query: string, c: Category)
    ensures IsSubsequence(FilterGroups(groups, query, Only(c)), FilterGroups(groups, query, All))
    ensures forall g :: g in FilterGroups(groups, query, Only(c)) ==> g.category == c
  {
    FilterByNarrower(groups, MatchPredicate(query, Only(c)), MatchPredicate(query, All));
  }

  /** The search ignores the case of the query. */
  lemma FilterGroupsIgnoresQueryCase(groups: seq<Group>, query: string, selected: CategoryFilter)
    ensures FilterGroups(groups, Lower(query), selected) == FilterGroups(groups, query, selected)
  {
    LowerIdempotent(query);
    FilterBySamePredicate(groups, MatchPredicate(Lower(query), selected), MatchPredicate(query, selected));
  }

  // ---------------------------------------------------------------------
  // Row mapping (App.tsx:41-51)
  // ---------------------------------------------------------------------

  /** A row as the remote store returns it. The count and the flag may come
      under a camelCase or an all-lowercase column; `None` is a column that
      is absent or null. `createdAt` is the already parsed timestamp. */
  datatype Row = Row(
    id: string,
    name: string,
    description: string,
    link: string,
    category: Category,
    membersCount: Option<int>,
    memberscount: Option<int>,
    isVerified: Option<bool>,
    isverified: Option<bool>,
    createdAt: int)

  /** JavaScript truthiness of a number column (0 and null are falsy). */
  predicate NumberTruthy(v: Option<int>) {
    v.Some? && v.value != 0
  }

  /** JavaScript truthiness of a boolean column (false and null are falsy). */
  predicate BoolTruthy(v: Option<bool>) {
    v == Some(true)
  }

  /** `a || b || 0` on two number columns. */
  function NumberOr(a: Option<int>, b: Option<int>): int {
    if NumberTruthy(a) then a.value else if NumberTruthy(b) then b.value else 0
  }

  /** `a || b || false` on two boolean columns. */
  function BoolOr(a: Option<bool>, b: Option<bool>): bool {
    if BoolTruthy(a) then true else if BoolTruthy(b) then true else false
  }

  /** One row turned into a group: the text fields, the category and the
      timestamp are copied; the count and the flag prefer the camelCase
      column, fall back to the lowercase one, and default to 0 and false. */
  function MapRow(d: Row): (g: Group)
    ensures g.id == d.id && g.name == d.name && g.description == d.description
    ensures g.link == d.link && g.category == d.category && g.createdAt == d.createdAt
    ensures NumberTruthy(d.membersCount) ==> g.membersCount == d.membersCount.value
    ensures !NumberTruthy(d.membersCount) && NumberTruthy(d.memberscount) ==> g.membersCount == d.memberscount.value
    ensures g.membersCount == 0 <==> !NumberTruthy(d.membersCount) && !NumberTruthy(d.memberscount)
    ensures g.isVerified <==> d.isVerified == Some(true) || d.isverified == Some(true)
  {
    Group(d.id, d.name, d.description, d.link, d.category,
          NumberOr(d.membersCount, d.memberscount),
          BoolOr(d.isVerified, d.isverified),
          d.createdAt)
  }

  /** `data.map(...)`: every row mapped, in the order the store returned them. */
  function MapRows(rows: seq<Row>): (gs: seq<Group>)
    ensures |gs| == |rows|
    ensures forall i :: 0 <= i < |rows| ==> gs[i] == MapRow(rows[i])
    ensures forall i :: 0 <= i < |rows| ==> gs[i].id == rows[i].id
  {
    MapSeq(rows, MapRow)
  }

  /** The row of a group stored under the camelCase columns, as the insert
      of App.tsx:100-108 writes it. */
  function CamelCaseRow(g: Group): Row {
    Row(g.id, g.name, g.description, g.link, g.category,
        Some(g.membersCount), None, Some(g.isVerified), None, g.createdAt)
  }

  /** The same group stored under the lowercase column names. */
  function LowerCaseRow(g: Group): Row {
    Row(g.id, g.name, g.description, g.link, g.category,
        None, Some(g.membersCount), None, Some(g.isVerified), g.createdAt)
  }

  /** Mapping gives back the group whichever column casing stored it; a
      stored count of 0 and a stored `false` survive through the defaults. */
  lemma MapRowRoundTrip(g: Group)
    ensures MapRow(CamelCaseRow(g)) == g
    ensures MapRow(LowerCaseRow(g)) == g
  {
  }

  /** A non-negative count in both columns yields a non-negative count. */
  lemma MapRowCountNonNegative(d: Row)
    requires d.membersCount.Some? ==> d.membersCount.value >= 0
    requires d.memberscount.Some? ==> d.memberscount.value >= 0
    ensures MapRow(d).membersCount >= 0
  {
  }

  // ---------------------------------------------------------------------
  // Optimistic list transforms (App.tsx:134 and App.tsx:152)
  // ---------------------------------------------------------------------

  /** No two groups of the list share an id. */
  predicate UniqueIds(groups: seq<Group>) {
    forall i, j :: 0 <= i < j < |groups| ==> groups[i].id != groups[j].id
  }

  predicate HasId(groups: seq<Group>, id: string) {
    exists i :: 0 <= i < |groups| && groups[i].id == id
  }

  function OtherId(id: string): Group -> bool {
    (g: Group) => g.id != id
  }

  /** `prev.filter(g => g.id !== id)`. */
  function RemoveById(groups: seq<Group>, id: string): (r: seq<Group>)
    ensures |r| <= |groups|
    ensures forall i :: 0 <= i < |r| ==> r[i].id != id
  {
    FilterBy(groups, OtherId(id))
  }

  /** After the removal no group has the id, every other group remains, as
      often as before and in its original relative order. */
  lemma RemoveByIdKeepsOthers(groups: seq<Group>, id: string, g: Group)
    ensures IsSubsequence(RemoveById(groups, id), groups)
    ensures g in RemoveById(groups, id) <==> g in groups && g.id != id
    ensures multiset(RemoveById(groups, id))[g] == if g.id == id then 0 else multiset(groups)[g]
  {
    FilterBySubsequence(groups, OtherId(id));
    FilterByMember(groups, OtherId(id), g);
    FilterByCount(groups, OtherId(id), g);
  }

  /** Removing an id that no group has leaves the list as it is. */
  lemma RemoveByIdAbsent(groups: seq<Group>, id: string)
    requires !HasId(groups, id)
    ensures RemoveById(groups, id) == groups
  {
    FilterByKeepsAll(groups, OtherId(id));
  }

  /** The tail of a list with unique ids has unique ids, none of them the head's. */
  lemma TailUnique(groups: seq<Group>)
    requires groups != [] && UniqueIds(groups)
    ensures UniqueIds(groups[1..])
    ensures forall k :: 0 <= k < |groups| - 1 ==> groups[1..][k].id != groups[0].id
  {
    forall i, j | 0 <= i < j < |groups| - 1 ensures groups[1..][i].id != groups[1..][j].id {
      assert groups[i + 1].id != groups[j + 1].id;
    }
    forall k | 0 <= k < |groups| - 1 ensures groups[1..][k].id != groups[0].id {
      assert groups[0].id != groups[k + 1].id;
    }
  }

  /** Putting a group whose id is new in front keeps ids unique. */
  lemma ConsUnique(g: Group, rest: seq<Group>)
    requires UniqueIds(rest)
    requires forall k :: 0 <= k < |rest| ==> rest[k].id != g.id
    ensures UniqueIds([g] + rest)
  {
    var r := [g] + rest;
    forall i, j | 0 <= i < j < |r| ensures r[i].id != r[j].id {
      if i > 0 {
        assert rest[i - 1].id != rest[j - 1].id;
      } else {
        assert rest[j - 1].id != g.id;
      }
    }
  }

  /** An id is listed when the head or some group of the tail has it. */
  lemma HasIdCons(groups: seq<Group>, id: string)
    requires groups != []
    ensures HasId(groups, id) <==> groups[0].id == id || HasId(groups[1..], id)
  {
    if HasId(groups[1..], id) {
      var i :| 0 <= i < |groups| - 1 && groups[1..][i].id == id;
      assert groups[i + 1].id == id;
    }
    if HasId(groups, id) && groups[0].id != id {
      var i :| 0 <= i < |groups| && groups[i].id == id;
      assert groups[1..][i - 1].id == id;
    }
  }

  /** On a list with unique ids the removal keeps ids unique and removes
      exactly one group when the id is present. */
  lemma {:induction false} RemoveByIdUnique(groups: seq<Group>, id: string)
    requires UniqueIds(groups)
    ensures UniqueIds(RemoveById(groups, id))
    ensures |RemoveById(groups, id)| == if HasId(groups, id) then |groups| - 1 else |groups|
  {
    if groups != [] {
      var tail := groups[1..];
      TailUnique(groups);
      HasIdCons(groups, id);
      RemoveByIdUnique(tail, id);
      var rest := RemoveById(tail, id);
      if groups[0].id == id {
        assert RemoveById(groups, id) == rest;
      } else {
        assert RemoveById(groups, id) == [groups[0]] + rest;
        forall k | 0 <= k < |rest| ensures rest[k].id != groups[0].id {
          RemoveByIdKeepsOthers(tail, id, rest[k]);
        }
        ConsUnique(groups[0], rest);
      }
    }
  }

  function ReplaceIfSameId(updated: Group): Group -> Group {
    (g: Group) => if g.id == updated.id then updated else g
  }

  /** `prev.map(g => g.id === updated.id ? updated : g)`. */
  function ReplaceById(groups: seq<Group>, updated: Group): (r: seq<Group>)
    ensures |r| == |groups|
    ensures forall i :: 0 <= i < |groups| ==> r[i].id == groups[i].id
    ensures forall i :: 0 <= i < |groups| && groups[i].id == updated.id ==> r[i] == updated
    ensures forall i :: 0 <= i < |groups| && groups[i].id != updated.id ==> r[i] == groups[i]
  {
    MapSeq(groups, ReplaceIfSameId(updated))
  }

  /** The replacement keeps the ids in place, so unique ids stay unique. */
  lemma ReplaceByIdUnique(groups: seq<Group>, updated: Group)
    requires UniqueIds(groups)
    ensures UniqueIds(ReplaceById(groups, updated))
  {
  }

  /** When a group with the id is listed, the updated group is visible at
      once; when none is, the list is unchanged. */
  lemma ReplaceByIdVisible(groups: seq<Group>, updated: Group)
    ensures HasId(groups, updated.id) ==> updated in ReplaceById(groups, updated)
    ensures !HasId(groups, updated.id) ==> ReplaceById(groups, updated) == groups
  {
  }

  /** Applying the same replacement twice is applying it once. */
  lemma ReplaceByIdIdempotent(groups: seq<Group>, updated: Group)
    ensures ReplaceById(ReplaceById(groups, updated), updated) == ReplaceById(groups, updated)
  {
  }
}
