# WhatsHub directory: client state model

A Dafny model of the client-side state logic of the WhatsHub group
directory (`App.tsx`). The directory lists community chat groups fetched from
a remote store. Visitors can search and filter the list. An operator behind
an admin password toggle can create, edit, delete and verify entries.

The model has five modules:

- `Types` (`types.dfy`) is the entity model of `types.ts`: the eight
  `Category` values, the `Group` record, and the form's field set
  `GroupFields`.
- `Text` (`text.dfy`) holds the two string operations the search uses. They
  are `toLowerCase` (ASCII letters only) and `includes`. Their lemmas relate
  `includes` to "occurs at some position".
- `Seqs` (`seqs.dfy`) holds the array operations `filter` and `map` as
  recursive functions. Lemmas state that a filter keeps an order-preserving
  subsequence with exactly the accepted elements.
- `Directory` (`directory.dfy`) holds the pure list logic. This is the view
  filter behind `filteredGroups`, the mapping of fetched rows into groups,
  and the two transforms the optimistic updates give to `setGroups`: remove
  by id and replace by id.
- `AppComponent` (`app.dfy`) holds the component itself. Its class `App`
  has one field per React state hook, and one method per handler:
  `fetchGroups`, `handleAddGroup`, `handleDeleteGroup`, `handleUpdateGroup`,
  `handleEditClick`, `toggleAdmin`, plus the inline modal and filter
  handlers.

Remote calls are not executed. `const hasClient` says whether the store
client is configured. Each handler returns the `Write` request it sends, and
takes the store's answer as an input (`remoteOk`, or a `FetchResponse` for
the list query). The admin prompt's answer is an input (`None` when the
prompt is cancelled). Each alert is an output flag.

Behaviour of `App.tsx` worth noting, which the model keeps:

- A successful reload does not clear an earlier error. `error` is never set
  back to null, so once set the error banner stays.
- The verify toggle replaces the whole listed group with the group it was
  given. It does not patch one field.
- An edit sends all six form fields, including the form's `isVerified`.
- The row's category is cast without a check.

## Model

| member | source | states |
|---|---|---|
| Text.Lower | App.tsx:68-69 | `toLowerCase` keeps the length and lower-cases each character on its own |
| Text.LowerIdempotent | App.tsx:68-69 | lower-casing an already lower-cased string changes nothing |
| Text.Includes | App.tsx:68-69 | `includes` only finds a needle no longer than the text, and always finds a prefix of the text |
| Text.IncludesHasOccurrence | App.tsx:68-69 | when `includes` holds, the needle occurs at some position of the text |
| Text.OccurrenceIsIncluded | App.tsx:68-69 | a needle that occurs at any position is found by `includes` |
| Text.IncludesIffOccurs | App.tsx:68-69 | `includes` holds exactly when the needle occurs at some position (both directions) |
| Text.IncludesEmpty | App.tsx:68-69 | the empty query is included in every string, so it matches every group |
| Seqs.FilterBy | App.tsx:67-72 | `filter` returns at most as many elements as it got, each accepted by the predicate |
| Seqs.MapSeq | App.tsx:41-51 | `map` keeps the length, and position i of the result is the function applied to position i of the input |
| Seqs.FilterBySubsequence | App.tsx:67-72 | the filter result is an order-preserving subsequence of the input |
| Seqs.FilterByCount | App.tsx:67-72 | an accepted value occurs in the result as often as in the input; a rejected value does not occur |
| Seqs.FilterByMember | App.tsx:67-72 | an element is in the result exactly when it is in the input and accepted |
| Seqs.FilterByKeepsAll | App.tsx:67-72 | a filter that accepts every element returns its input unchanged |
| Seqs.FilterByNarrower | App.tsx:70 | a stronger predicate selects a subsequence of what a weaker one selects |
| Seqs.FilterBySamePredicate | App.tsx:67-72 | two predicates that agree on every element give the same result |
| Directory.MatchesSearch | App.tsx:68-69 | `matchesSearch` holds exactly when the lower-cased query occurs at some position of the lower-cased name or of the lower-cased description |
| Directory.MatchesCategory | App.tsx:70 | `matchesCategory` holds exactly when the selector is 'All' or names the group's own category |
| Directory.FilterGroups | App.tsx:66-73 | every displayed group matches the search (name or description) and the category selector |
| Directory.FilterGroupsExact | App.tsx:66-73 | the view is an order-preserving subsequence of the list. It holds each matching group as often as the list does, and no other group |
| Directory.FilterGroupsMembers | App.tsx:66-73 | a group is in the view exactly when it is in the list and passes both tests |
| Directory.FilterGroupsShowsAll | App.tsx:68-70 | with an empty query and 'All', the view is the whole list unchanged |
| Directory.FilterGroupsCategoryNarrows | App.tsx:70 | the view for one category is a subsequence of the 'All' view for the same query, and every group in it has that category |
| Directory.FilterGroupsIgnoresQueryCase | App.tsx:68-69 | a query and its lower-cased form give the same view |
| Directory.MapRow | App.tsx:41-51 | id, name, description, link, category and timestamp are copied. The count is the camelCase column if truthy, else the lowercase one if truthy, else 0. The flag is true exactly when either column is true |
| Directory.MapRows | App.tsx:41-51 | every row is mapped, same length, in the store's order, ids kept |
| Directory.MapRowRoundTrip | App.tsx:41-51 | a group stored under camelCase columns (as the insert at App.tsx:100-108 writes it), or under lowercase ones, maps back to the same group |
| Directory.MapRowCountNonNegative | App.tsx:48 | non-negative count columns give a non-negative count |
| Directory.RemoveById | App.tsx:134 | no group left after the removal has the deleted id |
| Directory.RemoveByIdKeepsOthers | App.tsx:134 | the removal keeps every other group, as often as before and in its original relative order |
| Directory.RemoveByIdAbsent | App.tsx:134 | removing an id that no group has leaves the list unchanged |
| Directory.RemoveByIdUnique | App.tsx:134 | on a list with unique ids, the removal keeps ids unique. It removes exactly one group when the id is present |
| Directory.ReplaceById | App.tsx:152 | same length, ids in place; each group with the updated id becomes the updated group, every other group is unchanged |
| Directory.ReplaceByIdUnique | App.tsx:152 | the replacement keeps a list's ids unique |
| Directory.ReplaceByIdVisible | App.tsx:152 | when the id is listed, the updated group is in the list at once; otherwise the list is unchanged |
| Directory.ReplaceByIdIdempotent | App.tsx:152 | replacing twice with the same group is replacing once |
| AppComponent.SaveWrite | App.tsx:81-108 | a save sends an update of the edited group's id exactly when a group is being edited. Otherwise it sends an insert of the form fields with `isVerified` false |
| AppComponent.NextAdminMode | App.tsx:163-170 | after a toggle, admin mode is on exactly when it was off and the prompt returned "admin" |
| AppComponent.WrongPasswordAlert | App.tsx:166-172 | the wrong-password alert is raised exactly when entering with a non-empty answer other than "admin". Admin mode then stays off |
| AppComponent.App.constructor | App.tsx:11-20 | the initial state: empty list, loading, no error, modal closed, nothing edited, empty search over 'All', admin mode off |
| AppComponent.App.FilteredGroups | App.tsx:66-73 | the displayed list holds exactly the listed groups that match the current query and category |
| AppComponent.App.SetSearchQuery | App.tsx:216 | the search input sets the query and nothing else |
| AppComponent.App.SelectCategory | App.tsx:224-236 | a category button sets the selector and nothing else |
| AppComponent.App.FetchGroups | App.tsx:23-60 | always ends with loading off. Without a client it sets the configuration error; on a query error it sets the load error; on either failure the list is kept. On data the list is replaced wholesale by the mapped rows. An earlier error is never cleared |
| AppComponent.App.HandleAddGroup | App.tsx:77-121 | does nothing without a client; otherwise sends `SaveWrite`. On success the reload starts, the modal closes and the edited group is cleared. On failure it alerts and leaves the modal, the edited group and the list as they were |
| AppComponent.App.HandleDeleteGroup | App.tsx:123-139 | on success the list becomes the old list without the id. On failure it alerts, and on failure or without a client the list is unchanged |
| AppComponent.App.HandleUpdateGroup | App.tsx:141-156 | sends the new flag for the id. On success the updated group replaces each group with its id. On failure or without a client the list is unchanged |
| AppComponent.App.HandleEditClick | App.tsx:158-161 | opens the modal on the given group |
| AppComponent.App.OpenAddModal | App.tsx:178-181 | opens the modal in creation mode (no edited group) |
| AppComponent.App.CloseModal | App.tsx:300-303 | closes the modal and clears the edited group |
| AppComponent.App.ToggleAdmin | App.tsx:163-174 | prompts only when admin mode is off. The new mode is `NextAdminMode` and the alert is `WrongPasswordAlert` |
| AppComponent.App.CloseAdminDashboard | App.tsx:190 | closing the dashboard turns admin mode off |

## Left out

- The JSX rendering, CSS classes, icons, hero and footer markup, and the loading, error and empty-state display branches (App.tsx:176-320) are page layout with no state logic.
- The store client's query builder (`from`, `select`, `order`, `insert`, `update`, `delete`, `eq`) is a foreign library. Each call is an input outcome, and client configuration is the `hasClient` constant.
- Whether the store really sorts by `created_at` descending is the store's promise. The model takes the rows in the order given.
- `async`/`await` interleaving is not modelled. Each handler is one atomic step. The reload that a successful save starts without awaiting it (App.tsx:114) is split: the save sets `isLoading` and returns `reload`, and its completion is a later `FetchGroups` call. Races between a pending reload and a concurrent delete or verify are not modelled.
- `console.error`, `alert` and `prompt` are I/O. The prompt's answer is an input and each alert is an output flag. The alert texts are not modelled.
- `new Date(d.created_at).getTime()` is date parsing. A row carries the parsed timestamp as an integer.
- Text.Lower: lower-cases ASCII letters only, not the full Unicode `toLowerCase` mapping.
- Directory.MapRow: models the count and flag columns as a number, a boolean, or absent/null. Other JavaScript values (strings, NaN) and their truthiness are not modelled.
- Directory.MapRow: the category cast `d.category as Category` is unchecked in the source. The model's row already holds one of the eight categories, so a stored label outside the enum is not modelled.
- `Group.isVerified` is optional in `types.ts`. The model uses a plain boolean, so an absent flag is not modelled.
- The initial load started by the mount effect (App.tsx:62-64) is the first `FetchGroups` call a caller makes. It is not a separate member.
- `constants.ts` is static sample data and colour class names with no logic.
