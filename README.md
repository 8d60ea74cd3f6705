# thrghtmngr: the in-memory store and the list logic, in Dafny

thrghtmngr is an admin application for artworks, projects, contacts and the
licensing rights on artworks. Its services keep every record in module-level
arrays (the mock store) and change them in place with `push`, `splice` and
index assignment. This project models:

- **The mock store.** The arrays are the `seq` fields of one class, `MockData.MockDb`. Each service operation is a method whose `modifies` clause names the arrays it may touch.
- **The uniform entity stores.** Users, media, projects, artworks and the three category lists support get, find, append-create, merge-update on the first id match, and splice-delete. Users, media, projects and artworks answer an unknown id with `undefined`/`false`. The category service throws, which is modelled as a `Failure`.
- **The rights-holder store.** Holders and holder–media associations form two linked tables. The operations are create, update, a delete that cascades to associations, an idempotent add-association and remove-association. There are also per-artwork cost and count, and the joined views.
- **The rights-holder form's submit handler.** It validates the form, then plans the media to add and to remove. It applies the update, then every add, then every remove, in sequence. The first error stops the run and nothing is rolled back.
- **The project list.** It filters by search, category and status, sorts stably by title, start date or budget, and cuts pages of six. It holds the page-navigation state, the project-duration label, the category-name fallback and the remaining-budget badge.

Modules:
- `Wrappers`: `Option` and `Result`.
- `Records`: the record types and the `Partial<T>` merges.
- `Tables`: `find`, `findIndex`, `filter` and `splice` over a sequence.
- `MockData`: the store class.
- One module per service: `UserService`, `MediaService`, `ProjectService`, `ArtworkService`, `CategoryService`, `RightsHolderService`.
- `RightsHolderForm`: the submit handler.
- `TextSearch`, `StableSort`, `ProjectList` and `Duration`: the project list.

Ids and timestamps are opaque strings. `generateId` and `generateTimestamp` are parameters (`freshId`, `now`, `rowIds`). Prices and budgets are integers. Every asynchronous call is taken as synchronous.

## Model

| member | source | states |
|---|---|---|
| Tables.FirstIndex | thrghtmngr/services/user.service.ts:70 | `findIndex`: -1 exactly when no element passes; otherwise an index that passes, with none passing before it |
| Tables.IndexOf | thrghtmngr/services/user.service.ts:89 | `findIndex` by id: -1 exactly when no row has the id; otherwise the first row with it |
| Tables.Find | thrghtmngr/services/user.service.ts:31 | `find` by id: absent exactly when no row has the id; otherwise the first row with it |
| Tables.WhereMembers | thrghtmngr/services/artwork.service.ts:60 | `filter` keeps exactly the rows that pass |
| Tables.WhereMultiset | thrghtmngr/services/project.service.ts:61 | `filter` keeps each passing row as often as it occurs and drops every other row |
| Tables.WhereAppend | thrghtmngr/services/artwork.service.ts:75 | `filter` keeps store order: it distributes over concatenation |
| Tables.RemoveAt | thrghtmngr/services/user.service.ts:92 | `splice(i, 1)`: one row shorter; rows before `i` stay put and rows after it move down one |
| Tables.UpdateFirst | thrghtmngr/services/user.service.ts:70-73 | merging into the first match: same length; only the first row with the id becomes the merge, and nothing changes when no row has the id |
| Tables.UpdateThenFind | thrghtmngr/services/user.service.ts:72-74 | after an update that keeps the id, looking the id up returns the merged row |
| Tables.UpdateKeepsUnique | thrghtmngr/services/project.service.ts:98-101 | an update that keeps the id keeps ids unique |
| Tables.AppendFreshKey | thrghtmngr/services/user.service.ts:47-53 | appending a row with an unused id: it is found at the end, removing it restores the table, and unique ids stay unique |
| Tables.RemoveFoundKey | thrghtmngr/services/user.service.ts:89-92 | in a table with unique ids, splicing the found row leaves no row with that id |
| Tables.WhereUnique | thrghtmngr/services/rights-holder.service.ts:161-163 | filtering a table with unique ids leaves unique ids |
| Tables.WhereWhere | thrghtmngr/components/project-card.tsx:172-191 | filtering by one test and then another is filtering by both |
| Tables.RemoveKeyIsFilter | thrghtmngr/services/rights-holder.service.ts:165-169 | with unique ids, splicing the row found by id is the same as filtering that id out |
| MockData.MockDb.constructor | thrghtmngr/mocks/data.ts:24-153 | the stores start from the fixtures; media, holders and associations, which the data file does not define, start empty |
| UserService.GetUsers | thrghtmngr/services/user.service.ts:14-16 | the whole user list, in store order |
| UserService.GetUserById | thrghtmngr/services/user.service.ts:29-32 | the first user with the id, or absent when there is none |
| UserService.CreateUser | thrghtmngr/services/user.service.ts:45-54 | appends exactly one user with the generated id and timestamp; with an unused id, that user is found by its id and ids stay unique |
| UserService.UpdateUser | thrghtmngr/services/user.service.ts:68-74 | unknown id: absent and the list unchanged; otherwise only the first match is merged and returned; an update that keeps the id keeps ids unique and finds the new row |
| UserService.DeleteUser | thrghtmngr/services/user.service.ts:87-93 | false and no change for an unknown id; otherwise true and exactly the first match spliced out, after which (with unique ids) the id is gone |
| MediaService.GetMedias | thrghtmngr/services/media.service.ts:14-16 | the whole media list, in store order |
| MediaService.GetMediaById | thrghtmngr/services/media.service.ts:28-31 | the first media with the id, or absent |
| MediaService.CreateMedia | thrghtmngr/services/media.service.ts:43-52 | appends exactly one media with the generated id and timestamp; with an unused id it is found by that id |
| MediaService.UpdateMedia | thrghtmngr/services/media.service.ts:65-71 | unknown id: absent and no change; otherwise only the first match is merged and returned |
| MediaService.DeleteMedia | thrghtmngr/services/media.service.ts:83-89 | false and no change for an unknown id; otherwise true and one media spliced out; associations naming it are left in place |
| ProjectService.GetProjects | thrghtmngr/services/project.service.ts:21-23 | the whole project list, in store order |
| ProjectService.GetProjectById | thrghtmngr/services/project.service.ts:35-47 | absent for an unknown id; otherwise the first match joined with the first category of its `category_id`, which is absent when dangling |
| ProjectService.GetProjectsByStatus | thrghtmngr/services/project.service.ts:59-62 | exactly the projects with that status, each as often as stored; a status no project can have gives the empty list |
| ProjectService.CreateProject | thrghtmngr/services/project.service.ts:74-83 | appends exactly one project; with an unused id it is found by that id and ids stay unique |
| ProjectService.UpdateProject | thrghtmngr/services/project.service.ts:96-102 | unknown id: absent and no change; otherwise only the first match is merged, length unchanged |
| ProjectService.DeleteProject | thrghtmngr/services/project.service.ts:114-120 | false and no change for an unknown id; otherwise exactly one project removed, artworks and categories untouched |
| ArtworkService.GetArtworks | thrghtmngr/services/artwork.service.ts:18-20 | the whole artwork list, in store order |
| ArtworkService.GetArtworkById | thrghtmngr/services/artwork.service.ts:32-46 | absent for an unknown id; otherwise the first match joined with its first project and first artwork category, each absent when dangling |
| ArtworkService.GetArtworksByStatus | thrghtmngr/services/artwork.service.ts:58-61 | exactly the artworks with that status, each as often as stored |
| ArtworkService.GetArtworksByProject | thrghtmngr/services/artwork.service.ts:73-76 | exactly the artworks of that project, each as often as stored |
| ArtworkService.CreateArtwork | thrghtmngr/services/artwork.service.ts:88-97 | appends exactly one artwork; with an unused id it is found by that id |
| ArtworkService.UpdateArtwork | thrghtmngr/services/artwork.service.ts:110-116 | unknown id: absent and no change; otherwise only the first match is merged |
| ArtworkService.DeleteArtwork | thrghtmngr/services/artwork.service.ts:128-134 | false and no change for an unknown id; otherwise one artwork removed, with no cascade to rights holders or associations |
| CategoryService.GetCategories | thrghtmngr/services/category.service.ts:23-25 | the named category list, whole and in store order |
| CategoryService.GetProjectCategoryById | thrghtmngr/services/category.service.ts:37-40 | the first project category with the id, or absent |
| CategoryService.Store | thrghtmngr/services/category.service.ts:61 | writes one of the three lists and leaves the other two as they were |
| CategoryService.CreateCategory | thrghtmngr/services/category.service.ts:52-62 | appends one record built from the name and description alone, plus the generated id and timestamp; the other lists are unchanged |
| CategoryService.UpdateCategory | thrghtmngr/services/category.service.ts:75-87 | unknown id: a failure carrying the thrown message and no change; otherwise only the first match is merged and returned; the other lists are unchanged |
| CategoryService.DeleteCategory | thrghtmngr/services/category.service.ts:99-107 | unknown id: a failure and no change; otherwise exactly one record removed; the other lists are unchanged |
| RightsHolderService.PairIndex | thrghtmngr/services/rights-holder.service.ts:228-230 | `findIndex` of the association of that holder and media: -1 exactly when there is none, otherwise a matching row with no matching row before it |
| RightsHolderService.WithMedia | thrghtmngr/services/rights-holder.service.ts:49-56 | each association, in order, joined with the first media of its `media_id` |
| RightsHolderService.WithRelations | thrghtmngr/services/rights-holder.service.ts:45-63 | a holder joined with its contact and with exactly its own associations, in store order |
| RightsHolderService.GetRightsHolders | thrghtmngr/services/rights-holder.service.ts:25-27 | the whole holder list, in store order |
| RightsHolderService.GetRightsHolderById | thrghtmngr/services/rights-holder.service.ts:39-63 | absent for an unknown id; otherwise the first match with its contact and its associations |
| RightsHolderService.GetRightsHoldersByArtwork | thrghtmngr/services/rights-holder.service.ts:75-101 | exactly the artwork's holders, in store order, each joined with its associations |
| RightsHolderService.TotalCost | thrghtmngr/services/rights-holder.service.ts:249-250 | the sum of prices over the artwork's holders, which is 0 when it has none |
| RightsHolderService.HolderCount | thrghtmngr/services/rights-holder.service.ts:265-266 | the number of the artwork's holders: at most the table size, and 0 exactly when it has none |
| RightsHolderService.GetTotalRightsCost | thrghtmngr/services/rights-holder.service.ts:247-251 | the artwork's total cost, never negative when no price is |
| RightsHolderService.GetRightsHolderCount | thrghtmngr/services/rights-holder.service.ts:263-266 | the artwork's holder count |
| RightsHolderService.SumPricesAppend | thrghtmngr/services/rights-holder.service.ts:250 | the sum over two lists put together is the sum of their sums |
| RightsHolderService.TotalCostNonNegative | thrghtmngr/services/rights-holder.service.ts:249-250 | non-negative prices give a non-negative total |
| RightsHolderService.TotalCostAppend | thrghtmngr/services/rights-holder.service.ts:121 | creating a holder adds its price to its artwork's total and one to its count, and changes no other artwork's |
| RightsHolderService.TotalCostRemoveAt | thrghtmngr/services/rights-holder.service.ts:158 | deleting a holder takes its price off its artwork's total and one off the count |
| RightsHolderService.TotalCostReplace | thrghtmngr/services/rights-holder.service.ts:139 | updating a holder replaces its contribution to the totals |
| RightsHolderService.UpdateKeepsConsistent | thrghtmngr/services/rights-holder.service.ts:137-141 | an update that keeps the id leaves every association pointing at an existing holder |
| RightsHolderService.AddMedia | thrghtmngr/services/rights-holder.service.ts:185-213 | fails exactly when the holder or the media is missing, holder first, with nothing changed; an existing pair is returned with nothing changed; otherwise exactly one new row with the fresh id is appended |
| RightsHolderService.RemoveMedia | thrghtmngr/services/rights-holder.service.ts:226-235 | true exactly when the pair exists; then the rows are the table with the first matching row spliced out (one row shorter, the rest in order), otherwise nothing changes |
| RightsHolderService.AddMediaIdempotent | thrghtmngr/services/rights-holder.service.ts:196-201 | adding the same pair twice is adding it once |
| RightsHolderService.AddMediaKeepsConsistent | thrghtmngr/services/rights-holder.service.ts:188-212 | with a fresh row id, adding keeps association ids unique and creates no orphan |
| RightsHolderService.AddMediaKeepsPairsUnique | thrghtmngr/services/rights-holder.service.ts:196-212 | adding never creates a duplicate (holder, media) pair |
| RightsHolderService.AddMediaMediaOf | thrghtmngr/services/rights-holder.service.ts:185-213 | a successful add puts the media in the holder's media set and changes no other holder's set |
| RightsHolderService.RemoveMediaClearsPair | thrghtmngr/services/rights-holder.service.ts:228-235 | with no duplicate pairs, removing leaves the pair absent, takes exactly that media out of the holder's set and changes no other holder's set |
| RightsHolderService.RemoveMediaKeepsConsistent | thrghtmngr/services/rights-holder.service.ts:228-235 | removing keeps association ids unique and creates no orphan |
| RightsHolderService.RemoveMediaKeepsPairsUnique | thrghtmngr/services/rights-holder.service.ts:228-235 | removing keeps pairs unique |
| RightsHolderService.RemoveUndoesAdd | thrghtmngr/services/rights-holder.service.ts:185-235 | removing a pair just added restores the association table |
| RightsHolderService.Cascade | thrghtmngr/services/rights-holder.service.ts:161-170 | the `forEach` that splices, one at a time, the first row with the id of each of the holder's associations; `CascadeRemovesIds` and `CascadeDeletesHolderRows` prove it removes exactly those rows |
| RightsHolderService.CascadeRemovesIds | thrghtmngr/services/rights-holder.service.ts:161-170 | the `forEach` splice loop over the doomed rows removes exactly the rows with their ids, given unique row ids |
| RightsHolderService.CascadeDeletesHolderRows | thrghtmngr/services/rights-holder.service.ts:161-170 | with unique row ids, the cascade leaves exactly the other holders' associations, in order |
| RightsHolderService.DeleteKeepsConsistent | thrghtmngr/services/rights-holder.service.ts:155-170 | deleting a holder and cascading leaves no association of it and no orphan |
| RightsHolderService.NewHolder | thrghtmngr/services/rights-holder.service.ts:115-121 | the created holder: the input with the generated id and timestamp, as `CreateRightsHolder` states field by field |
| RightsHolderService.CreateRightsHolder | thrghtmngr/services/rights-holder.service.ts:113-122 | appends exactly one holder with the generated id and timestamp and the input's artwork, contact and price; associations untouched |
| RightsHolderService.UpdateRightsHolder | thrghtmngr/services/rights-holder.service.ts:135-141 | unknown id: absent and no change; otherwise only the first match is merged, length unchanged |
| RightsHolderService.DeleteRightsHolder | thrghtmngr/services/rights-holder.service.ts:153-172 | false and no change for an unknown id; otherwise the first match is removed and the loop splices each of its associations; with unique row ids, exactly the other associations remain |
| RightsHolderService.AddMediaToRightsHolder | thrghtmngr/services/rights-holder.service.ts:185-213 | the store method does what `AddMedia` specifies, and writes only the association table |
| RightsHolderService.RemoveMediaFromRightsHolder | thrghtmngr/services/rights-holder.service.ts:226-235 | the store method does what `RemoveMedia` specifies |
| RightsHolderService.LicenseThenCascadeRestores | thrghtmngr/services/rights-holder.service.ts:113-213 | creating a holder, licensing it one media and deleting it leaves the associations as they were |
| RightsHolderService.CreateLicenseDelete | thrghtmngr/services/rights-holder.service.ts:113-172 | the same sequence on the store leaves both tables, the artwork's cost and its count as they were |
| RightsHolderForm.Validate | thrghtmngr/components/rights-holder-management.tsx:97-105 | the form passes exactly when a contact is chosen and the price (0 by default) is not negative; each failure names every broken rule |
| RightsHolderForm.MediaToAdd | thrghtmngr/components/rights-holder-management.tsx:186 | the selected media not currently held, in selection order, none when the selection is undefined; `PlanMembers` and `PlanReachesSelection` state it as a set difference |
| RightsHolderForm.MediaToRemove | thrghtmngr/components/rights-holder-management.tsx:188 | the currently held media not selected, in current order, all of them when the selection is undefined; `PlanMembers` and `UndefinedSelectionRemovesAll` state it |
| RightsHolderForm.PlanMembers | thrghtmngr/components/rights-holder-management.tsx:184-188 | media to add are exactly the selected ones not current; media to remove are exactly the current ones not selected |
| RightsHolderForm.PlanDisjoint | thrghtmngr/components/rights-holder-management.tsx:186-188 | no media is both added and removed |
| RightsHolderForm.PlanReachesSelection | thrghtmngr/components/rights-holder-management.tsx:184-204 | current plus added minus removed is the selection |
| RightsHolderForm.SameSelectionEmptyPlan | thrghtmngr/components/rights-holder-management.tsx:186-204 | selecting the current media gives no add and no remove |
| RightsHolderForm.UndefinedSelectionRemovesAll | thrghtmngr/components/rights-holder-management.tsx:186-188 | an undefined selection adds nothing and removes every current media |
| RightsHolderForm.ViewMediaIds | thrghtmngr/components/rights-holder-management.tsx:184 | the media ids read off the loaded holder are its media set in the store the view was read from |
| RightsHolderForm.RunAppend | thrghtmngr/components/rights-holder-management.tsx:191-204 | running two call lists one after the other is running their concatenation |
| RightsHolderForm.RunKeepsPairsUnique | thrghtmngr/components/rights-holder-management.tsx:171-224 | any run of store calls keeps (holder, media) pairs unique |
| RightsHolderForm.EditPlan | thrghtmngr/components/rights-holder-management.tsx:171-204 | the calls the edit branch makes when none fails: the update, then for a loaded holder one add per media to add and one remove per media to remove; `EditReachesSelection` proves it leaves exactly the selection |
| RightsHolderForm.CreatePlan | thrghtmngr/components/rights-holder-management.tsx:210-224 | the calls the create branch makes when none fails: the create, then one add per selected media when the selection is non-empty; `CreateReachesSelection` proves it leaves exactly the selection |
| RightsHolderForm.RunAdds | thrghtmngr/components/rights-holder-management.tsx:191-196 | the add loop, for an existing holder and existing media, adds exactly those media to its set and changes no other holder's |
| RightsHolderForm.RunRemoves | thrghtmngr/components/rights-holder-management.tsx:199-204 | the remove loop takes exactly those media out of the holder's set and changes no other holder's |
| RightsHolderForm.EditAddsSucceed | thrghtmngr/components/rights-holder-management.tsx:171-196 | after the field update, every planned add finds the holder and its media, when the selection names existing media |
| RightsHolderForm.EditReachesSelection | thrghtmngr/components/rights-holder-management.tsx:171-204 | the edit plan, run from the loaded store, leaves the holder's media set equal to the selection and every other holder's set unchanged |
| RightsHolderForm.CreateReachesSelection | thrghtmngr/components/rights-holder-management.tsx:210-224 | the create plan gives the new holder exactly the selected media, duplicates collapsing, when every selected media exists |
| RightsHolderForm.AddAll | thrghtmngr/components/rights-holder-management.tsx:191-196 | the add loop issues a prefix of the planned adds, all of them unless one fails, and stops at the first failure; the store is the run of the issued calls; with the holder and all media present nothing fails |
| RightsHolderForm.RemoveAll | thrghtmngr/components/rights-holder-management.tsx:199-204 | the remove loop issues every planned remove, and the store is their run |
| RightsHolderForm.Reconcile | thrghtmngr/components/rights-holder-management.tsx:191-204 | all adds and then all removes, stopping at the first failing add; the store is the run of the issued calls |
| RightsHolderForm.AddSelected | thrghtmngr/components/rights-holder-management.tsx:217-224 | one add per selected media when the selection is non-empty; stops at the first failure; nothing fails when the holder and the media exist |
| RightsHolderForm.SubmitEdit | thrghtmngr/components/rights-holder-management.tsx:169-207 | update first, then adds, then removes; a prefix of the plan is issued and the store is its run; a holder missing from the loaded list gets only the update; when the loaded view matches the store and the selection exists, the submit succeeds |
| RightsHolderForm.SubmitCreate | thrghtmngr/components/rights-holder-management.tsx:208-226 | exactly one holder is created from the artwork and the form, then the selected media are added; the store is the run of the issued calls; with existing media it succeeds |
| RightsHolderForm.Submit | thrghtmngr/components/rights-holder-management.tsx:167-239 | edit or create by whether a holder is being edited; the first failure stops the run with nothing rolled back; pairs stay unique |
| RightsHolderForm.HandleSubmit | thrghtmngr/components/rights-holder-management.tsx:97-105 | a form that fails validation makes no store call and reports its errors; a valid one runs the submit: the calls are a prefix of the plan, all of it when saved, ending with the failing add when not; the store is their run and pairs stay unique |
| TextSearch.LowerChar | thrghtmngr/components/project-card.tsx:175 | `toLowerCase` on a character: capitals move 32 code points up, everything else is kept, and the result is never a capital |
| TextSearch.Lower | thrghtmngr/components/project-card.tsx:175-176 | `toLowerCase` on a string: same length, each character lower-cased |
| TextSearch.LowerIdempotent | thrghtmngr/components/project-card.tsx:175-176 | lower-casing twice is lower-casing once |
| TextSearch.Includes | thrghtmngr/components/project-card.tsx:175-176 | `includes`, trying each starting position from the left; `IncludesIffOccurs` proves it holds exactly when the query occurs somewhere |
| TextSearch.IncludesIffOccurs | thrghtmngr/components/project-card.tsx:175-176 | `includes` holds exactly when the query occurs at some position of the text |
| TextSearch.FoundIgnoringCase | thrghtmngr/components/project-card.tsx:175-176 | a query found in the text is still found once both are lower-cased |
| StableSort.Insert | thrghtmngr/components/project-card.tsx:192-208 | inserting adds exactly the one item |
| StableSort.InsertSorted | thrghtmngr/components/project-card.tsx:192-208 | inserting into an ordered list keeps it ordered |
| StableSort.SortBy | thrghtmngr/components/project-card.tsx:192-208 | the sort is a permutation of its input |
| StableSort.SortBySorted | thrghtmngr/components/project-card.tsx:192-208 | the sort orders by the key |
| StableSort.SortKeepsTies | thrghtmngr/components/project-card.tsx:192-208 | the sort is stable: items of equal key keep their input order |
| StableSort.SortedUnchanged | thrghtmngr/components/project-card.tsx:192-208 | an already ordered list comes out unchanged |
| ProjectList.FilteredProjects | thrghtmngr/components/project-card.tsx:172-191 | the `filter` of the project list, in store order; `FilteredMembers` and `FiltersCompose` state which projects it keeps |
| ProjectList.FilteredMembers | thrghtmngr/components/project-card.tsx:172-191 | a project is listed exactly when it is stored and passes every filter that is set: the lower-cased query occurs in the title or the description, the category matches, the status matches |
| ProjectList.NoFiltersKeepAll | thrghtmngr/components/project-card.tsx:175-186 | an empty search with no category and no status lists every project, in store order |
| ProjectList.PausedMatchesNothing | thrghtmngr/components/project-card.tsx:184-186 | the "paused" entry of the status menu lists no project, since no project status has that name |
| ProjectList.FiltersCompose | thrghtmngr/components/project-card.tsx:172-191 | the three filters are conjunctive: filtering by each in turn gives the same list, in the same order |
| ProjectList.SortKey | thrghtmngr/components/project-card.tsx:192-208 | the comparator `key(a) - key(b)` as a key: title rank, start time or budget, negated for descending; `BudgetSort` states the budget orders |
| ProjectList.ShownProjects | thrghtmngr/components/project-card.tsx:172-208 | the filtered list sorted by the chosen key; `ShownOrdered` proves it an ordered, stable permutation of the filtered list |
| ProjectList.ShownOrdered | thrghtmngr/components/project-card.tsx:192-208 | the sorted list is a permutation of the filtered list, ordered by the comparator's key, with equal keys in store order |
| ProjectList.BudgetSort | thrghtmngr/components/project-card.tsx:202-205 | sorting by budget orders the list by rising or by falling budget and keeps every filtered project |
| ProjectList.PageCount | thrghtmngr/components/project-card.tsx:211 | the fewest pages of six that hold every project: `ceil(n / 6)` |
| ProjectList.Page | thrghtmngr/components/project-card.tsx:212-215 | a page holds at most six projects: the ones at positions `(p - 1) * 6` onwards |
| ProjectList.PagesArePrefix | thrghtmngr/components/project-card.tsx:212-215 | pages 1 to k together are the first `6k` projects |
| ProjectList.AllPages | thrghtmngr/components/project-card.tsx:211-215 | pages 1 to totalPages together are the whole list, in order |
| ProjectList.PageSizes | thrghtmngr/components/project-card.tsx:211-215 | every page before the last is full and the last page is not empty |
| ProjectList.PageBeyondEnd | thrghtmngr/components/project-card.tsx:212-215 | a page past the last shows nothing |
| ProjectList.ItemOnPage | thrghtmngr/components/project-card.tsx:212-215 | project `i` is at position `i % 6` of page `i / 6 + 1` |
| ProjectList.PreviousPage | thrghtmngr/components/project-card.tsx:687 | going back never goes below page 1 or beyond the current page |
| ProjectList.NextPage | thrghtmngr/components/project-card.tsx:699 | going forward never goes above totalPages, and never goes back from a page within range |
| ProjectList.NextThenPrevious | thrghtmngr/components/project-card.tsx:687-699 | from any page before the last, forward moves one page on and back returns |
| ProjectList.PreviousThenNext | thrghtmngr/components/project-card.tsx:687-699 | from any page after the first, back moves one page and forward returns |
| ProjectList.ProjectsDisplay.constructor | thrghtmngr/components/project-card.tsx:113-125 | the initial state: no search, no category, no status, page 1, by start date with the newest first |
| ProjectList.ProjectsDisplay.SetSearchQuery | thrghtmngr/components/project-card.tsx:254 | sets the query and leaves the filters, the sort and the page as they were |
| ProjectList.ProjectsDisplay.SelectCategory | thrghtmngr/components/project-card.tsx:278-286 | sets or clears the category and nothing else |
| ProjectList.ProjectsDisplay.SelectStatus | thrghtmngr/components/project-card.tsx:295-303 | sets or clears the status and nothing else |
| ProjectList.ProjectsDisplay.ResetFilters | thrghtmngr/components/project-card.tsx:268-271 | clears category and status but not the search; with an empty search, every project is listed again |
| ProjectList.ProjectsDisplay.SetSort | thrghtmngr/components/project-card.tsx:319-335 | sets the sort field and direction together and nothing else |
| ProjectList.ProjectsDisplay.GoToFirst | thrghtmngr/components/project-card.tsx:678 | moves to page 1 |
| ProjectList.ProjectsDisplay.GoToPrevious | thrghtmngr/components/project-card.tsx:687 | moves one page back, never below page 1 |
| ProjectList.ProjectsDisplay.GoToNext | thrghtmngr/components/project-card.tsx:699 | moves one page on, never past totalPages |
| ProjectList.ProjectsDisplay.GoToLast | thrghtmngr/components/project-card.tsx:708 | moves to the last page |
| ProjectList.CategoryName | thrghtmngr/components/project-card.tsx:139-142 | the name of the first category with the id; "Catégorie inconnue" when there is none or its name is empty; never empty |
| ProjectList.RemainingBadge | thrghtmngr/components/project-card.tsx:101 | "success" exactly above 50 %, "destructive" exactly at 20 % or below, "warning" in between |
| ProjectList.BadgeMonotone | thrghtmngr/components/project-card.tsx:101 | less budget left never gives a calmer badge |
| Duration.NatToString | thrghtmngr/components/project-card.tsx:159 | `${n}`: a non-empty string of digits that starts with 0 only for the number 0 |
| Duration.NatToStringValue | thrghtmngr/components/project-card.tsx:159 | reading the digits back gives the number |
| Duration.Plural | thrghtmngr/components/project-card.tsx:159-168 | the plural "s" appears exactly for a count above one |
| Duration.DurationLabel | thrghtmngr/components/project-card.tsx:155-168 | getProjectDuration from the day count; `LabelIffParse` pins its three forms: the labels are exactly the texts `ParseDuration` accepts |
| Duration.ParseDuration | thrghtmngr/components/project-card.tsx:155-168 | the label grammar written independently: "d jour(s)" with d below 30, "m mois" with m at least 1, "m mois et r jour(s)" with m at least 1 and r from 1 to 29, counts without leading zeros, "s" exactly on a count above one |
| Duration.ParseLabel | thrghtmngr/components/project-card.tsx:155-168 | every label reads back as the day count it was made from |
| Duration.OnlyLabelsParse | thrghtmngr/components/project-card.tsx:155-168 | any text the grammar reads as d days is the label of d: no other text is a label |
| Duration.LabelIffParse | thrghtmngr/components/project-card.tsx:155-168 | a text is the label of d exactly when the grammar reads it as d days, so the label has exactly the three forms |
| Duration.LabelsDiffer | thrghtmngr/components/project-card.tsx:155-168 | different day counts give different labels |
| Duration.PluralOnlyAboveOne | thrghtmngr/components/project-card.tsx:159-168 | a label ends in "jours" exactly when the days it shows are more than one |

## Left out

- Every `USE_MOCK_DATA == false` branch only throws "not implemented", so only the mock branch is modelled.
- `mockApiCall`'s delay and the `async`/`await` scheduling are left out: every call runs to completion before the next starts.
- `generateId` draws from `Math.random` and need not be unique. Fresh ids are parameters, and every uniqueness result is stated under the condition that the id is unused.
- Creating a record spreads the input after the generated id and timestamp. `CreateDTO` removes `id` and `created_at` from the input type, so the model takes a full draft record and the generated values stand. An untyped caller that still passes an id is not modelled.
- A `Partial<T>` patch that sets a field to `undefined` explicitly is not modelled: a patch field is either absent or a value.
- The fixtures of mocks/data.ts are constructor arguments and their contents are not copied. The media, holder and association stores, which the data file does not define, start empty.
- `ProjectList.RemainingBadge`: it takes the rounded remaining percentage as its input. The floating-point division and `Math.round` that compute it, including division by a zero budget, are not modelled.
- `Duration.DurationLabel`: it takes the whole day count as its input. `Date` parsing, `Math.abs` and `Math.ceil` of the millisecond difference are not modelled.
- `ProjectList.SortKey`: `localeCompare` and `Date.getTime` are host-library behaviour, so the title and date sorts take an integer rank of each title (`collate`) and of each date (`time`) as parameters. Invalid dates (`NaN`) and a `localeCompare` that is not a total order are not modelled.
- `TextSearch.LowerChar`: only the capitals of ASCII and Latin-1 are lower-cased. The rest of Unicode case mapping is not modelled.
- `ProjectList.ProjectsDisplay`: the view mode (grid or list), `formatBudget`, `toLocaleDateString`, the status labels, the artwork-count badge and the loading, error and empty-store screens are presentation only.
- The page is not reset when the search or a filter changes. The model keeps this behaviour, and `ProjectList.PageBeyondEnd` shows what such a page displays.
- `ProjectList.ProjectsDisplay.GoToNext` and `ProjectList.ProjectsDisplay.GoToLast` require more than one page, because their buttons render only then.
- `RightsHolderForm.SubmitEdit`: the list of loaded holders is a parameter, a snapshot of what the page read. React Query caching and invalidation, toasts, `form.reset` and `setEditingId` are left out.
- The other parts of rights-holder-management.tsx (`handleDelete`, `getContactInfo`, `getRightsHolderMedia` and the JSX) are presentation over the store operations above.
- The contact service and the tables built on `@tanstack/react-table` are not part of this model.
