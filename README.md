# BOQ dashboard: collection controllers, in Dafny

This project models the logic under a small project-tracking dashboard. The
dashboard tracks a Bill of Quantities (BOQ) for a drainage project. It has
four editable collections: BOQ lines, gallery images, progress tasks and
community contributors. Each admin screen repeats one piece of logic, a
*collection controller*. A controller holds three fields and changes them in
its handlers.

- `items`: an ordered list of rows.
- `dialogOpen`: whether the edit dialog is shown.
- `editing`: the row being edited, or none.

There are two variants.

- **Remote-synced** (`BoqTable`, `AdminCommunity`). The list mirrors a
  database table. Every handler first checks the gateway's answer. A
  confirmed delete filters the list locally. A confirmed insert or update
  asks for a reload. A failure leaves the list, the dialog and the edit
  target as they were.
- **Local-only** (`AdminImages`, `AdminProgress`). Handlers change the list
  directly: filter to delete, map-replace to edit, append to add.

Beside the controllers sit pure functions: the BOQ grand total
Σ quantity × rate, the fundraising target (1.1 × that total), the
derivation of a contributor's initials from the name, and the BOQ form's
schema and default values.

## Layout

| file | module | models |
|---|---|---|
| `wrappers.dfy` | `Wrappers` | `Option`; JavaScript `||` fallbacks on strings and numbers |
| `gateway.dfy` | `Gateway` | the gateway's answers (`Outcome`, `Response`) and the requests handlers issue |
| `lists.dfy` | `Lists` | the key-based filter / map-replace / append transforms and their laws |
| `totals.dfy` | `Totals` | the `reduce` sum over rows and its laws |
| `types.dfy` | `Types` | `src/lib/types.ts` |
| `fixtures.dfy` | `Fixtures` | `src/lib/data.ts` |
| `boq_form.dfy` | `BoqForm` | `src/components/boq-form.tsx` |
| `boq_table.dfy` | `BoqTable` | `src/components/boq-table.tsx` |
| `admin_community.dfy` | `AdminCommunity` | `src/components/admin/admin-community.tsx` |
| `admin_images.dfy` | `AdminImages` | `src/components/admin/admin-images.tsx` |
| `admin_progress.dfy` | `AdminProgress` | `src/components/admin/admin-progress.tsx` |

Each component is a class `Controller` whose fields are the component's
state variables. Each handler is a method with a `modifies` clause on the
fields it may change. A handler that talks to the gateway receives the
gateway's answer as a parameter and returns the request it issued, so
"exactly one update keyed by the target's id" is a postcondition. A submit
that succeeds returns `reload == true`. The reload itself is a separate
call to `FetchItems` or `FetchData` with the rows the gateway returns.

Numbers are exact `real`s (quantities, rates, amounts, coordinates) or
`int` (progress percentages). JavaScript's `a || b` is modelled
explicitly, because it matters: an empty role falls back to "Volunteer",
an empty image URL falls back to the default picture, and an image with an
empty id gets a fresh one.

## Model

| member | source | states |
|---|---|---|
| `Lists.Without` | src/components/admin/admin-images.tsx:65-67 | deleting by key never lengthens the list; every remaining row was in the list and has a different key |
| `Lists.WithoutIsSubsequence` | src/components/boq-table.tsx:94 | the rows left after a delete keep their original order |
| `Lists.WithoutCount` | src/components/admin/admin-community.tsx:104 | a delete keeps each row whose key differs, as many times as before, and drops every row with the key |
| `Lists.WithoutRemovesKey` | src/components/admin/admin-progress.tsx:60 | after a delete no row carries the deleted key |
| `Lists.WithoutAbsent` | src/components/admin/admin-images.tsx:66 | deleting a key no row carries changes nothing |
| `Lists.WithoutIdempotent` | src/components/admin/admin-images.tsx:66 | deleting twice equals deleting once |
| `Lists.WithoutKeepsDistinct` | src/components/admin/admin-images.tsx:66 | a delete keeps ids unique |
| `Lists.WithoutAppended` | src/components/admin/admin-progress.tsx:59-71 | appending a row and then deleting its key equals deleting the key from the old list, so every duplicate goes |
| `Lists.ReplaceWhere` | src/components/admin/admin-images.tsx:70-75 | the edit map keeps the length; each row is replaced exactly when its key is the target key, the others are unchanged |
| `Lists.ReplaceKeepsKeys` | src/components/admin/admin-images.tsx:71-75 | replacing with a row that has the target key leaves the key sequence unchanged |
| `Lists.ReplaceKeepsDistinct` | src/components/admin/admin-images.tsx:71-75 | such a replacement keeps ids unique |
| `Lists.AppendFreshKeepsDistinct` | src/components/admin/admin-images.tsx:77 | appending a row with a fresh id keeps ids unique |
| `Totals.Total` | src/components/boq-table.tsx:132-135 | the `reduce` sum is 0 for no rows and non-negative when every row's amount is |
| `Totals.Amounts` | src/components/boq-table.tsx:178-179 | one displayed amount per row, in row order |
| `Totals.TotalAppend` | src/components/boq-table.tsx:132-135 | adding a row raises the sum by that row's amount |
| `Totals.TotalIsSumOfAmounts` | src/components/boq-table.tsx:132-135 | the left-to-right `reduce` equals the sum of the per-row amounts |
| `Fixtures.ToMapPointData` | src/lib/data.ts:35-43 | a catalogue entry's description becomes both title and description; its URL and hint become the image record |
| `Fixtures.Find` | src/lib/data.ts:47 | `find` by id returns the FIRST catalogue entry with that id, and returns nothing exactly when no entry has the id |
| `Fixtures.Placed` | src/lib/data.ts:46-49 | the spread `{ ...d, position }` keeps the data's id, title, description and image and sets the position |
| `Fixtures.Point` | src/lib/data.ts:46-49 | one map point has the looked-up id and the given position, and carries the fields of the first catalogue entry with that id |
| `Fixtures.MapPoints` | src/lib/data.ts:45-58 | the fixture has three points with the ids `map-point-1`..`3`, distinct, at the listed coordinates; each carries the title, description and image of the first catalogue entry with its id |
| `BoqForm.Validate` | src/components/boq-form.tsx:20-25 | accepted iff description and unit are non-empty and quantity and rate are not negative; on rejection each reported issue names a failing field with its message, and every failing field is reported |
| `BoqForm.Submit` | src/components/boq-form.tsx:44-46 | the values reach `onSubmit` unchanged, and only when the schema accepts them |
| `BoqForm.Defaults` | src/components/boq-form.tsx:36-41 | a new form starts from "", "", 0, 0; an edit form starts from the item's four fields, since the `||` fallbacks change none of them |
| `BoqForm.DefaultsOfItem` | src/components/boq-form.tsx:36-41 | an edit form starts from the item's four fields |
| `BoqForm.NewItemDefaultsRejected` | src/components/boq-form.tsx:20-41 | a new form starts with "", "", 0, 0, and is rejected for its empty description and unit |
| `BoqForm.NegativeRejected` | src/components/boq-form.tsx:23-24 | a negative quantity or rate is rejected with its specific message |
| `BoqForm.RoundTrip` | src/components/boq-form.tsx:36-46 | for a valid item, the untouched edit form passes validation and submits the item's own four fields |
| `BoqTable.Amount` | src/components/boq-table.tsx:179 | a row with zero quantity or rate amounts to 0; non-negative quantity and rate give a non-negative amount |
| `BoqTable.GrandTotal` | src/components/boq-table.tsx:132-135 | no lines total 0; a single line totals its quantity × rate |
| `BoqTable.GrandTotalIsSumOfRows` | src/components/boq-table.tsx:132-179 | the footer total equals the sum of the displayed row amounts, each quantity × rate |
| `BoqTable.GrandTotalAppend` | src/components/boq-table.tsx:132-135 | the total of no lines is 0; adding a line adds its quantity × rate |
| `BoqTable.GrandTotalNonnegative` | src/components/boq-table.tsx:132-135 | non-negative quantities and rates give a non-negative total |
| `BoqTable.FixtureGrandTotal` | src/lib/data.ts:4-33 | 150 × 15.50 + 75 × 55 = 6450 for the first two fixture lines; 22416 for all four |
| `BoqTable.Controller.constructor` | src/components/boq-table.tsx:55-57 | empty list, dialog closed, no edit target |
| `BoqTable.Controller.FetchItems` | src/components/boq-table.tsx:65-77 | an error leaves `items` as it was; otherwise returned rows replace it in returned order; no data leaves it |
| `BoqTable.Controller.BeginCreate` | src/components/boq-table.tsx:79-82 | clears the edit target and opens the dialog; `items` unchanged |
| `BoqTable.Controller.BeginEdit` | src/components/boq-table.tsx:84-87 | sets the edit target to the item and opens the dialog; `items` unchanged |
| `BoqTable.Controller.CloseDialog` | src/components/boq-table.tsx:269 | closes the dialog and changes nothing else |
| `BoqTable.Controller.DeleteItem` | src/components/boq-table.tsx:89-100 | issues one delete by id; on success removes exactly that id's lines in order, on failure leaves `items` |
| `BoqTable.Controller.Submit` | src/components/boq-table.tsx:102-130 | update by the edit target's id or insert; never changes `items`; success requests a reload, closes the dialog and clears the target; failure leaves both |
| `AdminCommunity.Split` | src/components/admin/admin-community.tsx:255 | `split(' ')` gives at least one piece and no piece holds a space |
| `AdminCommunity.HeadsJoined` | src/components/admin/admin-community.tsx:255 | the joined first characters are no more than the pieces |
| `AdminCommunity.Head` | src/components/admin/admin-community.tsx:255 | `n[0]` as `join` renders it: at most one character, none exactly for an empty piece, otherwise the piece's first character |
| `AdminCommunity.Initials` | src/components/admin/admin-community.tsx:255 | at most one initial per piece; an empty name has no initials |
| `AdminCommunity.JoinSplit` | src/components/admin/admin-community.tsx:255 | joining the pieces with spaces gives the name back |
| `AdminCommunity.EmptySegmentContributesNothing` | src/components/admin/admin-community.tsx:255 | an empty piece, from repeated spaces, adds no initial |
| `AdminCommunity.InitialsAreScan` | src/components/admin/admin-community.tsx:255 | the initials are exactly the non-space characters that start the name or follow a space |
| `AdminCommunity.InitialsBound` | src/components/admin/admin-community.tsx:255 | there are at most as many initials as pieces; each initial is a non-space character of the name |
| `AdminCommunity.TwoWordInitials` | src/components/admin/admin-community.tsx:255 | two space-separated words give their two first letters |
| `AdminCommunity.FixtureInitials` | src/components/community-view.tsx:8-13 | the derivation gives AJ, BW, CB, DM for the public list's four names |
| `AdminCommunity.DoubledSpaceWordInitials` | src/components/admin/admin-community.tsx:255 | two words separated by a doubled space still give their two first letters; the empty piece between the spaces adds nothing |
| `AdminCommunity.DoubledSpaceInitials` | src/components/admin/admin-community.tsx:255 | "Alice  Johnson" with a doubled space still gives "AJ" |
| `AdminCommunity.FormSubmit` | src/components/admin/admin-community.tsx:253-257 | the payload carries the draft's name, contribution, role, amount and image, and initials derived from the name |
| `AdminCommunity.FormDefaults` | src/components/admin/admin-community.tsx:247-251 | a new form starts "", "", "Volunteer", 0, default picture; an edit form keeps the item's name, contribution and amount, and its role and image unless empty; role and image never start empty |
| `AdminCommunity.Submitted` | src/components/admin/admin-community.tsx:260-279 | the payload reaches `onSubmit` exactly when name, contribution, role and image are all non-empty (the `required` inputs) |
| `AdminCommunity.NewFormNotSubmittable` | src/components/admin/admin-community.tsx:247-279 | an untouched new-contributor form cannot be submitted |
| `AdminCommunity.EditFormSubmittable` | src/components/admin/admin-community.tsx:247-279 | an untouched edit form can be submitted exactly when the item has a name and a contribution |
| `AdminCommunity.NewFormDefaults` | src/components/admin/admin-community.tsx:247-251 | a new contributor starts as role "Volunteer" with amount 0 and empty name and contribution |
| `AdminCommunity.EditFormDefaults` | src/components/admin/admin-community.tsx:247-251 | an edit form starts from the item's name, contribution and amount; an empty role or image falls back to the default |
| `AdminCommunity.EditRoundTrip` | src/components/admin/admin-community.tsx:246-257 | an untouched edit form re-sends the item's fields with initials re-derived from its name |
| `AdminCommunity.Selected` | src/components/admin/admin-community.tsx:81-83 | the BOQ query returns each line's quantity and rate, line by line |
| `AdminCommunity.Target` | src/components/admin/admin-community.tsx:85-88 | no BOQ rows give a zero target |
| `AdminCommunity.TargetBounds` | src/components/admin/admin-community.tsx:85-88 | no rows give target 0; non-negative quantities and rates give a non-negative target |
| `AdminCommunity.TargetIsGrandTotalPlusTenPercent` | src/components/admin/admin-community.tsx:85-88 | the target is 1.1 × the BOQ table's grand total of the same lines |
| `AdminCommunity.Controller.constructor` | src/components/admin/admin-community.tsx:59-62 | no contributors, target 0, dialog closed, no edit target |
| `AdminCommunity.Controller.FetchData` | src/components/admin/admin-community.tsx:70-89 | returned contributor rows replace the list in order, returned BOQ rows set the target; a query with no data leaves its field unchanged |
| `AdminCommunity.Controller.BeginCreate` | src/components/admin/admin-community.tsx:91-94 | clears the edit target and opens the dialog; the list is outside the frame |
| `AdminCommunity.Controller.BeginEdit` | src/components/admin/admin-community.tsx:96-99 | sets the edit target and opens the dialog; the list is outside the frame |
| `AdminCommunity.Controller.CloseDialog` | src/components/admin/admin-community.tsx:238 | closes the dialog and changes nothing else |
| `AdminCommunity.Controller.DeleteItem` | src/components/admin/admin-community.tsx:101-109 | one delete by id; on success the list loses exactly that id's rows in order, on failure it is unchanged |
| `AdminCommunity.Controller.Submit` | src/components/admin/admin-community.tsx:111-134 | one update keyed by the target's id, or one insert; success requests a reload, closes the dialog and clears the target; failure changes nothing |
| `AdminImages.FormSubmit` | src/components/admin/admin-images.tsx:201-211 | the id is the edited item's (or a fresh one); title, description, url, hint, lat and lng pass through into the `image` and `position` records |
| `AdminImages.FormDefaults` | src/components/admin/admin-images.tsx:194-199 | a new form starts empty at 0, 0; an edit form starts from exactly the image's six fields, since the `||` fallbacks change none of them |
| `AdminImages.Submitted` | src/components/admin/admin-images.tsx:214-238 | the image reaches `onSubmit` exactly when title, description and URL are non-empty (the `required` text inputs) |
| `AdminImages.NewFormNotSubmittable` | src/components/admin/admin-images.tsx:194-238 | an untouched new-image form cannot be submitted |
| `AdminImages.EditFormSubmittable` | src/components/admin/admin-images.tsx:194-238 | an untouched edit form can be submitted exactly when the image has a title, a description and a URL, and then submits the image itself |
| `AdminImages.EditFormRoundTrip` | src/components/admin/admin-images.tsx:193-211 | an untouched edit form submits the image itself, id included |
| `AdminImages.Controller.constructor` | src/components/admin/admin-images.tsx:51-53 | the list starts as the map-point fixture, with distinct ids |
| `AdminImages.Controller.BeginCreate` | src/components/admin/admin-images.tsx:55-58 | clears the edit target and opens the dialog |
| `AdminImages.Controller.BeginEdit` | src/components/admin/admin-images.tsx:60-63 | sets the edit target and opens the dialog |
| `AdminImages.Controller.CloseDialog` | src/components/admin/admin-images.tsx:184 | closes the dialog and changes nothing else |
| `AdminImages.Controller.DeleteItem` | src/components/admin/admin-images.tsx:65-67 | keeps the images whose id differs; keeps ids unique |
| `AdminImages.Controller.Submit` | src/components/admin/admin-images.tsx:69-81 | map-replace by the target's id or append under the fresh id; dialog closed and target cleared after either; the id sequence is kept by an id-preserving edit and ids stay unique |
| `AdminImages.DeleteProperties` | src/components/admin/admin-images.tsx:65-67 | delete keeps exactly the other images in order; an absent id is a no-op; deleting twice equals once |
| `AdminImages.EditThroughFormKeepsIds` | src/components/admin/admin-images.tsx:203 | an edit through the form keeps the length and the id sequence, and leaves the other images unchanged |
| `AdminImages.AddAppends` | src/components/admin/admin-images.tsx:77 | add keeps the old list as a prefix and puts the new image, with its fresh id, last |
| `AdminProgress.SliderValue` | src/components/admin/admin-progress.tsx:187 | the slider's value is an integer in [0, 100] |
| `AdminProgress.FormDefaults` | src/components/admin/admin-progress.tsx:165-167 | a new form starts "", 0, ""; an edit form starts from exactly the task's fields |
| `AdminProgress.Apply` | src/components/admin/admin-progress.tsx:178-187 | typing into the title changes it only on a new task; typing the target sets it; the slider sets the value to the slider's value, always in [0, 100]; each input leaves the other two fields unchanged |
| `AdminProgress.FormSubmit` | src/components/admin/admin-progress.tsx:169-172 | the submitted task carries the draft's title, value and target |
| `AdminProgress.Submitted` | src/components/admin/admin-progress.tsx:175-183 | the task reaches `onSubmit` exactly when the target is non-empty and, on a new task, the title is too (the disabled title is exempt) |
| `AdminProgress.NewFormNotSubmittable` | src/components/admin/admin-progress.tsx:165-183 | an untouched new-task form cannot be submitted |
| `AdminProgress.EditFormSubmitted` | src/components/admin/admin-progress.tsx:165-183 | an untouched edit form submits the task itself exactly when it has a target |
| `AdminProgress.RunOnEdit` | src/components/admin/admin-progress.tsx:178 | with the title input disabled, no input changes an edit form's title |
| `AdminProgress.RunKeepsValueInRange` | src/components/admin/admin-progress.tsx:186-187 | no input takes the value out of [0, 100] |
| `AdminProgress.FormDefaultsProperties` | src/components/admin/admin-progress.tsx:165-167 | a new task starts at 0; an edit form starts from the task's fields |
| `AdminProgress.EditKeepsTitle` | src/components/admin/admin-progress.tsx:164-172 | an edit form submits the task's title whatever the user does, with a value in range |
| `AdminProgress.Controller.constructor` | src/components/admin/admin-progress.tsx:45-47 | the list starts as the given tasks, dialog closed |
| `AdminProgress.Controller.BeginCreate` | src/components/admin/admin-progress.tsx:49-52 | clears the edit target and opens the dialog |
| `AdminProgress.Controller.BeginEdit` | src/components/admin/admin-progress.tsx:54-57 | sets the edit target and opens the dialog |
| `AdminProgress.Controller.CloseDialog` | src/components/admin/admin-progress.tsx:156 | closes the dialog and changes nothing else |
| `AdminProgress.Controller.DeleteItem` | src/components/admin/admin-progress.tsx:59-61 | drops every task with the title; values stay in range |
| `AdminProgress.Controller.Submit` | src/components/admin/admin-progress.tsx:63-75 | map-replace by the target's title or append without a uniqueness check; dialog closed and target cleared; a title-preserving edit keeps the title sequence; values stay in range |
| `AdminProgress.DeleteProperties` | src/components/admin/admin-progress.tsx:59-61 | delete keeps every other task, as often as before and in order |
| `AdminProgress.DuplicateThenDelete` | src/components/admin/admin-progress.tsx:71 | adding an existing title creates a duplicate, and a later delete by that title removes all of them |
| `AdminProgress.EditThroughFormKeepsTitles` | src/components/admin/admin-progress.tsx:64-69 | an edit through the form keeps the length and the title sequence |

## Left out

- Database, auth and storage calls: network I/O. Their answers are parameters of the handlers (`Outcome`, `Response`).
- The reload after a submit is not awaited in the program. The race between the reload and the dialog update is concurrency and is not modelled; the reload is a separate step.
- `src/lib/supabase/storage.ts`: a storage upload and a `Math.random` file name; I/O and randomness.
- `crypto.randomUUID()`: its result is a parameter. Freshness is an assumption, stated as the premise of the uniqueness clauses.
- Toasts, `console.error`, `formatCurrency` (`Intl.NumberFormat`) and all rendering: presentation only, as are the read-only views and pages.
- JavaScript number semantics: IEEE rounding (e.g. `15.50`, `* 1.1`) and `NaN` are not modelled; numbers are exact reals or integers.
- `BoqForm.Validate`: the string-to-number coercion of the numeric inputs is not modelled; the values arrive already as numbers. String length counts characters, not UTF-16 code units.
- `AdminCommunity.Head`: a Dafny `char` is a whole Unicode scalar value, while JavaScript's `n[0]` is one UTF-16 code unit. For a space-separated piece of the name that starts with a character outside the Basic Multilingual Plane (an emoji, say, as in "Bob 😀"), the model gives the whole character as the initial; the program gives the first half of its surrogate pair.
- `AdminProgress.SliderValue`: the slider component is library code. The model states only what its `max={100}` and `step={1}` props promise: an integer between 0 and 100.
- Form field editing (`onChange` handlers) is modelled only for the progress form, where the disabled title input matters. The other forms are modelled from their draft state at submit time.
- The `progressData` fixture that the progress manager imports is not defined in `src/lib/data.ts`. The progress controller therefore takes its initial list as a parameter.
- The map-point fixture depends on the placeholder image catalogue. `src/lib/placeholder-images` is not part of this model; the catalogue is a parameter, and the program's `!` becomes a precondition that it holds the three ids.
- The program computes no fundraising ratio (sum of amounts over target), so none is modelled.
- The image manager's local add gives the new row an id of its own (`{ ...data, id: crypto.randomUUID() }`, src/components/admin/admin-images.tsx:77), replacing the id the form put into the payload. The model does the same: `AdminImages.Controller.Submit` overwrites the id from `AdminImages.FormSubmit` with its own `uuid` parameter.
- A gateway that actually stores rows is not modelled. So "an insert followed by a reload shows the inserted row" is not stated; it is a property of the database.
