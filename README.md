# A verified model of a command-line to-do tracker

The tracker keeps two record stores. The account store holds
`{username, password}` records and offers sign-up and log-in. The to-do store
holds to-do items and offers add, list, get, update and mark-completed, each
scoped to the item's owner. A console front end parses menu answers and
priority and status labels, and builds partial updates for the edit command.

The model has four modules:

- `Models` (models.dfy): the `Priority` (HIGH, MID, LOW) and `Status`
  (PENDING, COMPLETED) enumerations, the `TodoItem` record, and the flat
  `Record` an item is saved as. Enumerations are saved as their labels, and
  each label is also the member's name. `ItemToRecord` and `RecordToItem`
  model `_item_to_dict` and `_dict_to_item`, and they are proved inverse.
- `Todo` (todo.dfy): the class `TodoManager`. Its field `items` stands for
  the whole of todos.json. add_item, and update_item when it finds a
  match, rewrite the whole document; each method states the whole new
  sequence. `AddItem` appends.
  `UpdateItem` scans with a loop and replaces the first item that matches
  both id and owner. `MarkCompleted` calls `UpdateItem`. The pure reads are
  functions: `Owned` for list_items, `Lookup` for get_item, and `FindIndex`
  for the scan in update_item. Lemmas tie them together: listing after an
  add, get after an update, and id uniqueness.
- `Auth` (auth.dfy): the class `AuthManager`. Its field `users` stands for
  users.json. `CreateUser` refuses a username that is already taken and
  otherwise appends. `Authenticates` is the `any(...)` match on both fields.
  The lemmas prove the unique-username invariant and what log-in can see
  after a sign-up.
- `Cli` (cli.dfy): `Strip` uses Python's `str.isspace` character set. Then
  come upper-casing, `ParsePriority` and `ParseStatus`, and the patch that
  `handle_edit` builds. `HandleEdit` runs the edit command after its
  prompts against a `TodoManager`. `LoggedInStep` and `RunSession` model
  the logged-in menu.

The wall clock and `uuid4` are not modelled. The current time and the new
id are parameters. `AddItem` requires the id to be non-empty and not yet
stored, which is what `uuid4` provides. The code itself never checks this.

A file that is not valid JSON makes `json.load` raise; only a document that
parses to a non-list loads as empty.

## Model

| member | source | states |
|---|---|---|
| `Models.PriorityFromLabel` | src/todo.py:40 | looking up a priority by its label gives the member with that label, and None exactly when no member has it |
| `Models.StatusFromLabel` | src/todo.py:41 | looking up a status by its label gives the member with that label, and None exactly when no member has it |
| `Models.PriorityLabelInjective` | src/todo.py:49 | distinct priorities are saved as distinct labels |
| `Models.StatusLabelInjective` | src/todo.py:50 | distinct statuses are saved as distinct labels |
| `Models.ItemToRecord` | src/todo.py:47-51 | the priority and status labels an item is saved with read back as that item's priority and status |
| `Models.RecordToItem` | src/todo.py:35-45 | a record loads exactly when both its labels name members, and the loaded item's priority and status carry those labels |
| `Models.RecordRoundTrip` | src/todo.py:35-51 | saving an item as a dict and reading it back gives the same item |
| `Models.RecordRoundTripBack` | src/todo.py:35-51 | a dict that reads back as an item is exactly the dict that item saves as |
| `Todo.ApplyPatch` | src/todo.py:92-101 | the written-back record keeps the item's id, owner and creation time, and its updated_at is now |
| `Todo.Owned` | src/todo.py:72-75 | the listed items are exactly the stored items whose owner is the argument; no other owner's item appears |
| `Todo.OwnedAppend` | src/todo.py:72-75 | listing keeps stored order: the list of a concatenation is the concatenation of the lists |
| `Todo.Lookup` | src/todo.py:77-82 | get_item returns a stored item matching both id and owner, and None only when no item matches both |
| `Todo.FindIndex` | src/todo.py:88-90 | the scan finds the first index matching both id and owner, and None when there is none |
| `Todo.LookupIsFirstMatch` | src/todo.py:77-90 | get_item returns the item at the first matching index, the same record update_item would change |
| `Todo.FindIndexUnique` | src/todo.py:77-90 | when ids are distinct, any matching position is the one found |
| `Todo.TodoManager.constructor` | src/todo.py:16-21 | a store whose file does not exist yet holds no items |
| `Todo.TodoManager.AddItem` | src/todo.py:53-70 | returns a PENDING item with the given owner, title, details and priority, stamped created = updated = now; appends exactly that item at the end, so every earlier item is unchanged; keeps ids distinct |
| `Todo.TodoManager.UpdateItem` | src/todo.py:84-106 | with no id and owner match, returns None and leaves the store unchanged; otherwise replaces only the first matching index with the patched item, keeps the length, and returns the patched item |
| `Todo.TodoManager.MarkCompleted` | src/todo.py:108-109 | behaves as update_item with the status-only patch; on a match the result's status is COMPLETED |
| `Todo.ApplyPatchFields` | src/todo.py:92-101 | a field takes the patch's value when present and keeps its old value when absent; updated_at becomes now |
| `Todo.EmptyPatchOnlyTouches` | src/todo.py:92-101 | an empty patch changes nothing but updated_at, which it still sets to now |
| `Todo.ListAfterAdd` | src/todo.py:53-75 | after an add, the new owner's list is the old list followed by the new item, and every other owner's list is unchanged |
| `Todo.ListAfterReplace` | src/todo.py:84-106 | an update keeps the length of every owner's list and leaves the lists of other owners unchanged |
| `Todo.GetAfterAdd` | src/todo.py:53-82 | the item add_item appends is found at the end of the store by get_item with its id and owner |
| `Todo.GetAfterUpdate` | src/todo.py:77-106 | after an update, get_item with the same id and owner returns the updated record at the same index |
| `Todo.AddPreservesDistinctIds` | src/todo.py:56-69 | appending an item with a fresh id keeps ids pairwise distinct |
| `Todo.UpdatePreservesDistinctIds` | src/todo.py:88-105 | an update keeps ids pairwise distinct |
| `Todo.AddAndListScenario` | tests/test_todo.py:9-36 | on a fresh store, alice's new item is PENDING with equal timestamps; alice lists exactly that item and bob lists nothing |
| `Todo.GetAndUpdateScenario` | tests/test_todo.py:39-75 | get finds the new item; a full update returns the new fields and the new time, keeps the creation time; an update of a missing id gives None |
| `Auth.AuthManager.constructor` | src/auth.py:10-15 | an account store whose file does not exist yet holds no records |
| `Auth.AuthManager.CreateUser` | src/auth.py:26-33 | returns false and leaves the store unchanged when the username is taken; otherwise appends exactly that record and returns true; keeps usernames unique |
| `Auth.Taken` | src/auth.py:29 | the duplicate check holds exactly when some stored record has the username |
| `Auth.Authenticates` | src/auth.py:38-41 | authenticate holds exactly when some stored record has both the username and the password |
| `Auth.UniqueAt` | src/auth.py:29-31 | the unique-username invariant says no two stored records share a username |
| `Auth.AuthenticatesImpliesTaken` | src/auth.py:35-41 | a user who authenticates has a stored username |
| `Auth.UnknownUserRejected` | src/auth.py:35-41 | an unknown username never authenticates, whatever the password |
| `Auth.OnePasswordPerUser` | src/auth.py:26-41 | with unique usernames, a username authenticates with at most one password |
| `Auth.TakenAppend` | src/auth.py:29-31 | after an append, a username is taken exactly when it was taken before or is the appended one |
| `Auth.AuthenticatesAppend` | src/auth.py:31-41 | after an append, a pair authenticates exactly when it did before or is the appended record |
| `Auth.AppendPreservesUnique` | src/auth.py:29-31 | appending a record whose username is not taken keeps usernames unique |
| `Auth.SignUpThenLogIn` | src/auth.py:26-41 | after a successful sign-up, log-in with that pair succeeds, any other password for that user fails, and other accounts log in as before |
| `Auth.SignUpScenario` | tests/test_auth.py:8-27 | sign-up of alice succeeds; the right password logs in; a wrong password and an unknown user do not; a second sign-up of alice is refused |
| `Cli.TrimStart` | src/main.py:44 | removes exactly the leading whitespace: what is cut is whitespace and what remains does not start with it |
| `Cli.TrimEnd` | src/main.py:44 | removes exactly the trailing whitespace: what is cut is whitespace and what remains does not end with it |
| `Cli.Strip` | src/main.py:44 | the result is a slice of the input with only whitespace cut on either side, and it neither starts nor ends with whitespace |
| `Cli.UpperChar` | src/main.py:44 | a lower-case ASCII letter becomes its upper-case letter; any character that changes becomes an upper-case ASCII letter |
| `Cli.Upper` | src/main.py:44 | upper-casing keeps the length and maps each character on its own |
| `Cli.Normalize` | src/main.py:44 | the normalised answer is empty exactly when the answer is all whitespace |
| `Cli.ParsePriority` | src/main.py:43-50 | gives a priority exactly when the stripped, upper-cased text is a priority's name, and then that priority |
| `Cli.ParseStatus` | src/main.py:53-60 | gives a status exactly when the stripped, upper-cased text is a status's name, and then that status |
| `Cli.TrimStartPadded` | src/main.py:44 | leading whitespace before a word is all that is removed from the front |
| `Cli.TrimEndPadded` | src/main.py:44 | trailing whitespace after a word is all that is removed from the back |
| `Cli.StripPadded` | src/main.py:44 | stripping a word padded with any whitespace gives back the word |
| `Cli.StripEmptyIffBlank` | src/main.py:44-46 | stripping gives the empty string exactly when the answer is all whitespace |
| `Cli.BlankParsesToNone` | src/main.py:43-60 | a blank or whitespace-only answer parses to None as a priority and as a status |
| `Cli.ParsePriorityAnyCase` | src/main.py:43-50 | any spelling whose upper case is a priority's name, with any whitespace padding (" high "), parses to that priority |
| `Cli.ParseStatusAnyCase` | src/main.py:53-60 | any spelling whose upper case is a status's name, with any whitespace padding, parses to that status |
| `Cli.BuildPatch` | src/main.py:156-164 | title and details enter the patch exactly when non-empty, with the answer as value; priority and status enter exactly when parsed; nothing else can enter |
| `Cli.BuildPatchEmpty` | src/main.py:156-168 | the patch is empty exactly when every answer was left blank |
| `Cli.HandleEdit` | src/main.py:139-174 | an unknown item or an empty patch changes nothing; otherwise the item is updated with the built patch; the "unable to update" branch is never reached |
| `Cli.ChooseAction` | src/main.py:212-235 | "6" selects logout, "7" selects exit, and exactly the answers other than "1" to "7" are unrecognised |
| `Cli.LoggedInStep` | src/main.py:210-235 | "6" logs out, "7" terminates the program, and every other answer, recognised or not, keeps the session |
| `Cli.RunSession` | src/main.py:251-253 | the session runs until the first answer that logs out or exits, and every earlier answer kept it |

## Left out

- JSON file I/O is not modelled: opening, reading and writing the files, `json.load` and `json.dump`, pretty-printing and path existence. The documents are the in-memory fields `items` and `users`. The load-time filter that keeps only dict entries is not modelled either.
- The `_dict_to_item` defaults for missing keys are not modelled. `Record` always carries all eight fields.
- `Models.RecordToItem`: a record with an unknown label gives None, where Python raises ValueError.
- The wall clock (`_now_iso`) and `uuid4` are parameters. That the generator returns a fresh, non-empty id is a precondition of `Todo.TodoManager.AddItem`.
- No ordering between `created_at` and `updated_at` is claimed, because the code stores them as unordered strings.
- `Todo.TodoManager.ListItems`, `Todo.TodoManager.GetItem` and `Auth.AuthManager.Authenticate` only read the field. Their meaning is stated on `Todo.Owned`, `Todo.Lookup` and `Auth.Authenticates`.
- `Cli.UpperChar` and `Cli.Upper` map the ASCII letters, dotless i (U+0131) and long s (U+017F), one character to one character. Other Unicode case mappings are not modelled, including those that change the length (such as ß to SS), so `Cli.Upper` keeps the length only in the model. No result of the lookup changes: every other mapping either yields non-ASCII text or yields ASCII text containing F or S, and no priority or status name contains F or S.
- Console prompting is not modelled: `input`, `print`, the retry loops of `prompt_non_empty`, `prompt_priority` and `prompt_status`, `show_item_summary`, `show_item_details`, the other `handle_*` commands and the pre-login menu in `main()`. `Cli.HandleEdit` takes the prompt answers as parameters.
- `SystemExit(0)` on "7" is modelled as the result `Terminated`.
- Concurrent writers and interrupted writes are not modelled. The model runs one operation at a time.
- The calculator in `4688021_Morakot/calculator.py` is not part of this model. Its arithmetic is on floating-point numbers.
