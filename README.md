# bill-collector, modelled in Dafny

bill-collector collects payment receipts from students. Each receipt has:
- a room, a study level and a student ID;
- an amount and a transfer date;
- notes and a photo of the bank slip.

This project models three parts of it.

- **The Flask back end** (`app.py`)
  - Keeps two sqlite tables, `projects` and `receipts`.
  - Seeds a default project when the table is empty.
  - Accepts uploads: the file check, then the `dd/mm/yyyy` to `yyyy-mm-dd` date conversion, then the insert.
  - Creates projects: trims the name, then refuses a blank or duplicate one.
  - Serves a project's submission page.
  - Keeps a `logged_in` session flag that guards the admin dashboard.
- **The server-backed front end** (`static/script.js`)
  - Formats a stored `yyyy-mm-dd` date back to `dd/mm/yyyy` with zero padding.
  - Builds the admin view:
    - receipts are grouped by project name, with `N/A` for receipts without one;
    - inside a project, they are grouped by a `level_room` key;
    - the sub-groups are shown in ascending key order;
    - each header carries its count.
  - Shows the upload page's list view.
  - Builds the shareable `/submit/<id>` links.
  - Builds the multipart request the upload form posts, and reacts to the response.
- **The stand-alone demo page** (`script.js`)
  - Keeps receipts in `localStorage` under the key `receipts`.
  - Refuses a submission without an image; otherwise appends one receipt and writes the array back.
  - Switches to a table when the query string contains `admin=1`.

## Modules

- `wrappers.dfy`, module `Wrappers`: `Option` and `Result`.
- `text.dfy`, module `Text`: the string operations the sources rely on.
  - JavaScript and Python `split`, which keeps empty pieces.
  - `padStart`.
  - Python's `strip` with the `str.isspace` character set.
  - `includes`.
  - Decimal printing and parsing of ids.
  - The character order behind `sort()`.
- `grouping.dfy`, module `Grouping`: the "object of arrays" grouping loop.
  - It has a specification (`IsGrouping`).
  - It preserves order (`SelectAtPositions`).
  - Its groups cover the input exactly once (`GatherPermutation`, `LandsInOneGroup`).
  - It throws on a key that names an inherited `Object.prototype` member.
  - It includes the key sort.
- `static_front_end.dfy`, module `StaticFrontEnd`: `static/script.js`.
  - Its fetched `receipts` and `projects` arrays are the fields of class `ReceiptPage`.
- `backend.dfy`, module `Backend`: `app.py`.
  - The tables, the autoincrement counters and the session flag are the fields of class `Server`.
- `demo_front_end.dfy`, module `DemoFrontEnd`: `script.js`.
  - The in-memory array and the storage are the fields of class `DemoPage`.
- `integration.dfy`, module `Integration`: properties that span `app.py` and `static/script.js`.
  - The two date conversions undo each other.
  - A project link routes back to its project.
  - What the upload form posts is what the upload handler accepts or refuses.

## How the sources' behaviour is modelled

### Dates

- `formatDate` is modelled as `FormatDate`, which takes an `Option<string>` (a JSON `null` is `None`).
- A date with fewer than three `-` pieces makes `padStart` run on `undefined`, which throws. The model returns `Err(TypeError)`.
- A rendered row carries its date as a `Result`. Rendering throws exactly when some row's date is an `Err` (`GroupedThrowsIff`).

### Grouping objects

- The admin view groups receipts in plain objects (`{}`), which inherit the members of `Object.prototype`.
- A key such as `toString`, `constructor` or `__proto__` already finds a truthy value there, so no array is created and the following `push` throws a `TypeError` (`static/script.js:110-113`, `static/script.js:136-139`).
- A level/room key always holds `_`, so only the inherited names with underscores (`__proto__`, `__defineGetter__` and the like) can reach it.
- `GroupBy` returns `Err(TypeError)` exactly when some element's key is one of those names. The display methods pass the error on.
- `AdminViewThrowsIff` combines both ways to throw: the admin view fails exactly when some receipt has an inherited project or level/room key or a date that `formatDate` throws on.

### Uploads (`upload`)

- A file counts as present when it exists and its file name is not empty, as werkzeug's `FileStorage.__bool__` decides.
- A missing form field that the handler indexes directly raises a key error. Flask answers it with 400, except in debug mode, where it is not trapped and gives 500. The app starts with `debug=True` (`app.py:166`); the model takes the setting as the `debug` parameter of `ParseUpload` and the `debug` field of `Server`.
- A non-empty date that does not unpack into three pieces raises, which gives 500.
- The handler evaluates its checks in this order: the file, then `transferDate`, then the date conversion, then the remaining fields. `ParseUpload` keeps that order.

### The server-backed front end's upload form

- The form has no client-side check for a missing file.
- With no file chosen, `FormData.append` stores the text `"undefined"` under `receiptImage`.
- The server then finds no file and answers 400 (`NoImageRejected`).

### Definitions

These functions define terms that the contracts below use. They state nothing beyond their own definition, so they have no row of their own.

- `Text.Repeat`: `n` copies of a character.
- `Grouping.KeysOf`: the key of each element, position by position.
- `Grouping.MapSeq`: `Array.prototype.map`.
- `StaticFrontEnd.SubmitHref`: the path of a project's share link.
- `StaticFrontEnd.ReactTo`: the page's branch on `response.ok`.
- `DemoFrontEnd.Loaded`: the array a page load reads from storage.
- `DemoFrontEnd.NewReceipt`: the receipt the file reader's `onload` builds.

## Model

| member | source | states |
|---|---|---|
| Text.Split | static/script.js:14 | every piece is free of the separator and there is at least one piece |
| Text.JoinSplit | static/script.js:14 | joining the pieces of a split with the separator gives back the original string |
| Text.SplitJoin | static/script.js:144 | splitting a joined list of separator-free pieces gives back the pieces |
| Text.SplitCons | app.py:106 | a separator-free head followed by the separator splits off as the first piece |
| Text.SplitNoSeparator | app.py:106 | a string without the separator is one piece |
| Text.SplitPieceChars | static/script.js:144 | every character of a piece occurs in the split string |
| Text.PadStart | static/script.js:15 | the result is as long as `s` or `n` characters, whichever is more, ends with `s`, and is filled with the pad character before it |
| Text.TrimLeftFacts | app.py:146 | left trimming removes exactly a leading run of whitespace and stops at a non-space |
| Text.TrimRightFacts | app.py:146 | right trimming removes exactly a trailing run of whitespace and stops at a non-space |
| Text.StripFacts | app.py:146 | the stripped text has no whitespace at either end; it is empty iff the text is all whitespace; it sits in the text with only whitespace around it |
| Text.StripIdempotent | app.py:146 | stripping twice is stripping once |
| Text.StripUnchanged | app.py:146 | a text with no whitespace at either end is its own strip |
| Text.IncludesIff | script.js:9 | `includes` holds iff the needle occurs at some position |
| Text.DigitChar | static/script.js:50 | the ASCII digit of a value below ten |
| Text.DigitValue | app.py:64 | the value of an ASCII digit, inverse to `DigitChar` |
| Text.NatToString | static/script.js:50 | decimal text: non-empty, only digits, no leading zero except for 0 itself |
| Text.ParseNat | app.py:64 | parsing succeeds iff the text is a non-empty run of ASCII digits |
| Text.ParseNatToString | app.py:64 | parsing the printed id gives the id back |
| Text.LessIrreflexive | static/script.js:143 | no key sorts before itself |
| Text.LessTransitive | static/script.js:143 | the `sort()` order is transitive |
| Text.LessTotal | static/script.js:143 | two different keys are ordered exactly one way |
| Grouping.Dedup | static/script.js:117 | the keys without repeats: the same keys, each once |
| Grouping.Select | static/script.js:113 | a group holds only elements with its key, at most all of them |
| Grouping.SelectAbsent | static/script.js:110-111 | a key no element has selects nothing |
| Grouping.GroupingStep | static/script.js:108-113 | one more element extends the keys by its key and only its key's group by it |
| Grouping.PushOrder | static/script.js:110-112 | after a push the object's keys are the longer prefix's keys in order of first appearance |
| Grouping.PushEntries | static/script.js:110-113 | after a push each array holds exactly the longer prefix's elements with its key |
| Grouping.PushKeepsGrouping | static/script.js:110-113 | one step of the loop keeps the object the grouping of the prefix read so far |
| Grouping.PushAllGroups | static/script.js:107-114 | pushing all elements yields the grouping of the input |
| Grouping.GroupBy | static/script.js:107-114 | the loop throws `TypeError` iff some element's key names an inherited `Object.prototype` member; otherwise its object lists the keys in first-appearance order, and under each key exactly its elements in input order |
| Grouping.PushStep | static/script.js:110-113 | a key with no own array throws `TypeError` iff it names an inherited member; otherwise the element is pushed onto its key's array, created empty if missing |
| Grouping.InheritedSnoc | static/script.js:108-113 | one more element brings an inherited key iff its own key is one or the prefix already had one |
| Grouping.InheritedNeverListed | static/script.js:110-112 | while no inherited name has been met, no inherited name is among the object's own keys |
| Grouping.Positions | static/script.js:113 | the positions holding a key, ascending |
| Grouping.SelectAtPositions | static/script.js:113 | a group's t-th element is the input's element at the t-th position with that key, so a group keeps input order |
| Grouping.GatherEmpty | static/script.js:117 | no input gives no groups' elements |
| Grouping.GatherSnoc | static/script.js:113 | appending an element adds it to the groups of distinct keys exactly when its key is among them |
| Grouping.GatherPermutation | static/script.js:107-114 | the groups of distinct keys covering all elements are a permutation of the input |
| Grouping.LandsInOneGroup | static/script.js:108-113 | each element's key is listed exactly once and the element is in that key's group |
| Grouping.SelectFromInput | static/script.js:113 | every element of a group comes from the input |
| Grouping.MapSeqSnoc | static/script.js:117 | mapping one more key appends its image |
| Grouping.Insert | static/script.js:143 | insertion adds exactly the one key |
| Grouping.InsertSorted | static/script.js:143 | inserting a new key into an ascending list keeps it ascending |
| Grouping.SortKeys | static/script.js:143 | sorting permutes the keys |
| Grouping.SortKeysSorted | static/script.js:143 | sorted distinct keys are strictly ascending, distinct, and the same keys |
| StaticFrontEnd.FormatDate | static/script.js:12-16 | a null or empty date shows as empty; another date shows iff it has at least three `-` pieces; otherwise `TypeError` |
| StaticFrontEnd.FormatDateParts | static/script.js:14-15 | `y-m-d` shows as `d/m/y` with day and month left-padded with `0` to two characters and the year unchanged |
| StaticFrontEnd.FormatDateTwoDigits | static/script.js:14-15 | `2024-03-05` shows as `05/03/2024`: two-character pieces are kept |
| StaticFrontEnd.FormatDateOneDigit | static/script.js:14-15 | `2024-3-5` shows as `05/03/2024`: one-character pieces get a leading zero |
| StaticFrontEnd.ProjectKeyFallback | static/script.js:109 | a null or empty project name is grouped under `N/A`, any other name under itself |
| StaticFrontEnd.LevelRoomKeySplits | static/script.js:135-144 | the level/room key splits back into level and room when neither holds `_` |
| StaticFrontEnd.RenderRows | static/script.js:190-210 | one row per receipt of a sub-group, in order |
| StaticFrontEnd.RenderList | static/script.js:88-104 | the list view has one item per receipt, in array order |
| StaticFrontEnd.DisplayLevelRooms | static/script.js:133-143 | throws `TypeError` iff some receipt of the project has an inherited level/room key; otherwise the sub-sections are those of its level/room keys in ascending order |
| StaticFrontEnd.DisplaySortedKeys | static/script.js:143-223 | the sub-sections follow the sorted keys of the grouping object |
| StaticFrontEnd.DisplayLevelRoom | static/script.js:144-153 | a sub-section shows the key's first two `_` pieces, the key's receipt count and their rows |
| StaticFrontEnd.SortedKeyIsGrouped | static/script.js:143-145 | each sorted key names a group that holds exactly that key's receipts |
| StaticFrontEnd.DisplayGrouped | static/script.js:106-143 | throws `TypeError` iff some receipt has an inherited project key or level/room key; otherwise the admin view is one section per project key, in order of first appearance |
| StaticFrontEnd.MembersInheritedKey | static/script.js:117-139 | some project's receipts hold an inherited level/room key iff some receipt does |
| StaticFrontEnd.DisplayProjects | static/script.js:117-226 | throws `TypeError` iff some listed project's receipts hold an inherited level/room key; otherwise the sections follow the grouping object's keys |
| StaticFrontEnd.NoProjectThrowsSnoc | static/script.js:117-139 | a project that does not throw extends a prefix of projects none of which throws |
| StaticFrontEnd.DisplayProject | static/script.js:117-140 | throws `TypeError` iff the project's receipts hold an inherited level/room key; otherwise a section shows its receipt count and its level/room sub-sections |
| StaticFrontEnd.TotalCountGather | static/script.js:125 | the section counts add up to the gathered receipts |
| StaticFrontEnd.GroupsCountGather | static/script.js:153 | the sub-section counts add up to the gathered receipts |
| StaticFrontEnd.SortedLevelRoomKeysFacts | static/script.js:143 | the visited level/room keys are strictly ascending, distinct, and exactly the receipts' keys |
| StaticFrontEnd.GroupedTotal | static/script.js:107-125 | the project header counts add up to the number of receipts |
| StaticFrontEnd.ProjectSectionConsistent | static/script.js:133-153 | sub-sections ascend by key; each count equals its rows; the counts add up to the project's count |
| StaticFrontEnd.LevelRoomKeysDistinct | static/script.js:133-143 | a project's sub-sections have distinct keys |
| StaticFrontEnd.RowInLevelRoom | static/script.js:134-140 | a receipt's row is in the sub-section of its level/room key |
| StaticFrontEnd.LandsInOneLevelRoom | static/script.js:133-140 | a receipt lands in exactly one sub-section, the one with its key |
| StaticFrontEnd.LandsInOneProject | static/script.js:107-117 | section names are distinct and one of them is the receipt's project key |
| StaticFrontEnd.SectionGroups | static/script.js:117-143 | a section holds the sub-sections of the receipts with its project key |
| StaticFrontEnd.LandsInExactlyOneSection | static/script.js:107-140 | a receipt lands in exactly one project section and, inside it, in exactly one level/room sub-section holding its row |
| StaticFrontEnd.RowInGrouped | static/script.js:107-210 | every receipt's row is rendered somewhere in the admin view |
| StaticFrontEnd.ReceiptThrowsGroupedThrows | static/script.js:195 | a receipt whose date `formatDate` throws on makes the view throw |
| StaticFrontEnd.RowFromMember | static/script.js:190-195 | every rendered row is the row of one of the project's receipts |
| StaticFrontEnd.GroupedThrowsFromReceipt | static/script.js:190-195 | a throwing row comes from a receipt whose date throws |
| StaticFrontEnd.GroupedThrowsIff | static/script.js:195 | once grouped, the admin view throws iff some receipt's date throws in `formatDate` |
| StaticFrontEnd.AdminViewThrowsIff | static/script.js:106-210 | the admin view fails iff some receipt has an inherited project key, an inherited level/room key or a date `formatDate` throws on |
| StaticFrontEnd.BuildUploadRequest | static/script.js:296-304 | the request carries every form field with its value; with no file, `receiptImage` is a text field instead of a file part |
| StaticFrontEnd.ReceiptPage.constructor | static/script.js:9-10 | the page starts with no receipts and no projects |
| StaticFrontEnd.ReceiptPage.DisplayReceipts | static/script.js:84-228 | the upload page shows one list item per receipt in order; any other page throws `TypeError` iff a key names an inherited member, and otherwise shows the grouped view |
| StaticFrontEnd.ReceiptPage.DisplayProjectLinks | static/script.js:45-55 | one link per project, in the fetched order |
| StaticFrontEnd.ReceiptPage.ReceiveReceipts | static/script.js:58-62 | the fetched receipts replace the array and are displayed, as a list item per receipt on the upload page and otherwise as the grouped view or its `TypeError` |
| StaticFrontEnd.ReceiptPage.ReceiveProjects | static/script.js:19-23 | the fetched projects replace the array and their links are drawn |
| Backend.ConvertDate | app.py:103-109 | an empty date is stored as null; a date fails with 500 iff it does not split into exactly three `/` pieces |
| Backend.ConvertDateParts | app.py:106-107 | `d/m/y` is stored as `y-m-d` |
| Backend.ParseUpload | app.py:96-116 | no file gives 400 with `success: false`; a missing indexed field gives 400, or 500 in debug mode; a bad date gives 500; otherwise the row carries the form's values and the converted date |
| Backend.ProperNameStripped | app.py:146 | a stored name is exactly a non-blank name that stripping leaves unchanged |
| Backend.AppendProjectId | app.py:25 | appending under the next autoincrement id keeps ids ascending |
| Backend.CheckProjectName | app.py:146-155 | refuses as required iff the stripped name is empty, and as existing iff it is taken; otherwise it allows the stripped name |
| Backend.InsertKeepsNames | app.py:26 | inserting a checked name keeps names unique and trimmed |
| Backend.FindProject | app.py:67-69 | finds a project with the id, or none iff no project has it |
| Backend.FindProjectUnique | app.py:64-67 | with autoincrement ids the lookup finds the one project with the id |
| Backend.SubmitRoute | app.py:64 | a path matches the route exactly when it is `/submit/` followed by a decimal id, and then yields that id |
| Backend.AdminGate | app.py:73-93 | a session reaches `admin` iff some login used the admin password and no logout followed |
| Backend.Server.constructor | app.py:22-41 | a fresh database: no rows and counters at 1, under the given debug setting |
| Backend.Server.InitDb | app.py:49-53 | afterwards at least one project exists; the default is inserted only into an empty table |
| Backend.Server.Upload | app.py:95-116 | an accepted upload appends exactly one receipt under the next id; a refused one answers with `ParseUpload`'s error for the server's debug setting and changes nothing; projects never change |
| Backend.Server.CreateProject | app.py:140-159 | a refused name gives 400 with its error and changes nothing; otherwise the trimmed project is appended and the answer is 201 JSON or the redirect script |
| Backend.Server.InsertProject | app.py:150-153 | appends the project under the next id and keeps names unique and trimmed |
| Backend.Server.SubmitPage | app.py:64-71 | an existing project's form, otherwise 404 `Project not found` |
| Backend.Server.Login | app.py:73-82 | the admin password sets the flag and redirects to `admin`; any other password shows the error; GET shows the form |
| Backend.Server.Logout | app.py:84-87 | clears the flag and redirects home |
| Backend.Server.Admin | app.py:89-93 | the dashboard iff logged in, otherwise a redirect to `login` |
| DemoFrontEnd.IsAdminMode | script.js:9 | admin mode iff `admin=1` occurs in the query string |
| DemoFrontEnd.LoadAfterSave | script.js:138 | what a reload reads after a write is what was written |
| DemoFrontEnd.DemoPage.constructor | script.js:9-12 | the mode comes from the query string; the array is what storage holds |
| DemoFrontEnd.DemoPage.Submit | script.js:101-148 | with no file it alerts and changes nothing; otherwise it appends exactly one receipt carrying the clock, the form's values and the image data; storage then mirrors the array, unless the write is refused, when it throws and storage keeps the old array |
| DemoFrontEnd.DemoPage.Display | script.js:15-76 | a table iff admin mode, with exactly one row per receipt in array order |
| Integration.DateRoundTrip | app.py:106-107 | a `dd/mm/yyyy` date with two-character day and month is stored and shown as entered |
| Integration.EmptyDateRoundTrip | app.py:105-109 | an empty date is stored as null and shown as empty |
| Integration.DateNormalises | static/script.js:14-15 | a one-character day or month comes back zero-padded, and that padded form is stored on resubmission |
| Integration.StoredDateRoundTrip | static/script.js:14-15 | a stored date with two-character month and day is stored unchanged after being shown and resubmitted |
| Integration.LinkRoutesToProject | static/script.js:50-51 | a project's link routes to that project's id |
| Integration.FilesOf | static/script.js:304 | the request has a file part iff a file was chosen |
| Integration.NoImageRejected | static/script.js:304 | with no image chosen, the server gives 400 and the page alerts failure |
| Integration.ReportsSuccessIffStored | static/script.js:311-331 | the page reports success for the server's answer iff the upload handler stored the receipt |
| Integration.SubmissionAccepted | static/script.js:296-311 | a submission with an image and a `d/m/y` date stores the form's values with the date as `y-m-d` and reports success |

## Left out

- DOM construction, styling, event wiring and the image preview modal. The model's views are values (rows, sections, links) rather than HTML.
- `fetch`, `async`/`await`, `FileReader`, `setTimeout` and `alert`. A fetch's response is a parameter of `ReceiveReceipts`/`ReceiveProjects`, and the file reader's `onload` is run to completion inside `DemoPage.Submit`. A failing fetch (network error, invalid JSON) is not modelled.
- `fetchSummary` and `get_summary`, `get_receipts` and `get_projects`: their SQL ordering, joins and `SUM` over REAL amounts are not modelled. Amounts are kept as the text the pages print.
- `parseFloat` and `toFixed` on amounts are floating point and are not modelled.
- `secure_filename`, the clock-based file name and `file.save`. The saved name is the `savedName` parameter.
- Backend.Server.Upload: the file is saved before the date is checked, so a request refused with 500 still leaves a file behind. The file system is not modelled.
- Defaulting the date input to today's date (`static/script.js:261-268`). It depends on the clock.
- The `ALTER TABLE` migration for older databases, the `createdAt` column, and `serve_upload`/`home`.
- `create_project` reading JSON values that are not strings (a number or `null` as `name`). Both fields are modelled as text or absent.
- The session is one client's flag. The cookie, its signing and the secret key are not modelled.
- `Object.keys` lists integer-like keys first in numeric order. Project names and level/room keys are treated as ordinary strings listed in insertion order.
- Splitting a level/room key whose level holds `_` is lossy. `LevelRoomKeySplits` states the round trip only for keys without `_`, while the header code itself is modelled for every key.
- Text.ParseNat: werkzeug's integer converter also accepts non-ASCII Unicode digits, which the model does not. Leading zeros are accepted, as werkzeug does.
- `localStorage` holds JSON text. The model stores the array itself, so serialisation and invalid stored JSON are not modelled.
- Strings are sequences of characters with no Unicode normalisation. The whitespace `strip` removes is Python's `str.isspace` set, written out in `Text.IsSpace`. JavaScript measures `padStart` lengths and compares strings in `sort()` by UTF-16 code units, where the model uses characters: the two agree below U+10000, but for characters above U+FFFF `Text.PadStart` pads differently and `Text.Less` can order keys differently.

## No client-side file check on the upload form

The upload form's submit handler appends `files[0]` to the request whether or not a file was chosen (`static/script.js:304`). Only the server refuses a request without a file (`app.py:99`, `app.py:116`). `BuildUploadRequest` always builds a request, and `Integration.NoImageRejected` proves that the server refuses one without an image.
