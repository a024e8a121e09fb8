# ResearchNexus resource store, modelled in Dafny

ResearchNexus is a small file-sharing backend. Supervisors (who belong to a list of numbered
groups) and students (who belong to one group) create folders, upload files into them and mark
each folder or file public or private. Every decision the backend makes is a rule over its
collections:

- resolving an email to the groups it may see;
- a create-time gate that refuses an existing identity lacking the group;
- a listing filter (the item's group is allowed, and the caller owns it or it is public);
- `max id + 1` identifiers;
- a per-folder `File` counter kept by `$inc` on upload and delete;
- the first-match lookups and in-place updates of the document store.

The model is one Dafny module per concern:

- `Responses`: the error statuses (BadRequest, Forbidden, NotFound, ServerError) and the
  result types.
- `Sequences`: the store's query primitives. `Filter` is a `find`, `FindFirst` and
  `FirstIndex` are a `findOne`, `MaxId`/`NextId` give `findOne().sort({ id: -1 })` plus one,
  and `RemoveFirst` is a `findOneAndDelete`. Collections keep store order.
- `Records`: the Supervisor, Student, Folder and File documents, the Supervisor schema
  (required fields, unique Gmail, `groups` defaulting to `[]`) and the two identity lookups.
- `Access`: allowed groups, the create gate, the visibility rule and the name match.
- `FolderController`, `FileController`, `AuthController`: the pure part of each controller.
  These are listings, searches, the record a create builds, the update of one folder, the
  counter `$inc`, the download decision, login, and group normalisation.
- `Store`: class `ResourceStore`. It holds the four collections as `seq` fields and the
  blobs on disk as a `set` of paths. Each mutating controller is a method whose
  postcondition gives the new state as a function of the old one. `Valid()` keeps the
  supervisor schema and unique folder and file ids.
- `Scenarios`: request sequences on a fresh store, with the outcome proved.

## Behaviours of the code worth knowing

The model follows the code, including these behaviours, which a reader of the endpoints
alone might not expect:

- **Ids are reused.** A new folder or file takes the current largest id plus one
  (BACKEND/controllers/folderController.js:28-29, BACKEND/controllers/fileController.js:67-68).
  So after the folder with the largest id is deleted, the next folder gets the same id
  (`Scenarios.OrphanedFileScenario`).
- **A folder's counter can go below zero.** Deleting a folder removes only the folder record
  and none of its files (BACKEND/controllers/folderController.js:132). Deleting a file lowers
  the counter of whatever folder now carries the file's parent id
  (BACKEND/controllers/fileController.js:198-201). When that id was reused, the new folder's
  counter drops to -1 (`Scenarios.OrphanedFileScenario`).
- **A refused upload keeps its blob.** The upload middleware writes the blob before the
  handler's checks run (BACKEND/controllers/fileController.js:38-65), so a Forbidden or
  BadRequest upload leaves its blob on disk with no record
  (`Scenarios.RefusedUploadScenario`, `Store.ResourceStore.UploadFile`).
- **The upload gate ignores the folder.** It checks the group submitted with the form, never
  the target folder's group (BACKEND/controllers/fileController.js:52-65). The folder need not
  even exist: then no counter changes (`FileController.UploadGateIgnoresFolder`,
  `FolderController.BumpFileCount`).
- **No ownership is checked** on update or delete of a folder
  (BACKEND/controllers/folderController.js:83-87, 132), nor on download or delete of a file
  (BACKEND/controllers/fileController.js:164, 188).

## Model

| member | source | states |
|---|---|---|
| `Sequences.Filter` | BACKEND/controllers/folderController.js:63-69 | a store query returns exactly the stored records the filter accepts, each as many times as it is stored, and never more records than are stored |
| `Sequences.FilterAgrees` | BACKEND/controllers/folderController.js:112-119 | two filters that agree on every stored record return the same sequence |
| `Sequences.FindFirst` | BACKEND/controllers/folderController.js:13-14 | `findOne` finds nothing iff no record satisfies the condition, and otherwise a stored record that satisfies it |
| `Sequences.FindFirstIsEarliest` | BACKEND/controllers/folderController.js:13-14 | `findOne` returns the earliest satisfying record in store order |
| `Sequences.FirstIndex` | BACKEND/controllers/folderController.js:83-87 | the record `findOneAndUpdate` touches: none iff no record has the id, otherwise the earliest position holding it |
| `Sequences.MaxId` | BACKEND/controllers/folderController.js:28 | the record sorted first by descending id carries an id that is stored and no smaller than any other |
| `Sequences.NextId` | BACKEND/controllers/folderController.js:28-29 | a new id is greater than every existing id; it is an existing id plus one, or 1 when there is none |
| `Sequences.NextIdKeepsUnique` | BACKEND/controllers/folderController.js:28-29 | appending the next id to unique ids keeps them unique |
| `Sequences.NextIdAfterSequential` | BACKEND/controllers/folderController.js:28-29 | records created one by one from none get ids 1..n with no gap or repeat |
| `Sequences.RemoveFirst` | BACKEND/controllers/folderController.js:132 | `findOneAndDelete` removes one record when one has the id and nothing otherwise; with unique ids it removes exactly the record with that id and keeps the rest unique |
| `Records.SupervisorDocument` | BACKEND/models/Supervisor.js:19-22 | a supervisor document keeps the given fields, and its groups default to the empty list |
| `Records.FindSupervisor` | BACKEND/controllers/folderController.js:13 | the supervisor lookup finds nothing iff no supervisor has the email, and otherwise one that has it |
| `Records.FindStudent` | BACKEND/controllers/folderController.js:14 | the student lookup finds nothing iff no student has the email, and otherwise one that has it |
| `Records.SupervisorLookupIsUnique` | BACKEND/models/Supervisor.js:14-18 | with Gmail unique, at most one supervisor matches an email and the lookup returns it |
| `Records.StudentLookupIsEarliest` | BACKEND/controllers/folderController.js:14 | the student lookup returns the earliest student with the email |
| `Access.AllowedGroups` | BACKEND/controllers/folderController.js:55-61 | an email nobody carries may see no group; a supervisor's email sees that supervisor's groups; a student's email with no same-email supervisor sees that student's one group (see also `SupervisorGate`, `StudentGate`, `UnknownEmailFallsThrough`) |
| `Access.VisibleTo` | BACKEND/controllers/folderController.js:63-69 | an item shows only if its group is allowed; a public item shows iff its group is allowed; a private one iff its group is allowed and the caller owns it; no allowed group shows nothing (see also `PrivateFolderOwnerOnly`) |
| `Access.CreateCheck` | BACKEND/controllers/folderController.js:18-26 | the create gate only ever refuses with Forbidden |
| `Access.CreateCheckMatchesAllowedGroups` | BACKEND/controllers/folderController.js:18-26 | the gate passes iff the email belongs to no identity or the group is among its allowed groups (both directions) |
| `Access.UnknownEmailFallsThrough` | BACKEND/controllers/folderController.js:18-26 | an email nobody carries passes the gate for every group, yet is allowed to see no group |
| `Access.SupervisorGate` | BACKEND/controllers/folderController.js:18-21 | a supervisor's allowed groups are its groups, and it passes iff the group is among them, whatever students exist with its email |
| `Access.StudentGate` | BACKEND/controllers/folderController.js:22-25 | a student with no same-email supervisor may see exactly its own group and passes iff the group is its own |
| `Access.SupervisorWithoutGroups` | BACKEND/models/Supervisor.js:19-22 | a supervisor with empty groups may see no group and every create it makes is Forbidden |
| `Access.OccursIff` | BACKEND/controllers/folderController.js:113 | the substring test holds exactly when the query sits at some offset of the name (both directions) |
| `Access.Matches` | BACKEND/controllers/folderController.js:113 | a name matches a query iff the lowered query sits at some offset of the lowered name (see also `MatchesAtOffset`, `OffsetOfMatch`) |
| `Access.OffsetOfMatch` | BACKEND/controllers/folderController.js:113 | a matching query occurs in the name, letter case aside, at an offset the lemma returns |
| `Access.MatchesAtOffset` | BACKEND/controllers/folderController.js:113 | a query matches every name it occurs in, regardless of letter case |
| `Access.EmptyQueryMatchesAll` | BACKEND/controllers/folderController.js:113 | the empty query matches every name |
| `FolderController.ListFolders` | BACKEND/controllers/folderController.js:55-69 | getFolders returns exactly the folders whose group is allowed for the email and that it owns or that are public |
| `FolderController.SearchFolders` | BACKEND/controllers/folderController.js:104-119 | searchFolders returns exactly the folders that match the query and also pass the listing filter |
| `FolderController.SearchWithinListing` | BACKEND/controllers/folderController.js:112-119 | every folder a search returns is also returned by getFolders for the same email |
| `FolderController.EmptySearchIsListing` | BACKEND/controllers/folderController.js:112-119 | a search with the empty query returns the getFolders result, in the same order |
| `FolderController.UnknownEmailListsNothing` | BACKEND/controllers/folderController.js:55-61 | an email nobody carries lists no folder |
| `FolderController.NoGroupsListsNothing` | BACKEND/controllers/folderController.js:57-58 | a supervisor with empty groups lists and finds no folder |
| `FolderController.PrivateFolderOwnerOnly` | BACKEND/controllers/folderController.js:63-69 | a private folder is listed for an email iff the email owns it and its group is allowed for the email |
| `FolderController.DeletedFolderNotListed` | BACKEND/controllers/folderController.js:132 | after deleteFolder, no folder with that id is listed for anyone |
| `FolderController.NewFolder` | BACKEND/controllers/folderController.js:28-39 | a new folder's id exceeds every folder id (max + 1, or 1 when there are none); it carries exactly the given name, visibility, owner and group, with a counter of 0 |
| `FolderController.NewFolderKeepsIdsUnique` | BACKEND/controllers/folderController.js:28-29 | appending the new folder keeps folder ids unique |
| `FolderController.SequentialFolderIds` | BACKEND/controllers/folderController.js:28-29 | folders created one after another from none get ids 1, 2, 3, ... |
| `FolderController.Rename` | BACKEND/controllers/folderController.js:83-87 | updateFolder replaces only Name and Visibility of the folder with the id; ids, owners, groups, counters and all other folders stay; no matching folder means no change |
| `FolderController.BumpFileCount` | BACKEND/controllers/fileController.js:82-85 | the `$inc` adds delta to the counter of the folder with the id and changes nothing else; no matching folder means no change; no bound applies |
| `FolderController.BumpRoundTrip` | BACKEND/controllers/fileController.js:198-201 | lowering a counter by what was added restores every folder |
| `FileController.ParseVisibility` | BACKEND/controllers/fileController.js:74 | a stored file is public iff its Visibility field was the text "true" or the boolean true |
| `FileController.CheckUpload` | BACKEND/controllers/fileController.js:38-65 | an upload is BadRequest iff no file came or Name, Folder, ownerEmail or Group_id is missing; otherwise it meets the same gate as folder creation |
| `FileController.UploadGate` | BACKEND/controllers/fileController.js:52-65 | a complete upload passes iff the uploader is unknown or the submitted group is among its allowed groups |
| `FileController.UploadGateIgnoresFolder` | BACKEND/controllers/fileController.js:52-65 | the upload decision does not depend on the target folder |
| `FileController.NewFile` | BACKEND/controllers/fileController.js:67-78 | a new file's id exceeds every file id (max + 1, or 1 when there are none); it carries the form's fields, the parsed visibility and the blob path |
| `FileController.NewFileKeepsIdsUnique` | BACKEND/controllers/fileController.js:67-68 | appending the new file keeps file ids unique |
| `FileController.ListFilesInFolder` | BACKEND/controllers/fileController.js:103-118 | getFilesByFolder returns exactly the files in that folder that pass the group and owner-or-public filter |
| `FileController.SearchFiles` | BACKEND/controllers/fileController.js:136-151 | searchFiles returns exactly the files, in any folder, that match the query and pass the filter |
| `FileController.UnknownEmailSeesNoFiles` | BACKEND/controllers/fileController.js:103-118 | an email nobody carries lists and finds no file |
| `FileController.NoGroupsSeesNoFiles` | BACKEND/controllers/fileController.js:103-118 | a supervisor with empty groups lists and finds no file |
| `FileController.FindFile` | BACKEND/controllers/fileController.js:164 | the file lookup finds nothing iff no file has the id, and otherwise a file with that id |
| `FileController.DownloadFile` | BACKEND/controllers/fileController.js:164-176 | a download is NotFound when no record has the id; a served download is a stored blob of a record with the id, named after the record and not its path |
| `FileController.DownloadOfRecord` | BACKEND/controllers/fileController.js:164-176 | with unique ids, downloading a file's id serves its blob under its name iff the blob is stored, and is NotFound otherwise |
| `FileController.DeletedFileNotFound` | BACKEND/controllers/fileController.js:188-203 | once a file record is deleted, downloading its id is NotFound |
| `FileController.UploadThenDeleteRestores` | BACKEND/controllers/fileController.js:198-203 | deleting a just-uploaded file restores the file records and every folder counter |
| `AuthController.NormaliseGroups` | BACKEND/controllers/authController.js:38-40 | an array of groups keeps its length and order; a single value becomes a one-element list |
| `AuthController.SaveCheck` | BACKEND/models/Supervisor.js:6-18 | a supervisor save is refused (as a server error) iff Name, Interest or Gmail is empty or the Gmail is taken |
| `AuthController.SaveKeepsSupervisorsWellFormed` | BACKEND/models/Supervisor.js:14-18 | an accepted save keeps Gmail unique and every supervisor's required fields present |
| `AuthController.Login` | BACKEND/controllers/authController.js:11-26 | "supervisor" looks among supervisors only and any other userType among students only; NotFound iff that collection lacks the email; a success returns the matching record and echoes userType |
| `AuthController.LoginReadsOneCollection` | BACKEND/controllers/authController.js:11-16 | the login reply does not depend on the collection userType does not select |
| `AuthController.SupervisorLogin` | BACKEND/controllers/authController.js:11-26 | with unique Gmails a supervisor login returns that very supervisor |
| `Store.ResourceStore.RegisterSupervisor` | BACKEND/controllers/authController.js:38-50 | a refused save answers ServerError and changes nothing; otherwise exactly one supervisor, with normalised groups, is appended and nothing else changes |
| `Store.ResourceStore.RegisterStudent` | BACKEND/controllers/authController.js:61-69 | exactly one student with its single group is appended and nothing else changes |
| `Store.ResourceStore.CreateFolder` | BACKEND/controllers/folderController.js:13-40 | a refused gate answers Forbidden and changes nothing; otherwise the new folder is appended after the unchanged existing ones and nothing else changes |
| `Store.ResourceStore.UpdateFolder` | BACKEND/controllers/folderController.js:83-89 | the folders become the renamed ones; the updated record is returned, or none iff no folder has the id; no ownership check |
| `Store.ResourceStore.DeleteFolder` | BACKEND/controllers/folderController.js:132 | the folder with the id is removed and no file record changes |
| `Store.ResourceStore.UploadFile` | BACKEND/controllers/fileController.js:38-87 | a sent blob is kept in every outcome; a refused upload adds no record and changes no counter; otherwise the new record is appended and its folder's counter rises by one |
| `Store.ResourceStore.DeleteFile` | BACKEND/controllers/fileController.js:188-204 | a missing id answers NotFound and changes nothing; otherwise the blob is gone, the parent folder's counter drops by one and only that record is removed |
| `Scenarios.SharedGroupScenario` | BACKEND/controllers/fileController.js:111-118 | after a supervisor's private folder receives a student's private file, the owner lists the folder (counter 1) and another student of the group sees no file in it |
| `Scenarios.OrphanedFileScenario` | BACKEND/controllers/fileController.js:198-201 | deleting a folder, creating another (which reuses id 1) and deleting the orphaned file leaves the new folder's counter at -1 |
| `Scenarios.RefusedUploadScenario` | BACKEND/controllers/fileController.js:52-65 | a student uploading with another group's id is Forbidden, no record is created, and the blob stays stored |

## Left out

- Multer setup is not modelled: creating the upload directory, naming blobs by timestamp, and
  the 10 MB limit. The blob path is an input and disk is a set of paths.
- A download resolves the path against the backend directory and a delete against the
  process's working directory. Both are modelled as membership of the same path in the blob set.
- `parseInt` is not modelled. Group ids, folder ids and record ids arrive as integers, so
  NaN and partly numeric text are not modelled: these are strings that can fail to convert.
- Mongo `$regex` is not modelled. A name matches a query when the query occurs in it, with
  ASCII letters compared case-insensitively. Regular-expression syntax in a query is not
  interpreted.
- Missing upload fields: a text field counts as missing when absent or empty. A folder or
  group id of `None` stands for a field that is absent or empty; the form delivers these as
  text, and the empty text is falsy (BACKEND/controllers/fileController.js:45). Other
  non-numeric text is not modelled, since `parseInt` is not.
- The Student, Folder and File schemas are not part of this model. Any validation or casting
  they do is not modelled, and student emails are not assumed unique. Folder visibility is
  taken as a boolean, and a new folder's counter starts at 0.
- Supervisor timestamps are not modelled.
- The generic 500 handlers for unexpected exceptions are not modelled. Neither are the
  non-atomic pairing of record and counter writes, or concurrent requests, which can race
  on `max id + 1` and on `$inc`.
- Response bodies and messages are not modelled. Statuses are the `Error` names, and
  updateFolder's `null` reply is `None`.
- HTTP routing, server start-up and the React frontend are not modelled. The frontend's
  owner-only Edit and Delete buttons are client-side only.
- `FolderController.Rename`: the per-folder effect is stated only for unique folder ids. The
  store's `Valid()` always keeps ids unique. Otherwise the contract gives only that ids and
  length are kept.
- `FolderController.BumpFileCount`: the per-folder effect is stated only for unique folder
  ids, as for `Rename`.
- `Sequences.RemoveFirst`: which record goes is stated only for unique ids. Otherwise the
  contract gives only the length.
