# Node Nexus: a verified model of its stateful cores

Node Nexus runs commands and scripts on remote nodes over SSH, installs them from template packs,
schedules them, and records what happened. This project models the parts of it that carry state
over time or translate between formats, and proves what those parts promise over every input and
every run.

| file | part of the system |
|---|---|
| `Utf8.dfy`, `Base64.dfy`, `Output.dfy` | RFC 3629 and RFC 4648 codecs, output truncation, bounded capture of a chunked stream |
| `Names.dfy`, `Assets.dfy`, `PackContent.dfy` | name planning, asset validation and storage, validation of pack content |
| `PackDb.dfy`, `PackInvariant.dfy`, `PackTheorems.dfy`, `PackArchive.dfy`, `PackGateway.dfy` | the pack tables, their transactions, the invariant of every reachable state, whole-transaction theorems, the archive round trip, and the gateway that changes the tables in place |
| `Shell.dfy`, `ShellLaws.dfy`, `Nesting.dfy`, `Template.dfy`, `Shape.dfy`, `RemoteCommand.dfy` | POSIX token recognition with nested expansions and `shlex.quote`, the laws that the recognition follows, expansions as texts of their own, one-pass template rendering, when values leave the tokens' shape alone, the two shell levels of a streamed command |
| `Outbox.dfy`, `OutboxWorkers.dfy` | audit delivery: the sequential machine, and concurrent workers that refine it |
| `RateLimiter.dfy` | the sliding-window limiter with its bounded client table |
| `Script.dfy` | step resolution and the script interpreter |
| `Schedule.dfy`, `ScheduleRequests.dfy` | reconciliation of the job table, and schedule requests that overlap |
| `Ownership.dfy`, `LegacyOwnership.dfy` | the election of the replica that may run jobs, with the ownership port and without it |
| `Sse.dfy`, `Tokens.dfy` | event fan-out, refresh-token rotation |

Code that works in place is a class or a method whose contract equates the new state with a
function of the old one; the theorems are lemmas about that function. Concurrent code is a state
machine whose steps are what happens between two awaits, or at the database server; runs are
sequences of steps, and theorems quantify over all of them.

## Where the code and its own text part

- Per-item errors (template_pack.py:353-356) do not cover what validation lets through and the table
  refuses at the flush: a timeout outside 1..3600 (line 134), and a description or tags that are not
  text (lines 139-141, 174-175, against app/models/command.py:31-37). One such item rolls the whole
  installation back. `FailModeInstallIff` and `RenameModeInstallIff` give the exact condition,
  `RenameInstallsCleanContent` the content that always installs, `ValidatedItemStopsTheRest` three
  packs that do not.
- A sync with an equal manifest digest keeps the old assets, even when both digests are absent
  (template_pack.py:588). The digest is that of manifest.json alone (app/adapters/github/template_source.py:168-173),
  so that an asset edited beside an unchanged manifest never arrives: `SyncRoundTripIff`, and
  `EqualDigestsKeepOldFiles` for a run with any digest or none.
- `update_pack` says that a conflict leaves the pack uninstalled (template_pack.py:558-560). Both
  halves share one transaction, so the conflict rolls the uninstallation back: `UpdatePack`.
- A placeholder inside quotes, backquotes or an arithmetic expansion, after a backslash or `$`, or in a
  comment is quoted for the wrong context: `QuotingWorksIff` says at which positions quoting means
  what it should. Inside `$(...)` and after closed expansions it does.
- To the renderer `${HOME}` holds a placeholder (template.py:25): an inline command with it never
  resolves (`InlineStepUnchanged`), and in a stored command it must be declared, optional and without
  a value.
- `shlex.quote` leaves a value of safe characters bare, and the shell grammar may still give a bare
  word another role: digits right before `<` or `>` are an IO number, a lone word may be reserved or
  an assignment. `OneShapeIff` says for which templates this decides the tokens, `LoneValueBecomes`
  for which values; a value that gets quotes never does (`QuotedValueNeverBecomes`).
- `Retry-After` truncates, so a client that waits exactly that long may be refused once more:
  `RetryAfterIsHonest`, and `WaitingTheHeaderFails` for a run.
- `registration_failed` (schedule_reconciliation.py:43) violates the CHECK of its table, so the
  first refused trigger aborts the pass: `UndisturbedPassCompletesIff`, `RefusedTriggerAborts`. An
  unknown time zone is a KeyError, which the pass does not catch either.
- Two replicas may report ownership while one of them is inside `release` after its unlock, and
  from the loss of the owner's connection on, since a failed probe clears `_owns_execution` only,
  which is not read where the port is configured: `AtMostOneOwner` and `MutualExclusion` say exactly
  when exclusion holds, `LossAdmitsSecondOwner` and `ReleaseAdmitsSecondOwner` that the exceptions
  are real from every state.
- An acquisition that fails or is cancelled after the server has granted the lock gives its connection back
  without an unlock (scheduler_ownership.py:39-49): nobody then owns the lock, and nobody gets it, until
  that session dies: `InterruptLeaksLock`, `UnclaimedLockBlocks`. Acquiring again in the same session does not
  help, because the lock is counted: `ReleaseUndoesAcquire`.
- Without the port a failed probe does end the claim, but every replica claims ownership until it
  first asks for the lock (app/adapters/runtime/apscheduler_runtime.py:81):
  `LegacyOwnership.AtMostOneOwner`.
- Overlapping requests for one script may leave a job without a row, or the older of two jobs, until
  the next pass (schedule_management.py:58-94): `FinishedRequestsAgreeIff` says exactly when,
  `DeletionLeavesOrphan` gives a run. Requests kept apart never do: `SeparateRequestsAgree`.
- A step without a label, an inline command that is not text, parameters that are not an object, a
  malformed command id and stored parameters that cannot be read each abort the whole script, not
  their step (script_execution_service.py:222-271). Validation of a pack lets all of them through
  (template_pack.py:154-169): `ResolveAllIff`, `ValidatedScriptAborts`.
- A logout with a token that a concurrent refresh has already rotated logs nobody out:
  `LogoutEndsLineageIff`, `RefreshBeatsLogout`.
- A dropped event subscriber is never told: its reader waits on keep-alives for ever
  (`DroppedGetsNothingMore`).

## Model

| member | source | states |
|---|---|---|
| `Utf8.EncodeDecode` | app/adapters/persistence/template_asset.py:58-59 | bytes that decode as UTF-8 are the encoding of the decoded text: no overlong form, surrogate or code point beyond U+10FFFF is accepted |
| `Utf8.DecodeEncode` | app/adapters/persistence/template_pack.py:974 | encoding a text and decoding it strictly gives the text back |
| `Utf8.KnownEncodings` | app/adapters/persistence/template_pack.py:974 | the encodings of one to four bytes that the standard gives as examples |
| `Utf8.FitIsMaximal` | app/application/policies/output.py:31 | the characters counted as fitting take at most the limit in bytes, and one more would exceed it |
| `Utf8.DecodeCut` | app/application/policies/output.py:31 | decoding an encoding cut at any byte gives exactly the characters that fit; with `replace`, one U+FFFD more iff the cut falls inside a character |
| `Base64.Decode64Encode64` | app/adapters/persistence/template_pack.py:977 | base64 decoding inverts base64 encoding for every byte string |
| `Base64.DecodeSucceedsIff` | app/adapters/persistence/template_pack.py:977 | decoding accepts exactly whole groups of four digits, the last of which may end in one or two padding characters |
| `Base64.AlphabetIs` | app/adapters/persistence/template_pack.py:977 | the digits are those of the standard alphabet, in its order |
| `Base64.KnownEncodings` | app/adapters/persistence/template_pack.py:977 | the test vectors for six, five and four bytes |
| `Base64.Encode64IsLonger` | app/adapters/persistence/template_pack.py:975 | the UTF-8 size of a non-empty base64 text differs from (exceeds) the size of the bytes it spells, so the stored size tells the two storage conventions apart |
| `Output.BoundOutputIsLongestPrefix` | app/application/policies/output.py:17-36 | the result is a prefix within the limit that contains every prefix within the limit, carries the original size, and is flagged iff the original exceeds the limit |
| `Output.BoundOutputTwice` | app/application/policies/output.py:17-36 | bounding by two limits in turn is bounding once by the smaller |
| `Output.BoundOutputIdempotent` | app/application/policies/output.py:17-36 | bounding again changes nothing and flags nothing |
| `Output.ReadBoundedStream` | app/adapters/runtime/ssh.py:28-40 | for every chunking: text within `max_bytes` comes back as it is; of longer text its longest prefix within the limit, one U+FFFD if bytes of the next character were captured too, and the truncation marker |
| `Output.CaptureIsUnique` | app/adapters/runtime/ssh.py:28-40 | these clauses determine the captured text |
| `Names.DecimalInjective` | app/adapters/persistence/template_pack.py:96 | distinct suffixes have distinct decimal texts |
| `Names.DecimalSpells` | app/adapters/persistence/template_pack.py:96 | the suffix is the decimal text of its number: digits without a leading zero that spell it |
| `Names.Pigeonhole` | app/adapters/persistence/template_pack.py:94-99 | at most as many consecutive candidates can be taken as there are names |
| `Names.FindUniqueName` | app/adapters/persistence/template_pack.py:91-99 | the search loop terminates and returns the specified unique name |
| `Names.UniqueNameIsLeast` | app/adapters/persistence/template_pack.py:91-99 | a taken base gets `base_k` iff k is the least suffix from 1 that is free; k is at most the number of existing names |
| `Names.PlanIsSound` | app/adapters/persistence/template_pack.py:389-411 | planned names are pairwise distinct and disjoint from the existing ones |
| `Names.PlanAt` | app/adapters/persistence/template_pack.py:392-401 | each planned name is the requested one if free, else the candidate with the least suffix free of existing and earlier planned names |
| `Names.PlanSucceedsIff` | app/adapters/persistence/template_pack.py:394-396 | `fail` accepts exactly the lists without a clash and plans them unchanged; `rename` accepts every list |
| `Names.ClashIsFirst` | app/adapters/persistence/template_pack.py:394-396 | what `fail` refuses is the first name that the table or an earlier item has |
| `Names.PlanNames` | app/adapters/persistence/template_pack.py:389-411 | the planning loop computes the specified plan, or the first clash |
| `Assets.ValidPathStaysBelowRoot` | app/adapters/persistence/template_pack.py:70-79 | a validated path never leaves the extraction root at any component and ends one level down per component |
| `Assets.ValidPathIff` | app/adapters/persistence/template_pack.py:70-79 | a path is valid iff it has at most 255 characters, no backslash, and is one or more components joined by slashes, none of them empty, a dot or two dots |
| `Assets.ReadStoredAsset` | app/adapters/persistence/template_pack.py:970-1006 | reading back inverts the UTF-8-or-base64 storing choice for every byte string |
| `Assets.DecodeAssets` | app/adapters/persistence/template_pack.py:222-256 | accepts exactly the acceptable lists, and returns each path with the bytes that its base64 text spells, in order |
| `Assets.AcceptableIff` | app/adapters/persistence/template_pack.py:222-256 | the limits in numbers: 100 files of at most 1 MiB each and 10 MiB together, distinct valid paths, base64 |
| `PackContent.ItemsPartition` | app/adapters/persistence/template_pack.py:413-444 | valid drafts and rejected items together carry exactly the planned names, with multiplicity |
| `PackContent.DraftOrigin` | app/adapters/persistence/template_pack.py:417-420 | a draft is written iff it is some item validated under its planned name |
| `PackContent.DraftsDistinct` | app/adapters/persistence/template_pack.py:417-431 | drafts inherit pairwise distinct names from the plan |
| `PackContent.ValidateIff` | app/adapters/persistence/template_pack.py:126-179 | validation accepts an object iff its name has 1 to 255 characters and it spells a body, field by field, with the defaults for absent fields; and then it returns that body |
| `PackContent.ValidateRoundTrip` | app/adapters/persistence/template_pack.py:126-179 | every legal command or script body comes back from the object that spells it |
| `PackContent.RefusedIff` | app/models/command.py:14-45 | the content that passes validation and is then refused, said of the JSON: a timeout outside 1..3600, or a description or a tag that is neither null nor a text |
| `PackInvariant.UninstallRemovesOwnedRows` | app/adapters/persistence/template_pack.py:517-540 | uninstall removes exactly the rows owned by the pack and its links, clears its mark, and touches nothing else, even after users deleted installed rows |
| `PackInvariant.UninstallKeepsInv` | app/adapters/persistence/template_pack.py:517-548 | uninstall keeps the whole invariant |
| `PackInvariant.PreparedDrafts` | app/adapters/persistence/template_pack.py:384-444 | what an installation is about to write is new to each table and pairwise distinct in it |
| `PackInvariant.InstallKeepsInv` | app/adapters/persistence/template_pack.py:364-515 | a successful installation keeps the whole invariant |
| `PackInvariant.DeleteAfterUninstall` | app/adapters/persistence/template_pack.py:664-671 | deleting a pack removes exactly its rows, links and assets: the foreign keys find nothing more to null or cascade |
| `PackInvariant.DeleteRegistryKeepsInv` | app/adapters/persistence/template_registry.py:128-136 | deleting a registry turns its packs into local ones and keeps the invariant, the uniqueness of local slugs included: the partial index refuses it otherwise |
| `PackInvariant.ApplyKeepsInv` | app/adapters/persistence/template_pack.py:258-671 | every transaction, the deletion of a registry, and every edit or deletion of a row by users keeps the invariant |
| `PackInvariant.ReachableInv` | app/adapters/persistence/template_pack.py:258-671 | in every reachable state names are unique per table, a pack is marked installed iff it has links, every owned row has a link of its pack, every link whose row exists leads to a row of that pack, and every asset reads back |
| `PackTheorems.InstallThenUninstallRestores` | app/adapters/persistence/template_pack.py:499-540 | uninstalling right after installing gives back all tables exactly |
| `PackTheorems.FailModeInstallIff` | app/adapters/persistence/template_pack.py:364-503 | `fail` installs iff no name clashes and no item passes validation with a timeout, description or tags that the columns refuse |
| `PackTheorems.InstallErrorIs` | app/adapters/persistence/template_pack.py:364-411 | which error an installation ends with: unknown pack, installed already, under `fail` the first name that clashes, commands before scripts, otherwise content that the table refuses |
| `PackTheorems.RenameModeInstallIff` | app/adapters/persistence/template_pack.py:364-503 | `rename` installs iff no item that validates under its new name, which is at most 255 characters, has a timeout, description or tags that the columns refuse; names alone never stop it |
| `PackTheorems.RenameInstallsCleanContent` | app/adapters/persistence/template_pack.py:353-356 | content in which no item has such fields always installs under `rename`, whatever names exist and however many items are malformed |
| `PackTheorems.ValidatedItemStopsTheRest` | app/adapters/persistence/template_pack.py:134-143 | three concrete packs (timeout 0, description 5, tags [1]) whose validated second item aborts the installation of a valid first one, against the per-item promise at lines 353-356 |
| `PackTheorems.ReportCoversItems` | app/adapters/persistence/template_pack.py:505-515 | every content item appears in exactly one result, under its planned name, and the counts add up |
| `PackTheorems.SuccessesHaveIds` | app/adapters/persistence/template_pack.py:505-515 | of the results exactly the first, as many as succeeded, have an id |
| `PackTheorems.ReportedRowsExist` | app/adapters/persistence/template_pack.py:446-487 | each reported success is a row of the pack with the reported id, name and validated body |
| `PackTheorems.InstalledRowsSpellItems` | app/adapters/persistence/template_pack.py:446-487 | after an installation the rows of the pack are exactly the bodies that its JSON items spell, each under its planned name |
| `PackTheorems.InstallTouchesOnlyItsPack` | app/adapters/persistence/template_pack.py:446-503 | rows, links, packs and files of others are untouched; the pack is marked with its version iff an item succeeded |
| `PackTheorems.DeleteRemovesOnlyItsPack` | app/adapters/persistence/template_pack.py:664-671 | deleting a pack removes its rows, links and files and nothing else |
| `PackTheorems.PatchIs` | app/adapters/persistence/template_pack.py:638-661 | a patch changes the given fields of this pack only |
| `PackTheorems.CreateIff` | app/adapters/persistence/template_pack.py:261-281 | which manifests are accepted: a legal id, acceptable files, and no pack of this registry and slug; and which of the three stands in the way |
| `PackTheorems.PackIds` | app/adapters/persistence/template_pack.py:60-67 | the form of a pack id, by its limits and the characters next to the allowed ones |
| `PackTheorems.UserEditsAre` | app/adapters/persistence/command_management.py:54-97 | a user creates or edits a row iff no other row of the table has the name and the columns accept the content; owners and other rows stay |
| `PackTheorems.DeleteRegistryIs` | app/adapters/persistence/template_registry.py:128-136 | deleting a registry makes exactly its packs local, and is refused iff one of them has the slug of a local pack |
| `PackTheorems.UpdatedRowsSpellItems` | app/adapters/persistence/template_pack.py:551-567 | an update leaves the rows of others as they were, and of the pack exactly the bodies that its items spell, under the names planned against those rows |
| `PackTheorems.UpdateRepeats` | app/adapters/persistence/template_pack.py:551-567 | repeating an update in the same mode succeeds and gives the same names and bodies, with other rows untouched |
| `PackArchive.TarExtracts` | app/adapters/persistence/template_pack.py:950-965 | unpacking the archive gives every stored file once, whatever the row order; no validated path is skipped |
| `PackArchive.ArchiveIsComplete` | app/adapters/persistence/template_pack.py:935-967 | in every reachable state the archive of a pack unpacks to its stored contents |
| `PackArchive.CreateStoresUploads` | app/adapters/persistence/template_pack.py:261-303 | creating a pack stores the manifest's registry, slug, version, digest, commands and scripts, not installed, and exactly the uploaded files, and changes no other pack, file or row |
| `PackArchive.SyncStoresUploads` | app/adapters/persistence/template_pack.py:570-636 | a sync that creates or updates stores the manifest's version, digest, commands and scripts and exactly the uploaded files, and changes nothing else; it reports unchanged iff the digests are equal |
| `PackArchive.SyncRoundTripIff` | app/adapters/persistence/template_pack.py:588-589 | after a sync the unpacked archive, in any row order, is the uploaded map iff the digest was new or the same files were already stored; equal digests (two absent ones included) keep the old files |
| `PackArchive.SecondSyncChangesNothing` | app/adapters/persistence/template_pack.py:588-589 | two syncs of a new pack with one digest are the first alone, whatever the second uploads |
| `PackArchive.EqualDigestsKeepOldFiles` | app/adapters/persistence/template_pack.py:588-589 | a run of two syncs with the same digest, or both without one, and different files that ends with the files of the first |
| `PackArchive.CreateArchiveRoundTrip` | app/adapters/persistence/template_pack.py:261-303 | create, fetch the archive, unpack: exactly the uploaded map from path to bytes |
| `PackGateway.Gateway.InstallInSession` | app/adapters/persistence/template_pack.py:364-515 | the imperative installation computes the specified tables and report, or the specified error |
| `PackGateway.Gateway.InstallPack` | app/adapters/persistence/template_pack.py:346-362 | one transaction: the specified result, or an error with every table as before |
| `PackGateway.Gateway.UninstallInSession` | app/adapters/persistence/template_pack.py:517-540 | the loop over links, in any order, computes the specified tables |
| `PackGateway.Gateway.UninstallPack` | app/adapters/persistence/template_pack.py:543-548 | uninstalls a known pack, reports an unknown one |
| `PackGateway.Gateway.UpdatePack` | app/adapters/persistence/template_pack.py:551-567 | all or nothing: a conflict leaves every table as before the uninstallation |
| `PackGateway.Gateway.DeletePack` | app/adapters/persistence/template_pack.py:664-671 | deletes the pack with its rows, links and assets |
| `PackGateway.Gateway.CreatePack` | app/adapters/persistence/template_pack.py:261-303 | checks in the source's order; success adds exactly the new pack and its assets |
| `PackGateway.Gateway.UpsertSyncedPack` | app/adapters/persistence/template_pack.py:570-636 | creates, replaces or leaves unchanged as specified; errors change nothing |
| `PackGateway.Gateway.GetAssetsTar` | app/adapters/persistence/template_pack.py:935-967 | one entry per stored path in query order, or PackNotFound |
| `PackGateway.Gateway.WriteAssets` | app/adapters/persistence/template_asset.py:37-84 | the loop stores every decoded upload under its path |
| `Shell.ScanQuoted` | app/core/template.py:73 | `shlex.quote` of any value, read by the POSIX token rules at an unquoted position of the command or of anything nested in it, adds to the word exactly the value's characters: bare if it needs no quotes, otherwise all quoted |
| `Shell.QuotingWorksIff` | app/core/template.py:73 | quoting adds its value, and nothing else, for every value iff the position is unquoted, be it in the command, in `$(...)` or in the word of `${...}`; at every other position that is read some value goes wrong |
| `ShellLaws.OperatorsSeparate` | app/core/template.py:73 | the operators of one and two characters separate words without blanks, the longest first |
| `ShellLaws.BlanksSeparate` | app/core/template.py:73 | blanks and line ends separate words |
| `ShellLaws.OthersJoin` | app/core/template.py:73 | every other character but quotes is part of its word, and only `*`, `?`, `[`, `~` act |
| `ShellLaws.QuotesKeep` | app/core/template.py:73 | single quotes keep every character, double quotes all but `$`, the backquote, `"` and the backslash |
| `ShellLaws.BackslashQuotes` | app/core/template.py:73 | a backslash quotes any character, and goes with a line end |
| `ShellLaws.BackslashInQuotes` | app/core/template.py:73 | within double quotes a backslash quotes four characters and otherwise stands for itself |
| `ShellLaws.CommentsGo` | app/core/template.py:73 | a `#` that begins a word begins a comment up to the line end |
| `ShellLaws.DigitsRedirect` | app/core/template.py:73 | digits right before `<` or `>` are an IO number, before other operators a word |
| `ShellLaws.ParametersAct` | app/core/template.py:73 | `$name` is one acting word |
| `ShellLaws.BackquotesRead` | app/core/template.py:73 | backquotes nest what they hold |
| `ShellLaws.ArithmeticReads` | app/core/template.py:73 | an arithmetic expansion nests what it holds |
| `ShellLaws.OpenQuotes` | app/core/template.py:73 | an open quotation leaves no tokens |
| `Nesting.SubstitutionReads` | app/core/template.py:73 | wherever `$(...)` stands, unquoted or within double quotes, its text is read as a shell of its own would read it, and then the text around goes on where it was |
| `Nesting.ParameterReads` | app/core/template.py:73 | wherever `${name}` stands, it is one expansion, and then the text around goes on where it was |
| `Shell.LoneValueBecomes` | app/core/template.py:73 | a word that is one placeholder is reserved, an assignment or an IO number exactly for these values: the reserved words of safe characters, a name followed by `=` and safe characters, digits only |
| `Shell.QuotedValueNeverBecomes` | app/core/template.py:73 | a value that gets quotes never makes its word reserved or an IO number, and makes it an assignment only if the text before it already was one |
| `Nesting.UnquotedAfterExpansion` | app/core/template.py:70-78 | a placeholder after a closed `${name}` or `$(...)` is unquoted iff it would be in place of the expansion |
| `Template.UnparseParse` | app/core/template.py:25-25 | splitting a template into characters and placeholders loses nothing |
| `Template.ParseFindsAll` | app/core/template.py:25-25 | wherever characters of a template spell a placeholder, it is one part |
| `Template.RenderCommand` | app/core/template.py:28-78 | the imperative renderer returns the specified text or error (undeclared before missing) |
| `Template.RenderSpells` | app/core/template.py:70-78 | a rendering is its parts one after the other: characters as they are, placeholders as the quoted supplied value, else the quoted default of the last declaration, else themselves |
| `Template.MeaningIs` | app/core/template.py:70-78 | a supplied value stands at its placeholder; otherwise the default of the last declaration, or the placeholder |
| `Template.SuppliedBeatsDefault` | app/core/template.py:49-78 | declarations that differ only in defaults of supplied names render alike, errors included |
| `Template.RenderSucceedsIff` | app/core/template.py:47-68 | a template renders iff every placeholder is declared and every required parameter it uses has a value or default; each error names exactly the offenders |
| `Template.MissingIff` | app/core/template.py:55-63 | a parameter is missing iff it is required and used, and has neither a supplied value nor a default |
| `Template.ScanSubstitute` | app/core/template.py:70-78 | reading the rendered text is reading the template with literal placeholders, in the command and in its expansions |
| `Template.RenderKeepsWords` | app/core/template.py:47-78 | if every placeholder is unquoted, in the command or in an expansion, the rendered command is read as the template with each value inserted character by character, bare or quoted, into the word of its placeholder, and with placeholders that never get a value as the text they are; values are never re-expanded |
| `Shape.ShapeIgnoresValues` | app/core/template.py:47-78 | if moreover no word of digits and placeholders stands right before a redirection, any two renderings have the same tokens, and the same commands in the same expansions, up to the contents of words and IO numbers |
| `Shape.UnsteadyChangesShape` | app/core/template.py:47-78 | if there is such a word and the template can be read to its end, the renderings with `0` and with `a` at every placeholder differ in shape |
| `Shape.OneShapeIff` | app/core/template.py:47-78 | the values of a template with unquoted placeholders decide nothing about the shape of its command and of the commands nested in it iff it has no such word, or ends inside a quotation or an expansion and so has no tokens under any values |
| `Template.InlineUnchanged` | app/application/services/script_execution_service.py:232-236 | without declared parameters a template renders iff it has no placeholder, and then to itself |
| `RemoteCommand.RemoteTokens` | app/adapters/runtime/ssh.py:303-305 | the login shell sees `setsid sh -c` with the grouped command as one literal argument, then the exit status |
| `RemoteCommand.FixedWords` | app/adapters/runtime/ssh.py:300-305 | the fixed words around the command, character by character |
| `RemoteCommand.GroupedTokens` | app/adapters/runtime/ssh.py:300-302 | the inner shell reads the file name as one literal word and then the command exactly as a shell of its own would |
| `Outbox.EnqueuedPayloadConverts` | app/adapters/persistence/audit.py:115-125 | a payload the application enqueues converts back field by field, except a node that is gone, and is stored iff its action has at most 50 and its user at most 255 characters |
| `Outbox.ConvertsIff` | app/adapters/persistence/audit_outbox_worker.py:126-153 | which payloads convert, whoever wrote them, and to which row; any other is a ValueError |
| `Outbox.DeliveryStoresIff` | app/adapters/persistence/audit_outbox_worker.py:96-106 | a delivery stores a row iff there is no fault, no such row yet, and the payload converts to a row that fits |
| `Outbox.AttemptIs` | app/adapters/persistence/audit_outbox_worker.py:93-123 | what an attempt does to every field of its event, with a delay of min(300, 2^(n-1)) seconds after the n-th failure |
| `Outbox.DueIff` | app/adapters/persistence/audit_outbox_worker.py:74-79 | from when an event can be claimed: an enqueued one from its first attempt time on, a failed one from the end of its delay on unless it is given up, a settled one never; and which rows a purge removes |
| `Outbox.NeverAlreadyStored` | app/adapters/persistence/audit_outbox_worker.py:98-103 | in every reachable state an attempt on a pending event finds no row of its own in the log |
| `Outbox.ReachableInv` | app/adapters/persistence/audit_outbox_worker.py:90-123 | pending events have attempts left and no row, failed ones have used exactly `max_attempts` and have no row |
| `Outbox.TriesExplainEvent` | app/adapters/persistence/audit_outbox_worker.py:93-123 | the attempts on an event explain its row: their number, the backoff between them, all but the last failed, the last stored a row iff completed |
| `Outbox.DeliveredAtMostOnce` | app/adapters/persistence/audit_outbox_worker.py:96-123 | at most one attempt on an event ever stores a row, and one does iff the event is completed |
| `Outbox.FailsNoSooner` | app/adapters/persistence/audit_outbox_worker.py:107-111 | a failed event had exactly `max_attempts` failing attempts, the last no sooner after the first than all delays together |
| `Outbox.BackoffSumClosedForm` | app/adapters/persistence/audit_outbox_worker.py:110 | the delays before attempt n sum to 2^(n-1) - 1 seconds up to n = 10, and grow by 300 each from there |
| `Outbox.LogIsCompletedMinusPurged` | app/adapters/persistence/audit.py:55-60 | the log holds a row for an event iff it is completed and not purged since; purging never causes a new delivery |
| `Outbox.LogHoldsStoredRow` | app/adapters/persistence/audit_outbox_worker.py:98-103 | every row of the log is the one that an attempt on its event stored |
| `Outbox.OutboxHoldsEnqueued` | app/adapters/persistence/audit.py:85-108 | the outbox holds exactly the enqueued payloads, unchanged and in order |
| `Outbox.SettledIsAbsorbing` | app/adapters/persistence/audit_outbox_worker.py:107-123 | completed and failed events never change again, and a purged row never returns |
| `Outbox.AttemptDecreases` | app/adapters/persistence/audit_outbox_worker.py:93 | every attempt uses up remaining attempts |
| `Outbox.AttemptsAreBounded` | app/adapters/persistence/audit_outbox_worker.py:69-123 | attempts made plus attempts left never exceed `max_attempts` for each event of the outbox |
| `Outbox.AuditOutboxWorker.Deliver` | app/adapters/persistence/audit_outbox_worker.py:90-123 | the in-place attempt computes the specified row and log, and returns whether it did not fail |
| `Outbox.AuditOutboxWorker.RunOnce` | app/adapters/persistence/audit_outbox_worker.py:69-88 | a claimed batch is a run of the sequential machine; the count is that of the successful attempts, which is the number of its events that are completed now |
| `Outbox.AuditLogGateway.DeleteBefore` | app/adapters/persistence/audit.py:55-60 | exactly the rows created before the cutoff go, and their number is returned |
| `OutboxWorkers.CommitIsSequential` | app/adapters/persistence/audit_outbox_worker.py:71-88 | committing a batch is attempting its events one after the other |
| `OutboxWorkers.StepRefines` | app/adapters/persistence/audit_outbox_worker.py:69-88 | each step of any worker is a stutter or a run of the sequential machine, and keeps locked rows due and batches disjoint |
| `OutboxWorkers.InterleavingRefinesSequential` | app/adapters/persistence/audit_outbox_worker.py:69-123 | every interleaving of claims, deliveries, commits, crashes, new events and retention refines the sequential machine |
| `OutboxWorkers.ExactlyOnceEffect` | app/adapters/persistence/audit_outbox_worker.py:69-123 | over every interleaving: row iff completed and not purged, at most one attempt stored it, attempts within bounds |
| `OutboxWorkers.CommitDecreases` | app/adapters/persistence/audit_outbox_worker.py:71-88 | a commit uses up at least one remaining attempt per event of its batch |
| `OutboxWorkers.BatchHead` | app/adapters/persistence/audit_outbox_worker.py:74-83 | whenever some event is due and unlocked, every batch starts with a due, unlocked event at least as old as it |
| `OutboxWorkers.OldestIsClaimed` | app/adapters/persistence/audit_outbox_worker.py:74-83 | the strictly oldest due event that no worker has locked comes first in every batch |
| `OutboxWorkers.BatchExists` | app/adapters/persistence/audit_outbox_worker.py:74-83 | in every state a claim finds a batch at once: oldest first, of as many due unlocked events as there are, up to the batch size |
| `OutboxWorkers.LocksIff` | app/adapters/persistence/audit_outbox_worker.py:69-88 | a row is locked from its claim to the commit or the crash of the worker that claimed it, and a crash leaves the tables alone |
| `RateLimiter.LimiterRefinesFullHistory` | app/api/middleware.py:144-174 | every decision equals that of a limiter keeping every accepted timestamp since the client's last eviction; never more than `max_clients` clients |
| `RateLimiter.DecisionIff` | app/api/middleware.py:153-205 | every decision of a run, from the requests alone: a request is accepted iff fewer than the limit of accepted requests of its client, since it entered the table, are less than a window old, and the remaining count is what is left |
| `RateLimiter.FullHistoryIsBounded` | app/api/middleware.py:174 | at most `requests` accepted requests in any half-open interval of one window, per client since it entered the table |
| `RateLimiter.AcceptsAreBounded` | app/api/middleware.py:174 | the same of the requests: of a client's, since it entered the table, at most `requests` within any window are accepted |
| `RateLimiter.TouchKeepsWellFormed` | app/api/middleware.py:162-169 | the table stays within capacity and without duplicates, and a newcomer costs at most the head of the order |
| `RateLimiter.OrderIsRecency` | app/api/middleware.py:162-170 | clients are ordered by their last request, so eviction removes the least recently seen |
| `RateLimiter.ReachableSound` | app/api/middleware.py:144-150 | deques are sorted, within the limit and not ahead of the clock in every reachable state |
| `RateLimiter.RetryAcceptedIff` | app/api/middleware.py:174-175 | a rejected client that waits unevicted is accepted iff the true wait is over |
| `RateLimiter.RetryAfterHeader` | app/api/middleware.py:175-190 | the header lies in 1..window and is the true wait rounded down, at least 1 |
| `RateLimiter.RetryAfterIsHonest` | app/api/middleware.py:175-190 | waiting header + 1 seconds always suffices; with a true wait of at least 1 second any retry before the header is rejected; waiting exactly the header suffices iff the wait is at most 1 or equals it |
| `RateLimiter.WaitingTheHeaderFails` | app/api/middleware.py:175-190 | a run: a true wait of 1.5 seconds is announced as 1, and the client that waits 1 second is rejected |
| `RateLimiter.RemainingIsExact` | app/api/middleware.py:172-209 | the remaining count is exact: that many further requests of the client at the same instant are accepted, and the next is not |
| `RateLimiter.Middleware.Handle` | app/api/middleware.py:153-205 | the in-place dispatch computes the specified table and decision |
| `RateLimiter.Middleware.CleanupOldEntries` | app/api/middleware.py:144-150 | the cleaning loop drops exactly the expired prefix of the client's deque |
| `Script.InlineStepUnchanged` | app/application/services/script_execution_service.py:232-236 | an inline step raises iff its command is neither text nor empty; otherwise it resolves iff it has a command without placeholders, and then unchanged |
| `Script.StepParametersWin` | app/application/services/script_execution_service.py:245-251 | step parameters override global ones: resolution does not depend on global values they shadow |
| `Script.MergedIs` | app/application/services/script_execution_service.py:245-246 | the dictionary has exactly the names of the globals and of the step; a name of the step maps to the text of the step's value, any other to that of the global one |
| `Script.CommandStepRenders` | app/application/services/script_execution_service.py:237-261 | a command step resolves to the stored command's text rendered with its stored parameters and that dictionary, under its label, or carries the rendering error |
| `Script.ReadParameterIff` | app/adapters/persistence/command_management.py:131-159 | which stored parameters can be read, and as what: required unless it says otherwise, a default unless that is null |
| `Script.ReadParametersIff` | app/adapters/persistence/command_reader.py:18-31 | the parameters of a stored command are those of its list, one each, in order; none for null |
| `Script.FailurePolicy` | app/application/services/script_execution_service.py:223 | a step stops the script unless it says otherwise |
| `Script.ResolveAllIff` | app/application/services/script_execution_service.py:81-83 | resolving a script fails iff some step is no object, has no label or type, has an inline command that is neither text nor empty, or refers to a malformed id, to a stored command with unreadable parameters, or to a command with parameters that are not an object; every other problem stays in its step |
| `Script.MalformedIff` | app/application/services/script_execution_service.py:222-271 | which steps abort a script, said of their JSON: no object, no label, no type, an inline command that is neither text nor empty, a reference that raises |
| `Script.StepErrorIs` | app/application/services/script_execution_service.py:229-271 | the error of a step whose command or command id is missing, whose command is not stored, or whose type is unknown; its command is then empty |
| `Script.ValidatedIsMalformedIff` | app/adapters/persistence/template_pack.py:154-169 | which of these a step that passed the validation of a pack can still have |
| `Script.ValidatedScriptAborts` | app/adapters/persistence/template_pack.py:154-169 | three scripts that pass validation (a step without a label, with the command 5, with null parameters) and none of whose steps runs, although the first resolves |
| `Script.RunSteps` | app/application/services/script_execution_service.py:283-322 | the loop computes the reference results, sends exactly the reached resolved commands and raises iff a command does |
| `Script.RunRemote` | app/application/services/script_execution_service.py:267-334 | the whole run equals the reference interpreter and never leaves the session open |
| `Script.ResultsReachFirstStop` | app/application/services/script_execution_service.py:283-322 | the results are those of the steps up to and including the first non-zero one under `stop`, or up to the one whose command raises, else all, at their positions; exactly their commands are sent, and the one that raised |
| `Script.ResultIs` | app/application/services/script_execution_service.py:283-318 | what each result holds: its position, label and fingerprint; 1 and the error for an unresolved step, 124 and the timeout text for one that timed out, otherwise the remote reply |
| `Script.SentInOrder` | app/application/services/script_execution_service.py:284-290 | the commands of resolved steps are sent in order, one each |
| `Script.SuccessIff` | app/application/services/script_execution_service.py:273-334 | success iff the session opened and closed, every step has its result and all exit codes are 0; every step had then resolved |
| `Script.UnresolvedNeverRun` | app/application/services/script_execution_service.py:284-299 | only commands of resolved steps are sent; an unresolved one yields its error and exit code 1 |
| `Script.OutputsAreBounded` | app/application/services/script_execution_service.py:300-318 | stored outputs are the longest prefixes of the real ones within 65536 bytes, with the real sizes and an exact truncation flag |
| `Script.ExceptionKeepsPrefix` | app/application/services/script_execution_service.py:319-334 | an exception forces error and keeps the prefix that an undisturbed run would have produced |
| `Schedule.CompletedPassConverges` | app/application/services/schedule_reconciliation.py:28-55 | a completed pass, interleaved with anything, gives every untouched script exactly the job its row asks for: one iff the row exists and is enabled, with its specification; restored + failed is the number listed |
| `Schedule.UndisturbedPassCompletesIff` | app/application/services/schedule_reconciliation.py:28-55 | alone, a pass completes iff every listed trigger is accepted; otherwise the first refused one aborts it, with every earlier schedule registered and marked and none from there on, because `registration_failed` violates the CHECK at app/models/script_schedule.py:21-24 |
| `Schedule.StalePassCompletesIff` | app/application/services/schedule_reconciliation.py:28-55 | for a listing that is out of date: the pass completes iff every trigger is accepted or is refused, by a caught error, for a row that has gone; accepted schedules have their jobs, the others are counted as failed and keep theirs, unlisted scripts have none |
| `Schedule.FaultEndsPass` | app/application/services/schedule_reconciliation.py:28-55 | an exception ends a pass for good: afterwards only the acts of others change anything |
| `Schedule.ActIs` | app/application/services/schedule_management.py:58-94 | an interfering act replaces or removes the row or the job of its script and nothing else |
| `Schedule.RefusedTriggerAborts` | app/application/services/schedule_reconciliation.py:28-55 | a table of two schedules where the refused trigger of the first leaves the second without a job and its row as it was |
| `Schedule.SecondPassChangesNothing` | app/application/services/schedule_reconciliation.py:28-55 | after a completed pass an undisturbed second one changes no row and no job, and restores all |
| `Schedule.ApschedulerRuntime.ScheduleScript` | app/adapters/runtime/apscheduler_runtime.py:336-382 | an accepted trigger replaces the job, a refused one leaves the table alone |
| `Schedule.ApschedulerRuntime.RemoveUndesired` | app/application/services/schedule_reconciliation.py:30-33 | the first loop keeps exactly the jobs of listed scripts |
| `Schedule.ScheduleService.RestoreOne` | app/application/services/schedule_reconciliation.py:35-54 | one round of the second loop leaves the pass to be completed from the next schedule on, or aborts it |
| `Schedule.ScheduleService.Reconcile` | app/application/services/schedule_reconciliation.py:28-55 | the two loops compute the pass that nothing disturbs |
| `Schedule.ScheduleService.CreateOrUpdate` | app/application/services/schedule_management.py:43-83 | either nothing changes and the first failing check is reported, a missing node by the first that is missing; or all nodes exist and row and job are both the new ones |
| `Schedule.ScheduleService.Delete` | app/application/services/schedule_management.py:91-94 | removes row and job, or reports an unknown schedule |
| `ScheduleRequests.JobAgreesIff` | app/application/services/schedule_management.py:58-94 | at every point of every interleaving of any number of requests, the job of a script agrees with its row iff the request that last wrote the job asked for what the request that last wrote the row asked for |
| `ScheduleRequests.FinishedRequestsAgreeIff` | app/application/services/schedule_management.py:58-94 | when all have finished without failing, a script that was in agreement is so again iff one request wrote both its row and its job last, or the two that did asked for the same |
| `ScheduleRequests.SeparateRequestsAgree` | app/application/services/schedule_management.py:58-94 | if a request for a script begins only when no other for it is under way, and none fails between its row and its job, the two agree whenever none is between them, whatever requests for other scripts do |
| `ScheduleRequests.DeletionLeavesOrphan` | app/application/services/schedule_management.py:58-94 | a run in which a deletion overtakes an upsert and a job without a row is left |
| `ScheduleRequests.AloneIs` | app/application/services/schedule_management.py:58-94 | a request with no step of another in between does what `create_or_update` or `delete` promises; a deletion without a row leaves the job |
| `Ownership.ReachableInv` | app/adapters/persistence/scheduler_ownership.py:30-88 | a replica that reports ownership holds the lock, is past its own unlock, or has lost its session, in every interleaving |
| `Ownership.AtMostOneOwner` | app/adapters/runtime/apscheduler_runtime.py:132-137 | two replicas report at once only if one is past its unlock or has lost its session; one past its unlock cannot start jobs |
| `Ownership.MutualExclusion` | app/adapters/persistence/scheduler_ownership.py:30-88 | while no session dies holding the lock, at most one replica can start jobs |
| `Ownership.ReleaseWindow` | app/adapters/persistence/scheduler_ownership.py:75-88 | a run without any death in which two replicas report: `release` unlocks before it clears its flag |
| `Ownership.LostConnectionWindow` | app/adapters/runtime/apscheduler_runtime.py:249-270 | a run in which a lost session lets two replicas start jobs |
| `Ownership.LossAdmitsSecondOwner` | app/adapters/persistence/scheduler_ownership.py:58-68 | from every state: when an idle owner's session dies, any other idle replica can become a second owner |
| `Ownership.ReleaseAdmitsSecondOwner` | app/adapters/persistence/scheduler_ownership.py:75-88 | from every state: an effective unlock lets another replica report before the flag is cleared |
| `Ownership.LostOwnerNeverRecovers` | app/adapters/runtime/apscheduler_runtime.py:249-270 | a lost owner reports until stopped or killed, although a failed probe clears `_owns_execution`: the two flags then disagree for good |
| `Ownership.FailoverSucceeds` | app/adapters/persistence/scheduler_ownership.py:37-56 | once the lock is free any idle replica with a live session gets it |
| `Ownership.LockIsHandedOn` | app/adapters/persistence/scheduler_ownership.py:30-88 | after the death of the holding session or process, or its last unlock, every other idle replica that tries gets the lock; no other step takes it from its holder |
| `Ownership.MayFail` | app/adapters/persistence/scheduler_ownership.py:30-88 | what the runs admit: probes and unlocks that fail in live and dead sessions, interrupted acquisitions, deaths and kills at any time, and no success in a dead session |
| `Ownership.OwnsIs` | app/adapters/runtime/apscheduler_runtime.py:186-270 | what each step does to `_owns_execution` and to the adapter's flag of its own replica, and that it touches no other |
| `Ownership.InterruptLeaksLock` | app/adapters/persistence/scheduler_ownership.py:39-49 | from every state: an acquisition that is interrupted after the grant leaves the lock with a session that no replica claims |
| `Ownership.UnclaimedLockBlocks` | app/adapters/persistence/scheduler_ownership.py:30-56 | from then on no replica becomes owner in any run, until that session dies or tries again |
| `Ownership.ReleaseUndoesAcquire` | app/adapters/persistence/scheduler_ownership.py:30-88 | acquiring and releasing leaves the lock as it was before: a lock that the session held already is counted and stays held |
| `LegacyOwnership.AtMostOneOwner` | app/adapters/runtime/apscheduler_runtime.py:186-222 | on the engine path, over every interleaving of any number of replicas: once both have asked, two report at once only if one is past its unlock or has lost its session; before it has asked, every replica reports |
| `LegacyOwnership.LostClaimEndsWithProbe` | app/adapters/runtime/apscheduler_runtime.py:272-293 | after the loss of a session one probe of its replica ends the claim that rested on it, whatever everybody else does |
| `LegacyOwnership.LostReplicaRecovers` | app/adapters/runtime/apscheduler_runtime.py:272-293 | from every state with a free lock, the round of a lost replica's monitor and its next acquisition make it an owner again with a new session, unlike with the port (`Ownership.LostOwnerNeverRecovers`) |
| `LegacyOwnership.MayFail` | app/adapters/runtime/apscheduler_runtime.py:272-328 | what the runs admit: failing probes, unlocks and closes, interrupted acquisitions, deaths and kills at any time |
| `LegacyOwnership.OwnsIs` | app/adapters/runtime/apscheduler_runtime.py:186-293 | what each step does to `_owns_execution` of its own replica, and that it touches no other |
| `LegacyOwnership.LockIsHandedOn` | app/adapters/runtime/apscheduler_runtime.py:186-222 | after the death of the holding session or process, or its last unlock, every other idle replica that tries becomes the owner |
| `LegacyOwnership.EndedMonitorStaysOut` | app/adapters/runtime/apscheduler_runtime.py:284-292 | if closing the lost connection raises too, the replica reports in no run from there |
| `Ownership.SqlAlchemySchedulerOwnership.TryAcquire` | app/adapters/persistence/scheduler_ownership.py:30-56 | alone, the method is the steps begin, lock, answer; it returns whether the replica then reports |
| `Ownership.SqlAlchemySchedulerOwnership.Probe` | app/adapters/persistence/scheduler_ownership.py:58-68 | the answer is the outcome of the machine's probe step: true means this replica holds the lock, false with a connection that it has lost it; either way the adapter still shows the state after the step |
| `Ownership.SqlAlchemySchedulerOwnership.Release` | app/adapters/persistence/scheduler_ownership.py:70-88 | alone, the method is the steps stop, unlock, close; the flag ends cleared whatever fails |
| `Sse.SubscribersSeeStretches` | app/application/services/sse_broadcaster.py:30-56 | history is the last 100 events; every subscriber has received or queued one gap-free, duplicate-free stretch of the log from at most 50 before joining |
| `Sse.DroppedIffFull` | app/application/services/sse_broadcaster.py:49-56 | a publish drops a subscriber iff 256 events are unread; its stretch ends right before the event that did not fit |
| `Sse.DroppedGetsNothingMore` | app/application/services/sse_broadcaster.py:55-56 | a dropped reader is not told and gets nothing after what was queued |
| `Sse.SseBroadcaster.Subscribe` | app/application/services/sse_broadcaster.py:30-39 | the replay of the last 50 always fits into the new queue |
| `Sse.SseBroadcaster.Publish` | app/application/services/sse_broadcaster.py:44-56 | every queue with room gets the event, every full one is let go of, the history keeps its bound |
| `Tokens.TokensAreConsumedOnce` | app/adapters/persistence/dao/refresh_token.py:45-75 | over all interleavings each token is consumed by at most one refresh and is gone then; each login has at most one live descendant |
| `Tokens.RotationSucceedsIff` | app/adapters/persistence/user.py:142-157 | a refresh succeeds iff its token is in the table and expires later than now when it rotates; then it is replaced by one of the same user, and no other token changes |
| `Tokens.ExpiredNeverConsumed` | app/adapters/persistence/dao/refresh_token.py:45-75 | over all runs: at or after its expiry a token starts no refresh, and a refresh under way consumes and stores nothing |
| `Tokens.CleanUpIs` | app/adapters/persistence/dao/refresh_token.py:86-103 | cleaning up removes exactly the user's expired tokens, deleting a user all of them |
| `Tokens.SecondRefreshFails` | app/application/services/auth_service.py:93-121 | of two refreshes that read the same token at most one succeeds, whatever happens between |
| `Tokens.DeadLineageStaysDead` | app/application/services/auth_service.py:93-132 | a login without a live token never gets one again, whatever refreshes were under way |
| `Tokens.LogoutEndsLineageIff` | app/application/services/auth_service.py:130-132 | a logout ends its lineage iff its token is the live one (or it was dead); for a rotated token it changes nothing |
| `Tokens.LoggedOutForever` | app/application/services/auth_service.py:130-132 | once a logout has removed the live token the login never revives |
| `Tokens.RefreshBeatsLogout` | app/application/services/auth_service.py:86-133 | a run where a refresh that commits first makes the logout of the old token ineffective |
| `Tokens.AuthService.LogIn` | app/application/services/auth_service.py:45-84 | one error for every failing check and nothing changed; or the new token of this user with its expiry, and exactly the user's expired ones gone |
| `Tokens.AuthService.RefreshAccessToken` | app/application/services/auth_service.py:86-128 | an absent or expired token and an inactive user give their errors and change nothing; otherwise the token is exchanged for one of the same user, and no other changes |

## Left out

- Database, event loop and libraries: SQLAlchemy, asyncio, asyncssh, APScheduler and tarfile are represented by maps, steps and sequences of entries; a transaction commits as one step or not at all. Interleavings inside pack transactions (two installations racing past the name check to the unique index) are not modelled.
- Identifiers: uuid4 is a counter or a position, so ids are fresh by construction; token hashes are opaque distinct numbers, and SHA-256, JWT and bcrypt are not part of this model.
- Strings hold Unicode scalar values only; lone surrogates and the NUL restriction of PostgreSQL text are left out.
- Pack content: an item's name is taken as the text that `str()` gives, floats are reals. Of the columns, the types of description and tags, the timeout CHECK and the name index are modelled; widths (of a tag too: whether one over 100 characters is refused or cut depends on the driver's cast) and JSON limits are not. A nested list of tags is refused as not text, which leaves out that a driver may take it as a further array dimension. Descriptive pack fields (author, readme, tags, timestamps) and the SHA of an asset are left out.
- Base64 decoding of text that goes on after a complete padded group is refused, as RFC 4648 asks; Python's own answer there depends on its release.
- Shell: token recognition (IO numbers and nested expansions included) and quoting. The later phases are not modelled: expansion itself, and the grammar that gives reserved words, assignments and aliases their role by position; `LoneValueBecomes` speaks of a word's form only. Characters marked as active take part in expansions; a bare one may also stand in a tilde prefix or a bracket expression that the template opens. The text inside backquotes, arithmetic expansions and parameter names is kept raw up to its end.
- QuotingWorksIff: claims nothing after a here-document operator, or after a `${` form of which section 2.6.2 of POSIX says nothing (substrings, replacement, an inner quote within double quotes); that rest is kept raw, and no placeholder in it counts as unquoted.
- SubstitutionReads: needs the grammar for a `case` command inside `$(...)`. The lexer ends the substitution at the first `)` that no `(` opened, so the patterns of such a command need their own `(`; positions after one without are not those of the shell, for `QuotingWorksIff` and the templates too.
- RenderKeepsWords: a placeholder in the word of `${...}` must get a value or never get one; one that may do either is left out there, because its own `}` would end the expansion.
- The word class of Python's `re` beyond ASCII is a parameter; on ASCII it is letters, digits and underscore.
- Outbox: metrics and the polling loop. A timed-out or failing commit, a failing metrics query and a cancelled worker are all a crash. ON DELETE SET NULL of a log row's node is not modelled.
- Rate limiter: the clock is a real number and monotone, so rounding of `time.monotonic` is ignored; excluded paths, response headers other than Retry-After and X-RateLimit-Remaining, and `clear`, are left out.
- Script execution: the timeout of a whole script, its cancellation, persistence of results and audit logging; targets and their concurrency limit; values nested deeper than `str()` can print. Error texts of resolution and the command fingerprint are parameters.
- Scheduling: cron evaluation, next run times, run bookkeeping columns and the publish to subscribers; whether a trigger is accepted is a parameter. `get_schedule` after a create is only a read and is left out.
- Ownership: engines other than PostgreSQL, where every replica owns execution, and jobs already executing when ownership ends. A connection returned to the pool is a session that goes on until it dies.
- Authentication: password hashing, access tokens and token decoding. `LogIn` and `RefreshAccessToken` are the requests without interleaving; their interleaved form is the step machine of the same file.
- Server-sent events: event timestamps, and the HTTP response around a reader.
- Paging, configuration import, registry fetching, command history, known hosts, tags and HTTP routing: easier members only.
