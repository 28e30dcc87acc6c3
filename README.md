# Entropy client core, modelled in Dafny

This project models the repository and package-state layer of the Entropy package manager client (`libraries/entropy/client/interfaces/methods.py`), and three small pieces of the Spritz front end (`spritz/src/spritz.py`).

The client layer covers:

- **Rewriting the repositories configuration file.** Add, remove, disable, enable and reorder are list transformations of its stripped lines. Each is followed by an atomic write: a temporary file, then a rename.
- **The repository registry.** It holds:
  - the `available` and `excluded` tables;
  - the priority `order`;
  - the validated `_enabled_repos`;
  - the connection cache keyed by `(repoid, systemroot)`;
  - the in-memory repositories;
  - the set of ids that have already been warned about once.
- **The reentrant resources lock.** A class-level file reference and counter, over an exclusive `flock` on a pid file, plus the polling `lock_check`.
- **The branch-migration hook runners.** Each repository hop `(repo, from, to)` has a record `(md5, postUpgradeMd5)`. The runners use these records to decide which scripts run.
- **The match and mask engine.** It covers:
  - what installing a match would do;
  - conflicts with installed packages;
  - the masking queries;
  - mask, unmask and clear, through the live overlay sets and the user's mask files;
  - the license gating.

From Spritz the model takes:

- the repository-form validator;
- the parser for a pasted `repository|...` line;
- the URL check applied to a new mirror.

Everything outside the process is an input: the file system, the databases, `flock`, `os.getpid`, pid liveness, the version comparator, `atom_match`, script md5s and exit codes. A database connection is an abstract `Handle`.

Modules, one file each:

| module | file | models |
|---|---|---|
| `Wrappers` | wrappers.dfy | `Option`, `Result` |
| `Text` | text.dfy | `strip`, `startswith`, `find`, `split`, `join`, `str(int)`, `int(str)` |
| `Seqs` | seqs.dfy | list comprehensions, `list.remove`, `list.insert` |
| `RepoLines` | repo_lines.dfy | the line transformations of `__save_repository_settings` and `__write_ordered_repositories_entries` |
| `RepoConf` | repo_conf.dfy | the configuration file as an object rewritten in place |
| `Registry` | registry.dfy | `RepositoryMixin`'s registry and connection cache |
| `BranchHooks` | branch_hooks.dfy | the two branch hook runners |
| `ResourceLock` | resource_lock.dfy | the resources lock and `lock_check` |
| `MatchMask` | match_mask.dfy | `MatchMixin` |
| `Licenses` | licenses.dfy | `is_entropy_package_free`, `get_licenses_to_accept` |
| `SpritzForms` | spritz_forms.dfy | the Spritz repository form |

Constants of `entropy.const` that the source uses but does not define are fixed as follows:

- `clientdbid` is `"client"`;
- `packagesext` is `".tbz2"`;
- `entropyslotprefix` is `":"`;
- `etpdatabasesupportedcformats` is `["bz2", "gz"]`;
- `EACCES` is 13 and `EAGAIN` is 11.

The proofs do not depend on these particular values, except where a lemma says so: `SpritzForms.DatabaseFieldFallsBack` uses the format names.

## Model

| member | source | states |
|---|---|---|
| RepoLines.SaveContent | libraries/entropy/client/interfaces/methods.py:349-406 | The save path, run as the source runs it (counter-keyed dict, deletion of disabled copies, output in key order), produces exactly `SaveTransform` of the old stripped lines. |
| RepoLines.SaveEntries | libraries/entropy/client/interfaces/methods.py:366-406 | The counter-keyed map, with the add path's deletions and new line, writes out exactly the toggled entries (add: those that are not commented copies of the id, then the new line). |
| RepoLines.NumberEntries | libraries/entropy/client/interfaces/methods.py:366-378 | The first loop files the toggled entries under counters 0..n-1, in file order. |
| RepoLines.InKeyOrder | libraries/entropy/client/interfaces/methods.py:408-414 | Appending the dict's values in key order gives the values of the keys present, in key order. |
| RepoLines.CollectSaved | libraries/entropy/client/interfaces/methods.py:380-406 | Deleting the keys of commented copies of the id, then filing the new line under the next counter, yields the kept entries followed by the new line. |
| RepoLines.RemoveKeepsTheRest | libraries/entropy/client/interfaces/methods.py:349-356 | Remove keeps, in order, exactly the lines that neither start with `repository|<id>` (a prefix match) nor are single-`#` lines containing it. No kept line starts with the id prefix. |
| RepoLines.AddShape | libraries/entropy/client/interfaces/methods.py:349-406 | Add writes the non-entry lines first, in their original order and without those starting with the id prefix. Then come the surviving five-field entries, none of them an entry or disabled copy of the id. The new entry is the last line. |
| RepoLines.AddKeepsOtherEntries | libraries/entropy/client/interfaces/methods.py:357-398 | Add keeps every five-field entry of another id that is not a commented copy of the new id. |
| RepoLines.AddDropsMalformed | libraries/entropy/client/interfaces/methods.py:357-365 | Add drops every entry line that does not split into exactly five `|` fields. |
| RepoLines.DisableIdempotent | libraries/entropy/client/interfaces/methods.py:366-378 | Disabling twice writes what disabling once wrote, because a line that already starts with `#` is not prefixed again. |
| RepoLines.EnableAfterDisable | libraries/entropy/client/interfaces/methods.py:366-378 | Enable after disable writes what enable alone writes. |
| RepoLines.DisableThenEnableRestores | libraries/entropy/client/interfaces/methods.py:366-378 | An enabled entry of the id survives disable then enable unchanged. A disabled one loses exactly one leading `#`. |
| RepoLines.ToggleTouchesOnlyTheId | libraries/entropy/client/interfaces/methods.py:357-378 | Under disable and enable, every non-entry line and every entry of another id keeps its content. |
| RepoLines.ResaveOfDisabled | libraries/entropy/client/interfaces/methods.py:357-378 | Feeding a disable result back to disable or enable sees the same entries, in the same order. |
| RepoLines.FormatEntryFields | libraries/entropy/client/interfaces/methods.py:382-390 | Splitting the appended line `repository|id|desc|mirrors|db#fmt#port,ssl` on `|` gives its five fields back, when no field holds a `|`. |
| RepoLines.FormatEntryIsEntry | libraries/entropy/client/interfaces/methods.py:382-390 | The appended line is a five-field entry whose field 1 is the id and which starts with the id prefix, so later rewrites recognise it. |
| RepoLines.EntriesInOrderMembers | libraries/entropy/client/interfaces/methods.py:436-442 | The reordered entries are exactly the entries whose id is in the order list. |
| RepoLines.OrderedEntriesShape | libraries/entropy/client/interfaces/methods.py:429-442 | Reorder keeps every line that is not an enabled five-field entry at the front, in order. Commented and malformed entries pass through. The entries of listed ids follow, and the entries of unlisted ids are dropped. |
| RepoLines.EntriesOfOneId | libraries/entropy/client/interfaces/methods.py:436-442 | With a duplicate-free order, the output entries of one id are that id's entries in file order. |
| RepoLines.OrderedEntriesIdempotent | libraries/entropy/client/interfaces/methods.py:429-442 | Rewriting an already reordered file with the same duplicate-free order changes nothing. |
| RepoConf.RepositoriesConf.WriteLines | libraries/entropy/client/interfaces/methods.py:408-427 | The temporary-file-then-rename write replaces the whole contents and reports success, or changes nothing and reports failure. |
| RepoConf.RepositoriesConf.SaveRepositorySettings | libraries/entropy/client/interfaces/methods.py:337-427 | A package-file id leaves the file alone. Otherwise the file becomes the save rewrite of its old stripped lines, or stays unchanged with `False` when the write fails. |
| RepoConf.RepositoriesConf.WriteOrderedRepositoriesEntries | libraries/entropy/client/interfaces/methods.py:429-452 | The loop over the order list writes exactly `OrderedEntries` of the old stripped lines. |
| RepoConf.PickId | libraries/entropy/client/interfaces/methods.py:439-442 | The inner loop appends the entries whose field 1 is the id, in file order. |
| RepoConf.StrippedOfStripped | libraries/entropy/client/interfaces/methods.py:343-347 | Re-reading a file of stripped lines gives those lines back. |
| RepoConf.DisableTwiceSameFile | libraries/entropy/client/interfaces/methods.py:337-427 | Two disables of the same id, each re-reading the file the previous one wrote, leave the file as the first wrote it. |
| Registry.RepositoryClient.IsRepositoryConnectionCached | libraries/entropy/client/interfaces/methods.py:146-149 | True iff the cache holds a connection under the id's `(id, systemroot)` key; that connection is a handle the registry issued. |
| Registry.RepositoryClient.GetRepositorySettings | libraries/entropy/client/interfaces/methods.py:502-510 | The `available` entry, else the `excluded` entry, else the `KeyError` (`None`). |
| Registry.RepositoryClient.GetRepositoryRevision | libraries/entropy/client/interfaces/methods.py:234-244 | `KeyError` for an unknown id. -1 when the revision file is missing or its first line is not an integer. |
| Registry.RevisionRoundTrip | libraries/entropy/client/interfaces/methods.py:234-251 | A revision file holding `str(r)` reads back as `r`. `dbrevision` becomes `str(r)`, except that -1 (like a missing file) becomes `"0"`. |
| Registry.RepositoryClient.UpdateRepositoryRevision | libraries/entropy/client/interfaces/methods.py:246-251 | Only the id's `dbrevision` changes, to `"0"` or `str(r)`. An unknown id is the `KeyError`. |
| Registry.RepositoryClient.LoadRepositoryDatabase | libraries/entropy/client/interfaces/methods.py:174-207 | An unknown id or a missing database file gives `RepositoryError`, and its warning is printed at most once per id. A temporary repository gives its in-memory instance. Any other gives a fresh connection. |
| Registry.RepositoryClient.OpenRepository | libraries/entropy/client/interfaces/methods.py:153-172 | The client id gives the installed repository. A cache hit gives the same handle and leaves the cache unchanged. A miss adds at most the one entry under `(id, systemroot)`. |
| Registry.RepositoryClient.CloseAllRepositories | libraries/entropy/client/interfaces/methods.py:124-137 | The cache is emptied. Exactly the cached connections that are not in-memory repositories get closed. In-memory instances stay open and registered. |
| Registry.RepositoryClient.ValidateRepositories | libraries/entropy/client/interfaces/methods.py:43-99 | `_enabled_repos` becomes exactly the subsequence of `order` whose open and validation succeed, in order. The warning set is cleared first: the once-per-id window restarts at the current end of the warning log, and `Valid` keeps each id warned about at most once after it. The cache is closed afterwards. |
| Registry.RepositoryClient.CollectEnabledRepositories | libraries/entropy/client/interfaces/methods.py:54-95 | The validation loop, proved against the filter of `order` by "opens and validates". |
| Registry.RepositoryClient.AddRepository | libraries/entropy/client/interfaces/methods.py:253-288 | The id gets a table entry. A dynamic repository is inserted at `order[0]` and the file is untouched. Any other repository is saved to the file (`order` unchanged). Validation follows. |
| Registry.RepositoryClient.RemoveRepository | libraries/entropy/client/interfaces/methods.py:290-335 | The id leaves `available`, `excluded` and `_enabled_repos`. It leaves `order` and the file only if it was known. The memory instance is popped and closed. Validation follows. |
| Registry.RepositoryClient.DisableRepository | libraries/entropy/client/interfaces/methods.py:475-500 | A known id leaves `available` and `order` and is disabled in the file. A known id missing from `order` stops the call with `ValueError`. |
| Registry.RepositoryClient.Unregister | libraries/entropy/client/interfaces/methods.py:290-331 | The id leaves `available` and `excluded`. The cache is emptied and no memory instance is touched. Only when the id was known does it leave `order` and get saved (removed or disabled) in the configuration file. |
| Registry.CloseConnections | libraries/entropy/client/interfaces/methods.py:125-135 | The handles closed are exactly the cached connections whose key is not an in-memory instance. |
| Registry.CloseKeepsRegistered | libraries/entropy/client/interfaces/methods.py:124-137 | Closing those handles and emptying the cache keeps the handle invariant: the installed repository and every in-memory instance stay open. |
| Registry.RepositoryClient.UnlistRepository | libraries/entropy/client/interfaces/methods.py:315-331 | The id leaves `order` (first occurrence), and the file gets the remove or disable rewrite. Nothing else changes. |
| Registry.RepositoryClient.EnableRepository | libraries/entropy/client/interfaces/methods.py:465-473 | The file's entry for the id is enabled, then the repositories are validated again. |
| Registry.RepositoryClient.ShiftRepository | libraries/entropy/client/interfaces/methods.py:454-463 | The id moves to `toidx` and the file is rewritten in the new order. An id not in `order` is `ValueError`. A failed write propagates. |
| Registry.ShiftRepositoryOrder | libraries/entropy/client/interfaces/methods.py:456-457 | The new order is a permutation with the id at the clamped index and the other ids in their previous relative order. |
| Registry.RepositoryClient.InitGenericTempRepository | libraries/entropy/client/interfaces/methods.py:104-122 | A fresh in-memory instance is registered under the id's key. The id becomes a temporary repository at the top of the order, with its description, mirrors and the new database's file as `dbpath`, enabled unless it fails validation. |
| BranchHooks.RunPostBranchSwitchHooks | libraries/entropy/client/interfaces/methods.py:878-993 | No installed repository gives `(∅, True)`. A repository is skipped when its stored md5 equals the script's. Every other one gets the record `(md5, "0")` and is reported. Scripts run only when the md5 is not `"0"`. `errors` is set exactly when one of them exits non-zero. Only `available` is visited. |
| BranchHooks.SwitchIdempotent | libraries/entropy/client/interfaces/methods.py:898-991 | A second post-switch run with unchanged scripts runs nothing and leaves the records as the first run wrote them. |
| BranchHooks.SwitchReopensUpgrade | libraries/entropy/client/interfaces/methods.py:960-975 | After the switch resets a hop's post-upgrade md5 to `"0"`, that hop is pending for the post-upgrade runner again, when the repository's upgrade script is readable. |
| BranchHooks.RunPostBranchUpgradeHooks | libraries/entropy/client/interfaces/methods.py:995-1134 | No installed repository gives `(∅, True)`. The runner reports the enabled, known repositories with a readable script that have a hop into the branch whose post-upgrade md5 differs. Pretend writes nothing. Otherwise each such hop takes the script's md5, and `errors` is set exactly when a run fails. |
| BranchHooks.UpgradeIdempotent | libraries/entropy/client/interfaces/methods.py:1015-1124 | After a post-upgrade run nothing is pending for the repositories it covered, so a second run with unchanged scripts runs nothing. |
| BranchHooks.MigrationTable.SetPostUpgradeMd5 | libraries/entropy/client/interfaces/methods.py:1122-1124 | Only an existing record's post-upgrade md5 changes. |
| ResourceLock.PidFileLock | libraries/entropy/client/interfaces/methods.py:1200-1226 | Reentrant while the reference is held. Otherwise the pid file is truncated. On success it receives our pid and the reference is held. `EACCES`/`EAGAIN` gives `False`. Any other errno is raised. |
| ResourceLock.Acquire | libraries/entropy/client/interfaces/methods.py:1150-1155 | The counter grows by one exactly when the lock was obtained. |
| ResourceLock.Release | libraries/entropy/client/interfaces/methods.py:1157-1177 | The counter never drops below 0. Once it is 0 the reference is dropped and the pid file deleted, even if it already was 0. |
| ResourceLock.ResourcesLock.ResourcesCreateLock | libraries/entropy/client/interfaces/methods.py:1150-1155 | The fields move as `Acquire` says. |
| ResourceLock.ResourcesLock.ResourcesRemoveLock | libraries/entropy/client/interfaces/methods.py:1157-1177 | The fields move as `Release` says. |
| ResourceLock.ResourcesLock.CreatePidFileLock | libraries/entropy/client/interfaces/methods.py:1200-1226 | The fields and the result move as `PidFileLock` says. |
| ResourceLock.ResourcesLock.ResourcesCheckLock | libraries/entropy/client/interfaces/methods.py:1179-1198 | Another process reads the lock from the pid file this object holds. A truncated (empty) pid file never reads as locked. |
| ResourceLock.CheckPidFileLock | libraries/entropy/client/interfaces/methods.py:1182-1198 | Locked exactly when the file exists, its first line is an integer, and that integer is another live pid. |
| ResourceLock.AcquireReleaseBalanced | libraries/entropy/client/interfaces/methods.py:1150-1177 | After N acquires, N-1 releases still hold the lock with our pid in the file. The N-th release leaves it unheld with no pid file. |
| ResourceLock.ConsistentPreserved | libraries/entropy/client/interfaces/methods.py:1150-1177 | "Held exactly while the counter is positive" survives every acquire and release. |
| ResourceLock.PidFileNamesHolder | libraries/entropy/client/interfaces/methods.py:1182-1226 | Once the holder writes its pid, the holder does not see itself as locked out, and every other process sees the lock while the holder is alive. |
| ResourceLock.ContentionEmptiesPidFile | libraries/entropy/client/interfaces/methods.py:1210-1219 | A contended acquire by a second process fails without counting. It truncates the pid file, so every process then reads the resources as unlocked while the holder still holds them. |
| ResourceLock.ContentionTruncates | libraries/entropy/client/interfaces/methods.py:1210-1219 | Contention returns `False`, leaves the counter unchanged and empties the pid file. |
| ResourceLock.LockCheck | libraries/entropy/client/interfaces/methods.py:1245-1288 | Returns `False` at the first unlocked observation. Returns `True` after 601 consecutive locked ones, having asked exactly that many times. |
| ResourceLock.LockCheckGivesUp | libraries/entropy/client/interfaces/methods.py:1245-1288 | Gives up exactly when the first 601 observations are all locked. |
| MatchMask.GetPackageAction | libraries/entropy/client/interfaces/methods.py:1681-1714 | 1 exactly when no installed package shares the key and slot. 0 exactly when the comparator says equal and the digests agree. 2 when newer, or equal with differing digests. -1 when older. |
| MatchMask.GetMatchConflicts | libraries/entropy/client/interfaces/methods.py:1725-1738 | Exactly the installed ids (never -1) matched by a conflict atom whose key and slot differ from the candidate's. |
| MatchMask.GetMaskedPackageReason | libraries/entropy/client/interfaces/methods.py:1716-1723 | Masked iff the validator returns -1. The reason code, and its text when `pkg_masking_reasons` has one. |
| MatchMask.IsMatchMaskedByUser | libraries/entropy/client/interfaces/methods.py:1748-1760 | True iff the repository is enabled, the match is masked, and the reason is a user mask reason. |
| MatchMask.IsMatchUnmaskedByUser | libraries/entropy/client/interfaces/methods.py:1762-1777 | True iff the repository is enabled, the match is not masked, and the reason is a user unmask or keyword reason. |
| MatchMask.UserMaskExclusive | libraries/entropy/client/interfaces/methods.py:1740-1777 | For one validator answer, a match is never both masked and unmasked by the user. |
| MatchMask.ClearMatchMask | libraries/entropy/client/interfaces/methods.py:1889-1933 | A dry run changes nothing. Otherwise the match leaves both live sets and nothing else leaves them. |
| MatchMask.ClearIdempotent | libraries/entropy/client/interfaces/methods.py:1895-1933 | Clearing twice is clearing once. |
| MatchMask.ClearKeepsComments | libraries/entropy/client/interfaces/methods.py:1915-1927 | A cleared file keeps exactly its comment and blank lines, verbatim and in order. |
| MatchMask.ClearedNamesNoMatch | libraries/entropy/client/interfaces/methods.py:1915-1927 | After clearing, no line of a writable file has an `atom_match` equal to the match. Every other line stays. |
| MatchMask.KeepLines | libraries/entropy/client/interfaces/methods.py:1915-1927 | The copy loop writes exactly the lines that are comments, blank, or name another match. |
| MatchMask.AppendedFile | libraries/entropy/client/interfaces/methods.py:1861-1887 | A writable target ends with the keyword, preceded by its old stripped lines; a missing file is created holding the keyword alone. A target that may not be written stays as it is. |
| MatchMask.AppendToFile | libraries/entropy/client/interfaces/methods.py:1861-1887 | The outcome is whether the file, or its directory when missing, may be written, even in a dry run. Only a real run changes the file. |
| MatchMask.MaskUnmask | libraries/entropy/client/interfaces/methods.py:1779-1821 | A match already in the target state is a no-op success. An unknown method is an error with no change. |
| MatchMask.DryRunTouchesOnlyLiveSets | libraries/entropy/client/interfaces/methods.py:1779-1803 | A dry run writes no file and leaves the match only in the live set of the target state. It still fails when the target file is not writable. |
| MatchMask.RealMaskWritesKeyword | libraries/entropy/client/interfaces/methods.py:1823-1887 | A real mask or unmask with a writable target makes that file its cleared, stripped lines plus the keyword (`atom` or `key:slot`). It leaves the match in neither live set. |
| MatchMask.RealMaskClearsOtherFile | libraries/entropy/client/interfaces/methods.py:1849-1859 | After a real mask, the writable unmask file names the match nowhere, and vice versa. |
| MatchMask.MaskState.MaskUnmaskMatch | libraries/entropy/client/interfaces/methods.py:1779-1821 | The live sets and both files move exactly as `MaskUnmask` says. |
| MatchMask.MaskState.ClearMatchMaskOf | libraries/entropy/client/interfaces/methods.py:1889-1933 | The live sets and both files move exactly as `ClearMatchMask` says. |
| MatchMask.MaskState.AppendKeyword | libraries/entropy/client/interfaces/methods.py:1861-1887 | Only the target file changes, and only in a real run, to `AppendedFile`. The result is whether it may be written. |
| Licenses.IsEntropyPackageFree | libraries/entropy/client/interfaces/methods.py:1343-1361 | Free iff the repository has no (or an empty) whitelist, or every license key of the package is whitelisted. |
| Licenses.LicensesForNeeding | libraries/entropy/client/interfaces/methods.py:1363-1387 | Under each license is exactly the set of queued matches that need it. A license is a key iff some match needs it. |
| Licenses.FreeNeedsNothing | libraries/entropy/client/interfaces/methods.py:1343-1387 | A free package never appears under any license to accept. |
| Licenses.GetLicensesToAccept | libraries/entropy/client/interfaces/methods.py:1363-1387 | The nested loops build exactly the characterised map. Every key holds a non-empty set. |
| SpritzForms.ValidationErrorsCases | spritz/src/spritz.py:385-398 | Each message is present iff its check fails: an empty id; a duplicate id only when not editing; no mirrors; a database URL that is not http/ftp/file. The list is empty iff all checks pass. |
| SpritzForms.ErrorsInCheckOrder | spritz/src/spritz.py:385-398 | The errors are the failing checks, in check order, each at most once. |
| SpritzForms.RepoSubmission.ValidateRepoSubmit | spritz/src/spritz.py:385-398 | Returns the error list. An empty description becomes "No description" and is not an error. |
| SpritzForms.MirrorList.AddMirror | spritz/src/spritz.py:312-320 | A mirror is appended only if it starts with `http://`, `ftp://` or `file://`. Others are refused. Empty input is ignored. |
| SpritzForms.ParseRepositoryLine | spritz/src/spritz.py:432-447 | A `repodata` dict is built iff the text starts with `repository|` and splits into exactly five fields; empty input is ignored and anything else is malformed. Field 1 is the id and field 2 the description. The mirrors are the white-space separated words of field 3. The database and format are those `ParseDatabaseField` gives for field 4. |
| SpritzForms.ParseDatabaseField | spritz/src/spritz.py:439-444 | The database is the whole field when it has no `#`, else the `#`-free text before the first `#`. The format is a supported one: the first supported format, or the field itself, or the text after a `#` at the field's end. |
| SpritzForms.DatabaseFormatFromSuffix | spritz/src/spritz.py:440-444 | When the text after the last `#` (or the whole `#`-free field) is a supported format, that is the format chosen. |
| SpritzForms.ParseFormatEntry | spritz/src/spritz.py:432-447 | A line the client writes parses back to a `repodata` dict with its id, description, mirrors and database URL, but always with the first supported format. |
| SpritzForms.ParseDatabaseWithFormat | spritz/src/spritz.py:439-444 | A `db#format` field with a supported format parses back to both parts. |

## Left out

- The `SystemSettings` reload (`SystemSettings.clear()`, `_clear_repository_cache`) and the `Cacher` are left out: that module is not part of this model. The `available`, `excluded` and `order` tables are the registry's own fields, and are not re-read from the file after a save.
- Registry.RepositoryClient.AddRepository: requires a temporary repository to already have an in-memory instance. Its one caller, `_init_generic_temp_repository`, guarantees this. Without one, the source fails on a `None` connection.
- The repository-specific `open_repository` steps after loading (`checkDatabaseApi`, plugin registration, the Portage tree-update sync as root) are left out. So are `listConfigProtectEntries` and `validateDatabase`: these are answered by the `corrupted` set.
- `close_all_repositories` iterates the cache in sorted order, the post-branch-switch runner iterates the sorted ids of `available` and `excluded`, and the post-upgrade runner the sorted source branches of each repository. The model iterates these sets in arbitrary order. The post-upgrade runner's outer loop over `_enabled_repos` keeps list order, in the model as in the source. Every outcome modelled here is independent of that order. `closeDB` failures (`OperationalError`) are not modelled.
- The directory creation and permissions of `create_pid_file_lock` (`makedirs`, `const_setup_perms`) are left out. So are `os.getpid`: the pid is an input; `flock`: its errno is an input; and `const_pid_exists`: an `alive` predicate.
- ResourceLock.LockCheck: the sleeps and messages are left out. Only the observations and their count are modelled.
- `application_lock_check` reads a global flag set by unseen code. It is not part of this model.
- `open_repository` failures inside `get_package_action`, `get_masked_package_reason`, `get_match_conflicts`, the masking queries and the license functions are left out. The database answers are inputs.
- MatchMask.MaskState.MaskUnmaskMatch: the `SystemSettings.clear()` after a real change is not modelled. Neither is the clearing of the masking-validation cache. A mask file created by the model is taken to be writable afterwards.
- `_clear_match_generic` falls back to `shutil.copy2` when the rename fails. The result is the same file contents, so the model does not distinguish the two.
- `int()` in the model accepts an optional sign followed by decimal digits. Python's `int` also accepts underscores between digits and non-ASCII digits. Only the ASCII `strip` white space is modelled.
- Text is written and read line by line. Each line's trailing newline is implied, not stored.
- Registry.RepositoryClient.EnableRepository: the source re-reads the tables from the configuration file after `SystemSettings.clear()`; the model does not. A repository enabled in the file therefore does not enter `available`, `order` or `_enabled_repos` in the model, which the reload would bring about in the source.
- Registry.RepositoryClient.AddRepository: for a repository that is not dynamic, the same applies. The entry is appended to the file, but `order` stays as it was and the id reaches `_enabled_repos` only if it already was in `order`; in the source the reload after `SystemSettings.clear()` puts it there.
- SpritzForms.ParseRepositoryLine: the model stops at the `repodata` dict. `__loadRepodata` then reads the keys `plain_packages` and `plain_database`, which that dict does not have (it has `packages` and `database`). So a pasted string sets the id and description, empties the mirror list and then raises `KeyError`; the mirrors, format and database never reach the form. The form widgets are not modelled.
- The interplay between the configuration file and the `SystemSettings` parser that rebuilds the tables from it is not part of this model.
