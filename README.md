# writer_cm, modelled and verified in Dafny

`writer_cm(destination, *, overwrite, dir_perms, file_perms, user, group)` is a
context manager for writing a file atomically. It works in five steps:

1. It walks the prefixes of the destination's parent, shallowest first. It
   calls `mkdir` on each one and swallows `FileExistsError`,
   `IsADirectoryError` and `PermissionError`. It runs `_set_properties` (chmod
   with `dir_perms`, then chown when a user or group is given) only on the
   directories it made itself.
2. It makes a `TemporaryDirectory` inside the parent.
3. It hands the caller the path `<tempdir>/<name>`.
4. If the caller's block finishes, it publishes the staged file onto the
   destination: `replace_atomic` when `overwrite` is set, `move_atomic`
   otherwise. It then runs `_set_properties` on the destination with
   `file_perms`.
5. It always removes the temporary directory.

The model runs this protocol against a file system held in memory. It proves
several things:

- what every exit path leaves behind;
- which calls are made, and on which paths;
- the promises the context manager makes to its callers;
- the situations the repository's tests set up.

## How the model is built

- **FsSpec** is the file system as values:
  - a path is a `seq<string>` of components below the root, and the root is `[]`;
  - a tree is a `map<Path, Node>`, where a node is `Dir(mode, owner)` or `File(bytes, mode, owner)`;
  - a `Host` is the running process. It records who the process is, whether it is the super-user, its groups, the user and group names the system knows, the directories it may not create entries in (`readOnly`), and its umask;
  - each system call the protocol uses is a function that returns the new tree, an outcome (`Ok`, or the Python exception as an `Error` carrying its path), and the call it records in a trace (`seq<Op>`). The calls are `os.mkdir`, `os.chmod`, `shutil.chown`, the caller's write, the no-replace move, the replacing move and `shutil.rmtree`;
  - `CallsOn(ops, p)` is the sub-trace of the calls that name `p`.
- **Fs** is the same file system as an object. The class `FileSystem` has the fields `tree` and `ops`, and one method per system call. Each method is proved to change the object exactly as its FsSpec function says.
- **WriterSpec** is the protocol as functions on the tree:
  - one iteration of the directory loop is `ProvisionOne`;
  - the loop from iteration `idx` on is `ProvisionFrom`;
  - the caller's block is `Body`;
  - publishing is `Publish`;
  - everything from the yield on is `Staged`;
  - the whole call is `WriterCm`, which returns the final state and the path yielded, if any.

  This layer also holds the lemmas about the loop.
- **WriterCm** runs the protocol step by step as methods on a `FileSystem`. The directory loop is a `for` loop over `idx` with its invariants. Every method is proved to leave the object as the matching WriterSpec function says.
- **WriterProofs** gives the whole call in closed form (`WriterCmOutcome`) and derives the caller-facing promises from it.
- **WriterScenarios** proves the situations of the repository's tests for every starting tree of the same shape.

Encodings:

- **The parent's parts.** `parent.parts` has one more entry than the parent has components: the anchor `/`, then each component. `Path(*parts[:idx+1])` is therefore `parent[..idx]`, for `idx` from 0 (the root) to `|parent|` (the parent itself). `mkdir` on the root always fails with `FileExistsError`, which is swallowed.
- **The temporary directory's name.** The random part `tempfile` draws is the parameter `tag`, so the directory is `parent + [name + tag + ".tmp"]`. `FreshStaging` says that this name is free, which `mkdtemp` ensures by retrying on FileExistsError, and that the process may create entries in the new directory, which is an assumption of the model.
- **The caller's block** is a `Block(data, raises)`. It writes `data` to the path it is handed, or writes nothing, and then finishes or raises `raises`.
- **Defaults.** The code's defaults are `dir_perms = 0o750` (`u=rwx,g=rx,o=`) and `file_perms = 0o600` (`u=rw,g=,o=`); `Defaults` uses these values. The docstring of `file_perms` at src/writer_cm/writer_cm.py:41 says the default is `u=rwx,g=rx,o=`, but the code at line 25 uses `S_IRUSR | S_IWUSR`. The model follows the code.
- **Ownership.** After `_set_properties`, a fresh entry's owner is `OwnerAfterChown`:
  - it is the process itself when no user or group is given, or when the chown fails;
  - otherwise it is the owner asked for.

## Model

| member | source | states |
|---|---|---|
| FsSpec.Mkdir | src/writer_cm/writer_cm.py:59 | mkdir succeeds exactly when the path is absent, its parent is a directory and the parent may take new entries. The new directory has the requested mode less the umask and is owned by the process. Otherwise it changes nothing and fails with FileExistsError on a present path, FileNotFoundError on a missing parent, NotADirectoryError on a file as parent, and PermissionError on a read-only parent. |
| FsSpec.Chmod | src/writer_cm/writer_cm.py:81 | chmod succeeds exactly on an existing entry owned by the process, or when the process is the super-user; only the mode of that entry changes. |
| FsSpec.Chown | src/writer_cm/writer_cm.py:83 | chown fails with LookupError on an unknown user, then (the user being known or not given) on an unknown group; otherwise it succeeds exactly when the POSIX chown rights hold. Only the owner changes, to the user and/or group given. |
| FsSpec.Write | src/tests/test_writer_cm.py:29-32 | the caller's write leaves exactly its bytes at the path and changes no other entry. It always succeeds on a fresh path in a writable directory. |
| FsSpec.MoveNoReplace | src/writer_cm/writer_cm.py:70 | move_atomic fails with FileExistsError whenever the destination exists and the source is a file; with no source it fails with FileNotFoundError first. It succeeds exactly when the source is a file and the destination is free in a writable directory; the source's node then moves to the destination. |
| FsSpec.Replace | src/writer_cm/writer_cm.py:68 | replace_atomic supersedes a file at the destination and is refused by a directory there; on success the source's node moves to the destination. |
| FsSpec.RemoveTree | src/writer_cm/writer_cm.py:64 | rmtree on leaving the with block keeps exactly the entries not at or below the path, unchanged. |
| Fs.FileSystem.constructor | src/writer_cm/writer_cm.py:53 | the object starts with the given tree and an empty trace. |
| Fs.FileSystem.Mkdir | src/writer_cm/writer_cm.py:59 | the object's tree, the result and the appended call are FsSpec.Mkdir's. |
| Fs.FileSystem.Chmod | src/writer_cm/writer_cm.py:81 | the object's tree, the result and the appended call are FsSpec.Chmod's. |
| Fs.FileSystem.Chown | src/writer_cm/writer_cm.py:83 | the object's tree, the result and the appended call are FsSpec.Chown's. |
| Fs.FileSystem.Write | src/tests/test_writer_cm.py:29-32 | the object's tree, the result and the appended call are FsSpec.Write's. |
| Fs.FileSystem.MoveNoReplace | src/writer_cm/writer_cm.py:70 | the object's tree, the result and the appended call are FsSpec.MoveNoReplace's. |
| Fs.FileSystem.Replace | src/writer_cm/writer_cm.py:68 | the object's tree, the result and the appended call are FsSpec.Replace's. |
| Fs.FileSystem.RemoveTree | src/writer_cm/writer_cm.py:64 | the object's tree and the appended call are FsSpec.RemoveTree's. |
| WriterSpec.OwnerAfterChown | src/writer_cm/writer_cm.py:82-83 | without a user or group the owner stays the process. When chown is asked for and allowed, the owner is the one asked for. |
| WriterSpec.SetProperties | src/writer_cm/writer_cm.py:76-83 | _set_properties always calls chmod first, and calls chown only when chmod succeeded and a user or group is given. It changes only the mode and owner of that path; on success the mode is the one asked for. |
| WriterSpec.ChownOutcome | src/writer_cm/writer_cm.py:81-83 | _set_properties on an entry the process owns succeeds exactly when no chown is asked for, or the names are known and the chown is allowed. Otherwise it fails with LookupError or PermissionError on that path. |
| WriterSpec.SetPropertiesOnOwn | src/writer_cm/writer_cm.py:76-83 | on an entry the process owns, _set_properties gives exactly the mode asked for and OwnerAfterChown. Its outcome is ChownOutcome. |
| WriterSpec.Suppress | src/writer_cm/writer_cm.py:58 | exactly FileExistsError, IsADirectoryError and PermissionError are swallowed; any other error passes unchanged. |
| WriterSpec.ProvisionOneExisting | src/writer_cm/writer_cm.py:58-59 | an ancestor that already exists is left exactly as it is. Only the mkdir is called, and no properties are set. |
| WriterSpec.ProvisionOneMkdirFails | src/writer_cm/writer_cm.py:58-62 | a failed mkdir changes nothing and skips _set_properties. The only errors that escape are FileNotFoundError and NotADirectoryError. |
| WriterSpec.ProvisionOneCreates | src/writer_cm/writer_cm.py:59-62 | a created ancestor gets dir_perms and the owner chown could give it. The calls are mkdir, chmod, then chown when a user or group is given. A PermissionError from chmod or chown is swallowed; only an unknown name escapes. |
| WriterSpec.ProvisionOneSummary | src/writer_cm/writer_cm.py:56-62 | one iteration keeps every old entry and adds at most this ancestor, made with dir_perms. It leads with the mkdir, names only this ancestor, and calls chmod or chown only on an ancestor it created. |
| WriterSpec.ProvisionFromFrame | src/writer_cm/writer_cm.py:54-62 | the loop keeps every old entry unchanged. Its only new entries are ancestors of the parent made with dir_perms. An escaping error is FileNotFoundError, NotADirectoryError or LookupError. |
| WriterSpec.ProvisionFromCalls | src/writer_cm/writer_cm.py:56-62 | every call of the loop is a mkdir, chmod or chown on a prefix of the parent. chmod and chown are called only on ancestors the loop created. |
| WriterSpec.Walk | src/writer_cm/writer_cm.py:54-57 | the loop's paths are parent[..idx] for each idx in turn, one per entry of parent.parts. |
| WriterSpec.ProvisionFromWalk | src/writer_cm/writer_cm.py:54-59 | mkdir is called on the prefixes from shallowest to deepest. When the loop finishes it has been called on all of them, the last being the parent. When an error escapes it has been called on a non-empty first part of them. |
| WriterSpec.ProvisionOneReady | src/writer_cm/writer_cm.py:56-62 | with nothing in the way, one iteration succeeds, leaves the prefixes so far as directories, and keeps the rest reachable. |
| WriterSpec.ProvisionFromCompletes | src/writer_cm/writer_cm.py:54-62 | when no ancestor is a file, each missing one can be made, and the user and group names given are known, the loop finishes and every prefix of the parent is a directory. |
| WriterSpec.ProvisionFromExisting | src/writer_cm/writer_cm.py:54-59 | when every prefix already exists, the loop succeeds and changes nothing. |
| WriterSpec.StagingName | src/writer_cm/writer_cm.py:64 | the temporary directory's name starts with the destination's name (the prefix) and differs from it. |
| WriterSpec.StagingDir | src/writer_cm/writer_cm.py:64 | the temporary directory is a direct child of the destination's parent. It is neither the destination nor an ancestor of it. |
| WriterSpec.StagedFile | src/writer_cm/writer_cm.py:65 | the yielded path is the destination's name inside the temporary directory. |
| WriterSpec.Body | src/writer_cm/writer_cm.py:66 | the caller's block changes the staged path at most, and only by writing its bytes there. It finishes only when it does not raise. |
| WriterSpec.Publish | src/writer_cm/writer_cm.py:67-73 | the move is chosen by overwrite and is the first call. Without overwrite, an existing destination and the staged file present give FileExistsError, with nothing changed and no _set_properties. |
| WriterSpec.StagingAbsentAfterProvision | src/writer_cm/writer_cm.py:54-64 | the loop never creates the temporary directory or anything below it. |
| WriterCm.SetProperties | src/writer_cm/writer_cm.py:76-83 | the method leaves the tree, result and trace of WriterSpec.SetProperties. |
| WriterCm.ProvisionOne | src/writer_cm/writer_cm.py:57-62 | one iteration of the suppress block leaves the tree, result and trace of WriterSpec.ProvisionOne. |
| WriterCm.Provision | src/writer_cm/writer_cm.py:54-62 | the for loop over idx leaves the tree, result and trace of the recursive WriterSpec.Provision. |
| WriterCm.RunBlock | src/writer_cm/writer_cm.py:66 | the caller's block run on the object leaves the tree, result and trace of WriterSpec.Body. |
| WriterCm.Publish | src/writer_cm/writer_cm.py:67-73 | the move or replace followed by _set_properties leaves the tree, result and trace of WriterSpec.Publish. |
| WriterCm.Staged | src/writer_cm/writer_cm.py:64-73 | the block, the publish and the rmtree leave the tree, result and trace of WriterSpec.Staged. |
| WriterCm.WriterCm | src/writer_cm/writer_cm.py:53-73 | the whole context manager run on the object leaves the tree, the outcome, the trace and the yielded path of WriterSpec.WriterCm. |
| WriterProofs.BodyInStaging | src/writer_cm/writer_cm.py:64-66 | the block's write always lands on the fresh staged path, as a new file owned by the process. |
| WriterProofs.PublishMoves | src/writer_cm/writer_cm.py:67-73 | with nothing in the way, the staged file leaves the temporary directory, and the destination holds its bytes with file_perms and the owner asked for. |
| WriterProofs.PublishRefused | src/writer_cm/writer_cm.py:67-70 | with no staged file, with a destination present and no overwrite, or with a directory at the destination, publishing changes nothing. It reports FileNotFoundError, FileExistsError or IsADirectoryError respectively. |
| WriterProofs.CleanupAfterBody | src/writer_cm/writer_cm.py:64 | rmtree after an unpublished block removes whatever the block wrote, with the temporary directory. |
| WriterProofs.CleanupAfterMove | src/writer_cm/writer_cm.py:64 | rmtree after the publish removes the temporary directory and keeps the published destination. |
| WriterProofs.StagedRaises | src/writer_cm/writer_cm.py:64-66 | when the block raises, nothing is published, the temporary directory goes and the block's exception is what is raised. |
| WriterProofs.StagedRefused | src/writer_cm/writer_cm.py:64-70 | when the block finishes but the move is refused, the temporary directory goes and the move's error is raised. |
| WriterProofs.StagedPublishes | src/writer_cm/writer_cm.py:64-73 | when the publish goes through, the temporary directory goes and the destination holds the published file. |
| WriterProofs.StagedOutcome | src/writer_cm/writer_cm.py:64-73 | from the yield on, in closed form: the tree, the outcome and the calls for every block. The destination gets the published file exactly when the block finished, wrote bytes and nothing is in the way. |
| WriterProofs.WriterCmOutcome | src/writer_cm/writer_cm.py:53-73 | the whole call in closed form. The path is yielded exactly when the loop lets no error escape and the parent can take the temporary directory. Otherwise the loop's work stays and its error, or mkdtemp's error, is raised. When it is yielded, the result is StagedOutcome's on the tree the loop left. |
| WriterProofs.ProvisionAroundDest | src/writer_cm/writer_cm.py:54-62 | the loop keeps every old entry. It adds only ancestors made with dir_perms, never makes or removes the destination, and never makes anything below the temporary directory. |
| WriterProofs.WriterCmWellFormed | src/writer_cm/writer_cm.py:53-73 | every call leaves a tree in which every entry sits in a directory. |
| WriterProofs.StagingDirRemoved | src/writer_cm/writer_cm.py:64-73 | on every exit path, the temporary directory and everything below it are gone. |
| WriterProofs.NothingElseChanges | src/writer_cm/writer_cm.py:54-73 | every entry other than the destination keeps its node. The only other new entries are ancestors of the destination made with dir_perms, and the ancestors made are never rolled back. |
| WriterProofs.WriterCmAfterLoop | src/writer_cm/writer_cm.py:63-73 | after the loop, the rest of the call changes at most the destination. |
| WriterProofs.DestinationAtomic | src/writer_cm/writer_cm.py:67-73 | the destination is never removed. If it changed, it holds exactly the block's bytes with file_perms, and the block finished. |
| WriterProofs.StagingLocation | src/writer_cm/writer_cm.py:63-66 | the yielded path is temp_dir/name, and temp_dir is a direct child of the destination's parent whose name is name + tag + ".tmp". It is yielded exactly when the loop succeeds and the parent is a writable directory. |
| WriterProofs.ProvisionFailure | src/writer_cm/writer_cm.py:56-62 | an error that escapes the loop is raised before any temporary directory exists. It is FileNotFoundError, NotADirectoryError or LookupError, and every call made was a mkdir, chmod or chown on an ancestor. |
| WriterProofs.ProvisionOpsAvoid | src/writer_cm/writer_cm.py:56-62 | no call of the loop names the destination or anything in the temporary directory. |
| WriterProofs.CallerFailure | src/writer_cm/writer_cm.py:64-70 | when the block raises, its exception is what the call raises and the destination is exactly as before. |
| WriterProofs.CallerFailureCalls | src/writer_cm/writer_cm.py:66-73 | when the block raises, no call at all names the destination: no move, replace, chmod or chown. |
| WriterProofs.NoOverwriteCollision | src/writer_cm/writer_cm.py:69-70 | without overwrite, over an existing destination, the call raises FileExistsError on the destination's path and the old destination stays. |
| WriterProofs.NoOverwriteCollisionCalls | src/writer_cm/writer_cm.py:69-73 | in that collision, the calls naming the destination are exactly the one move: _set_properties is not applied. |
| WriterProofs.PublishRoundTrip | src/writer_cm/writer_cm.py:67-73 | when the destination is free, or overwrite is on and it is not a directory, the destination afterwards holds exactly the block's bytes, with file_perms and the owner asked for. The outcome is that of _set_properties. |
| WriterProofs.ProvisionCallsOnDest | src/writer_cm/writer_cm.py:56-62 | the loop's trace has no call on the destination. |
| WriterProofs.StagedCallsOnDest | src/writer_cm/writer_cm.py:64-73 | from the yield on, the calls on the destination are exactly the publishing calls, in order. |
| WriterProofs.DestinationCalls | src/writer_cm/writer_cm.py:53-73 | the calls on the destination of the whole call are the publishing calls, in order, when the path was yielded, and none otherwise. |
| WriterProofs.PublishCalls | src/writer_cm/writer_cm.py:67-73 | when the block writes and finishes, the calls on the destination are the move or replace (chosen by overwrite). chmod with file_perms follows exactly when the move can go through, and chown follows then exactly when a user or group is given. |
| WriterProofs.AncestorsProvisioned | src/writer_cm/writer_cm.py:54-66 | when every missing ancestor can be made, the names are known and the parent is writable, the path is yielded and every prefix of the parent is a directory afterwards. |
| WriterScenarios.ReadyParentYields | src/writer_cm/writer_cm.py:54-66 | when every ancestor already exists and the parent is writable, the loop changes nothing and the path is yielded. |
| WriterScenarios.BasicUsage | src/tests/test_writer_cm.py:25-34 | with the defaults, the destination afterwards holds exactly the bytes written, with mode 0o600, owned by the process, and the call succeeds. |
| WriterScenarios.FilePerms | src/tests/test_writer_cm.py:61-74 | the destination's mode is exactly file_perms. |
| WriterScenarios.StillReady | src/tests/test_writer_cm.py:51-58 | after one call, the tree is well-formed and the parent is still ready, so a second call on the same destination is possible. |
| WriterScenarios.SecondWriteCollides | src/tests/test_writer_cm.py:51-58 | a second call without overwrite raises FileExistsError naming the destination, and the first call's bytes stay. |
| WriterScenarios.OverwriteReplaces | src/tests/test_writer_cm.py:77-84 | a second call with overwrite leaves the second call's bytes, and only them, at the destination. |
| WriterScenarios.BelowEmptyTmp | src/tests/test_writer_cm.py:37-39 | below an empty directory the process may write in, every missing ancestor can be made. |
| WriterScenarios.DefaultAncestorModes | src/writer_cm/writer_cm.py:24 | with the defaults, every missing ancestor is made with mode 0o750 and owned by the process. |
| WriterScenarios.NewAncestors | src/writer_cm/writer_cm.py:56-62 | below an empty writable directory, the path is yielded and every deeper ancestor is a new directory with dir_perms. |
| WriterScenarios.DirPerms | src/tests/test_writer_cm.py:37-45 | below an empty writable directory, each of dir1, dir2 and dir3 is made with exactly dir_perms, and the file is published with mode 0o600. |

## Left out

- Path resolution: `Path(destination).expanduser().resolve()` depends on the home directory and on symbolic links. The model takes the destination as already absolute and canonical, and not the root itself (the `Resolved` precondition).
- Atomicity toward concurrent readers and racing writers is a guarantee of the operating system. Each system call is one state transition, and no other process acts between them.
- The internals of `atomicwrites` (fsync, link-then-unlink, rename, platform branches) are not modelled. `move_atomic` and `replace_atomic` are specified only by their observable effect on the tree and the error they raise.
- The random name `tempfile` chooses is the parameter `tag`. `FreshStaging` requires the name to be free, as `mkdtemp`'s retries on FileExistsError ensure, and the new directory to accept entries. The latter is an assumption: the directory is made with mode 0o700 less the umask, but the model never consults mode bits, so whether an entry can be created there is given by `Host.readOnly` alone.
- Name lookup and permission checks are abstracted:
  - `Host.users` and `Host.groups` stand for the password and group databases;
  - `Host.readOnly` lists the directories where creating an entry is refused;
  - chmod needs ownership or the super-user;
  - chown follows the POSIX rules: the super-user may do anything; anyone else only on an entry they own, keeping themselves as user, and choosing as group their own group, a supplementary group or the entry's current group.

  Mode bits are stored but never consulted; only the umask applies, at creation.
- The caller's file I/O is abstracted as a `Block`: one write of a byte sequence to the yielded path, or none, and then finishing or raising. Text versus binary mode is not modelled; both tests' contents map to bytes.
- Windows behaviour (the skip at src/tests/test_writer_cm.py:48-50) is not modelled.
- Errors raised by rmtree itself are not modelled. rmtree of an absent path does nothing.
- `IsADirectoryError` is in the suppress list, but the model's mkdir never raises it. Suppressing it is modelled, and the lemmas hold whether it occurs or not.
- The replacing move is specified only for a file at the source. The protocol only ever moves the staged path, which is never a directory.
- The trace records every call as it is attempted, whether it succeeds or not; it does not record the order of events inside a call.
- WriterProofs.NoOverwriteCollisionCalls and WriterProofs.PublishCalls speak only of calls that reached the yield. When the call ends before the yield, DestinationCalls shows that no call names the destination.
