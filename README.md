# buildah mount: the mount orchestration, modelled in Dafny

This project models `mountCmd` in `cmd/buildah/mount.go`, the body of
`buildah mount`. Given zero or more container names, the command either mounts
each named working container and reports its mount point, or, with no names,
lists the containers that are already mounted. The model covers:

- the setup checks (flag order, opening the store), as one optional early error;
- the rootless gate: with explicit names, a non-root effective user and a graph
  driver other than `vfs`, the command refuses before doing anything;
- the loop over the names. Each is opened (`openBuilder`) and then mounted.
  A failure does not stop the loop. One `lastError` slot holds the most recent
  failure. The previous failure is printed on standard error when a newer one
  replaces it;
- output shaping. The container name is shown only when more than one name
  was given. Text lines are printed as they happen. In JSON mode the
  `jsonMount` records are collected and printed once, as one document;
- the "list mounted" branch. It stops at the first `Mounted()` error.

The store, the builders, the effective user id and the driver name are inputs:
each `Target` pairs a name with the store's answer for it, and a `World` holds
the rest. The method `MountCommand.MountCmd` follows the source statement by
statement, with its two loops and its mutable `lastError` and `jsonMounts`. It
returns the error, one ordered console log of standard output and standard
error writes, and the list of calls made into the store and the builders. Its
postcondition ties these to the function `MountSpec.Command`. `MountSpec.Command`
is built from the left folds `Explicit` and `ListMounted`. The lemmas in
`MountSpec` relate those folds to independent definitions: `Failures`,
`Successes`, `Names`, `Resolved` and `MountedResults`.

Two behaviours of the code are easy to misread, and the model follows the
code:

- With no result, JSON mode prints `null`, not `[]`. `jsonMounts` starts as a
  nil slice (`cmd/buildah/mount.go:69`), and `Render.Encode` maps no records
  to `Null`.
- A superseded failure is printed only when the next failure happens. For
  names A (fails to resolve), B (mounts) and C (fails to mount), A's error is
  printed after B's line, and C's error is returned. `MountSpec.FailOkFail`
  states this.

Files: `mount_types.dfy` (data model), `render.dfy` (records, lines, the JSON
document, the two output streams), `mount_spec.dfy` (specification and
lemmas), `mount_cmd.dfy` (the command).

## Model

| member | source | states |
|---|---|---|
| `MountCommand.MountCmd` | cmd/buildah/mount.go:59-141 | The command's error, console writes and collaborator calls are exactly those of `Command`. With explicit names, a non-root user and a driver other than vfs, it returns the rootless error naming the driver, writes nothing and opens no builder |
| `MountSpec.ExplicitFailurePolicy` | cmd/buildah/mount.go:80-96 | After the loop, `lastError` is the most recent failure, or none when every name resolved and mounted. Standard error holds every earlier failure, in order, so k failures give k-1 lines and the k-th is not printed |
| `MountSpec.ExplicitOutput` | cmd/buildah/mount.go:97-109 | A failed name produces nothing. Each mounted name produces exactly one result, in request order: a record in JSON mode and nothing on standard output, or a text line in text mode and no record |
| `MountSpec.ExplicitCalls` | cmd/buildah/mount.go:80-96 | Every name is opened, in request order, also after a failure. `Mount` is called for exactly the names that resolved |
| `MountSpec.ExplicitCommand` | cmd/buildah/mount.go:71-140 | In the explicit branch, the command returns the most recent failure (or nil), unless JSON encoding fails, in which case it returns that error. Superseded failures go to standard error in order. Standard output is the text lines, or one JSON document printed after the loop, or nothing when encoding fails |
| `MountSpec.NameShownIffMany` | cmd/buildah/mount.go:97-109 | The i-th record or line names its container iff more than one name was requested, however many of them failed. Otherwise it is only the mount point |
| `MountSpec.SingleTarget` | cmd/buildah/mount.go:103-109 | One name that mounts gives only its mount point: a bare line, or a one-element JSON array whose object has no container member |
| `MountSpec.FailOkFail` | cmd/buildah/mount.go:80-110 | For names A (resolve fails), B (mounts) and C (mount fails), B's line comes first, then A's error on standard error, and C's error is returned |
| `MountSpec.ListIgnoresPrivilege` | cmd/buildah/mount.go:71-78 | With no names the gate is never evaluated: the result does not depend on the effective user or the driver |
| `MountSpec.ListAllAnswered` | cmd/buildah/mount.go:117-129 | When every `Mounted()` query answers, each builder is queried once, in order. Exactly the mounted ones produce a result, and it always names the container |
| `MountSpec.AbortSticks` | cmd/buildah/mount.go:118-121 | Once a `Mounted()` query has failed, later builders change nothing |
| `MountSpec.ListStopsAtFirstFailure` | cmd/buildah/mount.go:117-121 | The first failing query ends the loop with its error. No later builder is queried. Only mounted builders before it produced results |
| `MountSpec.ListCommand` | cmd/buildah/mount.go:111-140 | With no names and every query answered, the command returns nil, or the JSON encoding error. It prints one named line per mounted builder, or a single document |
| `MountSpec.ListCommandQueryFails` | cmd/buildah/mount.go:118-121 | With no names, a failing `Mounted()` query is returned unwrapped at once. Nothing after it is queried and no JSON document is printed |
| `Render.Encode` | cmd/buildah/mount.go:132-137 | The JSON document is `null` exactly when no record was collected. Otherwise it is an array with one object per record |
| `Render.ObjectKeys` | cmd/buildah/mount.go:14-17 | A record's object has a `container` member iff its container is non-empty (`omitempty`). It always has `mountPoint` |
| `Render.DecodeEncode` | cmd/buildah/mount.go:14-17 | Reading the JSON document back gives the collected records, so the rendering loses nothing |
| `Render.RecordsAt` | cmd/buildah/mount.go:99-105 | The i-th record carries the i-th result's mount point, and its name exactly when names are shown |
| `Render.LinesAt` | cmd/buildah/mount.go:102-108 | The i-th text line is `<name> <mountPoint>` when names are shown, else the bare mount point |

## Left out

- Command registration, flag definitions, the hidden `--notruncate` flag, the usage template and `logrus.Fatalf` (`cmd/buildah/mount.go:19-57`). They are command-line plumbing and not part of this model. `--json` is the `outputJSON` parameter.
- `buildahcli.VerifyFlagsArgsOrder` and `getStore` are not part of this model. Their failure is one optional early error (`World.setupError`), returned as is.
- `openBuilder`, `builder.Mount`, `openBuilders`, `builder.Mounted`, `os.Geteuid`, `store.GraphDriverName` and `getContext` are storage, syscall and library calls. Their results are inputs.
- The bytes written: `json.MarshalIndent`'s indentation, the trailing newlines and the wording of the wrapped error messages. The document is an abstract JSON value. Each error is a constructor carrying the names and the cause it wraps.
- Writing to the real standard output and standard error. The command returns one ordered log of its writes instead.
- Whether `json.MarshalIndent` can fail on these records. Its failure is an input (`World.marshalError`).
