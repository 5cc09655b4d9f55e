/** The values that `buildah mount` consumes from its collaborators and the
    values it produces: records, errors, console writes and collaborator calls. */
module MountTypes {

  datatype Option<+T> = None | Some(value: T)

  /** What the store answers for one container name given on the command line:
      `openBuilder` fails, or it succeeds and `builder.Mount` fails (naming the
      builder's container), or the mount succeeds with a mount point. */
  datatype Outcome =
    | ResolveFail(cause: string)
    | MountFail(container: string, cause: string)
    | Mounted(mountPoint: string)

  /** One positional argument together with the store's answer for it. */
  datatype Target = Target(name: string, outcome: Outcome)

  /** What `builder.Mounted()` answers for an enumerated builder. */
  datatype Answer = IsMounted | NotMounted | QueryFail(cause: string)

  /** One builder returned by `openBuilders`: its container name, the mount
      point it records, and its answer to `Mounted()`. */
  datatype Listed = Listed(container: string, mountPoint: string, answer: Answer)

  /** The result of `openBuilders(store)`. */
  datatype Enumeration = Builders(builders: seq<Listed>) | EnumerationFail(cause: string)

  /** Everything else the command reads from outside: the error of the flag
      order check or of opening the store, the effective user id, the store's
      graph driver name, the builder enumeration and the outcome of encoding
      the JSON document. */
  datatype World = World(
    setupError: Option<string>,
    euid: int,
    driver: string,
    enumeration: Enumeration,
    marshalError: Option<string>)

  /** The errors the command returns or prints. */
  datatype Error =
    | Setup(cause: string)                                    // flag order check or store, returned as is
    | Rootless(driver: string)                                // "cannot mount using driver ... in rootless mode"
    | ReadingContainer(name: string, cause: string)           // "error reading build container"
    | MountingContainer(name: string, container: string, cause: string) // "error mounting ... container"
    | ReadingContainers(cause: string)                        // "error reading build containers"
    | MountedQuery(cause: string)                             // Mounted() error, returned as is
    | Marshal(cause: string)                                  // JSON encoding error, returned as is

  /** A call the command makes into the store or a builder. */
  datatype Call =
    | OpenBuilder(name: string)
    | Mount(name: string)
    | OpenBuilders
    | QueryMounted(container: string)

  /** A successfully mounted container, before it is rendered. */
  datatype MountResult = MountResult(name: string, mountPoint: string)

  /** The `jsonMount` record; an empty container is left out of its JSON form. */
  datatype JsonMount = JsonMount(container: string, mountPoint: string)

  /** An abstract JSON document: `null` (a nil slice) or an array of objects,
      each a sequence of key/value members. */
  datatype Field = Field(key: string, value: string)
  datatype Json = Null | Array(objects: seq<seq<Field>>)

  /** One write to the console, in the order it happens: a text line or a JSON
      document on standard output, or an error printed on standard error. */
  datatype Write = Line(text: string) | Document(doc: Json) | Diagnostic(error: Error)

  /** What one invocation does: the error it returns (None for nil), its
      console writes and its calls into collaborators. */
  datatype Run = Run(err: Option<Error>, console: seq<Write>, calls: seq<Call>)
}
