/** `mountCmd` itself: the setup checks, the rootless gate, the loop over the
    explicit targets with its single `lastError` slot, the "list mounted" loop
    and the final JSON document, written as the source writes them and proved
    to behave as `MountSpec.Command`. */
module MountCommand {
  import opened MountTypes
  import opened Render
  import opened MountSpec

  /** Runs `buildah mount` on the given arguments. `console` is every write to
      standard output and standard error, in order; `calls` is every call
      into the store and the builders. */
  method MountCmd(targets: seq<Target>, outputJSON: bool, w: World)
    returns (err: Option<Error>, console: seq<Write>, calls: seq<Call>)
    ensures Run(err, console, calls) == Command(targets, outputJSON, w)
    ensures w.setupError == None && Gated(targets, w) ==>
              err == Some(Rootless(w.driver)) && console == [] && calls == []
  {
    console, calls := [], [];
    if w.setupError.Some? {
      err := Some(Setup(w.setupError.value));
      return;
    }
    var jsonMounts: seq<JsonMount> := [];
    var lastError: Option<Error> := None;
    if |targets| > 0 {
      if w.euid != 0 && w.driver != UnprivilegedDriver {
        err := Some(Rootless(w.driver));
        return;
      }
      var many := |targets| > 1;
      for i := 0 to |targets|
        invariant Explicit(targets[..i], many, outputJSON) == Acc(jsonMounts, console, lastError, calls)
      {
        var name := targets[i].name;
        calls := calls + [OpenBuilder(name)];
        match targets[i].outcome {
          case ResolveFail(cause) =>
            if lastError.Some? {
              console := console + [Diagnostic(lastError.value)];
            }
            lastError := Some(ReadingContainer(name, cause));
          case MountFail(container, cause) =>
            calls := calls + [Mount(name)];
            if lastError.Some? {
              console := console + [Diagnostic(lastError.value)];
            }
            lastError := Some(MountingContainer(name, container, cause));
          case Mounted(mountPoint) =>
            calls := calls + [Mount(name)];
            var r := MountResult(name, mountPoint);
            if outputJSON {
              jsonMounts := jsonMounts + [Record(r, many)];
            } else {
              console := console + [Line(TextLine(r, many))];
            }
        }
        assert targets[..i + 1][..i] == targets[..i];
      }
      assert targets[..|targets|] == targets;
    } else {
      calls := [OpenBuilders];
      match w.enumeration {
        case EnumerationFail(cause) =>
          err := Some(ReadingContainers(cause));
          return;
        case Builders(builders) =>
          for i := 0 to |builders|
            invariant ListMounted(builders[..i], outputJSON) == Listing(jsonMounts, console, calls, None)
          {
            var b := builders[i];
            calls := calls + [QueryMounted(b.container)];
            assert builders[..i + 1][..i] == builders[..i];
            match b.answer {
              case QueryFail(cause) =>
                err := Some(MountedQuery(cause));
                AbortSticks(builders, outputJSON, i + 1);
                return;
              case NotMounted =>
              case IsMounted =>
                var r := MountResult(b.container, b.mountPoint);
                if outputJSON {
                  jsonMounts := jsonMounts + [Record(r, true)];
                } else {
                  console := console + [Line(TextLine(r, true))];
                }
            }
          }
          assert builders[..|builders|] == builders;
      }
    }
    if outputJSON {
      if w.marshalError.Some? {
        err := Some(Marshal(w.marshalError.value));
        return;
      }
      console := console + [Document(Encode(jsonMounts))];
    }
    err := lastError;
  }
}
