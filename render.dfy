/** How results reach the console: the `jsonMount` record with its
    `omitempty` container, the text line, the JSON document (as an abstract
    value, not as bytes) and the split of the console into its two streams. */
module Render {
  import opened MountTypes

  /** The record appended to `jsonMounts`; the name is kept only when names are shown. */
  function Record(r: MountResult, withName: bool): JsonMount {
    JsonMount(if withName then r.name else "", r.mountPoint)
  }

  /** The text line printed for a result: "<name> <mountPoint>" or "<mountPoint>". */
  function TextLine(r: MountResult, withName: bool): string {
    if withName then r.name + " " + r.mountPoint else r.mountPoint
  }

  /** The records of a sequence of results, one per result, in order. */
  function Records(rs: seq<MountResult>, withName: bool): (ms: seq<JsonMount>)
    ensures |ms| == |rs|
  {
    if rs == [] then [] else Records(rs[..|rs| - 1], withName) + [Record(rs[|rs| - 1], withName)]
  }

  /** The text lines of a sequence of results, one per result, in order. */
  function Lines(rs: seq<MountResult>, withName: bool): (ws: seq<Write>)
    ensures |ws| == |rs|
  {
    if rs == [] then [] else Lines(rs[..|rs| - 1], withName) + [Line(TextLine(rs[|rs| - 1], withName))]
  }

  /** The i-th record carries the i-th result's mount point, and its name
      exactly when names are shown. */
  lemma {:induction false} RecordsAt(rs: seq<MountResult>, withName: bool, i: nat)
    requires i < |rs|
    ensures Records(rs, withName)[i].mountPoint == rs[i].mountPoint
    ensures Records(rs, withName)[i].container == (if withName then rs[i].name else "")
  {
    if i < |rs| - 1 {
      RecordsAt(rs[..|rs| - 1], withName, i);
    }
  }

  /** The i-th line is "<name> <mountPoint>" when names are shown, else the
      bare mount point. */
  lemma {:induction false} LinesAt(rs: seq<MountResult>, withName: bool, i: nat)
    requires i < |rs|
    ensures Lines(rs, withName)[i] == Line(if withName then rs[i].name + " " + rs[i].mountPoint else rs[i].mountPoint)
  {
    if i < |rs| - 1 {
      LinesAt(rs[..|rs| - 1], withName, i);
    }
  }

  /** The JSON object of one record: `container` is `omitempty`, `mountPoint` is not. */
  function Object(m: JsonMount): seq<Field> {
    (if m.container == "" then [] else [Field("container", m.container)])
      + [Field("mountPoint", m.mountPoint)]
  }

  /** `json.MarshalIndent(jsonMounts)`: a nil slice (no record was appended)
      encodes as `null`, otherwise as an array of one object per record. */
  function Encode(ms: seq<JsonMount>): (doc: Json)
    ensures doc == Null <==> ms == []
    ensures doc.Array? ==> |doc.objects| == |ms|
  {
    if ms == [] then Null else Array(seq(|ms|, i requires 0 <= i < |ms| => Object(ms[i])))
  }

  /** Whether an object has a member with the given key. */
  predicate HasKey(fields: seq<Field>, key: string) {
    exists i :: 0 <= i < |fields| && fields[i].key == key
  }

  /** The value of the first member with the given key, or "" (the zero value
      a decoder leaves in a missing field). */
  function Lookup(fields: seq<Field>, key: string): string {
    if fields == [] then ""
    else if fields[0].key == key then fields[0].value
    else Lookup(fields[1..], key)
  }

  /** Reading a document back into records, as a JSON decoder would. */
  function Decode(doc: Json): seq<JsonMount> {
    match doc
    case Null => []
    case Array(os) => seq(|os|, i requires 0 <= i < |os| => JsonMount(Lookup(os[i], "container"), Lookup(os[i], "mountPoint")))
  }

  /** An object has a `container` member exactly when the record's container is
      not empty, and always a `mountPoint` member. */
  lemma ObjectKeys(m: JsonMount)
    ensures HasKey(Object(m), "container") <==> m.container != ""
    ensures HasKey(Object(m), "mountPoint")
  {
    var o := Object(m);
    assert o[|o| - 1].key == "mountPoint";
    if m.container != "" {
      assert o[0].key == "container";
    } else {
      assert o == [Field("mountPoint", m.mountPoint)];
      assert "mountPoint" != "container" by { assert |"mountPoint"| != |"container"|; }
    }
  }

  /** The document loses nothing: decoding an encoding gives back the records. */
  lemma DecodeEncode(ms: seq<JsonMount>)
    ensures Decode(Encode(ms)) == ms
  {
    if ms != [] {
      var doc := Encode(ms);
      forall i | 0 <= i < |ms|
        ensures JsonMount(Lookup(doc.objects[i], "container"), Lookup(doc.objects[i], "mountPoint")) == ms[i]
      {
        ObjectRoundTrip(ms[i]);
      }
    }
  }

  /** Each member of a record's object reads back as the record's field. */
  lemma ObjectRoundTrip(m: JsonMount)
    ensures Lookup(Object(m), "container") == m.container
    ensures Lookup(Object(m), "mountPoint") == m.mountPoint
  {
    assert "mountPoint" != "container" by { assert |"mountPoint"| != |"container"|; }
    var last := [Field("mountPoint", m.mountPoint)];
    assert Lookup(last, "mountPoint") == m.mountPoint;
    assert Lookup(last, "container") == "" by { assert last[1..] == []; }
    if m.container != "" {
      assert Object(m)[1..] == last;
    } else {
      assert Object(m) == last;
    }
  }

  /** The standard output writes of a console, in order. */
  function Stdout(console: seq<Write>): (out: seq<Write>)
    ensures |out| <= |console|
  {
    if console == [] then []
    else
      var w := console[|console| - 1];
      Stdout(console[..|console| - 1]) + (if w.Diagnostic? then [] else [w])
  }

  /** The errors printed on standard error, in order. */
  function Stderr(console: seq<Write>): (errs: seq<Error>)
    ensures |errs| <= |console|
  {
    if console == [] then []
    else
      var w := console[|console| - 1];
      Stderr(console[..|console| - 1]) + (if w.Diagnostic? then [w.error] else [])
  }

  /** Appending a write extends exactly one of the two streams. */
  lemma StreamsSnoc(console: seq<Write>, w: Write)
    ensures Stdout(console + [w]) == Stdout(console) + (if w.Diagnostic? then [] else [w])
    ensures Stderr(console + [w]) == Stderr(console) + (if w.Diagnostic? then [w.error] else [])
  {
    assert (console + [w])[..|console|] == console;
  }

  /** A console of text lines has them all on standard output and nothing on
      standard error. */
  lemma {:induction false} LinesStreams(rs: seq<MountResult>, withName: bool)
    ensures Stdout(Lines(rs, withName)) == Lines(rs, withName)
    ensures Stderr(Lines(rs, withName)) == []
  {
    if rs != [] {
      var init := rs[..|rs| - 1];
      LinesStreams(init, withName);
      StreamsSnoc(Lines(init, withName), Line(TextLine(rs[|rs| - 1], withName)));
    }
  }
}
