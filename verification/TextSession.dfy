/**
 The aria2 text session: `Format` writes one block per exported task, a URI line
 followed by ` key=value` lines, and `ParseReader` reads such blocks back.
 */
module TextSession {
  import opened Wrappers
  import opened Sorting
  import opened Text
  import opened Tasks

  /** The parts of a task the session writer looks at. */
  datatype SessionTask = SessionTask(
    gid: string, name: string, status: Status, saveDir: string, seeder: bool,
    files: seq<seq<string>>, options: Options, localOptions: Options, meta: Options)

  datatype Entry = Entry(
    uri: string, gid: string, dir: string, out: string, paused: bool,
    checksum: string, metalink: string, options: Options)

  datatype ParseError = OptionWithoutURI(line: nat) | InvalidOption(line: nat)

  predicate IsBlank(s: string) { TrimSpace(s) == "" }

  // ---- Writing ---------------------------------------------------------------

  predicate ShouldExport(item: SessionTask) {
    match item.status
    case Waiting => true
    case Paused => true
    case Active => true
    case Errored => true
    case Complete => item.seeder
    case Removed => false
  }

  function FirstMeta(meta: Options, keys: seq<string>): (r: string)
    ensures Trimmed(r)
  {
    if keys == [] then ""
    else
      var u := TrimSpace(Lookup(meta, keys[0]));
      if u != "" then u else FirstMeta(meta, keys[1..])
  }

  function FirstURI(uris: seq<string>): (r: string)
    ensures r == "" || !IsBlank(r)
  {
    if uris == [] then ""
    else if !IsBlank(uris[0]) then uris[0]
    else FirstURI(uris[1..])
  }

  /** `taskSourceURI`: the first non-blank source in the metadata, else in the first file. */
  function SourceURI(item: SessionTask): (r: string)
    ensures r == "" || !IsBlank(r)
  {
    var fromMeta := FirstMeta(item.meta, [
      "bt.source.uri", "http.sourceURL", "ed2k.sourceURI", "ftp.sourceURL", "sftp.sourceURI", "file.sourceURI"]);
    if fromMeta != "" then fromMeta
    else if item.files != [] then FirstURI(item.files[0])
    else ""
  }

  predicate Exported(item: Option<SessionTask>) {
    && item.Some?
    && item.value.status != Removed
    && Lower(Lookup(item.value.meta, "bt.sessionDetached")) != "true"
    && ShouldExport(item.value)
    && SourceURI(item.value) != ""
  }

  function WithIf(m: Options, cond: bool, key: string, value: string): Options {
    if cond then m[key := value] else m
  }

  /** The option map a task is written with. */
  function EntryOptions(item: SessionTask): Options {
    var merged := item.options + item.localOptions;
    var withDir := WithIf(merged, item.saveDir != "", "dir", item.saveDir);
    var withOut := WithIf(withDir, item.name != "", "out", item.name);
    var withPause := if item.status == Paused then withOut["pause" := "true"] else withOut - {"pause"};
    var checksum := TrimSpace(Lookup(item.meta, "aria2.checksum"));
    var withSum := WithIf(withPause, checksum != "", "checksum", checksum);
    WithIf(withSum, item.gid != "", "gid", Lower(item.gid))
  }

  function ToEntry(item: SessionTask): Entry {
    Entry(SourceURI(item), Lower(item.gid), item.saveDir, item.name, item.status == Paused, "", "", EntryOptions(item))
  }

  function Entries(tasks: seq<Option<SessionTask>>): seq<Entry> {
    if tasks == [] then []
    else (if Exported(tasks[0]) then [ToEntry(tasks[0].value)] else []) + Entries(tasks[1..])
  }

  // ---- What is written, in the fields of the task ----------------------------------------

  /** Where a task may come from, in the order of preference: metadata, trimmed, then the URIs of its first file. */
  function Sources(t: SessionTask): seq<string> {
    [
      TrimSpace(Lookup(t.meta, "bt.source.uri")), TrimSpace(Lookup(t.meta, "http.sourceURL")),
      TrimSpace(Lookup(t.meta, "ed2k.sourceURI")), TrimSpace(Lookup(t.meta, "ftp.sourceURL")),
      TrimSpace(Lookup(t.meta, "sftp.sourceURI")), TrimSpace(Lookup(t.meta, "file.sourceURI"))
    ] + if t.files == [] then [] else t.files[0]
  }

  ghost predicate FirstNotBlank(sources: seq<string>, u: string) {
    exists k :: 0 <= k < |sources| && sources[k] == u && !IsBlank(u) && forall j | 0 <= j < k :: IsBlank(sources[j])
  }

  /**
   A task is written when it is unfinished, failed, or complete and still seeding, not detached
   from the session, and has some source.
   */
  ghost predicate ToBeWritten(item: Option<SessionTask>) {
    && item.Some?
    && var t := item.value;
       && (t.status in {Waiting, Paused, Active, Errored} || (t.status == Complete && t.seeder))
       && Lower(Lookup(t.meta, "bt.sessionDetached")) != "true"
       && exists k :: 0 <= k < |Sources(t)| && !IsBlank(Sources(t)[k])
  }

  /** An option as the task has it: its own, or else the inherited one. */
  function OwnOption(t: SessionTask, key: string): Option<string> {
    if key in t.localOptions then Some(t.localOptions[key])
    else if key in t.options then Some(t.options[key])
    else None
  }

  /** An option as it is written: a few stand for fields of the task, and `pause` for its status alone. */
  function WrittenOption(t: SessionTask, key: string): Option<string> {
    if key == "pause" then if t.status == Paused then Some("true") else None
    else if key == "dir" && t.saveDir != "" then Some(t.saveDir)
    else if key == "out" && t.name != "" then Some(t.name)
    else if key == "gid" && t.gid != "" then Some(Lower(t.gid))
    else if key == "checksum" && !IsBlank(Lookup(t.meta, "aria2.checksum")) then
      Some(TrimSpace(Lookup(t.meta, "aria2.checksum")))
    else OwnOption(t, key)
  }

  ghost predicate WrittenAs(t: SessionTask, e: Entry) {
    && FirstNotBlank(Sources(t), e.uri)
    && e.gid == Lower(t.gid) && e.dir == t.saveDir && e.out == t.name && (e.paused <==> t.status == Paused)
    && forall key ::
         if key in e.options then WrittenOption(t, key) == Some(e.options[key]) else WrittenOption(t, key) == None
  }

  lemma {:induction false} FirstMetaIs(meta: Options, keys: seq<string>, u: string)
    requires u == FirstMeta(meta, keys)
    ensures var all := seq(|keys|, i requires 0 <= i < |keys| => TrimSpace(Lookup(meta, keys[i])));
      if u == "" then forall k | 0 <= k < |keys| :: all[k] == "" else FirstNotBlank(all, u)
  {
    var all := seq(|keys|, i requires 0 <= i < |keys| => TrimSpace(Lookup(meta, keys[i])));
    if keys != [] {
      var rest := seq(|keys| - 1, i requires 0 <= i < |keys| - 1 => TrimSpace(Lookup(meta, keys[1..][i])));
      assert all == [all[0]] + rest;
      FirstMetaIs(meta, keys[1..], FirstMeta(meta, keys[1..]));
      FirstOfMore(all[0], rest);
      hide TrimSpace;
    }
  }

  lemma FirstOfMore(x: string, rest: seq<string>)
    ensures !IsBlank(x) ==> FirstNotBlank([x] + rest, x)
    ensures forall u | IsBlank(x) && FirstNotBlank(rest, u) :: FirstNotBlank([x] + rest, u)
  {
    hide IsBlank;
    forall u | IsBlank(x) && FirstNotBlank(rest, u) ensures FirstNotBlank([x] + rest, u) {
      var k :| 0 <= k < |rest| && rest[k] == u && !IsBlank(u) && forall j | 0 <= j < k :: IsBlank(rest[j]);
      assert ([x] + rest)[k + 1] == u;
    }
    if !IsBlank(x) {
      assert ([x] + rest)[0] == x;
    }
  }

  lemma {:induction false} FirstURIIs(uris: seq<string>)
    ensures var u := FirstURI(uris);
      if u == "" then forall k | 0 <= k < |uris| :: IsBlank(uris[k]) else FirstNotBlank(uris, u)
  {
    if uris != [] {
      FirstURIIs(uris[1..]);
      assert uris == [uris[0]] + uris[1..];
      FirstOfMore(uris[0], uris[1..]);
      assert IsBlank("");
      hide IsBlank;
    }
  }

  lemma FirstOfTwo(a: seq<string>, b: seq<string>, u: string)
    ensures FirstNotBlank(a, u) ==> FirstNotBlank(a + b, u)
    ensures (forall k | 0 <= k < |a| :: IsBlank(a[k])) && FirstNotBlank(b, u) ==> FirstNotBlank(a + b, u)
  {
    hide IsBlank;
    if FirstNotBlank(a, u) {
      var k :| 0 <= k < |a| && a[k] == u && !IsBlank(u) && forall j | 0 <= j < k :: IsBlank(a[j]);
      assert (a + b)[k] == u;
    }
    if (forall k | 0 <= k < |a| :: IsBlank(a[k])) && FirstNotBlank(b, u) {
      var k :| 0 <= k < |b| && b[k] == u && !IsBlank(u) && forall j | 0 <= j < k :: IsBlank(b[j]);
      assert (a + b)[|a| + k] == u;
    }
  }

  const SOURCE_KEYS := [
    "bt.source.uri", "http.sourceURL", "ed2k.sourceURI", "ftp.sourceURL", "sftp.sourceURI", "file.sourceURI"]

  lemma MetaSources(t: SessionTask)
    ensures seq(|SOURCE_KEYS|, i requires 0 <= i < |SOURCE_KEYS| => TrimSpace(Lookup(t.meta, SOURCE_KEYS[i])))
         == Sources(t)[..6]
    ensures Sources(t)[6..] == if t.files == [] then [] else t.files[0]
  {
    hide TrimSpace, Lookup;
  }

  /** The source found is the first that is not blank. */
  lemma SourceIs(t: SessionTask)
    ensures var u := SourceURI(t);
      if u == "" then forall k | 0 <= k < |Sources(t)| :: IsBlank(Sources(t)[k]) else FirstNotBlank(Sources(t), u)
  {
    var m := FirstMeta(t.meta, SOURCE_KEYS);
    var a, b := Sources(t)[..6], Sources(t)[6..];
    FirstMetaIs(t.meta, SOURCE_KEYS, m);
    MetaSources(t);
    assert IsBlank("");
    FirstURIIs(b);
    hide Sources, IsBlank, FirstMeta, FirstURI, FirstNotBlank, TrimSpace, Lookup;
    assert Sources(t) == a + b;
    FirstOfTwo(a, b, m);
    FirstOfTwo(a, b, FirstURI(b));
    if m == "" && FirstURI(b) == "" {
      forall k | 0 <= k < |Sources(t)| ensures IsBlank(Sources(t)[k]) {
        if k < 6 { assert a[k] == ""; } else { assert b[k - 6] == Sources(t)[k]; }
      }
    }
  }

  /** The entry of an option map, if there is one. */
  function At(m: Options, key: string): Option<string> {
    if key in m then Some(m[key]) else None
  }

  lemma AtWithIf(m: Options, cond: bool, k: string, v: string, key: string)
    ensures At(WithIf(m, cond, k, v), key) == if cond && key == k then Some(v) else At(m, key)
  {
  }

  lemma AtPause(m: Options, paused: bool, key: string)
    ensures At(if paused then m["pause" := "true"] else m - {"pause"}, key)
         == if key != "pause" then At(m, key) else if paused then Some("true") else None
  {
  }

  lemma OptionIs(t: SessionTask, key: string)
    ensures At(EntryOptions(t), key) == WrittenOption(t, key)
  {
    var merged := t.options + t.localOptions;
    var withDir := WithIf(merged, t.saveDir != "", "dir", t.saveDir);
    var withOut := WithIf(withDir, t.name != "", "out", t.name);
    var withPause := if t.status == Paused then withOut["pause" := "true"] else withOut - {"pause"};
    var checksum := TrimSpace(Lookup(t.meta, "aria2.checksum"));
    var withSum := WithIf(withPause, checksum != "", "checksum", checksum);
    AtWithIf(merged, t.saveDir != "", "dir", t.saveDir, key);
    AtWithIf(withDir, t.name != "", "out", t.name, key);
    AtPause(withOut, t.status == Paused, key);
    AtWithIf(withPause, checksum != "", "checksum", checksum, key);
    AtWithIf(withSum, t.gid != "", "gid", Lower(t.gid), key);
    assert At(merged, key) == OwnOption(t, key);
    hide TrimSpace, Lower, Lookup, At, WithIf, OwnOption;
  }

  lemma OptionsAre(t: SessionTask)
    ensures var opts := EntryOptions(t);
      forall key :: if key in opts then WrittenOption(t, key) == Some(opts[key]) else WrittenOption(t, key) == None
  {
    hide EntryOptions, WrittenOption;
    forall key
      ensures var opts := EntryOptions(t);
        if key in opts then WrittenOption(t, key) == Some(opts[key]) else WrittenOption(t, key) == None
    {
      OptionIs(t, key);
    }
  }

  /** Exactly those tasks are exported, and as such entries. */
  lemma {:induction false} ExportedExactly(item: Option<SessionTask>)
    ensures Exported(item) <==> ToBeWritten(item)
    ensures Exported(item) ==> WrittenAs(item.value, ToEntry(item.value))
  {
    if item.Some? {
      ExportedIf(item.value);
      if Exported(item) {
        EntryIs(item.value);
      }
    }
    hide WrittenAs, ToEntry, ShouldExport, SourceURI, Sources, IsBlank, Lower, Lookup;
  }

  lemma ExportedIf(t: SessionTask)
    ensures Exported(Some(t)) <==> ToBeWritten(Some(t))
  {
    SourceIs(t);
    SomeSource(t);
    hide Sources, IsBlank, SourceURI, FirstNotBlank, Lower, Lookup;
  }

  lemma EntryIs(t: SessionTask)
    requires Exported(Some(t))
    ensures WrittenAs(t, ToEntry(t))
  {
    SourceIs(t);
    OptionsAre(t);
    hide Sources, IsBlank, SourceURI, FirstNotBlank, EntryOptions, WrittenOption, Lower, Lookup;
  }

  lemma SomeSource(t: SessionTask)
    requires var u := SourceURI(t);
      if u == "" then forall k | 0 <= k < |Sources(t)| :: IsBlank(Sources(t)[k]) else FirstNotBlank(Sources(t), u)
    ensures SourceURI(t) != "" <==> exists k :: 0 <= k < |Sources(t)| && !IsBlank(Sources(t)[k])
  {
    hide Sources, IsBlank, SourceURI;
  }

  /** The entries of a task list are those of its parts, one after the other. */
  lemma {:induction false} EntriesConcat(a: seq<Option<SessionTask>>, b: seq<Option<SessionTask>>)
    ensures Entries(a + b) == Entries(a) + Entries(b)
  {
    if a == [] {
      assert a + b == b;
      hide Entries;
      NoEntries();
    } else {
      assert (a + b)[0] == a[0] && (a + b)[1..] == a[1..] + b;
      EntriesConcat(a[1..], b);
      EntriesHead(a);
      EntriesHead(a + b);
      RegroupEntries(HeadEntry(a[0]), Entries(a[1..]), Entries(b));
      hide *;
    }
  }

  function HeadEntry(item: Option<SessionTask>): seq<Entry> {
    if Exported(item) then [ToEntry(item.value)] else []
  }

  lemma EntriesHead(tasks: seq<Option<SessionTask>>)
    requires tasks != []
    ensures Entries(tasks) == HeadEntry(tasks[0]) + Entries(tasks[1..])
  {
    hide ToEntry, Exported;
  }

  lemma RegroupEntries(x: seq<Entry>, y: seq<Entry>, z: seq<Entry>)
    ensures x + (y + z) == x + y + z
  {
  }

  lemma EntryOfOne(item: Option<SessionTask>)
    ensures if ToBeWritten(item)
      then |Entries([item])| == 1 && WrittenAs(item.value, Entries([item])[0])
      else Entries([item]) == []
  {
    ExportedExactly(item);
    assert [item][1..] == [];
    hide ToBeWritten, WrittenAs, Exported, ToEntry;
  }

  /** `taskToEntry`. */
  method TaskToEntry(item: Option<SessionTask>) returns (r: Option<Entry>)
    ensures r == if Exported(item) then Some(ToEntry(item.value)) else None
    ensures r.Some? <==> ToBeWritten(item)
    ensures r.Some? ==> WrittenAs(item.value, r.value)
  {
    ExportedExactly(item);
    hide ToBeWritten, WrittenAs;
    if item.None? || item.value.status == Removed {
      return None;
    }
    var t := item.value;
    if Lower(Lookup(t.meta, "bt.sessionDetached")) == "true" || !ShouldExport(t) {
      return None;
    }
    var uri := SourceURI(t);
    if uri == "" {
      return None;
    }
    var opts := t.options;
    opts := opts + t.localOptions;
    if t.saveDir != "" { opts := opts["dir" := t.saveDir]; }
    if t.name != "" { opts := opts["out" := t.name]; }
    if t.status == Paused { opts := opts["pause" := "true"]; } else { opts := opts - {"pause"}; }
    var checksum := TrimSpace(Lookup(t.meta, "aria2.checksum"));
    if checksum != "" { opts := opts["checksum" := checksum]; }
    if t.gid != "" { opts := opts["gid" := Lower(t.gid)]; }
    r := Some(Entry(uri, Lower(t.gid), t.saveDir, t.name, t.status == Paused, "", "", opts));
  }

  function OptionLine(key: string, value: string): string {
    " " + key + "=" + value
  }

  function OptionLines(opts: Options, keys: seq<string>): seq<string>
    requires forall k | k in keys :: k in opts
  {
    if keys == [] then []
    else (if IsBlank(opts[keys[0]]) then [] else [OptionLine(keys[0], opts[keys[0]])]) + OptionLines(opts, keys[1..])
  }

  ghost function EntryLines(e: Entry): seq<string> {
    [TrimSpace(e.uri)] + OptionLines(e.options, SortedKeys(e.options.Keys))
  }

  /** The text of one block. */
  ghost function Block(e: Entry): string {
    Unlines(EntryLines(e))
  }

  /** Blocks with an empty line between them. */
  function Join(blocks: seq<string>): string {
    if blocks == [] then ""
    else if |blocks| == 1 then blocks[0]
    else blocks[0] + "\n" + Join(blocks[1..])
  }

  lemma {:induction false} JoinSnoc(blocks: seq<string>, b: string)
    ensures Join(blocks + [b]) == Join(blocks) + (if blocks == [] then "" else "\n") + b
  {
    if blocks == [] {
      assert blocks + [b] == [b];
    } else {
      assert (blocks + [b])[1..] == blocks[1..] + [b];
      JoinSnoc(blocks[1..], b);
      if |blocks| == 1 { assert Join(blocks[1..]) == ""; }
    }
  }

  ghost function Blocks(es: seq<Entry>): seq<string> {
    seq(|es|, i requires 0 <= i < |es| => Block(es[i]))
  }

  /** The text of a session. */
  ghost function SessionText(es: seq<Entry>): string {
    Join(Blocks(es))
  }

  function Unlines(lines: seq<string>): string {
    if lines == [] then "" else lines[0] + "\n" + Unlines(lines[1..])
  }

  class Builder {
    var text: string

    constructor ()
      ensures text == ""
    {
      text := "";
    }

    method WriteString(s: string)
      modifies this
      ensures text == old(text) + s
    {
      text := text + s;
    }
  }

  lemma UnlinesCons(line: string, lines: seq<string>)
    ensures Unlines([line] + lines) == line + "\n" + Unlines(lines)
  {
    assert ([line] + lines)[1..] == lines;
  }

  /** What one option contributes to the text of a block. */
  function OptionText(opts: Options, key: string): string
    requires key in opts
  {
    if IsBlank(opts[key]) then "" else OptionLine(key, opts[key]) + "\n"
  }

  lemma OptionStep(opts: Options, keys: seq<string>, i: nat)
    requires i < |keys| && forall k | k in keys :: k in opts
    ensures Unlines(OptionLines(opts, keys[i..]))
         == OptionText(opts, keys[i]) + Unlines(OptionLines(opts, keys[i + 1..]))
  {
    var rest := keys[i..];
    assert rest[0] == keys[i] && rest[1..] == keys[i + 1..];
    var later := OptionLines(opts, keys[i + 1..]);
    if IsBlank(opts[keys[i]]) {
      assert OptionLines(opts, rest) == [] + later == later;
    } else {
      UnlinesCons(OptionLine(keys[i], opts[keys[i]]), later);
    }
  }

  /** `writeEntry`. An entry without a URI is refused. */
  method WriteEntry(b: Builder, e: Entry) returns (ok: bool)
    modifies b
    ensures ok == !IsBlank(e.uri)
    ensures b.text == if ok then old(b.text) + Block(e) else old(b.text)
  {
    var uri := TrimSpace(e.uri);
    if uri == "" {
      return false;
    }
    b.WriteString(uri + "\n");
    var keys := ListSorted(e.options.Keys);
    WriteOptions(b, e.options, keys);
    UnlinesCons(uri, OptionLines(e.options, keys));
    Associate(old(b.text), uri + "\n", Unlines(OptionLines(e.options, keys)));
    return true;
  }

  lemma Associate(a: string, b: string, c: string)
    ensures a + b + c == a + (b + c)
  {
  }

  method WriteOptions(b: Builder, opts: Options, keys: seq<string>)
    requires forall k | k in keys :: k in opts
    modifies b
    ensures b.text == old(b.text) + Unlines(OptionLines(opts, keys))
  {
    var i := 0;
    while i < |keys|
      invariant i <= |keys|
      invariant b.text + Unlines(OptionLines(opts, keys[i..])) == old(b.text) + Unlines(OptionLines(opts, keys))
    {
      OptionStep(opts, keys, i);
      Associate(b.text, OptionText(opts, keys[i]), Unlines(OptionLines(opts, keys[i + 1..])));
      WriteOption(b, opts, keys[i]);
      i := i + 1;
    }
    assert keys[i..] == [];
  }

  method WriteOption(b: Builder, opts: Options, key: string)
    requires key in opts
    modifies b
    ensures b.text == old(b.text) + OptionText(opts, key)
  {
    var value := opts[key];
    if TrimSpace(value) == "" {
      return;
    }
    b.WriteString(OptionLine(key, value) + "\n");
  }

  lemma EntriesStep(tasks: seq<Option<SessionTask>>, i: nat)
    requires i < |tasks|
    ensures Entries(tasks[i..])
         == (if Exported(tasks[i]) then [ToEntry(tasks[i].value)] else []) + Entries(tasks[i + 1..])
  {
    assert tasks[i..][0] == tasks[i] && tasks[i..][1..] == tasks[i + 1..];
  }

  lemma ExportedHasURI(item: Option<SessionTask>)
    requires Exported(item)
    ensures !IsBlank(ToEntry(item.value).uri)
  {
  }

  lemma NoEntries()
    ensures Entries([]) == [] && SessionText([]) == ""
  {
  }

  /** `Format`: it never fails, and writes the blocks of the exported tasks in order. */
  method Format(tasks: seq<Option<SessionTask>>) returns (r: Option<string>)
    ensures r == Some(SessionText(Entries(tasks)))
  {
    hide SessionText, Entries, ToEntry, IsBlank, Exported;
    NoEntries();
    var b := new Builder();
    var wrote := 0;
    ghost var done: seq<Entry> := [];
    for i := 0 to |tasks|
      invariant done + Entries(tasks[i..]) == Entries(tasks)
      invariant wrote == |done|
      invariant b.text == SessionText(done)
    {
      EntriesStep(tasks, i);
      var e := TaskToEntry(tasks[i]);
      if e.Some? {
        ExportedHasURI(tasks[i]);
        var ok := AppendEntry(b, wrote, e.value, done);
        if !ok {
          return None;
        }
        wrote := wrote + 1;
        done := done + [e.value];
      }
    }
    assert tasks[|tasks|..] == [] && done + [] == done;
    return Some(b.text);
  }

  /** The body of the loop of `Format` for an exported task. */
  method AppendEntry(b: Builder, wrote: nat, e: Entry, ghost done: seq<Entry>) returns (ok: bool)
    requires wrote == |done| && b.text == SessionText(done)
    modifies b
    ensures ok == !IsBlank(e.uri)
    ensures ok ==> b.text == SessionText(done + [e])
  {
    SessionTextSnoc(done, e);
    if wrote > 0 {
      b.WriteString("\n");
    }
    ok := WriteEntry(b, e);
  }

  lemma SessionTextSnoc(es: seq<Entry>, e: Entry)
    ensures SessionText(es + [e]) == SessionText(es) + (if es == [] then "" else "\n") + Block(e)
  {
    assert Blocks(es + [e]) == Blocks(es) + [Block(e)];
    JoinSnoc(Blocks(es), Block(e));
  }
}
