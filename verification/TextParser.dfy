/**
 The reader of aria2 text sessions, and what reading a written session gives.
 */
module TextParser {
  import opened Wrappers
  import opened Sorting
  import opened Text
  import opened Tasks
  import opened TextSession

  // ---- Lines -------------------------------------------------------------------

  /** `bufio.ScanLines` drops one trailing carriage return. */
  function DropCR(line: string): string {
    if line != "" && line[|line| - 1] == '\r' then line[..|line| - 1] else line
  }

  /** The lines a `bufio.Scanner` yields. */
  function ScanLines(s: string): seq<string> {
    if s == "" then []
    else
      var i := Find(s, '\n');
      if i == |s| then [DropCR(s)] else [DropCR(s[..i])] + ScanLines(s[i + 1..])
  }

  // ---- Parsing -----------------------------------------------------------------

  datatype State = State(tasks: seq<Entry>, current: Option<Entry>, line: nat)

  const NEW_ENTRY := Entry("", "", "", "", false, "", "", map[])

  predicate IsOptionLine(raw: string) {
    raw != "" && (raw[0] == ' ' || raw[0] == '\t')
  }

  predicate ParseBool(value: string) {
    var v := Lower(TrimSpace(value));
    v == "1" || v == "true" || v == "yes" || v == "on"
  }

  /** Records an option in an entry, and in the field it stands for. */
  function AddOption(e: Entry, key: string, value: string): Entry {
    var e1 := e.(options := e.options[key := value]);
    if key == "gid" then e1.(gid := Lower(value))
    else if key == "dir" then e1.(dir := value)
    else if key == "out" then e1.(out := value)
    else if key == "pause" || key == "paused" then e1.(paused := ParseBool(value))
    else if key == "checksum" then e1.(checksum := value)
    else if key == "metalink" then e1.(metalink := value)
    else e1
  }

  /** The effect of one line on the state of the reader. */
  function ParseLine(st: State, raw: string): Result<State, ParseError> {
    var n := st.line + 1;
    var line := TrimSpace(raw);
    if line == "" || line[0] == '#' then Ok(st.(line := n))
    else if IsOptionLine(raw) then
      if st.current.None? then Err(OptionWithoutURI(n))
      else
        var i := Find(line, '=');
        if i == |line| then Err(InvalidOption(n))
        else
          var key, value := Lower(TrimSpace(line[..i])), TrimSpace(line[i + 1..]);
          Ok(State(st.tasks, Some(AddOption(st.current.value, key, value)), n))
    else
      Ok(State(Finish(st), Some(NEW_ENTRY.(uri := line)), n))
  }

  /** The entries read, with the one being read. */
  function Finish(st: State): seq<Entry> {
    if st.current.Some? then st.tasks + [st.current.value] else st.tasks
  }

  function ParseLines(st: State, lines: seq<string>): Result<State, ParseError>
    decreases |lines|
  {
    if lines == [] then Ok(st)
    else
      match ParseLine(st, lines[0])
      case Err(e) => Err(e)
      case Ok(st1) => ParseLines(st1, lines[1..])
  }

  const START := State([], None, 0)

  function ParseText(s: string): Result<seq<Entry>, ParseError> {
    match ParseLines(START, ScanLines(s))
    case Err(e) => Err(e)
    case Ok(st) => Ok(Finish(st))
  }

  /** `ParseReader`. */
  method ParseReader(text: string) returns (r: Result<seq<Entry>, ParseError>)
    ensures r == ParseText(text)
  {
    var lines := ScanLines(text);
    var tasks: seq<Entry>, current: Option<Entry>, lineNo, hadTask := [], None, 0, false;
    for k := 0 to |lines|
      invariant hadTask == current.Some?
      invariant lineNo == k
      invariant ParseLines(State(tasks, current, lineNo), lines[k..]) == ParseLines(START, lines)
    {
      assert lines[k..][0] == lines[k] && lines[k..][1..] == lines[k + 1..];
      lineNo := lineNo + 1;
      var raw := lines[k];
      var line := TrimSpace(raw);
      if line == "" || line[0] == '#' {
        continue;
      }
      if IsOptionLine(raw) {
        if current.None? {
          return Err(OptionWithoutURI(lineNo));
        }
        var i := Find(line, '=');
        if i == |line| {
          return Err(InvalidOption(lineNo));
        }
        var key, value := Lower(TrimSpace(line[..i])), TrimSpace(line[i + 1..]);
        current := Some(AddOption(current.value, key, value));
        continue;
      }
      if hadTask {
        tasks := tasks + [current.value];
      }
      current := Some(NEW_ENTRY.(uri := line));
      hadTask := true;
    }
    if current.Some? {
      tasks := tasks + [current.value];
    }
    return Ok(tasks);
  }

  // ---- Reading what was written ----------------------------------------------

  predicate OneLine(s: string) { forall i | 0 <= i < |s| :: s[i] != '\n' }

  /** A key the line format can carry. */
  predicate SafeKey(key: string) {
    && Trimmed(key) && Lower(key) == key && OneLine(key)
    && (forall i | 0 <= i < |key| :: key[i] != '=')
    && (key != "" ==> key[0] != '#')
  }

  predicate SafeURI(uri: string) {
    var u := TrimSpace(uri);
    u != "" && u[0] != '#' && OneLine(u)
  }

  /** An entry whose every written line stays one line and stays recognisable. Blank options are not written. */
  predicate Safe(e: Entry) {
    && SafeURI(e.uri)
    && forall k | k in e.options && !IsBlank(e.options[k]) :: SafeKey(k) && OneLine(e.options[k])
  }

  /** The options that survive: the non-blank ones, trimmed. */
  function Kept(opts: Options): Options {
    map k | k in opts && !IsBlank(opts[k]) :: TrimSpace(opts[k])
  }

  /** The entry a map of kept options describes. */
  function Described(uri: string, kept: Options): Entry {
    Entry(
      uri, Lower(Lookup(kept, "gid")), Lookup(kept, "dir"), Lookup(kept, "out"),
      if "paused" in kept then ParseBool(kept["paused"]) else "pause" in kept && ParseBool(kept["pause"]),
      Lookup(kept, "checksum"), Lookup(kept, "metalink"), kept)
  }

  /** What reading an entry's block gives. */
  function ReadBack(e: Entry): Entry {
    Described(TrimSpace(e.uri), Kept(e.options))
  }

  // Lines of a text built from lines.

  lemma ScanFirst(line: string, rest: string)
    requires OneLine(line)
    ensures ScanLines(line + "\n" + rest) == [DropCR(line)] + ScanLines(rest)
  {
    var s := line + "\n" + rest;
    assert s[|line|] == '\n' && forall i | 0 <= i < |line| :: s[i] == line[i];
    FindFirst(s, '\n', |line|);
    assert s[..|line|] == line && s[|line| + 1..] == rest;
  }

  /** Scanning a block of safe lines yields them, less their carriage returns, then what follows. */
  lemma {:induction false} ScanUnlines(lines: seq<string>, rest: string)
    requires forall i | 0 <= i < |lines| :: OneLine(lines[i])
    ensures ScanLines(Unlines(lines) + rest) == Scanned(lines) + ScanLines(rest)
  {
    if lines == [] {
      assert Unlines(lines) + rest == rest;
      assert Scanned(lines) + ScanLines(rest) == ScanLines(rest);
    } else {
      assert Unlines(lines) + rest == lines[0] + "\n" + (Unlines(lines[1..]) + rest);
      ScanFirst(lines[0], Unlines(lines[1..]) + rest);
      ScanUnlines(lines[1..], rest);
      assert Scanned(lines) == [DropCR(lines[0])] + Scanned(lines[1..]);
    }
  }

  function Scanned(lines: seq<string>): seq<string> {
    seq(|lines|, i requires 0 <= i < |lines| => DropCR(lines[i]))
  }

  // One option line.

  lemma DropCRTrims(line: string)
    ensures TrimSpace(DropCR(line)) == TrimSpace(line)
  {
    if line != "" && line[|line| - 1] == '\r' { TrimSpaceDropLast(line); }
  }

  lemma OptionLineTrims(key: string, value: string)
    requires Trimmed(key) && !IsBlank(value)
    ensures TrimSpace(OptionLine(key, value)) == key + "=" + TrimRight(value)
  {
    OptionLineIs(key, value);
    LeadingBlank(key + "=" + value);
    NoLeadingBlank(key, value);
    OnlyRight(key + "=" + value);
    BlankRight(value);
    TrimRightSuffix(key + "=", value);
    hide *;
  }

  lemma OptionLineIs(key: string, value: string)
    ensures OptionLine(key, value) == " " + (key + "=" + value)
  {
  }

  lemma OnlyRight(s: string)
    requires TrimLeft(s) == s
    ensures TrimSpace(s) == TrimRight(s)
  {
    hide TrimLeft, TrimRight;
  }

  lemma LeadingBlank(s: string)
    ensures TrimSpace(" " + s) == TrimSpace(s)
  {
    assert (" " + s)[1..] == s;
  }

  lemma NoLeadingBlank(key: string, value: string)
    requires Trimmed(key)
    ensures TrimLeft(key + "=" + value) == key + "=" + value
  {
    assert !IsSpace((key + "=" + value)[0]);
  }

  /** Cutting at the first `=` separates a safe key from its value. */
  lemma CutAtKey(key: string, v: string)
    requires SafeKey(key)
    ensures var line := key + "=" + v;
      Find(line, '=') == |key| && line[..|key|] == key && line[|key| + 1..] == v && line[0] != '#'
  {
    var line := key + "=" + v;
    assert line[|key|] == '=' && forall i | 0 <= i < |key| :: line[i] == key[i];
    FindFirst(line, '=', |key|);
  }

  lemma CutLineParses(st: State, raw: string, key: string, v: string)
    requires st.current.Some? && SafeKey(key)
    requires IsOptionLine(raw) && TrimSpace(raw) == key + "=" + v
    ensures ParseLine(st, raw)
         == Ok(State(st.tasks, Some(AddOption(st.current.value, key, TrimSpace(v))), st.line + 1))
  {
    CutAtKey(key, v);
  }

  lemma OptionLineParses(st: State, key: string, value: string)
    requires st.current.Some? && SafeKey(key) && !IsBlank(value)
    ensures ParseLine(st, DropCR(OptionLine(key, value)))
         == Ok(State(st.tasks, Some(AddOption(st.current.value, key, TrimSpace(value))), st.line + 1))
  {
    var raw := DropCR(OptionLine(key, value));
    DropCRTrims(OptionLine(key, value));
    OptionLineTrims(key, value);
    BlankRight(value);
    CutLineParses(st, raw, key, TrimRight(value));
  }

  lemma URILineParses(st: State, uri: string)
    requires SafeURI(uri)
    ensures ParseLine(st, DropCR(TrimSpace(uri)))
         == Ok(State(Finish(st), Some(NEW_ENTRY.(uri := TrimSpace(uri))), st.line + 1))
  {
    var u := TrimSpace(uri);
    assert !IsSpace(u[0]) && !IsSpace(u[|u| - 1]);
    assert DropCR(u) == u;
  }

  // ---- Lines other programs write --------------------------------------------------------

  /** The line of an option, whatever the space around its key and its value, up to the cut at the first `=`. */
  lemma ForeignLineTrims(key: string, value: string)
    requires TrimSpace(key) != ""
    ensures TrimSpace(" " + (key + ("=" + value))) == TrimLeft(key) + ("=" + TrimRight(value))
  {
    var x := key + ("=" + value);
    LeadingBlank(x);
    TrimSpaceIs(x);
    KeyLeft(key);
    TrimLeftAppend(key, "=" + value);
    TrimAfterSign(TrimLeft(key), value);
    hide *;
  }

  lemma TrimAfterSign(l: string, value: string)
    ensures TrimRight(l + ("=" + value)) == l + ("=" + TrimRight(value))
  {
    TrimRightAppend(l + "=", value);
    hide TrimRight;
    assert l + "=" + value == l + ("=" + value);
    assert l + "=" + TrimRight(value) == l + ("=" + TrimRight(value));
  }

  lemma TrimSpaceIs(s: string)
    ensures TrimSpace(s) == TrimRight(TrimLeft(s))
  {
    hide TrimLeft, TrimRight;
  }

  lemma KeyLeft(key: string)
    requires TrimSpace(key) != ""
    ensures TrimLeft(key) != "" && TrimLeft(key)[0] == TrimSpace(key)[0] && TrimSpace(TrimLeft(key)) == TrimSpace(key)
  {
    var l := TrimLeft(key);
    assert TrimRight("") == "";
    assert TrimLeft(l) == l;
  }

  lemma ForeignCut(key: string, value: string)
    requires TrimSpace(key) != "" && '=' !in key
    ensures var line := TrimLeft(key) + ("=" + TrimRight(value));
      && Find(line, '=') == |TrimLeft(key)| < |line|
      && line[..|TrimLeft(key)|] == TrimLeft(key) && line[|TrimLeft(key)| + 1..] == TrimRight(value)
  {
    TrimLeftMembers(key);
    CutAtSign(TrimLeft(key), TrimRight(value));
    hide *;
  }

  lemma CutAtSign(l: string, r: string)
    requires '=' !in l
    ensures var line := l + ("=" + r);
      Find(line, '=') == |l| < |line| && line[..|l|] == l && line[|l| + 1..] == r
  {
    var line := l + ("=" + r);
    assert line[|l|] == '=' && forall i | 0 <= i < |l| :: line[i] == l[i] && l[i] in l;
    FindFirst(line, '=', |l|);
  }

  /**
   An option line another program wrote, its key in any case and with space around key and
   value: the option is recorded under the key in lower case, trimmed, with the trimmed value;
   the task is paused by `pause` or `paused` with 1, true, yes or on, in any case, and by nothing else.
   */
  lemma ForeignOption(st: State, key: string, value: string)
    requires st.current.Some? && '=' !in key && TrimSpace(key) != "" && TrimSpace(key)[0] != '#'
    ensures var k, v := Lower(TrimSpace(key)), TrimSpace(value);
      var r := ParseLine(st, " " + (key + ("=" + value)));
      && r.Ok? && r.value.current.Some? && r.value.tasks == st.tasks
      && var e, was := r.value.current.value, st.current.value;
         && e.options == was.options[k := v] && e.uri == was.uri
         && (k in {"pause", "paused"} ==> (e.paused <==> Lower(v) in {"1", "true", "yes", "on"}))
         && (k !in {"pause", "paused"} ==> e.paused == was.paused)
         && (k == "gid" ==> e.gid == Lower(v)) && (k == "dir" ==> e.dir == v) && (k == "out" ==> e.out == v)
  {
    var raw := " " + (key + ("=" + value));
    ForeignLineTrims(key, value);
    ForeignCut(key, value);
    KeyLeft(key);
    BlankRight(value);
    RecordedAs(st, raw, TrimLeft(key), TrimRight(value));
    Recorded(st.current.value, Lower(TrimSpace(key)), TrimSpace(value));
    hide *;
  }

  lemma Recorded(was: Entry, k: string, v: string)
    requires Trimmed(v)
    ensures var e := AddOption(was, k, v);
      && e.options == was.options[k := v] && e.uri == was.uri
      && (k in {"pause", "paused"} ==> (e.paused <==> Lower(v) in {"1", "true", "yes", "on"}))
      && (k !in {"pause", "paused"} ==> e.paused == was.paused)
      && (k == "gid" ==> e.gid == Lower(v)) && (k == "dir" ==> e.dir == v) && (k == "out" ==> e.out == v)
  {
    assert TrimSpace(v) == v;
    hide TrimSpace, Lower;
  }

  lemma RecordedAs(st: State, raw: string, l: string, r: string)
    requires st.current.Some? && IsOptionLine(raw) && l != "" && l[0] != '#'
    requires var line := l + ("=" + r);
      TrimSpace(raw) == line && Find(line, '=') == |l| && line[..|l|] == l && line[|l| + 1..] == r
    ensures ParseLine(st, raw)
         == Ok(State(st.tasks, Some(AddOption(st.current.value, Lower(TrimSpace(l)), TrimSpace(r))), st.line + 1))
  {
    hide TrimSpace, Lower, Find, AddOption;
  }

  // All the option lines of an entry.

  function AddAll(e: Entry, opts: Options, keys: seq<string>): Entry
    requires forall k | k in keys :: k in opts
    decreases |keys|
  {
    if keys == [] then e
    else if IsBlank(opts[keys[0]]) then AddAll(e, opts, keys[1..])
    else AddAll(AddOption(e, keys[0], TrimSpace(opts[keys[0]])), opts, keys[1..])
  }

  lemma {:induction false} ParseAppend(st: State, a: seq<string>, b: seq<string>, mid: State)
    requires ParseLines(st, a) == Ok(mid)
    ensures ParseLines(st, a + b) == ParseLines(mid, b)
    decreases |a|
  {
    if a == [] {
      assert a + b == b;
    } else {
      assert (a + b)[0] == a[0] && (a + b)[1..] == a[1..] + b;
      ParseAppend(ParseLine(st, a[0]).value, a[1..], b, mid);
    }
  }

  /** The state after the option lines of the given keys. */
  function AfterOptions(st: State, opts: Options, keys: seq<string>): State
    requires st.current.Some? && forall k | k in keys :: k in opts
  {
    State(st.tasks, Some(AddAll(st.current.value, opts, keys)), st.line + |OptionLines(opts, keys)|)
  }

  /** Every written option of the given keys has a safe key. */
  predicate SafeKeys(opts: Options, keys: seq<string>)
    requires forall k | k in keys :: k in opts
  {
    keys != [] ==> (IsBlank(opts[keys[0]]) || SafeKey(keys[0])) && SafeKeys(opts, keys[1..])
  }

  lemma {:induction false} OptionLinesParse(st: State, opts: Options, keys: seq<string>)
    requires st.current.Some? && forall k | k in keys :: k in opts
    requires SafeKeys(opts, keys)
    ensures ParseLines(st, Scanned(OptionLines(opts, keys))) == Ok(AfterOptions(st, opts, keys))
    decreases |keys|
  {
    if keys == [] {
    } else if IsBlank(opts[keys[0]]) {
      BlankOption(st, opts, keys);
      OptionLinesParse(st, opts, keys[1..]);
    } else {
      var st1 := FirstOption(st, opts, keys);
      OptionLinesParse(st1, opts, keys[1..]);
    }
  }

  lemma BlankOption(st: State, opts: Options, keys: seq<string>)
    requires keys != [] && st.current.Some? && forall k | k in keys :: k in opts
    requires IsBlank(opts[keys[0]])
    ensures OptionLines(opts, keys) == OptionLines(opts, keys[1..])
    ensures AfterOptions(st, opts, keys) == AfterOptions(st, opts, keys[1..])
  {
  }

  lemma FirstOption(st: State, opts: Options, keys: seq<string>) returns (st1: State)
    requires keys != [] && st.current.Some? && forall k | k in keys :: k in opts
    requires !IsBlank(opts[keys[0]]) && SafeKey(keys[0])
    ensures st1.current.Some?
    ensures ParseLines(st, Scanned(OptionLines(opts, keys))) == ParseLines(st1, Scanned(OptionLines(opts, keys[1..])))
    ensures AfterOptions(st, opts, keys) == AfterOptions(st1, opts, keys[1..])
  {
    var value := opts[keys[0]];
    st1 := State(st.tasks, Some(AddOption(st.current.value, keys[0], TrimSpace(value))), st.line + 1);
    OptionLineParses(st, keys[0], value);
    ParseFirst(st, OptionLine(keys[0], value), OptionLines(opts, keys[1..]), st1);
    assert OptionLines(opts, keys) == [OptionLine(keys[0], value)] + OptionLines(opts, keys[1..]);
  }

  lemma ParseFirst(st: State, line: string, later: seq<string>, st1: State)
    requires ParseLine(st, DropCR(line)) == Ok(st1)
    ensures ParseLines(st, Scanned([line] + later)) == ParseLines(st1, Scanned(later))
  {
    assert Scanned([line] + later)[1..] == Scanned(later);
  }

  /** The kept options among the given keys. */
  function KeptOf(opts: Options, keys: seq<string>): Options
    requires forall k | k in keys :: k in opts
  {
    map k | k in keys && !IsBlank(opts[k]) :: TrimSpace(opts[k])
  }

  lemma PauseBeforePaused()
    ensures !StrLe("paused", "pause")
  {
    var a, b := "paused", "pause";
    assert StrLe(a, b) == StrLe(a[1..], b[1..]);
    assert StrLe(a[1..], b[1..]) == StrLe(a[1..][1..], b[1..][1..]);
    assert StrLe(a[1..][1..], b[1..][1..]) == StrLe(a[3..], b[3..]);
    assert StrLe(a[3..], b[3..]) == StrLe(a[4..], b[4..]);
    assert StrLe(a[4..], b[4..]) == StrLe(a[5..], b[5..]);
    assert b[5..] == [] && a[5..] == "d";
  }

  /** An entry with the options of a map recorded over it. */
  function Overlay(e: Entry, kept: Options): Entry {
    Entry(
      e.uri,
      if "gid" in kept then Lower(kept["gid"]) else e.gid,
      if "dir" in kept then kept["dir"] else e.dir,
      if "out" in kept then kept["out"] else e.out,
      if "paused" in kept then ParseBool(kept["paused"])
      else if "pause" in kept then ParseBool(kept["pause"])
      else e.paused,
      if "checksum" in kept then kept["checksum"] else e.checksum,
      if "metalink" in kept then kept["metalink"] else e.metalink,
      e.options + kept)
  }

  /** Recording one option first and later ones over it; `paused` must not be overtaken by `pause`. */
  lemma OverlayStep(e: Entry, key: string, value: string, kept: Options)
    requires key !in kept && !(key == "paused" && "pause" in kept)
    ensures Overlay(AddOption(e, key, value), kept) == Overlay(e, kept[key := value])
  {
    OverlayOptions(e.options, key, value, kept);
    hide Lower, ParseBool;
    var kept1 := kept[key := value];
    assert forall k | k != key :: k in kept1 <==> k in kept;
    if key == "gid" {
    } else if key == "dir" {
    } else if key == "out" {
    } else if key == "pause" {
    } else if key == "paused" {
    } else if key == "checksum" {
    } else if key == "metalink" {
    }
  }

  lemma OverlayOptions(options: Options, key: string, value: string, kept: Options)
    requires key !in kept
    ensures options[key := value] + kept == options + kept[key := value]
  {
  }

  lemma KeptOfStep(opts: Options, keys: seq<string>)
    requires keys != [] && NoDup(keys) && forall k | k in keys :: k in opts
    ensures keys[0] !in KeptOf(opts, keys[1..])
    ensures KeptOf(opts, keys) == if IsBlank(opts[keys[0]]) then KeptOf(opts, keys[1..])
                                  else KeptOf(opts, keys[1..])[keys[0] := TrimSpace(opts[keys[0]])]
  {
    assert keys == [keys[0]] + keys[1..];
    assert forall k :: k in keys <==> k == keys[0] || k in keys[1..];
    assert keys[0] !in keys[1..];
  }

  /** Recording the sorted options one by one is recording their kept map at once. */
  lemma {:induction false} AddAllOverlays(e: Entry, opts: Options, keys: seq<string>)
    requires NoDup(keys) && Sorted(StrLe, keys) && forall k | k in keys :: k in opts
    ensures AddAll(e, opts, keys) == Overlay(e, KeptOf(opts, keys))
    decreases |keys|
  {
    if keys == [] {
      assert e.options + KeptOf(opts, keys) == e.options;
    } else {
      KeptOfStep(opts, keys);
      if IsBlank(opts[keys[0]]) {
        AddAllOverlays(e, opts, keys[1..]);
      } else {
        var value := TrimSpace(opts[keys[0]]);
        AddAllOverlays(AddOption(e, keys[0], value), opts, keys[1..]);
        NoPauseAfterPaused(opts, keys);
        OverlayStep(e, keys[0], value, KeptOf(opts, keys[1..]));
      }
    }
  }

  lemma NoPauseAfterPaused(opts: Options, keys: seq<string>)
    requires keys != [] && Sorted(StrLe, keys) && forall k | k in keys :: k in opts
    ensures !(keys[0] == "paused" && "pause" in KeptOf(opts, keys[1..]))
  {
    PauseBeforePaused();
    if "pause" in keys[1..] {
      var j :| 0 <= j < |keys[1..]| && keys[1..][j] == "pause";
      assert keys[1 + j] == "pause" && StrLe(keys[0], keys[1 + j]);
    }
  }

  lemma SafeEntryKeys(e: Entry)
    requires Safe(e)
    ensures SafeKeys(e.options, SortedKeys(e.options.Keys))
  {
    AllSafeKeys(e.options, SortedKeys(e.options.Keys));
  }

  lemma AllSafeKeys(opts: Options, keys: seq<string>)
    requires forall k | k in keys :: k in opts && (IsBlank(opts[k]) || SafeKey(k))
    ensures SafeKeys(opts, keys)
  {
  }

  /** The state after the URI line of a new entry. */
  function NewEntry(st: State, uri: string): State {
    State(Finish(st), Some(NEW_ENTRY.(uri := uri)), st.line + 1)
  }

  lemma HeadParses(st: State, e: Entry)
    requires SafeURI(e.uri)
    ensures ParseLines(st, Scanned(EntryLines(e)))
         == ParseLines(NewEntry(st, TrimSpace(e.uri)), Scanned(OptionLines(e.options, SortedKeys(e.options.Keys))))
  {
    URILineParses(st, e.uri);
    var uri := TrimSpace(e.uri);
    ParseFirst(st, uri, OptionLines(e.options, SortedKeys(e.options.Keys)), NewEntry(st, uri));
  }

  lemma OptionsDescribe(uri: string, opts: Options)
    ensures AddAll(NEW_ENTRY.(uri := uri), opts, SortedKeys(opts.Keys)) == Described(uri, Kept(opts))
  {
    var keys := SortedKeys(opts.Keys);
    AddAllOverlays(NEW_ENTRY.(uri := uri), opts, keys);
    KeptOfAll(opts);
    OverlayNew(uri, Kept(opts));
    hide AddAll, Described, Kept, KeptOf, Overlay;
  }

  lemma KeptOfAll(opts: Options)
    ensures KeptOf(opts, SortedKeys(opts.Keys)) == Kept(opts)
  {
    hide IsBlank, TrimSpace;
  }

  /** The state after the whole block of an entry. */
  ghost function AfterEntry(st: State, e: Entry): State {
    State(Finish(st), Some(ReadBack(e)), st.line + |EntryLines(e)|)
  }

  /** The block of a safe entry reads as one new entry, the one it describes. */
  lemma EntryParses(st: State, e: Entry)
    requires Safe(e)
    ensures ParseLines(st, Scanned(EntryLines(e))) == Ok(AfterEntry(st, e))
  {
    var keys := SortedKeys(e.options.Keys);
    HeadParses(st, e);
    SafeEntryKeys(e);
    OptionLinesParse(NewEntry(st, TrimSpace(e.uri)), e.options, keys);
    AfterBlock(st, e);
  }

  lemma AfterBlock(st: State, e: Entry)
    ensures AfterOptions(NewEntry(st, TrimSpace(e.uri)), e.options, SortedKeys(e.options.Keys)) == AfterEntry(st, e)
  {
    OptionsDescribe(TrimSpace(e.uri), e.options);
  }

  lemma OverlayNew(uri: string, kept: Options)
    ensures Overlay(NEW_ENTRY.(uri := uri), kept) == Described(uri, kept)
  {
    assert Lower("") == "";
    assert map[] + kept == kept;
  }

  lemma {:induction false} OptionLinesOneLine(opts: Options, keys: seq<string>)
    requires forall k | k in keys :: k in opts && (IsBlank(opts[k]) || (OneLine(k) && OneLine(opts[k])))
    ensures forall i | 0 <= i < |OptionLines(opts, keys)| :: OneLine(OptionLines(opts, keys)[i])
  {
    if keys != [] {
      OptionLinesOneLine(opts, keys[1..]);
    }
  }

  /** The lines scanned from a block and what follows it. */
  lemma BlockScans(e: Entry, rest: string)
    requires Safe(e)
    ensures ScanLines(Block(e) + rest) == Scanned(EntryLines(e)) + ScanLines(rest)
  {
    var keys := SortedKeys(e.options.Keys);
    forall k | k in keys ensures IsBlank(e.options[k]) || (OneLine(k) && OneLine(e.options[k])) {
      assert k in e.options;
    }
    OptionLinesOneLine(e.options, keys);
    ScanUnlines(EntryLines(e), rest);
  }

  /** What reading the blocks of several entries gives. */
  function ReadBacks(es: seq<Entry>): seq<Entry> {
    if es == [] then [] else [ReadBack(es[0])] + ReadBacks(es[1..])
  }

  predicate AllSafe(es: seq<Entry>) {
    es != [] ==> Safe(es[0]) && AllSafe(es[1..])
  }

  lemma LastBlock(st: State, e: Entry)
    requires Safe(e)
    ensures ParseLines(st, ScanLines(Block(e))) == Ok(AfterEntry(st, e))
  {
    BlockScans(e, "");
    assert Block(e) + "" == Block(e) && Scanned(EntryLines(e)) + [] == Scanned(EntryLines(e));
    EntryParses(st, e);
  }

  /** The state after a line with no effect. */
  function SkipLine(st: State): State {
    st.(line := st.line + 1)
  }

  lemma BlockAndBlankScan(e: Entry, rest: string)
    requires Safe(e)
    ensures ScanLines(Block(e) + ("\n" + rest)) == Scanned(EntryLines(e)) + ([""] + ScanLines(rest))
  {
    BlockScans(e, "\n" + rest);
    ScanFirst("", rest);
    assert "" + "\n" + rest == "\n" + rest;
  }

  lemma BlockThenRest(st: State, e: Entry, rest: string, text: string)
    requires Safe(e) && text == Block(e) + ("\n" + rest)
    ensures ParseLines(st, ScanLines(text)) == ParseLines(SkipLine(AfterEntry(st, e)), ScanLines(rest))
  {
    hide *;
    BlockAndBlankScan(e, rest);
    EntryParses(st, e);
    ParseAppend(st, Scanned(EntryLines(e)), [""] + ScanLines(rest), AfterEntry(st, e));
    EmptyLineParses(AfterEntry(st, e), ScanLines(rest));
  }

  lemma SessionTextStep(es: seq<Entry>)
    requires |es| > 1
    ensures SessionText(es) == Block(es[0]) + ("\n" + SessionText(es[1..]))
  {
    assert Blocks(es)[1..] == Blocks(es[1..]);
  }

  lemma FinishGrows(st: State, es: seq<Entry>, tail: seq<Entry>)
    requires es != [] && tail == Finish(SkipLine(AfterEntry(st, es[0]))) + ReadBacks(es[1..])
    ensures tail == Finish(st) + ReadBacks(es)
  {
    hide ReadBack, EntryLines;
  }

  lemma OneReadBack(es: seq<Entry>)
    requires |es| == 1
    ensures ReadBacks(es) == [ReadBack(es[0])]
  {
    assert ReadBacks(es[1..]) == [];
  }

  lemma {:induction false} SessionParses(st: State, es: seq<Entry>)
    requires AllSafe(es)
    ensures var r := ParseLines(st, ScanLines(SessionText(es)));
      r.Ok? && Finish(r.value) == Finish(st) + ReadBacks(es)
    decreases |es|
  {
    if es == [] {
      assert SessionText(es) == "";
    } else if |es| == 1 {
      LastBlock(st, es[0]);
      OneReadBack(es);
    } else {
      SessionTextStep(es);
      BlockThenRest(st, es[0], SessionText(es[1..]), SessionText(es));
      SessionParses(SkipLine(AfterEntry(st, es[0])), es[1..]);
      var r := ParseLines(SkipLine(AfterEntry(st, es[0])), ScanLines(SessionText(es[1..])));
      FinishGrows(st, es, Finish(r.value));
    }
  }

  lemma EmptyLineParses(st: State, lines: seq<string>)
    ensures ParseLines(st, [""] + lines) == ParseLines(SkipLine(st), lines)
  {
    assert ([""] + lines)[1..] == lines;
  }

  lemma EntriesRoundTrip(es: seq<Entry>)
    requires AllSafe(es)
    ensures ParseText(SessionText(es)) == Ok(ReadBacks(es))
  {
    SessionParses(START, es);
    ParsedText(SessionText(es), ReadBacks(es));
  }

  lemma ParsedText(text: string, out: seq<Entry>)
    requires var r := ParseLines(START, ScanLines(text)); r.Ok? && Finish(r.value) == out
    ensures ParseText(text) == Ok(out)
  {
  }

  /**
   The session round trip: reading a written session gives one entry per exported
   task, in order, each with the trimmed URI and the non-blank options, trimmed,
   and the fields those options stand for.
   */
  lemma RoundTrip(tasks: seq<Option<SessionTask>>)
    requires AllSafe(Entries(tasks))
    ensures ParseText(SessionText(Entries(tasks))) == Ok(ReadBacks(Entries(tasks)))
  {
    EntriesRoundTrip(Entries(tasks));
  }

  /** A plain value, trimmed and not empty, is kept as it is. */
  lemma PlainKept(opts: Options, key: string)
    requires key in opts && Trimmed(opts[key]) && opts[key] != ""
    ensures key in Kept(opts) && Kept(opts)[key] == opts[key]
  {
  }

  lemma OptionsOfFields(item: SessionTask)
    ensures var opts := EntryOptions(item);
      && (item.gid != "" ==> "gid" in opts && opts["gid"] == Lower(item.gid))
      && (item.saveDir != "" ==> "dir" in opts && opts["dir"] == item.saveDir)
      && (item.name != "" ==> "out" in opts && opts["out"] == item.name)
  {
    assert "gid" != "dir" && "gid" != "out" && "dir" != "out";
    assert "checksum" != "dir" && "checksum" != "out" && "pause" != "dir" && "pause" != "out";
  }

  /** The fields read back are those of the task, whenever they are plain: trimmed and not blank. */
  lemma TaskFieldsSurvive(item: SessionTask)
    ensures var e := ReadBack(ToEntry(item));
      && (Trimmed(item.gid) && item.gid != "" ==> e.gid == Lower(item.gid))
      && (Trimmed(item.saveDir) && item.saveDir != "" ==> e.dir == item.saveDir)
      && (Trimmed(item.name) && item.name != "" ==> e.out == item.name)
  {
    var opts := EntryOptions(item);
    OptionsOfFields(item);
    LowerTrimmed(item.gid);
    if Trimmed(item.gid) && item.gid != "" { PlainKept(opts, "gid"); }
    if Trimmed(item.saveDir) && item.saveDir != "" { PlainKept(opts, "dir"); }
    if Trimmed(item.name) && item.name != "" { PlainKept(opts, "out"); }
  }

  lemma LowerTrimmed(s: string)
    ensures Lower(Lower(s)) == Lower(s)
    ensures Trimmed(s) ==> Trimmed(Lower(s))
  {
  }

  /**
   A task reads back paused exactly when it is paused, unless its options carry a
   non-blank `paused`, which then decides alone.
   */
  lemma PausedSurvives(item: SessionTask)
    ensures var kept := Kept(EntryOptions(item));
      && ("paused" !in kept ==> (ReadBack(ToEntry(item)).paused <==> item.status == Paused))
      && ("paused" in kept ==> (ReadBack(ToEntry(item)).paused <==> ParseBool(kept["paused"])))
  {
    var opts := EntryOptions(item);
    var kept := Kept(opts);
    if item.status == Paused {
      assert opts["pause"] == "true" && !IsBlank("true");
      TrueIsTrue();
    } else {
      assert "pause" !in opts;
    }
  }

  lemma TrueIsTrue()
    ensures ParseBool("true") && TrimSpace("true") == "true"
  {
    assert Lower("true") == "true";
  }
}
