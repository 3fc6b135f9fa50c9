/** The framed reply of a traffic-audit round: what the remote script prints, and the
    parser that reads it back.

    Every structural line starts with a marker word; the lines in between are bodies of
    configs, log files and journals.
  */
module AuditFraming {
  import opened Prelude
  import opened Text

  // ---------------------------------------------------------------- what a round saw

  datatype ConfigFile = ConfigFile(path: Str, fromDir: bool, data: Str)
  datatype Arg = Arg(dir: bool, path: Str)

  datatype Proc = Proc(
    pid: Str, cwd: Str, exe: Str, cgroup: seq<Str>, stderr: Str, stderrOK: bool,
    configs: seq<ConfigFile>, args: seq<Arg>, missing: seq<Str>)

  datatype FileChunk = FileChunk(stat: bool, inode: Str, size: nat, data: Str)
  datatype Journal = Journal(lines: seq<Str>, cursor: Str, rc: nat, rcSeen: bool)

  datatype Output = Output(
    discovered: bool, procs: seq<Proc>, files: map<Str, FileChunk>, journals: map<Str, Journal>)

  // ---------------------------------------------------------------- the marker lines

  datatype Verb =
    | DISC | PROC | DEND | CWD | EXE | CG | FD2 | FD2F | CFGDIR | CFG | CFGMISS | CFGEND
    | FILE | STAT | END | UNIT | RC | Unknown

  const MARK: Str := "__FLUXLITE_AUDIT__ "
  const CURSOR: Str := "-- cursor: "

  function Name(v: Verb): Str {
    match v
    case DISC => "DISC" case PROC => "PROC" case DEND => "DEND"
    case CWD => "CWD" case EXE => "EXE" case CG => "CG" case FD2 => "FD2" case FD2F => "FD2F"
    case CFGDIR => "CFGDIR" case CFG => "CFG" case CFGMISS => "CFGMISS" case CFGEND => "CFGEND"
    case FILE => "FILE" case STAT => "STAT" case END => "END" case UNIT => "UNIT" case RC => "RC"
    case Unknown => "?"
  }

  function VerbOf(s: Str): Verb {
    if s == "DISC" then DISC else if s == "PROC" then PROC else if s == "DEND" then DEND
    else if s == "CWD" then CWD else if s == "EXE" then EXE else if s == "CG" then CG
    else if s == "FD2" then FD2 else if s == "FD2F" then FD2F else if s == "CFGDIR" then CFGDIR
    else if s == "CFG" then CFG else if s == "CFGMISS" then CFGMISS else if s == "CFGEND" then CFGEND
    else if s == "FILE" then FILE else if s == "STAT" then STAT else if s == "END" then END
    else if s == "UNIT" then UNIT else if s == "RC" then RC else Unknown
  }

  lemma NameIsWord(v: Verb)
    ensures ' ' !in Name(v) && NL !in Name(v)
  {
  }

  lemma VerbOfItsName(v: Verb)
    ensures VerbOf(Name(v)) == v
  {
  }

  lemma VerbOfName(v: Verb)
    ensures VerbOf(Name(v)) == v && ' ' !in Name(v) && NL !in Name(v)
  {
    NameIsWord(v);
    VerbOfItsName(v);
  }

  function Marked(v: Verb, arg: Str): Str {
    MARK + (Name(v) + [' '] + arg)
  }

  function Bare(v: Verb): Str {
    MARK + Name(v)
  }

  /** The word and the argument of a marker line. */
  function Command(line: Str): Option<(Verb, Str)> {
    match CutPrefix(line, MARK)
    case None => None
    case Some(rest) => var (verb, arg) := Cut(rest); Some((VerbOf(verb), arg))
  }

  lemma CommandOfMarked(v: Verb, arg: Str)
    ensures Command(Marked(v, arg)) == Some((v, arg))
  {
    VerbOfName(v);
    CutAtSpace(Name(v), arg);
    assert Marked(v, arg)[|MARK|..] == Name(v) + [' '] + arg;
  }

  lemma CommandOfBare(v: Verb)
    ensures Command(Bare(v)) == Some((v, []))
  {
    VerbOfName(v);
    CutWord(Name(v));
    assert Bare(v)[|MARK|..] == Name(v);
  }

  // ---------------------------------------------------------------- the parser

  datatype OpenConfig = OpenConfig(path: Str, fromDir: bool)

  /** What the parser keeps between lines: the report so far, whether it is inside a
      process, and the config, log file or journal whose body it is collecting. */
  datatype State = State(
    out: Output, inProc: bool,
    cfg: Option<OpenConfig>, file: Option<Str>, journal: Option<Str>, body: seq<Str>)

  function Initial(): State {
    State(Output(false, [], map[], map[]), false, None, None, None, [])
  }

  /** The process being read is the last one of the report. */
  function Last(st: State): Proc {
    if st.out.procs == [] then Proc([], [], [], [], [], false, [], [], []) else st.out.procs[|st.out.procs| - 1]
  }

  function OnProc(st: State, p: Proc): State {
    if st.out.procs == [] then st
    else st.(out := st.out.(procs := st.out.procs[|st.out.procs| - 1 := p]))
  }

  function CloseBody(st: State): State {
    var filled :=
      if st.cfg.Some? then
        var c := ConfigFile(st.cfg.value.path, st.cfg.value.fromDir, Join(st.body));
        OnProc(st, Last(st).(configs := Last(st).configs + [c]))
      else if st.file.Some? && st.file.value in st.out.files && st.out.files[st.file.value].stat then
        var id := st.file.value;
        st.(out := st.out.(files := st.out.files[id := st.out.files[id].(data := Join(st.body))]))
      else st;
    filled.(cfg := None, file := None, body := [])
  }

  function Reset(st: State): State {
    CloseBody(st).(inProc := false, journal := None)
  }

  /** A marker line inside a process. */
  function ProcLine(st: State, v: Verb, arg: Str): State {
    match v
    case CWD => OnProc(st, Last(st).(cwd := arg))
    case EXE => OnProc(st, Last(st).(exe := arg))
    case CG => OnProc(st, Last(st).(cgroup := Last(st).cgroup + [arg]))
    case FD2 => OnProc(st, Last(st).(stderr := arg))
    case FD2F => OnProc(st, Last(st).(stderr := arg, stderrOK := true))
    case CFGDIR => OnProc(st, Last(st).(args := Last(st).args + [Arg(true, arg)]))
    case CFG =>
      var (kind, path) := Cut(arg);
      var closed := CloseBody(st);
      var known := if kind == "c" then OnProc(closed, Last(closed).(args := Last(closed).args + [Arg(false, path)]))
                   else closed;
      known.(cfg := Some(OpenConfig(path, kind == "d")))
    case CFGMISS =>
      OnProc(st, Last(st).(missing := Last(st).missing + [arg], args := Last(st).args + [Arg(false, arg)]))
    case CFGEND => CloseBody(st)
    case _ => st
  }

  /** A marker line outside any process. */
  function LogLine(st: State, v: Verb, arg: Str): State {
    match v
    case FILE =>
      var r := Reset(st);
      r.(file := Some(arg), out := r.out.(files := r.out.files[arg := FileChunk(false, [], 0, [])]))
    case STAT =>
      if st.file.None? || st.file.value !in st.out.files then st else
      var (ino, size) := Cut(Trim(arg));
      var n := ParseNumber(size);
      var id := st.file.value;
      st.(out := st.out.(files := st.out.files[id :=
        st.out.files[id].(stat := n.Some?, inode := ino, size := if n.Some? then n.value else 0)]))
    case END => CloseBody(st)
    case UNIT =>
      var r := Reset(st);
      r.(journal := Some(arg), out := r.out.(journals := r.out.journals[arg := Journal([], [], 0, false)]))
    case RC =>
      if st.journal.None? || st.journal.value !in st.out.journals then st.(journal := None) else
      var n := ParseNumber(Trim(arg));
      var id := st.journal.value;
      st.(journal := None,
          out := st.out.(journals := st.out.journals[id :=
            st.out.journals[id].(rc := if n.Some? then n.value else 0, rcSeen := true)]))
    case _ => st
  }

  predicate Collecting(st: State) {
    st.cfg.Some? || (st.file.Some? && st.file.value in st.out.files && st.out.files[st.file.value].stat)
  }

  function BodyLine(st: State, line: Str): State {
    if Collecting(st) then st.(body := st.body + [line])
    else if st.journal.Some? && st.journal.value in st.out.journals then
      var id := st.journal.value;
      var j := st.out.journals[id];
      var j' := match CutPrefix(line, CURSOR)
                case Some(c) => j.(cursor := Trim(c))
                case None => if line == [] then j else j.(lines := j.lines + [line]);
      st.(out := st.out.(journals := st.out.journals[id := j']))
    else st
  }

  function Execute(st: State, v: Verb, arg: Str): State {
    var at := match v
              case DISC => var r := Reset(st); r.(out := r.out.(discovered := true))
              case PROC =>
                var r := Reset(st);
                r.(inProc := true,
                   out := r.out.(procs := r.out.procs + [Proc(Trim(arg), [], [], [], [], false, [], [], [])]))
              case DEND => Reset(st)
              case _ => st;
    if at.inProc then ProcLine(at, v, arg) else LogLine(at, v, arg)
  }

  function ParseLine(st: State, line: Str): State {
    match Command(line)
    case None => BodyLine(st, line)
    case Some((v, arg)) => Execute(st, v, arg)
  }

  function Run(st: State, lines: seq<Str>): State
    decreases |lines|
  {
    if lines == [] then st else Run(ParseLine(st, lines[0]), lines[1..])
  }

  /** Reads a reply line by line. */
  method ParseAuditOutput(out: Str) returns (res: Output)
    ensures res == CloseBody(Run(Initial(), Split(out))).out
  {
    var lines := Split(out);
    var st := Initial();
    for i := 0 to |lines|
      invariant Run(st, lines[i..]) == Run(Initial(), lines)
    {
      st := ParseLine(st, lines[i]);
      assert lines[i..][1..] == lines[i + 1..];
    }
    res := CloseBody(st).out;
  }

  // ---------------------------------------------------------------- the script's side

  /** What one process's command line makes the script look at. */
  datatype Item = Config(fromDir: bool, path: Str, data: Str) | Dir(path: Str) | Missing(path: Str)

  datatype Process = Process(
    pid: Str, cwd: Str, exe: Str, cgroup: seq<Str>, stderr: Str, regular: bool, items: seq<Item>)

  datatype Stat = Stat(inode: nat, size: nat, data: Str)

  datatype Source =
    | LogFile(id: Str, stat: Option<Stat>)
    | Unit(id: Str, entries: seq<Str>, cursor: Str, rc: nat)

  datatype Report = Report(procs: seq<Process>, sources: seq<Source>)

  function ConfigArg(dir: bool, path: Str): Str {
    (if dir then "d" else "c") + [' '] + path
  }

  /** A body is printed as it is, with a newline after it. */
  function ItemLines(it: Item): seq<Str> {
    match it
    case Config(dir, path, data) =>
      [Marked(CFG, ConfigArg(dir, path))] + Split(data) + [Bare(CFGEND)]
    case Dir(path) => [Marked(CFGDIR, path)]
    case Missing(path) => [Marked(CFGMISS, path)]
  }

  function AllItemLines(items: seq<Item>): seq<Str> {
    if items == [] then [] else ItemLines(items[0]) + AllItemLines(items[1..])
  }

  function CgroupLines(cgroup: seq<Str>): seq<Str> {
    if cgroup == [] then [] else [Marked(CG, cgroup[0])] + CgroupLines(cgroup[1..])
  }

  function HeaderLines(p: Process): seq<Str> {
    [Marked(PROC, p.pid), Marked(CWD, p.cwd), Marked(EXE, p.exe)]
  }

  function ErrLines(p: Process): seq<Str> {
    [Marked(if p.regular then FD2F else FD2, p.stderr)]
  }

  function ProcessLines(p: Process): seq<Str> {
    HeaderLines(p) + CgroupLines(p.cgroup) + ErrLines(p) + AllItemLines(p.items)
  }

  function AllProcessLines(procs: seq<Process>): seq<Str> {
    if procs == [] then [] else ProcessLines(procs[0]) + AllProcessLines(procs[1..])
  }

  /** A journal reply that is empty still prints one empty line. */
  function JournalLines(entries: seq<Str>, cursor: Str): seq<Str> {
    if cursor != [] then entries + [CURSOR + cursor]
    else if entries == [] then [[]]
    else entries
  }

  function SourceLines(s: Source): seq<Str> {
    match s
    case LogFile(id, None) => [Marked(FILE, id), Bare(END)]
    case LogFile(id, Some(st)) =>
      [Marked(FILE, id), Marked(STAT, Decimal(st.inode) + [' '] + Decimal(st.size))] + Split(st.data) + [Bare(END)]
    case Unit(id, entries, cursor, rc) =>
      [Marked(UNIT, id)] + JournalLines(entries, cursor) + [Marked(RC, Decimal(rc))]
  }

  function AllSourceLines(sources: seq<Source>): seq<Str> {
    if sources == [] then [] else SourceLines(sources[0]) + AllSourceLines(sources[1..])
  }

  function ReportLines(r: Report): seq<Str> {
    [Bare(DISC)] + AllProcessLines(r.procs) + [Bare(DEND)] + AllSourceLines(r.sources)
  }

  function Print(r: Report): Str {
    Printed(ReportLines(r))
  }

  // ---------------------------------------------------------------- what should arrive

  function AddItem(p: Proc, it: Item): Proc {
    match it
    case Config(dir, path, data) =>
      p.(configs := p.configs + [ConfigFile(path, dir, data)],
         args := if dir then p.args else p.args + [Arg(false, path)])
    case Dir(path) => p.(args := p.args + [Arg(true, path)])
    case Missing(path) => p.(missing := p.missing + [path], args := p.args + [Arg(false, path)])
  }

  function AddItems(p: Proc, items: seq<Item>): Proc
    decreases |items|
  {
    if items == [] then p else AddItems(AddItem(p, items[0]), items[1..])
  }

  /** What is known of a process before its configs are read. */
  function Introduced(p: Process): Proc {
    Proc(p.pid, p.cwd, p.exe, p.cgroup, p.stderr, p.regular, [], [], [])
  }

  function Seen(p: Process): Proc {
    AddItems(Introduced(p), p.items)
  }

  function SeenAll(procs: seq<Process>): seq<Proc> {
    if procs == [] then [] else [Seen(procs[0])] + SeenAll(procs[1..])
  }

  function AddSource(o: Output, s: Source): Output {
    match s
    case LogFile(id, None) => o.(files := o.files[id := FileChunk(false, [], 0, [])])
    case LogFile(id, Some(st)) => o.(files := o.files[id := FileChunk(true, Decimal(st.inode), st.size, st.data)])
    case Unit(id, entries, cursor, rc) =>
      o.(journals := o.journals[id := Journal(Told(entries), Cursor(entries, cursor), rc, true)])
  }

  /** The entries of a journal that are taken as such: blank ones are dropped, and one that
      starts with the cursor's label is taken for the cursor. */
  function Told(entries: seq<Str>): seq<Str> {
    if entries == [] then []
    else
      var rest := Told(entries[1..]);
      if entries[0] == [] || HasPrefix(entries[0], CURSOR) then rest else [entries[0]] + rest
  }

  /** The cursor after lines that may contain some: the last one. */
  function CursorAfter(was: Str, lines: seq<Str>): Str
    decreases |lines|
  {
    if lines == [] then was
    else CursorAfter(if HasPrefix(lines[0], CURSOR) then Trim(lines[0][|CURSOR|..]) else was, lines[1..])
  }

  function Cursor(entries: seq<Str>, cursor: Str): Str {
    if cursor != [] then cursor else CursorAfter([], entries)
  }

  /** A journal arrives whole exactly if it has no such entries. */
  lemma {:induction false} ToldAll(entries: seq<Str>)
    ensures |Told(entries)| <= |entries|
    ensures Told(entries) == entries <==>
              forall i | 0 <= i < |entries| :: entries[i] != [] && !HasPrefix(entries[i], CURSOR)
  {
    if entries != [] {
      ToldAll(entries[1..]);
      assert entries == [entries[0]] + entries[1..];
      assert forall i | 0 <= i < |entries| - 1 :: entries[1..][i] == entries[i + 1];
    }
  }

  function AddSources(o: Output, sources: seq<Source>): Output
    decreases |sources|
  {
    if sources == [] then o else AddSources(AddSource(o, sources[0]), sources[1..])
  }

  function Expected(r: Report): Output {
    AddSources(Output(true, SeenAll(r.procs), map[], map[]), r.sources)
  }

  // ---------------------------------------------------------------- what arrived, field by field

  /** The configs that could be read, those that were missing, and the arguments that named
      one or a directory of them: each in the order they were looked at. */
  function ConfigsIn(items: seq<Item>): seq<ConfigFile> {
    if items == [] then [] else ConfigsOf(items[0]) + ConfigsIn(items[1..])
  }

  function MissingIn(items: seq<Item>): seq<Str> {
    if items == [] then [] else MissingOf(items[0]) + MissingIn(items[1..])
  }

  function ArgsIn(items: seq<Item>): seq<Arg> {
    if items == [] then [] else ArgsOf(items[0]) + ArgsIn(items[1..])
  }

  function ConfigsOf(it: Item): seq<ConfigFile> {
    if it.Config? then [ConfigFile(it.path, it.fromDir, it.data)] else []
  }

  function MissingOf(it: Item): seq<Str> {
    if it.Missing? then [it.path] else []
  }

  function ArgsOf(it: Item): seq<Arg> {
    if it.Config? && it.fromDir then [] else [Arg(it.Dir?, it.path)]
  }

  function WithItems(p: Proc, configs: seq<ConfigFile>, args: seq<Arg>, missing: seq<Str>): Proc {
    p.(configs := p.configs + configs, args := p.args + args, missing := p.missing + missing)
  }

  lemma ItemArrives(p: Proc, it: Item)
    ensures AddItem(p, it) == WithItems(p, ConfigsOf(it), ArgsOf(it), MissingOf(it))
  {
    assert p.configs + [] == p.configs && p.args + [] == p.args && p.missing + [] == p.missing;
  }

  lemma MoreItems(p: Proc, c: seq<ConfigFile>, a: seq<Arg>, m: seq<Str>,
                  c': seq<ConfigFile>, a': seq<Arg>, m': seq<Str>)
    ensures WithItems(WithItems(p, c, a, m), c', a', m') == WithItems(p, c + c', a + a', m + m')
  {
    assert p.configs + (c + c') == p.configs + c + c';
    assert p.args + (a + a') == p.args + a + a';
    assert p.missing + (m + m') == p.missing + m + m';
  }

  lemma {:induction false} ItemsArrive(p: Proc, items: seq<Item>)
    ensures AddItems(p, items) == WithItems(p, ConfigsIn(items), ArgsIn(items), MissingIn(items))
    decreases |items|
  {
    if items == [] {
      assert p.configs + [] == p.configs && p.args + [] == p.args && p.missing + [] == p.missing;
    } else {
      ItemArrives(p, items[0]);
      ItemsArrive(AddItem(p, items[0]), items[1..]);
      MoreItems(p, ConfigsOf(items[0]), ArgsOf(items[0]), MissingOf(items[0]),
                ConfigsIn(items[1..]), ArgsIn(items[1..]), MissingIn(items[1..]));
    }
  }

  lemma {:induction false} SeenAt(procs: seq<Process>, i: nat)
    requires i < |procs|
    ensures |SeenAll(procs)| == |procs| && SeenAll(procs)[i] == Seen(procs[i])
    decreases |procs|
  {
    if |procs| > 1 {
      SeenAt(procs[1..], if i == 0 then 0 else i - 1);
    }
  }

  /** The last report on this journal, or on this file. */
  function LatestOn(sources: seq<Source>, unit: bool, id: Str): Option<Source> {
    if sources == [] then None
    else
      var later := LatestOn(sources[1..], unit, id);
      if later.Some? then later
      else if sources[0].Unit? == unit && sources[0].id == id then Some(sources[0])
      else None
  }

  lemma {:induction false} LatestIsOn(sources: seq<Source>, unit: bool, id: Str)
    ensures var s := LatestOn(sources, unit, id); s.Some? ==> s.value.Unit? == unit && s.value.id == id
  {
    if sources != [] {
      LatestIsOn(sources[1..], unit, id);
    }
  }

  /** What is known of a file is what its last report says. */
  lemma {:induction false} FileArrives(o: Output, sources: seq<Source>, id: Str)
    ensures var t, last := AddSources(o, sources), LatestOn(sources, false, id);
            if last.None? then
              (id in t.files <==> id in o.files) && (id in o.files ==> t.files[id] == o.files[id])
            else
              && last.value.LogFile? && id in t.files
              && t.files[id] == match last.value.stat
                                case None => FileChunk(false, [], 0, [])
                                case Some(f) => FileChunk(true, Decimal(f.inode), f.size, f.data)
    decreases |sources|
  {
    LatestIsOn(sources, false, id);
    if sources != [] {
      FileArrives(AddSource(o, sources[0]), sources[1..], id);
    }
  }

  /** What is known of a journal is what its last report says. */
  lemma {:induction false} JournalArrives(o: Output, sources: seq<Source>, id: Str)
    ensures var t, last := AddSources(o, sources), LatestOn(sources, true, id);
            if last.None? then
              (id in t.journals <==> id in o.journals) && (id in o.journals ==> t.journals[id] == o.journals[id])
            else
              && last.value.Unit? && id in t.journals
              && t.journals[id].rcSeen && t.journals[id].rc == last.value.rc
              && t.journals[id].lines == Told(last.value.entries)
              && (last.value.cursor != [] ==> t.journals[id].cursor == last.value.cursor)
    decreases |sources|
  {
    LatestIsOn(sources, true, id);
    if sources != [] {
      JournalArrives(AddSource(o, sources[0]), sources[1..], id);
    }
  }

  /** The process as it should arrive, field by field. */
  predicate Arrives(p: Process, q: Proc) {
    && q.pid == p.pid && q.cwd == p.cwd && q.exe == p.exe && q.cgroup == p.cgroup && q.stderr == p.stderr
    && (q.stderrOK <==> p.regular)
    && q.configs == ConfigsIn(p.items) && q.args == ArgsIn(p.items) && q.missing == MissingIn(p.items)
  }

  lemma {:induction false} SourcesKeepProcesses(o: Output, sources: seq<Source>)
    ensures AddSources(o, sources).procs == o.procs && AddSources(o, sources).discovered == o.discovered
    decreases |sources|
  {
    if sources != [] {
      SourcesKeepProcesses(AddSource(o, sources[0]), sources[1..]);
    }
  }

  /** The report that should arrive has all processes in order, each with all its fields; what
      it knows of files and journals is said by FileArrives and JournalArrives. */
  lemma ProcessesArrive(r: Report)
    ensures var o := Expected(r);
            && o.discovered && |o.procs| == |r.procs|
            && forall i | 0 <= i < |r.procs| :: Arrives(r.procs[i], o.procs[i])
  {
    SourcesKeepProcesses(Output(true, SeenAll(r.procs), map[], map[]), r.sources);
    if r.procs != [] {
      SeenAt(r.procs, 0);
    }
    forall i | 0 <= i < |r.procs| ensures Arrives(r.procs[i], SeenAll(r.procs)[i]) {
      var p := r.procs[i];
      SeenAt(r.procs, i);
      ItemsArrive(Introduced(p), p.items);
      assert [] + ConfigsIn(p.items) == ConfigsIn(p.items) && [] + ArgsIn(p.items) == ArgsIn(p.items);
      assert [] + MissingIn(p.items) == MissingIn(p.items);
    }
  }

  // ---------------------------------------------------------------- which reports are readable

  /** No line of a body may look like a marker line. */
  predicate Plain(lines: seq<Str>) {
    forall i :: 0 <= i < |lines| ==> !HasPrefix(lines[i], MARK)
  }

  predicate ReadableItem(it: Item) {
    IsLine(it.path) && (it.Config? ==> Plain(Split(it.data)))
  }

  predicate ReadableProcess(p: Process) {
    && IsLine(p.pid) && Trimmed(p.pid) && IsLine(p.cwd) && IsLine(p.exe) && IsLine(p.stderr)
    && AreLines(p.cgroup)
    && forall i :: 0 <= i < |p.items| ==> ReadableItem(p.items[i])
  }

  predicate ReadableSource(s: Source) {
    && IsLine(s.id)
    && (s.LogFile? && s.stat.Some? ==> s.stat.value.size <= MAX_INT64 && Plain(Split(s.stat.value.data)))
    && (s.Unit? ==>
          && s.rc <= MAX_INT64 && IsLine(s.cursor) && Trimmed(s.cursor)
          && AreLines(s.entries) && Plain(s.entries))
  }

  predicate Readable(r: Report) {
    && (forall i :: 0 <= i < |r.procs| ==> ReadableProcess(r.procs[i]))
    && (forall i :: 0 <= i < |r.sources| ==> ReadableSource(r.sources[i]))
  }

  // ---------------------------------------------------------------- the round trip

  lemma {:induction false} RunConcat(st: State, a: seq<Str>, b: seq<Str>)
    ensures Run(st, a + b) == Run(Run(st, a), b)
    decreases |a|
  {
    if a == [] {
      assert a + b == b;
    } else {
      assert (a + b)[0] == a[0] && (a + b)[1..] == a[1..] + b;
      RunConcat(ParseLine(st, a[0]), a[1..], b);
    }
  }

  lemma RunMarked(st: State, v: Verb, arg: Str)
    ensures Run(st, [Marked(v, arg)]) == Execute(st, v, arg)
  {
    CommandOfMarked(v, arg);
    assert [Marked(v, arg)][1..] == [];
  }

  lemma RunBare(st: State, v: Verb)
    ensures Run(st, [Bare(v)]) == Execute(st, v, [])
  {
    CommandOfBare(v);
    assert [Bare(v)][1..] == [];
  }

  lemma {:induction false} RunBody(st: State, lines: seq<Str>)
    requires Collecting(st) && Plain(lines)
    ensures Run(st, lines) == st.(body := st.body + lines)
    decreases |lines|
  {
    if lines == [] {
      assert st.body + lines == st.body;
    } else {
      assert Command(lines[0]) == None;
      RunBody(ParseLine(st, lines[0]), lines[1..]);
      assert st.body + [lines[0]] + lines[1..] == st.body + lines;
    }
  }

  /** Inside a process, between two of its items. */
  predicate InProcess(st: State) {
    st.inProc && st.cfg.None? && st.file.None? && st.journal.None? && st.body == [] && st.out.procs != []
  }

  /** Outside everything. */
  predicate Idle(st: State) {
    !st.inProc && st.cfg.None? && st.file.None? && st.journal.None? && st.body == []
  }

  /** The state after a process was read: inside it, at the end of the report. */
  function AfterProcess(st: State, p: Proc): State {
    State(st.out.(procs := st.out.procs + [p]), true, None, None, None, [])
  }

  lemma AfterProcessEdited(st: State, p: Proc, q: Proc)
    ensures OnProc(AfterProcess(st, p), q) == AfterProcess(st, q) && Last(AfterProcess(st, p)) == p
  {
    var procs := st.out.procs;
    assert (procs + [p])[|procs| := q] == procs + [q];
  }

  /** Collecting a config of process `p`. */
  function InConfig(st: State, p: Proc, c: OpenConfig, body: seq<Str>): State {
    AfterProcess(st, p).(cfg := Some(c), body := body)
  }

  lemma RunConfigHead(st: State, p: Proc, dir: bool, path: Str)
    ensures Run(AfterProcess(st, p), [Marked(CFG, ConfigArg(dir, path))])
         == InConfig(st, p.(args := if dir then p.args else p.args + [Arg(false, path)]), OpenConfig(path, dir), [])
  {
    CutAtSpace(if dir then "d" else "c", path);
    RunMarked(AfterProcess(st, p), CFG, ConfigArg(dir, path));
    AfterProcessEdited(st, p, p.(args := p.args + [Arg(false, path)]));
  }

  lemma RunConfigBody(st: State, p: Proc, c: OpenConfig, data: Str)
    requires Plain(Split(data))
    ensures Run(InConfig(st, p, c, []), Split(data) + [Bare(CFGEND)])
         == AfterProcess(st, p.(configs := p.configs + [ConfigFile(c.path, c.fromDir, data)]))
  {
    var started, body := InConfig(st, p, c, []), Split(data);
    RunBody(started, body);
    assert started.body + body == body;
    RunConfigEnd(st, p, c, data);
    RunConcat(started, body, [Bare(CFGEND)]);
  }

  lemma RunConfigEnd(st: State, p: Proc, c: OpenConfig, data: Str)
    ensures Run(InConfig(st, p, c, Split(data)), [Bare(CFGEND)])
         == AfterProcess(st, p.(configs := p.configs + [ConfigFile(c.path, c.fromDir, data)]))
  {
    var full := InConfig(st, p, c, Split(data));
    RunBare(full, CFGEND);
    JoinSplit(data);
    assert Last(full) == Last(AfterProcess(st, p));
    AfterProcessEdited(st, p, p.(configs := p.configs + [ConfigFile(c.path, c.fromDir, data)]));
  }

  lemma RunItem(st: State, p: Proc, it: Item)
    requires ReadableItem(it)
    ensures Run(AfterProcess(st, p), ItemLines(it)) == AfterProcess(st, AddItem(p, it))
  {
    AfterProcessEdited(st, p, AddItem(p, it));
    match it
    case Config(dir, path, data) =>
      var args := if dir then p.args else p.args + [Arg(false, path)];
      var head := [Marked(CFG, ConfigArg(dir, path))];
      RunConfigHead(st, p, dir, path);
      RunConfigBody(st, p.(args := args), OpenConfig(path, dir), data);
      RunConcat(AfterProcess(st, p), head, Split(data) + [Bare(CFGEND)]);
      assert head + (Split(data) + [Bare(CFGEND)]) == ItemLines(it);
    case Dir(path) => RunMarked(AfterProcess(st, p), CFGDIR, path);
    case Missing(path) => RunMarked(AfterProcess(st, p), CFGMISS, path);
  }

  lemma {:induction false} RunItems(st: State, p: Proc, items: seq<Item>)
    requires forall i :: 0 <= i < |items| ==> ReadableItem(items[i])
    ensures Run(AfterProcess(st, p), AllItemLines(items)) == AfterProcess(st, AddItems(p, items))
    decreases |items|
  {
    if items != [] {
      RunConcat(AfterProcess(st, p), ItemLines(items[0]), AllItemLines(items[1..]));
      RunItem(st, p, items[0]);
      RunItems(st, AddItem(p, items[0]), items[1..]);
    }
  }

  lemma RunCg(st: State, p: Proc, group: Str)
    ensures Run(AfterProcess(st, p), [Marked(CG, group)]) == AfterProcess(st, p.(cgroup := p.cgroup + [group]))
  {
    RunMarked(AfterProcess(st, p), CG, group);
    AfterProcessEdited(st, p, p.(cgroup := p.cgroup + [group]));
  }

  lemma {:induction false} RunCgroup(st: State, p: Proc, cgroup: seq<Str>)
    ensures Run(AfterProcess(st, p), CgroupLines(cgroup)) == AfterProcess(st, p.(cgroup := p.cgroup + cgroup))
    decreases |cgroup|
  {
    if cgroup == [] {
      assert p.cgroup + cgroup == p.cgroup;
    } else {
      var first, rest := cgroup[0], cgroup[1..];
      var q := p.(cgroup := p.cgroup + [first]);
      calc {
        Run(AfterProcess(st, p), CgroupLines(cgroup));
        { RunConcat(AfterProcess(st, p), [Marked(CG, first)], CgroupLines(rest)); }
        Run(Run(AfterProcess(st, p), [Marked(CG, first)]), CgroupLines(rest));
        { RunCg(st, p, first); }
        Run(AfterProcess(st, q), CgroupLines(rest));
        { RunCgroup(st, q, rest); }
        AfterProcess(st, q.(cgroup := q.cgroup + rest));
        { assert p.cgroup + [first] + rest == p.cgroup + cgroup; }
        AfterProcess(st, p.(cgroup := p.cgroup + cgroup));
      }
    }
  }

  lemma {:induction false} TrimmedStays(s: Str)
    requires Trimmed(s)
    ensures Trim(s) == s
  {
  }

  lemma RunHeader(st: State, p: Process)
    requires (Idle(st) || InProcess(st)) && Trimmed(p.pid)
    ensures Run(st, HeaderLines(p))
         == AfterProcess(st, Proc(p.pid, p.cwd, p.exe, [], [], false, [], [], []))
  {
    TrimmedStays(p.pid);
    var p0 := Proc(p.pid, [], [], [], [], false, [], [], []);
    var p1, p2 := p0.(cwd := p.cwd), p0.(cwd := p.cwd, exe := p.exe);
    AfterProcessEdited(st, p0, p1);
    AfterProcessEdited(st, p1, p2);
    var a, b, c := [Marked(PROC, p.pid)], [Marked(CWD, p.cwd)], [Marked(EXE, p.exe)];
    RunMarked(st, PROC, p.pid);
    RunMarked(AfterProcess(st, p0), CWD, p.cwd);
    RunMarked(AfterProcess(st, p1), EXE, p.exe);
    RunConcat(st, a, b);
    RunConcat(st, a + b, c);
    assert a + b + c == HeaderLines(p);
  }

  lemma RunGroups(st: State, p: Process)
    requires (Idle(st) || InProcess(st)) && Trimmed(p.pid)
    ensures Run(st, HeaderLines(p) + CgroupLines(p.cgroup))
         == AfterProcess(st, Introduced(p).(stderr := [], stderrOK := false))
  {
    var p1 := Proc(p.pid, p.cwd, p.exe, [], [], false, [], [], []);
    RunHeader(st, p);
    RunCgroup(st, p1, p.cgroup);
    assert p1.cgroup + p.cgroup == p.cgroup;
    RunConcat(st, HeaderLines(p), CgroupLines(p.cgroup));
  }

  lemma RunErr(st: State, p: Process)
    ensures Run(AfterProcess(st, Introduced(p).(stderr := [], stderrOK := false)), ErrLines(p))
         == AfterProcess(st, Introduced(p))
  {
    var p2 := Introduced(p).(stderr := [], stderrOK := false);
    RunMarked(AfterProcess(st, p2), if p.regular then FD2F else FD2, p.stderr);
    AfterProcessEdited(st, p2, Introduced(p));
  }

  lemma RunIntroduction(st: State, p: Process)
    requires (Idle(st) || InProcess(st)) && Trimmed(p.pid)
    ensures Run(st, HeaderLines(p) + CgroupLines(p.cgroup) + ErrLines(p)) == AfterProcess(st, Introduced(p))
  {
    RunGroups(st, p);
    RunErr(st, p);
    RunConcat(st, HeaderLines(p) + CgroupLines(p.cgroup), ErrLines(p));
  }

  lemma RunProcess(st: State, p: Process)
    requires (Idle(st) || InProcess(st)) && ReadableProcess(p)
    ensures Run(st, ProcessLines(p)) == AfterProcess(st, Seen(p))
  {
    RunIntroduction(st, p);
    RunItems(st, Introduced(p), p.items);
    RunConcat(st, HeaderLines(p) + CgroupLines(p.cgroup) + ErrLines(p), AllItemLines(p.items));
  }

  function AfterProcesses(st: State, procs: seq<Process>): State
    decreases |procs|
  {
    if procs == [] then st else AfterProcesses(AfterProcess(st, Seen(procs[0])), procs[1..])
  }

  lemma {:induction false} RunProcesses(st: State, procs: seq<Process>)
    requires (Idle(st) || InProcess(st)) && forall i :: 0 <= i < |procs| ==> ReadableProcess(procs[i])
    ensures Run(st, AllProcessLines(procs)) == AfterProcesses(st, procs)
    decreases |procs|
  {
    if procs != [] {
      RunConcat(st, ProcessLines(procs[0]), AllProcessLines(procs[1..]));
      RunProcess(st, procs[0]);
      RunProcesses(AfterProcess(st, Seen(procs[0])), procs[1..]);
    }
  }

  lemma {:induction false} AllProcessesSeen(st: State, procs: seq<Process>)
    requires Idle(st) || InProcess(st)
    ensures var t := AfterProcesses(st, procs);
            (Idle(t) || InProcess(t)) && t.out == st.out.(procs := st.out.procs + SeenAll(procs))
    decreases |procs|
  {
    if procs == [] {
      assert st.out.procs + SeenAll(procs) == st.out.procs;
    } else {
      AllProcessesSeen(AfterProcess(st, Seen(procs[0])), procs[1..]);
      assert st.out.procs + [Seen(procs[0])] + SeenAll(procs[1..]) == st.out.procs + SeenAll(procs);
    }
  }

  lemma {:induction false} NumberHasNoSpace(s: Str)
    requires IsNumber(s)
    ensures ' ' !in s && NL !in s && Trimmed(s)
  {
    assert s[0] in s && s[|s| - 1] in s;
  }

  /** The argument of a size line, as the parser takes it apart. */
  lemma StatArgument(inode: nat, size: nat)
    requires size <= MAX_INT64
    ensures var arg := Decimal(inode) + [' '] + Decimal(size);
            Cut(Trim(arg)) == (Decimal(inode), Decimal(size)) && ParseNumber(Decimal(size)) == Some(size)
  {
    var ino, sz := Decimal(inode), Decimal(size);
    NumberHasNoSpace(ino);
    NumberHasNoSpace(sz);
    var arg := ino + [' '] + sz;
    assert arg[0] == ino[0] && arg[|arg| - 1] == sz[|sz| - 1];
    TrimmedStays(arg);
    CutAtSpace(ino, sz);
    ValueOfDecimal(size);
  }

  /** Collecting the log file `id`. */
  function InFile(st: State, id: Str, f: FileChunk, body: seq<Str>): State {
    State(st.out.(files := st.out.files[id := f]), false, None, Some(id), None, body)
  }

  lemma StatLine(st: State, id: Str, f: FileChunk, arg: Str, ino: Str, size: nat)
    requires Cut(Trim(arg)).0 == ino && ParseNumber(Cut(Trim(arg)).1) == Some(size)
    ensures LogLine(InFile(st, id, f, []), STAT, arg)
            == InFile(st, id, f.(stat := true, inode := ino, size := size), [])
  {
    var g := f.(stat := true, inode := ino, size := size);
    assert st.out.files[id := f][id := g] == st.out.files[id := g];
  }

  lemma RunStat(st: State, id: Str, inode: nat, size: nat)
    requires size <= MAX_INT64
    ensures Run(InFile(st, id, FileChunk(false, [], 0, []), []), [Marked(STAT, Decimal(inode) + [' '] + Decimal(size))])
         == InFile(st, id, FileChunk(true, Decimal(inode), size, []), [])
  {
    var empty := FileChunk(false, [], 0, []);
    var arg := Decimal(inode) + [' '] + Decimal(size);
    StatArgument(inode, size);
    RunMarked(InFile(st, id, empty, []), STAT, arg);
    StatLine(st, id, empty, arg, Decimal(inode), size);
  }

  lemma RunFileBody(st: State, id: Str, f: FileChunk, data: Str)
    requires Idle(st) && f.stat && Plain(Split(data))
    ensures Run(InFile(st, id, f, []), Split(data) + [Bare(END)])
         == st.(out := st.out.(files := st.out.files[id := f.(data := data)]))
  {
    var ready, body := InFile(st, id, f, []), Split(data);
    RunBody(ready, body);
    assert ready.body + body == body;
    RunFileEnd(st, id, f, data);
    RunConcat(ready, body, [Bare(END)]);
  }

  lemma RunFileEnd(st: State, id: Str, f: FileChunk, data: Str)
    requires Idle(st) && f.stat
    ensures Run(InFile(st, id, f, Split(data)), [Bare(END)])
         == st.(out := st.out.(files := st.out.files[id := f.(data := data)]))
  {
    RunBare(InFile(st, id, f, Split(data)), END);
    JoinSplit(data);
    assert st.out.files[id := f][id := f.(data := data)] == st.out.files[id := f.(data := data)];
  }

  lemma RunFileHead(st: State, id: Str)
    requires Idle(st)
    ensures Run(st, [Marked(FILE, id)]) == InFile(st, id, FileChunk(false, [], 0, []), [])
  {
    RunMarked(st, FILE, id);
  }

  lemma RunGoneFile(st: State, id: Str)
    requires Idle(st)
    ensures Run(st, SourceLines(LogFile(id, None))) == st.(out := AddSource(st.out, LogFile(id, None)))
  {
    var head := [Marked(FILE, id)];
    RunFileHead(st, id);
    RunBare(InFile(st, id, FileChunk(false, [], 0, []), []), END);
    RunConcat(st, head, [Bare(END)]);
    assert head + [Bare(END)] == SourceLines(LogFile(id, None));
  }

  lemma RunLogFile(st: State, id: Str, s: Stat)
    requires Idle(st) && s.size <= MAX_INT64 && Plain(Split(s.data))
    ensures Run(st, SourceLines(LogFile(id, Some(s)))) == st.(out := AddSource(st.out, LogFile(id, Some(s))))
  {
    var head := [Marked(FILE, id)];
    var second := [Marked(STAT, Decimal(s.inode) + [' '] + Decimal(s.size))];
    RunFileHead(st, id);
    RunStat(st, id, s.inode, s.size);
    RunFileBody(st, id, FileChunk(true, Decimal(s.inode), s.size, []), s.data);
    RunConcat(st, head, second);
    RunConcat(st, head + second, Split(s.data) + [Bare(END)]);
    assert head + second + (Split(s.data) + [Bare(END)]) == SourceLines(LogFile(id, Some(s)));
  }

  /** Reading a journal, with `j` collected so far. */
  predicate InJournal(st: State, id: Str, j: Journal) {
    !st.inProc && st.cfg.None? && st.file.None? && st.body == []
    && st.journal == Some(id) && id in st.out.journals && st.out.journals[id] == j
  }

  /** A journal with more lines read. */
  function More(j: Journal, lines: seq<Str>): Journal {
    j.(lines := j.lines + Told(lines), cursor := CursorAfter(j.cursor, lines))
  }

  lemma OneLine(was: Str, line: Str)
    ensures Told([line]) == if line == [] || HasPrefix(line, CURSOR) then [] else [line]
    ensures CursorAfter(was, [line]) == if HasPrefix(line, CURSOR) then Trim(line[|CURSOR|..]) else was
  {
    assert [line][1..] == [] && Told([]) == [];
    if HasPrefix(line, CURSOR) {
      assert CursorAfter(Trim(line[|CURSOR|..]), []) == Trim(line[|CURSOR|..]);
    }
  }

  lemma RunEntry(st: State, id: Str, j: Journal, line: Str)
    requires InJournal(st, id, j) && !HasPrefix(line, MARK)
    ensures ParseLine(st, line) == st.(out := st.out.(journals := st.out.journals[id := More(j, [line])]))
  {
    assert Command(line) == None;
    OneLine(j.cursor, line);
    if line == [] {
      assert j.lines + [] == j.lines;
      assert More(j, [line]) == j && st.out.journals[id := j] == st.out.journals;
    } else if HasPrefix(line, CURSOR) {
      assert j.lines + [] == j.lines;
    }
  }

  lemma {:induction false} RunEntries(st: State, id: Str, j: Journal, entries: seq<Str>)
    requires InJournal(st, id, j) && Plain(entries)
    ensures Run(st, entries) == st.(out := st.out.(journals := st.out.journals[id := More(j, entries)]))
    decreases |entries|
  {
    if entries == [] {
      assert More(j, entries) == j;
      assert st.out.journals[id := j] == st.out.journals;
    } else {
      var j1 := More(j, [entries[0]]);
      RunEntry(st, id, j, entries[0]);
      var one := ParseLine(st, entries[0]);
      RunEntries(one, id, j1, entries[1..]);
      MoreJoins(j, entries);
      assert st.out.journals[id := j1][id := More(j, entries)] == st.out.journals[id := More(j, entries)];
    }
  }

  lemma MoreJoins(j: Journal, entries: seq<Str>)
    requires entries != []
    ensures More(More(j, [entries[0]]), entries[1..]) == More(j, entries)
  {
    OneLine(j.cursor, entries[0]);
    var rest := Told(entries[1..]);
    assert Told(entries) == Told([entries[0]]) + rest;
    assert j.lines + Told([entries[0]]) + rest == j.lines + Told(entries);
    assert CursorAfter(j.cursor, entries) == CursorAfter(CursorAfter(j.cursor, [entries[0]]), entries[1..]);
  }

  lemma RunCursor(st: State, id: Str, j: Journal, cursor: Str)
    requires InJournal(st, id, j) && Trimmed(cursor)
    ensures Run(st, [CURSOR + cursor]) == st.(out := st.out.(journals := st.out.journals[id := j.(cursor := cursor)]))
  {
    var line := CURSOR + cursor;
    assert line[0] == '-' && MARK[0] == '_';
    assert Command(line) == None;
    assert line[|CURSOR|..] == cursor;
    TrimmedStays(cursor);
    assert [line][1..] == [];
  }

  lemma RunJournalLines(st: State, id: Str, entries: seq<Str>, cursor: Str, rc: nat)
    requires InJournal(st, id, Journal([], [], 0, false)) && ReadableSource(Unit(id, entries, cursor, rc))
    ensures Run(st, JournalLines(entries, cursor))
         == st.(out := st.out.(journals := st.out.journals[id := Arrived(entries, cursor)]))
  {
    var j0 := Journal([], [], 0, false);
    var j1 := More(j0, entries);
    RunEntries(st, id, j0, entries);
    assert j0.lines + Told(entries) == Told(entries);
    if cursor != [] {
      var read := st.(out := st.out.(journals := st.out.journals[id := j1]));
      RunCursor(read, id, j1, cursor);
      assert st.out.journals[id := j1][id := j1.(cursor := cursor)] == st.out.journals[id := j1.(cursor := cursor)];
      RunConcat(st, entries, [CURSOR + cursor]);
    } else if entries == [] {
      var blank: Str := [];
      assert Command(blank) == None;
      assert st.out.journals[id := j0] == st.out.journals;
      assert [blank][1..] == [] && JournalLines(entries, cursor) == [blank];
    }
  }

  /** A journal before its end is read. */
  function Arrived(entries: seq<Str>, cursor: Str): Journal {
    Journal(Told(entries), Cursor(entries, cursor), 0, false)
  }

  /** Collecting the journal `id`. */
  function InUnit(st: State, id: Str, j: Journal): State {
    State(st.out.(journals := st.out.journals[id := j]), false, None, None, Some(id), [])
  }

  lemma RunUnitBody(st: State, id: Str, entries: seq<Str>, cursor: Str, rc: nat)
    requires ReadableSource(Unit(id, entries, cursor, rc))
    ensures Run(InUnit(st, id, Journal([], [], 0, false)), JournalLines(entries, cursor))
         == InUnit(st, id, Arrived(entries, cursor))
  {
    var j0, j1 := Journal([], [], 0, false), Arrived(entries, cursor);
    RunJournalLines(InUnit(st, id, j0), id, entries, cursor, rc);
    assert st.out.journals[id := j0][id := j1] == st.out.journals[id := j1];
  }

  lemma RunUnitEnd(st: State, id: Str, j: Journal, rc: nat)
    requires Idle(st) && rc <= MAX_INT64
    ensures Run(InUnit(st, id, j), [Marked(RC, Decimal(rc))])
         == st.(out := st.out.(journals := st.out.journals[id := j.(rc := rc, rcSeen := true)]))
  {
    NumberHasNoSpace(Decimal(rc));
    TrimmedStays(Decimal(rc));
    ValueOfDecimal(rc);
    RunMarked(InUnit(st, id, j), RC, Decimal(rc));
    assert st.out.journals[id := j][id := j.(rc := rc, rcSeen := true)]
           == st.out.journals[id := j.(rc := rc, rcSeen := true)];
  }

  lemma RunUnit(st: State, id: Str, entries: seq<Str>, cursor: Str, rc: nat)
    requires Idle(st) && ReadableSource(Unit(id, entries, cursor, rc))
    ensures Run(st, SourceLines(Unit(id, entries, cursor, rc)))
            == st.(out := AddSource(st.out, Unit(id, entries, cursor, rc)))
  {
    var head, body, tail := [Marked(UNIT, id)], JournalLines(entries, cursor), [Marked(RC, Decimal(rc))];
    RunMarked(st, UNIT, id);
    assert Run(st, head) == InUnit(st, id, Journal([], [], 0, false));
    RunUnitBody(st, id, entries, cursor, rc);
    RunUnitEnd(st, id, Arrived(entries, cursor), rc);
    RunConcat(st, head, body);
    RunConcat(st, head + body, tail);
  }

  lemma {:induction false} RunSources(st: State, sources: seq<Source>)
    requires Idle(st) && forall i :: 0 <= i < |sources| ==> ReadableSource(sources[i])
    ensures Run(st, AllSourceLines(sources)) == st.(out := AddSources(st.out, sources))
    decreases |sources|
  {
    if sources != [] {
      RunConcat(st, SourceLines(sources[0]), AllSourceLines(sources[1..]));
      match sources[0] {
        case LogFile(id, None) => RunGoneFile(st, id);
        case LogFile(id, Some(stat)) => RunLogFile(st, id, stat);
        case Unit(id, entries, cursor, rc) => RunUnit(st, id, entries, cursor, rc);
      }
      RunSources(st.(out := AddSource(st.out, sources[0])), sources[1..]);
    }
  }

  lemma RunReport(r: Report)
    requires Readable(r)
    ensures var st := Run(Initial(), ReportLines(r)); Idle(st) && st.out == Expected(r)
  {
    var disc, dend := [Bare(DISC)], [Bare(DEND)];
    var procs, sources := AllProcessLines(r.procs), AllSourceLines(r.sources);
    var found := Initial().(out := Initial().out.(discovered := true));
    RunBare(Initial(), DISC);
    RunProcesses(found, r.procs);
    AllProcessesSeen(found, r.procs);
    assert found.out.procs + SeenAll(r.procs) == SeenAll(r.procs);
    var read := Run(found, procs);
    RunBare(read, DEND);
    var rest := read.(inProc := false);
    RunSources(rest, r.sources);
    RunConcat(Initial(), disc, procs);
    RunConcat(Initial(), disc + procs, dend);
    RunConcat(Initial(), disc + procs + dend, sources);
  }

  // ---------------------------------------------------------------- characters

  lemma {:induction false} PlainFieldIsLine(v: Verb, arg: Str)
    requires IsLine(arg)
    ensures IsLine(Marked(v, arg)) && IsLine(Bare(v))
  {
    VerbOfName(v);
    assert IsLine(MARK);
  }

  lemma LinesConcat(a: seq<Str>, b: seq<Str>)
    requires AreLines(a) && AreLines(b)
    ensures AreLines(a + b)
  {
  }

  lemma {:induction false} ItemsAreLines(items: seq<Item>)
    requires forall i :: 0 <= i < |items| ==> ReadableItem(items[i])
    ensures AreLines(AllItemLines(items))
  {
    if items != [] {
      ItemsAreLines(items[1..]);
      match items[0] {
        case Config(dir, path, data) =>
          PlainFieldIsLine(CFG, ConfigArg(dir, path));
          PlainFieldIsLine(CFGEND, []);
        case Dir(path) => PlainFieldIsLine(CFGDIR, path);
        case Missing(path) => PlainFieldIsLine(CFGMISS, path);
      }
      LinesConcat(ItemLines(items[0]), AllItemLines(items[1..]));
    }
  }

  lemma {:induction false} CgroupAreLines(cgroup: seq<Str>)
    requires AreLines(cgroup)
    ensures AreLines(CgroupLines(cgroup))
  {
    if cgroup != [] {
      PlainFieldIsLine(CG, cgroup[0]);
      CgroupAreLines(cgroup[1..]);
      LinesConcat([Marked(CG, cgroup[0])], CgroupLines(cgroup[1..]));
    }
  }

  lemma ProcessAreLines(p: Process)
    requires ReadableProcess(p)
    ensures AreLines(ProcessLines(p))
  {
    PlainFieldIsLine(PROC, p.pid);
    PlainFieldIsLine(CWD, p.cwd);
    PlainFieldIsLine(EXE, p.exe);
    PlainFieldIsLine(if p.regular then FD2F else FD2, p.stderr);
    CgroupAreLines(p.cgroup);
    ItemsAreLines(p.items);
    LinesConcat(HeaderLines(p), CgroupLines(p.cgroup));
    LinesConcat(HeaderLines(p) + CgroupLines(p.cgroup), ErrLines(p));
    LinesConcat(HeaderLines(p) + CgroupLines(p.cgroup) + ErrLines(p), AllItemLines(p.items));
  }

  lemma {:induction false} ProcessesAreLines(procs: seq<Process>)
    requires forall i :: 0 <= i < |procs| ==> ReadableProcess(procs[i])
    ensures AreLines(AllProcessLines(procs))
  {
    if procs != [] {
      ProcessAreLines(procs[0]);
      ProcessesAreLines(procs[1..]);
      LinesConcat(ProcessLines(procs[0]), AllProcessLines(procs[1..]));
    }
  }

  lemma SourceAreLines(s: Source)
    requires ReadableSource(s)
    ensures AreLines(SourceLines(s))
  {
    match s
    case LogFile(id, stat) =>
      PlainFieldIsLine(FILE, id);
      PlainFieldIsLine(END, []);
      if stat.Some? {
        NumberHasNoSpace(Decimal(stat.value.inode));
        NumberHasNoSpace(Decimal(stat.value.size));
        PlainFieldIsLine(STAT, Decimal(stat.value.inode) + [' '] + Decimal(stat.value.size));
      }
    case Unit(id, entries, cursor, rc) =>
      PlainFieldIsLine(UNIT, id);
      NumberHasNoSpace(Decimal(rc));
      PlainFieldIsLine(RC, Decimal(rc));
      assert IsLine(CURSOR + cursor);
      LinesConcat([Marked(UNIT, id)], JournalLines(entries, cursor));
  }

  lemma {:induction false} SourcesAreLines(sources: seq<Source>)
    requires forall i :: 0 <= i < |sources| ==> ReadableSource(sources[i])
    ensures AreLines(AllSourceLines(sources))
  {
    if sources != [] {
      SourceAreLines(sources[0]);
      SourcesAreLines(sources[1..]);
      LinesConcat(SourceLines(sources[0]), AllSourceLines(sources[1..]));
    }
  }

  lemma ReportAreLines(r: Report)
    requires Readable(r)
    ensures AreLines(ReportLines(r))
  {
    PlainFieldIsLine(DISC, []);
    PlainFieldIsLine(DEND, []);
    ProcessesAreLines(r.procs);
    SourcesAreLines(r.sources);
    LinesConcat([Bare(DISC)], AllProcessLines(r.procs));
    LinesConcat([Bare(DISC)] + AllProcessLines(r.procs), [Bare(DEND)]);
    LinesConcat([Bare(DISC)] + AllProcessLines(r.procs) + [Bare(DEND)], AllSourceLines(r.sources));
  }

  /** Parsing what the script printed gives back the report, every body byte for byte and
      with or without a newline at its end; of a journal's entries those that ToldAll is about. */
  lemma ParseInvertsPrint(r: Report)
    requires Readable(r)
    ensures CloseBody(Run(Initial(), Split(Print(r)))).out == Expected(r)
  {
    var lines := ReportLines(r);
    ReportAreLines(r);
    SplitPrinted(lines, []);
    assert Printed(lines) + [] == Print(r);
    var blank: Str := [];
    RunConcat(Initial(), lines, [blank]);
    RunReport(r);
    assert Command(blank) == None && [blank][1..] == [];
  }

  /** A body is printed as it is, followed by one newline. */
  lemma BodyIsPrintedVerbatim(data: Str)
    ensures Printed(Split(data)) == data + [NL]
  {
    PrintedSplit(data);
  }
}
