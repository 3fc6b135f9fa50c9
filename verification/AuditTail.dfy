/** Following a log file that grows, rotates and is emptied by the panel.

    One round sends a script that may empty the file, then reports its size, then reads
    from the recorded cursor; the reply may get lost after the script did its work, and the
    file may grow between any two of the script's commands. The file keeps, besides its
    present contents, every byte that was ever written to it, so that "no gap and no repeat"
    can be said about what the panel consumed.
  */
module AuditTail {
  import opened Prelude
  import opened Text

  const READ_LIMIT := 0x10_0000
  const TRUNCATE_AT := 0x140_0000

  datatype Cursor = Cursor(inode: int, offset: nat, truncate: bool)

  /** What one answered round reports about a file. */
  datatype Chunk = Chunk(stat: bool, inode: int, size: nat, data: Str)

  // ---------------------------------------------------------------- the panel's side

  /** The length of `s` up to and including its last newline. */
  function Complete(s: Str): (n: nat)
    ensures n <= |s| && (n > 0 ==> s[n - 1] == NL)
    ensures IsLine(s[n..])
  {
    if s == [] then 0
    else if s[|s| - 1] == NL then |s|
    else Complete(s[..|s| - 1])
  }

  function Base(cur: Cursor, chunk: Chunk): nat {
    if cur.inode == chunk.inode && chunk.size >= cur.offset then cur.offset else 0
  }

  /** The bytes an answered round consumes. */
  function Consumed(cur: Option<Cursor>, chunk: Chunk): Str {
    if cur.None? || !chunk.stat then [] else chunk.data[..Complete(chunk.data)]
  }

  /** The cursor after an answered round. */
  function Advance(cur: Option<Cursor>, truncatable: bool, chunk: Chunk): Option<Cursor> {
    if !chunk.stat then cur
    else if cur.None? then Some(Cursor(chunk.inode, chunk.size, false))
    else
      var offset := Base(cur.value, chunk) + Complete(chunk.data);
      Some(Cursor(chunk.inode, offset, truncatable && offset == chunk.size && chunk.size > TRUNCATE_AT))
  }

  /** What reading a chunk leaves: the cursor stands behind the last newline of the chunk, which
      follows the old position, or is the file from its start if the file is another one or
      has shrunk. */
  predicate ReadEnds(was: Cursor, truncatable: bool, c: Chunk, now: Cursor, lines: seq<Str>) {
    var from := if c.inode == was.inode && was.offset <= c.size then was.offset else 0;
    var n := now.offset - from;
    && 0 <= n <= |c.data| && (n == 0 || c.data[n - 1] == '\n') && '\n' !in c.data[n..]
    && lines == Split(c.data[..n])
    && now.inode == c.inode
    && (now.truncate <==> truncatable && now.offset == c.size && c.size > 20 * 1024 * 1024)
  }

  /** The search for the last newline, from the end. */
  method AfterLastNewline(data: Str) returns (n: nat)
    ensures n == Complete(data)
  {
    n := |data|;
    assert data[..n] == data;
    while n > 0 && data[n - 1] != NL
      invariant n <= |data|
      invariant Complete(data[..n]) == Complete(data)
    {
      assert data[..n][..n - 1] == data[..n - 1];
      n := n - 1;
    }
  }

  class LogSource {
    var truncatable: bool
    var file: Option<Cursor>

    /** Advances the cursor past the complete lines of the chunk and yields those lines. The
        cursor asks for the file to be emptied only once it is consumed to its end and larger
        than twenty megabytes, and only if it may be. */
    method ReadFile(chunk: Option<Chunk>) returns (lines: seq<Str>)
      modifies this
      ensures truncatable == old(truncatable)
      ensures chunk.None? || !chunk.value.stat ==> file == old(file) && lines == []
      ensures chunk.Some? && chunk.value.stat && old(file).None? ==>
                file == Some(Cursor(chunk.value.inode, chunk.value.size, false)) && lines == []
      ensures chunk.Some? && chunk.value.stat && old(file).Some? ==>
                var c, was := chunk.value, old(file).value;
                file.Some? && ReadEnds(was, truncatable, c, file.value, lines)
      ensures chunk.None? ==> file == old(file) && lines == []
      ensures chunk.Some? ==>
                && file == Advance(old(file), truncatable, chunk.value)
                && lines == if old(file).None? || !chunk.value.stat then [] else Split(Consumed(old(file), chunk.value))
    {
      if chunk.None? || !chunk.value.stat {
        return [];
      }
      var c := chunk.value;
      if file.None? {
        file := Some(Cursor(c.inode, c.size, false));
        return [];
      }
      var cur := file.value;
      var base: nat := 0;
      if cur.inode == c.inode && c.size >= cur.offset {
        base := cur.offset;
      }
      var consumed := AfterLastNewline(c.data);
      var offset := base + consumed;
      file := Some(Cursor(c.inode, offset, truncatable && offset == c.size && c.size > TRUNCATE_AT));
      lines := Split(c.data[..consumed]);
    }
  }

  // ---------------------------------------------------------------- the machine's side

  /** A file: all bytes ever written to it, and how many of them were thrown away. */
  datatype File = File(inode: int, all: Str, dropped: nat)

  function Content(f: File): Str
    requires f.dropped <= |f.all|
  {
    f.all[f.dropped..]
  }

  /** The last part of the script: the size, then a read of `late`, which may have grown since. */
  function Reported(f: File, late: File, cur: Option<Cursor>): Chunk
    requires f.dropped <= |f.all| <= |late.all| && late.dropped == f.dropped
  {
    var size := |Content(f)|;
    var data := if cur.None? then []
                else if f.inode == cur.value.inode && size >= cur.value.offset
                then Content(late)[cur.value.offset..]
                else Content(late);
    Chunk(true, f.inode, size, if |data| <= READ_LIMIT then data else data[..READ_LIMIT])
  }

  // ---------------------------------------------------------------- runs

  /** Bytes of the file in order: what the panel consumed, and what it threw away unread. */
  datatype Piece = Got(bytes: Str) | Missed(bytes: Str)

  /** The file, the panel's source for it, and what happened to this file since the panel
      first saw it: all bytes done with, whether consumed or missed, and those consumed, as
      bytes and as lines. */
  datatype State = State(
    file: File,
    truncatable: bool,
    cursor: Option<Cursor>,
    first: nat,
    done: Str,
    pieces: seq<Piece>,
    consumed: Str,
    lines: seq<Str>)

  /** Bytes written while the script runs: between its test and its emptying of the file,
      between that and the size, and between the size and the read. */
  datatype Meanwhile = Meanwhile(raced: Str, grown: Str, mid: Str)

  datatype Event =
    | Append(bytes: Str)
    | Rotate(inode: int)
    | Unreadable
    | Rediscover(truncatable: bool)
    | Answered(m: Meanwhile)
    | Lost(m: Meanwhile)

  /** The cursor says where in the file the bytes done with end. */
  predicate Synced(s: State) {
    && s.cursor.Some? && s.cursor.value.inode == s.file.inode
    && s.file.dropped + s.cursor.value.offset == s.first + |s.done| <= |s.file.all|
  }

  /** The file was emptied after the cursor was recorded and the reply got lost, or it was
      made anew under the inode on record. */
  predicate Outdated(s: State) {
    && s.cursor.Some? && s.cursor.value.inode == s.file.inode
    && s.file.dropped == s.first + |s.done| && s.file.dropped <= |s.file.all|
    && s.cursor.value.offset > 0
  }

  /** The cursor belongs to the file this one replaced. */
  predicate Replaced(s: State) {
    && s.cursor.Some? && s.cursor.value.inode != s.file.inode
    && s.first == 0 && s.done == [] && s.file.dropped == 0
  }

  predicate Unseen(s: State) {
    s.cursor.None? && s.first == 0 && s.done == [] && s.file.dropped == 0
  }

  function Appended(s: State, bytes: Str): State {
    s.(file := s.file.(all := s.file.all + bytes))
  }

  /** The script finds the file exactly as recorded, and will empty it. */
  predicate Empties(s: State)
    requires s.file.dropped <= |s.file.all|
  {
    && s.cursor.Some? && s.cursor.value.truncate && s.truncatable
    && s.cursor.value.inode == s.file.inode && s.cursor.value.offset == |Content(s.file)|
  }

  /** The first part of the script: a test, and an emptying that takes with it whatever was
      written in between. */
  function Cleared(s: State, raced: Str): State
    requires s.file.dropped <= |s.file.all|
  {
    var all := s.file.all + raced;
    if Empties(s) then
      s.(file := File(s.file.inode, all, |all|), done := s.done + raced, pieces := s.pieces + [Missed(raced)])
    else Appended(s, raced)
  }

  /** The state when the script takes the file's size. */
  function AtStat(s: State, m: Meanwhile): State
    requires s.file.dropped <= |s.file.all|
  {
    Appended(Cleared(s, m.raced), m.grown)
  }

  function Next(s: State, e: Event): State
    requires s.file.dropped <= |s.file.all|
  {
    match e
    case Append(bytes) => Appended(s, bytes)
    case Rotate(inode) =>
      s.(file := File(inode, [], 0), first := 0, done := [], pieces := [], consumed := [], lines := [])
    case Unreadable => s
    case Rediscover(t) => s.(truncatable := t)
    case Lost(m) => Appended(AtStat(s, m), m.mid)
    case Answered(m) => Round(s, m)
  }

  /** An answered round. */
  function Round(s: State, m: Meanwhile): State
    requires s.file.dropped <= |s.file.all|
  {
    Read(AtStat(s, m), m.mid)
  }

  /** From the size on: what the script read is consumed into the panel's source. */
  function Read(s: State, mid: Str): State
    requires s.file.dropped <= |s.file.all|
  {
    var late := s.file.(all := s.file.all + mid);
    var chunk := Reported(s.file, late, s.cursor);
    var bytes := Consumed(s.cursor, chunk);
    State(late, s.truncatable, Advance(s.cursor, s.truncatable, chunk),
          if s.cursor.None? then s.file.dropped + chunk.size else s.first,
          s.done + bytes, s.pieces + [Got(bytes)], s.consumed + bytes,
          s.lines + NonEmpty(Split(bytes)))
  }

  /** Lines that say anything; the parser takes no notice of empty ones. */
  function NonEmpty(lines: seq<Str>): seq<Str> {
    if lines == [] then [] else Said(lines[0]) + NonEmpty(lines[1..])
  }

  /** Such a file has grown to the offset still on record. */
  predicate Regrown(s: State) {
    Outdated(s) && |Content(s.file)| >= s.cursor.value.offset
  }

  /** A file emptied or made anew may grow to the offset on record and beyond, as long as no
      script finds it at that offset to empty it, and no answered round takes its size. Rotated
      logs may reuse any inode. */
  predicate Allowed(s: State, e: Event)
    requires s.file.dropped <= |s.file.all|
  {
    && (e.Answered? ==> !Regrown(AtStat(s, e.m)))
    && (e.Answered? || e.Lost? ==> !(Regrown(s) && Empties(s)))
  }

  // ---------------------------------------------------------------- no gap, no repeat

  predicate Tracked(s: State) {
    Unseen(s) || Replaced(s) || Synced(s) || Outdated(s)
  }

  function Position(s: State): nat {
    s.first + |s.done|
  }

  predicate Exact(s: State) {
    && s.file.dropped <= Position(s) <= |s.file.all|
    && s.done == s.file.all[s.first..Position(s)]
  }

  /** The lines handed to the parser are those of the consumed bytes, wherever the rounds
      happened to cut them. */
  predicate LinesExact(s: State) {
    && (s.consumed == [] || s.consumed[|s.consumed| - 1] == NL)
    && s.lines == NonEmpty(Split(s.consumed))
  }

  function AllOf(pieces: seq<Piece>): Str {
    if pieces == [] then [] else AllOf(pieces[..|pieces| - 1]) + pieces[|pieces| - 1].bytes
  }

  function GotOf(pieces: seq<Piece>): Str {
    if pieces == [] then []
    else
      var last := pieces[|pieces| - 1];
      GotOf(pieces[..|pieces| - 1]) + if last.Got? then last.bytes else []
  }

  /** The bytes done with are, in order, those consumed and those missed. */
  predicate PiecesExact(s: State) {
    AllOf(s.pieces) == s.done && GotOf(s.pieces) == s.consumed
  }

  predicate Inv(s: State) {
    Tracked(s) && Exact(s) && LinesExact(s) && PiecesExact(s)
  }

  predicate NothingMissed(pieces: seq<Piece>) {
    forall i | 0 <= i < |pieces| :: pieces[i].Missed? ==> pieces[i].bytes == []
  }

  lemma MissedLater(pieces: seq<Piece>, p: Piece)
    ensures NothingMissed(pieces + [p]) <==> NothingMissed(pieces) && (p.Missed? ==> p.bytes == [])
  {
    assert (pieces + [p])[|pieces|] == p;
    assert forall i | 0 <= i < |pieces| :: (pieces + [p])[i] == pieces[i];
  }

  /** There is no gap in what was consumed exactly if nothing was missed. */
  lemma {:induction false} GapsAreMissed(pieces: seq<Piece>)
    ensures |GotOf(pieces)| <= |AllOf(pieces)|
    ensures GotOf(pieces) == AllOf(pieces) <==> NothingMissed(pieces)
  {
    if pieces != [] {
      var n := |pieces| - 1;
      var got, all, b := GotOf(pieces[..n]), AllOf(pieces[..n]), pieces[n].bytes;
      GapsAreMissed(pieces[..n]);
      MissedLater(pieces[..n], pieces[n]);
      assert pieces[..n] + [pieces[n]] == pieces;
      if pieces[n].Got? {
        assert |got| == |all| ==> (got + b)[..|got|] == got && (all + b)[..|got|] == all;
      } else if b == [] {
        assert all + b == all && got + [] == got;
      }
    }
  }

  /** What a round may read: the next unread bytes, up to the limit. */
  function Window(s: State, mid: Str): Str
    requires Position(s) <= |s.file.all|
  {
    var unread := (s.file.all + mid)[Position(s)..];
    if |unread| <= READ_LIMIT then unread else unread[..READ_LIMIT]
  }

  /** The script empties only a file that was done with when it tested it. The bytes thrown
      away unread are exactly those written between the test and the emptying: it loses
      nothing if and only if there are none. */
  lemma EmptyingLosesRacedBytes(s: State, raced: Str)
    requires Tracked(s) && Exact(s) && !(Regrown(s) && Empties(s))
    ensures var f := Cleared(s, raced).file;
            && f.all == s.file.all + raced && s.file.dropped <= f.dropped
            && (f.dropped != s.file.dropped ==> Empties(s))
            && (Empties(s) ==>
                  && Synced(s) && Position(s) == |s.file.all|
                  && f.all[Position(s)..f.dropped] == raced
                  && (f.dropped <= Position(s) <==> raced == []))
  {
    assert (s.file.all + raced)[|s.file.all|..] == raced;
  }

  /** From any tracked state, an answered round consumes exactly the complete lines among
      the next unread bytes, and leaves the cursor where they end. */
  lemma ReadTakesNextLines(s: State, mid: Str)
    requires Tracked(s) && Exact(s) && !Regrown(s) && s.cursor.Some?
    ensures var t := Read(s, mid);
            && t.done == s.done + Window(s, mid)[..Complete(Window(s, mid))]
            && Synced(t) && t.first == s.first
  {
    var late := s.file.(all := s.file.all + mid);
    var chunk := Reported(s.file, late, s.cursor);
    var unread := (s.file.all + mid)[Position(s)..];
    if Base(s.cursor.value, chunk) > 0 {
      assert Content(late)[s.cursor.value.offset..] == unread;
    } else {
      assert Content(late) == unread;
    }
    assert chunk.data == Window(s, mid);
  }

  lemma {:induction false} FirstLine(a: Str) returns (head: Str, rest: Str)
    requires NL in a
    ensures IsLine(head) && a == head + [NL] + rest
  {
    if a[0] == NL {
      head, rest := [], a[1..];
    } else {
      head, rest := FirstLine(a[1..]);
      head := [a[0]] + head;
    }
  }

  /** Cutting a text after a newline does not change its lines. */
  lemma {:induction false} LinesCompose(a: Str, b: Str)
    requires a == [] || a[|a| - 1] == NL
    ensures NonEmpty(Split(a + b)) == NonEmpty(Split(a)) + NonEmpty(Split(b))
    decreases |a|
  {
    if a == [] {
      assert a + b == b;
    } else {
      var head, rest := FirstLine(a);
      Regroup(head, rest, b);
      LinesAfter(head, rest);
      LinesAfter(head, rest + b);
      LinesCompose(rest, b);
      Reassociate(Said(head), NonEmpty(Split(rest)), NonEmpty(Split(b)));
    }
  }

  lemma Reassociate(p: seq<Str>, q: seq<Str>, r: seq<Str>)
    ensures p + (q + r) == (p + q) + r
  {
  }

  function Said(line: Str): seq<Str> {
    if line == [] then [] else [line]
  }

  lemma Regroup(head: Str, rest: Str, b: Str)
    ensures (head + [NL] + rest) + b == head + [NL] + (rest + b)
  {
  }

  lemma LinesAfter(head: Str, rest: Str)
    requires IsLine(head)
    ensures NonEmpty(Split(head + [NL] + rest)) == Said(head) + NonEmpty(Split(rest))
  {
    SplitAfterLine(head, rest);
    assert ([head] + Split(rest))[1..] == Split(rest);
  }

  lemma NoLines()
    ensures NonEmpty(Split([])) == []
  {
    assert NonEmpty([[]]) == NonEmpty([[]][1..]);
  }

  /** What an answered round does to the state, seen from outside. */
  lemma ReadEffect(s: State, mid: Str)
    requires Tracked(s) && Exact(s) && !Regrown(s) && s.cursor.Some?
    ensures var t, bytes := Read(s, mid), Window(s, mid)[..Complete(Window(s, mid))];
            && t.file.all == s.file.all + mid && t.first == s.first && Synced(t)
            && t.file.dropped == s.file.dropped
            && t.done == s.done + bytes && t.pieces == s.pieces + [Got(bytes)]
            && t.consumed == s.consumed + bytes && t.lines == s.lines + NonEmpty(Split(bytes))
  {
    ReadTakesNextLines(s, mid);
    var c := Consumed(s.cursor, Reported(s.file, s.file.(all := s.file.all + mid), s.cursor));
    assert c == (s.done + c)[|s.done|..];
  }

  lemma ConsumingKeepsLines(s: State, t: State, bytes: Str)
    requires LinesExact(s)
    requires bytes == [] || bytes[|bytes| - 1] == NL
    requires t.consumed == s.consumed + bytes && t.lines == s.lines + NonEmpty(Split(bytes))
    ensures LinesExact(t)
  {
    LinesCompose(s.consumed, bytes);
  }

  lemma ConsumingKeepsExact(s: State, t: State, mid: Str, n: nat)
    requires Exact(s)
    requires t.file.all == s.file.all + mid && t.first == s.first && t.file.dropped <= Position(s)
    requires Position(s) + n <= |t.file.all|
    requires t.done == s.done + t.file.all[Position(s)..Position(s) + n]
    ensures Exact(t)
  {
    SlicesJoin(s.file.all, mid, s.first, Position(s), n);
  }

  lemma SlicesJoin(all: Str, mid: Str, first: nat, p: nat, n: nat)
    requires first <= p <= |all| && p + n <= |all + mid|
    ensures all[first..p] + (all + mid)[p..p + n] == (all + mid)[first..p + n]
  {
  }

  lemma WindowIsNext(s: State, mid: Str, n: nat)
    requires Position(s) <= |s.file.all| && n <= |Window(s, mid)|
    ensures Position(s) + n <= |s.file.all + mid|
    ensures Window(s, mid)[..n] == (s.file.all + mid)[Position(s)..Position(s) + n]
  {
    var text := s.file.all + mid;
    var unread := text[Position(s)..];
    assert unread[..n] == text[Position(s)..Position(s) + n];
    if |unread| > READ_LIMIT {
      assert unread[..READ_LIMIT][..n] == unread[..n];
    }
  }

  lemma ReadKeepsExact(s: State, mid: Str)
    requires Inv(s) && !Regrown(s) && s.cursor.Some?
    ensures Synced(Read(s, mid)) && Exact(Read(s, mid))
  {
    ReadEffect(s, mid);
    WindowIsNext(s, mid, Complete(Window(s, mid)));
    ConsumingKeepsExact(s, Read(s, mid), mid, Complete(Window(s, mid)));
  }

  lemma ReadKeepsLines(s: State, mid: Str)
    requires Inv(s) && !Regrown(s) && s.cursor.Some?
    ensures LinesExact(Read(s, mid)) && PiecesExact(Read(s, mid))
  {
    var bytes := Window(s, mid)[..Complete(Window(s, mid))];
    ReadEffect(s, mid);
    ConsumingKeepsLines(s, Read(s, mid), bytes);
    OnePieceMore(s, Read(s, mid), Got(bytes));
  }

  lemma ReadKeepsInv(s: State, mid: Str)
    requires Inv(s) && !Regrown(s)
    ensures Inv(Read(s, mid))
  {
    if s.cursor.Some? {
      ReadKeepsExact(s, mid);
      ReadKeepsLines(s, mid);
    } else {
      FirstSight(s, mid);
    }
  }

  lemma OnePieceMore(s: State, t: State, p: Piece)
    requires PiecesExact(s) && t.pieces == s.pieces + [p] && t.done == s.done + p.bytes
    requires t.consumed == s.consumed + if p.Got? then p.bytes else []
    ensures PiecesExact(t)
  {
    assert t.pieces[..|t.pieces| - 1] == s.pieces;
  }

  lemma FirstSight(s: State, mid: Str)
    requires Inv(s) && s.cursor.None?
    ensures Inv(Read(s, mid))
  {
    NoLines();
    assert s.consumed + [] == s.consumed && s.lines + [] == s.lines;
    OnePieceMore(s, Read(s, mid), Got([]));
  }

  /** Bytes added to the file leave what was consumed of it in place. */
  lemma GrowthKeepsInv(s: State, bytes: Str)
    requires Inv(s)
    ensures Inv(Appended(s, bytes))
  {
    assert s.file.all[s.first..Position(s)] == (s.file.all + bytes)[s.first..Position(s)];
  }

  lemma ClearingKeepsInv(s: State, raced: Str)
    requires Inv(s) && !(Regrown(s) && Empties(s))
    ensures Inv(Cleared(s, raced))
  {
    var t := Cleared(s, raced);
    if Empties(s) {
      EmptyingLosesRacedBytes(s, raced);
      OnePieceMore(s, t, Missed(raced));
      assert s.file.all[s.first..Position(s)] + raced == t.file.all[s.first..Position(t)];
    } else {
      GrowthKeepsInv(s, raced);
    }
  }

  lemma AtStatKeepsInv(s: State, m: Meanwhile)
    requires Inv(s) && !(Regrown(s) && Empties(s))
    ensures Inv(AtStat(s, m))
  {
    ClearingKeepsInv(s, m.raced);
    GrowthKeepsInv(Cleared(s, m.raced), m.grown);
  }

  lemma AnsweredKeepsInv(s: State, m: Meanwhile)
    requires Inv(s) && Allowed(s, Answered(m))
    ensures Inv(Round(s, m))
  {
    AtStatKeepsInv(s, m);
    ReadKeepsInv(AtStat(s, m), m.mid);
  }

  lemma LostKeepsInv(s: State, m: Meanwhile)
    requires Inv(s) && Allowed(s, Lost(m))
    ensures Inv(Next(s, Lost(m)))
  {
    AtStatKeepsInv(s, m);
    GrowthKeepsInv(AtStat(s, m), m.mid);
  }

  lemma RotateKeepsInv(s: State, inode: int)
    requires Inv(s)
    ensures Inv(Next(s, Rotate(inode)))
  {
    NoLines();
  }

  lemma RediscoverKeepsInv(s: State, truncatable: bool)
    requires Inv(s)
    ensures Inv(Next(s, Rediscover(truncatable)))
  {
  }

  lemma StepKeepsInv(s: State, e: Event)
    requires Inv(s) && Allowed(s, e)
    ensures Inv(Next(s, e))
  {
    match e
    case Answered(m) => AnsweredKeepsInv(s, m);
    case Lost(m) => LostKeepsInv(s, m);
    case Rotate(inode) => RotateKeepsInv(s, inode);
    case Rediscover(t) => RediscoverKeepsInv(s, t);
    case Append(bytes) => GrowthKeepsInv(s, bytes);
    case Unreadable =>
  }

  /** A panel starting to follow a file somebody has written to. */
  predicate Start(s: State) {
    Unseen(s) && s.pieces == [] && s.consumed == [] && s.lines == []
  }

  ghost predicate IsRun(states: seq<State>, events: seq<Event>) {
    && |states| == |events| + 1 && Start(states[0])
    && forall i | 0 <= i < |events| ::
         && states[i].file.dropped <= |states[i].file.all|
         && Allowed(states[i], events[i]) && states[i + 1] == Next(states[i], events[i])
  }

  /** Over every run, the bytes of the current file from where it was first seen to the
      cursor are, in order, those the source consumed and those thrown away unread, however
      the file grew, rotated or was emptied and whichever replies got lost. The lines parsed
      so far are the lines of the consumed bytes. */
  lemma {:induction false} RunConsumesExactly(states: seq<State>, events: seq<Event>, n: nat)
    requires IsRun(states, events) && n <= |events|
    ensures Inv(states[n])
  {
    if n == 0 {
      NoLines();
    } else {
      RunConsumesExactly(states, events, n - 1);
      StepKeepsInv(states[n - 1], events[n - 1]);
    }
  }

  /** So what was consumed is, byte for byte, the file from where it was first seen to the
      cursor, with no gap and no repeat, if and only if no emptying raced with a write. */
  lemma RunHasNoGap(states: seq<State>, events: seq<Event>, n: nat)
    requires IsRun(states, events) && n <= |events|
    ensures var s := states[n];
            && s.first <= Position(s) <= |s.file.all|
            && (s.consumed == s.file.all[s.first..Position(s)] <==> NothingMissed(s.pieces))
  {
    RunConsumesExactly(states, events, n);
    GapsAreMissed(states[n].pieces);
  }

  /** Bytes are missed only by an emptying, and then they are those that raced with it. */
  lemma OnlyRacesMiss(s: State, e: Event)
    requires Inv(s) && Allowed(s, e) && !e.Rotate? && NothingMissed(s.pieces)
    ensures NothingMissed(Next(s, e).pieces) <==>
              !((e.Answered? || e.Lost?) && Empties(s) && e.m.raced != [])
  {
    if e.Answered? || e.Lost? {
      MissedLater(s.pieces, Missed(e.m.raced));
      if e.Answered? {
        RoundAddsGot(s, e.m);
      }
    }
  }

  lemma RoundAddsGot(s: State, m: Meanwhile)
    requires s.file.dropped <= |s.file.all|
    ensures NothingMissed(Round(s, m).pieces) <==> NothingMissed(Cleared(s, m.raced).pieces)
  {
    var t := AtStat(s, m);
    var bytes := Consumed(t.cursor, Reported(t.file, t.file.(all := t.file.all + m.mid), t.cursor));
    MissedLater(t.pieces, Got(bytes));
  }

  /** Whenever the panel empties a file, every byte thrown away was done with before or was
      written between the script's test and its emptying. */
  lemma EmptyingLosesNothingElse(states: seq<State>, events: seq<Event>, n: nat)
    requires IsRun(states, events) && n < |events| && !events[n].Rotate?
    requires states[n + 1].file.dropped != states[n].file.dropped
    ensures (events[n].Answered? || events[n].Lost?) && Empties(states[n])
    ensures Position(states[n]) == |states[n].file.all|
    ensures states[n + 1].file.dropped == Position(states[n]) + |events[n].m.raced|
  {
    RunConsumesExactly(states, events, n);
    if events[n].Answered? || events[n].Lost? {
      EmptyingLosesRacedBytes(states[n], events[n].m.raced);
    }
  }

  predicate Large(cur: Option<Cursor>) {
    cur.Some? && cur.value.truncate ==> cur.value.offset > 20 * 1024 * 1024
  }

  /** A file is emptied only if it may be and holds more than twenty megabytes, all of them
      consumed. */
  lemma {:induction false} OnlyLargeFilesAreEmptied(states: seq<State>, events: seq<Event>, n: nat)
    requires IsRun(states, events) && n <= |events|
    ensures Large(states[n].cursor)
    ensures states[n].file.dropped <= |states[n].file.all|
    ensures Empties(states[n]) ==> states[n].truncatable && |Content(states[n].file)| > 20 * 1024 * 1024
  {
    RunConsumesExactly(states, events, n);
    if n > 0 {
      OnlyLargeFilesAreEmptied(states, events, n - 1);
    }
  }

  /** The condition on emptied and recreated files is exact: an answered round puts the
      cursor back in step if and only if, when its size is taken, the file has not grown to
      the recorded offset. */
  lemma RegrownFileIsMisread(s: State, mid: Str)
    requires Outdated(s)
    ensures Synced(Read(s, mid)) <==> !Regrown(s)
  {
    var late := s.file.(all := s.file.all + mid);
    var chunk := Reported(s.file, late, s.cursor);
    assert |chunk.data| <= |Content(late)|;
  }

  /** The unread bytes up to the read limit hold no newline. */
  predicate Stuck(s: State) {
    && Inv(s) && !Regrown(s) && s.cursor.Some? && |s.file.all| >= Position(s) + READ_LIMIT
    && IsLine(s.file.all[Position(s)..Position(s) + READ_LIMIT])
  }

  lemma StuckWindow(s: State, mid: Str)
    requires Stuck(s)
    ensures (s.file.all + mid)[Position(s)..Position(s) + READ_LIMIT]
            == s.file.all[Position(s)..Position(s) + READ_LIMIT]
    ensures Window(s, mid) == s.file.all[Position(s)..Position(s) + READ_LIMIT]
    ensures Complete(Window(s, mid)) == 0
  {
  }

  lemma StuckRoundReadsNothing(s: State, mid: Str)
    requires Stuck(s)
    ensures var t := Read(s, mid);
            t.done == s.done && t.consumed == s.consumed && t.lines == s.lines && t.first == s.first
            && t.file.all == s.file.all + mid && t.cursor.Some?
  {
    ReadEffect(s, mid);
    StuckWindow(s, mid);
    NoLines();
    assert Window(s, mid)[..0] == [];
  }

  lemma StuckStays(s: State, mid: Str)
    requires Stuck(s)
    ensures Stuck(Read(s, mid))
  {
    StuckRoundReadsNothing(s, mid);
    ReadKeepsInv(s, mid);
    StuckWindow(s, mid);
  }

  /** A round consumes something exactly if there is a newline among the bytes it may read. */
  lemma RoundNeedsNewline(s: State, mid: Str)
    requires Inv(s) && !Regrown(s) && s.cursor.Some?
    ensures Read(s, mid).consumed == s.consumed <==> IsLine(Window(s, mid))
  {
    ReadEffect(s, mid);
    var w := Window(s, mid);
    assert w[0..] == w;
    assert |s.consumed + w[..Complete(w)]| == |s.consumed| + Complete(w);
    if Complete(w) == 0 {
      assert s.consumed + w[..0] == s.consumed;
    }
  }

  /** Unless the source is stuck, one more newline, or none, gives a round something. */
  lemma NewlineHelps(s: State) returns (mid: Str)
    requires Inv(s) && !Regrown(s) && s.cursor.Some? && !Stuck(s)
    ensures !IsLine(Window(s, mid))
  {
    var unread := s.file.all[Position(s)..];
    if |unread| >= READ_LIMIT {
      mid := [];
      assert s.file.all + [] == s.file.all;
      assert Window(s, mid) == s.file.all[Position(s)..Position(s) + READ_LIMIT];
    } else {
      mid := [NL];
      assert (s.file.all + mid)[Position(s)..] == unread + mid;
      assert Window(s, mid) == unread + mid;
      assert Window(s, mid)[|unread|] == NL;
    }
  }

  /** No round consumes anything, whatever was written before its read, if and only if the
      unread bytes up to the read limit are there and hold no newline. */
  lemma StallsExactly(s: State)
    requires Inv(s) && !Regrown(s) && s.cursor.Some?
    ensures Stuck(s) <==> forall mid :: Read(s, mid).consumed == s.consumed
  {
    if Stuck(s) {
      forall mid ensures Read(s, mid).consumed == s.consumed {
        StuckRoundReadsNothing(s, mid);
      }
    } else {
      var mid := NewlineHelps(s);
      RoundNeedsNewline(s, mid);
    }
  }

  /** A stuck source stays stuck when the script starts: the file is not emptied. */
  lemma StuckAtStat(s: State, m: Meanwhile)
    requires Stuck(s) && !Regrown(AtStat(s, m))
    ensures var t := AtStat(s, m);
            Stuck(t) && t.consumed == s.consumed && t.lines == s.lines
  {
    assert !Empties(s);
    AtStatKeepsInv(s, m);
    assert AtStat(s, m).file.all == s.file.all + (m.raced + m.grown);
    StuckWindow(s, m.raced + m.grown);
  }

  /** A line longer than the read limit is never got past: however often rounds are
      answered and however much is written, the source consumes nothing more. */
  lemma {:induction false} LongLineStalls(states: seq<State>, ms: seq<Meanwhile>, n: nat)
    requires |states| == |ms| + 1 && n <= |ms| && Stuck(states[0])
    requires forall i | 0 <= i < |ms| ::
               && states[i].file.dropped <= |states[i].file.all|
               && Allowed(states[i], Answered(ms[i])) && states[i + 1] == Round(states[i], ms[i])
    ensures Stuck(states[n]) && states[n].consumed == states[0].consumed && states[n].lines == states[0].lines
  {
    if n > 0 {
      LongLineStalls(states, ms, n - 1);
      assert Allowed(states[n - 1], Answered(ms[n - 1]));
      var t := AtStat(states[n - 1], ms[n - 1]);
      StuckAtStat(states[n - 1], ms[n - 1]);
      StuckRoundReadsNothing(t, ms[n - 1].mid);
      StuckStays(t, ms[n - 1].mid);
    }
  }
}
