/** An append-only file of one row per line, and what a write cut off part way leaves in it. */
module AppendFile {

  /** A terminated line: a whole row, or text that does not parse. */
  datatype Line<T> = Whole(row: T) | Junk

  /** What follows the last newline: nothing, a whole row short of its newline, or something unparsable. */
  datatype Tail<T> = Ended | Unended(row: T) | Torn

  datatype Log<T> = Log(lines: seq<Line<T>>, tail: Tail<T>)

  function Empty<T>(): Log<T> {
    Log([], Ended)
  }

  function Readable<T>(lines: seq<Line<T>>): seq<T> {
    if lines == [] then [] else
    Readable(lines[..|lines| - 1]) + (if lines[|lines| - 1].Whole? then [lines[|lines| - 1].row] else [])
  }

  /** The rows that parse; an unterminated but whole last line still does. */
  function Rows<T>(log: Log<T>): seq<T> {
    Readable(log.lines) + (if log.tail.Unended? then [log.tail.row] else [])
  }

  /** Appending continues whatever the file ends with: a line started by an earlier torn write swallows the row. */
  function Append<T>(log: Log<T>, row: T): Log<T> {
    Log(log.lines + [if log.tail.Ended? then Whole(row) else Junk], Ended)
  }

  function Tear<T>(log: Log<T>): Log<T> {
    Log(log.lines, Torn)
  }

  function AllButNewline<T>(log: Log<T>, row: T): Log<T> {
    Log(log.lines, if log.tail.Ended? then Unended(row) else Torn)
  }

  /** The rows after an append, complete or cut off. */
  lemma RowsAppend<T>(log: Log<T>, row: T)
    ensures Rows(Append(log, row)) == if log.tail.Ended? then Rows(log) + [row] else Readable(log.lines)
    ensures Rows(Tear(log)) == Readable(log.lines)
    ensures Rows(AllButNewline(log, row)) == if log.tail.Ended? then Rows(log) + [row] else Readable(log.lines)
    ensures !log.tail.Unended? ==> Rows(log) == Readable(log.lines)
  {
  }

  /** A row just appended, and all before it, can be read back exactly when the file ended in a newline. */
  lemma AppendKeepsIff<T>(log: Log<T>, row: T)
    ensures Rows(Append(log, row)) == Rows(log) + [row] <==> log.tail.Ended?
  {
  }

  /** How the write of one row ends: complete, or cut off with nothing, part, or all but the newline in the file. */
  datatype Write = Written | Unwritten | TornWrite | UnendedWrite

  function Wrote<T>(log: Log<T>, row: T, write: Write): Log<T> {
    match write
    case Written => Append(log, row)
    case Unwritten => log
    case TornWrite => Tear(log)
    case UnendedWrite => AllButNewline(log, row)
  }

  // ---------------------------------------------------------------- several rows, and readers that give up

  function AppendAll<T>(log: Log<T>, rows: seq<T>): Log<T> {
    if rows == [] then log else Append(AppendAll(log, rows[..|rows| - 1]), rows[|rows| - 1])
  }

  /** The first `whole` rows are written, then the next one as `write` says. */
  function AppendCut<T>(log: Log<T>, rows: seq<T>, whole: nat, write: Write): Log<T> {
    if whole >= |rows| then AppendAll(log, rows) else Wrote(AppendAll(log, rows[..whole]), rows[whole], write)
  }

  predicate Sound<T(==)>(lines: seq<Line<T>>) {
    Junk !in lines
  }

  /** Nothing unparsable anywhere, and the next append starts a line of its own. */
  predicate Clean<T(==)>(log: Log<T>) {
    log.tail.Ended? && Sound(log.lines)
  }

  /** The rows before the first unparsable line. */
  function UpToJunk<T(==)>(lines: seq<Line<T>>): seq<T> {
    if lines == [] then [] else
    var most, last := lines[..|lines| - 1], lines[|lines| - 1];
    UpToJunk(most) + (if Sound(most) && last.Whole? then [last.row] else [])
  }

  /** A reader whose parsing loop sits in one `try` keeps what it read before the first line that fails. */
  function Read<T(==)>(log: Log<T>): seq<T> {
    UpToJunk(log.lines) + (if Sound(log.lines) && log.tail.Unended? then [log.tail.row] else [])
  }

  method ReadRows<T(==)>(log: Log<T>) returns (rows: seq<T>)
    ensures rows == Read(log)
  {
    rows := [];
    for i := 0 to |log.lines|
      invariant Sound(log.lines[..i]) && rows == UpToJunk(log.lines[..i])
    {
      assert log.lines[..i + 1][..i] == log.lines[..i];
      if log.lines[i].Junk? {
        UpToJunkStops(log.lines, i);
        return;
      }
      rows := rows + [log.lines[i].row];
    }
    assert log.lines[..|log.lines|] == log.lines;
    if log.tail.Unended? {
      rows := rows + [log.tail.row];
    }
  }

  lemma {:induction false} UpToJunkStops<T>(lines: seq<Line<T>>, i: nat)
    requires i < |lines| && lines[i].Junk?
    ensures UpToJunk(lines) == UpToJunk(lines[..i])
  {
    var most := lines[..|lines| - 1];
    if i < |lines| - 1 {
      assert most[i].Junk? && most[..i] == lines[..i];
      UpToJunkStops(most, i);
    }
  }

  /** Appending never takes back what such a reader sees. */
  lemma {:induction false} UpToJunkGrows<T>(lines: seq<Line<T>>, more: seq<Line<T>>)
    requires lines <= more
    ensures UpToJunk(lines) <= UpToJunk(more)
    decreases |more|
  {
    if lines == more {
    } else {
      assert lines <= more[..|more| - 1];
      UpToJunkGrows(lines, more[..|more| - 1]);
    }
  }

  lemma {:induction false} AppendAllJoin<T>(log: Log<T>, a: seq<T>, b: seq<T>)
    ensures AppendAll(AppendAll(log, a), b) == AppendAll(log, a + b)
    decreases |b|
  {
    if b == [] {
      assert a + b == a;
    } else {
      assert (a + b)[..|a + b| - 1] == a + b[..|b| - 1];
      AppendAllJoin(log, a, b[..|b| - 1]);
    }
  }

  lemma {:induction false} AppendAllExtends<T>(log: Log<T>, rows: seq<T>)
    ensures log.lines <= AppendAll(log, rows).lines
  {
    if rows != [] {
      AppendAllExtends(log, rows[..|rows| - 1]);
    }
  }

  lemma AppendClean<T>(log: Log<T>, row: T)
    requires Clean(log)
    ensures Clean(Append(log, row)) && Read(Append(log, row)) == Read(log) + [row]
  {
  }

  lemma {:induction false} AppendAllClean<T>(log: Log<T>, rows: seq<T>)
    requires Clean(log)
    ensures Clean(AppendAll(log, rows)) && Read(AppendAll(log, rows)) == Read(log) + rows
  {
    if rows == [] {
      assert Read(log) + rows == Read(log);
    } else {
      AppendAllClean(log, rows[..|rows| - 1]);
      AppendClean(AppendAll(log, rows[..|rows| - 1]), rows[|rows| - 1]);
      assert rows == rows[..|rows| - 1] + [rows[|rows| - 1]];
      assert Read(log) + rows == Read(log) + rows[..|rows| - 1] + [rows[|rows| - 1]];
    }
  }

  lemma {:induction false} AppendAllUnclean<T>(log: Log<T>, rows: seq<T>)
    requires !Clean(log)
    ensures UpToJunk(AppendAll(log, rows).lines) == UpToJunk(log.lines)
    ensures rows == [] || !Sound(AppendAll(log, rows).lines)
  {
    if rows == [] {
    } else {
      var most := AppendAll(log, rows[..|rows| - 1]);
      AppendAllUnclean(log, rows[..|rows| - 1]);
      var lines := Append(most, rows[|rows| - 1]).lines;
      assert lines[..|lines| - 1] == most.lines;
      if Sound(most.lines) {
        assert rows[..|rows| - 1] == [] && most == log;
      }
      assert lines[|lines| - 1] in lines;
      assert !Sound(most.lines) ==> Junk in lines;
    }
  }

  lemma CleanStays<T>(log: Log<T>, rows: seq<T>)
    ensures Clean(AppendAll(log, rows)) <==> Clean(log)
  {
  }

  /** Such a reader sees everything appended exactly when the file was clean before (or nothing was appended). */
  lemma ReadableIffClean<T>(log: Log<T>, rows: seq<T>)
    ensures Read(AppendAll(log, rows)) == Read(log) + rows <==> rows == [] || Clean(log)
  {
    if Clean(log) {
      AppendAllClean(log, rows);
    } else if rows != [] {
      AppendAllUnclean(log, rows);
      assert |Read(AppendAll(log, rows))| < |Read(log) + rows|;
    }
  }

  /** The rows after a write, and whether the row is among them. */
  lemma WroteRows<T>(log: Log<T>, row: T, write: Write)
    ensures forall r :: r in Rows(Wrote(log, row, write)) ==> r in Rows(log) || r == row
    ensures log.tail.Ended? ==> (row in Rows(Wrote(log, row, write)) <==>
      write.Written? || write.UnendedWrite? || row in Rows(log))
    ensures log.lines <= Wrote(log, row, write).lines
  {
    RowsAppend(log, row);
  }

  lemma WroteKeeps<T>(log: Log<T>, row: T, write: Write)
    requires log.tail.Ended?
    ensures Rows(log) <= Rows(Wrote(log, row, write))
  {
    RowsAppend(log, row);
  }

  // ---------------------------------------------------------------- files that only grow

  /** A file only grows.  Once it is not clean it never is again, and none of the lines it gets are ever read. */
  ghost predicate Grows<T>(before: Log<T>, after: Log<T>) {
    && before.lines <= after.lines
    && (!Clean(before) ==>
         !Clean(after) && UpToJunk(after.lines) == UpToJunk(before.lines) && (before.lines == after.lines || !Sound(after.lines)))
  }

  lemma GrowsNot<T>(log: Log<T>)
    ensures Grows(log, log)
  {
  }

  lemma GrowsOn<T>(first: Log<T>, mid: Log<T>, last: Log<T>)
    requires Grows(first, mid) && Grows(mid, last)
    ensures Grows(first, last)
  {
    hide Clean, UpToJunk;
  }

  lemma GrowsByAll<T>(log: Log<T>, rows: seq<T>)
    ensures Grows(log, AppendAll(log, rows))
  {
    AppendAllExtends(log, rows);
    if !Clean(log) && rows != [] {
      AppendAllUnclean(log, rows);
    }
  }

  lemma GrowsByOne<T>(log: Log<T>, row: T, write: Write)
    ensures Grows(log, Wrote(log, row, write))
    ensures write.Unwritten? && Clean(log) ==> Clean(Wrote(log, row, write))
  {
    if write.Written? {
      assert [row][..0] == [];
      assert AppendAll(log, [row]) == Append(log, row);
      GrowsByAll(log, [row]);
    }
  }

  lemma GrowsByCut<T>(log: Log<T>, rows: seq<T>, whole: nat, write: Write)
    ensures Grows(log, AppendCut(log, rows, whole, write))
    ensures (whole >= |rows| || write.Unwritten?) && Clean(log) ==> Clean(AppendCut(log, rows, whole, write))
  {
    hide Grows, Clean, AppendAll, Wrote;
    if whole >= |rows| {
      GrowsByAll(log, rows);
      CleanStays(log, rows);
    } else {
      var most := AppendAll(log, rows[..whole]);
      GrowsByAll(log, rows[..whole]);
      CleanStays(log, rows[..whole]);
      GrowsByOne(most, rows[whole], write);
      GrowsOn(log, most, Wrote(most, rows[whole], write));
    }
  }

  lemma ReadBegins<T>(log: Log<T>)
    ensures UpToJunk(log.lines) <= Read(log)
  {
  }

  lemma AppendAllLonger<T>(log: Log<T>, rows: seq<T>)
    requires rows != []
    ensures |AppendAll(log, rows).lines| > |log.lines|
  {
    AppendAllExtends(log, rows[..|rows| - 1]);
  }
}
