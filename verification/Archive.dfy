/** Row counts of a backup archive: from the recorded counts, or by reading the tables. */
module Archive {
  import opened Common
  import opened Summation

  const NEWLINE: Byte := 10
  const BUFFER: nat := 131072

  // ----- Lines -----

  function Newlines(s: seq<Byte>): nat {
    if s == [] then 0 else Newlines(s[..|s| - 1]) + if s[|s| - 1] == NEWLINE then 1 else 0
  }

  function Unterminated(s: seq<Byte>): bool {
    s != [] && s[|s| - 1] != NEWLINE
  }

  function Rows(s: seq<Byte>): nat {
    Newlines(s) + if Unterminated(s) then 1 else 0
  }

  lemma {:induction false} NewlinesConcat(a: seq<Byte>, b: seq<Byte>)
    ensures Newlines(a + b) == Newlines(a) + Newlines(b)
  {
    if b == [] {
      assert a + b == a;
    } else {
      NewlinesConcat(a, b[..|b| - 1]);
      assert (a + b)[..|a + b| - 1] == a + b[..|b| - 1];
    }
  }

  type Line = seq<Byte>

  /** The terminated lines, and what follows the last newline. */
  function Split(s: seq<Byte>): (seq<Line>, Line) {
    if s == [] then ([], [])
    else
      var (lines, rest) := Split(s[..|s| - 1]);
      if s[|s| - 1] == NEWLINE then (lines + [rest], []) else (lines, rest + [s[|s| - 1]])
  }

  function Lines(s: seq<Byte>): seq<Line> {
    var (lines, rest) := Split(s);
    if rest == [] then lines else lines + [rest]
  }

  /** The row count is the number of lines, whether or not the last one is terminated. */
  lemma {:induction false} RowsAreLines(s: seq<Byte>)
    ensures Rows(s) == |Lines(s)|
    ensures |Split(s).0| == Newlines(s) && (Split(s).1 != [] <==> Unterminated(s))
  {
    if s != [] {
      RowsAreLines(s[..|s| - 1]);
    }
  }

  predicate NewlineFree(line: Line) {
    forall i :: 0 <= i < |line| ==> line[i] != NEWLINE
  }

  /** A table file: one value per line. */
  function Written(values: seq<Line>): seq<Byte> {
    if values == [] then [] else Written(values[..|values| - 1]) + values[|values| - 1] + [NEWLINE]
  }

  lemma {:induction false} SplitExtends(s: seq<Byte>, line: Line)
    requires NewlineFree(line)
    ensures Split(s + line) == (Split(s).0, Split(s).1 + line)
  {
    if line == [] {
      assert s + line == s && Split(s).1 + line == Split(s).1;
    } else {
      SplitExtends(s, line[..|line| - 1]);
      assert (s + line)[..|s + line| - 1] == s + line[..|line| - 1];
      assert (Split(s).1 + line[..|line| - 1]) + [line[|line| - 1]] == Split(s).1 + line;
    }
  }

  /** Reading back a table gives the values that were written. */
  lemma {:induction false} WrittenReadsBack(values: seq<Line>)
    requires forall i :: 0 <= i < |values| ==> NewlineFree(values[i])
    ensures Split(Written(values)) == (values, []) && Lines(Written(values)) == values
    ensures Rows(Written(values)) == |values|
  {
    if values != [] {
      var init, last := values[..|values| - 1], values[|values| - 1];
      WrittenReadsBack(init);
      SplitExtends(Written(init), last);
      var body := Written(init) + last;
      assert Written(values) == body + [NEWLINE];
      assert Written(values)[..|Written(values)| - 1] == body;
      assert [] + last == last && init + [last] == values;
    }
    RowsAreLines(Written(values));
  }

  // ----- Reading in chunks -----

  datatype Outcome = More | EndOfFile | Broken

  /** One read: cancellation noticed before it, the bytes it delivers (possibly none), and its
      outcome. Bytes may come together with the end of the file. */
  datatype Read = Read(cancelled: bool, chunk: seq<Byte>, outcome: Outcome)

  /** A file as its reads; after the listed ones the end of the file is reported. */
  datatype File = Unopenable | Opened(stream: seq<Read>)

  datatype Failure =
    | OpenFailed | Cancelled | ReadFailed | BadCountsFile
    | InvalidCount(table: string) | MissingTable(table: string)

  datatype Result<T> = Ok(value: T) | Error(failure: Failure)

  /** The bytes a sequence of reads delivers. */
  function Delivered(stream: seq<Read>): Result<seq<Byte>> {
    if stream == [] then Ok([])
    else if stream[0].cancelled then Error(Cancelled)
    else match stream[0].outcome
      case EndOfFile => Ok(stream[0].chunk)
      case Broken => Error(ReadFailed)
      case More => Behind(stream[0].chunk, Delivered(stream[1..]))
  }

  function Behind(front: seq<Byte>, r: Result<seq<Byte>>): Result<seq<Byte>> {
    if r.Ok? then Ok(front + r.value) else r
  }

  /** A reader delivers at most a buffer at a time. */
  predicate Fits(stream: seq<Read>) {
    forall i :: 0 <= i < |stream| ==> |stream[i].chunk| <= BUFFER
  }

  method Fill(buffer: array<Byte>, chunk: seq<Byte>)
    requires |chunk| <= buffer.Length
    modifies buffer
    ensures buffer[..|chunk|] == chunk
  {
    for i := 0 to |chunk|
      invariant buffer[..i] == chunk[..i]
    {
      buffer[i] := chunk[i];
    }
  }

  method CountNewlines(buffer: array<Byte>, n: nat) returns (count: nat)
    requires n <= buffer.Length
    ensures count == Newlines(buffer[..n])
  {
    count := 0;
    for i := 0 to n
      invariant count == Newlines(buffer[..i])
    {
      assert buffer[..i + 1][..i] == buffer[..i];
      if buffer[i] == NEWLINE { count := count + 1; }
    }
  }

  function RowCount(file: File): Result<nat> {
    if file.Unopenable? then Error(OpenFailed)
    else match Delivered(file.stream)
      case Ok(content) => Ok(Rows(content))
      case Error(failure) => Error(failure)
  }

  /** What the loop keeps of the bytes seen so far. */
  ghost predicate Tallies(seen: seq<Byte>, rows: nat, readAny: bool, last: Byte) {
    && rows == Newlines(seen) && readAny == (seen != [])
    && (readAny ==> last == seen[|seen| - 1])
  }

  /** Takes in one chunk through the buffer. */
  method TakeChunk(buffer: array<Byte>, chunk: seq<Byte>, ghost seen: seq<Byte>, rows: nat, readAny: bool, last: Byte)
    returns (rows': nat, readAny': bool, last': Byte)
    requires |chunk| <= buffer.Length && Tallies(seen, rows, readAny, last)
    modifies buffer
    ensures Tallies(seen + chunk, rows', readAny', last')
  {
    rows', readAny', last' := rows, readAny, last;
    var n := |chunk|;
    Fill(buffer, chunk);
    if n > 0 {
      readAny' := true;
      last' := buffer[..n][n - 1];
      var count := CountNewlines(buffer, n);
      NewlinesConcat(seen, chunk);
      rows' := rows + count;
    } else {
      assert seen + chunk == seen;
    }
  }

  /** After `i` reads delivered `seen`, the rest of the stream completes it. */
  ghost predicate Progress(stream: seq<Read>, i: int, seen: seq<Byte>) {
    0 <= i <= |stream| && Delivered(stream) == Behind(seen, Delivered(stream[i..]))
  }

  lemma ProgressStarts(stream: seq<Read>)
    ensures Progress(stream, 0, [])
  {
    BehindNothing(Delivered(stream));
    assert stream[0..] == stream;
  }

  lemma ProgressEnds(stream: seq<Read>, seen: seq<Byte>)
    requires Progress(stream, |stream|, seen)
    ensures Delivered(stream) == Ok(seen)
  {
    assert seen + [] == seen;
  }

  /** What one read does to what remains to be delivered. */
  lemma ReadAdvances(stream: seq<Read>, i: nat, seen: seq<Byte>)
    requires i < |stream| && Progress(stream, i, seen)
    ensures var read := stream[i];
            if read.cancelled then Delivered(stream) == Error(Cancelled)
            else match read.outcome
              case EndOfFile => Delivered(stream) == Ok(seen + read.chunk)
              case Broken => Delivered(stream) == Error(ReadFailed)
              case More => Progress(stream, i + 1, seen + read.chunk)
  {
    assert stream[i..][1..] == stream[i + 1..];
    BehindTwice(seen, stream[i].chunk, Delivered(stream[i + 1..]));
  }

  /** Counts the rows of a file through one reused buffer. */
  method CountArchiveRows(file: File) returns (r: Result<nat>)
    requires file.Opened? ==> Fits(file.stream)
    ensures r == RowCount(file)
  {
    if file.Unopenable? { return Error(OpenFailed); }
    var buffer := new Byte[BUFFER];
    var rows, readAny, last := 0, false, NEWLINE;
    var i := 0;
    ghost var seen: seq<Byte> := [];
    ProgressStarts(file.stream);
    while i < |file.stream|
      invariant Progress(file.stream, i, seen)
      invariant Tallies(seen, rows, readAny, last)
    {
      var read := file.stream[i];
      ReadAdvances(file.stream, i, seen);
      if read.cancelled { return Error(Cancelled); }
      rows, readAny, last := TakeChunk(buffer, read.chunk, seen, rows, readAny, last);
      seen := seen + read.chunk;
      if read.outcome == EndOfFile {
        r := Finish(seen, rows, readAny, last);
        return;
      }
      if read.outcome == Broken { return Error(ReadFailed); }
      i := i + 1;
    }
    ProgressEnds(file.stream, seen);
    r := Finish(seen, rows, readAny, last);
  }

  /** Counts an unterminated last line. */
  method Finish(ghost seen: seq<Byte>, rows: nat, readAny: bool, last: Byte) returns (r: Result<nat>)
    requires Tallies(seen, rows, readAny, last)
    ensures r == Ok(Rows(seen))
  {
    return Ok(if readAny && last != NEWLINE then rows + 1 else rows);
  }

  lemma BehindNothing(r: Result<seq<Byte>>)
    ensures Behind([], r) == r
  {
    if r.Ok? { assert [] + r.value == r.value; }
  }

  lemma BehindTwice(a: seq<Byte>, b: seq<Byte>, r: Result<seq<Byte>>)
    ensures Behind(a, Behind(b, r)) == Behind(a + b, r)
  {
    if r.Ok? { assert a + (b + r.value) == (a + b) + r.value; }
  }

  function Chunks(stream: seq<Read>): seq<Byte> {
    if stream == [] then [] else stream[0].chunk + Chunks(stream[1..])
  }

  /** Nothing fails, and the end of the file may come with the last listed read. */
  predicate Complete(stream: seq<Read>) {
    forall i :: 0 <= i < |stream| ==>
      !stream[i].cancelled && (stream[i].outcome == More || (i == |stream| - 1 && stream[i].outcome == EndOfFile))
  }

  /** Without a failure the bytes delivered are the chunks one after the other, so any two ways
      of splitting a file deliver the same. */
  lemma {:induction false} CompleteDelivers(stream: seq<Read>)
    requires Complete(stream)
    ensures Delivered(stream) == Ok(Chunks(stream))
  {
    if stream != [] {
      var rest := stream[1..];
      assert forall i :: 0 <= i < |rest| ==> rest[i] == stream[i + 1];
      if stream[0].outcome == EndOfFile {
        assert rest == [];
        assert stream[0].chunk + [] == stream[0].chunk;
      } else {
        CompleteDelivers(rest);
      }
    }
  }

  /** However a table is split into reads (empty ones included, the last bytes together with the
      end of the file or before it), its values are counted. */
  lemma SplittingDoesNotMatter(stream: seq<Read>, values: seq<Line>)
    requires Delivered(stream) == Ok(Written(values))
    requires forall i :: 0 <= i < |values| ==> NewlineFree(values[i])
    ensures RowCount(Opened(stream)) == Ok(|values|)
  {
    WrittenReadsBack(values);
  }

  /** Reads that deliver without ending the file. */
  predicate Flowing(stream: seq<Read>) {
    forall i :: 0 <= i < |stream| ==> !stream[i].cancelled && stream[i].outcome == More
  }

  lemma {:induction false} DeliveredUpTo(before: seq<Read>, read: Read, after: seq<Read>)
    requires Flowing(before)
    ensures var d := Delivered(before + [read] + after);
            && (read.cancelled ==> d == Error(Cancelled))
            && (!read.cancelled && read.outcome == Broken ==> d == Error(ReadFailed))
            && (!read.cancelled && read.outcome == EndOfFile ==> d == Delivered(before + [read]))
  {
    if before == [] {
      assert before + [read] + after == [read] + after && before + [read] == [read];
    } else {
      DeliveredUpTo(before[1..], read, after);
      assert (before + [read] + after)[1..] == before[1..] + [read] + after;
      assert (before + [read])[1..] == before[1..] + [read];
    }
  }

  /** The first read that is cancelled or breaks is reported, whatever was delivered before; and
      what follows the end of the file is never read. */
  lemma FirstFailureIsReported(before: seq<Read>, read: Read, after: seq<Read>)
    requires Flowing(before)
    ensures var count := RowCount(Opened(before + [read] + after));
            && (read.cancelled ==> count == Error(Cancelled))
            && (!read.cancelled && read.outcome == Broken ==> count == Error(ReadFailed))
            && (!read.cancelled && read.outcome == EndOfFile ==> count == RowCount(Opened(before + [read])))
  {
    DeliveredUpTo(before, read, after);
  }

  // ----- Totals -----

  datatype Table = Table(name: string, streamed: bool)

  datatype Counts = Absent | Undecodable | Recorded(rows: map<string, int>)

  function RecordedRows(rows: map<string, int>, strict: bool): Table -> Result<int> {
    (t: Table) =>
      if t.name !in rows then if strict then Error(InvalidCount(t.name)) else Ok(0)
      else if rows[t.name] < 0 then Error(InvalidCount(t.name)) else Ok(rows[t.name])
  }

  function CountedRows(loaded: map<string, nat>, files: map<string, File>, strict: bool): Table -> Result<int> {
    (t: Table) =>
      if !t.streamed then Ok(if t.name in loaded then loaded[t.name] else 0)
      else if t.name !in files then if strict then Error(MissingTable(t.name)) else Ok(0)
      else match RowCount(files[t.name])
        case Ok(n) => Ok(n)
        case Error(failure) => Error(failure)
  }

  const INTEGERS: Monoid<int> := Monoid(0, (a: int, b: int) => a + b)

  function ValueOf<T>(of: T -> Result<int>): T -> int {
    (t: T) => if of(t).Ok? then of(t).value else 0
  }

  /** `r` is the sum over all tables, or the failure of the first table that fails. */
  ghost predicate IsTotal(tables: seq<Table>, of: Table -> Result<int>, r: Result<int>) {
    match r
    case Ok(total) =>
      && (forall i :: 0 <= i < |tables| ==> of(tables[i]).Ok?)
      && total == SumBy(tables, ValueOf(of), INTEGERS)
    case Error(failure) =>
      exists i :: 0 <= i < |tables| && of(tables[i]) == Error(failure) && forall j :: 0 <= j < i ==> of(tables[j]).Ok?
  }

  lemma TotalSnoc(tables: seq<Table>, i: nat, of: Table -> Result<int>, total: int)
    requires i < |tables| && IsTotal(tables[..i], of, Ok(total))
    ensures match of(tables[i])
            case Ok(n) => IsTotal(tables[..i + 1], of, Ok(total + n))
            case Error(failure) => IsTotal(tables, of, Error(failure))
  {
    assert tables[..i + 1] == tables[..i] + [tables[i]];
    SumSnoc(tables[..i], tables[i], ValueOf(of), INTEGERS);
    assert forall j :: 0 <= j < i ==> tables[..i][j] == tables[j];
  }

  method RecordedTotal(tables: seq<Table>, rows: map<string, int>, strict: bool) returns (r: Result<int>)
    ensures IsTotal(tables, RecordedRows(rows, strict), r)
    ensures r.Ok? <==> forall i :: 0 <= i < |tables| ==>
              (tables[i].name in rows ==> rows[tables[i].name] >= 0) && (strict ==> tables[i].name in rows)
    ensures r.Error? ==> exists i :: 0 <= i < |tables| && r.failure == InvalidCount(tables[i].name)
  {
    var total := 0;
    for i := 0 to |tables|
      invariant IsTotal(tables[..i], RecordedRows(rows, strict), Ok(total))
    {
      TotalSnoc(tables, i, RecordedRows(rows, strict), total);
      var name := tables[i].name;
      if name !in rows {
        if strict { return Error(InvalidCount(name)); }
        continue;
      }
      if rows[name] < 0 { return Error(InvalidCount(name)); }
      total := total + rows[name];
    }
    assert tables[..|tables|] == tables;
    return Ok(total);
  }

  method CountedTotal(tables: seq<Table>, loaded: map<string, nat>, files: map<string, File>, strict: bool)
    returns (r: Result<int>)
    requires forall name :: name in files && files[name].Opened? ==> Fits(files[name].stream)
    ensures IsTotal(tables, CountedRows(loaded, files, strict), r)
  {
    var total := 0;
    for i := 0 to |tables|
      invariant IsTotal(tables[..i], CountedRows(loaded, files, strict), Ok(total))
    {
      TotalSnoc(tables, i, CountedRows(loaded, files, strict), total);
      var name := tables[i].name;
      if !tables[i].streamed {
        total := total + if name in loaded then loaded[name] else 0;
        continue;
      }
      if name !in files {
        if strict { return Error(MissingTable(name)); }
        continue;
      }
      var rows := CountArchiveRows(files[name]);
      if rows.Error? { return Error(rows.failure); }
      total := total + rows.value;
    }
    assert tables[..|tables|] == tables;
    return Ok(total);
  }

  method ArchiveTotalRows(tables: seq<Table>, counts: Counts, loaded: map<string, nat>, files: map<string, File>,
                          strict: bool)
    returns (r: Result<int>)
    requires forall name :: name in files && files[name].Opened? ==> Fits(files[name].stream)
    ensures counts.Absent? ==> IsTotal(tables, CountedRows(loaded, files, strict), r)
    ensures counts.Undecodable? ==> r == Error(BadCountsFile)
    ensures counts.Recorded? ==> IsTotal(tables, RecordedRows(counts.rows, strict), r)
  {
    match counts
    case Undecodable => r := Error(BadCountsFile);
    case Recorded(rows) => r := RecordedTotal(tables, rows, strict);
    case Absent => r := CountedTotal(tables, loaded, files, strict);
  }

  /** The archive holds these values: small tables loaded, streamed ones as files of one
      newline-free value per line, split into reads in any way. */
  ghost predicate Archived(tables: seq<Table>, values: map<string, seq<Line>>, loaded: map<string, nat>,
                           files: map<string, File>)
  {
    forall i :: 0 <= i < |tables| ==>
      var name := tables[i].name;
      && name in values
      && (!tables[i].streamed ==> name in loaded && loaded[name] == |values[name]|)
      && (tables[i].streamed ==>
            && name in files && files[name].Opened? && Delivered(files[name].stream) == Ok(Written(values[name]))
            && forall j :: 0 <= j < |values[name]| ==> NewlineFree(values[name][j]))
  }

  ghost predicate CorrectCounts(tables: seq<Table>, values: map<string, seq<Line>>, rows: map<string, int>) {
    forall i :: 0 <= i < |tables| ==>
      tables[i].name in values && tables[i].name in rows && rows[tables[i].name] == |values[tables[i].name]|
  }

  lemma CountedAreRecorded(tables: seq<Table>, values: map<string, seq<Line>>, loaded: map<string, nat>,
                           files: map<string, File>, rows: map<string, int>, strict: bool, i: nat)
    requires Archived(tables, values, loaded, files) && CorrectCounts(tables, values, rows) && i < |tables|
    ensures CountedRows(loaded, files, strict)(tables[i]) == Ok(|values[tables[i].name]|)
    ensures RecordedRows(rows, strict)(tables[i]) == Ok(|values[tables[i].name]|)
  {
    if tables[i].streamed {
      SplittingDoesNotMatter(files[tables[i].name].stream, values[tables[i].name]);
    }
  }

  /** Counting an archive and trusting its correct recorded counts give the same total. */
  lemma CountingAgreesWithRecords(tables: seq<Table>, values: map<string, seq<Line>>, loaded: map<string, nat>,
                                  files: map<string, File>, rows: map<string, int>, strict: bool,
                                  counted: Result<int>, recorded: Result<int>)
    requires Archived(tables, values, loaded, files) && CorrectCounts(tables, values, rows)
    requires IsTotal(tables, CountedRows(loaded, files, strict), counted)
    requires IsTotal(tables, RecordedRows(rows, strict), recorded)
    ensures counted.Ok? && counted == recorded
  {
    forall i | 0 <= i < |tables|
      ensures CountedRows(loaded, files, strict)(tables[i]) == RecordedRows(rows, strict)(tables[i])
      ensures RecordedRows(rows, strict)(tables[i]).Ok?
    {
      CountedAreRecorded(tables, values, loaded, files, rows, strict, i);
    }
    SumOfMapped(tables, tables, ValueOf(CountedRows(loaded, files, strict)), ValueOf(RecordedRows(rows, strict)),
                INTEGERS);
  }

  /** What one table adds: its recorded rows; or the rows loaded, or the lines of its file. */
  lemma TableCountsFor(rows: map<string, int>, loaded: map<string, nat>, files: map<string, File>, strict: bool,
                       t: Table)
    ensures t.name in rows && rows[t.name] >= 0 ==> RecordedRows(rows, strict)(t) == Ok(rows[t.name])
    ensures t.name !in rows && !strict ==> RecordedRows(rows, strict)(t) == Ok(0)
    ensures !t.streamed && t.name in loaded ==> CountedRows(loaded, files, strict)(t) == Ok(loaded[t.name])
    ensures !t.streamed && t.name !in loaded ==> CountedRows(loaded, files, strict)(t) == Ok(0)
    ensures t.streamed && t.name !in files ==>
              CountedRows(loaded, files, strict)(t) == if strict then Error(MissingTable(t.name)) else Ok(0)
    ensures t.streamed && t.name in files && files[t.name].Unopenable? ==>
              CountedRows(loaded, files, strict)(t) == Error(OpenFailed)
    ensures t.streamed && t.name in files && files[t.name].Opened? && Delivered(files[t.name].stream).Ok? ==>
              CountedRows(loaded, files, strict)(t) == Ok(|Lines(Delivered(files[t.name].stream).value)|)
  {
    if t.streamed && t.name in files && files[t.name].Opened? && Delivered(files[t.name].stream).Ok? {
      RowsAreLines(Delivered(files[t.name].stream).value);
    }
  }
}
