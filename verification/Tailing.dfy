/** Transcript tailing: a watcher polls a growing JSON-lines file, keeps the unfinished last
    line, and feeds finished lines to an adapter that turns them into events. */
module Tailing {
  import opened Prelude
  import opened Runs
  import opened Text

  // ---- cutting a buffer at its last newline ----

  /** What follows the last newline. */
  function Unfinished(buffer: string): (r: string)
    ensures |r| <= |buffer| && r == buffer[|buffer| - |r|..]
    ensures '\n' !in r
    ensures EndsLine(buffer[..|buffer| - |r|])
  {
    if EndsLine(buffer) then ""
    else Unfinished(buffer[..|buffer| - 1]) + [buffer[|buffer| - 1]]
  }

  /** Everything up to and including the last newline. */
  function Finished(buffer: string): (r: string)
    ensures r + Unfinished(buffer) == buffer
    ensures EndsLine(r)
  {
    buffer[..|buffer| - |Unfinished(buffer)|]
  }

  lemma NoNewlineFrom(buffer: string, from: nat)
    requires from <= |buffer| && '\n' !in buffer[from..]
    ensures forall k :: from <= k < |buffer| ==> buffer[k] != '\n'
  {
    forall k | from <= k < |buffer|
      ensures buffer[k] != '\n'
    {
      assert buffer[from..][k - from] == buffer[k];
    }
  }

  predicate CutAt(buffer: string, at: nat)
    requires at <= |buffer|
  {
    EndsLine(buffer[..at]) && '\n' !in buffer[at..]
  }

  lemma CutNotBefore(buffer: string, a: nat, b: nat)
    requires a <= |buffer| && b <= |buffer| && CutAt(buffer, a) && CutAt(buffer, b)
    ensures b <= a
  {
    NoNewlineFrom(buffer, a);
    assert 0 < b ==> buffer[..b][|buffer[..b]| - 1] == buffer[b - 1];
  }

  /** The cut is the only one that leaves a whole number of lines and a newline-free rest. */
  lemma CutIsUnique(complete: string, pending: string)
    requires EndsLine(complete) && '\n' !in pending
    ensures Finished(complete + pending) == complete && Unfinished(complete + pending) == pending
  {
    var buffer := complete + pending;
    var at := |Finished(buffer)|;
    assert buffer[..|complete|] == complete && buffer[|complete|..] == pending;
    assert buffer[..at] == Finished(buffer) && buffer[at..] == Unfinished(buffer);
    CutNotBefore(buffer, at, |complete|);
    CutNotBefore(buffer, |complete|, at);
  }

  /** Position just after the last newline, or 0. */
  method SplitCompleteJsonl(buffer: string) returns (complete: string, pending: string)
    ensures complete == Finished(buffer) && pending == Unfinished(buffer)
  {
    if buffer != "" && buffer[|buffer| - 1] == '\n' {
      complete, pending := buffer, "";
    } else {
      var cut := |buffer|;
      while 0 < cut && buffer[cut - 1] != '\n'
        invariant 0 <= cut <= |buffer|
        invariant '\n' !in buffer[cut..]
      {
        cut := cut - 1;
        assert buffer[cut..] == [buffer[cut]] + buffer[cut + 1..];
      }
      complete, pending := buffer[..cut], buffer[cut..];
    }
    assert complete + pending == buffer;
    CutIsUnique(complete, pending);
  }

  /** Reading more continues the unfinished line and nothing else. */
  lemma CutContinues(text: string, chunk: string)
    ensures Finished(text + chunk) == Finished(text) + Finished(Unfinished(text) + chunk)
    ensures Unfinished(text + chunk) == Unfinished(Unfinished(text) + chunk)
  {
    var buffer := Unfinished(text) + chunk;
    SameFront(Finished(text), Unfinished(text), chunk, Finished(buffer), Unfinished(buffer));
    EndsLineAppend(Finished(text), Finished(buffer));
    CutIsUnique(Finished(text) + Finished(buffer), Unfinished(buffer));
  }

  lemma SameFront(a: string, b: string, c: string, d: string, e: string)
    requires b + c == d + e
    ensures (a + b) + c == (a + d) + e
  {
    assert (a + b) + c == a + (b + c) && (a + d) + e == a + (d + e);
  }

  lemma EndsLineAppend(a: string, b: string)
    requires EndsLine(a) && EndsLine(b)
    ensures EndsLine(a + b)
  {
  }

  // ---- importing lines ----

  /** What one line does: the adapter's new state, and an event, a filtered event, or nothing
      (unparsable lines and lines that carry no event). */
  datatype LineResult<S, E> = Skip(state: S) | FilterOut(state: S) | Emit(state: S, event: E)

  /** The adapter and the classifier of processor-owned transcripts, left abstract. */
  datatype Adapter<!S, !E> = Adapter(
    ingest: (S, string) -> LineResult<S, E>,
    owned: (S, string) -> bool,
    confirmed: (S, string) -> bool,
    decodable: string -> bool)

  datatype Import<S, E> = Import(state: S, posted: seq<E>, filtered: nat)

  function ImportLine<S, E>(adapter: Adapter<S, E>): (Import<S, E>, string) -> Import<S, E> {
    (sofar: Import<S, E>, line: string) =>
      match adapter.ingest(sofar.state, line)
      case Skip(state) => sofar.(state := state)
      case FilterOut(state) => sofar.(state := state, filtered := sofar.filtered + 1)
      case Emit(state, event) => sofar.(state := state, posted := sofar.posted + [event])
  }

  /** Importing a whole text at once. */
  ghost function ImportText<S, E>(adapter: Adapter<S, E>, start: Import<S, E>, text: string): Import<S, E> {
    Run(ImportLine(adapter), start, CleanLines(text))
  }

  ghost function ImportPieces<S, E>(adapter: Adapter<S, E>, start: Import<S, E>, pieces: seq<string>): Import<S, E> {
    Run(ImportLine(adapter), start, Collect(pieces, Clean()))
  }

  lemma ImportPiecesStep<S, E>(adapter: Adapter<S, E>, start: Import<S, E>, pieces: seq<string>, i: nat)
    requires i < |pieces|
    ensures
      var sofar := ImportPieces(adapter, start, pieces[..i]);
      ImportPieces(adapter, start, pieces[..i + 1]) ==
        if Trim(pieces[i]) == "" then sofar else ImportLine(adapter)(sofar, Trim(pieces[i]))
  {
    var sofar, more := Collect(pieces[..i], Clean()), Clean()(pieces[i]);
    assert pieces[..i + 1][..i] == pieces[..i];
    assert Collect(pieces[..i + 1], Clean()) == sofar + more;
    if more == [] {
      assert sofar + more == sofar;
    } else {
      assert (sofar + more)[..|sofar|] == sofar;
    }
  }

  lemma ImportTextAppend<S, E>(adapter: Adapter<S, E>, start: Import<S, E>, a: string, b: string)
    requires EndsLine(a)
    ensures ImportText(adapter, start, a + b) == ImportText(adapter, ImportText(adapter, start, a), b)
  {
    CleanLinesAppend(a, b);
    RunAppend(ImportLine(adapter), start, CleanLines(a), CleanLines(b));
  }

  // ---- the watcher ----

  datatype Watch<S, E> = Watch(offset: nat, pending: string, imported: Import<S, E>, internal: bool)

  /** A file that shrank is read again from its start. */
  function Rewind<S, E>(w: Watch<S, E>, len: nat): Watch<S, E> {
    if len < w.offset then Watch(0, "", w.imported.(filtered := 0), false) else w
  }

  /** What is read from the offset to the end of the file as it is then. */
  function ReadFrom(file: string, offset: nat): string {
    if offset <= |file| then file[offset..] else ""
  }

  /** One poll: the length of the file is asked first, its content read afterwards. */
  ghost function Poll<S, E>(adapter: Adapter<S, E>, before: Watch<S, E>, len: nat, file: string): Watch<S, E> {
    var w := Rewind(before, len);
    if len <= w.offset || !adapter.decodable(ReadFrom(file, w.offset)) then w
    else ReadTo(adapter, w, len, w.pending + ReadFrom(file, w.offset))
  }

  /** A poll during which the file does not change. */
  ghost function PollAtOnce<S, E>(adapter: Adapter<S, E>, w: Watch<S, E>, file: string): Watch<S, E> {
    Poll(adapter, w, |file|, file)
  }

  /** What a poll does with pending and new text, which together end at `offset`. */
  ghost function ReadTo<S, E>(adapter: Adapter<S, E>, w: Watch<S, E>, offset: nat, buffer: string): Watch<S, E> {
    var complete := Finished(buffer);
    var owned := adapter.owned(w.imported.state, complete);
    Watch(offset, Unfinished(buffer),
      if w.internal || owned then w.imported else ImportText(adapter, w.imported, complete),
      w.internal || (owned && adapter.confirmed(w.imported.state, complete)))
  }

  class Watcher<S, E> {
    const adapter: Adapter<S, E>
    var offset: nat
    var pending: string
    var state: S
    var filtered: nat
    ghost var posted: seq<E>
    var internal: bool

    /** The fields and the log of what was posted. */
    ghost function View(): Watch<S, E>
      reads this
    {
      Watch(offset, pending, Import(state, posted, filtered), internal)
    }

    constructor (adapter: Adapter<S, E>, offset: nat, state: S)
      ensures this.adapter == adapter
      ensures View() == Watch(offset, "", Import(state, [], 0), false)
    {
      this.adapter, this.offset, this.state := adapter, offset, state;
      pending, filtered, posted, internal := "", 0, [], false;
    }

    method ImportOne(line: string)
      modifies this`state, this`filtered, this`posted
      ensures View().imported == ImportLine(adapter)(old(View()).imported, line)
    {
      var result := adapter.ingest(state, line);
      state := result.state;
      match result
      case Skip(_) =>
      case FilterOut(_) => filtered := filtered + 1;
      case Emit(_, event) => posted := posted + [event];
    }

    method ImportChunk(input: string)
      modifies this`state, this`filtered, this`posted
      ensures View().imported == ImportText(adapter, old(View()).imported, input)
    {
      var pieces := Split(input, '\n');
      ghost var start := View().imported;
      for i := 0 to |pieces|
        invariant View().imported == ImportPieces(adapter, start, pieces[..i])
      {
        ImportPiecesStep(adapter, start, pieces, i);
        var line := Trim(pieces[i]);
        if line != "" {
          ImportOne(line);
        }
      }
      assert pieces[..|pieces|] == pieces;
    }

    method PollFile(len: nat, file: string)
      modifies this
      ensures View() == Poll(adapter, old(View()), len, file)
    {
      if len < offset {
        offset, pending, internal, filtered := 0, "", false, 0;
      }
      assert View() == Rewind(old(View()), len);
      if len <= offset || !adapter.decodable(ReadFrom(file, offset)) {
        return;
      }
      Read(len, pending + ReadFrom(file, offset));
    }

    method Read(end: nat, buffer: string)
      modifies this
      ensures View() == ReadTo(adapter, old(View()), end, buffer)
    {
      ghost var before := View();
      var complete, rest := SplitCompleteJsonl(buffer);
      offset, pending := end, rest;
      var owned := adapter.owned(state, complete);
      if internal || owned {
        internal := internal || adapter.confirmed(state, complete);
        assert View().imported == before.imported;
      } else {
        ImportChunk(complete);
        assert View().imported == ImportText(adapter, before.imported, complete);
      }
    }
  }

  // ---- polling a growing file ----

  ghost function PollAll<S, E>(adapter: Adapter<S, E>, start: Watch<S, E>, files: seq<string>): Watch<S, E> {
    if files == [] then start
    else PollAtOnce(adapter, PollAll(adapter, start, files[..|files| - 1]), files[|files| - 1])
  }

  /** The file is only ever appended to. */
  predicate Growing(files: seq<string>) {
    |files| > 1 ==>
      Growing(files[..|files| - 1]) && files[|files| - 2] <= files[|files| - 1]
  }

  /** No poll of the run sees a chunk that is classified as processor-owned. */
  ghost predicate NeverOwned<S, E>(adapter: Adapter<S, E>, start: Watch<S, E>, files: seq<string>) {
    files != [] ==>
      && NeverOwned(adapter, start, files[..|files| - 1])
      && !SeesOwned(adapter, PollAll(adapter, start, files[..|files| - 1]), files[|files| - 1])
  }

  predicate SeesOwned<S, E>(adapter: Adapter<S, E>, w: Watch<S, E>, file: string) {
    w.offset < |file| && adapter.decodable(file[w.offset..]) && adapter.owned(w.imported.state, Finished(w.pending + file[w.offset..]))
  }

  predicate Fresh<S, E>(start: Watch<S, E>) {
    start.pending == "" && !start.internal
  }

  /** The watcher stands exactly where one import of the text read so far would put it: all
      finished lines imported once and in order, the unfinished one pending. */
  ghost predicate ReadExactly<S, E>(adapter: Adapter<S, E>, start: Watch<S, E>, w: Watch<S, E>, file: string) {
    && start.offset <= w.offset <= |file|
    && w == Watch(w.offset, Unfinished(file[start.offset..w.offset]),
                  ImportText(adapter, start.imported, Finished(file[start.offset..w.offset])), false)
  }

  /** Importing the finished lines in two goes. */
  lemma ImportContinues<S, E>(adapter: Adapter<S, E>, start: Import<S, E>, text: string, chunk: string)
    ensures
      ImportText(adapter, start, Finished(text + chunk)) ==
      ImportText(adapter, ImportText(adapter, start, Finished(text)), Finished(Unfinished(text) + chunk))
  {
    CutContinues(text, chunk);
    ImportTextAppend(adapter, start, Finished(text), Finished(Unfinished(text) + chunk));
  }

  lemma SliceContinues(file: string, a: nat, b: nat)
    requires a <= b <= |file|
    ensures file[a..|file|] == file[a..b] + file[b..]
  {
  }

  lemma PollReadsOn<S, E>(adapter: Adapter<S, E>, start: Watch<S, E>, w: Watch<S, E>, file: string)
    requires ReadExactly(adapter, start, w, file)
    requires !SeesOwned(adapter, w, file)
    ensures ReadExactly(adapter, start, PollAtOnce(adapter, w, file), file)
    ensures adapter.decodable(file[w.offset..]) ==> PollAtOnce(adapter, w, file).offset == |file|
  {
    if w.offset < |file| && adapter.decodable(file[w.offset..]) {
      var text, chunk := file[start.offset..w.offset], file[w.offset..];
      SliceContinues(file, start.offset, w.offset);
      CutContinues(text, chunk);
      ImportContinues(adapter, start.imported, text, chunk);
      assert PollAtOnce(adapter, w, file) ==
        Watch(|file|, Unfinished(w.pending + chunk), ImportText(adapter, w.imported, Finished(w.pending + chunk)), false);
    } else {
      assert PollAtOnce(adapter, w, file) == w;
    }
  }

  lemma GrowthKeepsReading<S, E>(adapter: Adapter<S, E>, start: Watch<S, E>, w: Watch<S, E>, file: string, longer: string)
    requires ReadExactly(adapter, start, w, file) && file <= longer
    ensures ReadExactly(adapter, start, w, longer)
  {
    SliceOfPrefix(file, longer, start.offset, w.offset);
  }

  lemma SliceOfPrefix(file: string, longer: string, a: nat, b: nat)
    requires a <= b <= |file| && file <= longer
    ensures file[a..b] == longer[a..b]
  {
  }

  lemma StartReadsNothing<S, E>(adapter: Adapter<S, E>, start: Watch<S, E>, file: string)
    requires Fresh(start) && start.offset <= |file|
    ensures ReadExactly(adapter, start, start, file)
  {
    NoCleanLines();
    assert file[start.offset..start.offset] == "";
  }

  lemma {:induction false} BeforeLastPoll<S, E>(adapter: Adapter<S, E>, start: Watch<S, E>, files: seq<string>)
    requires files != [] && Growing(files) && NeverOwned(adapter, start, files)
    requires Fresh(start) && start.offset <= |files[0]|
    ensures ReadExactly(adapter, start, PollAll(adapter, start, files[..|files| - 1]), files[|files| - 1])
  {
    var n := |files| - 1;
    var past := files[..n];
    if n == 0 {
      StartReadsNothing(adapter, start, files[0]);
    } else {
      BeforeLastPoll(adapter, start, past);
      PollReadsOn(adapter, start, PollAll(adapter, start, past[..n - 1]), past[n - 1]);
      GrowthKeepsReading(adapter, start, PollAll(adapter, start, past), past[n - 1], files[n]);
    }
  }

  /** However the growth of the file is cut into polls, the watcher has read exactly the text
      up to its offset. */
  lemma TailingIsExact<S, E>(adapter: Adapter<S, E>, start: Watch<S, E>, files: seq<string>)
    requires files != [] && Growing(files) && NeverOwned(adapter, start, files)
    requires Fresh(start) && start.offset <= |files[0]|
    ensures ReadExactly(adapter, start, PollAll(adapter, start, files), files[|files| - 1])
  {
    BeforeLastPoll(adapter, start, files);
    PollReadsOn(adapter, start, PollAll(adapter, start, files[..|files| - 1]), files[|files| - 1]);
  }

  predicate Decodes<S, E>(adapter: Adapter<S, E>, w: Watch<S, E>, file: string) {
    w.offset <= |file| ==> adapter.decodable(file[w.offset..])
  }

  /** A last poll that can decode what it reads reaches the end of the file. */
  lemma DecodedPollReachesEnd<S, E>(adapter: Adapter<S, E>, start: Watch<S, E>, files: seq<string>)
    requires files != [] && Growing(files) && NeverOwned(adapter, start, files)
    requires Fresh(start) && start.offset <= |files[0]|
    requires Decodes(adapter, PollAll(adapter, start, files[..|files| - 1]), files[|files| - 1])
    ensures PollAll(adapter, start, files).offset == |files[|files| - 1]|
  {
    BeforeLastPoll(adapter, start, files);
    PollReadsOn(adapter, start, PollAll(adapter, start, files[..|files| - 1]), files[|files| - 1]);
  }

  /** The watcher's events and adapter state are those of one import of the finished lines
      from its start to the end of the file; the unfinished rest is pending. */
  ghost predicate ReadOnce<S, E>(adapter: Adapter<S, E>, start: Watch<S, E>, w: Watch<S, E>, file: string) {
    && start.offset <= |file|
    && w.offset == |file|
    && w.imported == ImportText(adapter, start.imported, Finished(file[start.offset..]))
    && Finished(file[start.offset..]) + w.pending == file[start.offset..]
    && '\n' !in w.pending
  }

  /** Chunk independence: any way of polling the file up to its end is one reading of it, and
      two such ways leave the same watcher. */
  lemma ChunkIndependence<S, E>(adapter: Adapter<S, E>, start: Watch<S, E>, files: seq<string>, others: seq<string>)
    requires files != [] && Growing(files) && NeverOwned(adapter, start, files)
    requires others != [] && Growing(others) && NeverOwned(adapter, start, others)
    requires Fresh(start) && start.offset <= |files[0]| && start.offset <= |others[0]|
    requires files[|files| - 1] == others[|others| - 1]
    requires PollAll(adapter, start, files).offset == PollAll(adapter, start, others).offset == |files[|files| - 1]|
    ensures PollAll(adapter, start, files) == PollAll(adapter, start, others)
    ensures ReadOnce(adapter, start, PollAll(adapter, start, files), files[|files| - 1])
  {
    TailingIsExact(adapter, start, files);
    TailingIsExact(adapter, start, others);
    EndIsReadOnce(adapter, start, PollAll(adapter, start, files), files[|files| - 1]);
  }

  lemma EndIsReadOnce<S, E>(adapter: Adapter<S, E>, start: Watch<S, E>, w: Watch<S, E>, file: string)
    requires ReadExactly(adapter, start, w, file) && w.offset == |file|
    ensures ReadOnce(adapter, start, w, file)
  {
    SliceToEnd(file, start.offset);
  }

  lemma SliceToEnd(file: string, a: nat)
    requires a <= |file|
    ensures file[a..|file|] == file[a..]
  {
  }

  // ---- files that grow during a poll ----

  /** The length a poll is told, and the content it reads afterwards. */
  datatype Reading = Reading(len: nat, file: string)

  ghost function PollReadings<S, E>(adapter: Adapter<S, E>, start: Watch<S, E>, readings: seq<Reading>): Watch<S, E> {
    if readings == [] then start
    else
      var n := |readings| - 1;
      Poll(adapter, PollReadings(adapter, start, readings[..n]), readings[n].len, readings[n].file)
  }

  /** The file is only ever appended to, between polls and during them. */
  predicate Appending(readings: seq<Reading>) {
    readings != [] ==>
      var n := |readings| - 1;
      && readings[n].len <= |readings[n].file|
      && (n > 0 ==>
           && Appending(readings[..n])
           && readings[n - 1].file <= readings[n].file && |readings[n - 1].file| <= readings[n].len)
  }

  /** The text a poll feeds to the watcher, when it reads at all. */
  function Chunk<S, E>(adapter: Adapter<S, E>, w: Watch<S, E>, reading: Reading): string {
    if reading.len <= w.offset || !adapter.decodable(ReadFrom(reading.file, w.offset)) then ""
    else ReadFrom(reading.file, w.offset)
  }

  /** All the text fed so far. */
  ghost function Fed<S, E>(adapter: Adapter<S, E>, start: Watch<S, E>, readings: seq<Reading>): string {
    if readings == [] then ""
    else
      var n := |readings| - 1;
      Fed(adapter, start, readings[..n]) + Chunk(adapter, PollReadings(adapter, start, readings[..n]), readings[n])
  }

  ghost predicate NoneOwned<S, E>(adapter: Adapter<S, E>, start: Watch<S, E>, readings: seq<Reading>) {
    readings != [] ==>
      var n := |readings| - 1;
      var w := PollReadings(adapter, start, readings[..n]);
      && NoneOwned(adapter, start, readings[..n])
      && Unowned(adapter, w, readings[n])
  }

  /** What the poll reads is not classified as processor-owned. */
  predicate Unowned<S, E>(adapter: Adapter<S, E>, w: Watch<S, E>, reading: Reading) {
    Chunk(adapter, w, reading) != "" ==> !adapter.owned(w.imported.state, Finished(w.pending + Chunk(adapter, w, reading)))
  }

  /** The watcher stands where one import of a text would put it. */
  ghost predicate StandsAfter<S, E>(w: Watch<S, E>, imported: Import<S, E>, text: string) {
    w == Watch(w.offset, Unfinished(text), imported, false)
  }

  lemma ReadingsOneMore<S, E>(adapter: Adapter<S, E>, start: Watch<S, E>, past: seq<Reading>, last: Reading)
    ensures
      var w := PollReadings(adapter, start, past);
      && PollReadings(adapter, start, past + [last]) == Poll(adapter, w, last.len, last.file)
      && Fed(adapter, start, past + [last]) == Fed(adapter, start, past) + Chunk(adapter, w, last)
  {
    assert (past + [last])[..|past|] == past;
  }

  lemma AppendingFront(past: seq<Reading>, last: Reading)
    requires Appending(past + [last])
    ensures last.len <= |last.file|
    ensures past != [] ==>
      Appending(past) && past[|past| - 1].len <= last.len && past[|past| - 1].file <= last.file && (past + [last])[0] == past[0]
  {
    assert (past + [last])[..|past|] == past;
    if past != [] {
      assert (past + [last])[|past| - 1] == past[|past| - 1];
    }
  }

  lemma NoneOwnedFront<S, E>(adapter: Adapter<S, E>, start: Watch<S, E>, past: seq<Reading>, last: Reading)
    requires NoneOwned(adapter, start, past + [last])
    ensures NoneOwned(adapter, start, past) && Unowned(adapter, PollReadings(adapter, start, past), last)
  {
    assert (past + [last])[..|past|] == past;
  }

  lemma ReadToContinues<S, E>(adapter: Adapter<S, E>, start: Import<S, E>, w: Watch<S, E>, len: nat, text: string, chunk: string)
    requires StandsAfter(w, ImportText(adapter, start, Finished(text)), text)
    requires !adapter.owned(w.imported.state, Finished(w.pending + chunk))
    ensures ReadTo(adapter, w, len, w.pending + chunk) ==
      Watch(len, Unfinished(text + chunk), ImportText(adapter, start, Finished(text + chunk)), false)
  {
    CutContinues(text, chunk);
    ImportContinues(adapter, start, text, chunk);
  }

  lemma ChunkRead<S, E>(adapter: Adapter<S, E>, start: Import<S, E>, w: Watch<S, E>, reading: Reading, text: string)
    requires StandsAfter(w, ImportText(adapter, start, Finished(text)), text)
    requires w.offset <= reading.len && Chunk(adapter, w, reading) != "" && Unowned(adapter, w, reading)
    ensures
      var after, longer := Poll(adapter, w, reading.len, reading.file), text + Chunk(adapter, w, reading);
      StandsAfter(after, ImportText(adapter, start, Finished(longer)), longer) && after.offset == reading.len
  {
    var chunk := Chunk(adapter, w, reading);
    ReadToContinues(adapter, start, w, reading.len, text, chunk);
    PollReads(adapter, w, reading);
  }

  lemma PollReads<S, E>(adapter: Adapter<S, E>, w: Watch<S, E>, reading: Reading)
    requires w.offset <= reading.len && Chunk(adapter, w, reading) != ""
    ensures Poll(adapter, w, reading.len, reading.file) == ReadTo(adapter, w, reading.len, w.pending + Chunk(adapter, w, reading))
  {
  }

  lemma NothingRead<S, E>(adapter: Adapter<S, E>, w: Watch<S, E>, reading: Reading)
    requires w.offset <= reading.len <= |reading.file| && Chunk(adapter, w, reading) == ""
    ensures Poll(adapter, w, reading.len, reading.file) == w
  {
  }

  /** The watcher has imported what it was fed, and its offset is within the length told last. */
  ghost predicate FedImported<S, E>(adapter: Adapter<S, E>, start: Watch<S, E>, readings: seq<Reading>) {
    var w, text := PollReadings(adapter, start, readings), Fed(adapter, start, readings);
    && StandsAfter(w, ImportText(adapter, start.imported, Finished(text)), text)
    && start.offset <= w.offset
    && (if readings == [] then w.offset == start.offset else w.offset <= readings[|readings| - 1].len)
  }

  lemma ImportedOneMore<S, E>(adapter: Adapter<S, E>, start: Watch<S, E>, past: seq<Reading>, last: Reading)
    requires FedImported(adapter, start, past) && Unowned(adapter, PollReadings(adapter, start, past), last)
    requires PollReadings(adapter, start, past).offset <= last.len <= |last.file|
    ensures FedImported(adapter, start, past + [last])
  {
    var w, text := PollReadings(adapter, start, past), Fed(adapter, start, past);
    ReadingsOneMore(adapter, start, past, last);
    if Chunk(adapter, w, last) == "" {
      NothingRead(adapter, w, last);
      EmptyAfter(text);
    } else {
      ChunkRead(adapter, start.imported, w, last, text);
    }
  }

  lemma StartFedNothing<S, E>(adapter: Adapter<S, E>, start: Watch<S, E>)
    requires Fresh(start)
    ensures FedImported(adapter, start, [])
  {
    NoCleanLines();
    NothingFinished("");
  }

  /** Whatever is appended while polls read, the watcher has imported the finished lines of the
      text it was fed, once and in order, and keeps the unfinished one. */
  lemma {:induction false} FedIsImported<S, E>(adapter: Adapter<S, E>, start: Watch<S, E>, readings: seq<Reading>)
    requires Appending(readings) && NoneOwned(adapter, start, readings) && Fresh(start)
    requires readings != [] ==> start.offset <= readings[0].len
    ensures FedImported(adapter, start, readings)
  {
    if readings == [] {
      StartFedNothing(adapter, start);
    } else {
      var past, last := readings[..|readings| - 1], readings[|readings| - 1];
      assert past + [last] == readings;
      AppendingFront(past, last);
      NoneOwnedFront(adapter, start, past, last);
      FedIsImported(adapter, start, past);
      ImportedOneMore(adapter, start, past, last);
    }
  }

  /** No poll that reads finds more than the length it was told. */
  ghost predicate NothingInBetween<S, E>(adapter: Adapter<S, E>, start: Watch<S, E>, readings: seq<Reading>) {
    readings != [] ==>
      var n := |readings| - 1;
      && NothingInBetween(adapter, start, readings[..n])
      && (Chunk(adapter, PollReadings(adapter, start, readings[..n]), readings[n]) != "" ==> readings[n].len == |readings[n].file|)
  }

  /** The text fed against the text up to the offset: the same, or longer. */
  ghost predicate FedOnceOrLonger<S, E>(adapter: Adapter<S, E>, start: Watch<S, E>, readings: seq<Reading>, file: string) {
    var w, text := PollReadings(adapter, start, readings), Fed(adapter, start, readings);
    && start.offset <= w.offset <= |file|
    && (if NothingInBetween(adapter, start, readings) then text == file[start.offset..w.offset] else |text| > w.offset - start.offset)
  }

  /** One more chunk, on texts and numbers alone. */
  lemma ChunkGrows(file: string, from: nat, offset: nat, len: nat, text: string, once: bool)
    requires from <= offset < len <= |file|
    requires if once then text == file[from..offset] else |text| > offset - from
    ensures if once && len == |file| then text + file[offset..] == file[from..len] else |text + file[offset..]| > len - from
  {
    if once && len == |file| {
      SliceContinues(file, from, offset);
    }
  }

  lemma FedGrows<S, E>(adapter: Adapter<S, E>, start: Watch<S, E>, readings: seq<Reading>)
    requires readings != []
    requires FedOnceOrLonger(adapter, start, readings[..|readings| - 1], readings[|readings| - 1].file)
    requires
      var last := readings[|readings| - 1];
      PollReadings(adapter, start, readings[..|readings| - 1]).offset <= last.len <= |last.file|
    ensures FedOnceOrLonger(adapter, start, readings, readings[|readings| - 1].file)
  {
    var past, last := readings[..|readings| - 1], readings[|readings| - 1];
    var w, text := PollReadings(adapter, start, past), Fed(adapter, start, past);
    if Chunk(adapter, w, last) != "" {
      ChunkGrows(last.file, start.offset, w.offset, last.len, text, NothingInBetween(adapter, start, past));
      PollReads(adapter, w, last);
    } else {
      EmptyAfter(text);
      NothingRead(adapter, w, last);
    }
  }

  lemma NothingFed<S, E>(adapter: Adapter<S, E>, start: Watch<S, E>, file: string)
    requires start.offset <= |file|
    ensures FedOnceOrLonger(adapter, start, [], file)
  {
    assert file[start.offset..start.offset] == "";
  }

  lemma FedInLongerFile<S, E>(adapter: Adapter<S, E>, start: Watch<S, E>, readings: seq<Reading>, file: string, longer: string)
    requires FedOnceOrLonger(adapter, start, readings, file) && file <= longer
    ensures FedOnceOrLonger(adapter, start, readings, longer)
  {
    SliceOfPrefix(file, longer, start.offset, PollReadings(adapter, start, readings).offset);
  }

  lemma {:induction false} FedIsOnceOrLonger<S, E>(adapter: Adapter<S, E>, start: Watch<S, E>, readings: seq<Reading>)
    requires readings != [] && Appending(readings) && NoneOwned(adapter, start, readings) && Fresh(start)
    requires start.offset <= readings[0].len
    ensures FedOnceOrLonger(adapter, start, readings, readings[|readings| - 1].file)
  {
    var past, last := readings[..|readings| - 1], readings[|readings| - 1];
    assert past + [last] == readings;
    AppendingFront(past, last);
    NoneOwnedFront(adapter, start, past, last);
    if past == [] {
      NothingFed(adapter, start, last.file);
    } else {
      FedIsImported(adapter, start, past);
      FedIsOnceOrLonger(adapter, start, past);
      FedInLongerFile(adapter, start, past, past[|past| - 1].file, last.file);
    }
    FedGrows(adapter, start, readings);
  }

  /** Exactly: the text fed to the watcher is the text of the file up to its offset if and only
      if nothing was appended between the length and the content of a poll that reads. */
  lemma FedOnceIff<S, E>(adapter: Adapter<S, E>, start: Watch<S, E>, readings: seq<Reading>)
    requires readings != [] && Appending(readings) && NoneOwned(adapter, start, readings) && Fresh(start)
    requires start.offset <= readings[0].len
    ensures
      var w, file := PollReadings(adapter, start, readings), readings[|readings| - 1].file;
      && start.offset <= w.offset <= |file|
      && (Fed(adapter, start, readings) == file[start.offset..w.offset] <==> NothingInBetween(adapter, start, readings))
  {
    FedIsOnceOrLonger(adapter, start, readings);
  }

  // ---- runs with processor-owned chunks ----

  /** The finished lines a poll finds, given all the text fed before it. */
  function FinishedBy<S, E>(adapter: Adapter<S, E>, w: Watch<S, E>, reading: Reading, fed: string): string {
    Finished(Unfinished(fed) + Chunk(adapter, w, reading))
  }

  predicate OwnedAt<S, E>(adapter: Adapter<S, E>, w: Watch<S, E>, reading: Reading, fed: string) {
    Chunk(adapter, w, reading) != "" && adapter.owned(w.imported.state, FinishedBy(adapter, w, reading, fed))
  }

  predicate ConfirmedAt<S, E>(adapter: Adapter<S, E>, w: Watch<S, E>, reading: Reading, fed: string) {
    OwnedAt(adapter, w, reading, fed) && adapter.confirmed(w.imported.state, FinishedBy(adapter, w, reading, fed))
  }

  /** The finished lines that polls found while the watcher was not internal and that were not
      classified as processor-owned. */
  ghost function Importable<S, E>(adapter: Adapter<S, E>, start: Watch<S, E>, readings: seq<Reading>): string {
    if readings == [] then ""
    else
      var n := |readings| - 1;
      var past := readings[..n];
      var w, fed := PollReadings(adapter, start, past), Fed(adapter, start, past);
      Importable(adapter, start, past) +
      if w.internal || OwnedAt(adapter, w, readings[n], fed) then "" else FinishedBy(adapter, w, readings[n], fed)
  }

  /** Some poll found an owned chunk that was confirmed. */
  ghost predicate ConfirmedSometime<S, E>(adapter: Adapter<S, E>, start: Watch<S, E>, readings: seq<Reading>) {
    readings != [] &&
    var n := |readings| - 1;
    || ConfirmedSometime(adapter, start, readings[..n])
    || ConfirmedAt(adapter, PollReadings(adapter, start, readings[..n]), readings[n], Fed(adapter, start, readings[..n]))
  }

  /** The offset is the last length at which something was read. */
  ghost function LastLength<S, E>(adapter: Adapter<S, E>, start: Watch<S, E>, readings: seq<Reading>): nat {
    if readings == [] then start.offset
    else
      var n := |readings| - 1;
      if Chunk(adapter, PollReadings(adapter, start, readings[..n]), readings[n]) == "" then LastLength(adapter, start, readings[..n])
      else readings[n].len
  }

  /** Everything about the watcher, from the text it was fed, the text of it that was importable,
      the last length, and whether an owned chunk was confirmed. */
  ghost predicate Stands<S, E>(adapter: Adapter<S, E>, start: Watch<S, E>, w: Watch<S, E>, len: nat, fed: string, text: string, confirmed: bool) {
    && w.offset == len && start.offset <= w.offset
    && w.pending == Unfinished(fed)
    && w.imported == ImportText(adapter, start.imported, text) && EndsLine(text)
    && (w.internal <==> confirmed)
  }

  ghost predicate Told<S, E>(adapter: Adapter<S, E>, start: Watch<S, E>, readings: seq<Reading>) {
    Stands(adapter, start, PollReadings(adapter, start, readings), LastLength(adapter, start, readings),
           Fed(adapter, start, readings), Importable(adapter, start, readings), ConfirmedSometime(adapter, start, readings))
  }

  lemma ReadToOwned<S, E>(adapter: Adapter<S, E>, w: Watch<S, E>, len: nat, buffer: string)
    ensures
      var after, complete := ReadTo(adapter, w, len, buffer), Finished(buffer);
      && after.offset == len && after.pending == Unfinished(buffer)
      && after.imported == (if w.internal || adapter.owned(w.imported.state, complete) then w.imported
                            else ImportText(adapter, w.imported, complete))
      && (after.internal <==> w.internal || (adapter.owned(w.imported.state, complete) && adapter.confirmed(w.imported.state, complete)))
  {
  }

  lemma NothingFinishedInRest(text: string)
    ensures Finished(Unfinished(text) + "") == ""
  {
    EmptyAfter(Unfinished(text));
    NothingFinished(Unfinished(text));
  }

  lemma StandsWithoutReading<S, E>(
      adapter: Adapter<S, E>, start: Watch<S, E>, w: Watch<S, E>, fed: string, text: string, confirmed: bool, reading: Reading)
    requires Stands(adapter, start, w, w.offset, fed, text, confirmed)
    requires w.offset <= reading.len <= |reading.file| && Chunk(adapter, w, reading) == ""
    ensures
      var more := text + if w.internal || OwnedAt(adapter, w, reading, fed) then "" else FinishedBy(adapter, w, reading, fed);
      Stands(adapter, start, Poll(adapter, w, reading.len, reading.file), w.offset, fed + "", more,
             confirmed || ConfirmedAt(adapter, w, reading, fed))
  {
    NothingRead(adapter, w, reading);
    EmptyAfter(fed);
    EmptyAfter(text);
    NothingFinishedInRest(fed);
  }

  lemma OneReading<S, E>(adapter: Adapter<S, E>, start: Import<S, E>, w: Watch<S, E>, len: nat, fed: string, text: string, chunk: string)
    requires w.pending == Unfinished(fed) && w.imported == ImportText(adapter, start, text) && EndsLine(text)
    ensures
      var after, complete := ReadTo(adapter, w, len, w.pending + chunk), Finished(Unfinished(fed) + chunk);
      var owned := adapter.owned(w.imported.state, complete);
      var more := text + if w.internal || owned then "" else complete;
      && after.offset == len && after.pending == Unfinished(fed + chunk)
      && after.imported == ImportText(adapter, start, more) && EndsLine(more)
      && (after.internal <==> w.internal || (owned && adapter.confirmed(w.imported.state, complete)))
  {
    var complete := Finished(Unfinished(fed) + chunk);
    ReadToOwned(adapter, w, len, w.pending + chunk);
    CutContinues(fed, chunk);
    EmptyAfter(text);
    ImportTextAppend(adapter, start, text, complete);
    EndsLineAppend(text, complete);
  }

  lemma StandsWithReading<S, E>(
      adapter: Adapter<S, E>, start: Watch<S, E>, w: Watch<S, E>, fed: string, text: string, confirmed: bool, reading: Reading)
    requires Stands(adapter, start, w, w.offset, fed, text, confirmed)
    requires w.offset <= reading.len <= |reading.file| && Chunk(adapter, w, reading) != ""
    ensures
      var more := text + if w.internal || OwnedAt(adapter, w, reading, fed) then "" else FinishedBy(adapter, w, reading, fed);
      Stands(adapter, start, Poll(adapter, w, reading.len, reading.file), reading.len, fed + Chunk(adapter, w, reading), more,
             confirmed || ConfirmedAt(adapter, w, reading, fed))
  {
    PollReads(adapter, w, reading);
    OneReading(adapter, start.imported, w, reading.len, fed, text, Chunk(adapter, w, reading));
  }

  lemma ToldOneMore<S, E>(adapter: Adapter<S, E>, start: Watch<S, E>, readings: seq<Reading>)
    requires readings != [] && Told(adapter, start, readings[..|readings| - 1])
    requires
      var last := readings[|readings| - 1];
      PollReadings(adapter, start, readings[..|readings| - 1]).offset <= last.len <= |last.file|
    ensures Told(adapter, start, readings)
  {
    var past, last := readings[..|readings| - 1], readings[|readings| - 1];
    var w, fed := PollReadings(adapter, start, past), Fed(adapter, start, past);
    var text, confirmed := Importable(adapter, start, past), ConfirmedSometime(adapter, start, past);
    if Chunk(adapter, w, last) == "" {
      StandsWithoutReading(adapter, start, w, fed, text, confirmed, last);
    } else {
      StandsWithReading(adapter, start, w, fed, text, confirmed, last);
    }
  }

  lemma {:induction false} OffsetWithinLength<S, E>(adapter: Adapter<S, E>, start: Watch<S, E>, readings: seq<Reading>)
    requires Appending(readings) && (readings != [] ==> start.offset <= readings[0].len)
    ensures
      var w := PollReadings(adapter, start, readings);
      if readings == [] then w == start else w.offset <= readings[|readings| - 1].len
  {
    if readings != [] {
      var past, last := readings[..|readings| - 1], readings[|readings| - 1];
      assert past + [last] == readings;
      AppendingFront(past, last);
      OffsetWithinLength(adapter, start, past);
    }
  }

  /** For every run of polls of a file that is appended to, with owned chunks or without: the
      offset and the pending line follow all that was read; what is imported is the finished
      lines of exactly the polls that met a watcher not yet internal and were not owned; and
      the watcher is internal exactly when some owned chunk was confirmed. */
  lemma {:induction false} OwnedChunksAreSkipped<S, E>(adapter: Adapter<S, E>, start: Watch<S, E>, readings: seq<Reading>)
    requires Appending(readings) && Fresh(start) && (readings != [] ==> start.offset <= readings[0].len)
    ensures Told(adapter, start, readings)
  {
    if readings == [] {
      NoCleanLines();
      NothingFinished("");
    } else {
      var past, last := readings[..|readings| - 1], readings[|readings| - 1];
      assert past + [last] == readings;
      AppendingFront(past, last);
      OwnedChunksAreSkipped(adapter, start, past);
      OffsetWithinLength(adapter, start, past);
      ToldOneMore(adapter, start, readings);
    }
  }

  /** Once internal, the watcher imports nothing more, however the file grows. */
  lemma {:induction false} InternalImportsNothing<S, E>(adapter: Adapter<S, E>, start: Watch<S, E>, readings: seq<Reading>, more: seq<Reading>)
    requires Appending(readings + more) && Fresh(start) && (readings + more != [] ==> start.offset <= (readings + more)[0].len)
    requires PollReadings(adapter, start, readings).internal
    ensures PollReadings(adapter, start, readings + more).internal
    ensures PollReadings(adapter, start, readings + more).imported == PollReadings(adapter, start, readings).imported
  {
    if more == [] {
      EmptyAfter(readings);
    } else {
      var front, last := more[..|more| - 1], more[|more| - 1];
      Regroup(readings, front, [last]);
      assert front + [last] == more;
      AppendingFront(readings + front, last);
      if readings + front != [] {
        InternalImportsNothing(adapter, start, readings, front);
        OffsetWithinLength(adapter, start, readings + front);
      }
      ReadingsOneMore(adapter, start, readings + front, last);
      InternalPoll(adapter, PollReadings(adapter, start, readings + front), last);
    }
  }

  lemma InternalPoll<S, E>(adapter: Adapter<S, E>, w: Watch<S, E>, reading: Reading)
    requires w.internal && w.offset <= reading.len
    ensures Poll(adapter, w, reading.len, reading.file).internal
    ensures Poll(adapter, w, reading.len, reading.file).imported == w.imported
  {
  }

  /** A file that is shorter than the offset is taken up from its start: nothing pending, no
      longer internal, the filtered count at zero; events and adapter state stay. The poll then
      goes on as one of a watcher in that position. */
  lemma ShrunkFileRestarts<S, E>(adapter: Adapter<S, E>, w: Watch<S, E>, len: nat, file: string)
    requires len < w.offset
    ensures
      Poll(adapter, w, len, file) ==
      Poll(adapter, Watch(0, "", Import(w.imported.state, w.imported.posted, 0), false), len, file)
  {
  }

  /** A run of polls told from its readings alone: the last length read, all text read, the
      finished lines of it that were to be imported, and whether an owned chunk was confirmed. */
  datatype Tale = Tale(offset: nat, fed: string, text: string, confirmed: bool)

  /** A poll reads what stands behind the last length, unless the file has not grown or cannot
      be decoded. Its finished lines are imported unless an owned chunk was confirmed before or
      they are themselves classified as owned, by the state the imported lines left. */
  ghost function NextTale<S, E>(adapter: Adapter<S, E>, start: Import<S, E>, tale: Tale, reading: Reading): Tale {
    var chunk := ReadFrom(reading.file, tale.offset);
    if reading.len <= tale.offset || chunk == "" || !adapter.decodable(chunk) then tale
    else
      var lines, state := Finished(Unfinished(tale.fed) + chunk), ImportText(adapter, start, tale.text).state;
      var owned := adapter.owned(state, lines);
      Tale(reading.len, tale.fed + chunk,
           if tale.confirmed || owned then tale.text else tale.text + lines,
           tale.confirmed || (owned && adapter.confirmed(state, lines)))
  }

  ghost function TaleOf<S, E>(adapter: Adapter<S, E>, start: Watch<S, E>, readings: seq<Reading>): Tale {
    if readings == [] then Tale(start.offset, "", "", false)
    else NextTale(adapter, start.imported, TaleOf(adapter, start, readings[..|readings| - 1]), readings[|readings| - 1])
  }

  lemma NextTaleStands<S, E>(adapter: Adapter<S, E>, start: Watch<S, E>, w: Watch<S, E>, tale: Tale, reading: Reading)
    requires Stands(adapter, start, w, tale.offset, tale.fed, tale.text, tale.confirmed)
    ensures
      NextTale(adapter, start.imported, tale, reading) ==
      Tale(if Chunk(adapter, w, reading) == "" then tale.offset else reading.len,
           tale.fed + Chunk(adapter, w, reading),
           tale.text + if w.internal || OwnedAt(adapter, w, reading, tale.fed) then "" else FinishedBy(adapter, w, reading, tale.fed),
           tale.confirmed || ConfirmedAt(adapter, w, reading, tale.fed))
  {
    EmptyAfter(tale.fed);
    EmptyAfter(tale.text);
    NothingFinishedInRest(tale.fed);
  }

  lemma {:induction false} TaleIsTold<S, E>(adapter: Adapter<S, E>, start: Watch<S, E>, readings: seq<Reading>)
    requires Appending(readings) && Fresh(start) && (readings != [] ==> start.offset <= readings[0].len)
    ensures
      TaleOf(adapter, start, readings) ==
      Tale(LastLength(adapter, start, readings), Fed(adapter, start, readings),
           Importable(adapter, start, readings), ConfirmedSometime(adapter, start, readings))
  {
    if readings != [] {
      var past, last := readings[..|readings| - 1], readings[|readings| - 1];
      assert past + [last] == readings;
      AppendingFront(past, last);
      TaleIsTold(adapter, start, past);
      OwnedChunksAreSkipped(adapter, start, past);
      NextTaleStands(adapter, start, PollReadings(adapter, start, past), TaleOf(adapter, start, past), last);
    }
  }

  /** A fresh watcher that polls a file while it is appended to stands exactly where the tale of
      its readings says. */
  lemma PollsFollowTale<S, E>(adapter: Adapter<S, E>, start: Watch<S, E>, readings: seq<Reading>)
    requires Appending(readings) && Fresh(start) && (readings != [] ==> start.offset <= readings[0].len)
    ensures
      var tale := TaleOf(adapter, start, readings);
      PollReadings(adapter, start, readings) ==
      Watch(tale.offset, Unfinished(tale.fed), ImportText(adapter, start.imported, tale.text), tale.confirmed)
  {
    OwnedChunksAreSkipped(adapter, start, readings);
    TaleIsTold(adapter, start, readings);
  }

  // ---- starting in the middle of a file ----

  /** The rest of a line that the offset cuts, up to the next newline. */
  function LineRest(text: string): string {
    Cut(text, '\n').0
  }

  /** Nothing but whitespace stands between the last newline and the offset, or between the
      offset and a newline that follows. */
  predicate SplitsNoLine(file: string, offset: nat)
    requires offset <= |file|
  {
    || Trim(Unfinished(file[..offset])) == ""
    || ('\n' in file[offset..] && Trim(LineRest(file[offset..])) == "")
  }

  /** The lines a watcher sees that imports the file up to the offset and tails from there. */
  function HistoryThenTailLines(file: string, offset: nat): seq<string>
    requires offset <= |file|
  {
    CleanLines(file[..offset]) + CleanLines(Finished(file[offset..]))
  }

  lemma PlainLine(line: string)
    requires '\n' !in line
    ensures CleanLines(line) == Clean()(line)
  {
    SplitPlain(line, '\n');
    assert [line][..0] == [];
    assert Collect([line], Clean()) == Collect([], Clean()) + Clean()(line);
  }

  /** Two pieces of a line are its lines exactly when one of them is blank. */
  lemma PiecesOfLine(before: string, rest: string)
    ensures Clean()(before) + Clean()(rest) == Clean()(before + rest) <==> Trim(before) == "" || Trim(rest) == ""
  {
    var first, second := Clean()(before), Clean()(rest);
    if Trim(before) == "" {
      BlankBefore(before, rest);
      assert first + second == second;
    } else if Trim(rest) == "" {
      BlankAfter(before, rest);
      assert first + second == first;
    } else {
      assert |first + second| == 2 && |Clean()(before + rest)| <= 1;
    }
  }

  lemma LinesOfParts(lines: string, open: string)
    requires EndsLine(lines) && '\n' !in open
    ensures CleanLines(lines + open) == CleanLines(lines) + Clean()(open)
    ensures CleanLines(Finished(lines + open)) == CleanLines(lines)
  {
    CleanLinesAppend(lines, open);
    PlainLine(open);
    CutIsUnique(lines, open);
  }

  lemma FinishedAfterLine(line: string, more: string)
    requires '\n' !in line
    ensures CleanLines(Finished(line + ['\n'] + more)) == Clean()(line) + CleanLines(Finished(more))
  {
    var done, open := Finished(more), Unfinished(more);
    Regroup(line + ['\n'], done, open);
    EndsLineAppend(line + ['\n'], done);
    CutIsUnique(line + ['\n'] + done, open);
    LineBreak(line, done);
    PlainLine(line);
  }

  lemma FinishedAfterLines(lines: string, more: string)
    requires EndsLine(lines)
    ensures CleanLines(Finished(lines + more)) == CleanLines(lines) + CleanLines(Finished(more))
  {
    var done, open := Finished(more), Unfinished(more);
    Regroup(lines, done, open);
    EndsLineAppend(lines, done);
    CutIsUnique(lines + done, open);
    CleanLinesAppend(lines, done);
  }

  /** No newline follows the offset: nothing is tailed, and the history shows its unfinished
      line early. */
  lemma LinesWithoutNewline(file: string, offset: nat)
    requires offset <= |file| && '\n' !in file[offset..]
    ensures
      var history := file[..offset];
      && HistoryThenTailLines(file, offset) == CleanLines(Finished(history)) + Clean()(Unfinished(history))
      && CleanLines(Finished(file)) == CleanLines(Finished(history))
  {
    var history, rest := file[..offset], file[offset..];
    var lines, before := Finished(history), Unfinished(history);
    LinesOfParts(lines, before);
    FileInParts(file, offset);
    LinesOfLongerPart(lines, before, rest);
    NothingFinished(rest);
    NoCleanLines();
  }

  lemma LinesOfLongerPart(lines: string, before: string, rest: string)
    requires EndsLine(lines) && '\n' !in before && '\n' !in rest
    ensures CleanLines(Finished(lines + before + rest)) == CleanLines(lines)
  {
    Regroup(lines, before, rest);
    LinesOfParts(lines, before + rest);
  }

  lemma FileInParts(file: string, offset: nat)
    requires offset <= |file|
    ensures file == Finished(file[..offset]) + Unfinished(file[..offset]) + file[offset..]
  {
    assert file == file[..offset] + file[offset..];
  }

  lemma NothingFinished(text: string)
    requires '\n' !in text
    ensures Finished(text) == ""
  {
    assert "" + text == text;
    CutIsUnique("", text);
  }

  /** A newline follows: the two parts of the line it ends are seen apart. */
  lemma LinesWithNewline(file: string, offset: nat)
    requires offset <= |file| && '\n' in file[offset..]
    ensures
      var history, rest := file[..offset], file[offset..];
      var head, tail := CleanLines(Finished(history)), CleanLines(Finished(Cut(rest, '\n').1));
      && HistoryThenTailLines(file, offset) == head + (Clean()(Unfinished(history)) + Clean()(LineRest(rest))) + tail
      && CleanLines(Finished(file)) == head + Clean()(Unfinished(history) + LineRest(rest)) + tail
  {
    var history, rest := file[..offset], file[offset..];
    var lines, before := Finished(history), Unfinished(history);
    var after, more := LineRest(rest), Cut(rest, '\n').1;
    LinesOfParts(lines, before);
    FinishedAfterLine(after, more);
    FinishedAfterLine(before + after, more);
    FileInParts(file, offset);
    LineAcross(lines, before, after, more);
    FinishedAfterLines(lines, before + after + ['\n'] + more);
    RegroupFour(CleanLines(lines), Clean()(before), Clean()(after), CleanLines(Finished(more)));
    Regroup(CleanLines(lines), Clean()(before + after), CleanLines(Finished(more)));
  }

  lemma LineAcross(lines: string, before: string, after: string, more: string)
    ensures lines + before + (after + ['\n'] + more) == lines + (before + after + ['\n'] + more)
  {
    assert before + (after + ['\n'] + more) == before + after + ['\n'] + more;
    Regroup(lines, before, after + ['\n'] + more);
  }

  lemma RegroupFour<T>(a: seq<T>, b: seq<T>, c: seq<T>, d: seq<T>)
    ensures (a + b) + (c + d) == a + (b + c) + d
  {
  }

  /** From any offset, the lines already in the file followed by the lines tailed later are the
      lines of the whole file if and only if the offset splits no line. */
  lemma HistoryThenTailExactly(file: string, offset: nat)
    requires offset <= |file|
    ensures HistoryThenTailLines(file, offset) == CleanLines(Finished(file)) <==> SplitsNoLine(file, offset)
  {
    var history, rest := file[..offset], file[offset..];
    var head, before := CleanLines(Finished(history)), Unfinished(history);
    if '\n' in rest {
      LinesWithNewline(file, offset);
      PiecesOfLine(before, LineRest(rest));
      Cancel(head, Clean()(before) + Clean()(LineRest(rest)), Clean()(before + LineRest(rest)), CleanLines(Finished(Cut(rest, '\n').1)));
    } else {
      LinesWithoutNewline(file, offset);
      assert Clean()(before) == [] <==> Trim(before) == "";
    }
  }

  /** An offset inside the first line: the watcher sees its two parts as two lines. */
  lemma MidLineStartSplitsLine(file: string, left: string, right: string)
    requires file == left + (right + ['\n'])
    requires left != "" && right != "" && Trimmed(left) && Trimmed(right) && '\n' !in left && '\n' !in right
    ensures HistoryThenTailLines(file, |left|) == [left, right]
    ensures CleanLines(Finished(file)) == Clean()(left + right)
    ensures !SplitsNoLine(file, |left|)
  {
    assert file[..|left|] == left && file[|left|..] == right + ['\n'];
    NothingFinished(left);
    OneLineRest(right);
    OnlyLine(file, |left|, left, right);
    TrimmedPiece(left);
    TrimmedPiece(right);
    assert (right + ['\n'])[|right|] == '\n';
    assert [left] + [right] == [left, right];
  }

  lemma TrimmedPiece(piece: string)
    requires piece != "" && Trimmed(piece)
    ensures Trim(piece) == piece && Clean()(piece) == [piece]
  {
  }

  lemma OnlyLine(file: string, offset: nat, before: string, after: string)
    requires offset <= |file| && '\n' in file[offset..]
    requires Finished(file[..offset]) == "" && Unfinished(file[..offset]) == before
    requires Cut(file[offset..], '\n') == (after, "")
    ensures HistoryThenTailLines(file, offset) == Clean()(before) + Clean()(after)
    ensures CleanLines(Finished(file)) == Clean()(before + after)
  {
    LinesWithNewline(file, offset);
    NoCleanLines();
    NothingFinished("");
    EmptySides(Clean()(before) + Clean()(after));
    EmptySides(Clean()(before + after));
  }

  lemma EmptySides<T>(s: seq<T>)
    ensures [] + s + [] == s
  {
  }

  lemma OneLineRest(line: string)
    requires '\n' !in line
    ensures Cut(line + ['\n'], '\n') == (line, "")
  {
    assert line + ['\n'] + "" == line + ['\n'];
    CutJoined(line, "", '\n');
  }

  lemma Cancel<T>(head: seq<T>, a: seq<T>, b: seq<T>, tail: seq<T>)
    ensures head + a + tail == head + b + tail <==> a == b
  {
    if head + a + tail == head + b + tail {
      assert a == (head + a + tail)[|head|..|head| + |a|];
      assert b == (head + b + tail)[|head|..|head| + |b|];
    }
  }

  /** From an offset that splits no line, importing the history and tailing from there is
      importing the whole file, for every adapter. */
  lemma HistoryThenTail<S, E>(adapter: Adapter<S, E>, start: Import<S, E>, file: string, offset: nat)
    requires offset <= |file| && SplitsNoLine(file, offset)
    ensures
      ImportText(adapter, ImportText(adapter, start, file[..offset]), Finished(file[offset..])) ==
      ImportText(adapter, start, Finished(file))
  {
    HistoryThenTailExactly(file, offset);
    RunAppend(ImportLine(adapter), start, CleanLines(file[..offset]), CleanLines(Finished(file[offset..])));
  }

  /** An adapter that reports every line as it comes. */
  function Recorder(): Adapter<(), string> {
    Adapter((state: (), line: string) => Emit(state, line), (state: (), text: string) => false,
            (state: (), text: string) => false, (text: string) => true)
  }

  lemma RecorderReports(sofar: Import<(), string>, line: string)
    ensures ImportLine(Recorder())(sofar, line) == sofar.(posted := sofar.posted + [line])
  {
    assert Recorder().ingest(sofar.state, line) == Emit(sofar.state, line);
  }

  lemma {:induction false} RecorderReportsLines(start: Import<(), string>, lines: seq<string>)
    ensures Run(ImportLine(Recorder()), start, lines) == start.(posted := start.posted + lines)
  {
    if lines == [] {
      assert start.posted + lines == start.posted;
    } else {
      var front, last := lines[..|lines| - 1], lines[|lines| - 1];
      RecorderReportsLines(start, front);
      RunLast(ImportLine(Recorder()), start, front, last);
      assert front + [last] == lines;
      Regroup(start.posted, front, [last]);
      RecorderReports(start.(posted := start.posted + front), last);
    }
  }

  /** The condition cannot be weakened: the recorder tells every other offset apart. */
  lemma RecorderTellsSplits(start: Import<(), string>, file: string, offset: nat)
    requires offset <= |file|
    ensures
      ImportText(Recorder(), ImportText(Recorder(), start, file[..offset]), Finished(file[offset..])) ==
      ImportText(Recorder(), start, Finished(file)) <==>
      SplitsNoLine(file, offset)
  {
    var history, tail := CleanLines(file[..offset]), CleanLines(Finished(file[offset..]));
    HistoryThenTailExactly(file, offset);
    RunAppend(ImportLine(Recorder()), start, history, tail);
    RecorderReportsLines(start, history + tail);
    RecorderReportsLines(start, CleanLines(Finished(file)));
    CancelFront(start.posted, history + tail, CleanLines(Finished(file)));
  }

  lemma {:induction false} RecorderOwnsNothing(start: Watch<(), string>, readings: seq<Reading>)
    ensures NoneOwned(Recorder(), start, readings)
  {
    if readings != [] {
      RecorderOwnsNothing(start, readings[..|readings| - 1]);
    }
  }

  lemma FirstReading(a: string, e: string, start: Watch<(), string>)
    requires start == Watch(0, "", start.imported, false) && a != ""
    ensures PollReadings(Recorder(), start, [Reading(|a|, a + e)]).offset == |a|
    ensures Fed(Recorder(), start, [Reading(|a|, a + e)]) == a + e
  {
    ReadingsOneMore(Recorder(), start, [], Reading(|a|, a + e));
    assert [] + [Reading(|a|, a + e)] == [Reading(|a|, a + e)];
    assert (a + e)[0..] == a + e && "" + (a + e) == a + e;
  }

  lemma TwoReadings(a: string, e: string, b: string, start: Watch<(), string>)
    requires start == Watch(0, "", start.imported, false) && a != "" && e + b != ""
    ensures
      var readings := [Reading(|a|, a + e), Reading(|a + e + b|, a + e + b)];
      Appending(readings) && Fed(Recorder(), start, readings) == (a + e) + (e + b)
  {
    var first, second := Reading(|a|, a + e), Reading(|a + e + b|, a + e + b);
    FirstReading(a, e, start);
    ReadingsOneMore(Recorder(), start, [first], second);
    assert [first] + [second] == [first, second] && [first, second][..1] == [first] && [first][..0] == [];
    Regroup(a, e, b);
    assert (a + (e + b))[|a|..] == e + b;
  }

  /** Whole lines appended between the length and the content of a poll are imported twice; it
      shows unless they are blank. */
  lemma LinesInBetweenComeTwice(a: string, e: string, b: string, start: Watch<(), string>)
    requires start == Watch(0, "", start.imported, false) && a != "" && e + b != ""
    requires EndsLine(a) && EndsLine(e) && EndsLine(b)
    ensures
      var w := PollReadings(Recorder(), start, [Reading(|a|, a + e), Reading(|a + e + b|, a + e + b)]);
      && w.imported.posted == start.imported.posted + (CleanLines(a) + CleanLines(e) + (CleanLines(e) + CleanLines(b)))
      && (w.imported == ImportText(Recorder(), start.imported, a + e + b) <==> CleanLines(e) == [])
  {
    var readings := [Reading(|a|, a + e), Reading(|a + e + b|, a + e + b)];
    var text := (a + e) + (e + b);
    TwoReadings(a, e, b, start);
    RecorderOwnsNothing(start, readings);
    FedIsImported(Recorder(), start, readings);
    EndsLineAppend(a, e);
    EndsLineAppend(e, b);
    EndsLineAppend(a + e, e + b);
    EndsLineAppend(a + e, b);
    EmptyAfter(text);
    CutIsUnique(text, "");
    CleanLinesAppend(a, e);
    CleanLinesAppend(e, b);
    CleanLinesAppend(a + e, e + b);
    CleanLinesAppend(a + e, b);
    RecorderReportsLines(start.imported, CleanLines(text));
    RecorderReportsLines(start.imported, CleanLines(a + e + b));
    CancelFront(start.imported.posted, CleanLines(text), CleanLines(a + e + b));
    TwiceIffNothing(CleanLines(a) + CleanLines(e), CleanLines(e), CleanLines(b));
  }

  lemma TwiceIffNothing<T>(front: seq<T>, again: seq<T>, back: seq<T>)
    ensures front + (again + back) == front + back <==> again == []
  {
    CancelFront(front, again + back, back);
    if again != [] {
      assert |again + back| != |back|;
    }
  }

  /** A watcher that imported a file as it was and then polled it while it grew has imported
      the finished lines of the final file once each and in order, provided its start split no
      line of the final file. */
  lemma HistoryThenPolls<S, E>(adapter: Adapter<S, E>, origin: Import<S, E>, first: string, start: Watch<S, E>, files: seq<string>)
    requires files != [] && Growing(files) && NeverOwned(adapter, start, files)
    requires start == Watch(|first|, "", ImportText(adapter, origin, first), false)
    requires first <= files[0]
    requires PollAll(adapter, start, files).offset == |files[|files| - 1]|
    ensures first <= files[|files| - 1]
    ensures SplitsNoLine(files[|files| - 1], |first|) ==>
      PollAll(adapter, start, files).imported == ImportText(adapter, origin, Finished(files[|files| - 1]))
  {
    var file := files[|files| - 1];
    GrowingKeepsStart(first, files);
    TailingIsExact(adapter, start, files);
    EndIsReadOnce(adapter, start, PollAll(adapter, start, files), file);
    if SplitsNoLine(file, |first|) {
      HistoryThenTail(adapter, origin, file, |first|);
    }
  }

  lemma {:induction false} GrowingKeepsStart(first: string, files: seq<string>)
    requires files != [] && Growing(files) && first <= files[0]
    ensures first <= files[|files| - 1] && files[|files| - 1][..|first|] == first
  {
    if |files| > 1 {
      GrowingKeepsStart(first, files[..|files| - 1]);
    }
  }
}
