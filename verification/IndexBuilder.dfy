/**
 The resumable product index builder: `build_partition` and its two nested
 buffers, the external search index, the checkpoint file, and `--reset`.

 Every input or output action asks an oracle whether the process dies there.  A
 crash inside a bulk request leaves any subset of its actions applied; a crash
 inside a checkpoint write happens before or after the atomic rename.
 */
module IndexBuilder {
  import opened Wrappers

  type ProductId = string
  type Document = string
  type Index = map<ProductId, Document>

  /** One line of the source file; a malformed line makes the reader raise. */
  datatype Line = Blank | Row(id: ProductId, doc: Document) | Malformed

  /** A parsed row with its 1-based line number. */
  datatype Item = Item(id: ProductId, doc: Document, line: nat)

  datatype Checkpoint = Checkpoint(contract: string, nextLine: nat, docsWritten: nat,
                                   lastId: Option<ProductId>, completed: bool)

  /** What the environment does to one I/O action: for a bulk request `applied` holds the
      positions that took effect, for a checkpoint write it is non-empty iff the rename happened. */
  datatype Fault = NoFault | Crash(applied: set<nat>)

  datatype Outcome = Completed | Aborted | ContractMismatch

  // ---------------------------------------------------------------- specification

  /** The non-blank rows in file order. */
  function Rows(lines: seq<Line>): (rows: seq<Item>)
    ensures |rows| <= |lines|
  {
    if lines == [] then [] else
      var rest := Rows(lines[..|lines| - 1]);
      match lines[|lines| - 1]
      case Row(id, doc) => rest + [Item(id, doc, |lines|)]
      case _ => rest
  }

  function LastLine(rows: seq<Item>): nat { if rows == [] then 0 else rows[|rows| - 1].line }

  function LastId(rows: seq<Item>): Option<ProductId> { if rows == [] then None else Some(rows[|rows| - 1].id) }

  /** All writes of a bulk request, in order; a later write to an id replaces an earlier one. */
  function Apply(index: Index, items: seq<Item>): Index
  {
    if items == [] then index else
      var last := items[|items| - 1];
      Apply(index, items[..|items| - 1])[last.id := last.doc]
  }

  /** The writes at the chosen positions only. */
  function ApplySome(index: Index, items: seq<Item>, applied: set<nat>): Index
  {
    if items == [] then index else
      var n := |items| - 1;
      var rest := ApplySome(index, items[..n], applied);
      if n in applied then rest[items[n].id := items[n].doc] else rest
  }

  /** The index holds the first `done` rows written over `base`, except that some ids may already
      carry the document of a row of their own among the next `cap - 1` rows. */
  ghost predicate Tracks(index: Index, base: Index, rows: seq<Item>, done: nat, cap: nat)
  {
    done <= |rows| && forall id :: TracksId(index, Apply(base, rows[..done]), rows, done, cap, id)
  }

  ghost predicate TracksId(index: Index, settled: Index, rows: seq<Item>, done: nat, cap: nat, id: ProductId)
  {
    && (id in settled ==> id in index)
    && (id in index ==>
          || (id in settled && index[id] == settled[id])
          || exists j :: done <= j < |rows| && j + 1 < done + cap && IsRowOf(rows[j], id, index[id]))
  }

  predicate IsRowOf(row: Item, id: ProductId, doc: Document) { row.id == id && row.doc == doc }

  predicate WellFormed(lines: seq<Line>) { Malformed !in lines }

  /** What one build is about: the checkpoint contract, the source, the index contents the build
      started from, and the bound `cap` on batch size plus bulk size of its runs. */
  datatype Job = Job(contract: string, lines: seq<Line>, base: Index, cap: nat)
  {
    function Start(): Checkpoint { Checkpoint(contract, 0, 0, None, false) }

    /** A checkpoint that tells the truth about how much of the source it covers. */
    ghost predicate Honest(cp: Checkpoint) {
      && cp.contract == contract
      && cp.nextLine <= |lines|
      && WellFormed(lines[..cp.nextLine])
      && var seen := Rows(lines[..cp.nextLine]);
      && cp.docsWritten == |seen| && cp.nextLine == LastLine(seen) && cp.lastId == LastId(seen)
      && (cp.completed ==> cp.docsWritten == |Rows(lines)| && WellFormed(lines))
    }

    predicate Foreign(checkpoint: Option<Checkpoint>) { checkpoint.Some? && checkpoint.value.contract != contract }

    /** The invariant of the durable state. */
    ghost predicate Durable(index: Index, checkpoint: Option<Checkpoint>) {
      var cp := checkpoint.GetOr(Start());
      var honest, tracked := Honest(cp), Tracks(index, base, Rows(lines), cp.docsWritten, cap);
      honest && tracked
    }

    /** The index one uninterrupted pass over the source produces. */
    function Final(): Index { Apply(base, Rows(lines)) }
  }

  // ---------------------------------------------------------------- lemmas about the source

  lemma {:induction false} RowsOfPrefix(lines: seq<Line>, n: nat)
    requires n <= |lines|
    ensures |Rows(lines[..n])| <= |Rows(lines)|
    ensures Rows(lines[..n]) == Rows(lines)[..|Rows(lines[..n])|]
    ensures forall k :: |Rows(lines[..n])| <= k < |Rows(lines)| ==> n < Rows(lines)[k].line
  {
    if n == |lines| {
      assert lines[..n] == lines;
    } else {
      var shorter := lines[..|lines| - 1];
      RowsOfPrefix(shorter, n);
      assert shorter[..n] == lines[..n];
    }
  }

  /** The rows are exactly the row lines of the file, in order: every row stands at its line, lines ascend, and
      every row line has its row. */
  lemma {:induction false} RowsAreTheRowLines(lines: seq<Line>)
    ensures forall k :: 0 <= k < |Rows(lines)| ==>
              var row := Rows(lines)[k]; 1 <= row.line <= |lines| && lines[row.line - 1] == Row(row.id, row.doc)
    ensures forall j, k :: 0 <= j < k < |Rows(lines)| ==> Rows(lines)[j].line < Rows(lines)[k].line
    ensures forall i :: 0 <= i < |lines| && lines[i].Row? ==> Item(lines[i].id, lines[i].doc, i + 1) in Rows(lines)
  {
    if lines != [] {
      RowsAreTheRowLines(lines[..|lines| - 1]);
    }
  }

  /** Resuming after the line of the k-th row leaves out exactly the first k rows. */
  lemma {:induction false} RowsUpToLine(lines: seq<Line>, k: nat)
    requires k < |Rows(lines)|
    ensures 0 < Rows(lines)[k].line <= |lines|
    ensures Rows(lines[..Rows(lines)[k].line]) == Rows(lines)[..k + 1]
  {
    var shorter := lines[..|lines| - 1];
    if k < |Rows(shorter)| {
      RowsUpToLine(shorter, k);
      var n := Rows(shorter)[k].line;
      assert shorter[..n] == lines[..n];
      assert Rows(lines)[..k + 1] == Rows(shorter)[..k + 1];
    } else {
      assert lines[..|lines|] == lines;
      assert Rows(lines)[..k + 1] == Rows(lines);
    }
  }

  // ---------------------------------------------------------------- lemmas about the index

  /** The position of the last row of an id, or -1. */
  function LastRow(items: seq<Item>, id: ProductId): (k: int)
    ensures -1 <= k < |items|
    ensures k >= 0 ==> items[k].id == id
    ensures forall j :: k < j < |items| ==> items[j].id != id
  {
    if items == [] then -1
    else if items[|items| - 1].id == id then |items| - 1
    else
      var front := items[..|items| - 1];
      assert forall j :: 0 <= j < |front| ==> items[j] == front[j];
      LastRow(front, id)
  }

  /** One pass leaves every id at the document of its last row, and adds no other id. */
  lemma {:induction false} ApplyIsLastWrite(index: Index, items: seq<Item>, id: ProductId)
    ensures id in Apply(index, items) <==> id in index || LastRow(items, id) >= 0
    ensures id in Apply(index, items) ==>
              Apply(index, items)[id] == (if LastRow(items, id) >= 0 then items[LastRow(items, id)].doc else index[id])
  {
    if items != [] {
      ApplyIsLastWrite(index, items[..|items| - 1], id);
    }
  }

  /** `items` are the rows of the source that follow the first `done`. */
  ghost predicate Next(items: seq<Item>, rows: seq<Item>, done: nat) {
    done + |items| <= |rows| && items == rows[done..done + |items|]
  }

  lemma {:induction false} WholeBulkTracks(index: Index, base: Index, rows: seq<Item>, done: nat, items: seq<Item>, cap: nat)
    requires Next(items, rows, done) && Tracks(index, base, rows, done, cap)
    ensures Tracks(Apply(index, items), base, rows, done + |items|, cap)
  {
    if items != [] {
      var k := |items| - 1;
      var row := items[k];
      WholeBulkTracks(index, base, rows, done, items[..k], cap);
      OneWriteTracks(Apply(index, items[..k]), base, rows, done + k, cap);
      assert row == rows[done + k];
    }
  }

  lemma OneWriteTracks(index: Index, base: Index, rows: seq<Item>, done: nat, cap: nat)
    requires done < |rows| && Tracks(index, base, rows, done, cap)
    ensures Tracks(index[rows[done].id := rows[done].doc], base, rows, done + 1, cap)
  {
    assert rows[..done + 1][..done] == rows[..done];
    var after, done' := index[rows[done].id := rows[done].doc], done + 1;
    var settled := Apply(base, rows[..done']);
    forall id ensures TracksId(after, settled, rows, done', cap, id) {
      assert TracksId(index, Apply(base, rows[..done]), rows, done, cap, id);
    }
  }

  lemma {:induction false} PartialBulkTracks(index: Index, base: Index, rows: seq<Item>, done: nat, items: seq<Item>, cap: nat, applied: set<nat>)
    requires Next(items, rows, done) && |items| < cap && Tracks(index, base, rows, done, cap)
    ensures Tracks(ApplySome(index, items, applied), base, rows, done, cap)
  {
    if items != [] {
      var k := |items| - 1;
      PartialBulkTracks(index, base, rows, done, items[..k], cap, applied);
      assert items[k] == rows[done + k];
      EarlyWriteTracks(ApplySome(index, items[..k], applied), base, rows, done, done + k, cap);
    }
  }

  lemma EarlyWriteTracks(index: Index, base: Index, rows: seq<Item>, done: nat, k: nat, cap: nat)
    requires done <= k < |rows| && k + 1 < done + cap && Tracks(index, base, rows, done, cap)
    ensures Tracks(index[rows[k].id := rows[k].doc], base, rows, done, cap)
  {
    var after, settled := index[rows[k].id := rows[k].doc], Apply(base, rows[..done]);
    forall id ensures TracksId(after, settled, rows, done, cap, id) {
      assert TracksId(index, Apply(base, rows[..done]), rows, done, cap, id);
      assert IsRowOf(rows[k], rows[k].id, rows[k].doc);
    }
  }

  function Positions(n: nat): set<nat> { if n == 0 then {} else Positions(n - 1) + {n - 1} }

  lemma {:induction false} PositionsBelow(n: nat, k: nat)
    ensures k in Positions(n) <==> k < n
  {
    if n > 0 { PositionsBelow(n - 1, k); }
  }

  lemma {:induction false} AllApplied(index: Index, items: seq<Item>, n: nat)
    requires |items| <= n
    ensures ApplySome(index, items, Positions(n)) == Apply(index, items)
  {
    if items != [] {
      AllApplied(index, items[..|items| - 1], n);
      PositionsBelow(n, |items| - 1);
    }
  }

  /** The checkpoint after a bulk request that wrote `pending`. */
  function Advance(cp: Checkpoint, pending: seq<Item>): Checkpoint
    requires pending != []
  {
    var last := pending[|pending| - 1];
    cp.(nextLine := last.line, docsWritten := cp.docsWritten + |pending|, lastId := Some(last.id))
  }

  /** The buffers of a run, relative to its checkpoint, after `read` lines. */
  ghost predicate Buffered(job: Job, cp: Checkpoint, read: nat, pending: seq<Item>, batch: seq<Item>) {
    && job.Honest(cp) && !cp.completed
    && cp.nextLine <= read <= |job.lines| && WellFormed(job.lines[..read])
    && cp.docsWritten <= |Rows(job.lines[..read])|
    && pending + batch == Rows(job.lines[..read])[cp.docsWritten..]
  }

  /** The pending rows are the next ones of the source. */
  lemma PendingComesNext(job: Job, cp: Checkpoint, read: nat, pending: seq<Item>, batch: seq<Item>)
    requires Buffered(job, cp, read, pending, batch)
    ensures cp.docsWritten + |pending| <= |Rows(job.lines[..read])| <= |Rows(job.lines)|
    ensures pending == Rows(job.lines[..read])[cp.docsWritten..cp.docsWritten + |pending|]
    ensures pending == Rows(job.lines)[cp.docsWritten..cp.docsWritten + |pending|]
    ensures batch == Rows(job.lines[..read])[cp.docsWritten + |pending|..]
  {
    RowsOfPrefix(job.lines, read);
    assert pending == (pending + batch)[..|pending|];
    assert batch == (pending + batch)[|pending|..];
  }

  /** A checkpoint after the pending rows is honest, and the rest of the buffer follows it. */
  lemma AdvanceIsHonest(job: Job, cp: Checkpoint, read: nat, pending: seq<Item>, batch: seq<Item>)
    requires Buffered(job, cp, read, pending, batch) && pending != []
    ensures Buffered(job, Advance(cp, pending), read, [], batch)
  {
    PendingComesNext(job, cp, read, pending, batch);
    var seen := job.lines[..read];
    var k := cp.docsWritten + |pending| - 1;
    RowsUpToLine(seen, k);
    var cp' := Advance(cp, pending);
    assert pending[|pending| - 1] == Rows(seen)[k];
    assert job.lines[..cp'.nextLine] == seen[..cp'.nextLine];
    assert job.Honest(cp');
    assert [] + batch == batch;
  }

  lemma StartBuffering(job: Job, cp: Checkpoint)
    requires job.Honest(cp) && !cp.completed
    ensures Buffered(job, cp, cp.nextLine, [], [])
  {}

  lemma ReadOneLine(job: Job, cp: Checkpoint, read: nat, pending: seq<Item>, batch: seq<Item>)
    requires Buffered(job, cp, read, pending, batch) && read < |job.lines|
    ensures match job.lines[read]
            case Blank => Buffered(job, cp, read + 1, pending, batch)
            case Row(id, doc) => Buffered(job, cp, read + 1, pending, batch + [Item(id, doc, read + 1)])
            case Malformed => true
  {
    var seen := job.lines[..read + 1];
    assert seen[..read] == job.lines[..read];
    if job.lines[read].Row? {
      var item := Item(job.lines[read].id, job.lines[read].doc, read + 1);
      assert Rows(seen) == Rows(job.lines[..read]) + [item];
      assert pending + (batch + [item]) == (pending + batch) + [item];
    }
  }

  lemma FinishIsHonest(job: Job, cp: Checkpoint)
    requires Buffered(job, cp, |job.lines|, [], [])
    ensures job.Honest(cp.(completed := true))
  {
    assert job.lines[..|job.lines|] == job.lines;
    assert [] + [] == Rows(job.lines)[cp.docsWritten..];
  }

  /** A bulk request: where it may leave the index, and where it leaves it on success. */
  lemma BulkPartlyTracks(job: Job, index: Index, cp: Checkpoint, read: nat, pending: seq<Item>, batch: seq<Item>, applied: set<nat>)
    requires Buffered(job, cp, read, pending, batch) && |pending| < job.cap
    requires job.Durable(index, Some(cp))
    ensures job.Durable(ApplySome(index, pending, applied), Some(cp))
  {
    PendingComesNext(job, cp, read, pending, batch);
    PartialBulkTracks(index, job.base, Rows(job.lines), cp.docsWritten, pending, job.cap, applied);
  }

  lemma BulkTracks(job: Job, index: Index, cp: Checkpoint, read: nat, pending: seq<Item>, batch: seq<Item>)
    requires Buffered(job, cp, read, pending, batch) && |pending| < job.cap
    requires job.Durable(index, Some(cp))
    ensures job.Durable(Apply(index, pending), Some(cp))
  {
    BulkPartlyTracks(job, index, cp, read, pending, batch, Positions(|pending|));
    AllApplied(index, pending, |pending|);
  }

  lemma BulkThenAdvanceTracks(job: Job, index: Index, cp: Checkpoint, read: nat, pending: seq<Item>, batch: seq<Item>)
    requires Buffered(job, cp, read, pending, batch) && 0 < |pending| < job.cap
    requires job.Durable(index, Some(cp))
    ensures job.Durable(Apply(index, pending), Some(Advance(cp, pending)))
  {
    PendingComesNext(job, cp, read, pending, batch);
    WholeBulkTracks(index, job.base, Rows(job.lines), cp.docsWritten, pending, job.cap);
    AdvanceIsHonest(job, cp, read, pending, batch);
  }

  /** At every crash point each line up to `next_line` is in the index. */
  lemma CheckpointedRowsAreIndexed(job: Job, index: Index, cp: Checkpoint, k: nat)
    requires job.Durable(index, Some(cp))
    requires k < |Rows(job.lines[..cp.nextLine])|
    ensures cp.docsWritten == |Rows(job.lines[..cp.nextLine])|
    ensures Rows(job.lines[..cp.nextLine])[k].id in index
  {
    RowsOfPrefix(job.lines, cp.nextLine);
    var rows := Rows(job.lines);
    ApplyIsLastWrite(job.base, rows[..cp.docsWritten], rows[k].id);
    assert rows[..cp.docsWritten][k].id == rows[k].id;
    assert TracksId(index, Apply(job.base, rows[..cp.docsWritten]), rows, cp.docsWritten, job.cap, rows[k].id);
  }

  /** At every crash point a document in the index is the one an uninterrupted pass would have left
      there at the checkpoint, or belongs to one of the next rows, fewer than batch plus bulk size. */
  lemma IndexHoldsNothingElse(job: Job, index: Index, cp: Checkpoint, id: ProductId)
    requires job.Durable(index, Some(cp)) && id in index
    ensures cp.docsWritten <= |Rows(job.lines)|
    ensures var settled := Apply(job.base, Rows(job.lines)[..cp.docsWritten]);
            || (id in settled && index[id] == settled[id])
            || exists j :: cp.docsWritten <= j < |Rows(job.lines)| && j - cp.docsWritten < job.cap - 1 &&
                           IsRowOf(Rows(job.lines)[j], id, index[id])
  {
    var rows := Rows(job.lines);
    assert TracksId(index, Apply(job.base, rows[..cp.docsWritten]), rows, cp.docsWritten, job.cap, id);
  }

  /** Whatever crashes came before, a completed checkpoint means the uninterrupted result. */
  lemma CompletedMeansUninterruptedResult(job: Job, index: Index, cp: Checkpoint)
    requires cp.completed && job.Durable(index, Some(cp))
    ensures index == job.Final() && WellFormed(job.lines)
  {
    var rows := Rows(job.lines);
    assert rows[..cp.docsWritten] == rows;
    forall id ensures id in index <==> id in job.Final()
      ensures id in index ==> index[id] == job.Final()[id]
    {
      assert TracksId(index, job.Final(), rows, cp.docsWritten, job.cap, id);
    }
  }

  /** The writes of a bulk request that took effect, in order. */
  function Picked(items: seq<Item>, applied: set<nat>): seq<Item> {
    if items == [] then [] else
      Picked(items[..|items| - 1], applied) + (if |items| - 1 in applied then [items[|items| - 1]] else [])
  }

  /** A request cut off by a crash leaves the index as a request of only the applied writes would. */
  lemma {:induction false} CutOffBulkAppliesSome(index: Index, items: seq<Item>, applied: set<nat>)
    ensures ApplySome(index, items, applied) == Apply(index, Picked(items, applied))
    ensures forall k :: 0 <= k < |items| && k in applied ==> items[k] in Picked(items, applied)
  {
    if items != [] {
      var n := |items| - 1;
      CutOffBulkAppliesSome(index, items[..n], applied);
      var before := Picked(items[..n], applied);
      assert (before + [items[n]])[..|before|] == before;
      assert before + [] == before;
    }
  }

  /** What others leave in a shared index: every document but those of this job's rows is theirs. */
  ghost predicate OnlyOthersWrote(job: Job, before: Index, after: Index) {
    && before.Keys <= after.Keys
    && forall k :: 0 <= k < |Rows(job.lines)| ==>
         var id := Rows(job.lines)[k].id;
         (id in after <==> id in before) && (id in before ==> after[id] == before[id])
  }

  /** The starting index with the documents of others brought up to date. */
  function Rebased(job: Job, after: Index): Job {
    var own := set k | 0 <= k < |Rows(job.lines)| :: Rows(job.lines)[k].id;
    job.(base := map id | id in job.base.Keys + after.Keys && (if id in own then id in job.base else id in after)
                    :: if id in own then job.base[id] else after[id])
  }

  /** Partitions that share an index but no product id do not disturb each other: what others write leaves
      this job's durable state honest, over a starting index that has their documents. */
  lemma OthersKeepDurable(job: Job, before: Index, after: Index, checkpoint: Option<Checkpoint>)
    requires job.Durable(before, checkpoint) && OnlyOthersWrote(job, before, after)
    ensures Rebased(job, after).Durable(after, checkpoint)
  {
    var job', rows, done := Rebased(job, after), Rows(job.lines), checkpoint.GetOr(job.Start()).docsWritten;
    var settled, settled' := Apply(job.base, rows[..done]), Apply(job'.base, rows[..done]);
    forall id ensures TracksId(after, settled', rows, done, job.cap, id) {
      assert TracksId(before, settled, rows, done, job.cap, id);
      OthersKeepId(job, before, after, done, id);
    }
  }

  lemma OthersKeepId(job: Job, before: Index, after: Index, done: nat, id: ProductId)
    requires done <= |Rows(job.lines)| && OnlyOthersWrote(job, before, after)
    requires TracksId(before, Apply(job.base, Rows(job.lines)[..done]), Rows(job.lines), done, job.cap, id)
    ensures TracksId(after, Apply(Rebased(job, after).base, Rows(job.lines)[..done]), Rows(job.lines), done, job.cap, id)
  {
    var rows := Rows(job.lines);
    ApplyIsLastWrite(job.base, rows[..done], id);
    ApplyIsLastWrite(Rebased(job, after).base, rows[..done], id);
    if k :| 0 <= k < |rows| && rows[k].id == id {
      assert id in before <==> id in after;
    }
  }

  // ---------------------------------------------------------------- the builder

  /** What survives a crash: the search index and the checkpoint file. */
  class Store {
    var index: Index
    var checkpoint: Option<Checkpoint>

    constructor (index: Index, checkpoint: Option<Checkpoint>)
      ensures this.index == index && this.checkpoint == checkpoint
    {
      this.index := index;
      this.checkpoint := checkpoint;
    }
  }

  /** One process running `build_partition`: everything in it is lost in a crash. */
  class Builder {
    const store: Store
    const lines: seq<Line>
    const batchSize: nat
    const bulkSize: nat
    const faults: nat -> Fault
    var io: nat
    var state: Checkpoint
    var pending: seq<Item>
    var batchRows: seq<Item>

    ghost predicate Reliable() { forall n :: faults(n).NoFault? }

    /** `read` lines have been read; the buffers hold exactly the rows after the checkpoint. */
    ghost predicate Valid(job: Job, read: nat)
      reads this, store
    {
      && lines == job.lines
      && (var buffered := Buffered(job, state, read, pending, batchRows); buffered)
      && 1 <= batchSize <= bulkSize && batchSize + bulkSize <= job.cap
      && store.checkpoint == (if store.checkpoint == None then None else Some(state))
      && (store.checkpoint == None ==> state == job.Start())
      && job.Durable(store.index, store.checkpoint)
      && |batchRows| <= batchSize
    }

    constructor (store: Store, lines: seq<Line>, batchSize: nat, bulkSize: nat, faults: nat -> Fault, state: Checkpoint)
      ensures this.store == store && this.lines == lines && this.faults == faults
      ensures this.batchSize == batchSize && this.bulkSize == bulkSize
      ensures this.state == state && pending == [] && batchRows == []
    {
      this.store, this.lines, this.faults := store, lines, faults;
      this.batchSize, this.bulkSize := batchSize, bulkSize;
      this.state, this.pending, this.batchRows, this.io := state, [], [], 0;
    }

    /** Asks the environment about the next I/O action. */
    method NextFault() returns (fault: Fault)
      modifies this`io
      ensures Reliable() ==> fault == NoFault
    {
      fault := faults(io);
      io := io + 1;
    }

    /** Writes the temporary file and renames it over the checkpoint. */
    method WriteCheckpoint() returns (ok: bool)
      modifies this`io, store`checkpoint
      ensures Reliable() ==> ok
      ensures ok ==> store.checkpoint == Some(state)
      ensures store.checkpoint == Some(state) || store.checkpoint == old(store.checkpoint)
    {
      var fault := NextFault();
      ok := fault.NoFault?;
      if ok || fault.applied != {} {
        store.checkpoint := Some(state);
      }
    }

    /** The bulk request itself. */
    method SendBulk(ghost job: Job, ghost read: nat) returns (ok: bool)
      requires Valid(job, read) && 0 < |pending| < batchSize + bulkSize
      modifies this`io, store`index
      ensures Reliable() ==> ok
      ensures job.Durable(store.index, store.checkpoint)
      ensures ok ==> store.index == Apply(old(store.index), pending)
      ensures ok ==> job.Durable(store.index, Some(Advance(state, pending)))
    {
      var fault := NextFault();
      ok := fault.NoFault?;
      BulkTracks(job, store.index, state, read, pending, batchRows);
      BulkThenAdvanceTracks(job, store.index, state, read, pending, batchRows);
      BulkPartlyTracks(job, store.index, state, read, pending, batchRows, if ok then {} else fault.applied);
      store.index := if ok then Apply(store.index, pending) else ApplySome(store.index, pending, fault.applied);
    }

    method FlushBulk(ghost job: Job, ghost read: nat) returns (ok: bool)
      requires Valid(job, read) && |pending| < batchSize + bulkSize
      modifies this`io, this`state, this`pending, store
      ensures job.Durable(store.index, store.checkpoint)
      ensures Reliable() ==> ok
      ensures ok ==> Valid(job, read) && pending == [] && batchRows == old(batchRows)
    {
      if pending == [] {
        return true;
      }
      ok := SendBulk(job, read);
      if ok {
        AdvanceIsHonest(job, state, read, pending, batchRows);
        state := Advance(state, pending);
        ok := WriteCheckpoint();
      }
      if ok {
        pending := [];
      }
    }

    method FlushEncoded(ghost job: Job, ghost read: nat) returns (ok: bool)
      requires Valid(job, read)
      requires |pending| < bulkSize
      modifies this`io, this`state, this`pending, this`batchRows, store
      ensures job.Durable(store.index, store.checkpoint)
      ensures Reliable() ==> ok
      ensures ok ==> Valid(job, read) && batchRows == [] && |pending| < bulkSize
    {
      if batchRows == [] {
        return true;
      }
      var fault := NextFault();  // the encoder
      if fault.Crash? {
        return false;
      }
      pending := pending + batchRows;
      batchRows := [];
      if |pending| >= bulkSize {
        ok := FlushBulk(job, read);
      } else {
        ok := true;
      }
    }

    /** Appends a row to the batch, and encodes the batch when it is full. */
    method TakeRow(ghost job: Job, ghost read: nat, row: Item) returns (ok: bool)
      requires read < |lines| && Valid(job, read) && lines[read] == Row(row.id, row.doc) && row.line == read + 1
      requires |pending| < bulkSize && |batchRows| < batchSize
      modifies this`io, this`state, this`pending, this`batchRows, store
      ensures job.Durable(store.index, store.checkpoint)
      ensures Reliable() ==> ok
      ensures ok ==> Valid(job, read + 1) && |pending| < bulkSize && |batchRows| < batchSize
    {
      ReadOneLine(job, state, read, pending, batchRows);
      batchRows := batchRows + [row];
      ok := true;
      if |batchRows| >= batchSize {
        ok := FlushEncoded(job, read + 1);
      }
    }

    /** The loop body for the line after the first `read` ones. */
    method ReadLine(ghost job: Job, read: nat) returns (ok: bool)
      requires read < |lines| && Valid(job, read)
      requires |pending| < bulkSize && |batchRows| < batchSize
      modifies this`io, this`state, this`pending, this`batchRows, store
      ensures job.Durable(store.index, store.checkpoint)
      ensures Reliable() && lines[read] != Malformed ==> ok
      ensures ok ==> Valid(job, read + 1) && |pending| < bulkSize && |batchRows| < batchSize
    {
      match lines[read]
      case Blank =>
        ReadOneLine(job, state, read, pending, batchRows);
        ok := true;
      case Malformed =>
        ok := false;
      case Row(id, doc) =>
        ok := TakeRow(job, read, Item(id, doc, read + 1));
    }

    /** The two flushes after the loop and the final checkpoint. */
    method Finish(ghost job: Job) returns (ok: bool)
      requires Valid(job, |lines|) && |pending| < bulkSize
      modifies this`io, this`state, this`pending, this`batchRows, store
      ensures job.Durable(store.index, store.checkpoint)
      ensures Reliable() ==> ok
      ensures ok ==> store.checkpoint == Some(state) && state.completed && state.contract == job.contract
    {
      ok := FlushEncoded(job, |lines|);
      if ok {
        ok := FlushBulk(job, |lines|);
      }
      if ok {
        FinishIsHonest(job, state);
        state := state.(completed := true);
        ok := WriteCheckpoint();
      }
    }

    /** The loop over the lines after the checkpoint, and what follows it. */
    method Consume(ghost job: Job) returns (ok: bool)
      requires Valid(job, state.nextLine) && pending == batchRows == []
      modifies this`io, this`state, this`pending, this`batchRows, store
      ensures job.Durable(store.index, store.checkpoint)
      ensures Reliable() && WellFormed(lines) ==> ok
      ensures ok ==> store.checkpoint == Some(state) && state.completed && state.contract == job.contract
    {
      for read := state.nextLine to |lines|
        invariant Valid(job, read) && |pending| < bulkSize && |batchRows| < batchSize
      {
        ok := ReadLine(job, read);
        if !ok {
          return;
        }
      }
      ok := Finish(job);
    }
  }

  /** One run of `build_partition`, stopped wherever the environment says. */
  method BuildPartition(ghost job: Job, store: Store, contract: string, lines: seq<Line>,
                        batchSize: nat, bulkSize: nat, faults: nat -> Fault)
    returns (outcome: Outcome)
    requires contract == job.contract && lines == job.lines
    requires 1 <= batchSize <= bulkSize && batchSize + bulkSize <= job.cap
    requires job.Foreign(store.checkpoint) || job.Durable(store.index, store.checkpoint)
    modifies store
    ensures outcome == ContractMismatch <==> job.Foreign(old(store.checkpoint))
    ensures outcome != ContractMismatch ==> job.Durable(store.index, store.checkpoint)
    ensures outcome == ContractMismatch ==> store.index == old(store.index) && store.checkpoint == old(store.checkpoint)
    ensures outcome == Completed ==>
              store.checkpoint.Some? && store.checkpoint.value.completed && store.checkpoint.value.contract == contract
    ensures outcome == Aborted ==> !(WellFormed(lines) && forall n :: faults(n).NoFault?)
  {
    var state := Checkpoint(contract, 0, 0, None, false);
    if store.checkpoint.Some? {
      state := store.checkpoint.value;
      if state.contract != contract {
        return ContractMismatch;
      }
    }
    if state.completed {
      return Completed;
    }
    var b := new Builder(store, lines, batchSize, bulkSize, faults, state);
    StartBuffering(job, state);
    var ok := b.Consume(job);
    outcome := if ok then Completed else Aborted;
  }

  lemma FreshStoreIsDurable(job: Job)
    ensures job.Durable(job.base, None)
  {}

  /** The command-line sizes of one process and what its environment does to it. */
  datatype Run = Run(batchSize: nat, bulkSize: nat, faults: nat -> Fault) {
    ghost predicate Reliable() { forall n :: faults(n).NoFault? }
  }

  /** Any number of runs one after the other, each stopped wherever its environment says. */
  method RestartUntilCompleted(ghost job: Job, store: Store, contract: string, lines: seq<Line>, runs: seq<Run>)
    returns (completed: bool)
    requires contract == job.contract && lines == job.lines
    requires forall i :: 0 <= i < |runs| ==>
               1 <= runs[i].batchSize <= runs[i].bulkSize && runs[i].batchSize + runs[i].bulkSize <= job.cap
    requires store.checkpoint == None && store.index == job.base
    modifies store
    ensures job.Durable(store.index, store.checkpoint)
    ensures completed ==> store.index == job.Final() && WellFormed(lines)
    ensures WellFormed(lines) && (exists i :: 0 <= i < |runs| && runs[i].Reliable()) ==> completed
  {
    FreshStoreIsDurable(job);
    for i := 0 to |runs|
      invariant job.Durable(store.index, store.checkpoint)
      invariant WellFormed(lines) ==> forall j :: 0 <= j < i ==> !runs[j].Reliable()
    {
      var outcome := BuildPartition(job, store, contract, lines, runs[i].batchSize, runs[i].bulkSize, runs[i].faults);
      if outcome == Completed {
        CompletedMeansUninterruptedResult(job, store.index, store.checkpoint.value);
        return true;
      }
      assert WellFormed(lines) ==> !runs[i].Reliable();
    }
    completed := false;
  }

  // ---------------------------------------------------------------- reset

  datatype Partition = Partition(id: string, indexName: string, lines: seq<Line>)

  /** All checkpoint files and all indexes; partitions may share an index. */
  class Deployment {
    var checkpoints: map<string, Checkpoint>
    var indexes: map<string, Index>

    /** No checkpoint claims a line that is not in the index of its partition. */
    ghost predicate Truthful(partitions: set<Partition>)
      reads this
    {
      forall p :: p in partitions && p.id in checkpoints ==> Covered(p, checkpoints[p.id])
    }

    ghost predicate Covered(p: Partition, cp: Checkpoint)
      reads this
    {
      && cp.nextLine <= |p.lines|
      && p.indexName in indexes
      && forall k :: 0 <= k < |Rows(p.lines[..cp.nextLine])| ==>
           Rows(p.lines[..cp.nextLine])[k].id in indexes[p.indexName]
    }

    /** `--reset`: the checkpoint files go first, in the order `files`; then each index is deleted
        and created anew.  A crash at any of these actions leaves no checkpoint that lies. */
    method Reset(ghost partitions: set<Partition>, files: seq<string>, names: seq<string>, faults: nat -> Fault)
      returns (ok: bool)
      requires Truthful(partitions)
      requires forall id :: id in checkpoints ==> id in files
      modifies this
      ensures Truthful(partitions)
      ensures checkpoints.Keys <= old(checkpoints).Keys
      ensures (exists id :: id in checkpoints) ==> indexes == old(indexes)
      ensures forall name :: name in old(indexes) && name !in names ==> name in indexes && indexes[name] == old(indexes)[name]
      ensures ok ==> checkpoints == map[]
      ensures ok ==> forall i :: 0 <= i < |names| ==> names[i] in indexes && indexes[names[i]] == map[]
      ensures (forall n :: faults(n).NoFault?) ==> ok
    {
      for i := 0 to |files|
        invariant checkpoints.Keys <= old(checkpoints).Keys
        invariant forall id :: id in checkpoints ==> checkpoints[id] == old(checkpoints)[id] && id in files[i..]
        invariant indexes == old(indexes)
      {
        var fault := faults(i);
        if fault.NoFault? || fault.applied != {} {
          checkpoints := checkpoints - {files[i]};
        }
        if fault.Crash? {
          return false;
        }
      }
      assert checkpoints == map[];
      for i := 0 to |names|
        invariant checkpoints == map[]
        invariant forall j :: 0 <= j < i ==> names[j] in indexes && indexes[names[j]] == map[]
        invariant forall name :: name in old(indexes) && name !in names ==> name in indexes && indexes[name] == old(indexes)[name]
      {
        var fault := faults(|files| + 2 * i);
        if names[i] in indexes && (fault.NoFault? || fault.applied != {}) {
          indexes := indexes - {names[i]};
        }
        if fault.Crash? {
          return false;
        }
        fault := faults(|files| + 2 * i + 1);
        if fault.NoFault? || fault.applied != {} {
          indexes := indexes[names[i] := map[]];
        }
        if fault.Crash? {
          return false;
        }
      }
      ok := true;
    }
  }
}
