/**
 * The asynchronous block queues of the RBD module.
 *
 * A callback is a closure over a variable of the submit call that issued its request, and reads
 * that variable only when it runs. Each submit call has its own variable, a cell here, that all
 * requests issued by the call share. Callbacks run on the library's threads, between any two
 * steps of the caller.
 */
module RbdAio {
  import opened Arithmetic
  import opened Images

  datatype Block = Block(idx: nat, size: nat)

  // ---------------------------------------------------------------- reads

  datatype ReadRequest = ReadRequest(cell: nat, offset: nat, size: nat)

  /** How a read ends: with data, with an exception, or with a negative return value. */
  datatype Answer = Data(data: Bytes) | Raises | Negative

  datatype ReadCompletion = ReadCompletion(request: ReadRequest, block: Block, answer: Answer)

  datatype ReadResult = Yielded(block: Block, data: Bytes) | YieldedException | IoError | Finished | TimedOut

  /** The bytes of a range of the image, as far as they exist. */
  function ReadRange(image: Bytes, offset: nat, size: nat): Bytes {
    image[Min(offset, |image|)..Min(offset + size, |image|)]
  }

  predicate ForBlock(r: ReadRequest, b: Block, blockSize: Pos) {
    r.offset == b.idx * blockSize && r.size == b.size
  }

  /** The cells, and what the library and its callbacks hold: requests in flight and queued completions. */
  datatype ReadLibrary = ReadLibrary(cells: map<nat, Block>, inFlight: seq<ReadRequest>, completed: seq<ReadCompletion>)

  /** Each request in flight will be, and each completion has been, reported for the block that it reads. */
  ghost predicate Paired(lib: ReadLibrary, image: Bytes, blockSize: Pos) {
    && (forall k :: 0 <= k < |lib.inFlight| ==>
      lib.inFlight[k].cell in lib.cells && ForBlock(lib.inFlight[k], lib.cells[lib.inFlight[k].cell], blockSize))
    && (forall k :: 0 <= k < |lib.completed| ==> CompletionPaired(lib.completed[k], image, blockSize))
  }

  ghost predicate CompletionPaired(c: ReadCompletion, image: Bytes, blockSize: Pos) {
    && ForBlock(c.request, c.block, blockSize)
    && (c.answer.Data? ==> c.answer.data == ReadRange(image, c.request.offset, c.request.size))
  }

  /** The block that a callback would report now. */
  function CellOf(r: ReadRequest, cells: map<nat, Block>): Block {
    if r.cell in cells then cells[r.cell] else Block(0, 0)
  }

  function InFlightBlocks(lib: ReadLibrary): (s: seq<Block>)
    ensures |s| == |lib.inFlight|
  {
    seq(|lib.inFlight|, k requires 0 <= k < |lib.inFlight| => CellOf(lib.inFlight[k], lib.cells))
  }

  function CompletedBlocks(lib: ReadLibrary): (s: seq<Block>)
    ensures |s| == |lib.completed|
  {
    seq(|lib.completed|, k requires 0 <= k < |lib.completed| => lib.completed[k].block)
  }

  /** All blocks issued to the library whose completion has not been fetched. */
  ghost function Issued(lib: ReadLibrary): (m: multiset<Block>)
    ensures |m| == |lib.inFlight| + |lib.completed|
  {
    multiset(InFlightBlocks(lib)) + multiset(CompletedBlocks(lib))
  }

  /** The library completes request `k`; its callback reads the cell and queues the completion. */
  function Completed(lib: ReadLibrary, k: nat, answer: Answer): ReadLibrary
    requires k < |lib.inFlight|
  {
    var r := lib.inFlight[k];
    lib.(inFlight := lib.inFlight[..k] + lib.inFlight[k + 1..],
         completed := lib.completed + [ReadCompletion(r, CellOf(r, lib.cells), answer)])
  }

  function AnswersWith(lib: ReadLibrary, k: nat, answer: Answer, image: Bytes): bool
    requires k < |lib.inFlight|
  {
    answer.Data? ==> answer.data == ReadRange(image, lib.inFlight[k].offset, lib.inFlight[k].size)
  }

  lemma {:induction false} CallbackKeeps(lib: ReadLibrary, k: nat, answer: Answer, image: Bytes, blockSize: Pos)
    requires Paired(lib, image, blockSize) && k < |lib.inFlight| && AnswersWith(lib, k, answer, image)
    ensures var next := Completed(lib, k, answer); Paired(next, image, blockSize) && Issued(next) == Issued(lib)
  {
    var next := Completed(lib, k, answer);
    var flying := InFlightBlocks(lib);
    assert flying == flying[..k] + [flying[k]] + flying[k + 1..];
    assert InFlightBlocks(next) == flying[..k] + flying[k + 1..];
    assert CompletedBlocks(next) == CompletedBlocks(lib) + [flying[k]];
  }

  lemma {:induction false} CallbackCounts(lib: ReadLibrary, k: nat, answer: Answer)
    requires k < |lib.inFlight|
    ensures var next := Completed(lib, k, answer);
            next.cells == lib.cells && |next.inFlight| == |lib.inFlight| - 1 && |next.completed| == |lib.completed| + 1
  {
  }

  /** A request whose cell was assigned just before, and that no other request uses. */
  function Requested(lib: ReadLibrary, cell: nat, block: Block, blockSize: Pos): ReadLibrary {
    lib.(inFlight := lib.inFlight + [ReadRequest(cell, block.idx * blockSize, block.size)])
  }

  lemma {:induction false} AssignKeeps(lib: ReadLibrary, cell: nat, block: Block, image: Bytes, blockSize: Pos)
    requires Paired(lib, image, blockSize) && cell !in lib.cells
    ensures var next := lib.(cells := lib.cells[cell := block]);
            Paired(next, image, blockSize) && Issued(next) == Issued(lib)
  {
    var next := lib.(cells := lib.cells[cell := block]);
    assert InFlightBlocks(next) == InFlightBlocks(lib);
    assert CompletedBlocks(next) == CompletedBlocks(lib);
  }

  lemma {:induction false} RequestKeeps(lib: ReadLibrary, cell: nat, block: Block, image: Bytes, blockSize: Pos)
    requires Paired(lib, image, blockSize) && cell in lib.cells && lib.cells[cell] == block
    ensures var next := Requested(lib, cell, block, blockSize);
            Paired(next, image, blockSize) && Issued(next) == Issued(lib) + multiset{block}
  {
    var next := Requested(lib, cell, block, blockSize);
    assert InFlightBlocks(next) == InFlightBlocks(lib) + [block];
    assert CompletedBlocks(next) == CompletedBlocks(lib);
  }

  /** Fetching the oldest completion. */
  lemma {:induction false} FetchKeeps(lib: ReadLibrary, image: Bytes, blockSize: Pos)
    requires Paired(lib, image, blockSize) && lib.completed != []
    ensures var next := lib.(completed := lib.completed[1..]);
            Paired(next, image, blockSize) && Issued(lib) == Issued(next) + multiset{lib.completed[0].block}
    ensures CompletionPaired(lib.completed[0], image, blockSize)
  {
    var next := lib.(completed := lib.completed[1..]);
    assert InFlightBlocks(next) == InFlightBlocks(lib);
    assert CompletedBlocks(lib) == [lib.completed[0].block] + CompletedBlocks(next);
  }

  /** With two requests under one cell, the first would be reported for the second one's block. */
  lemma {:induction false} SharedCellMispairs(blockSize: Pos, image: Bytes)
    ensures var first, second := Block(0, blockSize), Block(1, blockSize);
            var one := Requested(ReadLibrary(map[0 := first], [], []), 0, first, blockSize);
            var two := Requested(one.(cells := map[0 := second]), 0, second, blockSize);
            !Paired(two, image, blockSize) && Completed(two, 0, Raises).completed[0].block == second
  {
    var one := Requested(ReadLibrary(map[0 := Block(0, blockSize)], [], []), 0, Block(0, blockSize), blockSize);
    var two := Requested(one.(cells := map[0 := Block(1, blockSize)]), 0, Block(1, blockSize), blockSize);
    assert two.inFlight[0].offset == 0 * blockSize && CellOf(two.inFlight[0], two.cells).idx == 1;
  }

  /** Moving the last waiting block to another collection keeps the blocks of both together. */
  lemma {:induction false} MoveLast(waiting: seq<Block>, m: multiset<Block>)
    requires waiting != []
    ensures var n := |waiting| - 1; multiset(waiting[..n]) + (m + multiset{waiting[n]}) == multiset(waiting) + m
  {
    var n := |waiting| - 1;
    assert waiting == waiting[..n] + [waiting[n]];
  }

  /** What the iteration makes of a completion. */
  function Judge(c: ReadCompletion): ReadResult {
    match c.answer
    case Raises => YieldedException
    case Negative => IoError
    case Data(data) => if |data| != c.block.size || data == [] then IoError else Yielded(c.block, data)
  }

  /** The result is the given block, with all the bytes at its place in the image. */
  ghost predicate HasItsData(r: ReadResult, block: Block, image: Bytes, blockSize: Pos) {
    r == Yielded(block, ReadRange(image, block.idx * blockSize, block.size)) && |r.data| == block.size
  }

  /**
   * The result follows from how the read of the block ended: an exception is yielded, a negative
   * return value is an I/O error, and so is a read that is short because the range leaves the image;
   * any other read yields the block with its data.
   */
  ghost predicate Reports(r: ReadResult, block: Block, answer: Answer, image: Bytes, blockSize: Pos) {
    match answer
    case Raises => r == YieldedException
    case Negative => r == IoError
    case Data(_) =>
      if block.size == 0 || |ReadRange(image, block.idx * blockSize, block.size)| != block.size then r == IoError
      else HasItsData(r, block, image, blockSize)
  }

  lemma {:induction false} Judged(c: ReadCompletion, image: Bytes, blockSize: Pos)
    requires CompletionPaired(c, image, blockSize)
    ensures Reports(Judge(c), c.block, c.answer, image, blockSize)
    ensures !Judge(c).Finished? && !Judge(c).TimedOut?
  {
  }

  class Reads {
    const image: Bytes
    const blockSize: Pos
    const limit: Pos
    var waiting: seq<Block>
    var outstanding: nat
    var nextCell: nat
    var lib: ReadLibrary

    ghost function Pending(): multiset<Block>
      reads this`waiting, this`lib
    {
      multiset(waiting) + Issued(lib)
    }

    /** The outstanding count is exact and within the limit; every cell was handed out; all blocks are paired. */
    ghost predicate Counted()
      reads this
    {
      && Paired(lib, image, blockSize)
      && (forall cell :: cell in lib.cells ==> cell < nextCell)
      && outstanding == |lib.inFlight| + |lib.completed| <= limit
    }

    /** Between calls, blocks wait only if at most one more request could be issued. */
    ghost predicate Valid()
      reads this
    {
      Counted() && (waiting != [] ==> outstanding + 1 >= limit)
    }

    constructor (image: Bytes, blockSize: Pos, limit: Pos)
      ensures Valid() && Pending() == multiset{}
      ensures this.image == image && this.blockSize == blockSize && this.limit == limit
    {
      this.image, this.blockSize, this.limit := image, blockSize, limit;
      waiting, outstanding, nextCell, lib := [], 0, 0, ReadLibrary(map[], [], []);
    }

    /** Some request in flight completes, with any answer, and its callback runs. */
    method Callback()
      requires Paired(lib, image, blockSize) && lib.inFlight != []
      modifies this`lib
      ensures Paired(lib, image, blockSize) && lib.cells == old(lib).cells && Issued(lib) == old(Issued(lib))
      ensures Pending() == old(Pending())
      ensures |lib.inFlight| == |old(lib).inFlight| - 1 && |lib.completed| == |old(lib).completed| + 1
    {
      hide Paired, Issued, Completed;
      var k: nat :| k < |lib.inFlight|;
      var answer := Data(ReadRange(image, lib.inFlight[k].offset, lib.inFlight[k].size));
      if * { answer := Raises; } else if * { answer := Negative; }
      CallbackKeeps(lib, k, answer, image, blockSize);
      CallbackCounts(lib, k, answer);
      lib := Completed(lib, k, answer);
    }

    /** Any number of callbacks run. */
    method Callbacks()
      requires Paired(lib, image, blockSize)
      modifies this`lib
      ensures Paired(lib, image, blockSize) && lib.cells == old(lib).cells && Issued(lib) == old(Issued(lib))
      ensures Pending() == old(Pending())
      ensures |lib.inFlight| + |lib.completed| == |old(lib).inFlight| + |old(lib).completed|
      ensures |lib.completed| >= |old(lib).completed|
    {
      hide Paired, Issued;
      while *
        invariant Paired(lib, image, blockSize) && lib.cells == old(lib).cells && Issued(lib) == old(Issued(lib))
        invariant |lib.completed| >= |old(lib).completed|
        invariant |lib.inFlight| + |lib.completed| == |old(lib).inFlight| + |old(lib).completed|
        decreases |lib.inFlight|
      {
        if lib.inFlight == [] { break; }
        Callback();
      }
    }

    /** One pass of the submit loop, in a call whose cell has not been assigned yet. */
    method Issue(cell: nat)
      requires Paired(lib, image, blockSize) && cell !in lib.cells && waiting != []
      modifies this`waiting, this`outstanding, this`lib
      ensures Paired(lib, image, blockSize) && Pending() == old(Pending())
      ensures |lib.inFlight| + |lib.completed| == |old(lib).inFlight| + |old(lib).completed| + 1
      ensures waiting == old(waiting)[..|old(waiting)| - 1]
      ensures outstanding == old(outstanding) + 1 && lib.cells.Keys == old(lib).cells.Keys + {cell}
    {
      hide Paired, Issued;
      var n := |waiting| - 1;
      var block := waiting[n];
      MoveLast(waiting, Issued(lib));
      AssignKeeps(lib, cell, block, image, blockSize);
      waiting := waiting[..n];
      lib := lib.(cells := lib.cells[cell := block]);
      Callbacks();
      RequestKeeps(lib, cell, block, image, blockSize);
      lib := Requested(lib, cell, block, blockSize);
      Callbacks();
      outstanding := outstanding + 1;
      Callbacks();
    }

    /**
     * Issues requests while blocks wait and fewer than the limit are outstanding. It never issues
     * more than one, so the call's cell is assigned once; afterwards blocks wait only at the limit.
     */
    method Submit()
      requires Counted() && (|waiting| <= 1 || outstanding + 1 >= limit)
      modifies this`waiting, this`outstanding, this`nextCell, this`lib
      ensures Valid() && (waiting != [] ==> outstanding == limit)
      ensures Pending() == old(Pending())
      ensures if old(waiting != [] && outstanding < limit)
              then outstanding == old(outstanding) + 1 && waiting == old(waiting)[..old(|waiting|) - 1]
              else outstanding == old(outstanding) && waiting == old(waiting)
    {
      hide Paired, Issued, Pending;
      var cell := nextCell;
      nextCell := nextCell + 1;
      ghost var issues := waiting != [] && outstanding < limit;
      Callbacks();
      while waiting != [] && outstanding < limit
        invariant nextCell == cell + 1 && Counted() && Pending() == old(Pending())
        invariant cell !in lib.cells ==> waiting == old(waiting) && outstanding == old(outstanding)
        invariant cell in lib.cells ==>
                    issues && outstanding == old(outstanding) + 1 && waiting == old(waiting)[..old(|waiting|) - 1]
        decreases |waiting|
      {
        Issue(cell);
      }
    }

    /** Queues a block for reading. */
    method Read(block: Block)
      requires Valid()
      modifies this`waiting, this`outstanding, this`nextCell, this`lib
      ensures Valid() && (waiting != [] ==> outstanding == limit)
      ensures Pending() == old(Pending()) + multiset{block}
    {
      waiting := [block] + waiting;
      Submit();
    }

    /** Takes the oldest completion. */
    method Fetch() returns (r: ReadResult, ghost fetched: Block, ghost answer: Answer)
      requires Counted() && lib.completed != []
      modifies this`outstanding, this`lib
      ensures Counted() && outstanding == old(outstanding) - 1
      ensures old(Pending()) == Pending() + multiset{fetched}
      ensures !r.Finished? && !r.TimedOut?
      ensures Reports(r, fetched, answer, image, blockSize)
    {
      hide Paired, Issued, Judge, Reports, CompletionPaired;
      var c := lib.completed[0];
      FetchKeeps(lib, image, blockSize);
      lib := lib.(completed := lib.completed[1..]);
      outstanding := outstanding - 1;
      fetched, answer := c.block, c.answer;
      r := Judge(c);
      Judged(c, image, blockSize);
    }

    lemma {:induction false} NothingPending()
      requires Valid()
      ensures Pending() == multiset{} <==> waiting == [] && outstanding == 0
    {
      assert |Pending()| == |waiting| + outstanding;
    }

    /**
     * One step of the iteration over completed reads. It finishes only when nothing is pending and
     * never waits for a completion that cannot come. A yielded block comes with its own data.
     */
    method GetCompleted(wait: bool) returns (r: ReadResult, ghost fetched: Block, ghost answer: Answer)
      requires Valid()
      modifies this`waiting, this`outstanding, this`nextCell, this`lib
      ensures Valid()
      ensures r.Finished? <==> old(Pending()) == multiset{}
      ensures r.Finished? || r.TimedOut? ==> Pending() == old(Pending())
      ensures wait ==> !r.TimedOut?
      ensures !r.Finished? && !r.TimedOut? ==>
                old(Pending()) == Pending() + multiset{fetched} && Reports(r, fetched, answer, image, blockSize)
    {
      hide Paired, Issued, Reports, Pending;
      NothingPending();
      if waiting == [] && outstanding == 0 {
        return Finished, Block(0, 0), Raises;
      }
      Submit();
      Callbacks();
      if lib.completed == [] {
        if !wait { return TimedOut, Block(0, 0), Raises; }
        Callback();
      }
      r, fetched, answer := Fetch();
    }

    /**
     * Iterates over all completed reads. Every pending block is fetched exactly once, unless an I/O
     * error ends the iteration early, and each one that is yielded comes with its own data.
     */
    method Drain() returns (results: seq<ReadResult>, ghost fetched: seq<Block>, ghost answers: seq<Answer>)
      requires Valid()
      modifies this`waiting, this`outstanding, this`nextCell, this`lib
      ensures Valid() && |results| == |fetched| == |answers|
      ensures old(Pending()) == Pending() + multiset(fetched)
      ensures Pending() == multiset{} || (results != [] && results[|results| - 1] == IoError)
      ensures forall k :: 0 <= k < |results| ==> Reports(results[k], fetched[k], answers[k], image, blockSize)
    {
      hide Reports, Issued, Paired;
      results, fetched, answers := [], [], [];
      while true
        invariant Valid() && |results| == |fetched| == |answers|
        invariant old(Pending()) == Pending() + multiset(fetched)
        invariant forall k :: 0 <= k < |results| ==> Reports(results[k], fetched[k], answers[k], image, blockSize)
        decreases |Pending()|
      {
        var r, f, a := GetCompleted(true);
        if r.Finished? { break; }
        results, fetched, answers := results + [r], fetched + [f], answers + [a];
        if r.IoError? { break; }
      }
    }
  }
}
