/**
 * The asynchronous writes of the RBD module.
 *
 * They share the shape of the reads, and add a bounded semaphore that is acquired before a request
 * is issued. A callback queues its completion first and releases the semaphore afterwards; the
 * caller may fetch the completion in between.
 */
module RbdAioWrites {
  import opened Arithmetic
  import opened Images
  import opened RbdAio

  /** A block and the data to be written to it. */
  type Job = (Block, Bytes)

  datatype WriteRequest = WriteRequest(cell: nat, offset: nat, data: Bytes)

  /** How a write ends: it is done, with an exception, or with a return value other than zero. */
  datatype Reply = Done | Raised | Nonzero

  datatype WriteCompletion = WriteCompletion(request: WriteRequest, block: Block, reply: Reply, released: bool)

  datatype WriteResult = Written(written: Block) | WriteException | WriteError | AllWritten | WriteTimedOut

  /**
   * The cells, the free permits of the semaphore, and what the library and its callbacks hold:
   * requests in flight, queued completions, and all writes the image has received.
   */
  datatype WriteLibrary = WriteLibrary(cells: map<nat, Block>, permits: nat, inFlight: seq<WriteRequest>,
                                       completed: seq<WriteCompletion>, image: set<(nat, Bytes)>)

  /** How many completions are queued whose callback has yet to release the semaphore. */
  function Unreleased(cs: seq<WriteCompletion>): (n: nat)
    ensures n <= |cs|
  {
    if cs == [] then 0 else Unreleased(cs[..|cs| - 1]) + if cs[|cs| - 1].released then 0 else 1
  }

  lemma {:induction false} ReleaseOne(cs: seq<WriteCompletion>, k: nat)
    requires k < |cs| && !cs[k].released
    ensures Unreleased(cs[k := cs[k].(released := true)]) == Unreleased(cs) - 1
  {
    var n := |cs| - 1;
    var next := cs[k := cs[k].(released := true)];
    if k == n {
      assert next[..n] == cs[..n];
    } else {
      ReleaseOne(cs[..n], k);
      assert next[..n] == cs[..n][k := cs[k].(released := true)];
    }
  }

  lemma {:induction false} UnreleasedTail(cs: seq<WriteCompletion>)
    requires cs != []
    ensures Unreleased(cs) == Unreleased(cs[1..]) + if cs[0].released then 0 else 1
  {
    var n := |cs| - 1;
    if n > 0 {
      UnreleasedTail(cs[..n]);
      assert cs[..n][1..] == cs[1..][..n - 1];
    }
  }

  /** Every permit is free, held by the caller, or held by a request whose callback has not released it. */
  ghost predicate Balanced(lib: WriteLibrary, limit: Pos, held: nat) {
    lib.permits + held + |lib.inFlight| + Unreleased(lib.completed) == limit
  }

  /** Each request in flight will be, and each completion has been, reported for the block that it writes. */
  ghost predicate WritesPaired(lib: WriteLibrary, blockSize: Pos) {
    && (forall k :: 0 <= k < |lib.inFlight| ==>
      lib.inFlight[k].cell in lib.cells && lib.inFlight[k].offset == lib.cells[lib.inFlight[k].cell].idx * blockSize)
    && (forall k :: 0 <= k < |lib.completed| ==> WritePaired(lib.completed[k], lib.image, blockSize))
  }

  ghost predicate WritePaired(c: WriteCompletion, image: set<(nat, Bytes)>, blockSize: Pos) {
    && c.request.offset == c.block.idx * blockSize
    && (c.reply.Done? ==> (c.request.offset, c.request.data) in image)
  }

  function JobOf(r: WriteRequest, cells: map<nat, Block>): Job {
    (if r.cell in cells then cells[r.cell] else Block(0, 0), r.data)
  }

  function InFlightJobs(lib: WriteLibrary): (s: seq<Job>)
    ensures |s| == |lib.inFlight|
  {
    seq(|lib.inFlight|, k requires 0 <= k < |lib.inFlight| => JobOf(lib.inFlight[k], lib.cells))
  }

  function CompletedJobs(lib: WriteLibrary): (s: seq<Job>)
    ensures |s| == |lib.completed|
  {
    seq(|lib.completed|, k requires 0 <= k < |lib.completed| => (lib.completed[k].block, lib.completed[k].request.data))
  }

  ghost function IssuedJobs(lib: WriteLibrary): (m: multiset<Job>)
    ensures |m| == |lib.inFlight| + |lib.completed|
  {
    multiset(InFlightJobs(lib)) + multiset(CompletedJobs(lib))
  }

  // ---------------------------------------------------------------- steps of the library

  /** First half of a callback: the request has ended, and its completion is queued with the cell's block. */
  function Queued(lib: WriteLibrary, k: nat, reply: Reply): WriteLibrary
    requires k < |lib.inFlight|
  {
    var r := lib.inFlight[k];
    lib.(inFlight := lib.inFlight[..k] + lib.inFlight[k + 1..],
         completed := lib.completed + [WriteCompletion(r, JobOf(r, lib.cells).0, reply, false)],
         image := if reply.Done? then lib.image + {(r.offset, r.data)} else lib.image)
  }

  /** Second half of a callback. The semaphore is bounded: a release beyond its limit is an error. */
  function Released(lib: WriteLibrary, k: nat): WriteLibrary
    requires k < |lib.completed|
  {
    lib.(completed := lib.completed[k := lib.completed[k].(released := true)], permits := lib.permits + 1)
  }

  ghost predicate Sane(lib: WriteLibrary, blockSize: Pos, limit: Pos, held: nat) {
    WritesPaired(lib, blockSize) && Balanced(lib, limit, held)
  }

  /** What library steps keep. */
  ghost predicate Follows(lib: WriteLibrary, next: WriteLibrary) {
    && next.cells == lib.cells && lib.image <= next.image
    && IssuedJobs(next) == IssuedJobs(lib)
    && |next.completed| >= |lib.completed|
    && |next.inFlight| + |next.completed| == |lib.inFlight| + |lib.completed|
  }

  lemma {:induction false} QueueKeeps(lib: WriteLibrary, k: nat, reply: Reply, blockSize: Pos, limit: Pos, held: nat)
    requires Sane(lib, blockSize, limit, held) && k < |lib.inFlight|
    ensures var next := Queued(lib, k, reply); Sane(next, blockSize, limit, held) && Follows(lib, next)
  {
    var next := Queued(lib, k, reply);
    var flying := InFlightJobs(lib);
    assert flying == flying[..k] + [flying[k]] + flying[k + 1..];
    assert InFlightJobs(next) == flying[..k] + flying[k + 1..];
    assert CompletedJobs(next) == CompletedJobs(lib) + [flying[k]];
    assert next.completed[..|lib.completed|] == lib.completed;
  }

  lemma {:induction false} ReleaseKeeps(lib: WriteLibrary, k: nat, blockSize: Pos, limit: Pos, held: nat)
    requires Sane(lib, blockSize, limit, held) && k < |lib.completed| && !lib.completed[k].released
    ensures lib.permits < limit
    ensures var next := Released(lib, k); Sane(next, blockSize, limit, held) && Follows(lib, next)
  {
    var next := Released(lib, k);
    ReleaseOne(lib.completed, k);
    assert InFlightJobs(next) == InFlightJobs(lib);
    assert CompletedJobs(next) == CompletedJobs(lib);
  }

  lemma {:induction false} FollowsTransitive(a: WriteLibrary, b: WriteLibrary, c: WriteLibrary)
    requires Follows(a, b) && Follows(b, c)
    ensures Follows(a, c)
  {
  }

  // ---------------------------------------------------------------- steps of the caller

  lemma {:induction false} AssignKeepsJobs(lib: WriteLibrary, cell: nat, block: Block, blockSize: Pos, limit: Pos,
                                           held: nat)
    requires Sane(lib, blockSize, limit, held) && cell !in lib.cells
    ensures var next := lib.(cells := lib.cells[cell := block]);
            Sane(next, blockSize, limit, held) && IssuedJobs(next) == IssuedJobs(lib)
  {
    var next := lib.(cells := lib.cells[cell := block]);
    assert InFlightJobs(next) == InFlightJobs(lib);
    assert CompletedJobs(next) == CompletedJobs(lib);
  }

  /** While fewer requests than the limit are outstanding, the semaphore has a free permit. */
  lemma {:induction false} AcquireKeeps(lib: WriteLibrary, blockSize: Pos, limit: Pos)
    requires Sane(lib, blockSize, limit, 0) && |lib.inFlight| + |lib.completed| < limit
    ensures lib.permits > 0
    ensures var next := lib.(permits := lib.permits - 1);
            Sane(next, blockSize, limit, 1) && IssuedJobs(next) == IssuedJobs(lib)
  {
    var next := lib.(permits := lib.permits - 1);
    assert InFlightJobs(next) == InFlightJobs(lib);
    assert CompletedJobs(next) == CompletedJobs(lib);
  }

  function WriteRequested(lib: WriteLibrary, cell: nat, job: Job, blockSize: Pos): WriteLibrary {
    lib.(inFlight := lib.inFlight + [WriteRequest(cell, job.0.idx * blockSize, job.1)])
  }

  lemma {:induction false} RequestKeepsJobs(lib: WriteLibrary, cell: nat, job: Job, blockSize: Pos, limit: Pos)
    requires Sane(lib, blockSize, limit, 1) && cell in lib.cells && lib.cells[cell] == job.0
    ensures var next := WriteRequested(lib, cell, job, blockSize);
            Sane(next, blockSize, limit, 0) && IssuedJobs(next) == IssuedJobs(lib) + multiset{job}
  {
    var next := WriteRequested(lib, cell, job, blockSize);
    assert InFlightJobs(next) == InFlightJobs(lib) + [job];
    assert CompletedJobs(next) == CompletedJobs(lib);
  }

  /** Fetching the oldest completion, once its callback has ended. */
  lemma {:induction false} FetchKeepsJobs(lib: WriteLibrary, blockSize: Pos, limit: Pos)
    requires Sane(lib, blockSize, limit, 0) && lib.completed != [] && lib.completed[0].released
    ensures var next, c := lib.(completed := lib.completed[1..]), lib.completed[0];
            && Sane(next, blockSize, limit, 0) && WritePaired(c, lib.image, blockSize)
            && IssuedJobs(lib) == IssuedJobs(next) + multiset{(c.block, c.request.data)}
  {
    var next, c := lib.(completed := lib.completed[1..]), lib.completed[0];
    UnreleasedTail(lib.completed);
    assert InFlightJobs(next) == InFlightJobs(lib);
    assert CompletedJobs(lib) == [(c.block, c.request.data)] + CompletedJobs(next);
  }

  lemma {:induction false} MoveLastJob(waiting: seq<Job>, m: multiset<Job>)
    requires waiting != []
    ensures var n := |waiting| - 1; multiset(waiting[..n]) + (m + multiset{waiting[n]}) == multiset(waiting) + m
  {
    var n := |waiting| - 1;
    assert waiting == waiting[..n] + [waiting[n]];
  }

  function JudgeWrite(c: WriteCompletion): WriteResult {
    match c.reply
    case Raised => WriteException
    case Nonzero => WriteError
    case Done => Written(c.block)
  }

  /**
   * The result follows from how the write of the job ended: an exception is yielded, a return value
   * other than zero is an I/O error, and otherwise the block is yielded, with the job's data
   * received by the image at the block's place.
   */
  ghost predicate Received(r: WriteResult, job: Job, reply: Reply, image: set<(nat, Bytes)>, blockSize: Pos) {
    match reply
    case Raised => r == WriteException
    case Nonzero => r == WriteError
    case Done => r == Written(job.0) && (job.0.idx * blockSize, job.1) in image
  }

  lemma {:induction false} JudgedReceived(c: WriteCompletion, image: set<(nat, Bytes)>, blockSize: Pos)
    requires WritePaired(c, image, blockSize)
    ensures Received(JudgeWrite(c), (c.block, c.request.data), c.reply, image, blockSize)
    ensures !JudgeWrite(c).AllWritten? && !JudgeWrite(c).WriteTimedOut?
  {
  }

  lemma {:induction false} StillReceived(r: WriteResult, job: Job, reply: Reply, image: set<(nat, Bytes)>,
                                         more: set<(nat, Bytes)>, blockSize: Pos)
    requires Received(r, job, reply, image, blockSize) && image <= more
    ensures Received(r, job, reply, more, blockSize)
  {
  }

  class Writes {
    const blockSize: Pos
    const limit: Pos
    var waiting: seq<Job>
    var outstanding: nat
    var nextCell: nat
    var lib: WriteLibrary

    ghost function Pending(): multiset<Job>
      reads this`waiting, this`lib
    {
      multiset(waiting) + IssuedJobs(lib)
    }

    ghost predicate Counted()
      reads this
    {
      && Sane(lib, blockSize, limit, 0)
      && (forall cell :: cell in lib.cells ==> cell < nextCell)
      && outstanding == |lib.inFlight| + |lib.completed| <= limit
    }

    ghost predicate Valid()
      reads this
    {
      Counted() && (waiting != [] ==> outstanding + 1 >= limit)
    }

    constructor (blockSize: Pos, limit: Pos)
      ensures Valid() && Pending() == multiset{} && lib.permits == limit
      ensures this.blockSize == blockSize && this.limit == limit
    {
      this.blockSize, this.limit := blockSize, limit;
      waiting, outstanding, nextCell, lib := [], 0, 0, WriteLibrary(map[], limit, [], [], {});
    }

    /** Any number of halves of callbacks run, in any order and with any replies. */
    method Callbacks(ghost held: nat)
      requires Sane(lib, blockSize, limit, held)
      modifies this`lib
      ensures Sane(lib, blockSize, limit, held) && Follows(old(lib), lib) && Pending() == old(Pending())
    {
      hide Sane, Queued, Released;
      while *
        invariant Sane(lib, blockSize, limit, held) && Follows(old(lib), lib)
        decreases 2 * |lib.inFlight| + Unreleased(lib.completed)
      {
        ghost var was := lib;
        if {
          case lib.inFlight != [] => QueueOne(held);
          case k: nat :| k < |lib.completed| && !lib.completed[k].released => Release(k, held);
          case true => break;
        }
        FollowsTransitive(old(lib), was, lib);
      }
    }

    /** Some request in flight ends, with any reply, and its completion is queued. */
    method QueueOne(ghost held: nat)
      requires Sane(lib, blockSize, limit, held) && lib.inFlight != []
      modifies this`lib
      ensures Sane(lib, blockSize, limit, held) && Follows(old(lib), lib)
      ensures Pending() == old(Pending())
      ensures |lib.inFlight| == |old(lib).inFlight| - 1
      ensures Unreleased(lib.completed) == Unreleased(old(lib).completed) + 1
    {
      hide Sane, IssuedJobs;
      var k: nat :| k < |lib.inFlight|;
      var reply := Done;
      if * { reply := Raised; } else if * { reply := Nonzero; }
      QueueKeeps(lib, k, reply, blockSize, limit, held);
      assert Queued(lib, k, reply).completed[..|lib.completed|] == lib.completed;
      lib := Queued(lib, k, reply);
    }

    /** A callback releases the bounded semaphore, which never overflows. */
    method Release(k: nat, ghost held: nat)
      requires Sane(lib, blockSize, limit, held) && k < |lib.completed| && !lib.completed[k].released
      modifies this`lib
      ensures old(lib).permits < limit && lib == Released(old(lib), k)
      ensures Sane(lib, blockSize, limit, held) && Follows(old(lib), lib)
      ensures Unreleased(lib.completed) == Unreleased(old(lib).completed) - 1 && lib.inFlight == old(lib).inFlight
    {
      hide Sane, Follows;
      ReleaseKeeps(lib, k, blockSize, limit, held);
      ReleaseOne(lib.completed, k);
      lib := Released(lib, k);
    }

    /** One pass of the submit loop, in a call whose cell has not been assigned yet; it never has to wait. */
    method Issue(cell: nat)
      requires Sane(lib, blockSize, limit, 0) && cell !in lib.cells && waiting != []
      requires outstanding == |lib.inFlight| + |lib.completed| < limit
      modifies this`waiting, this`outstanding, this`lib
      ensures Sane(lib, blockSize, limit, 0) && Pending() == old(Pending())
      ensures |lib.inFlight| + |lib.completed| == outstanding == old(outstanding) + 1
      ensures waiting == old(waiting)[..|old(waiting)| - 1] && lib.cells.Keys == old(lib).cells.Keys + {cell}
      ensures old(lib).image <= lib.image
    {
      hide Sane, IssuedJobs;
      var n := |waiting| - 1;
      var job := waiting[n];
      MoveLastJob(waiting, IssuedJobs(lib));
      AssignKeepsJobs(lib, cell, job.0, blockSize, limit, 0);
      waiting := waiting[..n];
      lib := lib.(cells := lib.cells[cell := job.0]);
      Callbacks(0);
      Acquire();
      Callbacks(1);
      RequestKeepsJobs(lib, cell, job, blockSize, limit);
      lib := WriteRequested(lib, cell, job, blockSize);
      Callbacks(0);
      outstanding := outstanding + 1;
      Callbacks(0);
    }

    /** Takes a permit of the semaphore, which has one free. */
    method Acquire()
      requires Sane(lib, blockSize, limit, 0) && |lib.inFlight| + |lib.completed| < limit
      modifies this`lib
      ensures old(lib).permits > 0 && lib == old(lib).(permits := old(lib).permits - 1)
      ensures Sane(lib, blockSize, limit, 1) && IssuedJobs(lib) == old(IssuedJobs(lib))
    {
      hide Sane, IssuedJobs;
      AcquireKeeps(lib, blockSize, limit);
      lib := lib.(permits := lib.permits - 1);
    }

    /** As for reads: at most one request is issued, and afterwards jobs wait only at the limit. */
    method Submit()
      requires Counted() && (|waiting| <= 1 || outstanding + 1 >= limit)
      modifies this`waiting, this`outstanding, this`nextCell, this`lib
      ensures Valid() && (waiting != [] ==> outstanding == limit)
      ensures Pending() == old(Pending()) && old(lib).image <= lib.image
      ensures if old(waiting != [] && outstanding < limit)
              then outstanding == old(outstanding) + 1 && waiting == old(waiting)[..old(|waiting|) - 1]
              else outstanding == old(outstanding) && waiting == old(waiting)
    {
      hide Sane, IssuedJobs, Pending;
      var cell := nextCell;
      nextCell := nextCell + 1;
      ghost var issues := waiting != [] && outstanding < limit;
      Callbacks(0);
      while waiting != [] && outstanding < limit
        invariant nextCell == cell + 1 && Counted() && Pending() == old(Pending()) && old(lib).image <= lib.image
        invariant cell !in lib.cells ==> waiting == old(waiting) && outstanding == old(outstanding)
        invariant cell in lib.cells ==>
                    issues && outstanding == old(outstanding) + 1 && waiting == old(waiting)[..old(|waiting|) - 1]
        decreases |waiting|
      {
        Issue(cell);
      }
    }

    /** Queues data to be written to a block. */
    method Write(block: Block, data: Bytes)
      requires Valid()
      modifies this`waiting, this`outstanding, this`nextCell, this`lib
      ensures Valid() && (waiting != [] ==> outstanding == limit)
      ensures Pending() == old(Pending()) + multiset{(block, data)} && old(lib).image <= lib.image
    {
      waiting := [(block, data)] + waiting;
      Submit();
    }

    /** Takes the oldest completion and waits for its callback to end. */
    method Fetch() returns (r: WriteResult, ghost fetched: Job, ghost reply: Reply)
      requires Counted() && lib.completed != []
      modifies this`outstanding, this`lib
      ensures Counted() && outstanding == old(outstanding) - 1
      ensures old(Pending()) == Pending() + multiset{fetched} && old(lib).image <= lib.image
      ensures !r.AllWritten? && !r.WriteTimedOut?
      ensures Received(r, fetched, reply, lib.image, blockSize)
    {
      hide Sane, IssuedJobs, Received, WritePaired, JudgeWrite;
      if !lib.completed[0].released {
        Release(0, 0);
      }
      var c := lib.completed[0];
      FetchKeepsJobs(lib, blockSize, limit);
      JudgedReceived(c, lib.image, blockSize);
      lib := lib.(completed := lib.completed[1..]);
      outstanding := outstanding - 1;
      fetched, reply := (c.block, c.request.data), c.reply;
      r := JudgeWrite(c);
    }

    lemma {:induction false} NothingPending()
      requires Valid()
      ensures Pending() == multiset{} <==> waiting == [] && outstanding == 0
    {
      assert |Pending()| == |waiting| + outstanding;
    }

    /**
     * One step of the iteration over completed writes. It finishes only when nothing is pending and
     * never waits for a completion that cannot come. The image has the data of a yielded block.
     */
    method GetCompleted(wait: bool) returns (r: WriteResult, ghost fetched: Job, ghost reply: Reply)
      requires Valid()
      modifies this`waiting, this`outstanding, this`nextCell, this`lib
      ensures Valid() && old(lib).image <= lib.image
      ensures r.AllWritten? <==> old(Pending()) == multiset{}
      ensures r.AllWritten? || r.WriteTimedOut? ==> Pending() == old(Pending())
      ensures wait ==> !r.WriteTimedOut?
      ensures !r.AllWritten? && !r.WriteTimedOut? ==> old(Pending()) == Pending() + multiset{fetched}
      ensures !r.AllWritten? && !r.WriteTimedOut? ==> Received(r, fetched, reply, lib.image, blockSize)
    {
      hide Sane, IssuedJobs, Pending, Received;
      NothingPending();
      if waiting == [] && outstanding == 0 {
        return AllWritten, (Block(0, 0), []), Raised;
      }
      Submit();
      Callbacks(0);
      if lib.completed == [] {
        if !wait { return WriteTimedOut, (Block(0, 0), []), Raised; }
        QueueOne(0);
      }
      r, fetched, reply := Fetch();
    }

    /**
     * Iterates over all completed writes. Every pending job is fetched exactly once, unless an I/O
     * error ends the iteration early, and the image has the data of each one that is yielded.
     */
    method Drain() returns (results: seq<WriteResult>, ghost fetched: seq<Job>, ghost replies: seq<Reply>)
      requires Valid()
      modifies this`waiting, this`outstanding, this`nextCell, this`lib
      ensures Valid() && |results| == |fetched| == |replies|
      ensures old(Pending()) == Pending() + multiset(fetched)
      ensures Pending() == multiset{} || (results != [] && results[|results| - 1] == WriteError)
      ensures forall k :: 0 <= k < |results| ==> Received(results[k], fetched[k], replies[k], lib.image, blockSize)
    {
      hide IssuedJobs, Sane, Received;
      results, fetched, replies := [], [], [];
      while true
        invariant Valid() && |results| == |fetched| == |replies|
        invariant old(Pending()) == Pending() + multiset(fetched)
        invariant forall k :: 0 <= k < |results| ==> Received(results[k], fetched[k], replies[k], lib.image, blockSize)
        decreases |Pending()|
      {
        ghost var image := lib.image;
        var r, f, reply := GetCompleted(true);
        forall k | 0 <= k < |results| ensures Received(results[k], fetched[k], replies[k], lib.image, blockSize) {
          StillReceived(results[k], fetched[k], replies[k], image, lib.image, blockSize);
        }
        if r.AllWritten? { break; }
        results, fetched, replies := results + [r], fetched + [f], replies + [reply];
        if r.WriteError? { break; }
      }
    }
  }
}
