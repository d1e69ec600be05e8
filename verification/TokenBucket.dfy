/** The token bucket that limits bandwidth. Time is real-valued; a clock reading is a parameter. */
module TokenBucket {

  /** A bucket's level, its rate per second, and the time of the last call; the rate is also its capacity. */
  datatype Level = Level(tokens: real, rate: nat, last: real)

  datatype Call = Call(now: real, tokens: nat)

  /** The level after a call, and the time the caller is told to wait. */
  function Consume(b: Level, c: Call): (r: (Level, real)) {
    if b.rate == 0 then (b, 0.0)
    else
      var filled := b.tokens + (c.now - b.last) * b.rate as real;
      var left := (if filled > b.rate as real then b.rate as real else filled) - c.tokens as real;
      (Level(left, b.rate, c.now), if left >= 0.0 then 0.0 else -left / b.rate as real)
  }

  // ---------------------------------------------------------------- sequences of calls

  /** The level after calls, one after another. */
  function Run(b: Level, calls: seq<Call>): (r: Level)
    ensures r.rate == b.rate
  {
    if calls == [] then b else Consume(Run(b, calls[..|calls| - 1]), calls[|calls| - 1]).0
  }

  /** The time that the last of the calls is told to wait. */
  function Wait(b: Level, calls: seq<Call>): real
    requires calls != []
  {
    Consume(Run(b, calls[..|calls| - 1]), calls[|calls| - 1]).1
  }

  function Granted(calls: seq<Call>): nat {
    if calls == [] then 0 else Granted(calls[..|calls| - 1]) + calls[|calls| - 1].tokens
  }

  /** Tokens that flow in between two times. */
  function Flow(rate: nat, from: real, to: real): real {
    (to - from) * rate as real
  }

  lemma {:induction false} FlowAdds(rate: nat, a: real, b: real, c: real)
    ensures Flow(rate, a, b) + Flow(rate, b, c) == Flow(rate, a, c)
  {
  }

  /** The level if the bucket had overflowed neither at call `m` nor later, having been full at call `m`. */
  function FullAt(rate: nat, calls: seq<Call>, m: nat): real
    requires m < |calls|
  {
    rate as real + Flow(rate, calls[m].now, calls[|calls| - 1].now) - Granted(calls[m..]) as real
  }

  /** The level if the bucket had never overflowed. */
  function NeverFull(b: Level, calls: seq<Call>): real
    requires calls != []
  {
    b.tokens + Flow(b.rate, b.last, calls[|calls| - 1].now) - Granted(calls) as real
  }

  lemma {:induction false} RunLast(b: Level, calls: seq<Call>)
    requires calls != [] && b.rate > 0
    ensures Run(b, calls).last == calls[|calls| - 1].now
  {
  }

  /** The level after one more call is the smaller of two lines. */
  lemma {:induction false} ConsumeIs(b: Level, c: Call)
    requires b.rate > 0
    ensures var r := Consume(b, c).0.tokens; var open := b.tokens + Flow(b.rate, b.last, c.now) - c.tokens as real;
            var full := b.rate as real - c.tokens as real;
            r <= open && r <= full && (r == open || r == full)
  {
  }

  lemma {:induction false} GrantedFrom(calls: seq<Call>, m: nat)
    requires m < |calls|
    ensures Granted(calls[m..]) == Granted(calls[..|calls| - 1][m..]) + calls[|calls| - 1].tokens
  {
    assert calls[m..][..|calls| - m - 1] == calls[..|calls| - 1][m..];
  }

  /** One more call moves each of the bounds along. */
  lemma {:induction false} FullAtStep(rate: nat, calls: seq<Call>, m: nat)
    requires m + 1 < |calls|
    ensures var n := |calls| - 1;
            FullAt(rate, calls, m) ==
            FullAt(rate, calls[..n], m) + Flow(rate, calls[n - 1].now, calls[n].now) - calls[n].tokens as real
  {
    var n := |calls| - 1;
    GrantedFrom(calls, m);
    FlowAdds(rate, calls[m].now, calls[n - 1].now, calls[n].now);
  }

  lemma {:induction false} NeverFullStep(b: Level, calls: seq<Call>)
    requires |calls| > 1
    ensures var n := |calls| - 1;
            NeverFull(b, calls) ==
            NeverFull(b, calls[..n]) + Flow(b.rate, calls[n - 1].now, calls[n].now) - calls[n].tokens as real
  {
    var n := |calls| - 1;
    FlowAdds(b.rate, b.last, calls[n - 1].now, calls[n].now);
  }

  lemma {:induction false} FullAtLast(rate: nat, calls: seq<Call>)
    requires calls != []
    ensures FullAt(rate, calls, |calls| - 1) == rate as real - calls[|calls| - 1].tokens as real
  {
    var n := |calls| - 1;
    GrantedFrom(calls, n);
    assert calls[..n][n..] == [];
  }

  /** The level never exceeds any of the bounds. */
  lemma {:induction false} LevelAtMost(b: Level, calls: seq<Call>, m: nat)
    requires m < |calls| && b.rate > 0
    ensures Run(b, calls).tokens <= FullAt(b.rate, calls, m)
    ensures Run(b, calls).tokens <= NeverFull(b, calls)
  {
    hide FullAt, NeverFull, Consume, Flow;
    var n := |calls| - 1;
    ConsumeIs(Run(b, calls[..n]), calls[n]);
    FullAtLast(b.rate, calls);
    if n == 0 {
      OneCall(b, calls);
    } else {
      RunLast(b, calls[..n]);
      LevelAtMost(b, calls[..n], if m < n then m else 0);
      NeverFullStep(b, calls);
      if m < n {
        FullAtStep(b.rate, calls, m);
      }
    }
  }

  lemma {:induction false} OneCall(b: Level, calls: seq<Call>)
    requires |calls| == 1
    ensures Run(b, calls[..0]) == b
    ensures NeverFull(b, calls) == b.tokens + Flow(b.rate, b.last, calls[0].now) - calls[0].tokens as real
  {
    assert calls[..0] == [];
    assert Granted(calls) == Granted(calls[..0]) + calls[0].tokens;
  }

  /** The level meets one of the bounds: it is exactly the smallest of them. */
  lemma {:induction false} LevelIsLeast(b: Level, calls: seq<Call>)
    requires calls != [] && b.rate > 0
    ensures || Run(b, calls).tokens == NeverFull(b, calls)
            || exists m: nat :: m < |calls| && Run(b, calls).tokens == FullAt(b.rate, calls, m)
  {
    hide FullAt, NeverFull, Consume, Flow;
    var n := |calls| - 1;
    ConsumeIs(Run(b, calls[..n]), calls[n]);
    FullAtLast(b.rate, calls);
    if n == 0 {
      OneCall(b, calls);
    } else if Run(b, calls).tokens != FullAt(b.rate, calls, n) {
      RunLast(b, calls[..n]);
      LevelIsLeast(b, calls[..n]);
      NeverFullStep(b, calls);
      if Run(b, calls[..n]).tokens != NeverFull(b, calls[..n]) {
        var m: nat :| m < n && Run(b, calls[..n]).tokens == FullAt(b.rate, calls[..n], m);
        FullAtStep(b.rate, calls, m);
      }
    }
  }

  /** The wait is what the bucket needs to get back to zero. */
  lemma {:induction false} WaitRefills(b: Level, calls: seq<Call>)
    requires calls != [] && b.rate > 0
    ensures Wait(b, calls) >= 0.0
    ensures Run(b, calls).tokens + Wait(b, calls) * b.rate as real ==
            if Run(b, calls).tokens >= 0.0 then Run(b, calls).tokens else 0.0
  {
    var n := |calls| - 1;
    var level := Run(b, calls[..n]);
    hide Run;
    var left := Consume(level, calls[n]).0.tokens;
    if left < 0.0 { DivideBack(-left, b.rate as real); }
  }

  lemma {:induction false} DivideBack(x: real, d: real)
    requires x > 0.0 && d > 0.0
    ensures x / d > 0.0 && x / d * d == x
  {
  }

  /**
   * Between call `i` and the last call, whose wait is taken into account, the tokens granted after
   * call `i` are at most what flows in, and one full bucket.
   */
  lemma {:induction false} GrantsBounded(b: Level, calls: seq<Call>, i: nat)
    requires i < |calls| && b.rate > 0
    ensures Granted(calls[i + 1..]) as real <=
            b.rate as real * (calls[|calls| - 1].now + Wait(b, calls) - calls[i].now) + b.rate as real
  {
    hide Run, Wait, Consume, Granted, Flow, FullAt, NeverFull;
    FullAtIs(b.rate, calls, i);
    LevelAtMost(b, calls, i);
    WaitRefills(b, calls);
    GrantedSplit(calls, i);
    GrantedWithin(b.rate, calls[i].now, calls[|calls| - 1].now, Wait(b, calls), Run(b, calls).tokens, calls[i].tokens,
        Granted(calls[i + 1..]));
  }

  lemma {:induction false} FullAtIs(rate: nat, calls: seq<Call>, m: nat)
    requires m < |calls|
    ensures FullAt(rate, calls, m) ==
            rate as real + Flow(rate, calls[m].now, calls[|calls| - 1].now) - Granted(calls[m..]) as real
  {
  }

  /** If the level, which the wait brings back to zero, is below the line from a full bucket, so is what was granted. */
  lemma {:induction false} GrantedWithin(rate: nat, from: real, to: real, wait: real, level: real, tokens: nat,
                                         granted: nat)
    requires level <= rate as real + Flow(rate, from, to) - (tokens + granted) as real
    requires level + wait * rate as real >= 0.0
    ensures granted as real <= rate as real * (to + wait - from) + rate as real
  {
    var r := rate as real;
    assert (to - from) * r + wait * r == r * (to + wait - from);
  }

  lemma {:induction false} GrantedSplit(calls: seq<Call>, i: nat)
    requires i < |calls|
    ensures Granted(calls[i..]) == calls[i].tokens + Granted(calls[i + 1..])
    decreases |calls|
  {
    var n := |calls| - 1;
    GrantedFrom(calls, i);
    if i < n {
      GrantedFrom(calls, i + 1);
      GrantedSplit(calls[..n], i);
    } else {
      assert calls[..n][n..] == [];
    }
  }

  // ---------------------------------------------------------------- the bucket

  /** The smallest of what is left of the start and of a full bucket at each of the calls. */
  ghost predicate IsLeast(tokens: real, b: Level, calls: seq<Call>)
    requires calls != []
  {
    && tokens <= NeverFull(b, calls) && (forall m: nat :: m < |calls| ==> tokens <= FullAt(b.rate, calls, m))
    && (tokens == NeverFull(b, calls) || exists m: nat :: m < |calls| && tokens == FullAt(b.rate, calls, m))
  }

  /** With the wait of the last call, no more was granted after any call than flowed in since, and one bucket. */
  ghost predicate WithinRate(rate: nat, calls: seq<Call>, wait: real)
    requires calls != []
  {
    forall i: nat :: i < |calls| ==>
      Granted(calls[i + 1..]) as real <= rate as real * (calls[|calls| - 1].now + wait - calls[i].now) + rate as real
  }

  lemma {:induction false} RunMore(b: Level, calls: seq<Call>, c: Call)
    ensures Run(b, calls + [c]) == Consume(Run(b, calls), c).0 && Wait(b, calls + [c]) == Consume(Run(b, calls), c).1
  {
    assert (calls + [c])[..|calls|] == calls;
  }

  lemma {:induction false} CallBounds(b: Level, calls: seq<Call>)
    requires calls != [] && b.rate > 0
    ensures IsLeast(Run(b, calls).tokens, b, calls) && WithinRate(b.rate, calls, Wait(b, calls))
  {
    hide Run, Wait, FullAt, NeverFull, Granted;
    forall m: nat | m < |calls|
      ensures Run(b, calls).tokens <= FullAt(b.rate, calls, m) && Run(b, calls).tokens <= NeverFull(b, calls)
    {
      LevelAtMost(b, calls, m);
    }
    assert Run(b, calls).tokens <= NeverFull(b, calls) by { LevelAtMost(b, calls, 0); }
    LevelIsLeast(b, calls);
    forall i: nat | i < |calls|
      ensures Granted(calls[i + 1..]) as real <=
              b.rate as real * (calls[|calls| - 1].now + Wait(b, calls) - calls[i].now) + b.rate as real
    {
      GrantsBounded(b, calls, i);
    }
  }

  lemma {:induction false} Unlimited(b: Level, c: Call)
    requires b.rate == 0
    ensures Consume(b, c) == (b, 0.0)
  {
  }

  class TokenBucket {
    var level: Level
    /** The level when the rate was last set, and the calls since. */
    ghost var start: Level
    ghost var calls: seq<Call>

    ghost predicate Valid()
      reads this
    {
      level == Run(start, calls)
    }

    constructor (now: real)
      ensures Valid() && level == Level(0.0, 0, now) && calls == []
    {
      level, start, calls := Level(0.0, 0, now), Level(0.0, 0, now), [];
    }

    /** Sets the rate, fills the bucket and starts counting anew. */
    method SetRate(rate: nat)
      requires Valid()
      modifies this
      ensures Valid() && level == Level(rate as real, rate, old(level).last) && calls == [] && start == level
    {
      level := level.(rate := rate, tokens := rate as real);
      start, calls := level, [];
    }

    /** Fills the bucket with what has flowed in since the last call, and takes tokens out. */
    method Draw(tokens: nat, now: real) returns (wait: real)
      requires level.rate > 0
      modifies this`level
      ensures (level, wait) == Consume(old(level), Call(now, tokens))
    {
      var lapse := now - level.last;
      level := level.(last := now);
      level := level.(tokens := level.tokens + lapse * level.rate as real);
      if level.tokens > level.rate as real {
        level := level.(tokens := level.rate as real);
      }
      level := level.(tokens := level.tokens - tokens as real);
      wait := if level.tokens >= 0.0 then 0.0 else -level.tokens / level.rate as real;
    }

    /**
     * Takes tokens and says how long to wait. Without a rate there is no limit. With one, the wait
     * brings the level back to zero and is no longer than that takes; since the rate was set, the
     * tokens taken after any call stay within what has flowed in by the end of the wait, and one
     * bucket; and the level is no lower than that bound demands.
     */
    method ConsumeTokens(tokens: nat, now: real) returns (wait: real)
      requires Valid()
      modifies this
      ensures Valid() && start == old(start) && calls == old(calls) + [Call(now, tokens)]
      ensures wait == Wait(start, calls) >= 0.0
      ensures start.rate == 0 ==> wait == 0.0 && level == old(level)
      ensures start.rate > 0 ==> WithinRate(start.rate, calls, wait) && IsLeast(level.tokens, start, calls)
      ensures start.rate > 0 ==>
                level.tokens + wait * start.rate as real == if level.tokens >= 0.0 then level.tokens else 0.0
    {
      hide Run, Wait, IsLeast, WithinRate, Consume;
      RunMore(start, calls, Call(now, tokens));
      calls := calls + [Call(now, tokens)];
      if level.rate == 0 {
        Unlimited(level, Call(now, tokens));
        return 0.0;
      }
      wait := Draw(tokens, now);
      CallBounds(start, calls);
      WaitRefills(start, calls);
    }
  }
}
