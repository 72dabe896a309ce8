/** `SimIntoTimeline`: the store read as a clock. Each call of `next` is one
    tick; it yields the next bucket when that bucket's timestamp is the
    current time and an empty tick otherwise, and ends once every bucket has
    been yielded. */
module SimTimeline {
  import opened Wrappers
  import opened Text
  import opened Comments
  import opened Instrs
  import opened InstrParse
  import opened SimStore

  /** The buckets from `index` on are non-empty, not behind the clock, and
      in strictly increasing time order. */
  predicate Ahead(bs: seq<seq<Instr>>, index: nat, time: nat) {
    && NonEmptyBuckets(bs)
    && index <= |bs|
    && (index < |bs| ==> time <= BucketTs(bs[index]))
    && (forall i, j :: index <= i < j < |bs| ==> BucketTs(bs[i]) < BucketTs(bs[j]))
  }

  /** Everything the clock still yields from this state, one item per tick:
      the bucket stamped with that tick's time, or nothing. */
  function Ticks(bs: seq<seq<Instr>>, index: nat, time: nat): (r: seq<Option<seq<Instr>>>)
    requires Ahead(bs, index, time)
    ensures |r| == if index < |bs| then BucketTs(Last(bs)) + 1 - time else 0
    ensures forall k :: 0 <= k < |r| && r[k].Some? ==>
      r[k].value in bs[index..] && BucketTs(r[k].value) == time + k
    decreases |bs| - index, if index < |bs| then BucketTs(bs[index]) - time else 0
  {
    if index == |bs| then []
    else if BucketTs(bs[index]) == time then
      var rest := Ticks(bs, index + 1, time + 1);
      assert forall k :: 1 <= k < |rest| + 1 ==> ([Some(bs[index])] + rest)[k] == rest[k - 1];
      [Some(bs[index])] + rest
    else
      var rest := Ticks(bs, index, time + 1);
      assert forall k :: 1 <= k < |rest| + 1 ==> ([None] + rest)[k] == rest[k - 1];
      [None] + rest
  }

  /** The buckets among the ticks, in order. */
  function Yielded(items: seq<Option<seq<Instr>>>): seq<seq<Instr>> {
    if items == [] then []
    else (if items[0].Some? then [items[0].value] else []) + Yielded(items[1..])
  }

  /** Each remaining bucket is yielded exactly once, in order. */
  lemma {:induction false} EveryBucketOnce(bs: seq<seq<Instr>>, index: nat, time: nat)
    requires Ahead(bs, index, time)
    ensures Yielded(Ticks(bs, index, time)) == bs[index..]
    decreases |bs| - index, if index < |bs| then BucketTs(bs[index]) - time else 0
  {
    if index < |bs| {
      if BucketTs(bs[index]) == time {
        AheadStep(bs, index, time);
        var rest := Ticks(bs, index + 1, time + 1);
        assert Ticks(bs, index, time) == [Some(bs[index])] + rest;
        YieldedCons(Some(bs[index]), rest);
        EveryBucketOnce(bs, index + 1, time + 1);
        assert bs[index..] == [bs[index]] + bs[index + 1..];
      } else {
        AheadStep(bs, index, time);
        var rest := Ticks(bs, index, time + 1);
        assert Ticks(bs, index, time) == [None] + rest;
        YieldedCons(None, rest);
        EveryBucketOnce(bs, index, time + 1);
      }
    }
  }

  /** One tick keeps the clock behind the remaining buckets. */
  lemma AheadStep(bs: seq<seq<Instr>>, index: nat, time: nat)
    requires Ahead(bs, index, time) && index < |bs|
    ensures BucketTs(bs[index]) == time ==> Ahead(bs, index + 1, time + 1)
    ensures BucketTs(bs[index]) != time ==> Ahead(bs, index, time + 1)
  {
  }

  lemma YieldedCons(x: Option<seq<Instr>>, rest: seq<Option<seq<Instr>>>)
    ensures Yielded([x] + rest) == (if x.Some? then [x.value] else []) + Yielded(rest)
  {
    assert ([x] + rest)[1..] == rest;
  }

  /** A bucket comes out at the tick equal to its timestamp. */
  lemma {:induction false} BucketAtItsTime(bs: seq<seq<Instr>>, index: nat, time: nat, j: nat)
    requires Ahead(bs, index, time) && index <= j < |bs|
    ensures time <= BucketTs(bs[j])
    ensures BucketTs(bs[j]) - time < |Ticks(bs, index, time)|
    ensures Ticks(bs, index, time)[BucketTs(bs[j]) - time] == Some(bs[j])
    decreases |bs| - index, BucketTs(bs[index]) - time
  {
    var r := Ticks(bs, index, time);
    var k := BucketTs(bs[j]) - time;
    if BucketTs(bs[index]) == time {
      if j > index {
        var rest := Ticks(bs, index + 1, time + 1);
        assert r == [Some(bs[index])] + rest;
        BucketAtItsTime(bs, index + 1, time + 1, j);
        assert r[k] == rest[k - 1];
      }
    } else {
      var rest := Ticks(bs, index, time + 1);
      assert r == [None] + rest;
      BucketAtItsTime(bs, index, time + 1, j);
      assert r[k] == rest[k - 1];
    }
  }

  /** Starting the clock at 0 over buckets in strictly increasing time
      order whose instructions share their bucket's timestamp, the item at
      tick `t` is a bucket exactly when some bucket is stamped `t`, and every
      instruction in it has timestamp `t`. */
  lemma InstructionsMatchTheClock(bs: seq<seq<Instr>>, t: nat)
    requires StrictlyIncreasing(bs) && Uniform(bs)
    requires t < |Ticks(bs, 0, 0)|
    ensures Ticks(bs, 0, 0)[t].Some? <==> exists b :: b in bs && BucketTs(b) == t
    ensures Ticks(bs, 0, 0)[t].Some? ==>
      forall instr :: instr in Ticks(bs, 0, 0)[t].value ==> instr.Timestamp() == t
  {
    var r := Ticks(bs, 0, 0);
    assert bs[0..] == bs;
    if b :| b in bs && BucketTs(b) == t {
      var j :| 0 <= j < |bs| && bs[j] == b;
      BucketAtItsTime(bs, 0, 0, j);
    }
    if r[t].Some? {
      var j :| 0 <= j < |bs| && bs[j] == r[t].value;
      assert UniformBucket(bs[j]);
      forall instr | instr in r[t].value ensures instr.Timestamp() == t {
        var k :| 0 <= k < |bs[j]| && bs[j][k] == instr;
      }
    }
  }

  /** `timeline(start_time, sims)`: the ticks numbered from `start_time`. */
  function Timeline(start: nat, items: seq<Option<seq<Instr>>>): (r: seq<(nat, Option<seq<Instr>>)>)
    ensures |r| == |items|
    ensures forall k :: 0 <= k < |r| ==> r[k] == (start + k, items[k])
  {
    seq(|items|, k requires 0 <= k < |items| => (start + k, items[k]))
  }

  /** Numbered from 0, each tick's number is the timestamp of every
      instruction yielded with it. */
  lemma TimelineFromZero(xs: seq<Instr>)
    requires NonDecreasing(xs)
    ensures StrictlyIncreasing(Group(xs))
    ensures var tl := Timeline(0, Ticks(Group(xs), 0, 0));
      forall k, instr :: 0 <= k < |tl| && tl[k].1.Some? && instr in tl[k].1.value ==> instr.Timestamp() == tl[k].0
  {
    SortedInputGivesIncreasingBuckets(xs);
    GroupIsGrouping(xs);
    var tl := Timeline(0, Ticks(Group(xs), 0, 0));
    forall k | 0 <= k < |tl| && tl[k].1.Some?
      ensures forall instr :: instr in tl[k].1.value ==> instr.Timestamp() == tl[k].0
    {
      InstructionsMatchTheClock(Group(xs), k);
    }
  }

  /** The state of the clock: the next bucket and the current time. */
  datatype Clock = Clock(index: nat, time: nat)

  /** One call of `next` on an unbounded clock: nothing once the buckets are
      exhausted, else the item for this tick and the following state. */
  function Step(bs: seq<seq<Instr>>, c: Clock): (r: Option<(Option<seq<Instr>>, Clock)>)
    requires c.index < |bs| ==> |bs[c.index]| > 0
  {
    if c.index >= |bs| then None
    else if BucketTs(bs[c.index]) == c.time then Some((Some(bs[c.index]), Clock(c.index + 1, c.time + 1)))
    else Some((None, Clock(c.index, c.time + 1)))
  }

  /** The items of `n` calls of `next` (fewer if the clock ends) and the
      state after them. */
  function Run(bs: seq<seq<Instr>>, c: Clock, n: nat): (r: (seq<Option<seq<Instr>>>, Clock))
    requires NonEmptyBuckets(bs)
    ensures |r.0| <= n
    decreases n
  {
    if n == 0 then ([], c)
    else match Step(bs, c)
      case None => ([], c)
      case Some((item, c')) =>
        var (items, last) := Run(bs, c', n - 1);
        ([item] + items, last)
  }

  /** In any bucket order, a bucket comes out only on the call where the
      clock equals its timestamp: the `k`-th call from `c` yields
      instructions stamped `c.time + k`. */
  lemma {:induction false} RunStamps(bs: seq<seq<Instr>>, c: Clock, n: nat, k: nat)
    requires NonEmptyBuckets(bs) && Uniform(bs)
    requires k < |Run(bs, c, n).0| && Run(bs, c, n).0[k].Some?
    ensures forall instr :: instr in Run(bs, c, n).0[k].value ==> instr.Timestamp() == c.time + k
    decreases n
  {
    var (item, c') := Step(bs, c).value;
    if k == 0 {
      var b := bs[c.index];
      assert item == Some(b) && BucketTs(b) == c.time;
      assert UniformBucket(b);
      forall instr | instr in b ensures instr.Timestamp() == c.time {
        var j :| 0 <= j < |b| && b[j] == instr;
      }
    } else {
      RunStamps(bs, c', n - 1, k - 1);
    }
  }

  /** For every instruction file, in time order or not, the first `n` calls
      numbered from 0 keep the clock's promise: each instruction yielded with
      number `t` has timestamp `t`. */
  lemma ClockStampsAnyInput(xs: seq<Instr>, n: nat)
    ensures NonEmptyBuckets(Group(xs))
    ensures var tl := Timeline(0, Run(Group(xs), Clock(0, 0), n).0);
      forall k, instr :: 0 <= k < |tl| && tl[k].1.Some? && instr in tl[k].1.value ==> instr.Timestamp() == tl[k].0
  {
    GroupShape(xs);
    var items := Run(Group(xs), Clock(0, 0), n).0;
    var tl := Timeline(0, items);
    forall k | 0 <= k < |tl| && tl[k].1.Some?
      ensures forall instr :: instr in tl[k].1.value ==> instr.Timestamp() == tl[k].0
    {
      assert tl[k] == (k, items[k]);
      RunStamps(Group(xs), Clock(0, 0), n, k);
    }
  }

  lemma GroupShape(xs: seq<Instr>)
    ensures NonEmptyBuckets(Group(xs)) && Uniform(Group(xs))
  {
    GroupIsGrouping(xs);
  }

  /** A bucket already behind the clock is never yielded, and neither is any
      bucket after it: every call is an empty tick and the clock never ends. */
  lemma {:induction false} BehindNeverYielded(bs: seq<seq<Instr>>, c: Clock, n: nat)
    requires NonEmptyBuckets(bs) && c.index < |bs| && BucketTs(bs[c.index]) < c.time
    ensures Run(bs, c, n) == (EmptyTicks(n), Clock(c.index, c.time + n))
    decreases n
  {
    if n > 0 {
      BehindNeverYielded(bs, Clock(c.index, c.time + 1), n - 1);
    }
  }

  /** `n` empty ticks. */
  function EmptyTicks(n: nat): seq<Option<seq<Instr>>> {
    if n == 0 then [] else [None] + EmptyTicks(n - 1)
  }

  /** The clock iterator over a store's buckets. */
  class SimIntoTimeline {
    const buckets: seq<seq<Instr>>
    var index: nat
    var time: nat

    /** `Sim::into_timeline`: the first bucket, at time 0. */
    constructor (buckets: seq<seq<Instr>>)
      ensures this.buckets == buckets && index == 0 && time == 0
    {
      this.buckets := buckets;
      index := 0;
      time := 0;
    }

    /** What the clock still yields. */
    function Remaining(): seq<Option<seq<Instr>>>
      reads this
      requires Ahead(buckets, index, time)
    {
      Ticks(buckets, index, time)
    }

    /** `next`: nothing once every bucket is out; otherwise the current
      bucket when its timestamp is the current time (moving past it) or an
      empty tick, and the clock advances by one. */
    method Next() returns (r: Option<Option<seq<Instr>>>)
      requires index < |buckets| ==> |buckets[index]| > 0
      modifies this
      ensures Step(buckets, Clock(old(index), old(time))) ==
        if r.None? then None else Some((r.value, Clock(index, time)))
      ensures r.None? ==> index == old(index) && time == old(time)
      ensures old(Ahead(buckets, index, time)) ==>
        && Ahead(buckets, index, time)
        && old(Remaining()) == if r.None? then [] else [r.value] + Remaining()
    {
      if index >= |buckets| {
        return None;
      }
      var result := buckets[index];
      var ret: Option<seq<Instr>>;
      var currTimestamp := result[0].Timestamp();
      if currTimestamp == time {
        ret := Some(result);
        index := index + 1;
      } else {
        ret := None;
      }
      time := time + 1;
      r := Some(ret);
    }
  }

  // -----------------------------------------------------------------------
  // The clock as written: a `u32` incremented after every tick.

  datatype StepAsWrittenResult = Finished | Ticked(item: Option<seq<Instr>>, next: Clock) | Overflow

  /** One call of `next` with the clock a `u32`: `self.time += 1` on
      2^32 - 1 overflows, which panics in a debug build, even on the tick
      that yields the last bucket. Below that it agrees with `Step`. */
  function StepAsWritten(bs: seq<seq<Instr>>, c: Clock): (r: StepAsWrittenResult)
    requires c.index < |bs| ==> |bs[c.index]| > 0
    requires c.time <= U32_MAX
    ensures r.Finished? <==> Step(bs, c).None?
    ensures r.Overflow? <==> Step(bs, c).Some? && c.time == U32_MAX
    ensures r.Ticked? ==> Step(bs, c) == Some((r.item, r.next))
  {
    if c.index >= |bs| then Finished
    else if c.time == U32_MAX then Overflow
    else if BucketTs(bs[c.index]) == c.time then Ticked(Some(bs[c.index]), Clock(c.index + 1, c.time + 1))
    else Ticked(None, Clock(c.index, c.time + 1))
  }

  /** The state after `n` calls as written, or nothing if the iteration has
      ended or panicked by then. */
  function RunAsWritten(bs: seq<seq<Instr>>, n: nat): Option<Clock>
    requires NonEmptyBuckets(bs)
  {
    if n == 0 then Some(Clock(0, 0))
    else match RunAsWritten(bs, n - 1)
      case None => None
      case Some(c) =>
        if c.time > U32_MAX then None
        else match StepAsWritten(bs, c)
          case Ticked(_, next) => Some(next)
          case _ => None
  }

  /** A store whose one bucket is an `endSim` at the largest timestamp. */
  const LastTickStore: seq<seq<Instr>> := [[EndSim(EndInstr(U32_MAX))]]

  lemma {:induction false} EmptyTicksBeforeLast(n: nat)
    requires n <= U32_MAX
    ensures RunAsWritten(LastTickStore, n) == Some(Clock(0, n))
  {
    if n > 0 {
      EmptyTicksBeforeLast(n - 1);
    }
  }

  /** The line `4294967295,endSim` loads into exactly that store. */
  lemma LastTickLoads()
    ensures LoadSpec([RenderInstr(EndSim(EndInstr(U32_MAX)))]) == Ok(LastTickStore)
  {
    var i := EndSim(EndInstr(U32_MAX));
    var line := RenderInstr(i);
    ParseRendered(i);
    RenderParse(U32_MAX);
    assert !IsDigit('#');
    assert RenderTokens(i) == [Render(U32_MAX), EndSimKind];
    assert Join([EndSimKind], ',') == EndSimKind;
    assert line == Render(U32_MAX) + [','] + EndSimKind;
    assert '#' !in line;
    assert StripComment(line) == line;
    assert Kept(line) == [i];
    assert [line][..0] == [];
    assert Accepted([line]) == [i];
    assert [i][..0] == [];
    assert Group([i]) == LastTickStore;
  }

  /** As written, the clock reaches the last bucket's tick after 2^32 - 1
      empty ticks and then overflows instead of yielding it. */
  lemma OverflowAtLastTick()
    ensures RunAsWritten(LastTickStore, U32_MAX) == Some(Clock(0, U32_MAX))
    ensures StepAsWritten(LastTickStore, Clock(0, U32_MAX)) == Overflow
  {
    EmptyTicksBeforeLast(U32_MAX);
  }

  /** With an unbounded clock the same store yields its bucket on the last
      of 2^32 ticks and then ends. */
  lemma UnboundedClockYieldsLastTick()
    ensures Ahead(LastTickStore, 0, 0)
    ensures |Ticks(LastTickStore, 0, 0)| == U32_LIMIT
    ensures Ticks(LastTickStore, 0, 0)[U32_MAX] == Some(LastTickStore[0])
  {
    BucketAtItsTime(LastTickStore, 0, 0, 0);
  }
}
