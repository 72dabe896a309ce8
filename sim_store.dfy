/** The simulation store (`Sim`): instructions are read line by line and kept
    in buckets (`InstrSet`), one per run of consecutive instructions with the
    same timestamp. Two cursors, the previous timestamp and the index of the
    current bucket, decide whether an instruction joins the current bucket
    or opens the next one. */
module SimStore {
  import opened Wrappers
  import opened Comments
  import opened Instrs
  import opened InstrParse

  function Last<T>(s: seq<T>): T
    requires |s| > 0
  {
    s[|s| - 1]
  }

  /** The buckets' instructions, in bucket order. */
  function Flatten(bs: seq<seq<Instr>>): seq<Instr> {
    if bs == [] then [] else Flatten(bs[..|bs| - 1]) + Last(bs)
  }

  lemma FlattenSnoc(bs: seq<seq<Instr>>, b: seq<Instr>)
    ensures Flatten(bs + [b]) == Flatten(bs) + b
  {
    assert (bs + [b])[..|bs|] == bs;
  }

  predicate NonEmptyBuckets(g: seq<seq<Instr>>) {
    forall i :: 0 <= i < |g| ==> |g[i]| > 0
  }

  /** The instructions of bucket `b` share one timestamp. */
  predicate UniformBucket(b: seq<Instr>) {
    forall j :: 0 <= j < |b| ==> b[j].Timestamp() == b[0].Timestamp()
  }

  /** The instructions of each bucket share one timestamp. */
  predicate Uniform(g: seq<seq<Instr>>) {
    forall i :: 0 <= i < |g| ==> UniformBucket(g[i])
  }

  /** Neighbouring buckets have different timestamps. */
  predicate NeighboursDiffer(g: seq<seq<Instr>>)
    requires NonEmptyBuckets(g)
  {
    forall i :: 0 <= i < |g| - 1 ==> Last(g[i]).Timestamp() != g[i + 1][0].Timestamp()
  }

  /** One insertion: onto the last bucket when the instruction before it has
      the same timestamp, else into a new bucket holding just this one. */
  function Push(g: seq<seq<Instr>>, x: Instr): (r: seq<seq<Instr>>)
    requires NonEmptyBuckets(g)
    ensures NonEmptyBuckets(r) && |r| > 0 && Last(Last(r)) == x
    ensures |r| == |g| || |r| == |g| + 1
  {
    if g != [] && Last(Last(g)).Timestamp() == x.Timestamp() then g[..|g| - 1] + [Last(g) + [x]]
    else g + [[x]]
  }

  /** The buckets the store holds after inserting `xs` in order. */
  function Group(xs: seq<Instr>): (g: seq<seq<Instr>>)
    ensures NonEmptyBuckets(g)
    ensures g == [] <==> xs == []
    ensures xs != [] ==> Last(Last(g)) == Last(xs)
  {
    if xs == [] then [] else Push(Group(xs[..|xs| - 1]), Last(xs))
  }

  /** `g` splits `xs` into buckets as the store should: no bucket is empty,
      a bucket's instructions share one timestamp, neighbouring buckets have
      different timestamps, and the buckets in order hold exactly `xs`. */
  predicate IsGrouping(xs: seq<Instr>, g: seq<seq<Instr>>) {
    NonEmptyBuckets(g) && Uniform(g) && NeighboursDiffer(g) && Flatten(g) == xs
  }

  /** One insertion keeps a grouping a grouping, of the longer input. */
  lemma PushKeepsGrouping(xs: seq<Instr>, g: seq<seq<Instr>>, x: Instr)
    requires IsGrouping(xs, g)
    ensures IsGrouping(xs + [x], Push(g, x))
  {
    var r: seq<seq<Instr>> := Push(g, x);
    if g != [] && Last(Last(g)).Timestamp() == x.Timestamp() {
      var init := g[..|g| - 1];
      var b := Last(g);
      assert g == init + [b];
      FlattenSnoc(init, b);
      FlattenSnoc(init, b + [x]);
      assert r == init + [b + [x]];
      assert UniformBucket(b + [x]) by {
        assert UniformBucket(g[|g| - 1]) && g[|g| - 1] == b;
        assert b[|b| - 1] == Last(Last(g));
        forall j | 0 <= j < |b| + 1 ensures (b + [x])[j].Timestamp() == (b + [x])[0].Timestamp() {
          if j < |b| {
            assert (b + [x])[j] == b[j];
          }
        }
      }
      forall i | 0 <= i < |r| ensures UniformBucket(r[i]) {
        if i < |r| - 1 {
          assert r[i] == g[i];
        }
      }
      forall i | 0 <= i < |r| - 1
        ensures Last(r[i]).Timestamp() != r[i + 1][0].Timestamp()
      {
        assert r[i] == g[i];
        assert r[i + 1][0] == g[i + 1][0];
      }
    } else {
      FlattenSnoc(g, [x]);
      assert r == g + [[x]];
      forall i | 0 <= i < |r| ensures UniformBucket(r[i]) {
        if i < |g| {
          assert r[i] == g[i];
        }
      }
      forall i | 0 <= i < |r| - 1
        ensures Last(r[i]).Timestamp() != r[i + 1][0].Timestamp()
      {
        assert r[i] == g[i];
        if i + 1 < |g| {
          assert r[i + 1] == g[i + 1];
        }
      }
    }
  }

  /** The store's buckets are a grouping of its input. */
  lemma {:induction false} GroupIsGrouping(xs: seq<Instr>)
    ensures IsGrouping(xs, Group(xs))
    decreases |xs|
  {
    if xs != [] {
      var front := xs[..|xs| - 1];
      GroupIsGrouping(front);
      PushKeepsGrouping(front, Group(front), Last(xs));
      assert front + [Last(xs)] == xs;
    }
  }

  /** The buckets before the last insertion. */
  function Pop(g: seq<seq<Instr>>): (r: seq<seq<Instr>>)
    requires NonEmptyBuckets(g) && g != []
    ensures NonEmptyBuckets(r)
  {
    var b := Last(g);
    if |b| == 1 then g[..|g| - 1] else g[..|g| - 1] + [b[..|b| - 1]]
  }

  /** Every non-empty grouping is the previous grouping with the last
      instruction pushed. */
  lemma PopGrouping(xs: seq<Instr>, g: seq<seq<Instr>>)
    requires IsGrouping(xs, g) && g != []
    ensures xs != [] && IsGrouping(xs[..|xs| - 1], Pop(g)) && Push(Pop(g), Last(xs)) == g
  {
    FlattenSnoc(g[..|g| - 1], Last(g));
    assert g == g[..|g| - 1] + [Last(g)];
    if |Last(g)| == 1 {
      PopSingleton(xs, g);
    } else {
      PopShorten(xs, g);
    }
  }

  /** Case of `PopGrouping`: the last bucket holds one instruction. */
  lemma PopSingleton(xs: seq<Instr>, g: seq<seq<Instr>>)
    requires IsGrouping(xs, g) && g != [] && |Last(g)| == 1
    requires xs == Flatten(g[..|g| - 1]) + Last(g)
    ensures xs != [] && IsGrouping(xs[..|xs| - 1], Pop(g)) && Push(Pop(g), Last(xs)) == g
  {
    var init := g[..|g| - 1];
    var b := Last(g);
    var x := b[0];
    assert b == [x] && Pop(g) == init && Last(xs) == x;
    assert g == init + [b];
    assert xs[..|xs| - 1] == Flatten(init);
    forall i | 0 <= i < |init| ensures UniformBucket(init[i]) {
      assert init[i] == g[i];
    }
    forall i | 0 <= i < |init| - 1
      ensures Last(init[i]).Timestamp() != init[i + 1][0].Timestamp()
    {
      assert init[i] == g[i] && init[i + 1] == g[i + 1];
    }
    if init != [] {
      assert Last(init) == g[|g| - 2];
    }
  }

  /** Case of `PopGrouping`: the last bucket holds several instructions. */
  lemma PopShorten(xs: seq<Instr>, g: seq<seq<Instr>>)
    requires IsGrouping(xs, g) && g != [] && |Last(g)| > 1
    requires xs == Flatten(g[..|g| - 1]) + Last(g)
    ensures xs != [] && IsGrouping(xs[..|xs| - 1], Pop(g)) && Push(Pop(g), Last(xs)) == g
  {
    var init := g[..|g| - 1];
    var b := Last(g);
    var b' := b[..|b| - 1];
    assert b == b' + [Last(b)] && Last(xs) == Last(b);
    FlattenSnoc(init, b');
    assert xs[..|xs| - 1] == Flatten(init + [b']);
    ShortenKeepsShape(g);
    ShortenThenPush(g);
  }

  /** Dropping the last instruction of a bucket of several keeps the bucket
      uniform, with the same first and last timestamps. */
  lemma ShortenBucket(b: seq<Instr>)
    requires UniformBucket(b) && |b| > 1
    ensures UniformBucket(b[..|b| - 1]) && b[..|b| - 1][0] == b[0]
    ensures Last(b[..|b| - 1]).Timestamp() == Last(b).Timestamp()
  {
    var b' := b[..|b| - 1];
    forall j | 0 <= j < |b'| ensures b'[j].Timestamp() == b'[0].Timestamp() {
      assert b'[j] == b[j];
    }
  }

  lemma ShortenKeepsShape(g: seq<seq<Instr>>)
    requires NonEmptyBuckets(g) && Uniform(g) && NeighboursDiffer(g) && g != [] && |Last(g)| > 1
    ensures Uniform(Pop(g)) && NeighboursDiffer(Pop(g))
  {
    var b := Last(g);
    var r: seq<seq<Instr>> := Pop(g);
    assert UniformBucket(g[|g| - 1]) && g[|g| - 1] == b;
    ShortenBucket(b);
    assert |r| == |g| && r[|g| - 1] == b[..|b| - 1];
    forall i | 0 <= i < |r| ensures UniformBucket(r[i]) {
      if i < |g| - 1 {
        assert r[i] == g[i];
      }
    }
    forall i | 0 <= i < |r| - 1
      ensures Last(r[i]).Timestamp() != r[i + 1][0].Timestamp()
    {
      assert r[i] == g[i];
      assert r[i + 1][0] == g[i + 1][0];
    }
  }

  lemma ShortenThenPush(g: seq<seq<Instr>>)
    requires NonEmptyBuckets(g) && Uniform(g) && g != [] && |Last(g)| > 1
    ensures Push(Pop(g), Last(Last(g))) == g
  {
    var b := Last(g);
    var r: seq<seq<Instr>> := Pop(g);
    assert UniformBucket(g[|g| - 1]) && g[|g| - 1] == b;
    ShortenBucket(b);
    assert r != [] && Last(r) == b[..|b| - 1];
    assert Last(Last(r)).Timestamp() == Last(b).Timestamp();
    assert r[..|r| - 1] == g[..|g| - 1];
    assert b[..|b| - 1] + [Last(b)] == b;
  }

  /** Grouping is unique: any bucketing with the four properties above is the
      one the store builds. */
  lemma {:induction false} GroupingIsUnique(xs: seq<Instr>, g: seq<seq<Instr>>)
    requires IsGrouping(xs, g)
    ensures g == Group(xs)
    decreases |xs|
  {
    if g == [] {
      assert xs == Flatten(g) == [];
    } else {
      PopGrouping(xs, g);
      GroupingIsUnique(xs[..|xs| - 1], Pop(g));
    }
  }

  predicate NonDecreasing(xs: seq<Instr>) {
    forall i, j :: 0 <= i < j < |xs| ==> xs[i].Timestamp() <= xs[j].Timestamp()
  }

  function BucketTs(b: seq<Instr>): U32
    requires |b| > 0
  {
    b[0].Timestamp()
  }

  /** Every bucket is non-empty and the buckets' timestamps strictly increase. */
  predicate StrictlyIncreasing(bs: seq<seq<Instr>>) {
    NonEmptyBuckets(bs) && forall i, j :: 0 <= i < j < |bs| ==> BucketTs(bs[i]) < BucketTs(bs[j])
  }

  lemma PushIncreasing(g: seq<seq<Instr>>, x: Instr)
    requires StrictlyIncreasing(g) && Uniform(g)
    requires g != [] ==> Last(Last(g)).Timestamp() <= x.Timestamp()
    ensures StrictlyIncreasing(Push(g, x))
  {
    var r: seq<seq<Instr>> := Push(g, x);
    if g != [] && Last(Last(g)).Timestamp() == x.Timestamp() {
      forall i, j | 0 <= i < j < |r| ensures BucketTs(r[i]) < BucketTs(r[j]) {
        assert r[i] == g[i] && r[j][0] == g[j][0];
      }
    } else if g != [] {
      var n := |g| - 1;
      assert BucketTs(g[n]) == Last(Last(g)).Timestamp() by {
        assert UniformBucket(g[n]);
        assert g[n][|g[n]| - 1] == Last(Last(g));
      }
      forall i, j | 0 <= i < j < |r| ensures BucketTs(r[i]) < BucketTs(r[j]) {
        assert r[i] == g[i];
        if j < |g| {
          assert r[j] == g[j];
        } else {
          assert r[j] == [x];
          assert BucketTs(g[i]) <= BucketTs(g[n]);
        }
      }
    }
  }

  /** Input in time order gives buckets in strictly increasing time order. */
  lemma {:induction false} SortedInputGivesIncreasingBuckets(xs: seq<Instr>)
    requires NonDecreasing(xs)
    ensures StrictlyIncreasing(Group(xs))
    decreases |xs|
  {
    if xs != [] {
      var front := xs[..|xs| - 1];
      var x := xs[|xs| - 1];
      NonDecreasingFront(xs);
      SortedInputGivesIncreasingBuckets(front);
      GroupIsGrouping(front);
      var g := Group(front);
      if front != [] {
        assert Last(Last(g)) == xs[|xs| - 2];
        assert xs[|xs| - 2].Timestamp() <= x.Timestamp();
      }
      PushIncreasing(g, x);
    }
  }

  lemma NonDecreasingFront(xs: seq<Instr>)
    requires NonDecreasing(xs) && xs != []
    ensures NonDecreasing(xs[..|xs| - 1])
  {
    var front := xs[..|xs| - 1];
    forall i, j | 0 <= i < j < |front| ensures front[i].Timestamp() <= front[j].Timestamp() {
      assert front[i] == xs[i] && front[j] == xs[j];
    }
  }

  /** What the loader keeps of one line: nothing for a line that is blank
      once its comment is stripped or that `parse_instr` rejects, else the
      parsed instruction. */
  function Kept(line: string): (r: seq<Instr>)
    ensures |r| <= 1
    ensures r == [] <==> StripComment(line) == [] || ParseInstr(StripComment(line)).Err?
    ensures r != [] ==> Ok(r[0]) == ParseInstr(StripComment(line))
  {
    var s := StripComment(line);
    if s == [] then []
    else match ParseInstr(s)
      case Ok(i) => [i]
      case Err(_) => []
  }

  /** The instructions the loader accepts, in input order. */
  function Accepted(lines: seq<string>): seq<Instr> {
    if lines == [] then [] else Accepted(lines[..|lines| - 1]) + Kept(Last(lines))
  }

  /** The load's answer: no accepted instruction is `EmptyContents`, a last
      instruction other than `endSim` is `MismatchEndSimToken`. */
  function LoadSpec(lines: seq<string>): Result<seq<seq<Instr>>, SimErrCode> {
    var g := Group(Accepted(lines));
    if g == [] then Err(EmptyContents)
    else if !Last(Last(g)).IsEndSim() then Err(MismatchEndSimToken)
    else Ok(g)
  }

  /** The three outcomes of a load, stated on the accepted instructions. */
  lemma LoadOutcomes(lines: seq<string>)
    ensures LoadSpec(lines) == Err(EmptyContents) <==> Accepted(lines) == []
    ensures LoadSpec(lines) == Err(MismatchEndSimToken) <==>
      Accepted(lines) != [] && !Last(Accepted(lines)).IsEndSim()
    ensures LoadSpec(lines).Ok? <==> Accepted(lines) != [] && Last(Accepted(lines)).IsEndSim()
    ensures LoadSpec(lines).Ok? ==> IsGrouping(Accepted(lines), LoadSpec(lines).value)
  {
    GroupIsGrouping(Accepted(lines));
  }

  lemma AcceptedNext(lines: seq<string>, i: nat)
    requires i < |lines|
    ensures Accepted(lines[..i + 1]) == Accepted(lines[..i]) + Kept(lines[i])
  {
    assert lines[..i + 1][..i] == lines[..i];
  }

  /** What one more line adds to the accepted instructions. */
  lemma LineStep(lines: seq<string>, i: nat)
    requires i < |lines|
    ensures var s := StripComment(lines[i]);
      && (s == [] || ParseInstr(s).Err? ==> Accepted(lines[..i + 1]) == Accepted(lines[..i]))
      && (s != [] && ParseInstr(s).Ok? ==> Accepted(lines[..i + 1]) == Accepted(lines[..i]) + [ParseInstr(s).value])
  {
    AcceptedNext(lines, i);
  }

  /** A line that is blank, a comment, or rejected by the parser is skipped
      and the load goes on with the next one. */
  lemma SkippedLine(lines: seq<string>, line: string, rest: seq<string>)
    requires StripComment(line) == [] || ParseInstr(StripComment(line)).Err?
    ensures Accepted(lines + [line]) == Accepted(lines)
  {
    assert (lines + [line])[..|lines|] == lines;
  }

  /** The cursors agree with the buckets built from `xs`: until the first
      instruction the current index is 0; afterwards it indexes the last
      bucket and the previous timestamp is the last instruction's. */
  predicate Tracks(xs: seq<Instr>, bs: seq<seq<Instr>>, prev: U32, curr: nat) {
    && bs == Group(xs)
    && (xs == [] ==> curr == 0)
    && (xs != [] ==> curr == |bs| - 1 && prev == Last(xs).Timestamp())
  }

  /** `insert_helper`'s effect: onto the bucket at `curr` when there is one,
      else onto a new bucket at the end. */
  function HelperSpec(bs: seq<seq<Instr>>, curr: nat, instr: Instr): seq<seq<Instr>> {
    if curr < |bs| then bs[curr := bs[curr] + [instr]] else bs + [[instr]]
  }

  /** The store: the buckets (`instr_set_set`), each an `InstrSet`. */
  class Sim {
    var buckets: seq<seq<Instr>>

    constructor ()
      ensures buckets == []
    {
      buckets := [];
    }

    /** `insert_helper`. */
    method InsertHelper(curr: nat, instr: Instr)
      modifies this
      ensures buckets == HelperSpec(old(buckets), curr, instr)
    {
      if curr < |buckets| {
        buckets := buckets[curr := buckets[curr] + [instr]];
      } else {
        buckets := buckets + [[instr]];
      }
    }

    /** `Sim::insert`: a changed timestamp moves the current index past an
      existing bucket; the instruction then goes where the index points.
      Starting from cursors that track `xs`, the cursors afterwards track
      `xs` with the instruction appended. */
    method Insert(instr: Instr, prev: U32, curr: nat, ghost xs: seq<Instr>) returns (prev': U32, curr': nat)
      modifies this
      ensures prev' == instr.Timestamp()
      ensures curr' == if instr.Timestamp() != prev && curr < |old(buckets)| then curr + 1 else curr
      ensures buckets == HelperSpec(old(buckets), curr', instr)
      ensures Tracks(xs, old(buckets), prev, curr) ==> Tracks(xs + [instr], buckets, prev', curr')
    {
      prev', curr' := prev, curr;
      if instr.Timestamp() != prev' {
        prev' := instr.Timestamp();
        if curr' < |buckets| {
          curr' := curr' + 1;
        }
      }
      ghost var before := buckets;
      InsertHelper(curr', instr);
      if Tracks(xs, before, prev, curr) {
        InsertTracks(xs, before, prev, curr, instr);
      }
    }

    /** `Sim::from_file` once the file's lines are read: every accepted
      instruction is inserted, then the last bucket's last instruction must
      be `endSim`. */
    static method FromLines(lines: seq<string>) returns (r: Result<Sim, SimErrCode>)
      ensures r.Ok? <==> LoadSpec(lines).Ok?
      ensures r.Err? ==> r.error == LoadSpec(lines).error
      ensures r.Ok? ==> fresh(r.value) && r.value.buckets == LoadSpec(lines).value
    {
      var status := Okay;
      var sims := new Sim();
      var prev: U32 := 0;
      var curr: nat := 0;
      for i := 0 to |lines|
        invariant Tracks(Accepted(lines[..i]), sims.buckets, prev, curr)
      {
        ghost var xs := Accepted(lines[..i]);
        LineStep(lines, i);
        var s := StripComment(lines[i]);
        if s == [] {
          continue;
        }
        match ParseInstr(s) {
          case Err(_) =>
            continue;
          case Ok(instr) =>
            prev, curr := sims.Insert(instr, prev, curr, xs);
        }
      }
      assert lines[..|lines|] == lines;
      assert sims.buckets == Group(Accepted(lines));

      if sims.buckets == [] {
        status := EmptyContents;
      } else {
        var last := sims.buckets[|sims.buckets| - 1];
        if !last[|last| - 1].IsEndSim() {
          status := MismatchEndSimToken;
        }
      }
      if status == Okay {
        r := Ok(sims);
      } else {
        r := Err(status);
      }
    }
  }

  lemma InsertTracks(xs: seq<Instr>, bs: seq<seq<Instr>>, prev: U32, curr: nat, instr: Instr)
    requires Tracks(xs, bs, prev, curr)
    ensures var curr' := if instr.Timestamp() != prev && curr < |bs| then curr + 1 else curr;
      Tracks(xs + [instr], HelperSpec(bs, curr', instr), instr.Timestamp(), curr')
  {
    var ys := xs + [instr];
    assert ys[..|xs|] == xs && Last(ys) == instr;
    if xs != [] && instr.Timestamp() == prev {
      assert bs[curr := bs[curr] + [instr]] == bs[..|bs| - 1] + [Last(bs) + [instr]];
    }
  }

  /** `InstrAsIter`: walks one bucket in stored order. */
  class InstrAsIter {
    const bucket: seq<Instr>
    var index: nat

    /** `InstrSet::iter`. */
    constructor (bucket: seq<Instr>)
      ensures this.bucket == bucket && index == 0
      ensures Remaining() == bucket
    {
      this.bucket := bucket;
      index := 0;
    }

    /** The instructions still to come. */
    function Remaining(): seq<Instr>
      reads this
    {
      if index <= |bucket| then bucket[index..] else []
    }

    /** `next`: the instruction at the index, which then moves on, or
      nothing once the bucket is exhausted. */
    method Next() returns (r: Option<Instr>)
      modifies this
      ensures old(index) < |bucket| ==> r == Some(bucket[old(index)]) && index == old(index) + 1
      ensures old(index) >= |bucket| ==> r == None && index == old(index)
      ensures old(Remaining()) == if r.Some? then [r.value] + Remaining() else []
    {
      if index < |bucket| {
        r := Some(bucket[index]);
        index := index + 1;
      } else {
        r := None;
      }
    }
  }
}
