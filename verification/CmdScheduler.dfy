// Running an encoded command: a scheduler that counts predecessors down.
//
// A sub-command is ready when its count is zero. Finishing one decrements the
// count of every entry of its successor list and queues those that reach zero.
// Which queued sub-command runs next is left open.
module CmdScheduler {
  import opened CmdGraph
  import opened CmdHistory

  datatype Sched = Sched(log: seq<int>, queue: seq<int>, counts: seq<int>)

  function PredCounts(g: Graph): seq<int> {
    seq(|g|, i requires 0 <= i < |g| => |g[i].pred|)
  }

  // Indices below n whose count is zero.
  function Zeros(counts: seq<int>, n: nat): (r: seq<int>)
    requires n <= |counts|
  {
    if n == 0 then []
    else if counts[n - 1] == 0 then Zeros(counts, n - 1) + [n - 1]
    else Zeros(counts, n - 1)
  }

  function Start(g: Graph): Sched {
    Sched([], Zeros(PredCounts(g), |g|), PredCounts(g))
  }

  // Count down the first k successors.
  function Release(counts: seq<int>, queue: seq<int>, succ: seq<int>, k: nat): (r: (seq<int>, seq<int>))
    requires k <= |succ| && AllIn(succ, |counts|)
    ensures |r.0| == |counts|
  {
    if k == 0 then (counts, queue)
    else
      var (c, q) := Release(counts, queue, succ, k - 1);
      assert succ[k - 1] in succ;
      var s := succ[k - 1];
      (c[s := c[s] - 1], if c[s] - 1 == 0 then q + [s] else q)
  }

  // Run the q-th queued sub-command.
  function Next(g: Graph, st: Sched, q: nat): Sched
    requires ListsInRange(g) && |st.counts| == |g| && q < |st.queue| && 0 <= st.queue[q] < |g|
  {
    var i := st.queue[q];
    var (c, rest) := Release(st.counts, Others(st.queue, q), g[i].succ, |g[i].succ|);
    Sched(st.log + [i], rest, c)
  }

  // Dependency entries not run yet.
  function Pending(pred: seq<int>, log: seq<int>): (n: nat) {
    if pred == [] then 0 else (if pred[0] in log then 0 else 1) + Pending(pred[1..], log)
  }

  predicate Within(pred: seq<int>, log: seq<int>) {
    forall p :: p in pred ==> p in log
  }

  lemma {:induction false} PendingZero(pred: seq<int>, log: seq<int>)
    ensures Pending(pred, log) == 0 <==> Within(pred, log)
  {
    if pred == [] {
    } else {
      PendingZero(pred[1..], log);
      assert pred == [pred[0]] + pred[1..];
      assert pred[0] in pred && forall p :: p in pred[1..] ==> p in pred;
      forall p | p in pred
        ensures p == pred[0] || p in pred[1..]
      {
        assert p in [pred[0]] + pred[1..];
      }
    }
  }

  lemma {:induction false} PendingNext(pred: seq<int>, log: seq<int>, i: int)
    requires i !in log
    ensures Pending(pred, log + [i]) == Pending(pred, log) - multiset(pred)[i]
  {
    if pred == [] {
    } else {
      PendingNext(pred[1..], log, i);
      assert pred == [pred[0]] + pred[1..];
    }
  }

  lemma {:induction false} PendingStart(pred: seq<int>)
    ensures Pending(pred, []) == |pred|
  {
    if pred == [] {
    } else {
      PendingStart(pred[1..]);
    }
  }

  ghost predicate Good(g: Graph, st: Sched) {
    && |st.counts| == |g|
    && AllIn(st.log, |g|) && AllIn(st.queue, |g|)
    && (forall v :: 0 <= v < |g| ==> st.counts[v] == Pending(g[v].pred, st.log))
    && (forall v :: 0 <= v < |g| ==>
          multiset(st.log)[v] + multiset(st.queue)[v] == if st.counts[v] == 0 then 1 else 0)
    && (forall k :: 0 <= k < |st.log| ==> 0 <= st.log[k] < |g| && RanAfterPreds(g, st.log, k))
  }

  // Everything the k-th sub-command to run depends on ran before it.
  predicate RanAfterPreds(g: Graph, log: seq<int>, k: nat)
    requires k < |log| && 0 <= log[k] < |g|
  {
    Within(g[log[k]].pred, log[..k])
  }

  lemma {:induction false} ZerosOnce(counts: seq<int>, n: nat, v: int)
    requires n <= |counts|
    ensures multiset(Zeros(counts, n))[v] == if 0 <= v < n && counts[v] == 0 then 1 else 0
  {
    if n == 0 {
    } else {
      ZerosOnce(counts, n - 1, v);
    }
  }

  lemma StartGood(g: Graph)
    ensures Good(g, Start(g))
  {
    var st := Start(g);
    forall v | v in st.queue
      ensures 0 <= v < |g|
    {
      ZerosOnce(st.counts, |g|, v);
      assert multiset(st.queue)[v] > 0;
    }
    forall v | 0 <= v < |g|
      ensures st.counts[v] == Pending(g[v].pred, [])
      ensures multiset(st.queue)[v] == if st.counts[v] == 0 then 1 else 0
    {
      PendingStart(g[v].pred);
      ZerosOnce(st.counts, |g|, v);
    }
  }

  lemma {:induction false} ReleaseEffect(counts: seq<int>, queue: seq<int>, succ: seq<int>, k: nat, v: int)
    requires k <= |succ| && AllIn(succ, |counts|) && 0 <= v < |counts|
    requires multiset(succ)[v] <= counts[v]
    ensures var (c, q) := Release(counts, queue, succ, k);
            && c[v] == counts[v] - Count(succ, k, v)
            && multiset(q)[v] == multiset(queue)[v] + (if counts[v] != 0 && c[v] == 0 then 1 else 0)
  {
    if k == 0 {
    } else {
      ReleaseEffect(counts, queue, succ, k - 1, v);
      CountStep(succ, k - 1, v);
      assert succ == succ[..k] + succ[k..];
    }
  }

  lemma {:induction false} ReleaseIn(counts: seq<int>, queue: seq<int>, succ: seq<int>, k: nat)
    requires k <= |succ| && AllIn(succ, |counts|) && AllIn(queue, |counts|)
    ensures AllIn(Release(counts, queue, succ, k).1, |counts|)
  {
    if k == 0 {
    } else {
      ReleaseIn(counts, queue, succ, k - 1);
      assert succ[k - 1] in succ;
    }
  }

  function Others(queue: seq<int>, q: nat): seq<int>
    requires q < |queue|
  {
    queue[..q] + queue[q + 1..]
  }

  // The picked sub-command has run before neither in the log nor twice in the queue.
  lemma Picked(g: Graph, st: Sched, q: nat)
    requires Good(g, st) && q < |st.queue|
    ensures var i := st.queue[q];
            0 <= i < |g| && i !in st.log && Within(g[i].pred, st.log)
    ensures forall v :: multiset(Others(st.queue, q))[v] == multiset(st.queue)[v] - (if v == st.queue[q] then 1 else 0)
    ensures AllIn(Others(st.queue, q), |g|)
  {
    var i, rest := st.queue[q], Others(st.queue, q);
    assert i in st.queue;
    assert st.queue == st.queue[..q] + [i] + st.queue[q + 1..];
    assert multiset(st.queue) == multiset(rest) + multiset{i};
    assert multiset(st.queue)[i] > 0;
    assert multiset(st.log)[i] == 0 && st.counts[i] == 0;
    PendingZero(g[i].pred, st.log);
    forall v | v in rest
      ensures v in st.queue
    {
      assert multiset(rest)[v] > 0;
    }
  }

  lemma NextAt(g: Graph, st: Sched, q: nat, v: nat)
    requires Consistent(g) && Good(g, st) && q < |st.queue| && v < |g|
    requires 0 <= st.queue[q] < |g| && st.queue[q] !in st.log
    requires forall u :: multiset(Others(st.queue, q))[u] == multiset(st.queue)[u] - (if u == st.queue[q] then 1 else 0)
    ensures var next := Next(g, st, q);
            && next.counts[v] == Pending(g[v].pred, next.log)
            && multiset(next.log)[v] + multiset(next.queue)[v] == if next.counts[v] == 0 then 1 else 0
  {
    var i, next := st.queue[q], Next(g, st, q);
    var succ := g[i].succ;
    PendingNext(g[v].pred, st.log, i);
    assert multiset(g[v].pred)[i] == multiset(succ)[v];
    ReleaseEffect(st.counts, Others(st.queue, q), succ, |succ|, v);
    assert succ[..|succ|] == succ;
    assert multiset(next.log)[v] == multiset(st.log)[v] + (if v == i then 1 else 0);
  }

  lemma NextGood(g: Graph, st: Sched, q: nat)
    requires Consistent(g) && Good(g, st) && q < |st.queue|
    ensures 0 <= st.queue[q] < |g| && Good(g, Next(g, st, q))
  {
    Picked(g, st, q);
    var i, next := st.queue[q], Next(g, st, q);
    ReleaseIn(st.counts, Others(st.queue, q), g[i].succ, |g[i].succ|);
    forall v | 0 <= v < |g|
      ensures next.counts[v] == Pending(g[v].pred, next.log)
      ensures multiset(next.log)[v] + multiset(next.queue)[v] == if next.counts[v] == 0 then 1 else 0
    {
      NextAt(g, st, q, v);
    }
    forall k | 0 <= k < |next.log|
      ensures 0 <= next.log[k] < |g| && RanAfterPreds(g, next.log, k)
    {
      if k < |st.log| {
        assert RanAfterPreds(g, st.log, k);
        assert next.log[..k] == st.log[..k];
      } else {
        assert next.log[..k] == st.log;
      }
    }
  }

  // The state after running the queued sub-commands at these positions.
  ghost predicate Runs(g: Graph, picks: seq<nat>, st: Sched)
    requires ListsInRange(g)
  {
    if picks == [] then st == Start(g)
    else
      exists before ::
        && Runs(g, picks[..|picks| - 1], before)
        && |before.counts| == |g| && picks[|picks| - 1] < |before.queue|
        && 0 <= before.queue[picks[|picks| - 1]] < |g|
        && st == Next(g, before, picks[|picks| - 1])
  }

  lemma {:induction false} RunsGood(g: Graph, picks: seq<nat>, st: Sched)
    requires Consistent(g) && Runs(g, picks, st)
    ensures Good(g, st) && |st.log| == |picks|
    decreases |picks|
  {
    if picks == [] {
      StartGood(g);
    } else {
      var q := picks[|picks| - 1];
      var before :| && Runs(g, picks[..|picks| - 1], before)
                    && |before.counts| == |g| && q < |before.queue|
                    && 0 <= before.queue[q] < |g| && st == Next(g, before, q);
      RunsGood(g, picks[..|picks| - 1], before);
      NextGood(g, before, q);
    }
  }

  // With nothing queued, everything has run: induction on the rank.
  lemma {:induction false} NothingLeft(g: Graph, rank: seq<nat>, st: Sched, v: nat)
    requires Ranked(g, rank) && ListsInRange(g) && Good(g, st) && st.queue == [] && v < |g|
    ensures v in st.log
    decreases rank[v]
  {
    forall p | p in g[v].pred
      ensures p in st.log
    {
      NothingLeft(g, rank, st, p);
    }
    PendingZero(g[v].pred, st.log);
    assert st.counts[v] == 0;
    assert multiset(st.log)[v] == 1;
  }

  lemma Once(g: Graph, st: Sched, v: int)
    requires Good(g, st)
    ensures multiset(st.log)[v] <= 1
  {
    if 0 <= v < |g| {
      assert multiset(st.log)[v] + multiset(st.queue)[v] <= 1;
    } else {
      NotIn(st.log, |g|, v);
    }
  }

  // Distinct indices below n number at most n.
  lemma {:induction false} DistinctBound(s: seq<int>, n: nat)
    requires AllIn(s, n) && forall v :: multiset(s)[v] <= 1
    ensures |s| <= n
    decreases n
  {
    if s == [] {
    } else if n - 1 in s {
      var k :| 0 <= k < |s| && s[k] == n - 1;
      var r := s[..k] + s[k + 1..];
      assert s == s[..k] + [n - 1] + s[k + 1..];
      assert multiset(s) == multiset(r) + multiset{n - 1};
      forall v
        ensures multiset(r)[v] <= 1 && (v in r ==> 0 <= v < n - 1)
      {
        assert multiset(r)[v] <= multiset(s)[v];
        if v in r {
          assert multiset(r)[v] > 0 && v in s;
        }
      }
      DistinctBound(r, n - 1);
    } else {
      assert s[0] in s;
      DistinctBound(s, n - 1);
    }
  }

  // Whatever the order of picks: no sub-command runs twice, so there are at most
  // as many picks as sub-commands; each runs after all it depends on; and the
  // scheduler stops exactly when every one has run.
  ghost predicate Scheduled(g: Graph, st: Sched) {
    && |st.log| <= |g|
    && (forall v :: multiset(st.log)[v] <= 1)
    && (forall k :: 0 <= k < |st.log| ==> 0 <= st.log[k] < |g| && RanAfterPreds(g, st.log, k))
    && (st.queue == [] <==> forall v :: 0 <= v < |g| ==> v in st.log)
  }

  lemma GoodScheduled(g: Graph, rank: seq<nat>, st: Sched)
    requires ListsInRange(g) && Ranked(g, rank) && Good(g, st)
    ensures Scheduled(g, st)
  {
    forall v
      ensures multiset(st.log)[v] <= 1
    {
      Once(g, st, v);
    }
    DistinctBound(st.log, |g|);
    if st.queue == [] {
      forall v: nat | v < |g|
        ensures v in st.log
      {
        NothingLeft(g, rank, st, v);
      }
    } else {
      StillQueued(g, st);
    }
  }

  lemma StillQueued(g: Graph, st: Sched)
    requires Good(g, st) && st.queue != []
    ensures 0 <= st.queue[0] < |g| && st.queue[0] !in st.log
  {
    var v := st.queue[0];
    assert v in st.queue;
    assert multiset(st.queue)[v] > 0;
    assert multiset(st.log)[v] == 0;
  }

  lemma ScheduleCorrect(g: Graph, rank: seq<nat>, picks: seq<nat>, st: Sched)
    requires Consistent(g) && Ranked(g, rank) && Runs(g, picks, st)
    ensures |st.log| == |picks| && Scheduled(g, st)
  {
    RunsGood(g, picks, st);
    GoodScheduled(g, rank, st);
  }

  // Every command built without a self-dependency can be run.
  lemma HistoryRuns(ops: seq<Op>, picks: seq<nat>, st: Sched)
    requires Run(ops).Some? && !SelfNamed(ops)
    requires ListsInRange(Run(ops).value.g) && Runs(Run(ops).value.g, picks, st)
    ensures |st.log| == |picks| && Scheduled(Run(ops).value.g, st)
  {
    HistoryInvariant(ops);
    HistorySelfFree(ops);
    var rank := HistoryRanked(ops);
    ScheduleCorrect(Run(ops).value.g, rank, picks, st);
  }

  lemma SelfNeverRuns(g: Graph, st: Sched, i: nat)
    requires Consistent(g) && Good(g, st) && i < |g| && OnItself(g, i)
    ensures i !in st.log
  {
    if i in st.log {
      var k :| 0 <= k < |st.log| && st.log[k] == i;
      assert RanAfterPreds(g, st.log, k);
      assert multiset(g[i].pred)[i] == multiset(g[i].succ)[i] > 0;
      assert i in st.log[..k];
      var j :| 0 <= j < k && st.log[j] == i;
      TwiceIn(st.log, j, k);
      Once(g, st, i);
    }
  }

  lemma TwiceIn(s: seq<int>, j: nat, k: nat)
    requires j < k < |s| && s[j] == s[k]
    ensures multiset(s)[s[k]] >= 2
  {
    assert s == s[..j] + [s[j]] + s[j + 1..k] + [s[k]] + s[k + 1..];
  }

  // A scheduler that has nothing left to run has run the whole command exactly
  // when no addSubCmd call named its own index.
  lemma HistoryRunsAll(ops: seq<Op>, picks: seq<nat>, st: Sched)
    requires Run(ops).Some? && ListsInRange(Run(ops).value.g) && Runs(Run(ops).value.g, picks, st) && st.queue == []
    ensures (forall v :: 0 <= v < |Run(ops).value.g| ==> v in st.log) <==> !SelfNamed(ops)
  {
    var g := Run(ops).value.g;
    HistoryInvariant(ops);
    if SelfNamed(ops) {
      HistorySelfFree(ops);
      var i :| 0 <= i < |g| && OnItself(g, i);
      RunsGood(g, picks, st);
      SelfNeverRuns(g, st, i);
    } else {
      HistoryRuns(ops, picks, st);
    }
  }
}
