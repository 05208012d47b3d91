/** The anytime ordering of an inclusive integer range (util.BinarySplit).

    BinarySplit(lb, ub) lists every integer of lb..ub once, so that any prefix
    of the list is already spread across the whole range: lb comes first, then
    the range lb+1..ub is bisected breadth-first.  A FIFO queue holds the
    sub-ranges still to be bisected; taking the head range lo..hi emits its
    floor midpoint (lo + hi) / 2 and queues its left part lo..mid-1 before its
    right part mid+1..hi (a part is queued only when it is not empty).

    BisectionOrder is that order as a function (Drain is the queue loop written
    as recursion); the method BinarySplit is the loop itself, proved equal to it.

    Each recursive definition (ElemsRec, DrainRec, ...) sits behind a
    non-recursive name that the contracts use, so that a contract unfolds the
    recursion once rather than twice.
 */
module AnytimeOrder {

  /** An inclusive range lo..hi of integers still to be bisected; empty when lo > hi. */
  datatype Span = Span(lo: int, hi: int)

  /** The number of integers in a span. */
  function Size(r: Span): nat {
    if r.lo > r.hi then 0 else r.hi - r.lo + 1
  }

  /** The integers of a span in increasing order. */
  function Elems(r: Span): seq<int> {
    ElemsRec(r)
  }

  /** The recursion behind Elems. */
  function ElemsRec(r: Span): seq<int>
    decreases Size(r)
  {
    if r.lo > r.hi then [] else [r.lo] + ElemsRec(Span(r.lo + 1, r.hi))
  }

  /** The floor midpoint of a span: the largest m with 2m <= lo + hi. */
  function Mid(r: Span): (m: int)
    ensures 2 * m <= r.lo + r.hi < 2 * m + 2
  {
    (r.lo + r.hi) / 2
  }

  /** What bisecting a non-empty span queues: its non-empty part left of the
      midpoint, then its non-empty part right of it. */
  function Halves(r: Span): (hs: seq<Span>)
    requires Size(r) > 0
    ensures r.lo <= Mid(r) <= r.hi
    ensures forall i :: 0 <= i < |hs| ==> Size(hs[i]) > 0
  {
    var m := Mid(r);
    (if r.lo <= m - 1 then [Span(r.lo, m - 1)] else [])
      + (if m + 1 <= r.hi then [Span(m + 1, r.hi)] else [])
  }

  /** The number of integers in all spans of a queue. */
  function TotalSize(q: seq<Span>): nat {
    TotalSizeRec(q)
  }

  /** The recursion behind TotalSize. */
  function TotalSizeRec(q: seq<Span>): nat {
    if q == [] then 0 else Size(q[0]) + TotalSizeRec(q[1..])
  }

  /** The integers of all spans of a queue, as a multiset. */
  function Content(q: seq<Span>): multiset<int> {
    ContentRec(q)
  }

  /** The recursion behind Content. */
  function ContentRec(q: seq<Span>): multiset<int> {
    if q == [] then multiset{} else multiset(Elems(q[0])) + ContentRec(q[1..])
  }

  /** What the queue loop emits from queue q until the queue is empty. */
  function Drain(q: seq<Span>): seq<int> {
    DrainRec(q)
  }

  /** The recursion behind Drain. */
  function DrainRec(q: seq<Span>): seq<int>
    decreases TotalSize(q), |q|
  {
    if q == [] then []
    else if Size(q[0]) == 0 then DrainRec(q[1..])
    else
      HalvesSize(q[0]);
      TotalSizeAppend(q[1..], Halves(q[0]));
      [Mid(q[0])] + DrainRec(q[1..] + Halves(q[0]))
  }

  /** The anytime order of lb..ub: lb, then the breadth-first bisection of lb+1..ub.
      It is a permutation of lb..ub: it holds every integer of the range exactly
      once and nothing else. */
  function BisectionOrder(lb: int, ub: int): (r: seq<int>)
    ensures |r| == if lb > ub then 0 else ub - lb + 1
    ensures forall x :: multiset(r)[x] == if lb <= x <= ub then 1 else 0
    ensures r != [] ==> r[0] == lb
  {
    if lb > ub then []
    else
      var rest := Span(lb + 1, ub);
      DrainLength([rest]);
      DrainContent([rest]);
      SingletonQueue(rest);
      IntervalCount(Span(lb, ub));
      assert Elems(Span(lb, ub)) == [lb] + Elems(rest);
      assert multiset([lb] + Drain([rest])) == multiset(Elems(Span(lb, ub)));
      [lb] + Drain([rest])
  }

  /** The queue loop: a FIFO worklist of ranges, emitting each head range's
      midpoint and queueing its halves. */
  method BinarySplit(lb: int, ub: int) returns (res: seq<int>)
    ensures res == BisectionOrder(lb, ub)
  {
    if ub < lb {
      return [];
    }
    res := [lb];
    if ub == lb {
      return;
    }
    var queue := [Span(lb + 1, ub)];
    while queue != []
      invariant forall i :: 0 <= i < |queue| ==> Size(queue[i]) > 0
      invariant res + Drain(queue) == BisectionOrder(lb, ub)
      decreases TotalSize(queue)
    {
      var r := queue[0];
      var rest := queue[1..];
      var mid := (r.lo + r.hi) / 2;
      var next := rest;
      if r.lo <= mid - 1 {
        next := next + [Span(r.lo, mid - 1)];
      }
      if mid + 1 <= r.hi {
        next := next + [Span(mid + 1, r.hi)];
      }
      LoopStep(queue, next, res, mid);
      res := res + [mid];
      queue := next;
    }
  }

  /** What one iteration of BinarySplit's loop keeps: the output so far followed
      by what the queue still drains is unchanged, and the queue gets shorter. */
  lemma LoopStep(queue: seq<Span>, next: seq<Span>, res: seq<int>, mid: int)
    requires queue != [] && forall i :: 0 <= i < |queue| ==> Size(queue[i]) > 0
    requires mid == Mid(queue[0])
    requires next == queue[1..] + (if queue[0].lo <= mid - 1 then [Span(queue[0].lo, mid - 1)] else [])
                                 + (if mid + 1 <= queue[0].hi then [Span(mid + 1, queue[0].hi)] else [])
    ensures forall i :: 0 <= i < |next| ==> Size(next[i]) > 0
    ensures res + [mid] + Drain(next) == res + Drain(queue)
    ensures TotalSize(next) < TotalSize(queue)
  {
    var r, rest := queue[0], queue[1..];
    NextQueue(r, rest, mid, next);
    AllNonEmptyAppend(rest, Halves(r));
    StepDrain(queue, next, res, mid);
    StepSize(queue, next);
  }

  /** The two conditional appends of the loop queue exactly Halves(r). */
  lemma NextQueue(r: Span, rest: seq<Span>, mid: int, next: seq<Span>)
    requires Size(r) > 0 && mid == Mid(r)
    requires next == rest + (if r.lo <= mid - 1 then [Span(r.lo, mid - 1)] else [])
                          + (if mid + 1 <= r.hi then [Span(mid + 1, r.hi)] else [])
    ensures next == rest + Halves(r)
  {
    ConcatAssoc(rest, if r.lo <= mid - 1 then [Span(r.lo, mid - 1)] else [],
                      if mid + 1 <= r.hi then [Span(mid + 1, r.hi)] else []);
  }

  lemma AllNonEmptyAppend(a: seq<Span>, b: seq<Span>)
    requires forall i :: 0 <= i < |a| ==> Size(a[i]) > 0
    requires forall i :: 0 <= i < |b| ==> Size(b[i]) > 0
    ensures forall i :: 0 <= i < |a + b| ==> Size((a + b)[i]) > 0
  {
    forall i | 0 <= i < |a + b|
      ensures Size((a + b)[i]) > 0
    {
      if i >= |a| {
        assert (a + b)[i] == b[i - |a|];
      }
    }
  }

  lemma StepDrain(queue: seq<Span>, next: seq<Span>, res: seq<int>, mid: int)
    requires queue != [] && Size(queue[0]) > 0 && mid == Mid(queue[0])
    requires next == queue[1..] + Halves(queue[0])
    ensures res + [mid] + Drain(next) == res + Drain(queue)
  {
    assert queue == [queue[0]] + queue[1..];
    DrainStep(queue[0], queue[1..]);
    ConcatAssoc(res, [mid], Drain(next));
  }

  lemma StepSize(queue: seq<Span>, next: seq<Span>)
    requires queue != [] && Size(queue[0]) > 0
    requires next == queue[1..] + Halves(queue[0])
    ensures TotalSize(next) < TotalSize(queue)
  {
    HalvesSize(queue[0]);
    TotalSizeAppend(queue[1..], Halves(queue[0]));
  }

  lemma ConcatAssoc<T>(a: seq<T>, b: seq<T>, c: seq<T>)
    ensures a + b + c == a + (b + c)
  {
  }

  // ---------------------------------------------------------------------------
  // Length and permutation

  lemma {:induction false} TotalSizeAppend(a: seq<Span>, b: seq<Span>)
    ensures TotalSize(a + b) == TotalSize(a) + TotalSize(b)
  {
    if a != [] {
      assert (a + b)[1..] == a[1..] + b;
      TotalSizeAppend(a[1..], b);
    } else {
      assert a + b == b;
    }
  }

  lemma {:induction false} ContentAppend(a: seq<Span>, b: seq<Span>)
    ensures Content(a + b) == Content(a) + Content(b)
  {
    if a != [] {
      assert (a + b)[1..] == a[1..] + b;
      ContentAppend(a[1..], b);
    } else {
      assert a + b == b;
    }
  }

  /** Bisecting a span removes exactly its midpoint. */
  lemma HalvesSize(r: Span)
    requires Size(r) > 0
    ensures TotalSize(Halves(r)) == Size(r) - 1
  {
    var m := Mid(r);
    var left := if r.lo <= m - 1 then [Span(r.lo, m - 1)] else [];
    var right := if m + 1 <= r.hi then [Span(m + 1, r.hi)] else [];
    TotalSizeAppend(left, right);
    SingletonQueue(Span(r.lo, m - 1));
    SingletonQueue(Span(m + 1, r.hi));
  }

  /** A span's elements split around any of its members. */
  lemma {:induction false} ElemsSplit(r: Span, m: int)
    requires r.lo <= m <= r.hi
    ensures Elems(r) == Elems(Span(r.lo, m - 1)) + [m] + Elems(Span(m + 1, r.hi))
    decreases m - r.lo
  {
    if r.lo < m {
      ElemsSplit(Span(r.lo + 1, r.hi), m);
    }
  }

  lemma HalvesContent(r: Span)
    requires Size(r) > 0
    ensures multiset{Mid(r)} + Content(Halves(r)) == multiset(Elems(r))
  {
    ElemsSplit(r, Mid(r));
    HalvesQueue(r);
    SplitCount(Elems(r), Elems(Span(r.lo, Mid(r) - 1)), Mid(r), Elems(Span(Mid(r) + 1, r.hi)), Content(Halves(r)));
  }

  lemma SplitCount(all: seq<int>, a: seq<int>, m: int, b: seq<int>, c: multiset<int>)
    requires all == a + [m] + b
    requires c == multiset(a) + multiset(b)
    ensures multiset{m} + c == multiset(all)
  {
    assert multiset(all) == multiset(a) + multiset([m]) + multiset(b);
  }

  lemma HalvesQueue(r: Span)
    requires Size(r) > 0
    ensures Content(Halves(r)) == multiset(Elems(Span(r.lo, Mid(r) - 1))) + multiset(Elems(Span(Mid(r) + 1, r.hi)))
  {
    var m := Mid(r);
    var left, right := Span(r.lo, m - 1), Span(m + 1, r.hi);
    if Size(left) > 0 {
      assert Halves(r) == [left] + [right];
      QueueCons(left, [right]);
      SingletonQueue(right);
    } else if Size(right) > 0 {
      assert Halves(r) == [right];
      SingletonQueue(right);
      assert Elems(left) == [];
    } else {
      assert Halves(r) == [];
      assert Elems(left) == [] && Elems(right) == [];
    }
  }

  lemma QueueCons(r: Span, rest: seq<Span>)
    ensures TotalSize([r] + rest) == Size(r) + TotalSize(rest)
    ensures Content([r] + rest) == multiset(Elems(r)) + Content(rest)
  {
    assert ([r] + rest)[0] == r && ([r] + rest)[1..] == rest;
  }

  lemma SingletonQueue(r: Span)
    ensures TotalSize([r]) == Size(r)
    ensures Content([r]) == multiset(Elems(r))
  {
    assert [r] + [] == [r];
    QueueCons(r, []);
  }

  /** Every integer of a span occurs once in its elements, nothing else occurs. */
  lemma {:induction false} IntervalCount(r: Span)
    ensures |Elems(r)| == Size(r)
    ensures forall x :: multiset(Elems(r))[x] == if r.lo <= x <= r.hi then 1 else 0
    decreases Size(r)
  {
    if r.lo <= r.hi {
      IntervalCount(Span(r.lo + 1, r.hi));
    }
  }

  /** The loop emits one integer per integer queued. */
  lemma {:induction false} DrainLength(q: seq<Span>)
    ensures |Drain(q)| == TotalSize(q)
    decreases TotalSize(q), |q|
  {
    if q == [] {
    } else if Size(q[0]) == 0 {
      DrainLength(q[1..]);
    } else {
      HalvesSize(q[0]);
      TotalSizeAppend(q[1..], Halves(q[0]));
      DrainLength(q[1..] + Halves(q[0]));
    }
  }

  /** The loop emits exactly the integers queued. */
  lemma {:induction false} DrainContent(q: seq<Span>)
    ensures multiset(Drain(q)) == Content(q)
    decreases TotalSize(q), |q|
  {
    if q == [] {
    } else if Size(q[0]) == 0 {
      IntervalCount(q[0]);
      DrainContent(q[1..]);
    } else {
      HalvesSize(q[0]);
      TotalSizeAppend(q[1..], Halves(q[0]));
      DrainContent(q[1..] + Halves(q[0]));
      ContentAppend(q[1..], Halves(q[0]));
      HalvesContent(q[0]);
    }
  }

  // ---------------------------------------------------------------------------
  // Level by level: the order ends with ub

  /** The midpoints of the non-empty spans of a queue, in queue order. */
  function Mids(q: seq<Span>): seq<int> {
    MidsRec(q)
  }

  /** The recursion behind Mids. */
  function MidsRec(q: seq<Span>): seq<int> {
    if q == [] then []
    else (if Size(q[0]) == 0 then [] else [Mid(q[0])]) + MidsRec(q[1..])
  }

  /** The halves of the non-empty spans of a queue, in queue order: the next level. */
  function Kids(q: seq<Span>): seq<Span> {
    KidsRec(q)
  }

  /** The recursion behind Kids. */
  function KidsRec(q: seq<Span>): seq<Span> {
    if q == [] then []
    else (if Size(q[0]) == 0 then [] else Halves(q[0])) + KidsRec(q[1..])
  }

  /** Draining a queue whose front is q emits q's midpoints first and queues
      their halves behind the rest. */
  lemma {:induction false} DrainLevel(q: seq<Span>, p: seq<Span>)
    ensures Drain(q + p) == Mids(q) + Drain(p + Kids(q))
    decreases |q|
  {
    if q == [] {
      assert q + p == p && p + [] == p;
    } else {
      var r, rest := q[0], q[1..];
      assert q == [r] + rest;
      if Size(r) == 0 {
        DrainLevel(rest, p);
        DrainLevelSkip(r, rest, p);
      } else {
        DrainLevel(rest, p + Halves(r));
        DrainLevelEmit(r, rest, p);
      }
    }
  }

  lemma DrainLevelSkip(r: Span, rest: seq<Span>, p: seq<Span>)
    requires Size(r) == 0
    requires Drain(rest + p) == Mids(rest) + Drain(p + Kids(rest))
    ensures Drain([r] + rest + p) == Mids([r] + rest) + Drain(p + Kids([r] + rest))
  {
    assert [r] + rest + p == [r] + (rest + p);
    DrainStep(r, rest + p);
    LevelCons(r, rest);
    assert [] + Mids(rest) == Mids(rest);
    assert [] + Kids(rest) == Kids(rest);
  }

  lemma DrainLevelEmit(r: Span, rest: seq<Span>, p: seq<Span>)
    requires Size(r) > 0
    requires Drain(rest + (p + Halves(r))) == Mids(rest) + Drain(p + Halves(r) + Kids(rest))
    ensures Drain([r] + rest + p) == Mids([r] + rest) + Drain(p + Kids([r] + rest))
  {
    assert [r] + rest + p == [r] + (rest + p);
    DrainStep(r, rest + p);
    assert rest + p + Halves(r) == rest + (p + Halves(r));
    LevelCons(r, rest);
    ConcatAssoc(p, Halves(r), Kids(rest));
    ConcatAssoc([Mid(r)], Mids(rest), Drain(p + Halves(r) + Kids(rest)));
  }

  /** One step of the loop on a queue with head r. */
  lemma DrainStep(r: Span, rest: seq<Span>)
    ensures Size(r) == 0 ==> Drain([r] + rest) == Drain(rest)
    ensures Size(r) > 0 ==> Drain([r] + rest) == [Mid(r)] + Drain(rest + Halves(r))
  {
    assert ([r] + rest)[0] == r && ([r] + rest)[1..] == rest;
  }

  lemma {:induction false} MidsSnoc(q: seq<Span>, r: Span)
    requires Size(r) > 0
    ensures Mids(q + [r]) == Mids(q) + [Mid(r)]
  {
    if q == [] {
      assert q + [r] == [r];
      assert [r][1..] == [];
    } else {
      assert (q + [r])[0] == q[0];
      assert (q + [r])[1..] == q[1..] + [r];
      MidsSnoc(q[1..], r);
    }
  }

  lemma {:induction false} KidsSnoc(q: seq<Span>, r: Span)
    requires Size(r) > 0
    ensures Kids(q + [r]) == Kids(q) + Halves(r)
  {
    if q == [] {
      assert q + [r] == [r];
      assert [r][1..] == [];
    } else {
      assert (q + [r])[0] == q[0];
      assert (q + [r])[1..] == q[1..] + [r];
      KidsSnoc(q[1..], r);
    }
  }

  /** The height of the bisection tree over n integers. */
  function Height(n: nat): nat {
    if n == 0 then 0 else 1 + Height(n / 2)
  }

  lemma {:induction false} HeightMonotone(a: nat, b: nat)
    requires a <= b
    ensures Height(a) <= Height(b)
  {
    if a > 0 {
      HeightMonotone(a / 2, b / 2);
    }
  }

  /** A span of n integers has a right half of n / 2 integers and a left half of
      (n - 1) / 2; the right half is the last one queued, as tall as the left. */
  lemma HalvesShape(r: Span)
    requires Size(r) >= 2
    ensures Halves(r) != [] && Halves(r)[|Halves(r)| - 1] == Span(Mid(r) + 1, r.hi)
    ensures Size(Span(Mid(r) + 1, r.hi)) == Size(r) / 2
    ensures forall i :: 0 <= i < |Halves(r)| ==> Size(Halves(r)[i]) <= Size(r) / 2
  {
    var m := Mid(r);
    assert r.lo + r.hi == 2 * m || r.lo + r.hi == 2 * m + 1;
  }

  /** Bisection lowers the height bound by one: if every span of a level is at
      most h + 1 tall, every span of the next level is at most h tall. */
  lemma {:induction false} KidsHeight(q: seq<Span>, h: nat)
    requires forall i :: 0 <= i < |q| ==> Height(Size(q[i])) <= h + 1
    ensures forall j :: 0 <= j < |Kids(q)| ==> Height(Size(Kids(q)[j])) <= h
  {
    if q != [] {
      KidsHeight(q[1..], h);
      var r := q[0];
      if Size(r) > 0 {
        var hs := Halves(r);
        if Size(r) >= 2 {
          forall j | 0 <= j < |hs|
            ensures Height(Size(hs[j])) <= h
          {
            HalvesShape(r);
            HeightMonotone(Size(hs[j]), Size(r) / 2);
          }
        } else {
          assert hs == [];
        }
        assert Kids(q) == hs + Kids(q[1..]);
      } else {
        assert Kids(q) == Kids(q[1..]);
      }
    }
  }

  /** A level whose last span is at least as tall as any other drains to that
      span's upper end: the right end of the tallest span is reached last. */
  lemma {:induction false} DrainEndsAtLastHi(q: seq<Span>)
    requires q != [] && Size(q[|q| - 1]) > 0
    requires forall i :: 0 <= i < |q| ==> Height(Size(q[i])) <= Height(Size(q[|q| - 1]))
    ensures Drain(q) != [] && Drain(q)[|Drain(q)| - 1] == q[|q| - 1].hi
    decreases TotalSize(q)
  {
    if Size(q[|q| - 1]) == 1 {
      assert Height(1) == 1;
      DrainOfUnits(q);
      LastMid(q);
    } else {
      DrainByLevel(q);
      NextLevel(q);
      DrainEndsAtLastHi(Kids(q));
      LastOfAppend(Mids(q), Drain(Kids(q)));
    }
  }

  /** A level of spans no taller than one integer drains to its midpoints alone. */
  lemma DrainOfUnits(q: seq<Span>)
    requires forall i :: 0 <= i < |q| ==> Height(Size(q[i])) <= 1
    ensures Drain(q) == Mids(q)
  {
    DrainByLevel(q);
    KidsOfUnits(q);
    assert Drain([]) == [];
    assert Mids(q) + [] == Mids(q);
  }

  /** The last midpoint of a level is that of its last span. */
  lemma LastMid(q: seq<Span>)
    requires q != [] && Size(q[|q| - 1]) > 0
    ensures Mids(q) != [] && Mids(q)[|Mids(q)| - 1] == Mid(q[|q| - 1])
  {
    assert q == q[..|q| - 1] + [q[|q| - 1]];
    MidsSnoc(q[..|q| - 1], q[|q| - 1]);
  }

  /** Below a span of two or more integers at the end of a level, the next level
      ends with that span's right half, which is as tall as any span beside it. */
  lemma NextLevel(q: seq<Span>)
    requires q != [] && Size(q[|q| - 1]) >= 2
    requires forall i :: 0 <= i < |q| ==> Height(Size(q[i])) <= Height(Size(q[|q| - 1]))
    ensures Kids(q) != [] && Kids(q)[|Kids(q)| - 1] == Span(Mid(q[|q| - 1]) + 1, q[|q| - 1].hi)
    ensures Size(Kids(q)[|Kids(q)| - 1]) > 0
    ensures forall j :: 0 <= j < |Kids(q)| ==> Height(Size(Kids(q)[j])) <= Height(Size(Kids(q)[|Kids(q)| - 1]))
    ensures TotalSize(Kids(q)) < TotalSize(q)
  {
    var last := q[|q| - 1];
    assert q == q[..|q| - 1] + [last];
    KidsSnoc(q[..|q| - 1], last);
    HalvesShape(last);
    var right := Span(Mid(last) + 1, last.hi);
    assert Height(Size(last)) == 1 + Height(Size(right));
    KidsHeight(q, Height(Size(right)));
    LastMid(q);
    KidsSize(q);
  }

  lemma LastOfAppend<T>(a: seq<T>, b: seq<T>)
    requires b != []
    ensures (a + b)[|a + b| - 1] == b[|b| - 1]
  {
  }

  /** A level of spans no taller than one integer has no next level. */
  lemma {:induction false} KidsOfUnits(q: seq<Span>)
    requires forall i :: 0 <= i < |q| ==> Height(Size(q[i])) <= 1
    ensures Kids(q) == []
  {
    if q != [] {
      KidsOfUnits(q[1..]);
      var r := q[0];
      if Size(r) >= 2 {
        assert Height(Size(r) / 2) >= 1;
      }
      if Size(r) > 0 {
        assert Halves(r) == [];
      }
    }
  }

  /** The next level holds every queued integer except the emitted midpoints. */
  lemma {:induction false} KidsSize(q: seq<Span>)
    ensures TotalSize(Kids(q)) + |Mids(q)| == TotalSize(q)
  {
    if q != [] {
      KidsSize(q[1..]);
      if Size(q[0]) > 0 {
        HalvesSize(q[0]);
        TotalSizeAppend(Halves(q[0]), Kids(q[1..]));
      } else {
        assert Kids(q) == Kids(q[1..]);
      }
    }
  }

  /** For a range of two or more integers the order starts with lb, goes on
      with the midpoint of lb+1..ub and ends with ub. */
  lemma BisectionOrderEnds(lb: int, ub: int)
    requires lb < ub
    ensures |BisectionOrder(lb, ub)| >= 2
    ensures BisectionOrder(lb, ub)[0] == lb
    ensures BisectionOrder(lb, ub)[1] == (lb + 1 + ub) / 2
    ensures BisectionOrder(lb, ub)[|BisectionOrder(lb, ub)| - 1] == ub
  {
    var q := [Span(lb + 1, ub)];
    DrainEndsAtLastHi(q);
  }

  /** Draining a queue is emitting its level of midpoints and draining the next level. */
  lemma DrainByLevel(q: seq<Span>)
    ensures Drain(q) == Mids(q) + Drain(Kids(q))
  {
    assert q + [] == q;
    DrainLevel(q, []);
    assert [] + Kids(q) == Kids(q);
  }

  /** The test vectors for the empty range 4..0 and for ranges of one and two integers. */
  lemma SmallExamples()
    ensures BisectionOrder(4, 0) == []
    ensures BisectionOrder(1, 1) == [1]
    ensures BisectionOrder(0, 1) == [0, 1]
  {
  }

  /** How one span at the front of a level contributes to its midpoints and to the next level. */
  lemma LevelCons(r: Span, rest: seq<Span>)
    ensures Mids([r] + rest) == (if Size(r) == 0 then [] else [Mid(r)]) + Mids(rest)
    ensures Kids([r] + rest) == (if Size(r) == 0 then [] else Halves(r)) + Kids(rest)
  {
    assert ([r] + rest)[0] == r && ([r] + rest)[1..] == rest;
  }

  lemma MidsKidsAppend(a: seq<Span>, b: seq<Span>)
    ensures Mids(a + b) == Mids(a) + Mids(b)
    ensures Kids(a + b) == Kids(a) + Kids(b)
  {
    MidsAppend(a, b);
    KidsAppend(a, b);
  }

  lemma {:induction false} MidsAppend(a: seq<Span>, b: seq<Span>)
    ensures Mids(a + b) == Mids(a) + Mids(b)
  {
    if a == [] {
      assert a + b == b;
    } else {
      assert a + b == [a[0]] + (a[1..] + b);
      LevelCons(a[0], a[1..] + b);
      MidsAppend(a[1..], b);
      LevelCons(a[0], a[1..]);
      assert [a[0]] + a[1..] == a;
      ConcatAssoc(if Size(a[0]) == 0 then [] else [Mid(a[0])], Mids(a[1..]), Mids(b));
    }
  }

  lemma {:induction false} KidsAppend(a: seq<Span>, b: seq<Span>)
    ensures Kids(a + b) == Kids(a) + Kids(b)
  {
    if a == [] {
      assert a + b == b;
    } else {
      assert a + b == [a[0]] + (a[1..] + b);
      LevelCons(a[0], a[1..] + b);
      KidsAppend(a[1..], b);
      LevelCons(a[0], a[1..]);
      assert [a[0]] + a[1..] == a;
      ConcatAssoc(if Size(a[0]) == 0 then [] else Halves(a[0]), Kids(a[1..]), Kids(b));
    }
  }

  /** A level whose midpoints and next level are known drains to those
      midpoints followed by what the next level drains to. */
  lemma LevelValue(q: seq<Span>, kids: seq<Span>, mids: seq<int>, tail: seq<int>)
    requires Mids(q) == mids && Kids(q) == kids && Drain(kids) == tail
    ensures Drain(q) == mids + tail
  {
    DrainByLevel(q);
  }

  lemma ExampleZeroToFourLevel0(c: int)
    ensures Mids([Span(c + 1, c + 4)]) == [c + 2]
    ensures Kids([Span(c + 1, c + 4)]) == [Span(c + 1, c + 1), Span(c + 3, c + 4)]
  {
    LevelCons(Span(c + 1, c + 4), []);
    assert [Span(c + 1, c + 4)] + [] == [Span(c + 1, c + 4)];
  }

  /** A level of a one-integer span followed by a two-integer span. */
  lemma UnitThenPairLevel(c: int)
    ensures Mids([Span(c + 1, c + 1), Span(c + 3, c + 4)]) == [c + 1, c + 3]
    ensures Kids([Span(c + 1, c + 1), Span(c + 3, c + 4)]) == [Span(c + 4, c + 4)]
  {
    LevelCons(Span(c + 1, c + 1), [Span(c + 3, c + 4)]);
    assert [Span(c + 1, c + 1)] + [Span(c + 3, c + 4)] == [Span(c + 1, c + 1), Span(c + 3, c + 4)];
    LevelCons(Span(c + 3, c + 4), []);
    assert [Span(c + 3, c + 4)] + [] == [Span(c + 3, c + 4)];
  }

  /** A level of a single one-integer span. */
  lemma UnitLevel(c: int)
    ensures Mids([Span(c + 1, c + 1)]) == [c + 1]
    ensures Kids([Span(c + 1, c + 1)]) == []
  {
    LevelCons(Span(c + 1, c + 1), []);
    assert [Span(c + 1, c + 1)] + [] == [Span(c + 1, c + 1)];
  }

  lemma UnitDrain(c: int)
    ensures Drain([Span(c + 1, c + 1)]) == [c + 1]
  {
    UnitLevel(c);
    LevelValue([Span(c + 1, c + 1)], [], [c + 1], []);
  }

  lemma ExampleZeroToFourDrain1(c: int)
    ensures Drain([Span(c + 1, c + 1), Span(c + 3, c + 4)]) == [c + 1, c + 3, c + 4]
  {
    UnitThenPairLevel(c);
    UnitDrain(c + 3);
    LevelValue([Span(c + 1, c + 1), Span(c + 3, c + 4)], [Span(c + 4, c + 4)], [c + 1, c + 3], [c + 4]);
  }

  lemma ExampleZeroToFourDrain(c: int)
    ensures Drain([Span(c + 1, c + 4)]) == [c + 2, c + 1, c + 3, c + 4]
  {
    ExampleZeroToFourLevel0(c);
    ExampleZeroToFourDrain1(c);
    LevelValue([Span(c + 1, c + 4)], [Span(c + 1, c + 1), Span(c + 3, c + 4)], [c + 2], [c + 1, c + 3, c + 4]);
  }

  /** The test vector for 0..4, shifted to start at any c. */
  lemma ExampleZeroToFour(c: int)
    ensures BisectionOrder(c, c + 4) == [c, c + 2, c + 1, c + 3, c + 4]
  {
    ExampleZeroToFourDrain(c);
  }

  lemma ExampleZeroToNineLevel0(c: int)
    ensures Mids([Span(c + 1, c + 9)]) == [c + 5]
    ensures Kids([Span(c + 1, c + 9)]) == [Span(c + 1, c + 4), Span(c + 6, c + 9)]
  {
    LevelCons(Span(c + 1, c + 9), []);
    assert [Span(c + 1, c + 9)] + [] == [Span(c + 1, c + 9)];
  }

  lemma ExampleZeroToNineLevel1(c: int)
    ensures Mids([Span(c + 1, c + 4), Span(c + 6, c + 9)]) == [c + 2, c + 7]
    ensures Kids([Span(c + 1, c + 4), Span(c + 6, c + 9)]) == [Span(c + 1, c + 1), Span(c + 3, c + 4), Span(c + 6, c + 6), Span(c + 8, c + 9)]
  {
    LevelCons(Span(c + 1, c + 4), [Span(c + 6, c + 9)]);
    assert [Span(c + 1, c + 4)] + [Span(c + 6, c + 9)] == [Span(c + 1, c + 4), Span(c + 6, c + 9)];
    LevelCons(Span(c + 6, c + 9), []);
    assert [Span(c + 6, c + 9)] + [] == [Span(c + 6, c + 9)];
  }

  lemma ExampleZeroToNineLevel2(c: int)
    ensures Mids([Span(c + 1, c + 1), Span(c + 3, c + 4), Span(c + 6, c + 6), Span(c + 8, c + 9)]) == [c + 1, c + 3, c + 6, c + 8]
    ensures Kids([Span(c + 1, c + 1), Span(c + 3, c + 4), Span(c + 6, c + 6), Span(c + 8, c + 9)]) == [Span(c + 4, c + 4), Span(c + 9, c + 9)]
  {
    UnitThenPairLevel(c);
    UnitThenPairLevel(c + 5);
    MidsKidsAppend([Span(c + 1, c + 1), Span(c + 3, c + 4)], [Span(c + 6, c + 6), Span(c + 8, c + 9)]);
    assert [Span(c + 1, c + 1), Span(c + 3, c + 4)] + [Span(c + 6, c + 6), Span(c + 8, c + 9)] == [Span(c + 1, c + 1), Span(c + 3, c + 4), Span(c + 6, c + 6), Span(c + 8, c + 9)];
  }

  lemma ExampleZeroToNineLevel3(c: int)
    ensures Mids([Span(c + 1, c + 1), Span(c + 6, c + 6)]) == [c + 1, c + 6]
    ensures Kids([Span(c + 1, c + 1), Span(c + 6, c + 6)]) == []
  {
    LevelCons(Span(c + 1, c + 1), [Span(c + 6, c + 6)]);
    assert [Span(c + 1, c + 1)] + [Span(c + 6, c + 6)] == [Span(c + 1, c + 1), Span(c + 6, c + 6)];
    LevelCons(Span(c + 6, c + 6), []);
    assert [Span(c + 6, c + 6)] + [] == [Span(c + 6, c + 6)];
  }

  lemma ExampleZeroToNineDrain3(c: int)
    ensures Drain([Span(c + 1, c + 1), Span(c + 6, c + 6)]) == [c + 1, c + 6]
  {
    ExampleZeroToNineLevel3(c);
    LevelValue([Span(c + 1, c + 1), Span(c + 6, c + 6)], [], [c + 1, c + 6], []);
  }

  lemma ExampleZeroToNineDrain2(c: int)
    ensures Drain([Span(c + 1, c + 1), Span(c + 3, c + 4), Span(c + 6, c + 6), Span(c + 8, c + 9)]) == [c + 1, c + 3, c + 6, c + 8, c + 4, c + 9]
  {
    ExampleZeroToNineLevel2(c);
    ExampleZeroToNineDrain3(c + 3);
    LevelValue([Span(c + 1, c + 1), Span(c + 3, c + 4), Span(c + 6, c + 6), Span(c + 8, c + 9)], [Span(c + 4, c + 4), Span(c + 9, c + 9)], [c + 1, c + 3, c + 6, c + 8], [c + 4, c + 9]);
  }

  lemma ExampleZeroToNineDrain1(c: int)
    ensures Drain([Span(c + 1, c + 4), Span(c + 6, c + 9)]) == [c + 2, c + 7, c + 1, c + 3, c + 6, c + 8, c + 4, c + 9]
  {
    ExampleZeroToNineLevel1(c);
    ExampleZeroToNineDrain2(c);
    LevelValue([Span(c + 1, c + 4), Span(c + 6, c + 9)], [Span(c + 1, c + 1), Span(c + 3, c + 4), Span(c + 6, c + 6), Span(c + 8, c + 9)], [c + 2, c + 7], [c + 1, c + 3, c + 6, c + 8, c + 4, c + 9]);
  }

  lemma ExampleZeroToNineDrain(c: int)
    ensures Drain([Span(c + 1, c + 9)]) == [c + 5, c + 2, c + 7, c + 1, c + 3, c + 6, c + 8, c + 4, c + 9]
  {
    ExampleZeroToNineLevel0(c);
    ExampleZeroToNineDrain1(c);
    LevelValue([Span(c + 1, c + 9)], [Span(c + 1, c + 4), Span(c + 6, c + 9)], [c + 5], [c + 2, c + 7, c + 1, c + 3, c + 6, c + 8, c + 4, c + 9]);
  }

  /** The test vector for 0..9, shifted to start at any c. */
  lemma ExampleZeroToNine(c: int)
    ensures BisectionOrder(c, c + 9) == [c, c + 5, c + 2, c + 7, c + 1, c + 3, c + 6, c + 8, c + 4, c + 9]
  {
    ExampleZeroToNineDrain(c);
  }

  lemma ExampleZeroToSixteenLevel0(c: int)
    ensures Mids([Span(c + 1, c + 16)]) == [c + 8]
    ensures Kids([Span(c + 1, c + 16)]) == [Span(c + 1, c + 7), Span(c + 9, c + 16)]
  {
    LevelCons(Span(c + 1, c + 16), []);
    assert [Span(c + 1, c + 16)] + [] == [Span(c + 1, c + 16)];
  }

  lemma ExampleZeroToSixteenLevel1(c: int)
    ensures Mids([Span(c + 1, c + 7), Span(c + 9, c + 16)]) == [c + 4, c + 12]
    ensures Kids([Span(c + 1, c + 7), Span(c + 9, c + 16)]) == [Span(c + 1, c + 3), Span(c + 5, c + 7), Span(c + 9, c + 11), Span(c + 13, c + 16)]
  {
    LevelCons(Span(c + 1, c + 7), [Span(c + 9, c + 16)]);
    assert [Span(c + 1, c + 7)] + [Span(c + 9, c + 16)] == [Span(c + 1, c + 7), Span(c + 9, c + 16)];
    LevelCons(Span(c + 9, c + 16), []);
    assert [Span(c + 9, c + 16)] + [] == [Span(c + 9, c + 16)];
  }

  lemma ExampleZeroToSixteenLevel2Left(c: int)
    ensures Mids([Span(c + 1, c + 3), Span(c + 5, c + 7)]) == [c + 2, c + 6]
    ensures Kids([Span(c + 1, c + 3), Span(c + 5, c + 7)]) == [Span(c + 1, c + 1), Span(c + 3, c + 3), Span(c + 5, c + 5), Span(c + 7, c + 7)]
  {
    LevelCons(Span(c + 1, c + 3), [Span(c + 5, c + 7)]);
    assert [Span(c + 1, c + 3)] + [Span(c + 5, c + 7)] == [Span(c + 1, c + 3), Span(c + 5, c + 7)];
    LevelCons(Span(c + 5, c + 7), []);
    assert [Span(c + 5, c + 7)] + [] == [Span(c + 5, c + 7)];
  }

  lemma ExampleZeroToSixteenLevel2Right(c: int)
    ensures Mids([Span(c + 1, c + 3), Span(c + 5, c + 8)]) == [c + 2, c + 6]
    ensures Kids([Span(c + 1, c + 3), Span(c + 5, c + 8)]) == [Span(c + 1, c + 1), Span(c + 3, c + 3), Span(c + 5, c + 5), Span(c + 7, c + 8)]
  {
    LevelCons(Span(c + 1, c + 3), [Span(c + 5, c + 8)]);
    assert [Span(c + 1, c + 3)] + [Span(c + 5, c + 8)] == [Span(c + 1, c + 3), Span(c + 5, c + 8)];
    LevelCons(Span(c + 5, c + 8), []);
    assert [Span(c + 5, c + 8)] + [] == [Span(c + 5, c + 8)];
  }

  lemma ExampleZeroToSixteenLevel2(c: int)
    ensures Mids([Span(c + 1, c + 3), Span(c + 5, c + 7), Span(c + 9, c + 11), Span(c + 13, c + 16)]) == [c + 2, c + 6, c + 10, c + 14]
    ensures Kids([Span(c + 1, c + 3), Span(c + 5, c + 7), Span(c + 9, c + 11), Span(c + 13, c + 16)]) == [Span(c + 1, c + 1), Span(c + 3, c + 3), Span(c + 5, c + 5), Span(c + 7, c + 7), Span(c + 9, c + 9), Span(c + 11, c + 11), Span(c + 13, c + 13), Span(c + 15, c + 16)]
  {
    ExampleZeroToSixteenLevel2Left(c);
    ExampleZeroToSixteenLevel2Right(c + 8);
    MidsKidsAppend([Span(c + 1, c + 3), Span(c + 5, c + 7)], [Span(c + 9, c + 11), Span(c + 13, c + 16)]);
    assert [Span(c + 1, c + 3), Span(c + 5, c + 7)] + [Span(c + 9, c + 11), Span(c + 13, c + 16)] == [Span(c + 1, c + 3), Span(c + 5, c + 7), Span(c + 9, c + 11), Span(c + 13, c + 16)];
  }

  /** A level of two one-integer spans. */
  lemma TwoUnitsLevel(c: int)
    ensures Mids([Span(c + 1, c + 1), Span(c + 3, c + 3)]) == [c + 1, c + 3]
    ensures Kids([Span(c + 1, c + 1), Span(c + 3, c + 3)]) == []
  {
    LevelCons(Span(c + 1, c + 1), [Span(c + 3, c + 3)]);
    assert [Span(c + 1, c + 1)] + [Span(c + 3, c + 3)] == [Span(c + 1, c + 1), Span(c + 3, c + 3)];
    LevelCons(Span(c + 3, c + 3), []);
    assert [Span(c + 3, c + 3)] + [] == [Span(c + 3, c + 3)];
  }

  lemma ExampleZeroToSixteenLevel3Left(c: int)
    ensures Mids([Span(c + 1, c + 1), Span(c + 3, c + 3), Span(c + 5, c + 5), Span(c + 7, c + 7)]) == [c + 1, c + 3, c + 5, c + 7]
    ensures Kids([Span(c + 1, c + 1), Span(c + 3, c + 3), Span(c + 5, c + 5), Span(c + 7, c + 7)]) == []
  {
    TwoUnitsLevel(c);
    TwoUnitsLevel(c + 4);
    MidsKidsAppend([Span(c + 1, c + 1), Span(c + 3, c + 3)], [Span(c + 5, c + 5), Span(c + 7, c + 7)]);
    assert [Span(c + 1, c + 1), Span(c + 3, c + 3)] + [Span(c + 5, c + 5), Span(c + 7, c + 7)] == [Span(c + 1, c + 1), Span(c + 3, c + 3), Span(c + 5, c + 5), Span(c + 7, c + 7)];
  }

  lemma ExampleZeroToSixteenLevel3Right(c: int)
    ensures Mids([Span(c + 1, c + 1), Span(c + 3, c + 3), Span(c + 5, c + 5), Span(c + 7, c + 8)]) == [c + 1, c + 3, c + 5, c + 7]
    ensures Kids([Span(c + 1, c + 1), Span(c + 3, c + 3), Span(c + 5, c + 5), Span(c + 7, c + 8)]) == [Span(c + 8, c + 8)]
  {
    TwoUnitsLevel(c);
    UnitThenPairLevel(c + 4);
    MidsKidsAppend([Span(c + 1, c + 1), Span(c + 3, c + 3)], [Span(c + 5, c + 5), Span(c + 7, c + 8)]);
    assert [Span(c + 1, c + 1), Span(c + 3, c + 3)] + [Span(c + 5, c + 5), Span(c + 7, c + 8)] == [Span(c + 1, c + 1), Span(c + 3, c + 3), Span(c + 5, c + 5), Span(c + 7, c + 8)];
  }

  lemma ExampleZeroToSixteenLevel3(c: int)
    ensures Mids([Span(c + 1, c + 1), Span(c + 3, c + 3), Span(c + 5, c + 5), Span(c + 7, c + 7), Span(c + 9, c + 9), Span(c + 11, c + 11), Span(c + 13, c + 13), Span(c + 15, c + 16)]) == [c + 1, c + 3, c + 5, c + 7, c + 9, c + 11, c + 13, c + 15]
    ensures Kids([Span(c + 1, c + 1), Span(c + 3, c + 3), Span(c + 5, c + 5), Span(c + 7, c + 7), Span(c + 9, c + 9), Span(c + 11, c + 11), Span(c + 13, c + 13), Span(c + 15, c + 16)]) == [Span(c + 16, c + 16)]
  {
    ExampleZeroToSixteenLevel3Left(c);
    ExampleZeroToSixteenLevel3Right(c + 8);
    MidsKidsAppend([Span(c + 1, c + 1), Span(c + 3, c + 3), Span(c + 5, c + 5), Span(c + 7, c + 7)], [Span(c + 9, c + 9), Span(c + 11, c + 11), Span(c + 13, c + 13), Span(c + 15, c + 16)]);
    assert [Span(c + 1, c + 1), Span(c + 3, c + 3), Span(c + 5, c + 5), Span(c + 7, c + 7)] + [Span(c + 9, c + 9), Span(c + 11, c + 11), Span(c + 13, c + 13), Span(c + 15, c + 16)] == [Span(c + 1, c + 1), Span(c + 3, c + 3), Span(c + 5, c + 5), Span(c + 7, c + 7), Span(c + 9, c + 9), Span(c + 11, c + 11), Span(c + 13, c + 13), Span(c + 15, c + 16)];
  }

  lemma ExampleZeroToSixteenDrain3(c: int)
    ensures Drain([Span(c + 1, c + 1), Span(c + 3, c + 3), Span(c + 5, c + 5), Span(c + 7, c + 7), Span(c + 9, c + 9), Span(c + 11, c + 11), Span(c + 13, c + 13), Span(c + 15, c + 16)]) == [c + 1, c + 3, c + 5, c + 7, c + 9, c + 11, c + 13, c + 15, c + 16]
  {
    ExampleZeroToSixteenLevel3(c);
    UnitDrain(c + 15);
    LevelValue([Span(c + 1, c + 1), Span(c + 3, c + 3), Span(c + 5, c + 5), Span(c + 7, c + 7), Span(c + 9, c + 9), Span(c + 11, c + 11), Span(c + 13, c + 13), Span(c + 15, c + 16)], [Span(c + 16, c + 16)], [c + 1, c + 3, c + 5, c + 7, c + 9, c + 11, c + 13, c + 15], [c + 16]);
  }

  lemma ExampleZeroToSixteenDrain2(c: int)
    ensures Drain([Span(c + 1, c + 3), Span(c + 5, c + 7), Span(c + 9, c + 11), Span(c + 13, c + 16)]) == [c + 2, c + 6, c + 10, c + 14, c + 1, c + 3, c + 5, c + 7, c + 9, c + 11, c + 13, c + 15, c + 16]
  {
    ExampleZeroToSixteenLevel2(c);
    ExampleZeroToSixteenDrain3(c);
    LevelValue([Span(c + 1, c + 3), Span(c + 5, c + 7), Span(c + 9, c + 11), Span(c + 13, c + 16)], [Span(c + 1, c + 1), Span(c + 3, c + 3), Span(c + 5, c + 5), Span(c + 7, c + 7), Span(c + 9, c + 9), Span(c + 11, c + 11), Span(c + 13, c + 13), Span(c + 15, c + 16)], [c + 2, c + 6, c + 10, c + 14], [c + 1, c + 3, c + 5, c + 7, c + 9, c + 11, c + 13, c + 15, c + 16]);
  }

  lemma ExampleZeroToSixteenDrain1(c: int)
    ensures Drain([Span(c + 1, c + 7), Span(c + 9, c + 16)]) == [c + 4, c + 12, c + 2, c + 6, c + 10, c + 14, c + 1, c + 3, c + 5, c + 7, c + 9, c + 11, c + 13, c + 15, c + 16]
  {
    ExampleZeroToSixteenLevel1(c);
    ExampleZeroToSixteenDrain2(c);
    LevelValue([Span(c + 1, c + 7), Span(c + 9, c + 16)], [Span(c + 1, c + 3), Span(c + 5, c + 7), Span(c + 9, c + 11), Span(c + 13, c + 16)], [c + 4, c + 12], [c + 2, c + 6, c + 10, c + 14, c + 1, c + 3, c + 5, c + 7, c + 9, c + 11, c + 13, c + 15, c + 16]);
  }

  lemma ExampleZeroToSixteenDrain(c: int)
    ensures Drain([Span(c + 1, c + 16)]) == [c + 8, c + 4, c + 12, c + 2, c + 6, c + 10, c + 14, c + 1, c + 3, c + 5, c + 7, c + 9, c + 11, c + 13, c + 15, c + 16]
  {
    ExampleZeroToSixteenLevel0(c);
    ExampleZeroToSixteenDrain1(c);
    LevelValue([Span(c + 1, c + 16)], [Span(c + 1, c + 7), Span(c + 9, c + 16)], [c + 8], [c + 4, c + 12, c + 2, c + 6, c + 10, c + 14, c + 1, c + 3, c + 5, c + 7, c + 9, c + 11, c + 13, c + 15, c + 16]);
  }

  /** The test vector for 0..16, shifted to start at any c. */
  lemma ExampleZeroToSixteen(c: int)
    ensures BisectionOrder(c, c + 16) == [c, c + 8, c + 4, c + 12, c + 2, c + 6, c + 10, c + 14, c + 1, c + 3, c + 5, c + 7, c + 9, c + 11, c + 13, c + 15, c + 16]
  {
    ExampleZeroToSixteenDrain(c);
  }

  lemma ExampleSevenToFifteenLevel0(c: int)
    ensures Mids([Span(c + 1, c + 8)]) == [c + 4]
    ensures Kids([Span(c + 1, c + 8)]) == [Span(c + 1, c + 3), Span(c + 5, c + 8)]
  {
    LevelCons(Span(c + 1, c + 8), []);
    assert [Span(c + 1, c + 8)] + [] == [Span(c + 1, c + 8)];
  }

  lemma ExampleSevenToFifteenDrain2(c: int)
    ensures Drain([Span(c + 1, c + 1), Span(c + 3, c + 3), Span(c + 5, c + 5), Span(c + 7, c + 8)]) == [c + 1, c + 3, c + 5, c + 7, c + 8]
  {
    ExampleZeroToSixteenLevel3Right(c);
    UnitDrain(c + 7);
    LevelValue([Span(c + 1, c + 1), Span(c + 3, c + 3), Span(c + 5, c + 5), Span(c + 7, c + 8)], [Span(c + 8, c + 8)], [c + 1, c + 3, c + 5, c + 7], [c + 8]);
  }

  lemma ExampleSevenToFifteenDrain1(c: int)
    ensures Drain([Span(c + 1, c + 3), Span(c + 5, c + 8)]) == [c + 2, c + 6, c + 1, c + 3, c + 5, c + 7, c + 8]
  {
    ExampleZeroToSixteenLevel2Right(c);
    ExampleSevenToFifteenDrain2(c);
    LevelValue([Span(c + 1, c + 3), Span(c + 5, c + 8)], [Span(c + 1, c + 1), Span(c + 3, c + 3), Span(c + 5, c + 5), Span(c + 7, c + 8)], [c + 2, c + 6], [c + 1, c + 3, c + 5, c + 7, c + 8]);
  }

  lemma ExampleSevenToFifteenDrain(c: int)
    ensures Drain([Span(c + 1, c + 8)]) == [c + 4, c + 2, c + 6, c + 1, c + 3, c + 5, c + 7, c + 8]
  {
    ExampleSevenToFifteenLevel0(c);
    ExampleSevenToFifteenDrain1(c);
    LevelValue([Span(c + 1, c + 8)], [Span(c + 1, c + 3), Span(c + 5, c + 8)], [c + 4], [c + 2, c + 6, c + 1, c + 3, c + 5, c + 7, c + 8]);
  }

  /** The test vector for 7..15, shifted to start at any c (7..15 is c = 7). */
  lemma ExampleSevenToFifteen(c: int)
    ensures BisectionOrder(c, c + 8) == [c, c + 4, c + 2, c + 6, c + 1, c + 3, c + 5, c + 7, c + 8]
  {
    ExampleSevenToFifteenDrain(c);
  }
}
