// The monitor's event queue (src/common/JobPriorityQueue.cpp): a binary heap kept in place.
//
// `fixed` selects between the statements as shipped (false) and the same statements with the
// order of Up, the lone left child of Down and the missing rise of Remove put right (true).
module EventQueue {
  import opened Jobs

  // ---------- what one call does to the array ----------

  function Swap(q: seq<WaitingItem>, i: nat, j: nat): (r: seq<WaitingItem>)
    requires i < |q| && j < |q|
    ensures |r| == |q|
  {
    q[i := q[j]][j := q[i]]
  }

  /** Must the item at `pos` trade places with its parent? Shipped: when it is the later one. */
  predicate Rises(fixed: bool, q: seq<WaitingItem>, pos: nat)
    requires 0 < pos < |q|
  {
    if fixed then q[pos].time < q[(pos - 1) / 2].time else q[(pos - 1) / 2].time < q[pos].time
  }

  function Raised(fixed: bool, q: seq<WaitingItem>, pos: nat): (r: seq<WaitingItem>)
    requires pos < |q|
    ensures |r| == |q|
    decreases pos
  {
    if pos == 0 || !Rises(fixed, q, pos) then q
    else Raised(fixed, Swap(q, (pos - 1) / 2, pos), (pos - 1) / 2)
  }

  /** The child Down compares with; shipped, a lone left child is not looked at. */
  function ChildToCheck(fixed: bool, q: seq<WaitingItem>, pos: nat): (c: Option<nat>)
    requires pos < |q|
    ensures c.Some? ==> c.value < |q| && (c.value == 2 * pos + 1 || c.value == 2 * pos + 2)
  {
    if 2 * pos + 1 >= |q| then None
    else if 2 * pos + 2 >= |q| then (if fixed then Some(2 * pos + 1) else None)
    else if q[2 * pos + 1].time < q[2 * pos + 2].time then Some(2 * pos + 1)
    else Some(2 * pos + 2)
  }

  function Sunk(fixed: bool, q: seq<WaitingItem>, pos: nat): (r: seq<WaitingItem>)
    requires pos < |q|
    ensures |r| == |q|
    decreases |q| - pos
  {
    match ChildToCheck(fixed, q, pos)
    case None => q
    case Some(c) => if q[pos].time < q[c].time then q else Sunk(fixed, Swap(q, c, pos), c)
  }

  function Pushed(fixed: bool, q: seq<WaitingItem>, item: WaitingItem): (r: seq<WaitingItem>) {
    Raised(fixed, q + [item], |q|)
  }

  /** The last item takes slot `i` and the array gets one shorter. */
  function FillHole(q: seq<WaitingItem>, i: nat): (r: seq<WaitingItem>)
    requires i < |q|
  {
    q[i := q[|q| - 1]][..|q| - 1]
  }

  function Popped(fixed: bool, q: seq<WaitingItem>): (r: seq<WaitingItem>)
    requires q != []
  {
    var body := FillHole(q, 0);
    if body == [] then [] else Sunk(fixed, body, 0)
  }

  /** The first slot holding `id`, or |q|. */
  function IndexOf(q: seq<WaitingItem>, id: string): (i: nat)
    ensures i <= |q|
    ensures i < |q| ==> q[i].jobid == id
    ensures forall k :: 0 <= k < i ==> q[k].jobid != id
  {
    if q == [] || q[0].jobid == id then 0 else 1 + IndexOf(q[1..], id)
  }

  /** Slot `i` taken out; shipped, the item that fills it only ever sinks. */
  function RemovedAt(fixed: bool, q: seq<WaitingItem>, i: nat): (r: seq<WaitingItem>)
    requires i < |q|
  {
    var body := FillHole(q, i);
    if i == |q| - 1 then body
    else if fixed && i > 0 && Rises(true, body, i) then Raised(true, body, i)
    else Sunk(fixed, body, i)
  }

  function Removed(fixed: bool, q: seq<WaitingItem>, id: string): (r: seq<WaitingItem>) {
    var i := IndexOf(q, id);
    if i == |q| then q else RemovedAt(fixed, q, i)
  }

  /** Among events at the same time: none rises above its parent, and one that sinks goes below its right
      child, or below a lone left child when that is looked at. */
  lemma TiesSink(fixed: bool, x: WaitingItem, y: WaitingItem, z: WaitingItem)
    requires x.time == y.time == z.time
    ensures Raised(fixed, [x, y], 1) == [x, y]
    ensures Sunk(fixed, [x, y, z], 0) == [z, y, x]
    ensures Sunk(fixed, [x, y], 0) == if fixed then [y, x] else [x, y]
  {
    assert Swap([x, y, z], 2, 0) == [z, y, x];
    assert Swap([x, y], 1, 0) == [y, x];
  }

  /** The guard of the monitor's drain loop (src/common/JobMonitor.cpp:178-181). */
  predicate Ready(q: seq<WaitingItem>, now: int) {
    q != [] && q[0].time < now
  }

  // ---------- conservation, in both forms ----------

  lemma SwapConserves(q: seq<WaitingItem>, i: nat, j: nat)
    requires i < |q| && j < |q|
    ensures multiset(Swap(q, i, j)) == multiset(q)
  {
  }

  lemma {:induction false} RaisedConserves(fixed: bool, q: seq<WaitingItem>, pos: nat)
    requires pos < |q|
    ensures multiset(Raised(fixed, q, pos)) == multiset(q)
    decreases pos
  {
    if pos > 0 && Rises(fixed, q, pos) {
      var parent := (pos - 1) / 2;
      SwapConserves(q, parent, pos);
      RaisedConserves(fixed, Swap(q, parent, pos), parent);
    }
  }

  lemma {:induction false} SunkConserves(fixed: bool, q: seq<WaitingItem>, pos: nat)
    requires pos < |q|
    ensures multiset(Sunk(fixed, q, pos)) == multiset(q)
    decreases |q| - pos
  {
    match ChildToCheck(fixed, q, pos)
    case None =>
    case Some(c) =>
      if q[pos].time >= q[c].time {
        SwapConserves(q, c, pos);
        SunkConserves(fixed, Swap(q, c, pos), c);
      }
  }

  lemma PushConserves(fixed: bool, q: seq<WaitingItem>, item: WaitingItem)
    ensures multiset(Pushed(fixed, q, item)) == multiset(q) + multiset{item}
    ensures |Pushed(fixed, q, item)| == |q| + 1
  {
    RaisedConserves(fixed, q + [item], |q|);
  }

  lemma FillHoleConserves(q: seq<WaitingItem>, i: nat)
    requires i < |q|
    ensures multiset(FillHole(q, i)) == multiset(q) - multiset{q[i]}
  {
    var last := q[|q| - 1];
    assert q == q[..|q| - 1] + [last];
    if i == |q| - 1 {
      assert FillHole(q, i) == q[..|q| - 1];
    } else {
      assert FillHole(q, i) == q[..i] + [last] + q[i + 1..|q| - 1];
      assert q[..|q| - 1] == q[..i] + [q[i]] + q[i + 1..|q| - 1];
    }
  }

  lemma PopConserves(fixed: bool, q: seq<WaitingItem>)
    requires q != []
    ensures multiset(Popped(fixed, q)) == multiset(q) - multiset{q[0]}
    ensures |Popped(fixed, q)| == |q| - 1
  {
    var body := FillHole(q, 0);
    FillHoleConserves(q, 0);
    if body != [] {
      SunkConserves(fixed, body, 0);
    }
  }

  lemma RemovedAtConserves(fixed: bool, q: seq<WaitingItem>, i: nat)
    requires i < |q|
    ensures multiset(RemovedAt(fixed, q, i)) == multiset(q) - multiset{q[i]}
  {
    var body := FillHole(q, i);
    FillHoleConserves(q, i);
    if i < |q| - 1 {
      SunkConserves(fixed, body, i);
      RaisedConserves(true, body, i);
    }
  }

  lemma RemoveConserves(fixed: bool, q: seq<WaitingItem>, id: string)
    ensures var i := IndexOf(q, id);
            multiset(Removed(fixed, q, id)) == if i < |q| then multiset(q) - multiset{q[i]} else multiset(q)
    ensures (exists x :: x in q && x.jobid == id) <==> IndexOf(q, id) < |q|
  {
    var i := IndexOf(q, id);
    if i < |q| {
      RemovedAtConserves(fixed, q, i);
      assert q[i] in q;
    }
  }

  lemma PushedMembers(fixed: bool, q: seq<WaitingItem>, item: WaitingItem)
    ensures forall x :: x in Pushed(fixed, q, item) <==> x in q || x == item
  {
    PushConserves(fixed, q, item);
    forall x ensures x in Pushed(fixed, q, item) <==> x in multiset(Pushed(fixed, q, item)) {
    }
  }

  lemma PoppedMembers(fixed: bool, q: seq<WaitingItem>)
    requires q != []
    ensures forall x :: x in Popped(fixed, q) ==> x in q
    ensures forall x :: x in q ==> x in Popped(fixed, q) || x == q[0]
  {
    PopConserves(fixed, q);
    forall x ensures x in Popped(fixed, q) <==> x in multiset(Popped(fixed, q)) {
    }
  }

  lemma RemovedMembers(fixed: bool, q: seq<WaitingItem>, id: string)
    ensures forall x :: x in Removed(fixed, q, id) ==> x in q
    ensures forall x: WaitingItem :: x.jobid != id ==> (x in Removed(fixed, q, id) <==> x in q)
  {
    RemoveConserves(fixed, q, id);
    forall x ensures x in Removed(fixed, q, id) <==> x in multiset(Removed(fixed, q, id)) {
    }
  }

  // ---------- sums over the queued events ----------

  function SumOver(q: seq<WaitingItem>, f: WaitingItem -> nat): (sum: nat) {
    if q == [] then 0 else f(q[0]) + SumOver(q[1..], f)
  }

  lemma {:induction false} SumSplit(a: seq<WaitingItem>, b: seq<WaitingItem>, f: WaitingItem -> nat)
    ensures SumOver(a + b, f) == SumOver(a, f) + SumOver(b, f)
  {
    if a == [] {
      assert a + b == b;
    } else {
      assert (a + b)[1..] == a[1..] + b;
      SumSplit(a[1..], b, f);
    }
  }

  lemma SumCons(x: WaitingItem, q: seq<WaitingItem>, f: WaitingItem -> nat)
    ensures SumOver([x] + q, f) == f(x) + SumOver(q, f)
  {
    assert ([x] + q)[1..] == q;
  }

  lemma SlotOut(q: seq<WaitingItem>, i: nat)
    requires i < |q|
    ensures q == q[..i] + ([q[i]] + q[i + 1..])
    ensures multiset(q[..i] + q[i + 1..]) == multiset(q) - multiset{q[i]}
  {
    assert q == q[..i] + [q[i]] + q[i + 1..];
  }

  lemma SumSlot(q: seq<WaitingItem>, i: nat, f: WaitingItem -> nat)
    requires i < |q|
    ensures SumOver(q, f) == f(q[i]) + SumOver(q[..i] + q[i + 1..], f)
    ensures multiset(q[..i] + q[i + 1..]) == multiset(q) - multiset{q[i]}
  {
    var front, rest := q[..i], q[i + 1..];
    SlotOut(q, i);
    SumSplit(front, [q[i]] + rest, f);
    SumCons(q[i], rest, f);
    SumSplit(front, rest, f);
  }

  lemma FindIn(q: seq<WaitingItem>, x: WaitingItem) returns (i: nat)
    requires x in multiset(q)
    ensures i < |q| && q[i] == x
  {
    i :| 0 <= i < |q| && q[i] == x;
  }

  /** Taking the same item out of two permutations leaves permutations. */
  lemma PermutedRest(a: seq<WaitingItem>, b: seq<WaitingItem>, i: nat)
    requires a != [] && multiset(a) == multiset(b) && i < |b| && b[i] == a[0]
    ensures multiset(a[1..]) == multiset(b[..i] + b[i + 1..])
  {
    SlotOut(b, i);
    assert a == [a[0]] + a[1..];
  }

  lemma {:induction false} SumPermuted(a: seq<WaitingItem>, b: seq<WaitingItem>, f: WaitingItem -> nat)
    requires multiset(a) == multiset(b)
    ensures SumOver(a, f) == SumOver(b, f)
    decreases |a|
  {
    if a == [] {
      assert |multiset(b)| == 0;
    } else {
      assert a[0] in multiset(a);
      var i := FindIn(b, a[0]);
      PermutedRest(a, b, i);
      SumSlot(b, i, f);
      SumPermuted(a[1..], b[..i] + b[i + 1..], f);
    }
  }

  lemma SumPushed(fixed: bool, q: seq<WaitingItem>, item: WaitingItem, f: WaitingItem -> nat)
    ensures SumOver(Pushed(fixed, q, item), f) == SumOver(q, f) + f(item)
  {
    PushConserves(fixed, q, item);
    SumPermuted(Pushed(fixed, q, item), q + [item], f);
    SumSplit(q, [item], f);
  }

  lemma SumWithout(q: seq<WaitingItem>, i: nat, r: seq<WaitingItem>, f: WaitingItem -> nat)
    requires i < |q| && multiset(r) == multiset(q) - multiset{q[i]}
    ensures SumOver(q, f) == f(q[i]) + SumOver(r, f)
  {
    SumSlot(q, i, f);
    SumPermuted(q[..i] + q[i + 1..], r, f);
  }

  lemma SumPopped(fixed: bool, q: seq<WaitingItem>, f: WaitingItem -> nat)
    requires q != []
    ensures SumOver(q, f) == f(q[0]) + SumOver(Popped(fixed, q), f)
  {
    PopConserves(fixed, q);
    SumWithout(q, 0, Popped(fixed, q), f);
  }

  lemma SumRemoved(fixed: bool, q: seq<WaitingItem>, id: string, f: WaitingItem -> nat)
    ensures var i := IndexOf(q, id);
            SumOver(q, f) == SumOver(Removed(fixed, q, id), f) + if i < |q| then f(q[i]) else 0
  {
    RemoveConserves(fixed, q, id);
    var i := IndexOf(q, id);
    if i < |q| {
      SumWithout(q, i, Removed(fixed, q, id), f);
    }
  }

  function IsFor(id: string): (f: WaitingItem -> nat) {
    (x: WaitingItem) => if x.jobid == id then 1 else 0
  }

  function Weighing(start: nat, stop: nat): (f: WaitingItem -> nat) {
    (x: WaitingItem) => if x.event == JobStart then start else stop
  }

  /** How many queued events `id` has. */
  function CountFor(q: seq<WaitingItem>, id: string): (n: nat) {
    SumOver(q, IsFor(id))
  }

  lemma {:induction false} CountForNone(q: seq<WaitingItem>, id: string)
    ensures CountFor(q, id) == 0 <==> IndexOf(q, id) == |q|
  {
    if q != [] {
      CountForNone(q[1..], id);
    }
  }

  lemma {:induction false} CountForOne(q: seq<WaitingItem>, i: nat, j: nat, id: string)
    requires i < |q| && j < |q| && q[i].jobid == id && q[j].jobid == id && CountFor(q, id) <= 1
    ensures i == j
  {
    if i == 0 || j == 0 {
      CountForNone(q[1..], id);
    } else {
      CountForOne(q[1..], i - 1, j - 1, id);
    }
  }

  // ---------- heap order, with the departures put right ----------

  /** Slot `i` is no earlier than its parent. */
  predicate EdgeOk(q: seq<WaitingItem>, i: int) {
    0 < i < |q| ==> q[(i - 1) / 2].time <= q[i].time
  }

  ghost predicate MinHeap(q: seq<WaitingItem>) {
    forall i :: 0 < i < |q| ==> EdgeOk(q, i)
  }

  /** The parent of `pos`, if any, is no later than the children of `pos`. */
  ghost predicate BridgeOk(q: seq<WaitingItem>, pos: nat)
    requires pos < |q|
  {
    pos > 0 ==> forall i :: 0 < i < |q| && (i - 1) / 2 == pos ==> q[(pos - 1) / 2].time <= q[i].time
  }

  lemma {:induction false} UpRestoresHeap(q: seq<WaitingItem>, pos: nat)
    requires pos < |q| && BridgeOk(q, pos)
    requires forall i :: 0 < i < |q| && i != pos ==> EdgeOk(q, i)
    ensures MinHeap(Raised(true, q, pos))
    decreases pos
  {
    if pos == 0 {
    } else if !Rises(true, q, pos) {
      assert EdgeOk(q, pos);
    } else {
      var parent := (pos - 1) / 2;
      var r := Swap(q, parent, pos);
      forall i | 0 < i < |r| && i != parent ensures EdgeOk(r, i) {
        assert EdgeOk(q, i) || i == pos;
      }
      if parent > 0 {
        assert EdgeOk(q, parent);
        forall i | 0 < i < |r| && (i - 1) / 2 == parent ensures r[(parent - 1) / 2].time <= r[i].time {
          assert EdgeOk(q, i) || i == pos;
        }
      }
      UpRestoresHeap(r, parent);
    }
  }

  /** One turn of Down: the hole in the order moves from `pos` to its smaller child `c`. */
  lemma DownStep(q: seq<WaitingItem>, pos: nat, c: nat)
    requires pos < |q| && BridgeOk(q, pos)
    requires forall i :: 0 < i < |q| && (i - 1) / 2 != pos ==> EdgeOk(q, i)
    requires pos < c < |q| && (c - 1) / 2 == pos && q[c].time <= q[pos].time
    requires forall i :: 0 < i < |q| && (i - 1) / 2 == pos ==> q[c].time <= q[i].time
    ensures var r := Swap(q, c, pos);
            BridgeOk(r, c) && forall i :: 0 < i < |r| && (i - 1) / 2 != c ==> EdgeOk(r, i)
  {
    var r := Swap(q, c, pos);
    forall i | 0 < i < |r| && (i - 1) / 2 != c ensures EdgeOk(r, i) {
      if (i - 1) / 2 == pos {
      } else if i == pos {
        assert q[(pos - 1) / 2].time <= q[c].time;
      } else {
        assert EdgeOk(q, i);
      }
    }
    forall i | 0 < i < |r| && (i - 1) / 2 == c ensures r[(c - 1) / 2].time <= r[i].time {
      assert EdgeOk(q, i);
    }
  }

  lemma SmallerChild(q: seq<WaitingItem>, pos: nat)
    requires pos < |q|
    ensures match ChildToCheck(true, q, pos)
            case None => |q| <= 2 * pos + 1
            case Some(c) => pos < c && (c - 1) / 2 == pos
                            && forall i :: 0 < i < |q| && (i - 1) / 2 == pos ==> q[c].time <= q[i].time
  {
  }

  lemma {:induction false} DownRestoresHeap(q: seq<WaitingItem>, pos: nat)
    requires pos < |q| && BridgeOk(q, pos)
    requires forall i :: 0 < i < |q| && (i - 1) / 2 != pos ==> EdgeOk(q, i)
    ensures MinHeap(Sunk(true, q, pos))
    decreases |q| - pos
  {
    SmallerChild(q, pos);
    match ChildToCheck(true, q, pos)
    case None =>
    case Some(c) =>
      if q[pos].time < q[c].time {
        assert forall i :: 0 < i < |q| && (i - 1) / 2 == pos ==> EdgeOk(q, i);
      } else {
        DownStep(q, pos, c);
        DownRestoresHeap(Swap(q, c, pos), c);
      }
  }

  lemma PushKeepsHeap(q: seq<WaitingItem>, item: WaitingItem)
    requires MinHeap(q)
    ensures MinHeap(Pushed(true, q, item))
  {
    var r := q + [item];
    forall i | 0 < i < |r| && i != |q| ensures EdgeOk(r, i) {
      assert EdgeOk(q, i);
    }
    UpRestoresHeap(r, |q|);
  }

  lemma PopKeepsHeap(q: seq<WaitingItem>)
    requires q != [] && MinHeap(q)
    ensures MinHeap(Popped(true, q))
  {
    var body := FillHole(q, 0);
    if body != [] {
      forall i | 0 < i < |body| && (i - 1) / 2 != 0 ensures EdgeOk(body, i) {
        assert EdgeOk(q, i);
      }
      DownRestoresHeap(body, 0);
    }
  }

  /** Filling slot `i` of a heap with the last item disturbs the order around `i` only. */
  lemma HoleInHeap(q: seq<WaitingItem>, i: nat)
    requires MinHeap(q) && i < |q| - 1
    ensures var body := FillHole(q, i);
            && BridgeOk(body, i)
            && (forall k :: 0 < k < |body| && k != i && (k - 1) / 2 != i ==> EdgeOk(body, k))
            && (forall k :: 0 < k < |body| && (k - 1) / 2 == i ==> q[i].time <= body[k].time)
            && (i > 0 && !Rises(true, body, i) ==> EdgeOk(body, i))
  {
    var body := FillHole(q, i);
    forall k | 0 < k < |body| && k != i && (k - 1) / 2 != i ensures EdgeOk(body, k) {
      assert EdgeOk(q, k);
    }
    forall k | 0 < k < |body| && (k - 1) / 2 == i ensures q[i].time <= body[k].time {
      assert EdgeOk(q, k);
    }
    assert EdgeOk(q, i);
  }

  lemma HoleAtEnd(q: seq<WaitingItem>)
    requires q != [] && MinHeap(q)
    ensures MinHeap(FillHole(q, |q| - 1))
  {
    var body := FillHole(q, |q| - 1);
    forall k | 0 < k < |body| ensures EdgeOk(body, k) {
      assert EdgeOk(q, k);
    }
  }

  lemma RemoveKeepsHeap(q: seq<WaitingItem>, id: string)
    requires MinHeap(q)
    ensures MinHeap(Removed(true, q, id))
  {
    var i := IndexOf(q, id);
    if i < |q| {
      var body := FillHole(q, i);
      if i == |q| - 1 {
        HoleAtEnd(q);
      } else {
        HoleInHeap(q, i);
        if i > 0 && Rises(true, body, i) {
          assert EdgeOk(q, i);
          assert forall k :: 0 < k < |body| && (k - 1) / 2 == i ==> EdgeOk(body, k);
          UpRestoresHeap(body, i);
        } else {
          DownRestoresHeap(body, i);
        }
      }
    }
  }

  lemma {:induction false} RootIsLeast(q: seq<WaitingItem>, i: nat)
    requires MinHeap(q) && i < |q|
    ensures q[0].time <= q[i].time
    decreases i
  {
    if i > 0 {
      assert EdgeOk(q, i);
      RootIsLeast(q, (i - 1) / 2);
    }
  }

  lemma FirstIsLeast(q: seq<WaitingItem>)
    requires q != [] && MinHeap(q)
    ensures forall x :: x in q ==> q[0].time <= x.time
  {
    forall x | x in q ensures q[0].time <= x.time {
      var i :| 0 <= i < |q| && q[i] == x;
      RootIsLeast(q, i);
    }
  }

  /** The drain loop's guard holds at `now` exactly when some queued event is earlier than `now`. */
  lemma ReadyIffSomethingDue(q: seq<WaitingItem>, now: int)
    requires MinHeap(q)
    ensures Ready(q, now) <==> exists x :: x in q && x.time < now
  {
    if q != [] {
      assert q[0] in q;
      FirstIsLeast(q);
    }
  }

  // ---------- whole runs ----------

  datatype Op = OpPush(item: WaitingItem) | OpPop | OpRemove(id: string)

  function Apply(fixed: bool, q: seq<WaitingItem>, op: Op): (r: seq<WaitingItem>) {
    match op
    case OpPush(item) => Pushed(fixed, q, item)
    case OpPop => if q == [] then [] else Popped(fixed, q)
    case OpRemove(id) => Removed(fixed, q, id)
  }

  function RunOps(fixed: bool, q: seq<WaitingItem>, ops: seq<Op>): (r: seq<WaitingItem>)
    decreases |ops|
  {
    if ops == [] then q else RunOps(fixed, Apply(fixed, q, ops[0]), ops[1..])
  }

  lemma {:induction false} EveryRunIsAHeap(q: seq<WaitingItem>, ops: seq<Op>)
    requires MinHeap(q)
    ensures var r := RunOps(true, q, ops);
            MinHeap(r) && forall i :: 0 <= i < |r| ==> r[0].time <= r[i].time
    decreases |ops|
  {
    if ops == [] {
      forall i | 0 <= i < |q| ensures q[0].time <= q[i].time {
        RootIsLeast(q, i);
      }
    } else {
      match ops[0] {
        case OpPush(item) => PushKeepsHeap(q, item);
        case OpPop => if q != [] { PopKeepsHeap(q); }
        case OpRemove(id) => RemoveKeepsHeap(q, id);
      }
      EveryRunIsAHeap(Apply(true, q, ops[0]), ops[1..]);
    }
  }

  /** What popping until the queue is empty hands out. */
  function PopAll(fixed: bool, q: seq<WaitingItem>): (popped: seq<WaitingItem>)
    decreases |q|
  {
    if q == [] then []
    else
      PopConserves(fixed, q);
      [q[0]] + PopAll(fixed, Popped(fixed, q))
  }

  lemma {:induction false} PopAllConserves(fixed: bool, q: seq<WaitingItem>)
    ensures multiset(PopAll(fixed, q)) == multiset(q)
    decreases |q|
  {
    if q == [] {
    } else {
      PopConserves(fixed, q);
      PopAllConserves(fixed, Popped(fixed, q));
      assert q[0] in q;
    }
  }

  ghost predicate Ascending(p: seq<WaitingItem>) {
    forall i, j :: 0 <= i < j < |p| ==> p[i].time <= p[j].time
  }

  lemma EarliestInFront(x: WaitingItem, p: seq<WaitingItem>)
    requires Ascending(p) && forall y :: y in multiset(p) ==> x.time <= y.time
    ensures Ascending([x] + p)
  {
    forall j | 0 <= j < |p| ensures x.time <= p[j].time {
      assert p[j] in multiset(p);
    }
  }

  /** Pops come out earliest first: every event exactly once, in order of time. */
  lemma {:induction false} PopsAreAscending(q: seq<WaitingItem>)
    requires MinHeap(q)
    ensures multiset(PopAll(true, q)) == multiset(q)
    ensures Ascending(PopAll(true, q))
    decreases |q|
  {
    PopAllConserves(true, q);
    if q != [] {
      PopConserves(true, q);
      PopKeepsHeap(q);
      PopsAreAscending(Popped(true, q));
      FirstIsLeast(q);
      EarliestInFront(q[0], PopAll(true, Popped(true, q)));
    }
  }

  // ---------- what the shipped Up and Down keep ----------

  predicate LateEdge(q: seq<WaitingItem>, i: int) {
    0 < i < |q| ==> q[i].time <= q[(i - 1) / 2].time
  }

  /** The array is a heap the other way round: parents are latest. */
  ghost predicate MaxHeap(q: seq<WaitingItem>) {
    forall i :: 0 < i < |q| ==> LateEdge(q, i)
  }

  lemma {:induction false} ShippedUpRaisesLatest(q: seq<WaitingItem>, pos: nat)
    requires pos < |q|
    requires forall i :: 0 < i < |q| && i != pos ==> LateEdge(q, i)
    requires pos > 0 ==> forall i :: 0 < i < |q| && (i - 1) / 2 == pos ==> q[i].time <= q[(pos - 1) / 2].time
    ensures MaxHeap(Raised(false, q, pos))
    decreases pos
  {
    if pos == 0 {
    } else if !Rises(false, q, pos) {
      assert LateEdge(q, pos);
    } else {
      var parent := (pos - 1) / 2;
      var r := Swap(q, parent, pos);
      forall i | 0 < i < |r| && i != parent ensures LateEdge(r, i) {
        assert LateEdge(q, i) || i == pos;
      }
      if parent > 0 {
        assert LateEdge(q, parent);
        forall i | 0 < i < |r| && (i - 1) / 2 == parent ensures r[i].time <= r[(parent - 1) / 2].time {
          assert LateEdge(q, i) || i == pos;
        }
      }
      ShippedUpRaisesLatest(r, parent);
    }
  }

  lemma {:induction false} LateRoot(q: seq<WaitingItem>, i: nat)
    requires MaxHeap(q) && i < |q|
    ensures q[i].time <= q[0].time
    decreases i
  {
    if i > 0 {
      assert LateEdge(q, i);
      LateRoot(q, (i - 1) / 2);
    }
  }

  /** A queue filled by pushes alone. */
  function PushAll(fixed: bool, q: seq<WaitingItem>, items: seq<WaitingItem>): (r: seq<WaitingItem>)
    decreases |items|
  {
    if items == [] then q else PushAll(fixed, Pushed(fixed, q, items[0]), items[1..])
  }

  lemma ShippedPushKeepsMaxHeap(q: seq<WaitingItem>, item: WaitingItem)
    requires MaxHeap(q)
    ensures MaxHeap(Pushed(false, q, item))
  {
    var grown := q + [item];
    forall i | 0 < i < |grown| && i != |q| ensures LateEdge(grown, i) {
      assert LateEdge(q, i);
    }
    ShippedUpRaisesLatest(grown, |q|);
  }

  lemma {:induction false} ShippedPushesKeepLatestFirst(q: seq<WaitingItem>, items: seq<WaitingItem>)
    requires MaxHeap(q)
    ensures var r := PushAll(false, q, items);
            && MaxHeap(r)
            && multiset(r) == multiset(q) + multiset(items)
            && forall i :: 0 <= i < |r| ==> r[i].time <= r[0].time
    decreases |items|
  {
    if items == [] {
      forall i | 0 <= i < |q| ensures q[i].time <= q[0].time {
        LateRoot(q, i);
      }
    } else {
      ShippedPushKeepsMaxHeap(q, items[0]);
      PushConserves(false, q, items[0]);
      ShippedPushesKeepLatestFirst(Pushed(false, q, items[0]), items[1..]);
      assert items == [items[0]] + items[1..];
    }
  }

  /** After pushes alone, the shipped drain guard notices every due event at every instant
      exactly when all events carry the same time. */
  lemma ShippedPeekIsLeastIff(items: seq<WaitingItem>)
    requires items != []
    ensures var r := PushAll(false, [], items);
            && r != []
            && ((forall x :: x in items ==> r[0].time <= x.time)
                <==> forall x, y :: x in items && y in items ==> x.time == y.time)
  {
    ShippedPushesKeepLatestFirst([], items);
    var r := PushAll(false, [], items);
    assert multiset(r) == multiset(items);
    assert items[0] in multiset(r);
    assert r[0] in multiset(items);
    forall x | x in items ensures x.time <= r[0].time {
      assert x in multiset(r);
      var i :| 0 <= i < |r| && r[i] == x;
    }
  }

  lemma BrokenEdge(q: seq<WaitingItem>, i: nat)
    requires 0 < i < |q| && !EdgeOk(q, i)
    ensures !MinHeap(q)
  {
  }

  /** After a shipped rise the parent's old item is below a later one. */
  lemma ShippedRiseBreaksEdge(q: seq<WaitingItem>, pos: nat)
    requires 0 < pos < |q| && Rises(false, q, pos)
    ensures !EdgeOk(Swap(q, (pos - 1) / 2, pos), pos)
  {
    var parent := (pos - 1) / 2;
    var r := Swap(q, parent, pos);
    assert r[parent] == q[pos] && r[pos] == q[parent];
  }

  /** An item above an earlier child of its own stays above one, however far it rises. */
  lemma {:induction false} ShippedUpLeavesDisorder(q: seq<WaitingItem>, pos: nat, child: nat)
    requires 0 < child < |q| && (child - 1) / 2 == pos && !EdgeOk(q, child)
    ensures !MinHeap(Raised(false, q, pos))
    decreases pos
  {
    if pos == 0 || !Rises(false, q, pos) {
      BrokenEdge(q, child);
    } else {
      var parent := (pos - 1) / 2;
      var r := Swap(q, parent, pos);
      ShippedRiseBreaksEdge(q, pos);
      ShippedUpLeavesDisorder(r, parent, pos);
      assert Raised(false, q, pos) == Raised(false, r, parent);
    }
  }

  /** A shipped Push onto a heap gives a heap exactly when the queue was empty or the new event is at
      the same time as the one it is put below. */
  lemma ShippedPushRightIff(q: seq<WaitingItem>, item: WaitingItem)
    requires MinHeap(q)
    ensures MinHeap(Pushed(false, q, item)) <==> (q == [] || q[(|q| - 1) / 2].time == item.time)
  {
    var grown := q + [item];
    forall i | 0 < i < |q| ensures EdgeOk(grown, i) {
      assert EdgeOk(q, i);
    }
    if q != [] {
      var parent := (|q| - 1) / 2;
      if Rises(false, grown, |q|) {
        ShippedRiseBreaksEdge(grown, |q|);
        ShippedUpLeavesDisorder(Swap(grown, parent, |q|), parent, |q|);
      } else {
        assert EdgeOk(grown, |q|) <==> q[parent].time == item.time;
      }
    }
  }

  lemma SameChildOnOddLength(q: seq<WaitingItem>, pos: nat)
    requires pos < |q| && |q| % 2 == 1
    ensures ChildToCheck(false, q, pos) == ChildToCheck(true, q, pos)
  {
  }

  /** A lone left child exists only in an array of even length; otherwise the shipped Down is right. */
  lemma {:induction false} ShippedDownRightOnOddLength(q: seq<WaitingItem>, pos: nat)
    requires pos < |q| && |q| % 2 == 1
    ensures Sunk(false, q, pos) == Sunk(true, q, pos)
    decreases |q| - pos
  {
    SameChildOnOddLength(q, pos);
    match ChildToCheck(true, q, pos)
    case None =>
    case Some(c) =>
      if q[pos].time >= q[c].time {
        var r := Swap(q, c, pos);
        ShippedDownRightOnOddLength(r, c);
        assert Sunk(false, q, pos) == Sunk(false, r, c) && Sunk(true, q, pos) == Sunk(true, r, c);
      }
  }

  /** In an array of even length the shipped Down gets every edge right but, at worst, the one to
      the last slot: the lone left child. */
  lemma {:induction false} ShippedDownMissesOneEdge(q: seq<WaitingItem>, pos: nat)
    requires pos < |q| && BridgeOk(q, pos)
    requires forall i :: 0 < i < |q| && (i - 1) / 2 != pos ==> EdgeOk(q, i)
    ensures forall i :: 0 < i < |q| - 1 ==> EdgeOk(Sunk(false, q, pos), i)
    decreases |q| - pos
  {
    match ChildToCheck(false, q, pos)
    case None =>
      forall i | 0 < i < |q| - 1 ensures EdgeOk(q, i) {
        assert (i - 1) / 2 != pos;
      }
    case Some(c) =>
      SmallerChild(q, pos);
      if q[pos].time < q[c].time {
        assert forall i :: 0 < i < |q| && (i - 1) / 2 == pos ==> EdgeOk(q, i);
      } else {
        DownStep(q, pos, c);
        ShippedDownMissesOneEdge(Swap(q, c, pos), c);
      }
  }

  /** Going down from `pos` to the smaller child each time ends at the parent of a lone left child. */
  predicate LeadsToLoneChild(q: seq<WaitingItem>, pos: nat)
    requires pos < |q|
    decreases |q| - pos
  {
    if 2 * pos + 1 >= |q| then false
    else if 2 * pos + 2 >= |q| then true
    else LeadsToLoneChild(q, if q[2 * pos + 1].time < q[2 * pos + 2].time then 2 * pos + 1 else 2 * pos + 2)
  }

  lemma {:induction false} SamePathBelow(q: seq<WaitingItem>, r: seq<WaitingItem>, pos: nat)
    requires pos < |q| == |r| && forall i :: pos < i < |q| ==> q[i] == r[i]
    ensures LeadsToLoneChild(q, pos) <==> LeadsToLoneChild(r, pos)
    decreases |q| - pos
  {
    if 2 * pos + 2 < |q| {
      SamePathBelow(q, r, if q[2 * pos + 1].time < q[2 * pos + 2].time then 2 * pos + 1 else 2 * pos + 2);
    }
  }

  /** The lone left child is no earlier than any slot on the way to it. */
  lemma {:induction false} LoneChildIsLate(q: seq<WaitingItem>, pos: nat)
    requires pos < |q| && LeadsToLoneChild(q, pos)
    requires forall i :: 0 < i < |q| && pos <= (i - 1) / 2 ==> EdgeOk(q, i)
    ensures pos < |q| - 1 && q[pos].time <= q[|q| - 1].time
    decreases |q| - pos
  {
    if 2 * pos + 2 >= |q| {
      assert EdgeOk(q, 2 * pos + 1);
    } else {
      var c := if q[2 * pos + 1].time < q[2 * pos + 2].time then 2 * pos + 1 else 2 * pos + 2;
      assert EdgeOk(q, c);
      LoneChildIsLate(q, c);
    }
  }

  /** The item at `pos` is later than the lone left child it will come to rest above. */
  predicate StopsAboveLoneChild(q: seq<WaitingItem>, pos: nat)
    requires pos < |q|
  {
    LeadsToLoneChild(q, pos) && q[|q| - 1].time < q[pos].time
  }

  /** Down has found its place above `c`, and rightly so. */
  lemma ShippedDownStops(q: seq<WaitingItem>, pos: nat, c: nat)
    requires pos < |q| && ChildToCheck(false, q, pos) == Some(c) && q[pos].time < q[c].time
    requires forall i :: 0 < i < |q| && (i - 1) / 2 != pos ==> EdgeOk(q, i)
    ensures MinHeap(q) && !StopsAboveLoneChild(q, pos)
  {
    SmallerChild(q, pos);
    assert forall i :: 0 < i < |q| && (i - 1) / 2 == pos ==> EdgeOk(q, i);
    if LeadsToLoneChild(q, pos) {
      LoneChildIsLate(q, c);
    }
  }

  lemma PathGoesOn(q: seq<WaitingItem>, pos: nat)
    requires pos < |q|
    ensures LeadsToLoneChild(q, pos) ==> pos < |q| - 1
  {
  }

  lemma ShippedDownStepKeepsPath(q: seq<WaitingItem>, pos: nat, c: nat)
    requires pos < |q| && ChildToCheck(false, q, pos) == Some(c)
    ensures StopsAboveLoneChild(q, pos) <==> StopsAboveLoneChild(Swap(q, c, pos), c)
  {
    SamePathBelow(q, Swap(q, c, pos), c);
    PathGoesOn(q, c);
  }

  /** The shipped Down restores a heap whose only disorder is below `pos` exactly when the item there
      does not come to rest above an earlier lone left child. */
  lemma {:induction false} ShippedDownRightIff(q: seq<WaitingItem>, pos: nat)
    requires pos < |q| && BridgeOk(q, pos)
    requires forall i :: 0 < i < |q| && (i - 1) / 2 != pos ==> EdgeOk(q, i)
    ensures MinHeap(Sunk(false, q, pos)) <==> !StopsAboveLoneChild(q, pos)
    decreases |q| - pos
  {
    match ChildToCheck(false, q, pos)
    case None =>
      if 2 * pos + 1 < |q| {
        assert StopsAboveLoneChild(q, pos) <==> !EdgeOk(q, 2 * pos + 1);
      }
    case Some(c) =>
      if q[pos].time < q[c].time {
        ShippedDownStops(q, pos, c);
      } else {
        SmallerChild(q, pos);
        DownStep(q, pos, c);
        ShippedDownStepKeepsPath(q, pos, c);
        ShippedDownRightIff(Swap(q, c, pos), c);
      }
  }

  /** Taking the front off a heap the shipped way gives a heap exactly when the last item, put in its
      place, does not come to rest above an earlier lone left child. */
  lemma ShippedPopRightIff(q: seq<WaitingItem>)
    requires q != [] && MinHeap(q)
    ensures MinHeap(Popped(false, q)) <==> (|q| == 1 || !StopsAboveLoneChild(FillHole(q, 0), 0))
  {
    if |q| > 1 {
      HoleInHeap(q, 0);
      ShippedDownRightIff(FillHole(q, 0), 0);
    }
  }

  /** An item that should have risen does not even sink. */
  lemma ShippedDownStays(q: seq<WaitingItem>, i: nat)
    requires 0 < i < |q| - 1 && MinHeap(q) && q[|q| - 1].time < q[(i - 1) / 2].time
    ensures Sunk(false, FillHole(q, i), i) == FillHole(q, i) && !MinHeap(FillHole(q, i))
  {
    var body := FillHole(q, i);
    HoleInHeap(q, i);
    assert EdgeOk(q, i);
    assert !EdgeOk(body, i);
  }

  /** Taking slot `i` out of a heap the shipped way gives a heap exactly when the item that fills the
      slot need not rise, and does not come to rest above an earlier lone left child. */
  lemma ShippedRemoveRightIff(q: seq<WaitingItem>, i: nat)
    requires MinHeap(q) && i < |q|
    ensures MinHeap(RemovedAt(false, q, i))
       <==> (i == |q| - 1
             || ((i == 0 || q[(i - 1) / 2].time <= q[|q| - 1].time) && !StopsAboveLoneChild(FillHole(q, i), i)))
  {
    if i == |q| - 1 {
      HoleAtEnd(q);
    } else if i > 0 && q[|q| - 1].time < q[(i - 1) / 2].time {
      ShippedDownStays(q, i);
    } else {
      HoleInHeap(q, i);
      ShippedDownRightIff(FillHole(q, i), i);
    }
  }

  lemma LastTakenOut(fixed: bool, q: seq<WaitingItem>)
    requires q != []
    ensures RemovedAt(fixed, q, |q| - 1) == q[|q| - 1 := q[|q| - 1]][..|q| - 1]
  {
  }

  // ---------- the queue object ----------

  class JobPriorityQueue {
    const fixed: bool
    var heap: seq<WaitingItem>

    constructor (fixed: bool)
      ensures this.fixed == fixed && heap == []
    {
      this.fixed := fixed;
      heap := [];
    }

    method Up(pos: nat)
      requires pos < |heap|
      modifies this
      ensures heap == Raised(fixed, old(heap), pos)
      decreases pos
    {
      if pos == 0 {
        return;
      }
      var parent := (pos - 1) / 2;
      if (if fixed then heap[pos].time < heap[parent].time else heap[parent].time < heap[pos].time) {
        heap := Swap(heap, parent, pos);
        Up(parent);
      }
    }

    /** The child that Down looks at, if any. */
    method PosToCheck(pos: nat) returns (c: Option<nat>)
      requires pos < |heap|
      ensures c == ChildToCheck(fixed, heap, pos)
    {
      var posChild1 := 2 * pos + 1;
      if posChild1 >= |heap| {
        return None;
      }
      var posChild2 := 2 * pos + 2;
      if posChild2 >= |heap| {
        return if fixed then Some(posChild1) else None;
      }
      if heap[posChild1].time < heap[posChild2].time {
        return Some(posChild1);
      }
      return Some(posChild2);
    }

    method Down(pos: nat)
      requires pos < |heap|
      modifies this
      ensures heap == Sunk(fixed, old(heap), pos)
      decreases |heap| - pos
    {
      var posToCheck := PosToCheck(pos);
      if posToCheck.None? {
        return;
      }
      var c := posToCheck.value;
      if heap[pos].time < heap[c].time {
        return;
      }
      heap := Swap(heap, c, pos);
      Down(c);
    }

    method Push(item: WaitingItem)
      modifies this
      ensures heap == Pushed(fixed, old(heap), item)
      ensures multiset(heap) == multiset(old(heap)) + multiset{item}
      ensures fixed && old(MinHeap(heap)) ==> MinHeap(heap)
    {
      ghost var q := heap;
      heap := heap + [item];
      Up(|heap| - 1);
      assert heap == Pushed(fixed, q, item);
      PushConserves(fixed, q, item);
      if fixed && MinHeap(q) {
        PushKeepsHeap(q, item);
      }
    }

    method Pop() returns (item: Option<WaitingItem>)
      modifies this
      ensures old(heap) == [] ==> item == None && heap == []
      ensures old(heap) != [] ==> item == Some(old(heap)[0]) && heap == Popped(fixed, old(heap))
      ensures item.Some? ==> multiset(heap) == multiset(old(heap)) - multiset{item.value}
      ensures fixed && old(MinHeap(heap)) ==>
                MinHeap(heap) && (item.Some? ==> forall x :: x in old(heap) ==> item.value.time <= x.time)
    {
      if |heap| == 0 {
        return None;
      }
      PopConserves(fixed, heap);
      if fixed && MinHeap(heap) {
        PopKeepsHeap(heap);
        FirstIsLeast(heap);
      }
      item := Some(heap[0]);
      heap := heap[0 := heap[|heap| - 1]];
      heap := heap[..|heap| - 1];
      if |heap| != 0 {
        Down(0);
      }
    }

    method Remove(job: string) returns (found: bool)
      modifies this
      ensures heap == Removed(fixed, old(heap), job)
      ensures found <==> exists x :: x in old(heap) && x.jobid == job
      ensures found ==> var i := IndexOf(old(heap), job);
                        i < |old(heap)| && multiset(heap) == multiset(old(heap)) - multiset{old(heap)[i]}
      ensures !found ==> heap == old(heap)
      ensures fixed && old(MinHeap(heap)) ==> MinHeap(heap)
    {
      ghost var q := heap;
      found := false;
      var i := 0;
      while i < |heap|
        invariant 0 <= i <= |heap| && heap == q
        invariant forall k :: 0 <= k < i ==> heap[k].jobid != job
      {
        if heap[i].jobid == job {
          assert IndexOf(q, job) == i;
          TakeOut(i);
          found := true;
          break;
        }
        i := i + 1;
      }
      assert heap == Removed(fixed, q, job) && (found <==> IndexOf(q, job) < |q|);
      RemoveConserves(fixed, q, job);
      if fixed && MinHeap(q) {
        RemoveKeepsHeap(q, job);
      }
    }

    /** The body of the loop in Remove once the slot is found. */
    method TakeOut(i: nat)
      requires i < |heap|
      modifies this
      ensures heap == RemovedAt(fixed, old(heap), i)
    {
      ghost var q := heap;
      heap := heap[i := heap[|heap| - 1]];
      if i == |heap| - 1 {
        heap := heap[..|heap| - 1];
        LastTakenOut(fixed, q);
      } else {
        heap := heap[..|heap| - 1];
        assert heap == FillHole(q, i);
        if fixed && i > 0 && heap[i].time < heap[(i - 1) / 2].time {
          Up(i);
        } else {
          Down(i);
        }
      }
    }

    method Peek() returns (item: Option<WaitingItem>)
      ensures item == if heap == [] then None else Some(heap[0])
      ensures fixed && MinHeap(heap) && item.Some? ==> forall x :: x in heap ==> item.value.time <= x.time
    {
      if |heap| == 0 {
        return None;
      }
      if fixed && MinHeap(heap) {
        FirstIsLeast(heap);
      }
      return Some(heap[0]);
    }
  }
}
