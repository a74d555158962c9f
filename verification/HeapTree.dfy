/**
 The tree of a LocHeap as a value: each node keeps the stored mSize next to its data, so
 that keeping the sizes exact is something to prove and not something built in.
 Push, Pop and Remove follow LocHeapNode; the class in Heap.dfy is proved equal to them.
 */
module HeapTree {
  import opened Common

  datatype Tree<T> = Empty | Node(size: int, left: Tree<T>, data: T, right: Tree<T>)

  /** What LocRankable asks of ranks(): "a outranks b" is a strict weak order. */
  ghost predicate StrictWeakOrder<T(!new)>(outRanks: (T, T) -> bool) {
    && (forall a, b :: outRanks(a, b) ==> !outRanks(b, a))
    && (forall a, b, c :: !outRanks(a, b) && !outRanks(b, c) ==> !outRanks(a, c))
  }

  function Single<T>(x: T): Tree<T> {
    Node(1, Empty, x, Empty)
  }

  function Count<T>(t: Tree<T>): nat {
    match t
    case Empty => 0
    case Node(_, l, _, r) => Count(l) + 1 + Count(r)
  }

  function Elems<T>(t: Tree<T>): multiset<T> {
    match t
    case Empty => multiset{}
    case Node(_, l, x, r) => Elems(l) + multiset{x} + Elems(r)
  }

  /** Every stored size is the node count of its subtree. */
  predicate Sized<T>(t: Tree<T>) {
    match t
    case Empty => true
    case Node(n, l, _, r) => n == Count(t) && Sized(l) && Sized(r)
  }

  predicate NotAbove<T>(sub: Tree<T>, x: T, outRanks: (T, T) -> bool) {
    sub.Node? ==> !outRanks(sub.data, x)
  }

  /** No child outranks its parent: the comparison LocHeapNode::checkNodes makes. */
  predicate Ordered<T>(t: Tree<T>, outRanks: (T, T) -> bool) {
    match t
    case Empty => true
    case Node(_, l, x, r) =>
      && NotAbove(l, x, outRanks) && Ordered(l, outRanks)
      && NotAbove(r, x, outRanks) && Ordered(r, outRanks)
  }

  // ---------- The operations ----------

  function Push<T>(t: Tree<T>, x: T, outRanks: (T, T) -> bool): Tree<T> {
    match t
    case Empty => Single(x)
    case Node(n, l, top, r) =>
      var hi := if outRanks(x, top) then x else top;
      var lo := if outRanks(x, top) then top else x;
      if l.Empty? then Node(n + 1, Single(lo), hi, r)
      else if r.Empty? then Node(n + 1, l, hi, Single(lo))
      else if l.size <= r.size then Node(n + 1, Push(l, lo, outRanks), hi, r)
      else Node(n + 1, l, hi, Push(r, lo, outRanks))
  }

  /** The second half of push, once the lower of the two data is on its way down. */
  function DropIn<T>(t: Tree<T>, lo: T, outRanks: (T, T) -> bool): Tree<T>
    requires t.Node?
  {
    if t.left.Empty? then Node(t.size + 1, Single(lo), t.data, t.right)
    else if t.right.Empty? then Node(t.size + 1, t.left, t.data, Single(lo))
    else if t.left.size <= t.right.size then Node(t.size + 1, Push(t.left, lo, outRanks), t.data, t.right)
    else Node(t.size + 1, t.left, t.data, Push(t.right, lo, outRanks))
  }

  /** Whether pop pulls the replacement up from the left subtree. */
  predicate TakeLeft<T>(l: Tree<T>, r: Tree<T>, outRanks: (T, T) -> bool) {
    l.Node? && (r.Empty? || outRanks(l.data, r.data))
  }

  function Pop<T>(t: Tree<T>, outRanks: (T, T) -> bool): Tree<T>
    requires t.Node?
  {
    var Node(n, l, _, r) := t;
    if l.Empty? && r.Empty? then Empty
    else if TakeLeft(l, r, outRanks) then Node(n - 1, Pop(l, outRanks), l.data, r)
    else Node(n - 1, l, r.data, Pop(r, outRanks))
  }

  /** None when the search does not find x. */
  function Remove<T(==)>(t: Tree<T>, x: T, outRanks: (T, T) -> bool): Option<Tree<T>> {
    if t.Empty? then None
    else if x == t.data then Some(Pop(t, outRanks))
    else if outRanks(x, t.data) then None
    else
      match Remove(t.left, x, outRanks)
      case Some(l) => Some(Node(t.size - 1, l, t.data, t.right))
      case None =>
        match Remove(t.right, x, outRanks)
        case Some(r) => Some(Node(t.size - 1, t.left, t.data, r))
        case None => None
  }

  // ---------- The top ranks highest ----------

  lemma {:induction false} TopRanksHighest<T(!new)>(t: Tree<T>, outRanks: (T, T) -> bool)
    requires StrictWeakOrder(outRanks) && Ordered(t, outRanks) && t.Node?
    ensures forall y :: y in Elems(t) ==> !outRanks(y, t.data)
  {
    if t.left.Node? { TopRanksHighest(t.left, outRanks); }
    if t.right.Node? { TopRanksHighest(t.right, outRanks); }
    forall y | y in Elems(t) ensures !outRanks(y, t.data) {
      if y in Elems(t.left) {
        assert t.left.Node? && !outRanks(y, t.left.data);
      } else if y in Elems(t.right) {
        assert t.right.Node? && !outRanks(y, t.right.data);
      } else {
        assert y == t.data;
      }
    }
  }

  // ---------- Push ----------

  lemma {:induction false} PushSizes<T>(t: Tree<T>, x: T, outRanks: (T, T) -> bool)
    requires Sized(t)
    ensures Sized(Push(t, x, outRanks)) && Count(Push(t, x, outRanks)) == Count(t) + 1
  {
    if t.Empty? || t.left.Empty? || t.right.Empty? {
    } else {
      var lo := if outRanks(x, t.data) then t.data else x;
      if t.left.size <= t.right.size {
        PushSizes(t.left, lo, outRanks);
      } else {
        PushSizes(t.right, lo, outRanks);
      }
    }
  }

  /** One of x and the top stays, the other goes down one side: no element is lost. */
  lemma SwapElems<T>(l: multiset<T>, r: multiset<T>, x: T, top: T, hi: T, lo: T, l': multiset<T>, r': multiset<T>)
    requires (hi == x && lo == top) || (hi == top && lo == x)
    requires (l' == l + multiset{lo} && r' == r) || (l' == l && r' == r + multiset{lo})
    ensures l' + multiset{hi} + r' == l + multiset{top} + r + multiset{x}
  {
  }

  lemma {:induction false} PushElems<T>(t: Tree<T>, x: T, outRanks: (T, T) -> bool)
    ensures Elems(Push(t, x, outRanks)) == Elems(t) + multiset{x}
  {
    if t.Empty? {
      return;
    }
    var u := Push(t, x, outRanks);
    var lo := if outRanks(x, t.data) then t.data else x;
    if t.left.Node? && t.right.Node? {
      if t.left.size <= t.right.size {
        PushElems(t.left, lo, outRanks);
      } else {
        PushElems(t.right, lo, outRanks);
      }
    }
    SwapElems(Elems(t.left), Elems(t.right), x, t.data, u.data, lo, Elems(u.left), Elems(u.right));
  }

  lemma {:induction false} PushOrdered<T(!new)>(t: Tree<T>, x: T, outRanks: (T, T) -> bool)
    requires StrictWeakOrder(outRanks) && Ordered(t, outRanks)
    ensures var u := Push(t, x, outRanks);
      && Ordered(u, outRanks) && u.Node?
      && u.data == if t.Empty? || outRanks(x, t.data) then x else t.data
  {
    if t.Node? {
      var lo := if outRanks(x, t.data) then t.data else x;
      if t.left.Empty? || t.right.Empty? {
      } else if t.left.size <= t.right.size {
        PushOrdered(t.left, lo, outRanks);
      } else {
        PushOrdered(t.right, lo, outRanks);
      }
    }
  }

  lemma PushKeeps<T(!new)>(t: Tree<T>, x: T, outRanks: (T, T) -> bool)
    requires StrictWeakOrder(outRanks) && Ordered(t, outRanks) && Sized(t)
    ensures var u := Push(t, x, outRanks);
      && u.Node? && Ordered(u, outRanks) && Sized(u)
      && Elems(u) == Elems(t) + multiset{x}
      && Count(u) == Count(t) + 1
      && u.data == if t.Empty? || outRanks(x, t.data) then x else t.data
  {
    PushSizes(t, x, outRanks);
    PushElems(t, x, outRanks);
    PushOrdered(t, x, outRanks);
  }

  // ---------- Pop ----------

  lemma {:induction false} PopSizes<T>(t: Tree<T>, outRanks: (T, T) -> bool)
    requires t.Node? && Sized(t)
    ensures Sized(Pop(t, outRanks)) && Count(Pop(t, outRanks)) == Count(t) - 1
  {
    if t.left.Empty? && t.right.Empty? {
    } else if TakeLeft(t.left, t.right, outRanks) {
      PopSizes(t.left, outRanks);
    } else {
      PopSizes(t.right, outRanks);
    }
  }

  /** The element y moves up out of one subtree: only the old top is gone. */
  lemma MoveUpElems<T>(l: multiset<T>, r: multiset<T>, top: T, y: T, l': multiset<T>, r': multiset<T>)
    requires (l == l' + multiset{y} && r == r') || (l == l' && r == r' + multiset{y})
    ensures l + multiset{top} + r == l' + multiset{y} + r' + multiset{top}
  {
  }

  lemma {:induction false} PopElems<T>(t: Tree<T>, outRanks: (T, T) -> bool)
    requires t.Node?
    ensures Elems(t) == Elems(Pop(t, outRanks)) + multiset{t.data}
  {
    var u := Pop(t, outRanks);
    if u.Node? {
      if TakeLeft(t.left, t.right, outRanks) {
        PopElems(t.left, outRanks);
      } else {
        PopElems(t.right, outRanks);
      }
      MoveUpElems(Elems(t.left), Elems(t.right), t.data, u.data, Elems(u.left), Elems(u.right));
    }
  }

  lemma {:induction false} PopOrdered<T(!new)>(t: Tree<T>, outRanks: (T, T) -> bool)
    requires StrictWeakOrder(outRanks) && Ordered(t, outRanks) && t.Node?
    ensures Ordered(Pop(t, outRanks), outRanks) && NotAbove(Pop(t, outRanks), t.data, outRanks)
  {
    if t.left.Empty? && t.right.Empty? {
    } else if TakeLeft(t.left, t.right, outRanks) {
      PopOrdered(t.left, outRanks);
    } else {
      PopOrdered(t.right, outRanks);
    }
  }

  lemma PopKeeps<T(!new)>(t: Tree<T>, outRanks: (T, T) -> bool)
    requires StrictWeakOrder(outRanks) && Ordered(t, outRanks) && Sized(t) && t.Node?
    ensures var u := Pop(t, outRanks);
      && Ordered(u, outRanks) && Sized(u)
      && Elems(t) == Elems(u) + multiset{t.data}
      && Count(u) == Count(t) - 1
  {
    PopSizes(t, outRanks);
    PopElems(t, outRanks);
    PopOrdered(t, outRanks);
  }

  // ---------- Remove: complete although it prunes ----------

  lemma {:induction false} RemoveSizes<T>(t: Tree<T>, x: T, outRanks: (T, T) -> bool)
    requires Sized(t) && Remove(t, x, outRanks).Some?
    ensures var u := Remove(t, x, outRanks).value; Sized(u) && Count(u) == Count(t) - 1
  {
    if x == t.data {
      PopSizes(t, outRanks);
    } else if Remove(t.left, x, outRanks).Some? {
      RemoveSizes(t.left, x, outRanks);
    } else {
      RemoveSizes(t.right, x, outRanks);
    }
  }

  lemma {:induction false} RemoveElems<T>(t: Tree<T>, x: T, outRanks: (T, T) -> bool)
    requires Remove(t, x, outRanks).Some?
    ensures Elems(t) == Elems(Remove(t, x, outRanks).value) + multiset{x}
  {
    if x == t.data {
      PopElems(t, outRanks);
    } else if Remove(t.left, x, outRanks).Some? {
      RemoveElems(t.left, x, outRanks);
      var l := Remove(t.left, x, outRanks).value;
      assert Remove(t, x, outRanks).value == Node(t.size - 1, l, t.data, t.right);
    } else {
      RemoveElems(t.right, x, outRanks);
      var r := Remove(t.right, x, outRanks).value;
      assert Remove(t, x, outRanks).value == Node(t.size - 1, t.left, t.data, r);
    }
  }

  lemma {:induction false} RemoveOrdered<T(!new)>(t: Tree<T>, x: T, outRanks: (T, T) -> bool)
    requires StrictWeakOrder(outRanks) && Ordered(t, outRanks) && Remove(t, x, outRanks).Some?
    ensures var u := Remove(t, x, outRanks).value;
      && Ordered(u, outRanks)
      && (x == t.data ==> u == Pop(t, outRanks))
      && (x != t.data ==> u.Node? && u.data == t.data)
      && NotAbove(u, t.data, outRanks)
  {
    if x == t.data {
      PopOrdered(t, outRanks);
    } else if Remove(t.left, x, outRanks).Some? {
      RemoveOrdered(t.left, x, outRanks);
    } else {
      RemoveOrdered(t.right, x, outRanks);
    }
  }

  /** The subtrees the search skips cannot hold x: nothing in them outranks their top. */
  lemma {:induction false} RemoveFinds<T(!new)>(t: Tree<T>, x: T, outRanks: (T, T) -> bool)
    requires StrictWeakOrder(outRanks) && Ordered(t, outRanks) && x in Elems(t)
    ensures Remove(t, x, outRanks).Some?
  {
    TopRanksHighest(t, outRanks);
    if x == t.data {
    } else if x in Elems(t.left) {
      RemoveFinds(t.left, x, outRanks);
    } else {
      RemoveFinds(t.right, x, outRanks);
    }
  }

  lemma RemoveKeeps<T(!new)>(t: Tree<T>, x: T, outRanks: (T, T) -> bool)
    requires StrictWeakOrder(outRanks) && Ordered(t, outRanks) && Sized(t)
    ensures Remove(t, x, outRanks).Some? <==> x in Elems(t)
    ensures Remove(t, x, outRanks).Some? ==>
      var u := Remove(t, x, outRanks).value;
      && Ordered(u, outRanks) && Sized(u)
      && Elems(t) == Elems(u) + multiset{x}
      && Count(u) == Count(t) - 1
      && (x != t.data ==> u.Node? && u.data == t.data)
  {
    if Remove(t, x, outRanks).Some? {
      RemoveSizes(t, x, outRanks);
      RemoveElems(t, x, outRanks);
      RemoveOrdered(t, x, outRanks);
    } else if x in Elems(t) {
      RemoveFinds(t, x, outRanks);
    }
  }

  // ---------- Shape ----------

  function Height<T>(t: Tree<T>): nat {
    match t
    case Empty => 0
    case Node(_, l, _, r) => 1 + (if Height(l) < Height(r) then Height(r) else Height(l))
  }

  function Pow2(n: nat): nat {
    if n == 0 then 1 else 2 * Pow2(n - 1)
  }

  /** At every node the left subtree is as large as the right one, or one larger. */
  predicate Balanced<T>(t: Tree<T>) {
    match t
    case Empty => true
    case Node(_, l, _, r) => 0 <= Count(l) - Count(r) <= 1 && Balanced(l) && Balanced(r)
  }

  function PushAll<T>(t: Tree<T>, xs: seq<T>, outRanks: (T, T) -> bool): Tree<T>
    decreases xs
  {
    if xs == [] then t else PushAll(Push(t, xs[0], outRanks), xs[1..], outRanks)
  }

  lemma {:induction false} PushBalanced<T>(t: Tree<T>, x: T, outRanks: (T, T) -> bool)
    requires Sized(t) && Balanced(t)
    ensures Balanced(Push(t, x, outRanks))
  {
    if t.Empty? {
      return;
    }
    var lo := if outRanks(x, t.data) then t.data else x;
    if t.left.Empty? || t.right.Empty? {
      assert Count(Single(lo)) == 1;
    } else if t.left.size <= t.right.size {
      PushBalanced(t.left, lo, outRanks);
      PushSizes(t.left, lo, outRanks);
    } else {
      PushBalanced(t.right, lo, outRanks);
      PushSizes(t.right, lo, outRanks);
    }
  }

  /** In a balanced tree the larger subtree is also the higher one. */
  lemma {:induction false} HeightMonotone<T>(a: Tree<T>, b: Tree<T>)
    requires Balanced(a) && Balanced(b) && Count(b) <= Count(a)
    ensures Height(b) <= Height(a)
  {
    if b.Node? {
      HeightMonotone(a.left, b.left);
      HeightMonotone(a.right, b.right);
    }
  }

  lemma {:induction false} BalancedHeight<T>(t: Tree<T>)
    requires Balanced(t) && t.Node?
    ensures Pow2(Height(t) - 1) <= Count(t)
  {
    HeightMonotone(t.left, t.right);
    if t.left.Node? {
      BalancedHeight(t.left);
    }
  }

  lemma {:induction false} PushAllBalanced<T>(t: Tree<T>, xs: seq<T>, outRanks: (T, T) -> bool)
    requires Sized(t) && Balanced(t)
    ensures var u := PushAll(t, xs, outRanks); Sized(u) && Balanced(u) && Count(u) == Count(t) + |xs|
    decreases xs
  {
    if xs != [] {
      PushSizes(t, xs[0], outRanks);
      PushBalanced(t, xs[0], outRanks);
      PushAllBalanced(Push(t, xs[0], outRanks), xs[1..], outRanks);
    }
  }

  /** Any n pushes into an empty heap leave it balanced, with a height logarithmic in n. */
  lemma PushesStayBalanced<T>(xs: seq<T>, outRanks: (T, T) -> bool)
    ensures var u := PushAll(Empty, xs, outRanks);
      && Balanced(u) && Sized(u) && Count(u) == |xs|
      && (xs != [] ==> Height(u) >= 1 && Pow2(Height(u) - 1) <= |xs|)
  {
    PushAllBalanced(Empty, xs, outRanks);
    if xs != [] {
      BalancedHeight(PushAll(Empty, xs, outRanks));
    }
  }

  lemma {:induction false} PopHeight<T>(t: Tree<T>, outRanks: (T, T) -> bool)
    requires t.Node?
    ensures Height(Pop(t, outRanks)) <= Height(t)
  {
    if t.left.Node? { PopHeight(t.left, outRanks); }
    if t.right.Node? { PopHeight(t.right, outRanks); }
  }

  lemma {:induction false} RemoveHeight<T>(t: Tree<T>, x: T, outRanks: (T, T) -> bool)
    requires Remove(t, x, outRanks).Some?
    ensures Height(Remove(t, x, outRanks).value) <= Height(t)
  {
    if x == t.data {
      PopHeight(t, outRanks);
    } else if Remove(t.left, x, outRanks).Some? {
      RemoveHeight(t.left, x, outRanks);
    } else {
      RemoveHeight(t.right, x, outRanks);
    }
  }

  // ---------- Any sequence of operations is a priority queue on a multiset ----------

  datatype Op<T> = DoPush(x: T) | DoPop | DoRemove(x: T)

  /** The tree after one operation, and what the operation returned. */
  function Apply<T(==)>(t: Tree<T>, op: Op<T>, outRanks: (T, T) -> bool): (Tree<T>, Option<T>) {
    match op
    case DoPush(x) => (Push(t, x, outRanks), None)
    case DoPop => if t.Empty? then (t, None) else (Pop(t, outRanks), Some(t.data))
    case DoRemove(x) =>
      match Remove(t, x, outRanks)
      case None => (t, None)
      case Some(u) => (u, Some(x))
  }

  /** The priority queue the heap stands for; pop may return any element nothing outranks. */
  ghost predicate QueueStep<T(!new)>(m: multiset<T>, op: Op<T>, result: Option<T>, m': multiset<T>,
                                     outRanks: (T, T) -> bool) {
    match op
    case DoPush(x) => result == None && m' == m + multiset{x}
    case DoPop =>
      if m == multiset{} then result == None && m' == m
      else
        && result.Some? && result.value in m && m' == m - multiset{result.value}
        && forall y :: y in m ==> !outRanks(y, result.value)
    case DoRemove(x) =>
      if x in m then result == Some(x) && m' == m - multiset{x} else result == None && m' == m
  }

  function ApplyAll<T(==)>(t: Tree<T>, ops: seq<Op<T>>, outRanks: (T, T) -> bool): seq<(Tree<T>, Option<T>)>
    decreases ops
  {
    if ops == [] then []
    else
      var step := Apply(t, ops[0], outRanks);
      [step] + ApplyAll(step.0, ops[1..], outRanks)
  }

  lemma ApplyRefines<T(!new)>(t: Tree<T>, op: Op<T>, outRanks: (T, T) -> bool)
    requires StrictWeakOrder(outRanks) && Ordered(t, outRanks) && Sized(t)
    ensures var (u, result) := Apply(t, op, outRanks);
      && Ordered(u, outRanks) && Sized(u)
      && QueueStep(Elems(t), op, result, Elems(u), outRanks)
  {
    match op
    case DoPush(x) => PushKeeps(t, x, outRanks);
    case DoPop =>
      if t.Node? {
        PopKeeps(t, outRanks);
        TopRanksHighest(t, outRanks);
        RestAfter(Elems(t), Elems(Pop(t, outRanks)), t.data);
      }
    case DoRemove(x) =>
      RemoveKeeps(t, x, outRanks);
      if x in Elems(t) {
        RestAfter(Elems(t), Elems(Remove(t, x, outRanks).value), x);
      }
  }

  lemma RestAfter<T>(m: multiset<T>, m': multiset<T>, x: T)
    requires m == m' + multiset{x}
    ensures x in m && m' == m - multiset{x}
  {
  }

  /** Every state of a run keeps the heap well formed, and every step is a priority queue step. */
  ghost predicate GoodRun<T(!new)>(t: Tree<T>, ops: seq<Op<T>>, run: seq<(Tree<T>, Option<T>)>,
                                   outRanks: (T, T) -> bool)
    decreases ops
  {
    if ops == [] then run == []
    else
      && run != []
      && Ordered(run[0].0, outRanks) && Sized(run[0].0)
      && QueueStep(Elems(t), ops[0], run[0].1, Elems(run[0].0), outRanks)
      && GoodRun(run[0].0, ops[1..], run[1..], outRanks)
  }

  lemma {:induction false} HeapIsPriorityQueue<T(!new)>(t: Tree<T>, ops: seq<Op<T>>, outRanks: (T, T) -> bool)
    requires StrictWeakOrder(outRanks) && Ordered(t, outRanks) && Sized(t)
    ensures GoodRun(t, ops, ApplyAll(t, ops, outRanks), outRanks)
    decreases ops
  {
    if ops != [] {
      ApplyRefines(t, ops[0], outRanks);
      var next := Apply(t, ops[0], outRanks).0;
      HeapIsPriorityQueue(next, ops[1..], outRanks);
      assert ApplyAll(t, ops, outRanks)[1..] == ApplyAll(next, ops[1..], outRanks);
    }
  }
}
