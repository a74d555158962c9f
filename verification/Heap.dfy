/**
 LocHeapNode and LocHeap in their own form: nodes linked by pointers, updated in place.
 Each method is proved equal to the function of the same name on the tree of values.
 */
module Heap {
  import opened Common
  import H = HeapTree

  class HeapNode<T(==)> {
    var size: int
    var left: HeapNode?<T>
    var right: HeapNode?<T>
    var data: T
    ghost var tree: H.Tree<T>            // the subtree as a value
    ghost var Repr: set<HeapNode<T>>     // the nodes of the subtree

    ghost predicate Valid()
      reads this, Repr
      ensures Valid() ==> this in Repr && tree.Node?
    {
      && this in Repr
      && (left != null ==> left in Repr && left.Repr <= Repr && this !in left.Repr && left.Valid())
      && (right != null ==> right in Repr && right.Repr <= Repr && this !in right.Repr && right.Valid())
      && (left != null && right != null ==> left.Repr !! right.Repr)
      && tree == H.Node(size, TreeOf(left), data, TreeOf(right))
    }

    static ghost function TreeOf(n: HeapNode?<T>): H.Tree<T>
      reads n
    {
      if n == null then H.Empty else n.tree
    }

    constructor (x: T)
      ensures Valid() && fresh(Repr) && Repr == {this}
      ensures data == x && left == null && right == null && tree == H.Single(x)
    {
      size, left, right, data := 1, null, null, x;
      tree, Repr := H.Single(x), {this};
    }

    /** Recomputes the ghost view of this node from its fields. */
    ghost method Relink(nodes: set<HeapNode<T>>)
      requires this in nodes
      requires left != null ==> left in nodes && left.Repr <= nodes && this !in left.Repr && left.Valid()
      requires right != null ==> right in nodes && right.Repr <= nodes && this !in right.Repr && right.Valid()
      requires left != null && right != null ==> left.Repr !! right.Repr
      modifies this`tree, this`Repr
      ensures Valid() && Repr == nodes
      ensures tree == H.Node(size, TreeOf(left), data, TreeOf(right))
    {
      tree, Repr := H.Node(size, TreeOf(left), data, TreeOf(right)), nodes;
    }

    /** Swaps the data of two nodes; nothing is detached or attached again. */
    method Swap(node: HeapNode<T>)
      requires Valid() && node.Valid() && node !in Repr && this !in node.Repr
      modifies this`data, this`tree, node`data, node`tree
      ensures Valid() && node.Valid()
      ensures data == old(node.data) && node.data == old(data)
      ensures tree == old(tree).(data := data) && node.tree == old(node.tree).(data := node.data)
    {
      data, node.data := node.data, data;
      tree, node.tree := tree.(data := data), node.tree.(data := node.data);
      assert left != null ==> left.Valid();
    }

    method Push(node: HeapNode<T>, outRanks: (T, T) -> bool)
      requires Valid() && node.Valid() && node.Repr == {node} && node !in Repr
      requires node.tree == H.Single(node.data)
      modifies Repr, node
      ensures Valid() && Repr == old(Repr) + {node}
      ensures tree == H.Push(old(tree), old(node.data), outRanks)
      decreases Repr, 1
    {
      if outRanks(node.data, data) {
        Swap(node);
      }
      DropIn(node, outRanks);
    }

    /** The second half of push: the node goes into a subtree. */
    method DropIn(node: HeapNode<T>, outRanks: (T, T) -> bool)
      requires Valid() && node.Valid() && node.Repr == {node} && node !in Repr
      requires node.tree == H.Single(node.data)
      modifies Repr, node
      ensures Valid() && Repr == old(Repr) + {node}
      ensures tree == H.DropIn(old(tree), old(node.data), outRanks)
      decreases Repr, 0
    {
      ghost var nodes := Repr + {node};
      if left == null {
        left := node;
      } else if right == null {
        right := node;
      } else if left.size <= right.size {
        left.Push(node, outRanks);
        assert right.Valid();
      } else {
        right.Push(node, outRanks);
        assert left.Valid();
      }
      size := size + 1;
      Relink(nodes);
    }

    /** Swaps data with a child; the ghost view of this node is left to be recomputed. */
    method SwapWithChild(child: HeapNode<T>)
      requires Valid() && (child == left || child == right)
      modifies this`data, child`data, child`tree
      ensures child.Valid()
      ensures left != null && left != child ==> left.Valid()
      ensures right != null && right != child ==> right.Valid()
      ensures data == old(child.data) && child.data == old(data)
      ensures child.tree == old(child.tree).(data := child.data)
    {
      data, child.data := child.data, data;
      child.tree := child.tree.(data := child.data);
    }

    /** The swap with one child and the pop of that child; the other child is left alone. */
    method PopThrough(child: HeapNode<T>, ghost other: HeapNode?<T>, outRanks: (T, T) -> bool)
      returns (sub: HeapNode?<T>, popped: HeapNode<T>)
      requires Valid() && ((child == left && other == right) || (child == right && other == left))
      modifies this`data, child.Repr
      ensures popped in old(child.Repr) && popped.data == old(data) && data == old(child.data)
      ensures sub == null || (sub == child && child.Valid() && child.Repr == old(child.Repr) - {popped})
      ensures TreeOf(sub) == H.Pop(old(child.tree), outRanks)
      ensures other != null ==> other.Valid()
      decreases Repr, 0
    {
      SwapWithChild(child);
      assert H.Pop(child.tree, outRanks) == H.Pop(old(child.tree), outRanks);
      sub, popped := Pop(child, outRanks);
    }

    /** Pops this node when the left child is the one to move up. */
    method PopLeft(outRanks: (T, T) -> bool) returns (popped: HeapNode<T>)
      requires Valid() && left != null
      modifies Repr
      ensures popped in old(Repr) && popped.data == old(data)
      ensures Valid() && Repr == old(Repr) - {popped}
      ensures tree == H.Node(old(size) - 1, H.Pop(old(left.tree), outRanks), old(left.data), old(TreeOf(right)))
      decreases Repr, 1
    {
      ghost var nodes := Repr;
      var sub;
      sub, popped := PopThrough(left, right, outRanks);
      left, size := sub, size - 1;
      Relink(nodes - {popped});
    }

    /** Pops this node when the right child is the one to move up. */
    method PopRight(outRanks: (T, T) -> bool) returns (popped: HeapNode<T>)
      requires Valid() && right != null
      modifies Repr
      ensures popped in old(Repr) && popped.data == old(data)
      ensures Valid() && Repr == old(Repr) - {popped}
      ensures tree == H.Node(old(size) - 1, old(TreeOf(left)), old(right.data), H.Pop(old(right.tree), outRanks))
      decreases Repr, 1
    {
      ghost var nodes := Repr;
      var sub;
      sub, popped := PopThrough(right, left, outRanks);
      right, size := sub, size - 1;
      Relink(nodes - {popped});
    }

    /** top' is what the reference to top holds afterwards; popped carries the data that was on top. */
    static method Pop(top: HeapNode<T>, outRanks: (T, T) -> bool)
      returns (top': HeapNode?<T>, popped: HeapNode<T>)
      requires top.Valid()
      modifies top.Repr
      ensures popped in old(top.Repr) && popped.data == old(top.data)
      ensures top' == null || (top' == top && top.Valid() && top.Repr == old(top.Repr) - {popped})
      ensures TreeOf(top') == H.Pop(old(top.tree), outRanks)
      decreases top.Repr, 2
    {
      if top.left == null && top.right == null {
        top', popped := null, top;
      } else if top.left != null && (top.right == null || outRanks(top.left.data, top.right.data)) {
        top' := top;
        popped := top.PopLeft(outRanks);
      } else {
        top' := top;
        popped := top.PopRight(outRanks);
      }
    }

    /** removed == null says that the search failed; the tree is then as it was. */
    static method Remove(top: HeapNode<T>, x: T, outRanks: (T, T) -> bool)
      returns (top': HeapNode?<T>, removed: HeapNode?<T>)
      requires top.Valid()
      modifies top.Repr
      ensures top' == null || (top' == top && top.Valid())
      ensures removed == null <==> H.Remove(old(top.tree), x, outRanks).None?
      ensures removed == null ==> top' == top && top.tree == old(top.tree) && top.Repr == old(top.Repr)
      ensures removed != null ==>
        && removed in old(top.Repr) && removed.data == x
        && TreeOf(top') == H.Remove(old(top.tree), x, outRanks).value
        && (top' != null ==> top.Repr == old(top.Repr) - {removed})
      decreases top.Repr, 3
    {
      top', removed := top, null;
      if x == top.data {
        top', removed := Pop(top, outRanks);
      } else if !outRanks(x, top.data) {
        if top.left != null {
          removed := top.RemoveLeft(x, outRanks);
        }
        if removed == null && top.right != null {
          removed := top.RemoveRight(x, outRanks);
        }
      }
    }

    method RemoveLeft(x: T, outRanks: (T, T) -> bool) returns (removed: HeapNode?<T>)
      requires Valid() && left != null
      modifies Repr
      ensures Valid()
      ensures removed == null <==> H.Remove(old(left.tree), x, outRanks).None?
      ensures removed == null ==> tree == old(tree) && Repr == old(Repr)
      ensures removed != null ==>
        && removed in old(Repr) && removed.data == x && Repr == old(Repr) - {removed}
        && tree == H.Node(old(size) - 1, H.Remove(old(left.tree), x, outRanks).value, old(data), old(TreeOf(right)))
      decreases Repr, 0
    {
      ghost var nodes := Repr;
      var sub;
      sub, removed := Remove(left, x, outRanks);
      assert right != null ==> right.Valid();
      left := sub;
      if removed != null {
        size := size - 1;
        Relink(nodes - {removed});
      } else {
        Relink(nodes);
      }
    }

    method RemoveRight(x: T, outRanks: (T, T) -> bool) returns (removed: HeapNode?<T>)
      requires Valid() && right != null
      modifies Repr
      ensures Valid()
      ensures removed == null <==> H.Remove(old(right.tree), x, outRanks).None?
      ensures removed == null ==> tree == old(tree) && Repr == old(Repr)
      ensures removed != null ==>
        && removed in old(Repr) && removed.data == x && Repr == old(Repr) - {removed}
        && tree == H.Node(old(size) - 1, old(TreeOf(left)), old(data), H.Remove(old(right.tree), x, outRanks).value)
      decreases Repr, 0
    {
      ghost var nodes := Repr;
      var sub;
      sub, removed := Remove(right, x, outRanks);
      assert left != null ==> left.Valid();
      right := sub;
      if removed != null {
        size := size - 1;
        Relink(nodes - {removed});
      } else {
        Relink(nodes);
      }
    }

    /** True exactly when the heap order holds below this node and every size is exact. */
    method CheckNodes(outRanks: (T, T) -> bool) returns (ok: bool)
      requires Valid()
      ensures ok <==> H.Ordered(tree, outRanks) && H.Sized(tree)
      decreases Repr
    {
      var totalSize := size;
      if left != null {
        if outRanks(left.data, data) {
          return false;
        }
        ok := left.CheckNodes(outRanks);
        if !ok {
          return false;
        }
        totalSize := totalSize - left.size;
      }
      assert H.NotAbove(TreeOf(left), data, outRanks) && H.Ordered(TreeOf(left), outRanks) && H.Sized(TreeOf(left));
      if right != null {
        if outRanks(right.data, data) {
          return false;
        }
        ok := right.CheckNodes(outRanks);
        if !ok {
          return false;
        }
        totalSize := totalSize - right.size;
      }
      assert H.NotAbove(TreeOf(right), data, outRanks) && H.Ordered(TreeOf(right), outRanks) && H.Sized(TreeOf(right));
      assert totalSize == size - H.Count(TreeOf(left)) - H.Count(TreeOf(right));
      return totalSize == 1;
    }
  }

  class LocHeap<T(==)> {
    var mTree: HeapNode?<T>
    const outRanks: (T, T) -> bool

    ghost predicate Valid()
      reads this, mTree, if mTree == null then {} else mTree.Repr
    {
      mTree != null ==> mTree.Valid()
    }

    ghost function Tree(): H.Tree<T>
      reads this, mTree
    {
      HeapNode.TreeOf(mTree)
    }

    ghost function Nodes(): set<object>
      reads this, mTree
    {
      {this} + if mTree == null then {} else mTree.Repr
    }

    constructor (outRanks: (T, T) -> bool)
      ensures Valid() && Tree() == H.Empty && this.outRanks == outRanks && fresh(Nodes())
    {
      mTree, this.outRanks := null, outRanks;
    }

    method Push(x: T)
      requires Valid()
      modifies Nodes()
      ensures Valid() && fresh(Nodes() - old(Nodes()))
      ensures Tree() == H.Push(old(Tree()), x, outRanks)
    {
      var heapNode := new HeapNode(x);
      if mTree == null {
        mTree := heapNode;
      } else {
        mTree.Push(heapNode, outRanks);
      }
    }

    method Peek() returns (top: Option<T>)
      requires Valid()
      ensures top == if Tree().Empty? then None else Some(Tree().data)
    {
      top := if mTree == null then None else Some(mTree.data);
    }

    method Pop() returns (x: Option<T>)
      requires Valid()
      modifies Nodes()
      ensures Valid() && Nodes() <= old(Nodes())
      ensures (Tree(), x) == H.Apply(old(Tree()), H.DoPop, outRanks)
    {
      x := None;
      if mTree != null {
        var top', heapNode := HeapNode.Pop(mTree, outRanks);
        mTree := top';
        x := Some(heapNode.data);
      }
    }

    method Remove(rankable: T) returns (x: Option<T>)
      requires Valid()
      modifies Nodes()
      ensures Valid() && Nodes() <= old(Nodes())
      ensures (Tree(), x) == H.Apply(old(Tree()), H.DoRemove(rankable), outRanks)
    {
      x := None;
      if mTree != null {
        var top', heapNode := HeapNode.Remove(mTree, rankable, outRanks);
        mTree := top';
        if heapNode != null {
          x := Some(heapNode.data);
        }
      }
    }
  }
}
