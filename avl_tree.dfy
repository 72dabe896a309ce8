/** The message tree (`AvlTree`) and its in-order iterator (`TreeAsIter`).
    The tree only has `new` and `iter`; nodes are immutable values here, and
    the iterator keeps an explicit stack of parents. */
module AvlTrees {
  import opened Wrappers

  /** `TreeNode`: an item and its optional subtrees. */
  datatype TreeNode<T> = TreeNode(item: T, left: Option<TreeNode<T>>, right: Option<TreeNode<T>>) {
    /** `get`. */
    function Get(): T {
      item
    }
  }

  /** `TreeNode::new`: a leaf. */
  function NewNode<T>(d: T): TreeNode<T> {
    TreeNode(d, None, None)
  }

  /** A new node is a leaf holding exactly the item given, and `get` reads
      it back. */
  lemma NewNodeGet<T>(d: T)
    ensures NewNode(d).Get() == d
    ensures NewNode(d).left.None? && NewNode(d).right.None?
    ensures InOrder(Some(NewNode(d))) == [d]
  {
  }

  function Size<T>(t: Option<TreeNode<T>>): nat {
    match t
    case None => 0
    case Some(n) => Size(n.left) + 1 + Size(n.right)
  }

  function Height<T>(t: Option<TreeNode<T>>): nat {
    match t
    case None => 0
    case Some(n) => 1 + if Height(n.left) < Height(n.right) then Height(n.right) else Height(n.left)
  }

  /** The items of a tree, left subtree first, then the node, then the right
      subtree. */
  function InOrder<T>(t: Option<TreeNode<T>>): (r: seq<T>)
    ensures |r| == Size(t)
  {
    match t
    case None => []
    case Some(n) => InOrder(n.left) + [n.item] + InOrder(n.right)
  }

  /** `AvlTree`: the root and the stored height (a capacity hint). */
  datatype AvlTree<T> = AvlTree(root: Option<TreeNode<T>>, height: nat)

  /** `AvlTree::new`: the empty tree. */
  function NewTree<T>(): (t: AvlTree<T>)
    ensures InOrder(t.root) == []
  {
    AvlTree(None, 0)
  }

  /** What a stack of parents still owes once the current subtree is done:
      from the top of the stack down, each parent's item and then its right
      subtree. */
  function ParentsPending<T>(ps: seq<TreeNode<T>>): seq<T> {
    if ps == [] then []
    else [ps[|ps| - 1].item] + InOrder(ps[|ps| - 1].right) + ParentsPending(ps[..|ps| - 1])
  }

  /** Stepping down to the left child and pushing the node leaves the
      pending items as they were. */
  lemma DescendPending<T>(ps: seq<TreeNode<T>>, n: TreeNode<T>)
    ensures InOrder(n.left) + ParentsPending(ps + [n]) == InOrder(Some(n)) + ParentsPending(ps)
  {
    assert (ps + [n])[..|ps|] == ps;
  }

  /** Popping the top parent yields its item, then its right subtree is due. */
  lemma PopPending<T>(ps: seq<TreeNode<T>>)
    requires |ps| > 0
    ensures ParentsPending(ps)
         == [ps[|ps| - 1].item] + (InOrder(ps[|ps| - 1].right) + ParentsPending(ps[..|ps| - 1]))
  {
  }

  /** A stack of parents and a current subtree fit in height `h`: every
      parent sits at a depth that leaves room for its own subtree, and so
      does the current one. */
  predicate StackWithin<T>(ps: seq<TreeNode<T>>, c: Option<TreeNode<T>>, h: nat) {
    && |ps| + Height(c) <= h
    && forall k :: 0 <= k < |ps| ==> k + Height(Some(ps[k])) <= h
  }

  lemma DescendWithin<T>(ps: seq<TreeNode<T>>, n: TreeNode<T>, h: nat)
    requires StackWithin(ps, Some(n), h)
    ensures StackWithin(ps + [n], n.left, h)
  {
    var ps' := ps + [n];
    forall k | 0 <= k < |ps'| ensures k + Height(Some(ps'[k])) <= h {
      if k < |ps| {
        assert ps'[k] == ps[k];
      }
    }
  }

  lemma PopWithin<T>(ps: seq<TreeNode<T>>, h: nat)
    requires StackWithin(ps, None, h) && |ps| > 0
    ensures StackWithin(ps[..|ps| - 1], ps[|ps| - 1].right, h)
  {
    var ps' := ps[..|ps| - 1];
    assert |ps| - 1 + Height(Some(ps[|ps| - 1])) <= h;
    forall k | 0 <= k < |ps'| ensures k + Height(Some(ps'[k])) <= h {
      assert ps'[k] == ps[k];
    }
  }

  /** `TreeAsIter`: the parents stack and the subtree still to descend. */
  class TreeAsIter<T> {
    var parents: seq<TreeNode<T>>
    var curr: Option<TreeNode<T>>

    /** The items still to come, in order. */
    function Pending(): seq<T>
      reads this
    {
      InOrder(curr) + ParentsPending(parents)
    }

    /** The stack stays within height `h`. */
    predicate WithinHeight(h: nat)
      reads this
    {
      StackWithin(parents, curr, h)
    }

    /** `AvlTree::iter`: start at the root with an empty stack. */
    constructor (tree: AvlTree<T>)
      ensures parents == [] && curr == tree.root
      ensures Pending() == InOrder(tree.root)
      ensures WithinHeight(Height(tree.root))
    {
      parents := [];
      curr := tree.root;
    }

    /** `next`: walk down the left spine pushing every node, then pop the
      top parent, yield its item, and continue from its right subtree. */
    method Next(ghost h: nat) returns (r: Option<T>)
      modifies this
      ensures old(Pending()) == if r.Some? then [r.value] + Pending() else []
      ensures r.None? ==> Pending() == []
      ensures old(WithinHeight(h)) ==> WithinHeight(h) && |parents| <= h
      ensures old(WithinHeight(h)) && r.Some? ==> |parents| + 1 <= h
    {
      ghost var budget := WithinHeight(h);
      while curr.Some?
        invariant Pending() == old(Pending())
        invariant budget ==> WithinHeight(h)
        decreases Size(curr)
      {
        var traverse := curr.value;
        DescendPending(parents, traverse);
        if budget {
          DescendWithin(parents, traverse, h);
        }
        parents := parents + [traverse];
        curr := traverse.left;
      }

      if |parents| > 0 {
        var item := parents[|parents| - 1];
        PopPending(parents);
        if budget {
          PopWithin(parents, h);
        }
        parents := parents[..|parents| - 1];
        curr := item.right;
        r := Some(item.item);
      } else {
        r := None;
      }
    }
  }

  /** Every item of a list is below every later one. */
  predicate Ascending<T>(s: seq<T>, less: (T, T) -> bool) {
    forall i, j :: 0 <= i < j < |s| ==> less(s[i], s[j])
  }

  ghost predicate Transitive<T(!new)>(less: (T, T) -> bool) {
    forall a, b, c :: less(a, b) && less(b, c) ==> less(a, c)
  }

  /** A binary search tree: every item on the left is below the node's item,
      every item on the right above it, all the way down. */
  predicate IsSearchTree<T>(t: Option<TreeNode<T>>, less: (T, T) -> bool) {
    match t
    case None => true
    case Some(n) =>
      && IsSearchTree(n.left, less)
      && IsSearchTree(n.right, less)
      && (forall i :: 0 <= i < |InOrder(n.left)| ==> less(InOrder(n.left)[i], n.item))
      && (forall i :: 0 <= i < |InOrder(n.right)| ==> less(n.item, InOrder(n.right)[i]))
  }

  /** A search tree under a transitive order is listed in ascending order. */
  lemma {:induction false} SearchTreeInOrderAscending<T(!new)>(t: Option<TreeNode<T>>, less: (T, T) -> bool)
    requires Transitive(less) && IsSearchTree(t, less)
    ensures Ascending(InOrder(t), less)
  {
    if t.Some? {
      var n := t.value;
      SearchTreeInOrderAscending(n.left, less);
      SearchTreeInOrderAscending(n.right, less);
      var l, rt := InOrder(n.left), InOrder(n.right);
      var s := l + [n.item] + rt;
      forall i, j | 0 <= i < j < |s| ensures less(s[i], s[j]) {
        if j < |l| {
          assert s[i] == l[i] && s[j] == l[j];
        } else if i > |l| {
          assert s[i] == rt[i - |l| - 1] && s[j] == rt[j - |l| - 1];
        } else if i == |l| {
          assert s[j] == rt[j - |l| - 1];
        } else if j == |l| {
          assert s[i] == l[i];
        } else {
          assert s[i] == l[i] && s[j] == rt[j - |l| - 1];
          assert less(s[i], n.item) && less(n.item, s[j]);
        }
      }
    }
  }
}
