/** `Checker.walk_tree`: a depth-first traversal driven by a tree cursor
    and a `visited_children` flag, yielding every node of the subtree it
    starts from (named and anonymous) in pre-order.

    The cursor is a class whose only state is the path of child indices
    from the start node to the current one; it cannot leave the subtree
    it was created on.  The generator's yields are collected in order. */
module TreeWalk {
  import opened SyntaxTree

  /** The nodes of the subtree at n, parent before children, children left to right. */
  function PreOrder(n: Node): (r: seq<Node>)
    decreases n, 1
    ensures r != [] && r[0] == n
  {
    [n] + PreOrderUpTo(n, |n.children|)
  }

  /** The pre-orders of n's first hi children, one after another. */
  function PreOrderUpTo(n: Node, hi: nat): seq<Node>
    requires hi <= |n.children|
    decreases n, 0, hi
  {
    if hi == 0 then [] else PreOrderUpTo(n, hi - 1) + PreOrder(n.children[hi - 1])
  }

  /** A path of child indices that leads from n to a node of its subtree. */
  predicate ValidPath(n: Node, path: seq<nat>)
    decreases |path|
  {
    path == [] || (path[0] < |n.children| && ValidPath(n.children[path[0]], path[1..]))
  }

  function NodeAt(n: Node, path: seq<nat>): Node
    requires ValidPath(n, path)
    decreases |path|
  {
    if path == [] then n else NodeAt(n.children[path[0]], path[1..])
  }

  /** The nodes a pre-order traversal of n yields before reaching the end of `path`. */
  function PreBefore(n: Node, path: seq<nat>): seq<Node>
    requires ValidPath(n, path)
    decreases |path|
  {
    if path == [] then []
    else [n] + PreOrderUpTo(n, path[0]) + PreBefore(n.children[path[0]], path[1..])
  }

  // ---------------------------------------------------------------------
  // Facts about paths

  lemma {:induction false} ExtendPath(n: Node, path: seq<nat>, i: nat)
    requires ValidPath(n, path) && i < |NodeAt(n, path).children|
    ensures ValidPath(n, path + [i])
    ensures NodeAt(n, path + [i]) == NodeAt(n, path).children[i]
    ensures PreBefore(n, path + [i]) == PreBefore(n, path) + [NodeAt(n, path)] + PreOrderUpTo(NodeAt(n, path), i)
    decreases |path|
  {
    if path != [] {
      assert (path + [i])[1..] == path[1..] + [i];
      ExtendPath(n.children[path[0]], path[1..], i);
    }
  }

  lemma {:induction false} ParentPath(n: Node, path: seq<nat>)
    requires ValidPath(n, path) && path != []
    ensures ValidPath(n, path[..|path| - 1])
    ensures path[|path| - 1] < |NodeAt(n, path[..|path| - 1]).children|
    ensures NodeAt(n, path[..|path| - 1]).children[path[|path| - 1]] == NodeAt(n, path)
    decreases |path|
  {
    var parent := path[..|path| - 1];
    if |path| > 1 {
      ParentPath(n.children[path[0]], path[1..]);
      assert path[1..][..|path[1..]| - 1] == parent[1..];
    }
  }

  /** What precedes a node in pre-order, followed by that node's subtree,
      is a prefix of the whole pre-order. */
  lemma {:induction false} PrefixOfPreOrder(n: Node, path: seq<nat>)
    requires ValidPath(n, path)
    ensures PreBefore(n, path) + PreOrder(NodeAt(n, path)) <= PreOrder(n)
    decreases |path|
  {
    if path != [] {
      var i := path[0];
      var c := n.children[i];
      PrefixOfPreOrder(c, path[1..]);
      UpToPrefix(n, i + 1, |n.children|);
      var head, inner := [n] + PreOrderUpTo(n, i), PreBefore(c, path[1..]) + PreOrder(NodeAt(c, path[1..]));
      assert PreBefore(n, path) + PreOrder(NodeAt(n, path)) == head + inner;
      PrefixAfter(head, inner, PreOrder(c));
      assert head + PreOrder(c) == [n] + PreOrderUpTo(n, i + 1);
      PrefixAfter([n], PreOrderUpTo(n, i + 1), PreOrderUpTo(n, |n.children|));
    }
  }

  lemma PrefixAfter(a: seq<Node>, b: seq<Node>, c: seq<Node>)
    requires b <= c
    ensures a + b <= a + c
  {
    assert a + c == (a + b) + c[|b|..];
  }

  lemma {:induction false} UpToPrefix(n: Node, lo: nat, hi: nat)
    requires lo <= hi <= |n.children|
    ensures PreOrderUpTo(n, lo) <= PreOrderUpTo(n, hi)
    decreases hi - lo
  {
    if lo < hi {
      UpToPrefix(n, lo, hi - 1);
    }
  }

  lemma YieldedBound(n: Node, path: seq<nat>)
    requires ValidPath(n, path)
    ensures |PreBefore(n, path)| + |PreOrder(NodeAt(n, path))| <= |PreOrder(n)|
  {
    PrefixOfPreOrder(n, path);
  }

  /** Every node of the subtree is yielded by a pre-order traversal. */
  lemma PreOrderComplete(n: Node, path: seq<nat>)
    requires ValidPath(n, path)
    ensures NodeAt(n, path) in PreOrder(n)
  {
    PrefixOfPreOrder(n, path);
    var k := |PreBefore(n, path)|;
    assert PreOrder(n)[k] == (PreBefore(n, path) + PreOrder(NodeAt(n, path)))[k];
  }

  // ---------------------------------------------------------------------
  // The three moves of the traversal, on the sequence yielded so far

  /** Yielding a node and descending to its first child: the node comes
      before everything in its subtree.  At a leaf, the node is its whole
      subtree. */
  lemma YieldStep(n: Node, path: seq<nat>)
    requires ValidPath(n, path)
    ensures NodeAt(n, path).children != [] ==>
      ValidPath(n, path + [0]) && PreBefore(n, path + [0]) == PreBefore(n, path) + [NodeAt(n, path)]
    ensures NodeAt(n, path).children == [] ==>
      PreOrder(NodeAt(n, path)) == [NodeAt(n, path)]
  {
    if NodeAt(n, path).children != [] {
      ExtendPath(n, path, 0);
    }
  }

  /** Moving from child i to child i + 1 once child i's subtree is done. */
  lemma SiblingStep(n: Node, parent: seq<nat>, i: nat)
    requires ValidPath(n, parent) && i + 1 < |NodeAt(n, parent).children|
    ensures ValidPath(n, parent + [i]) && ValidPath(n, parent + [i + 1])
    ensures PreBefore(n, parent + [i + 1]) == PreBefore(n, parent + [i]) + PreOrder(NodeAt(n, parent + [i]))
  {
    ExtendPath(n, parent, i);
    ExtendPath(n, parent, i + 1);
    var p := NodeAt(n, parent);
    assert PreOrderUpTo(p, i + 1) == PreOrderUpTo(p, i) + PreOrder(p.children[i]);
    Regroup(PreBefore(n, parent) + [p], PreOrderUpTo(p, i), PreOrder(p.children[i]));
  }

  /** SiblingStep, for the cursor's path before the move. */
  lemma SiblingMove(n: Node, path: seq<nat>)
    requires ValidPath(n, path) && path != []
    requires ValidPath(n, path[..|path| - 1])
    requires path[|path| - 1] + 1 < |NodeAt(n, path[..|path| - 1]).children|
    ensures ValidPath(n, path[..|path| - 1] + [path[|path| - 1] + 1])
    ensures PreBefore(n, path[..|path| - 1] + [path[|path| - 1] + 1]) == PreBefore(n, path) + PreOrder(NodeAt(n, path))
  {
    var parent, i := path[..|path| - 1], path[|path| - 1];
    assert parent + [i] == path;
    SiblingStep(n, parent, i);
  }

  /** ParentStep, for the cursor's path before the move. */
  lemma ParentMove(n: Node, path: seq<nat>)
    requires ValidPath(n, path) && path != []
    requires ValidPath(n, path[..|path| - 1])
    requires path[|path| - 1] + 1 >= |NodeAt(n, path[..|path| - 1]).children|
    ensures PreBefore(n, path[..|path| - 1]) + PreOrder(NodeAt(n, path[..|path| - 1]))
         == PreBefore(n, path) + PreOrder(NodeAt(n, path))
  {
    var parent, i := path[..|path| - 1], path[|path| - 1];
    assert parent + [i] == path;
    ParentPath(n, path);
    ParentStep(n, parent, i);
  }

  lemma Regroup(a: seq<Node>, b: seq<Node>, c: seq<Node>)
    ensures a + (b + c) == (a + b) + c
  {
  }

  /** Climbing from the last child i to its parent: the parent's subtree is done. */
  lemma ParentStep(n: Node, parent: seq<nat>, i: nat)
    requires ValidPath(n, parent) && i + 1 == |NodeAt(n, parent).children|
    ensures ValidPath(n, parent + [i])
    ensures PreBefore(n, parent) + PreOrder(NodeAt(n, parent))
         == PreBefore(n, parent + [i]) + PreOrder(NodeAt(n, parent + [i]))
  {
    ExtendPath(n, parent, i);
    var p := NodeAt(n, parent);
    var before, upTo, child := PreBefore(n, parent), PreOrderUpTo(p, i), PreOrder(p.children[i]);
    assert PreOrder(p) == [p] + (upTo + child);
    Regroup([p], upTo, child);
    Regroup(before, [p] + upTo, child);
    Regroup(before, [p], upTo);
  }

  // ---------------------------------------------------------------------
  // The cursor

  class TreeCursor {
    const root: Node
    var path: seq<nat>

    /** `node.walk()`: a cursor on the given node. */
    constructor (root: Node)
      ensures this.root == root && path == []
    {
      this.root := root;
      path := [];
    }

    ghost predicate Valid()
      reads this
    {
      ValidPath(root, path)
    }

    /** `cursor.node` */
    function Current(): Node
      reads this
      requires Valid()
    {
      NodeAt(root, path)
    }

    /** `goto_first_child`: fails on a leaf. */
    method GotoFirstChild() returns (moved: bool)
      requires Valid()
      modifies this
      ensures Valid()
      ensures moved <==> old(Current()).children != []
      ensures moved ==> path == old(path) + [0] && Current() == old(Current()).children[0]
      ensures !moved ==> path == old(path)
    {
      var n := NodeAt(root, path);
      if n.children == [] {
        return false;
      }
      ExtendPath(root, path, 0);
      path := path + [0];
      return true;
    }

    /** `goto_next_sibling`: fails on the last child and on the start node. */
    method GotoNextSibling() returns (moved: bool)
      requires Valid()
      modifies this
      ensures Valid()
      ensures old(path) == [] ==> !moved
      ensures old(path) != [] ==>
        var parent := old(path)[..|old(path)| - 1];
        var i := old(path)[|old(path)| - 1];
        ValidPath(root, parent)
        && (moved <==> i + 1 < |NodeAt(root, parent).children|)
        && (moved ==> path == parent + [i + 1])
      ensures !moved ==> path == old(path)
    {
      if path == [] {
        return false;
      }
      var parent, i := path[..|path| - 1], path[|path| - 1];
      ParentPath(root, path);
      if i + 1 < |NodeAt(root, parent).children| {
        ExtendPath(root, parent, i + 1);
        path := parent + [i + 1];
        return true;
      }
      return false;
    }

    /** `goto_parent`: fails on the start node. */
    method GotoParent() returns (moved: bool)
      requires Valid()
      modifies this
      ensures Valid()
      ensures moved <==> old(path) != []
      ensures moved ==> path == old(path)[..|old(path)| - 1]
      ensures !moved ==> path == old(path)
    {
      if path == [] {
        return false;
      }
      ParentPath(root, path);
      path := path[..|path| - 1];
      return true;
    }
  }

  /** walk_tree(start): the yielded nodes are exactly the pre-order of start. */
  method WalkTree(start: Node) returns (visited: seq<Node>)
    ensures visited == PreOrder(start)
  {
    var cursor := new TreeCursor(start);
    var visitedChildren := false;
    visited := [];
    while true
      invariant cursor.Valid() && cursor.root == start
      invariant !visitedChildren ==> visited == PreBefore(start, cursor.path)
      invariant visitedChildren ==> visited == PreBefore(start, cursor.path) + PreOrder(cursor.Current())
      invariant |visited| <= |PreOrder(start)|
      decreases |PreOrder(start)| - |visited|, if visitedChildren then 1 else 0, |cursor.path|
    {
      ghost var before := cursor.path;
      if !visitedChildren {
        var node := cursor.Current();
        visited := visited + [node];
        YieldStep(start, before);
        var moved := cursor.GotoFirstChild();
        if !moved {
          visitedChildren := true;
        }
      } else {
        var moved := cursor.GotoNextSibling();
        if moved {
          SiblingMove(start, before);
          visitedChildren := false;
        } else {
          moved := cursor.GotoParent();
          if !moved {
            break;
          }
          ParentMove(start, before);
        }
      }
      YieldedBound(start, cursor.path);
    }
  }
}
