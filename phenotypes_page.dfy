/**
 * The phenotype browser page: `getParent` finds the containers of the leaves
 * matching a phenotype, `handleChange` focuses the bubble chart on the first
 * of them, and the double-click and crumb handlers grow and cut the breadcrumb.
 */
module PhenotypesPage {
  import opened Common

  /** A node of the phenotype tree; a node with no children is a leaf. */
  datatype TreeNode = TreeNode(title: Option<string>, value: Option<string>, children: seq<TreeNode>)

  predicate IsLeaf(n: TreeNode)
  {
    |n.children| == 0
  }

  /** `item.title === node.title && item.value === node.value`. */
  predicate Matches(item: TreeNode, node: TreeNode)
  {
    item.title == node.title && item.value == node.value
  }

  /** `{children: phenotypesTree}`: the synthetic root `handleChange` searches from. */
  function Root(tree: seq<TreeNode>): TreeNode
  {
    TreeNode(None, None, tree)
  }

  /**
   * What `getParent(item, node, parent)` pushes: for a node with children, what
   * its children push with the node as their parent; for a leaf matching the
   * target, `parent`.
   */
  function Parents(item: TreeNode, node: TreeNode, parent: Option<TreeNode>): seq<Option<TreeNode>>
    decreases item, 1
  {
    if |item.children| > 0 then ChildrenParents(item, node, |item.children|)
    else if Matches(item, node) then [parent]
    else []
  }

  /** What the first `k` children of `item` push. */
  function ChildrenParents(item: TreeNode, node: TreeNode, k: nat): seq<Option<TreeNode>>
    requires k <= |item.children|
    decreases item, 0, k
  {
    if k == 0 then []
    else ChildrenParents(item, node, k - 1) + Parents(item.children[k - 1], node, Some(item))
  }

  /** Every leaf below `item`, depth first and left to right, with the node holding it. */
  function Leaves(item: TreeNode, parent: Option<TreeNode>): seq<(TreeNode, Option<TreeNode>)>
    decreases item, 1
  {
    if |item.children| > 0 then ChildLeaves(item, |item.children|) else [(item, parent)]
  }

  /** The leaves below the first `k` children of `item`. */
  function ChildLeaves(item: TreeNode, k: nat): seq<(TreeNode, Option<TreeNode>)>
    requires k <= |item.children|
    decreases item, 0, k
  {
    if k == 0 then [] else ChildLeaves(item, k - 1) + Leaves(item.children[k - 1], Some(item))
  }

  /** The holders of the listed leaves that match `node`, in list order. */
  function MatchingHolders(pairs: seq<(TreeNode, Option<TreeNode>)>, node: TreeNode): seq<Option<TreeNode>>
  {
    if |pairs| == 0 then []
    else
      var last := pairs[|pairs| - 1];
      MatchingHolders(pairs[..|pairs| - 1], node) + (if Matches(last.0, node) then [last.1] else [])
  }

  lemma {:induction false} MatchingHoldersConcat(a: seq<(TreeNode, Option<TreeNode>)>, b: seq<(TreeNode, Option<TreeNode>)>, node: TreeNode)
    ensures MatchingHolders(a + b, node) == MatchingHolders(a, node) + MatchingHolders(b, node)
    decreases |b|
  {
    if |b| > 0 {
      assert (a + b)[..|a + b| - 1] == a + b[..|b| - 1];
      assert (a + b)[|a + b| - 1] == b[|b| - 1];
      MatchingHoldersConcat(a, b[..|b| - 1], node);
    } else {
      assert a + b == a;
    }
  }

  /** Each holder listed comes from a matching leaf that it holds. */
  lemma {:induction false} MatchingHoldersMembers(pairs: seq<(TreeNode, Option<TreeNode>)>, node: TreeNode)
    ensures forall x :: x in MatchingHolders(pairs, node) ==> exists q :: q in pairs && Matches(q.0, node) && q.1 == x
    decreases |pairs|
  {
    if |pairs| > 0 {
      MatchingHoldersMembers(pairs[..|pairs| - 1], node);
      forall x | x in MatchingHolders(pairs, node)
        ensures exists q :: q in pairs && Matches(q.0, node) && q.1 == x
      {
        if x in MatchingHolders(pairs[..|pairs| - 1], node) {
          var q :| q in pairs[..|pairs| - 1] && Matches(q.0, node) && q.1 == x;
          assert q in pairs;
        } else {
          assert pairs[|pairs| - 1] in pairs;
        }
      }
    }
  }

  /**
   * `getParent` compares leaves only: what it pushes is exactly the holders of
   * the matching leaves, one per leaf, depth first and left to right.
   */
  lemma {:induction false} ParentsAreMatchingHolders(item: TreeNode, node: TreeNode, parent: Option<TreeNode>)
    ensures Parents(item, node, parent) == MatchingHolders(Leaves(item, parent), node)
    decreases item, 1
  {
    if |item.children| > 0 {
      ChildrenParentsAreMatchingHolders(item, node, |item.children|);
    } else {
      assert Leaves(item, parent)[..0] == [];
    }
  }

  lemma {:induction false} ChildrenParentsAreMatchingHolders(item: TreeNode, node: TreeNode, k: nat)
    requires k <= |item.children|
    ensures ChildrenParents(item, node, k) == MatchingHolders(ChildLeaves(item, k), node)
    decreases item, 0, k
  {
    if k > 0 {
      ChildrenParentsAreMatchingHolders(item, node, k - 1);
      ParentsAreMatchingHolders(item.children[k - 1], node, Some(item));
      MatchingHoldersConcat(ChildLeaves(item, k - 1), Leaves(item.children[k - 1], Some(item)), node);
    }
  }

  /**
   * Every listed leaf has no children and is held by its listed holder, except
   * `item` itself when it is a leaf, listed with `parent`.
   */
  lemma {:induction false} LeavesShape(item: TreeNode, parent: Option<TreeNode>)
    ensures forall q :: q in Leaves(item, parent) ==>
      IsLeaf(q.0) && ((q.0 == item && q.1 == parent) || (q.1.Some? && q.0 in q.1.value.children))
    decreases item, 1
  {
    if |item.children| > 0 {
      ChildLeavesShape(item, |item.children|);
    }
  }

  lemma {:induction false} ChildLeavesShape(item: TreeNode, k: nat)
    requires k <= |item.children|
    ensures forall q :: q in ChildLeaves(item, k) ==> IsLeaf(q.0) && q.1.Some? && q.0 in q.1.value.children
    decreases item, 0, k
  {
    if k > 0 {
      ChildLeavesShape(item, k - 1);
      LeavesShape(item.children[k - 1], Some(item));
      assert item.children[k - 1] in item.children;
    }
  }

  /**
   * Every entry `getParent` returns holds a leaf whose title and value equal
   * the target's; only a matching leaf at the top of the search returns the
   * `parent` it was given.
   */
  lemma ParentsHoldMatchingLeaf(item: TreeNode, node: TreeNode, parent: Option<TreeNode>)
    ensures forall x :: x in Parents(item, node, parent) ==>
      (x == parent && IsLeaf(item) && Matches(item, node)) ||
      (x.Some? && exists c :: c in x.value.children && IsLeaf(c) && Matches(c, node))
  {
    ParentsAreMatchingHolders(item, node, parent);
    MatchingHoldersMembers(Leaves(item, parent), node);
    LeavesShape(item, parent);
  }

  lemma {:induction false} ChildrenParentsGrow(item: TreeNode, node: TreeNode, k: nat, m: nat)
    requires k <= m <= |item.children|
    ensures ChildrenParents(item, node, k) <= ChildrenParents(item, node, m)
    decreases m - k
  {
    if k < m {
      ChildrenParentsGrow(item, node, k, m - 1);
    }
  }

  lemma {:induction false} NothingBefore(item: TreeNode, node: TreeNode, k: nat)
    requires k <= |item.children|
    requires forall j :: 0 <= j < k ==> Parents(item.children[j], node, Some(item)) == []
    ensures ChildrenParents(item, node, k) == []
  {
    if k > 0 {
      NothingBefore(item, node, k - 1);
    }
  }

  /**
   * When the first match is a top-level leaf, `handleChange` picks the
   * synthetic root `{children: phenotypesTree}` as the parent.
   */
  lemma TopLevelMatchGivesRoot(tree: seq<TreeNode>, node: TreeNode, i: nat)
    requires i < |tree| && IsLeaf(tree[i]) && Matches(tree[i], node)
    requires forall j :: 0 <= j < i ==> Parents(tree[j], node, Some(Root(tree))) == []
    ensures var found := Parents(Root(tree), node, None);
      |found| > 0 && found[0] == Some(Root(tree))
  {
    var root := Root(tree);
    NothingBefore(root, node, i);
    assert ChildrenParents(root, node, i + 1) == [Some(root)];
    ChildrenParentsGrow(root, node, i + 1, |tree|);
  }

  /** The `found` array every recursive call of `getParent` pushes into. */
  class Found {
    var items: seq<Option<TreeNode>>

    constructor()
      ensures items == []
    {
      items := [];
    }
  }

  /** `getParent(item, node, parent, found)`: appends to `found` and returns it. */
  method GetParent(item: TreeNode, node: TreeNode, parent: Option<TreeNode>, found: Found) returns (result: Found)
    modifies found
    ensures result == found
    ensures found.items == old(found.items) + Parents(item, node, parent)
    decreases item
  {
    if |item.children| > 0 {
      for i := 0 to |item.children|
        invariant found.items == old(found.items) + ChildrenParents(item, node, i)
      {
        var _ := GetParent(item.children[i], node, Some(item), found);
      }
    } else if item.title == node.title && item.value == node.value {
      found.items := found.items + [parent];
    }
    result := found;
  }

  /** A breadcrumb entry: the node shown and the children of its parent. */
  datatype Crumb = Crumb(data: TreeNode, parentChildren: seq<TreeNode>)

  /** Where `splice(start, ...)` starts on an array of length `len`. */
  function SpliceStart(len: nat, start: int): (s: nat)
    ensures s <= len
    ensures 0 <= start <= len ==> s == start
  {
    if start < 0 then (if len + start < 0 then 0 else len + start)
    else if start > len then len
    else start
  }

  /** How many entries `splice(start, deleteCount)` removes. */
  function SpliceCount(len: nat, start: int, deleteCount: int): (d: nat)
    ensures SpliceStart(len, start) + d <= len
    ensures 0 <= deleteCount <= len - SpliceStart(len, start) ==> d == deleteCount
  {
    var s := SpliceStart(len, start);
    if deleteCount < 0 then 0 else if deleteCount > len - s then len - s else deleteCount
  }

  /** The entries `splice` returns. */
  function Removed(entries: seq<Crumb>, start: int, deleteCount: int): seq<Crumb>
  {
    var s := SpliceStart(|entries|, start);
    entries[s..s + SpliceCount(|entries|, start, deleteCount)]
  }

  /** The entries `splice` leaves in the array. */
  function Remaining(entries: seq<Crumb>, start: int, deleteCount: int): seq<Crumb>
  {
    var s := SpliceStart(|entries|, start);
    entries[..s] + entries[s + SpliceCount(|entries|, start, deleteCount)..]
  }

  /** Putting the removed entries back where they were gives the array before `splice`. */
  lemma SpliceReassembles(entries: seq<Crumb>, start: int, deleteCount: int)
    ensures var s := SpliceStart(|entries|, start);
      var rest := Remaining(entries, start, deleteCount);
      rest[..s] + Removed(entries, start, deleteCount) + rest[s..] == entries
  {
    var s := SpliceStart(|entries|, start);
    var d := SpliceCount(|entries|, start, deleteCount);
    var rest := Remaining(entries, start, deleteCount);
    assert rest[..s] == entries[..s];
    assert rest[s..] == entries[s + d..];
    assert entries == entries[..s] + entries[s..s + d] + entries[s + d..];
  }

  /** A breadcrumb array, which `splice` changes in place. */
  class Trail {
    var entries: seq<Crumb>

    constructor(entries: seq<Crumb>)
      ensures this.entries == entries
    {
      this.entries := entries;
    }

    /** `Array.prototype.splice(start, deleteCount)`. */
    method Splice(start: int, deleteCount: int) returns (removed: seq<Crumb>)
      modifies this
      ensures removed == Removed(old(entries), start, deleteCount)
      ensures entries == Remaining(old(entries), start, deleteCount)
    {
      var s := SpliceStart(|entries|, start);
      var d := SpliceCount(|entries|, start, deleteCount);
      removed := entries[s..s + d];
      entries := entries[..s] + entries[s + d..];
    }
  }

  /** The breadcrumb after a background double-click. */
  function Popped(entries: seq<Crumb>): seq<Crumb>
  {
    if |entries| >= 1 then Removed(entries, 0, |entries| - 1) else entries
  }

  /** The breadcrumb after clicking the crumb at `idx`. */
  function Truncated(entries: seq<Crumb>, idx: int): seq<Crumb>
  {
    Removed(entries, 0, idx)
  }

  /**
   * A background double-click drops the last entry of a non-empty breadcrumb
   * and leaves that entry alone in the old array; an empty one stays empty.
   */
  lemma PopDropsLast(entries: seq<Crumb>)
    ensures |entries| >= 1 ==> Popped(entries) == entries[..|entries| - 1]
    ensures |entries| >= 1 ==> Remaining(entries, 0, |entries| - 1) == [entries[|entries| - 1]]
    ensures |entries| == 0 ==> Popped(entries) == []
  {
  }

  /** Clicking crumb `idx` keeps exactly the first `idx` entries (none for a negative index, all past the end). */
  lemma TruncateKeepsPrefix(entries: seq<Crumb>, idx: int)
    ensures 0 <= idx <= |entries| ==> Truncated(entries, idx) == entries[..idx]
    ensures idx < 0 ==> Truncated(entries, idx) == []
    ensures idx > |entries| ==> Truncated(entries, idx) == entries
    ensures Truncated(entries, idx) <= entries
  {
  }

  /** Going into a node and back out with a background double-click restores the breadcrumb. */
  lemma PopUndoesPush(entries: seq<Crumb>, e: Crumb)
    ensures Popped(entries + [e]) == entries
    ensures Truncated(entries + [e], |entries|) == entries
  {
    assert (entries + [e])[..|entries|] == entries;
  }

  /** The page state the handlers update (the `browsePhenotypes` slice). */
  class Page {
    var tree: seq<TreeNode>
    var breadcrumb: Trail
    var currentBubbleData: Option<seq<TreeNode>>
    var selectedPhenotype: Option<TreeNode>

    constructor(tree: seq<TreeNode>)
      ensures this.tree == tree && breadcrumb.entries == []
      ensures currentBubbleData == None && selectedPhenotype == None
    {
      this.tree := tree;
      breadcrumb := new Trail([]);
      currentBubbleData := None;
      selectedPhenotype := None;
    }

    /**
     * `handleChange(phenotype)`: show the children of the first parent found,
     * with a one-entry breadcrumb for it, and select the phenotype. With no
     * match, or only the null parent of a bare leaf root, reading `children`
     * throws and nothing changes.
     */
    method HandleChange(phenotype: TreeNode) returns (ok: bool)
      modifies this
      ensures var found := Parents(Root(old(tree)), phenotype, None);
        ok <==> |found| > 0 && found[0].Some?
      ensures !ok ==> unchanged(this)
      ensures ok ==>
        var parent := Parents(Root(old(tree)), phenotype, None)[0].value;
        tree == old(tree) && fresh(breadcrumb) &&
        breadcrumb.entries == [Crumb(TreeNode(parent.title, None, []), tree)] &&
        currentBubbleData == Some(parent.children) && selectedPhenotype == Some(phenotype)
    {
      var found := new Found();
      var _ := GetParent(Root(tree), phenotype, None, found);
      if |found.items| == 0 || found.items[0].None? {
        return false;
      }
      var parent := found.items[0].value;
      currentBubbleData := Some(parent.children);
      selectedPhenotype := None;
      breadcrumb := new Trail([Crumb(TreeNode(parent.title, None, []), tree)]);
      selectedPhenotype := Some(phenotype);
      ok := true;
    }

    /**
     * `handleDoubleClick(e)`: a node with children is entered and appended to
     * the breadcrumb; a leaf is handed to `handleSubmit`, returned here.
     */
    method HandleDoubleClick(e: Crumb) returns (submit: Option<TreeNode>)
      modifies this
      ensures IsLeaf(e.data) ==> submit == Some(e.data) && unchanged(this)
      ensures !IsLeaf(e.data) ==>
        submit == None && tree == old(tree) && fresh(breadcrumb) &&
        breadcrumb.entries == old(breadcrumb.entries) + [e] &&
        currentBubbleData == Some(e.data.children) && selectedPhenotype == None
    {
      if |e.data.children| > 0 {
        currentBubbleData := Some(e.data.children);
        selectedPhenotype := None;
        breadcrumb := new Trail(breadcrumb.entries + [e]);
        submit := None;
      } else {
        submit := Some(e.data);
      }
    }

    /**
     * `handleBackgroundDoubleClick()`: with a breadcrumb, show the siblings of
     * its last entry and keep all entries but that one; the old array is left
     * holding the last entry alone.
     */
    method HandleBackgroundDoubleClick()
      modifies this, breadcrumb
      ensures |old(breadcrumb.entries)| == 0 ==> unchanged(this) && unchanged(old(breadcrumb))
      ensures |old(breadcrumb.entries)| >= 1 ==>
        var last := old(breadcrumb.entries)[|old(breadcrumb.entries)| - 1];
        tree == old(tree) && fresh(breadcrumb) &&
        breadcrumb.entries == Popped(old(breadcrumb.entries)) &&
        old(breadcrumb).entries == [last] &&
        currentBubbleData == Some(last.parentChildren) && selectedPhenotype == None
    {
      var trail := breadcrumb;
      var n := |trail.entries|;
      if n >= 1 {
        PopDropsLast(trail.entries);
        currentBubbleData := Some(trail.entries[n - 1].parentChildren);
        selectedPhenotype := None;
        var removed := trail.Splice(0, n - 1);
        breadcrumb := new Trail(removed);
      }
    }

    /**
     * `crumbClick(item, idx)`: keep the first `idx` entries and show the
     * siblings of the clicked entry; the old array keeps the rest.
     */
    method CrumbClick(item: Crumb, idx: int)
      modifies this, breadcrumb
      ensures tree == old(tree) && fresh(breadcrumb)
      ensures breadcrumb.entries == Truncated(old(breadcrumb.entries), idx)
      ensures old(breadcrumb).entries == Remaining(old(breadcrumb.entries), 0, idx)
      ensures currentBubbleData == Some(item.parentChildren) && selectedPhenotype == None
    {
      var removed := breadcrumb.Splice(0, idx);
      breadcrumb := new Trail(removed);
      currentBubbleData := Some(item.parentChildren);
      selectedPhenotype := None;
    }
  }
}
