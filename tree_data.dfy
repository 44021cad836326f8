/**
 * The genealogy record drawn by the tree component: a member, the attributes
 * shown for them, and their downline as ordered children. A missing
 * `children` array and an empty one are the same here: both are a leaf.
 */
module TreeData {

  datatype Attributes = Attributes(
    status: string,
    level: string,
    interestRate: string,
    joinDate: string,
    totalSavings: string)

  datatype TreeNode = TreeNode(name: string, attributes: Attributes, children: seq<TreeNode>)

  /** `n` is `t` itself or a node somewhere below it. */
  predicate IsNodeOf(n: TreeNode, t: TreeNode)
    decreases t
  {
    n == t || exists i :: 0 <= i < |t.children| && IsNodeOf(n, t.children[i])
  }

  /** No path from `t` down to a leaf is longer than `k` edges. */
  predicate HeightAtMost(t: TreeNode, k: nat)
    decreases t
  {
    forall i :: 0 <= i < |t.children| ==> k > 0 && HeightAtMost(t.children[i], k - 1)
  }
}
