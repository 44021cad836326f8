/**
 * The genealogy screen: it turns the backend's member records into the
 * two-level tree the `Tree` component draws, falls back to a fixed example
 * tree when the data cannot be used, keeps the selected member (initially the
 * root) and shows an information panel for it.
 */
module GenealogyTree {
  import opened Options
  import opened Text
  import opened TreeData
  import opened TreeView

  /**
   * A member as the backend sends it; every field may be missing. A
   * downline list may hold `null` entries, written `None` here.
   */
  datatype Member = Member(
    name: Option<string>,
    status: Option<string>,
    joinDate: Option<string>,
    totalSavings: Option<string>,
    downlines: Option<seq<Option<Member>>>)

  /** The backend's reply: the user and the user's direct downline. */
  datatype ApiResponse = ApiResponse(user: Option<Member>, downlines: Option<seq<Option<Member>>>)

  const NO_MEMBER: Member := Member(None, None, None, None, None)

  const DEFAULT_ROOT_NAME: string := "You"
  const DEFAULT_STATUS: string := "inactive"
  const DEFAULT_JOIN_DATE: string := "N/A"
  const DEFAULT_SAVINGS: string := "\U{20B1}0"
  const HIGH_RATE: string := "2.4%"
  const LOW_RATE: string := "1.2%"

  /** JavaScript's `v || fallback` on a string field: a missing or empty value is replaced. */
  function OrElse(v: Option<string>, fallback: string): (r: string)
    ensures v.Some? && v.value != "" ==> r == v.value
    ensures v.None? || v.value == "" ==> r == fallback
  {
    if v.Some? && v.value != "" then v.value else fallback
  }

  /** The level label of the i-th direct downline (counting from 0): "L1", "L2", ... */
  function Level(i: nat): string
  {
    "L" + NatToString(i + 1)
  }

  /** The level label of the j-th downline of the i-th direct downline: "L1-1", "L1-2", ... */
  function SubLevel(i: nat, j: nat): string
  {
    "L" + NatToString(i + 1) + "-" + NatToString(j + 1)
  }

  /** The interest rate of the i-th direct downline. */
  function ChildRate(i: nat): string
  {
    if i < 2 then HIGH_RATE else if i < 4 then LOW_RATE else HIGH_RATE
  }

  function GrandchildNode(sub: Member, i: nat, j: nat): TreeNode
  {
    TreeNode(
      OrElse(sub.name, SubLevel(i, j)),
      Attributes(
        OrElse(sub.status, DEFAULT_STATUS),
        SubLevel(i, j),
        LOW_RATE,
        OrElse(sub.joinDate, DEFAULT_JOIN_DATE),
        OrElse(sub.totalSavings, DEFAULT_SAVINGS)),
      [])
  }

  /** Every entry of a downline list is a record (reading `.name` of a `null` entry throws). */
  predicate EntriesPresent(ms: seq<Option<Member>>) {
    forall k :: 0 <= k < |ms| ==> ms[k].Some?
  }

  /** The direct downline and every downline's own list hold no `null` entry. */
  predicate NoNullEntries(api: ApiResponse) {
    var ds := api.downlines.GetOr([]);
    EntriesPresent(ds) && forall i :: 0 <= i < |ds| ==> EntriesPresent(ds[i].value.downlines.GetOr([]))
  }

  function ChildNode(d: Member, i: nat): TreeNode
    requires EntriesPresent(d.downlines.GetOr([]))
  {
    var subs := d.downlines.GetOr([]);
    TreeNode(
      OrElse(d.name, Level(i)),
      Attributes(
        OrElse(d.status, DEFAULT_STATUS),
        Level(i),
        ChildRate(i),
        OrElse(d.joinDate, DEFAULT_JOIN_DATE),
        OrElse(d.totalSavings, DEFAULT_SAVINGS)),
      seq(|subs|, j requires 0 <= j < |subs| => GrandchildNode(subs[j].value, i, j)))
  }

  /**
   * `transformDataToTree`: the user as root, the downline as children, their
   * downline as grandchildren. `None` is the TypeError thrown when a
   * downline entry is `null`.
   */
  function TransformDataToTree(api: ApiResponse): Option<TreeNode>
  {
    if !NoNullEntries(api) then None
    else
      var user := api.user.GetOr(NO_MEMBER);
      var ds := api.downlines.GetOr([]);
      Some(TreeNode(
        OrElse(user.name, DEFAULT_ROOT_NAME),
        Attributes(
          OrElse(user.status, DEFAULT_STATUS),
          "L0",
          HIGH_RATE,
          OrElse(user.joinDate, DEFAULT_JOIN_DATE),
          OrElse(user.totalSavings, DEFAULT_SAVINGS)),
        seq(|ds|, i requires 0 <= i < |ds| => ChildNode(ds[i].value, i))))
  }

  /** The reply is used only if it has a user and a non-empty downline. */
  predicate Acceptable(api: ApiResponse)
  {
    api.user.Some? && api.downlines.Some? && |api.downlines.value| > 0
  }

  function Person(name: string, status: string, level: string, rate: string, joined: string, savings: string,
                  children: seq<TreeNode>): TreeNode
  {
    TreeNode(name, Attributes(status, level, rate, joined, savings), children)
  }

  /** The example tree shown when the reply is missing or unusable. */
  function Fallback(): TreeNode
  {
    var mary := Person("Mary", "active", "L3", "1.2%", "2024-04-01", "\U{20B1}100", []);
    var miguel := Person("Miguel", "inactive", "L2", "1.2%", "2024-03-01", "\U{20B1}200", [mary]);
    var dan := Person("Dan", "active", "L1", "2.4%", "2024-02-01", "\U{20B1}500", [miguel]);
    var kaasag := Person("Kaasag", "active", "L2", "1.2%", "2024-03-15", "\U{20B1}150", []);
    var joy := Person("Joy", "inactive", "L1", "1.2%", "2024-02-15", "\U{20B1}300", [kaasag]);
    Person("You", "active", "L0", "2.4%", "2024-01-01", "\U{20B1}1,000", [dan, joy])
  }

  // ---------------------------------------------------------------------------
  // What the transformation promises

  /** The transformation throws exactly when some downline entry, at either level, is `null`. */
  lemma TransformThrowsOnNullEntry(api: ApiResponse)
    ensures TransformDataToTree(api).None? <==>
      exists i :: 0 <= i < |api.downlines.GetOr([])| &&
        (api.downlines.value[i].None? ||
         exists j :: 0 <= j < |api.downlines.value[i].value.downlines.GetOr([])| &&
           api.downlines.value[i].value.downlines.value[j].None?)
  {
  }

  /**
   * The root is always level L0 at the higher rate; each field of the user
   * that is missing or empty gets its default, and a missing user gets every default.
   */
  lemma TransformedRoot(api: ApiResponse)
    ensures TransformDataToTree(api).Some? ==>
      var r, u := TransformDataToTree(api).value, api.user.GetOr(NO_MEMBER);
      && r.attributes.level == "L0" && r.attributes.interestRate == HIGH_RATE
      && r.name == OrElse(u.name, DEFAULT_ROOT_NAME)
      && r.attributes.status == OrElse(u.status, DEFAULT_STATUS)
      && r.attributes.joinDate == OrElse(u.joinDate, DEFAULT_JOIN_DATE)
      && r.attributes.totalSavings == OrElse(u.totalSavings, DEFAULT_SAVINGS)
      && (api.user.None? ==>
            r.name == DEFAULT_ROOT_NAME && r.attributes.status == DEFAULT_STATUS
            && r.attributes.joinDate == DEFAULT_JOIN_DATE && r.attributes.totalSavings == DEFAULT_SAVINGS)
  {
  }

  /**
   * One child per downline entry, in order, labelled by position, with
   * defaults for missing or empty fields; none when the downline is missing.
   */
  lemma TransformedChildren(api: ApiResponse)
    ensures TransformDataToTree(api).Some? ==>
      var r, ds := TransformDataToTree(api).value, api.downlines.GetOr([]);
      && |r.children| == |ds|
      && (api.downlines.None? ==> r.children == [])
      && forall i :: 0 <= i < |ds| ==>
           && r.children[i].attributes.level == Level(i)
           && r.children[i].name == OrElse(ds[i].value.name, Level(i))
           && r.children[i].attributes.status == OrElse(ds[i].value.status, DEFAULT_STATUS)
           && r.children[i].attributes.interestRate == ChildRate(i)
           && r.children[i].attributes.joinDate == OrElse(ds[i].value.joinDate, DEFAULT_JOIN_DATE)
           && r.children[i].attributes.totalSavings == OrElse(ds[i].value.totalSavings, DEFAULT_SAVINGS)
           && |r.children[i].children| == |ds[i].value.downlines.GetOr([])|
  {
  }

  /** Direct downlines 3 and 4 (indices 2 and 3) earn the lower rate, every other one the higher. */
  lemma ChildRateRule(i: nat)
    ensures ChildRate(i) == LOW_RATE <==> 2 <= i < 4
    ensures ChildRate(i) == HIGH_RATE <==> !(2 <= i < 4)
  {
  }

  /** Grandchildren get their "Li-j" label, the lower rate, defaults for missing fields, and no children. */
  lemma TransformedGrandchildren(api: ApiResponse, i: nat, j: nat)
    requires TransformDataToTree(api).Some?
    requires i < |api.downlines.GetOr([])|
    requires j < |api.downlines.value[i].value.downlines.GetOr([])|
    ensures var g, sub := TransformDataToTree(api).value.children[i].children[j],
                          api.downlines.value[i].value.downlines.value[j].value;
      && g.attributes.level == SubLevel(i, j)
      && g.attributes.interestRate == LOW_RATE
      && g.name == OrElse(sub.name, SubLevel(i, j))
      && g.attributes.status == OrElse(sub.status, DEFAULT_STATUS)
      && g.attributes.joinDate == OrElse(sub.joinDate, DEFAULT_JOIN_DATE)
      && g.attributes.totalSavings == OrElse(sub.totalSavings, DEFAULT_SAVINGS)
      && g.children == []
  {
  }

  /** A transformed reply passes the check exactly when it has a user and the root has at least one child. */
  lemma AcceptedExactlyWithChildren(api: ApiResponse)
    requires TransformDataToTree(api).Some?
    ensures Acceptable(api) <==> api.user.Some? && |TransformDataToTree(api).value.children| > 0
  {
    TransformedChildren(api);
  }

  /** The transformed tree never goes deeper than grandchildren. */
  lemma TransformedHeight(api: ApiResponse)
    requires TransformDataToTree(api).Some?
    ensures HeightAtMost(TransformDataToTree(api).value, 2)
  {
    var r := TransformDataToTree(api).value;
    forall i | 0 <= i < |r.children| ensures HeightAtMost(r.children[i], 1) {
      var c := r.children[i];
      forall j | 0 <= j < |c.children| ensures HeightAtMost(c.children[j], 0) {
        assert c.children[j].children == [];
      }
    }
  }

  /** Different positions in the downline get different level labels. */
  lemma LevelsDistinct(i: nat, j: nat)
    requires i != j
    ensures Level(i) != Level(j)
  {
    if Level(i) == Level(j) {
      var a, b := NatToString(i + 1), NatToString(j + 1);
      assert a == Level(i)[1..] && b == Level(j)[1..];
      NatToStringInjective(i + 1, j + 1);
    }
  }

  /** The example tree goes three levels down, so no backend reply transforms into it. */
  lemma FallbackIsNotATransform(api: ApiResponse)
    ensures !HeightAtMost(Fallback(), 2)
    ensures TransformDataToTree(api) != Some(Fallback())
  {
    var f := Fallback();
    var dan := f.children[0];
    var miguel := dan.children[0];
    var mary := miguel.children[0];
    assert !HeightAtMost(miguel, 0) by { assert 0 < |miguel.children| && miguel.children[0] == mary; }
    assert !HeightAtMost(dan, 1) by { assert 0 < |dan.children| && dan.children[0] == miguel; }
    assert 0 < |f.children| && f.children[0] == dan;
    if TransformDataToTree(api).Some? {
      TransformedHeight(api);
    }
  }

  // ---------------------------------------------------------------------------
  // The information panel

  datatype InfoPanel = InfoPanel(
    title: string, status: string, statusActive: bool,
    level: string, interestRate: string, totalSavings: string)

  /** `renderNodeInfo`: nothing without a selection, otherwise the selected member's details. */
  function RenderNodeInfo(selected: Option<TreeNode>): (p: Option<InfoPanel>)
    ensures p.None? <==> selected.None?
    ensures p.Some? ==>
      var n := selected.value;
      && p.value.title == n.name && p.value.status == n.attributes.status
      && (p.value.statusActive <==> n.attributes.status == "active")
      && p.value.level == n.attributes.level && p.value.interestRate == n.attributes.interestRate
      && p.value.totalSavings == n.attributes.totalSavings
  {
    match selected
    case None => None
    case Some(n) =>
      Some(InfoPanel(n.name, n.attributes.status, n.attributes.status == "active",
                     n.attributes.level, n.attributes.interestRate, n.attributes.totalSavings))
  }

  datatype View =
    | LoadingView
    | ErrorView(message: string)
    | TreeScreen(info: Option<InfoPanel>, tree: Option<TreeNode>)

  // ---------------------------------------------------------------------------
  // The screen's state

  class GenealogyTreeScreen {
    var treeData: Option<TreeNode>
    var selectedNode: Option<TreeNode>
    var loading: bool
    var error: Option<string>

    /** Whatever is selected is a member of the tree on screen. */
    ghost predicate Valid()
      reads this
    {
      && (treeData.None? ==> selectedNode.None?)
      && (selectedNode.Some? ==> IsNodeOf(selectedNode.value, treeData.value))
    }

    constructor ()
      ensures Valid()
      ensures treeData == None && selectedNode == None && loading && error == None
    {
      treeData, selectedNode, loading, error := None, None, true, None;
    }

    /**
     * `fetchGenealogyData`. `fetched` is the reply, or None when the request
     * throws before a reply is read.
     */
    method FetchGenealogyData(fetched: Option<ApiResponse>)
      modifies this
      ensures Valid()
      ensures treeData == Some(
        if fetched.Some? && Acceptable(fetched.value) && TransformDataToTree(fetched.value).Some?
        then TransformDataToTree(fetched.value).value
        else Fallback())
      ensures selectedNode == treeData
      ensures !loading && error == None
    {
      loading := true;
      error := None;
      var tree: TreeNode;
      var transformed := if fetched.Some? && Acceptable(fetched.value) then TransformDataToTree(fetched.value) else None;
      if transformed.Some? {
        tree := transformed.value;
      } else {
        tree := Fallback();
      }
      treeData := Some(tree);
      selectedNode := Some(tree);
      loading := false;
    }

    /** `onNodeSelect`: the member tapped in the drawing of the current tree becomes the selection. */
    method SelectNode(layout: LaidOut, screenWidth: real, i: nat)
      requires Valid() && treeData.Some? && Mirrors(layout, treeData.value) && i < Size(layout)
      modifies this
      ensures Valid()
      ensures selectedNode == Some(Render(layout, screenWidth).glyphs[i].onTap)
      ensures selectedNode == Some(Descendants(layout)[i].data)
      ensures treeData == old(treeData) && loading == old(loading) && error == old(error)
    {
      TapSelectsNode(layout, treeData.value, screenWidth, i);
      selectedNode := Some(Render(layout, screenWidth).glyphs[i].onTap);
    }

    /** What the screen shows. */
    function CurrentView(): (v: View)
      reads this
      ensures v.LoadingView? <==> loading && treeData.None?
      ensures v.ErrorView? <==> !(loading && treeData.None?) && error.Some? && error.value != ""
      ensures v.ErrorView? ==> v.message == error.value
      ensures v.TreeScreen? <==> !(loading && treeData.None?) && (error.None? || error.value == "")
      ensures v.TreeScreen? ==> v.info == RenderNodeInfo(selectedNode) && v.tree == treeData
    {
      if loading && treeData.None? then LoadingView
      else if error.Some? && error.value != "" then ErrorView(error.value)
      else TreeScreen(RenderNodeInfo(selectedNode), treeData)
    }
  }
}
