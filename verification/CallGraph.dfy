/** The call graph: a random tree of functions, its numbering, and the order in which
    the functions are generated and written out. */
module CallGraph {
  import opened Graphs
  import opened Powers

  datatype Node = Node(id: nat, children: seq<Node>)

  // ----- generation -----

  /** Every inner node has one or two children, and every leaf is at depth `h`. */
  predicate Shaped(node: Node, h: nat)
    decreases node
  {
    if h == 0 then node.children == []
    else 1 <= |node.children| <= 2 && forall i :: 0 <= i < |node.children| ==> Shaped(node.children[i], h - 1)
  }

  /** The numbers of a list of trees, parents before children. */
  function Preorder(node: Node): seq<nat>
    decreases node, 0
  {
    [node.id] + PreorderAll(node.children)
  }

  function PreorderAll(nodes: seq<Node>): seq<nat>
    decreases nodes, |nodes|
  {
    if nodes == [] then [] else PreorderAll(nodes[..|nodes| - 1]) + Preorder(nodes[|nodes| - 1])
  }

  function Size(node: Node): nat {
    |Preorder(node)|
  }

  /** The numbers above `from` up to `to`. */
  function Counting(from: nat, to: nat): (r: seq<nat>)
    requires from <= to
    ensures |r| == to - from && forall i :: 0 <= i < |r| ==> r[i] == from + 1 + i
  {
    seq(to - from, i => from + 1 + i)
  }

  lemma CountingOn(a: nat, b: nat, c: nat)
    requires a <= b <= c
    ensures Counting(a, b) + Counting(b, c) == Counting(a, c)
  {
  }

  /** Between one and two subtrees of height `h`, together, and one more node. */
  ghost predicate SizeFits(n: nat, h: nat) {
    h + 1 <= n <= 2 * Pow2(h) - 1
  }

  /** The children of a node, one after the other, numbered from the counter on. */
  method GenerateChildren(num: nat, height: nat, counter: nat) returns (children: seq<Node>, counter': nat)
    requires num <= 2
    ensures |children| == num && counter <= counter' && PreorderAll(children) == Counting(counter, counter')
    ensures forall i :: 0 <= i < num ==> Shaped(children[i], height)
    ensures num * (height + 1) <= counter' - counter <= num * (2 * Pow2(height) - 1)
    decreases height, 1
  {
    children, counter' := [], counter;
    for i := 0 to num
      invariant |children| == i && counter <= counter' && PreorderAll(children) == Counting(counter, counter')
      invariant forall k :: 0 <= k < i ==> Shaped(children[k], height)
      invariant i * (height + 1) <= counter' - counter <= i * (2 * Pow2(height) - 1)
    {
      var child, next := GenerateTree(counter' + 1, height, counter' + 1);
      ghost var was := children;
      CountingOn(counter, counter', next);
      assert Preorder(child) == Counting(counter', next) by {
        assert Counting(counter', counter' + 1) == [counter' + 1];
        CountingOn(counter', counter' + 1, next);
      }
      children, counter' := children + [child], next;
      assert children[..|children| - 1] == was;
    }
  }

  /** A node of the given number with all its descendants: `height` levels below it,
      numbered from the counter on, in the order of creation. */
  method GenerateTree(id: nat, height: nat, counter: nat) returns (node: Node, counter': nat)
    ensures node.id == id && Shaped(node, height)
    ensures counter <= counter' && Preorder(node) == [id] + Counting(counter, counter')
    ensures SizeFits(1 + counter' - counter, height)
    decreases height, 0
  {
    if height == 0 {
      node, counter' := Node(id, []), counter;
      assert Counting(counter, counter) == [];
    } else {
      var num :| 1 <= num <= 2;
      var children;
      children, counter' := GenerateChildren(num, height - 1, counter);
      node := Node(id, children);
    }
  }

  /** The whole call graph: the functions are numbered 0 to n - 1 without gaps, each
      before those it calls, and the depth is as asked. */
  method GenerateCallGraph(depth: nat) returns (root: Node)
    ensures Shaped(root, depth) && SizeFits(Size(root), depth)
    ensures forall i :: 0 <= i < Size(root) ==> Preorder(root)[i] == i
  {
    var last;
    root, last := GenerateTree(0, depth, 0);
  }

  // ----- the order of generation -----

  /** A tree's nodes, children before parents. */
  function PostOrder(node: Node): seq<Node>
    decreases node, 0
  {
    PostOrderAll(node.children) + [node]
  }

  function PostOrderAll(nodes: seq<Node>): seq<Node>
    decreases nodes, |nodes|
  {
    if nodes == [] then [] else PostOrderAll(nodes[..|nodes| - 1]) + PostOrder(nodes[|nodes| - 1])
  }

  /** Pushes a tree onto the list. */
  method PostOrderTraversal(node: Node, list: seq<Node>) returns (r: seq<Node>)
    ensures r == list + PostOrder(node)
    decreases node
  {
    r := list;
    for i := 0 to |node.children|
      invariant r == list + PostOrderAll(node.children[..i])
    {
      r := PostOrderTraversal(node.children[i], r);
      assert node.children[..i + 1][..i] == node.children[..i];
    }
    assert node.children[..|node.children|] == node.children;
    r := r + [node];
  }

  function Ids(nodes: seq<Node>): (r: seq<nat>)
    ensures |r| == |nodes| && forall i :: 0 <= i < |nodes| ==> r[i] == nodes[i].id
  {
    seq(|nodes|, i requires 0 <= i < |nodes| => nodes[i].id)
  }

  /** Both orders list the same functions. */
  lemma {:induction false} SameNodes(node: Node)
    ensures multiset(Ids(PostOrder(node))) == multiset(Preorder(node))
    decreases node, 0
  {
    SameNodesAll(node.children);
    assert Ids(PostOrder(node)) == Ids(PostOrderAll(node.children)) + [node.id];
  }

  lemma {:induction false} SameNodesAll(nodes: seq<Node>)
    ensures multiset(Ids(PostOrderAll(nodes))) == multiset(PreorderAll(nodes))
    decreases nodes, |nodes|
  {
    if nodes != [] {
      var n := |nodes| - 1;
      SameNodesAll(nodes[..n]);
      SameNodes(nodes[n]);
      assert Ids(PostOrderAll(nodes)) == Ids(PostOrderAll(nodes[..n])) + Ids(PostOrder(nodes[n]));
    } else {
      assert Ids([]) == [];
    }
  }

  /** The list up to and including position `i` ends with the whole tree of the node
      there. */
  ghost predicate EndsAt(list: seq<Node>, i: nat)
    requires i < |list|
  {
    var t := PostOrder(list[i]);
    |t| <= i + 1 && list[i + 1 - |t|..i + 1] == t
  }

  /** All descendants of a function come before it, as one stretch of the list. */
  lemma {:induction false} DescendantsFirst(node: Node, i: nat)
    requires i < |PostOrder(node)|
    ensures EndsAt(PostOrder(node), i)
    decreases node, 0
  {
    if i < |PostOrderAll(node.children)| {
      DescendantsFirstAll(node.children, i);
      EndsLater(PostOrderAll(node.children), [node], i);
    }
  }

  lemma {:induction false} DescendantsFirstAll(nodes: seq<Node>, i: nat)
    requires i < |PostOrderAll(nodes)|
    ensures EndsAt(PostOrderAll(nodes), i)
    decreases nodes, |nodes|
  {
    assert nodes != [];
    var n := |nodes| - 1;
    var before := PostOrderAll(nodes[..n]);
    assert PostOrderAll(nodes) == before + PostOrder(nodes[n]);
    if i < |before| {
      DescendantsFirstAll(nodes[..n], i);
      EndsLater(before, PostOrder(nodes[n]), i);
    } else {
      DescendantsFirst(nodes[n], i - |before|);
      EndsShifted(before, PostOrder(nodes[n]), i - |before|);
    }
  }

  lemma EndsLater(s: seq<Node>, t: seq<Node>, i: nat)
    requires i < |s| && EndsAt(s, i)
    ensures EndsAt(s + t, i)
  {
    var p := PostOrder(s[i]);
    assert (s + t)[i + 1 - |p|..i + 1] == s[i + 1 - |p|..i + 1];
  }

  lemma EndsShifted(s: seq<Node>, t: seq<Node>, i: nat)
    requires i < |t| && EndsAt(t, i)
    ensures EndsAt(s + t, |s| + i)
  {
    var p := PostOrder(t[i]);
    assert (s + t)[|s| + i + 1 - |p|..|s| + i + 1] == t[i + 1 - |p|..i + 1];
  }

  lemma {:induction false} ChildListed(nodes: seq<Node>, k: nat)
    requires k < |nodes|
    ensures nodes[k] in PostOrderAll(nodes)
    decreases |nodes|
  {
    var n := |nodes| - 1;
    if k < n {
      ChildListed(nodes[..n], k);
    } else {
      var t := PostOrder(nodes[n]);
      assert t[|t| - 1] == nodes[n];
    }
  }

  /** A function's callees come before it. */
  lemma CalleesFirst(root: Node, i: nat, k: nat)
    requires i < |PostOrder(root)| && k < |PostOrder(root)[i].children|
    ensures PostOrder(root)[i].children[k] in PostOrder(root)[..i]
  {
    var list := PostOrder(root);
    var node := list[i];
    DescendantsFirst(root, i);
    ChildListed(node.children, k);
    var t := PostOrder(node);
    var all := PostOrderAll(node.children);
    var j :| 0 <= j < |all| && all[j] == node.children[k];
    assert t[j] == all[j];
    assert list[i + 1 - |t|..i + 1][j] == node.children[k];
    assert list[..i][i + 1 - |t| + j] == node.children[k];
  }

  // ----- writing the program -----

  lemma TwiceCounted(s: seq<nat>, i: nat, j: nat)
    requires i < j < |s| && s[i] == s[j]
    ensures multiset(s)[s[i]] >= 2
  {
    assert s == s[..j] + s[j..];
    assert s[i] in s[..j] && s[j] in s[j..];
  }

  lemma {:induction false} OnceCounted(s: seq<nat>, x: nat)
    requires Distinct(s)
    ensures multiset(s)[x] <= 1
  {
    if s != [] {
      assert s == [s[0]] + s[1..];
      OnceCounted(s[1..], x);
    }
  }

  /** A rearrangement of distinct numbers is distinct. */
  lemma RearrangedDistinct(s: seq<nat>, t: seq<nat>)
    requires multiset(s) == multiset(t) && Distinct(t)
    ensures Distinct(s)
  {
    forall i, j | 0 <= i < j < |s|
      ensures s[i] != s[j]
    {
      if s[i] == s[j] {
        TwiceCounted(s, i, j);
        OnceCounted(t, s[i]);
      }
    }
  }

  /** One call from a function to each of its children. */
  function CallsOf(node: Node): (r: seq<(nat, nat)>)
    ensures |r| == |node.children| && forall k :: 0 <= k < |r| ==> r[k] == (node.id, node.children[k].id)
  {
    seq(|node.children|, k requires 0 <= k < |node.children| => (node.id, node.children[k].id))
  }

  /** The calls that end up in a function: one for each child and each generated
      function of the caller's name. */
  method InsertCalls(node: Node, generated: seq<nat>, ghost at: nat) returns (calls: seq<(nat, nat)>)
    requires at < |generated| && generated[at] == node.id && Distinct(generated)
    ensures calls == CallsOf(node)
  {
    calls := [];
    for k := 0 to |node.children|
      invariant calls == CallsOf(node)[..k]
    {
      for g := 0 to |generated|
        invariant calls == CallsOf(node)[..if g <= at then k else k + 1]
      {
        if generated[g] == node.id {
          assert g == at;
          calls := calls + [(node.id, node.children[k].id)];
        }
      }
    }
  }

  function AllCalls(list: seq<Node>): seq<(nat, nat)> {
    if list == [] then [] else AllCalls(list[..|list| - 1]) + CallsOf(list[|list| - 1])
  }

  /** Whom a function calls, in order. */
  function Callees(calls: seq<(nat, nat)>, id: nat): seq<nat> {
    if calls == [] then []
    else
      var n := |calls| - 1;
      Callees(calls[..n], id) + if calls[n].0 == id then [calls[n].1] else []
  }

  lemma {:induction false} CalleesAppend(a: seq<(nat, nat)>, b: seq<(nat, nat)>, id: nat)
    ensures Callees(a + b, id) == Callees(a, id) + Callees(b, id)
    decreases |b|
  {
    if b == [] {
      assert a + b == a;
    } else {
      var n := |b| - 1;
      assert (a + b)[..|a| + n] == a + b[..n];
      CalleesAppend(a, b[..n], id);
    }
  }

  lemma {:induction false} OwnCallees(node: Node, calls: seq<(nat, nat)>, id: nat)
    requires |calls| <= |node.children| && forall k :: 0 <= k < |calls| ==> calls[k] == (node.id, node.children[k].id)
    ensures Callees(calls, id) == if id == node.id then Ids(node.children)[..|calls|] else []
    decreases |calls|
  {
    if calls != [] {
      var n := |calls| - 1;
      OwnCallees(node, calls[..n], id);
      assert Ids(node.children)[..n + 1] == Ids(node.children)[..n] + [node.children[n].id];
    }
  }

  /** A listed function calls its children, once each, and no other function calls. */
  lemma {:induction false} EachCallsItsOwn(list: seq<Node>, id: nat)
    requires Distinct(Ids(list))
    ensures forall i :: 0 <= i < |list| && list[i].id == id ==> Callees(AllCalls(list), id) == Ids(list[i].children)
    ensures id !in Ids(list) ==> Callees(AllCalls(list), id) == []
    decreases |list|
  {
    if list != [] {
      var n := |list| - 1;
      assert Ids(list[..n]) == Ids(list)[..n];
      EachCallsItsOwn(list[..n], id);
      CalleesAppend(AllCalls(list[..n]), CallsOf(list[n]), id);
      OwnCallees(list[n], CallsOf(list[n]), id);
      assert Ids(list[n].children)[..|list[n].children|] == Ids(list[n].children);
      assert Ids(list)[n] == list[n].id;
      if id == list[n].id {
        assert id !in Ids(list)[..n];
      } else if id in Ids(list)[..n] {
        assert id in Ids(list);
      }
    }
  }

  /** Each listed function calls its children, once each and in order, and that is all
      the calls there are. */
  ghost predicate OneCallEach(list: seq<Node>, calls: seq<(nat, nat)>) {
    && (forall i :: 0 <= i < |list| ==> Callees(calls, list[i].id) == Ids(list[i].children))
    && forall id :: id !in Ids(list) ==> Callees(calls, id) == []
  }

  lemma AllCallOnce(list: seq<Node>)
    requires Distinct(Ids(list))
    ensures OneCallEach(list, AllCalls(list))
  {
    forall i | 0 <= i < |list|
      ensures Callees(AllCalls(list), list[i].id) == Ids(list[i].children)
    {
      EachCallsItsOwn(list, list[i].id);
    }
    forall id | id !in Ids(list)
      ensures Callees(AllCalls(list), id) == []
    {
      EachCallsItsOwn(list, id);
    }
  }

  /** Goes through the list: each function is generated, given its calls and
      written.  The last, the root, was generated first. */
  method WriteAll(list: seq<Node>) returns (printed: seq<nat>, calls: seq<(nat, nat)>)
    requires list != [] && Distinct(Ids(list))
    ensures printed == Ids(list) && calls == AllCalls(list)
  {
    var n := |list| - 1;
    var root := list[n];
    var generated := [root.id];
    printed, calls := [], [];
    for i := 0 to n
      invariant generated == [root.id] + Ids(list)[..i] && printed == Ids(list)[..i] && calls == AllCalls(list[..i])
    {
      generated := generated + [list[i].id];
      GeneratedDistinct(Ids(list), i + 1, generated);
      var c := InsertCalls(list[i], generated, i + 1);
      printed, calls := printed + [list[i].id], calls + c;
      assert list[..i + 1][..i] == list[..i];
    }
    GeneratedDistinct(Ids(list), n, generated);
    var c := InsertCalls(root, generated, 0);
    printed, calls := printed + [root.id], calls + c;
    assert list[..n] + [root] == list;
  }

  /** Every function is written once, after the functions it calls, and calls each of
      its children once. */
  method WriteProgram(depth: nat) returns (root: Node, printed: seq<nat>, calls: seq<(nat, nat)>)
    ensures Shaped(root, depth) && printed == Ids(PostOrder(root)) && Distinct(printed)
    ensures CalleesBefore(PostOrder(root), printed)
    ensures OneCallEach(PostOrder(root), calls)
  {
    root := GenerateCallGraph(depth);
    var list := PostOrderTraversal(root, []);
    ListDistinct(root, list);
    printed, calls := WriteAll(list);
    CalleesPrinted(root, printed);
    AllCallOnce(list);
  }

  /** What each function calls is written before it. */
  predicate CalleesBefore(list: seq<Node>, printed: seq<nat>) {
    |printed| == |list| && forall i, k :: 0 <= i < |list| && 0 <= k < |list[i].children| ==>
        list[i].children[k].id in printed[..i]
  }

  lemma ListDistinct(root: Node, list: seq<Node>)
    requires list == [] + PostOrder(root) && forall i :: 0 <= i < Size(root) ==> Preorder(root)[i] == i
    ensures list == PostOrder(root) && list != [] && Distinct(Ids(list))
  {
    assert list == PostOrder(root);
    SameNodes(root);
    var pre := Preorder(root);
    assert forall i :: 0 <= i < |pre| ==> pre[i] == i;
    RearrangedDistinct(Ids(list), pre);
  }

  lemma GeneratedDistinct(ids: seq<nat>, n: nat, generated: seq<nat>)
    requires Distinct(ids) && n < |ids| && generated == [ids[|ids| - 1]] + ids[..n]
    ensures Distinct(generated)
  {
  }

  lemma CalleesPrinted(root: Node, printed: seq<nat>)
    requires printed == Ids(PostOrder(root))
    ensures CalleesBefore(PostOrder(root), printed)
  {
    var list := PostOrder(root);
    forall i, k | 0 <= i < |list| && 0 <= k < |list[i].children|
      ensures list[i].children[k].id in printed[..i]
    {
      CalleesFirst(root, i, k);
      var j :| 0 <= j < i && list[..i][j] == list[i].children[k];
      assert printed[..i][j] == list[j].id;
    }
  }
}
