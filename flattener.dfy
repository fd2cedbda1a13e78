/** Flattening of an uploaded item tree into the list of its requests, each tagged
    with the path of names that leads to it (server.js, flattenItems). */
module Flattener {
  import opened Documents
  import Text

  /** The path segment of the node at 0-based position `index` among its siblings:
      its name, or "Item k" with k the 1-based position when the name is missing or empty. */
  function Segment(name: Option<string>, index: nat): (r: string)
    ensures Truthy(name) ==> r == name.value
    ensures !Truthy(name) ==> r == "Item " + Text.Decimal(index + 1)
    ensures r != ""
  {
    if Truthy(name) then name.value else "Item " + Text.Decimal(index + 1)
  }

  /** Unnamed siblings at different positions get different segments. */
  lemma UnnamedSegmentsDiffer(name1: Option<string>, i: nat, name2: Option<string>, j: nat)
    requires !Truthy(name1) && !Truthy(name2) && i != j
    ensures Segment(name1, i) != Segment(name2, j)
  {
    var a, b := Text.Decimal(i + 1), Text.Decimal(j + 1);
    assert ("Item " + a)[5..] == a;
    assert ("Item " + b)[5..] == b;
    Text.DecimalInjective(i + 1, j + 1);
  }

  /** The flattened list of `items` under `parentPath`: each sibling in turn, the
      node at 0-based position k flattened as `FlattenNode(items[k], k, parentPath)`. */
  function Flatten(items: seq<Node>, parentPath: string): seq<FlatItem>
    decreases items
  {
    if |items| == 0 then []
    else
      var k := |items| - 1;
      Flatten(items[..k], parentPath) + FlattenNode(items[k], k, parentPath)
  }

  /** A node with an `item` array is a folder: its children are flattened under its own
      path and it is never emitted itself. Every other node is emitted with `fullPath`
      and, computed again from the same parts, `globalId`. */
  function FlattenNode(node: Node, index: nat, parentPath: string): seq<FlatItem>
    decreases node
  {
    var currentPath := parentPath + "/" + Segment(node.name, index);
    if node.item.Folder? then Flatten(node.item.nodes, currentPath)
    else [FlatItem(node.name, node.request, currentPath, parentPath + "/" + Segment(node.name, index))]
  }

  /** Reference definition: the request nodes of a list of siblings in pre-order,
      written as a walk from the front of the list. */
  function Leaves(items: seq<Node>): (r: seq<Node>)
    ensures forall i :: 0 <= i < |r| ==> r[i].item.NotFolder?
    decreases items
  {
    if |items| == 0 then [] else NodeLeaves(items[0]) + Leaves(items[1..])
  }

  /** The request nodes at and below `node`: the node itself unless it is a folder. */
  function NodeLeaves(node: Node): (r: seq<Node>)
    ensures forall i :: 0 <= i < |r| ==> r[i].item.NotFolder?
    decreases node
  {
    if node.item.Folder? then Leaves(node.item.nodes) else [node]
  }

  lemma {:induction false} LeavesAppend(a: seq<Node>, b: seq<Node>)
    ensures Leaves(a + b) == Leaves(a) + Leaves(b)
    decreases |a|
  {
    if |a| == 0 {
      assert a + b == b;
    } else {
      assert (a + b)[0] == a[0];
      assert (a + b)[1..] == a[1..] + b;
      LeavesAppend(a[1..], b);
    }
  }

  /** Same name and same request at every position. */
  ghost predicate SameRequests(flat: seq<FlatItem>, nodes: seq<Node>)
  {
    |flat| == |nodes| &&
    forall i :: 0 <= i < |flat| ==> flat[i].name == nodes[i].name && flat[i].request == nodes[i].request
  }

  /** Flattening emits exactly the request nodes, in pre-order: all of a folder's
      requests come before its later siblings, and folders (even empty ones) never appear. */
  lemma {:induction false} FlattenEmitsLeaves(items: seq<Node>, parentPath: string)
    ensures SameRequests(Flatten(items, parentPath), Leaves(items))
    decreases items
  {
    if |items| > 0 {
      var k := |items| - 1;
      assert items == items[..k] + [items[k]];
      LeavesAppend(items[..k], [items[k]]);
      assert [items[k]][1..] == [];
      FlattenEmitsLeaves(items[..k], parentPath);
      FlattenNodeEmitsLeaves(items[k], k, parentPath);
    }
  }

  lemma {:induction false} FlattenNodeEmitsLeaves(node: Node, index: nat, parentPath: string)
    ensures SameRequests(FlattenNode(node, index, parentPath), NodeLeaves(node))
    decreases node
  {
    if node.item.Folder? {
      FlattenEmitsLeaves(node.item.nodes, parentPath + "/" + Segment(node.name, index));
    }
  }

  /** Every emitted request has `globalId == fullPath`, and both lie under `parentPath + "/"`. */
  ghost predicate PathsUnder(flat: seq<FlatItem>, prefix: string)
  {
    forall i :: 0 <= i < |flat| ==> flat[i].globalId == flat[i].fullPath && prefix <= flat[i].fullPath
  }

  lemma {:induction false} FlattenIdsArePaths(items: seq<Node>, parentPath: string)
    ensures PathsUnder(Flatten(items, parentPath), parentPath + "/")
    decreases items
  {
    if |items| > 0 {
      var k := |items| - 1;
      FlattenIdsArePaths(items[..k], parentPath);
      FlattenNodeIdsArePaths(items[k], k, parentPath);
    }
  }

  lemma {:induction false} FlattenNodeIdsArePaths(node: Node, index: nat, parentPath: string)
    ensures PathsUnder(FlattenNode(node, index, parentPath), parentPath + "/")
    decreases node
  {
    var currentPath := parentPath + "/" + Segment(node.name, index);
    if node.item.Folder? {
      var flat := Flatten(node.item.nodes, currentPath);
      FlattenIdsArePaths(node.item.nodes, currentPath);
      forall i | 0 <= i < |flat|
        ensures parentPath + "/" <= flat[i].fullPath
      {
        assert currentPath + "/" <= flat[i].fullPath;
        assert parentPath + "/" <= currentPath;
      }
    }
  }

  /** The flattening of a prefix of the siblings is a prefix of the flattening. */
  lemma {:induction false} FlattenPrefix(items: seq<Node>, parentPath: string, j: nat)
    requires j <= |items|
    ensures Flatten(items[..j], parentPath) <= Flatten(items, parentPath)
    decreases |items| - j
  {
    if j < |items| {
      var k := |items| - 1;
      FlattenPrefix(items[..k], parentPath, j);
      assert items[..k][..j] == items[..j];
    } else {
      assert items[..j] == items;
    }
  }

  /** Where the sibling at position k lands: right after the requests of the siblings
      before it, either as one request whose `fullPath` and `globalId` are
      `parentPath/<segment>` or, for a folder, as the flattening of its children under
      that path. */
  lemma {:induction false} FlattenPlacesChild(items: seq<Node>, parentPath: string, k: nat)
    requires k < |items|
    ensures var lo := |Leaves(items[..k])|;
            var seg := parentPath + "/" + Segment(items[k].name, k);
            var flat := Flatten(items, parentPath);
            match items[k].item
            case Folder(children) =>
              lo + |Leaves(children)| <= |flat| && flat[lo..lo + |Leaves(children)|] == Flatten(children, seg)
            case NotFolder =>
              lo < |flat| && flat[lo] == FlatItem(items[k].name, items[k].request, seg, seg)
  {
    var prefix := items[..k + 1];
    assert prefix[..k] == items[..k];
    FlattenPrefix(items, parentPath, k + 1);
    FlattenEmitsLeaves(items[..k], parentPath);
    FlattenNodeEmitsLeaves(items[k], k, parentPath);
    assert Flatten(prefix, parentPath) == Flatten(items[..k], parentPath) + FlattenNode(items[k], k, parentPath);
  }

  /** The worked example: folder A holding request B and folder C, C holding request D,
      flattens to B then D, with paths "/A/B" and "/A/C/D". */
  lemma NestedFolderExample()
    ensures var b := Node(Some("B"), NotFolder, None);
            var d := Node(Some("D"), NotFolder, None);
            var c := Node(Some("C"), Folder([d]), None);
            var a := Node(Some("A"), Folder([b, c]), None);
            Flatten([a], "") == [FlatItem(Some("B"), None, "/A/B", "/A/B"), FlatItem(Some("D"), None, "/A/C/D", "/A/C/D")]
  {
    var b := Node(Some("B"), NotFolder, None);
    var d := Node(Some("D"), NotFolder, None);
    var c := Node(Some("C"), Folder([d]), None);
    var a := Node(Some("A"), Folder([b, c]), None);
    assert [b, c][..1] == [b];
    assert [a][..0] == [] && [b][..0] == [] && [d][..0] == [];
    assert Segment(Some("D"), 0) == "D" && Segment(Some("B"), 0) == "B";
    assert "/A/C" + "/" + "D" == "/A/C/D" && "/A" + "/" + "B" == "/A/B";
    assert FlattenNode(d, 0, "/A/C") == [FlatItem(Some("D"), None, "/A/C/D", "/A/C/D")];
    assert Flatten([d], "/A/C") == Flatten([], "/A/C") + FlattenNode(d, 0, "/A/C");
    assert Flatten([d], "/A/C") == [FlatItem(Some("D"), None, "/A/C/D", "/A/C/D")];
    assert Flatten([b], "/A") == Flatten([], "/A") + FlattenNode(b, 0, "/A");
    assert Flatten([b], "/A") == [FlatItem(Some("B"), None, "/A/B", "/A/B")];
    assert Segment(Some("C"), 1) == "C" && Segment(Some("A"), 0) == "A";
    assert "/A" + "/" + "C" == "/A/C" && "" + "/" + "A" == "/A";
    assert FlattenNode(c, 1, "/A") == Flatten([d], "/A/C");
    assert Flatten([b, c], "/A") == Flatten([b], "/A") + FlattenNode(c, 1, "/A");
    assert FlattenNode(a, 0, "") == Flatten([b, c], "/A");
    assert Flatten([a], "") == Flatten([], "") + FlattenNode(a, 0, "");
  }

  /** An unnamed request at position 2 under the root gets the segment "Item 2";
      so does one whose name is the empty string. */
  lemma UnnamedSiblingExample(unnamed: Node)
    requires unnamed.item.NotFolder? && !Truthy(unnamed.name)
    ensures var first := Node(Some("first"), NotFolder, None);
            var flat := Flatten([first, unnamed], "");
            |flat| == 2 && flat[1].fullPath == "/Item 2" && flat[1].globalId == "/Item 2"
  {
    var first := Node(Some("first"), NotFolder, None);
    assert Text.Decimal(2) == "2";
    assert Segment(unnamed.name, 1) == "Item 2";
    assert [first, unnamed][..1] == [first];
    assert [first][..0] == [];
    assert Flatten([first, unnamed], "") == Flatten([first], "") + FlattenNode(unnamed, 1, "");
  }
}
