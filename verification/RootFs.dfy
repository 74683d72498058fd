/** The in-memory root file system (rootfs.c): creating, removing and renaming entries keeps its name space a tree with
    sorted directories. */
module RootFs {
  import opened Names

  type Id = nat

  datatype Option<T> = None | Some(value: T)

  /** A vnode; kids are its entries, in the order of the sibling links. */
  datatype Node = Node(name: string, dir: bool, parent: Id, removed: bool, kids: seq<Id>)

  datatype Error = Ok | ENOTDIR | EPERM | ENOENT | EINVAL | ENOTEMPTY | EEXIST | EISDIR | EBUSY | EVnode

  type Nodes = map<Id, Node>

  // ---- trees

  predicate Sorted(nodes: Nodes, kids: seq<Id>) {
    && (forall k :: k in kids ==> k in nodes)
    && forall i, j :: 0 <= i < j < |kids| ==> Less(nodes[kids[i]].name, nodes[kids[j]].name)
  }

  /** What holds of a node and its entries. */
  ghost predicate NodeOk(nodes: Nodes, root: Id, depth: map<Id, nat>, v: Id)
    requires v in nodes
  {
    var n := nodes[v];
    && n.parent in nodes && nodes[n.parent].dir && v in depth && n.parent in depth
    && (v == root ==> n.parent == root && depth[v] == 0)
    && (v != root ==> depth[v] == depth[n.parent] + 1)
    && Sorted(nodes, n.kids) && (!n.dir ==> n.kids == [])
    && (forall k :: k in n.kids ==> k in nodes && k != root && nodes[k].parent == v)
  }

  /** A tree by parent links, the parent links agreeing with the sorted lists of entries. */
  ghost predicate Tree(nodes: Nodes, root: Id, depth: map<Id, nat>) {
    && root in nodes && nodes[root].dir && depth.Keys == nodes.Keys
    && forall v {:trigger NodeOk(nodes, root, depth, v)} :: v in nodes ==> NodeOk(nodes, root, depth, v)
  }

  /** Is v at a or below it? */
  ghost predicate Below(nodes: Nodes, root: Id, depth: map<Id, nat>, v: Id, a: Id)
    requires Tree(nodes, root, depth) && v in nodes
    decreases depth[v]
  {
    v == a || (v != root && (assert NodeOk(nodes, root, depth, v); Below(nodes, root, depth, nodes[v].parent, a)))
  }

  lemma {:induction false} BelowDeeper(nodes: Nodes, root: Id, depth: map<Id, nat>, v: Id, a: Id)
    requires Tree(nodes, root, depth) && v in nodes && a in nodes && Below(nodes, root, depth, v, a)
    ensures depth[v] >= depth[a]
    decreases depth[v]
  {
    assert NodeOk(nodes, root, depth, v);
    if v != a {
      BelowDeeper(nodes, root, depth, nodes[v].parent, a);
    }
  }

  lemma {:induction false} BelowTrans(nodes: Nodes, root: Id, depth: map<Id, nat>, v: Id, a: Id, b: Id)
    requires Tree(nodes, root, depth) && v in nodes && a in nodes
    requires Below(nodes, root, depth, v, a) && Below(nodes, root, depth, a, b)
    ensures Below(nodes, root, depth, v, b)
    decreases depth[v]
  {
    assert NodeOk(nodes, root, depth, v);
    if v != a {
      BelowTrans(nodes, root, depth, nodes[v].parent, a, b);
    }
  }

  /** Everything is below the root. */
  lemma {:induction false} BelowRoot(nodes: Nodes, root: Id, depth: map<Id, nat>, v: Id)
    requires Tree(nodes, root, depth) && v in nodes
    ensures Below(nodes, root, depth, v, root)
    decreases depth[v]
  {
    assert NodeOk(nodes, root, depth, v);
    if v != root {
      BelowRoot(nodes, root, depth, nodes[v].parent);
    }
  }

  /** Is v found from the root, each entry in its parent's list? */
  ghost predicate Reachable(nodes: Nodes, root: Id, depth: map<Id, nat>, v: Id)
    requires Tree(nodes, root, depth) && v in nodes
    decreases depth[v]
  {
    v == root ||
    (assert NodeOk(nodes, root, depth, v);
     v in nodes[nodes[v].parent].kids && Reachable(nodes, root, depth, nodes[v].parent))
  }

  // ---- taking an entry out of a directory and putting one in

  /** Is v in no list, not even its parent's? */
  predicate Loose(nodes: Nodes, v: Id) {
    v in nodes && nodes[v].parent in nodes && v !in nodes[nodes[v].parent].kids
  }

  function Taken(nodes: Nodes, d: Id, i: nat): Nodes
    requires d in nodes && i < |nodes[d].kids|
  {
    nodes[d := nodes[d].(kids := nodes[d].kids[..i] + nodes[d].kids[i + 1..])]
  }

  /** Taking an entry out leaves a tree; the entry keeps its parent link. */
  lemma TakenTree(nodes: Nodes, root: Id, depth: map<Id, nat>, d: Id, i: nat)
    requires Tree(nodes, root, depth) && d in nodes && i < |nodes[d].kids|
    ensures Tree(Taken(nodes, d, i), root, depth)
  {
    hide NodeOk;
    var nodes' := Taken(nodes, d, i);
    forall v | v in nodes' ensures NodeOk(nodes', root, depth, v) {
      TakenNode(nodes, root, depth, d, i, v);
    }
  }

  lemma TakenIs(nodes: Nodes, root: Id, depth: map<Id, nat>, d: Id, i: nat)
    requires Tree(nodes, root, depth) && d in nodes && i < |nodes[d].kids|
    ensures forall k :: k in Taken(nodes, d, i)[d].kids <==> k in nodes[d].kids && k != nodes[d].kids[i]
    ensures Loose(Taken(nodes, d, i), nodes[d].kids[i]) && nodes[d].kids[i] != root
  {
    assert NodeOk(nodes, root, depth, d) && nodes[d].kids[i] in nodes[d].kids;
    TakenKids(nodes, nodes[d].kids, i);
    hide Sorted;
  }

  lemma TakenNode(nodes: Nodes, root: Id, depth: map<Id, nat>, d: Id, i: nat, v: Id)
    requires Tree(nodes, root, depth) && d in nodes && i < |nodes[d].kids| && v in nodes
    ensures NodeOk(Taken(nodes, d, i), root, depth, v)
  {
    assert NodeOk(nodes, root, depth, v) && NodeOk(nodes, root, depth, d);
    TakenKids(nodes, nodes[d].kids, i);
    hide Sorted;
    SameNames(nodes, Taken(nodes, d, i), Taken(nodes, d, i)[v].kids);
  }

  lemma SameNames(nodes: Nodes, nodes': Nodes, kids: seq<Id>)
    requires Sorted(nodes, kids) && forall k :: k in kids ==> k in nodes && k in nodes' && nodes'[k].name == nodes[k].name
    ensures Sorted(nodes', kids)
  {
  }

  lemma TakenKids(nodes: Nodes, kids: seq<Id>, i: nat)
    requires Sorted(nodes, kids) && i < |kids|
    ensures Sorted(nodes, kids[..i] + kids[i + 1..])
    ensures forall k :: k in kids[..i] + kids[i + 1..] <==> k in kids && k != kids[i]
  {
    var rest := kids[..i] + kids[i + 1..];
    forall j | 0 <= j < |kids| && j != i ensures kids[j] != kids[i] && kids[j] in rest {
      Total(nodes[kids[i]].name, nodes[kids[j]].name);
      assert if j < i then rest[j] == kids[j] else rest[j - 1] == kids[j];
    }
  }

  /** The names that come before name; the new entry goes after them. */
  function Place(nodes: Nodes, kids: seq<Id>, name: string): (i: nat)
    requires forall k :: k in kids ==> k in nodes
    ensures i <= |kids|
  {
    if kids == [] || !Less(nodes[kids[0]].name, name) then 0 else 1 + Place(nodes, kids[1..], name)
  }

  lemma {:induction false} PlaceSplits(nodes: Nodes, kids: seq<Id>, name: string)
    requires Sorted(nodes, kids)
    ensures forall j :: 0 <= j < Place(nodes, kids, name) ==> Less(nodes[kids[j]].name, name)
    ensures forall j :: Place(nodes, kids, name) <= j < |kids| ==> !Less(nodes[kids[j]].name, name)
  {
    if kids != [] && Less(nodes[kids[0]].name, name) {
      PlaceSplits(nodes, kids[1..], name);
      assert forall j :: 0 < j < |kids| ==> kids[j] == kids[1..][j - 1];
    } else if kids != [] {
      forall j | 0 < j < |kids| ensures !Less(nodes[kids[j]].name, name) {
        Total(name, nodes[kids[0]].name);
        if Less(nodes[kids[j]].name, name) { LessTrans(nodes[kids[0]].name, nodes[kids[j]].name, name); }
      }
    }
  }

  /** The list of d with v put in under name, v having that name. */
  function WithKid(nodes: Nodes, kids: seq<Id>, v: Id, name: string): seq<Id>
    requires forall k :: k in kids ==> k in nodes
  {
    var i := Place(nodes, kids, name);
    kids[..i] + [v] + kids[i..]
  }

  /** Where what was there before is found in the new list. */
  lemma WithKidAt(nodes: Nodes, kids: seq<Id>, v: Id, name: string)
    requires forall k :: k in kids ==> k in nodes
    ensures var i, l := Place(nodes, kids, name), WithKid(nodes, kids, v, name);
      |l| == |kids| + 1 && l[i] == v && forall j :: 0 <= j < |kids| ==> l[if j < i then j else j + 1] == kids[j]
  {
  }

  /** The name of each entry of the list, in terms of the list before. */
  lemma PlaceOrder(nodes: Nodes, kids: seq<Id>, name: string, j: nat)
    requires Sorted(nodes, kids) && j < |kids| && nodes[kids[j]].name != name
    ensures if j < Place(nodes, kids, name) then Less(nodes[kids[j]].name, name) else Less(name, nodes[kids[j]].name)
  {
    PlaceSplits(nodes, kids, name);
    Total(name, nodes[kids[j]].name);
  }

  lemma SortedAt(nodes: Nodes, kids: seq<Id>, a: nat, b: nat)
    requires Sorted(nodes, kids) && a < b < |kids|
    ensures kids[a] in nodes && kids[b] in nodes && Less(nodes[kids[a]].name, nodes[kids[b]].name)
  {
  }

  /** Two entries of the new list are in order. */
  lemma WithKidOrder(nodes: Nodes, kids: seq<Id>, v: Id, name: string, nodes': Nodes, a: nat, b: nat)
    requires Sorted(nodes, kids) && v in nodes' && nodes'[v].name == name
    requires forall k :: k in kids ==> k in nodes && k in nodes' && nodes'[k].name == nodes[k].name && nodes[k].name != name
    requires a < b < |WithKid(nodes, kids, v, name)|
    ensures var l := WithKid(nodes, kids, v, name); l[a] in nodes' && l[b] in nodes' && Less(nodes'[l[a]].name, nodes'[l[b]].name)
  {
    hide Sorted, Less, WithKid;
    WithKidAt(nodes, kids, v, name);
    var i := Place(nodes, kids, name);
    var a' := if a > i then a - 1 else a;
    var b' := if b > i then b - 1 else b;
    hide Place;
    if a == i {
      PlaceOrder(nodes, kids, name, b');
    } else if b == i {
      PlaceOrder(nodes, kids, name, a');
    } else {
      SortedAt(nodes, kids, a', b');
    }
  }

  lemma WithKidSorted(nodes: Nodes, kids: seq<Id>, v: Id, name: string, nodes': Nodes)
    requires Sorted(nodes, kids) && v in nodes' && nodes'[v].name == name
    requires forall k :: k in kids ==> k in nodes && k in nodes' && nodes'[k].name == nodes[k].name && nodes[k].name != name
    ensures Sorted(nodes', WithKid(nodes, kids, v, name))
    ensures forall k :: k in WithKid(nodes, kids, v, name) <==> k in kids || k == v
  {
    var l := WithKid(nodes, kids, v, name);
    assert forall k :: k in l <==> k in kids || k == v;
    hide WithKid, Less;
    forall a, b | 0 <= a < b < |l| ensures l[a] in nodes' && l[b] in nodes' && Less(nodes'[l[a]].name, nodes'[l[b]].name) {
      WithKidOrder(nodes, kids, v, name, nodes', a, b);
    }
  }

  function Put(nodes: Nodes, v: Id, d: Id, name: string): Nodes
    requires v in nodes && d in nodes && v != d && forall k :: k in nodes[d].kids ==> k in nodes
  {
    nodes[d := nodes[d].(kids := WithKid(nodes, nodes[d].kids, v, name))]
         [v := nodes[v].(name := name, parent := d)]
  }

  /** The depths once what is below v moves along to d. */
  ghost function Redepth(nodes: Nodes, root: Id, depth: map<Id, nat>, v: Id, d: Id): (depth': map<Id, nat>)
    requires Tree(nodes, root, depth) && v in nodes && d in nodes
    ensures depth'.Keys == nodes.Keys
  {
    map u | u in nodes :: if Below(nodes, root, depth, u, v) && depth[u] >= depth[v] then depth[u] - depth[v] + depth[d] + 1
                          else depth[u]
  }

  /** A node that is in no list may be put into a directory that is not below it. */
  lemma PutTree(nodes: Nodes, root: Id, depth: map<Id, nat>, v: Id, d: Id, name: string)
    requires Tree(nodes, root, depth) && v in nodes && d in nodes && nodes[d].dir && v != root
    requires Loose(nodes, v) && !Below(nodes, root, depth, d, v)
    requires forall k :: k in nodes[d].kids ==> k in nodes && nodes[k].name != name
    ensures v != d && Tree(Put(nodes, v, d, name), root, Redepth(nodes, root, depth, v, d))
  {
    hide NodeOk, Below, WithKid, Sorted, Loose;
    NotItself(nodes, root, depth, v, d);
    var nodes', depth' := Put(nodes, v, d, name), Redepth(nodes, root, depth, v, d);
    forall u | u in nodes' ensures NodeOk(nodes', root, depth', u) {
      PutNode(nodes, root, depth, v, d, name, u);
    }
  }

  lemma NotItself(nodes: Nodes, root: Id, depth: map<Id, nat>, v: Id, d: Id)
    requires Tree(nodes, root, depth) && d in nodes && !Below(nodes, root, depth, d, v)
    ensures v != d
  {
  }

  lemma PutNode(nodes: Nodes, root: Id, depth: map<Id, nat>, v: Id, d: Id, name: string, u: Id)
    requires Tree(nodes, root, depth) && v in nodes && d in nodes && nodes[d].dir && v != root && u in nodes
    requires Loose(nodes, v) && !Below(nodes, root, depth, d, v)
    requires forall k :: k in nodes[d].kids ==> k in nodes && nodes[k].name != name
    ensures v != d && NodeOk(Put(nodes, v, d, name), root, Redepth(nodes, root, depth, v, d), u)
  {
    var nodes', depth' := Put(nodes, v, d, name), Redepth(nodes, root, depth, v, d);
    assert NodeOk(nodes, root, depth, u) && NodeOk(nodes, root, depth, d) && NodeOk(nodes, root, depth, v);
    hide Sorted, Loose, WithKid;
    PutDepth(nodes, root, depth, v, d, u);
    PutKids(nodes, root, depth, v, d, name, u);
  }

  lemma PutDepth(nodes: Nodes, root: Id, depth: map<Id, nat>, v: Id, d: Id, u: Id)
    requires Tree(nodes, root, depth) && v in nodes && d in nodes && v != root && u in nodes
    requires !Below(nodes, root, depth, d, v)
    ensures var depth' := Redepth(nodes, root, depth, v, d);
      && (u == root ==> depth'[u] == 0)
      && (u == v ==> depth'[u] == depth'[d] + 1)
      && (u != root && u != v ==> nodes[u].parent in nodes && depth'[u] == depth'[nodes[u].parent] + 1)
  {
    assert NodeOk(nodes, root, depth, u);
    if u != root && u != v && Below(nodes, root, depth, u, v) {
      BelowDeeper(nodes, root, depth, nodes[u].parent, v);
    }
  }

  lemma PutKids(nodes: Nodes, root: Id, depth: map<Id, nat>, v: Id, d: Id, name: string, u: Id)
    requires Tree(nodes, root, depth) && v in nodes && d in nodes && v != root && u in nodes && v != d
    requires Loose(nodes, v)
    requires forall k :: k in nodes[d].kids ==> k in nodes && nodes[k].name != name
    ensures var nodes' := Put(nodes, v, d, name);
      && Sorted(nodes', nodes'[u].kids)
      && (forall k :: k in nodes'[u].kids ==> k in nodes' && k != root && nodes'[k].parent == u)
      && (forall k :: k in nodes'[u].kids <==> k in nodes[u].kids || (u == d && k == v))
  {
    var nodes' := Put(nodes, v, d, name);
    assert NodeOk(nodes, root, depth, u) && NodeOk(nodes, root, depth, d);
    hide Place, Less, Below;
    if u == d {
      assert v !in nodes[d].kids;
      WithKidSorted(nodes, nodes[d].kids, v, name, nodes');
    } else {
      assert v !in nodes[u].kids;
    }
  }

  // ---- what a rename does

  /** v becomes an entry of newdir under its new name, in place of lost if there was such an entry; nothing else
      changes. */
  ghost predicate Renamed(nodes: Nodes, nodes': Nodes, v: Id, lost: Option<Id>, newdir: Id, newname: string)
    requires v in nodes
  {
    && nodes'.Keys == nodes.Keys
    && (forall u :: u in nodes ==>
          nodes'[u].(kids := nodes[u].kids) == if u == v then nodes[u].(name := newname, parent := newdir) else nodes[u])
    && (forall u, k {:trigger k in nodes'[u].kids} :: u in nodes ==>
          (k in nodes'[u].kids <==> (k in nodes[u].kids && k != v && Some(k) != lost) || (u == newdir && k == v)))
  }

  /** What is replaced is an entry of newdir and has no entries itself. */
  predicate LostOk(nodes: Nodes, v: Id, lost: Option<Id>, newdir: Id) {
    lost.Some? ==>
      && lost.value in nodes && nodes[lost.value].kids == [] && lost.value != v
      && newdir in nodes && lost.value in nodes[newdir].kids
  }

  /** The entries found from the root are the same, but for the one that was replaced. */
  lemma RenameReach(nodes: Nodes, root: Id, depth: map<Id, nat>, v: Id, lost: Option<Id>, newdir: Id, newname: string,
                    nodes': Nodes, depth': map<Id, nat>, u: Id)
    requires Tree(nodes, root, depth) && Tree(nodes', root, depth') && v in nodes && v != root && newdir in nodes
    requires Renamed(nodes, nodes', v, lost, newdir, newname) && u in nodes
    requires Reachable(nodes, root, depth, v) && Reachable(nodes, root, depth, newdir) && Some(root) != lost
    requires LostOk(nodes, v, lost, newdir)
    ensures Reachable(nodes', root, depth', u) <==> Reachable(nodes, root, depth, u) && Some(u) != lost
    decreases depth'[u]
  {
    hide Reachable, Tree, Renamed, NodeOk, LostOk;
    NotLost(nodes, v, lost, newdir, u);
    if u == root {
      ReachRoot(nodes, root, depth);
      ReachRoot(nodes', root, depth');
    } else {
      ReachUnfold(nodes, root, depth, u);
      RenamedAt(nodes, nodes', v, lost, newdir, newname, u);
      ReachUnfold(nodes', root, depth', u);
      RenameReach(nodes, root, depth, v, lost, newdir, newname, nodes', depth', nodes'[u].parent);
    }
  }

  lemma NotLost(nodes: Nodes, v: Id, lost: Option<Id>, newdir: Id, u: Id)
    requires LostOk(nodes, v, lost, newdir)
    ensures Some(v) != lost && Some(newdir) != lost
    ensures u in nodes && nodes[u].parent in nodes && u in nodes[nodes[u].parent].kids ==> Some(nodes[u].parent) != lost
  {
  }

  lemma ReachRoot(nodes: Nodes, root: Id, depth: map<Id, nat>)
    requires Tree(nodes, root, depth)
    ensures root in nodes && Reachable(nodes, root, depth, root)
  {
  }

  lemma ReachUnfold(nodes: Nodes, root: Id, depth: map<Id, nat>, u: Id)
    requires Tree(nodes, root, depth) && u in nodes && u != root
    ensures nodes[u].parent in nodes && nodes[u].parent in depth && u in depth && depth[nodes[u].parent] < depth[u]
    ensures Reachable(nodes, root, depth, u) <==>
      u in nodes[nodes[u].parent].kids && Reachable(nodes, root, depth, nodes[u].parent)
  {
    assert NodeOk(nodes, root, depth, u);
  }

  lemma RenamedAt(nodes: Nodes, nodes': Nodes, v: Id, lost: Option<Id>, newdir: Id, newname: string, u: Id)
    requires v in nodes && newdir in nodes && Renamed(nodes, nodes', v, lost, newdir, newname) && u in nodes
    ensures u in nodes' && nodes'[u].parent == if u == v then newdir else nodes[u].parent
    ensures nodes[u].parent in nodes ==> nodes'[u].parent in nodes'
    ensures nodes[u].parent in nodes ==>
      (u in nodes'[nodes'[u].parent].kids <==> u == v || (u in nodes[nodes[u].parent].kids && Some(u) != lost))
  {
    assert nodes'[u].(kids := nodes[u].kids) == if u == v then nodes[u].(name := newname, parent := newdir) else nodes[u];
    var p := nodes'[u].parent;
    if p in nodes {
      assert u in nodes'[p].kids <==> (u in nodes[p].kids && u != v && Some(u) != lost) || (p == newdir && u == v);
    }
  }

  lemma TakenBelow(nodes: Nodes, root: Id, depth: map<Id, nat>, d: Id, i: nat, v: Id, a: Id)
    requires Tree(nodes, root, depth) && d in nodes && i < |nodes[d].kids| && v in nodes
    requires Tree(Taken(nodes, d, i), root, depth)
    ensures Below(Taken(nodes, d, i), root, depth, v, a) == Below(nodes, root, depth, v, a)
    decreases depth[v]
  {
    assert NodeOk(nodes, root, depth, v);
    if v != a && v != root {
      TakenBelow(nodes, root, depth, d, i, nodes[v].parent, a);
    }
  }

  /** The test of rename: is olddir a proper ancestor of newdir? */
  ghost predicate Beneath(nodes: Nodes, root: Id, depth: map<Id, nat>, newdir: Id, olddir: Id)
    requires Tree(nodes, root, depth) && newdir in nodes
  {
    newdir != root && (assert NodeOk(nodes, root, depth, newdir); Below(nodes, root, depth, nodes[newdir].parent, olddir))
  }

  /** It is enough to keep an entry of olddir from moving below itself. */
  lemma TestIsEnough(nodes: Nodes, root: Id, depth: map<Id, nat>, olddir: Id, newdir: Id, v: Id)
    requires Tree(nodes, root, depth) && olddir in nodes && newdir in nodes && v in nodes[olddir].kids
    requires !Beneath(nodes, root, depth, newdir, olddir)
    ensures v in nodes && !Below(nodes, root, depth, newdir, v)
  {
    assert NodeOk(nodes, root, depth, olddir) && NodeOk(nodes, root, depth, newdir);
    assert NodeOk(nodes, root, depth, v);
    if Below(nodes, root, depth, newdir, v) && newdir != root {
      BelowDeeper(nodes, root, depth, newdir, v);
      if newdir != v {
        BelowTrans(nodes, root, depth, nodes[newdir].parent, v, olddir);
      }
    }
  }

  // ---- looking up

  /** The entry of that name. */
  function Named(nodes: Nodes, kids: seq<Id>, name: string): (v: Option<Id>)
    requires forall k :: k in kids ==> k in nodes
    ensures v.Some? ==> v.value in kids && nodes[v.value].name == name
    ensures v == None ==> forall k :: k in kids ==> nodes[k].name != name
  {
    if kids == [] then None else if nodes[kids[0]].name == name then Some(kids[0]) else Named(nodes, kids[1..], name)
  }

  ghost predicate KidsIn(nodes: Nodes, d: Id) {
    d in nodes && forall k :: k in nodes[d].kids ==> k in nodes
  }

  /** The errors of rename, in the order it finds them.  stuck: the kernel refuses to let go of the vnode that would be
      replaced. */
  ghost function RenameError(nodes: Nodes, root: Id, depth: map<Id, nat>, olddir: Id, oldname: string, newdir: Id,
                             newname: string, stuck: bool): Error
    requires Tree(nodes, root, depth) && KidsIn(nodes, olddir) && KidsIn(nodes, newdir)
  {
    var v, lost := Named(nodes, nodes[olddir].kids, oldname), Named(nodes, nodes[newdir].kids, newname);
    if !nodes[olddir].dir || !nodes[newdir].dir then ENOTDIR
    else if oldname == "." || oldname == ".." then EPERM
    else if v == None then ENOENT
    else if newname == "." || newname == ".." then EPERM
    else if v == lost then Ok
    else if Beneath(nodes, root, depth, newdir, olddir) then EINVAL
    else if lost.Some? && nodes[lost.value].dir && nodes[lost.value].kids != [] then ENOTEMPTY
    else if lost.Some? && stuck then EVnode
    else Ok
  }

  predicate IsEntry(nodes: Nodes, d: Id, name: string, k: Id)
    requires KidsIn(nodes, d)
  {
    k in nodes[d].kids && nodes[k].name == name
  }

  ghost predicate HasEntry(nodes: Nodes, d: Id, name: string)
    requires KidsIn(nodes, d)
  {
    exists k: Id :: IsEntry(nodes, d, name, k)
  }

  predicate IsDot(name: string) {
    name == "." || name == ".."
  }

  /** Do both names lead to the same entry? */
  ghost predicate SameEntry(nodes: Nodes, olddir: Id, oldname: string, newdir: Id, newname: string)
    requires KidsIn(nodes, olddir) && KidsIn(nodes, newdir)
  {
    exists k: Id :: IsEntry(nodes, olddir, oldname, k) && IsEntry(nodes, newdir, newname, k)
  }

  /** Does the new name belong to a directory with entries? */
  ghost predicate OntoFull(nodes: Nodes, newdir: Id, newname: string)
    requires KidsIn(nodes, newdir)
  {
    exists k: Id :: IsEntry(nodes, newdir, newname, k) && nodes[k].dir && nodes[k].kids != []
  }

  /** A chain of parents leads from newdir up to olddir. */
  ghost predicate UpChain(nodes: Nodes, root: Id, newdir: Id, olddir: Id, chain: seq<Id>) {
    && |chain| > 1 && chain[0] == newdir && chain[|chain| - 1] == olddir
    && forall i :: 0 <= i < |chain| - 1 ==> chain[i] in nodes && chain[i] != root && nodes[chain[i]].parent == chain[i + 1]
  }

  ghost predicate IsAbove(nodes: Nodes, root: Id, newdir: Id, olddir: Id) {
    exists chain :: UpChain(nodes, root, newdir, olddir, chain)
  }

  /** When rename may go ahead, the names being those of entries as they should. */
  ghost predicate MayMove(nodes: Nodes, root: Id, olddir: Id, oldname: string, newdir: Id, newname: string, stuck: bool)
    requires KidsIn(nodes, olddir) && KidsIn(nodes, newdir)
  {
    || SameEntry(nodes, olddir, oldname, newdir, newname)
    || (&& !IsAbove(nodes, root, newdir, olddir) && !OntoFull(nodes, newdir, newname)
        && (HasEntry(nodes, newdir, newname) ==> !stuck))
  }

  /** What rename answers, error by error. */
  ghost predicate RenameSays(nodes: Nodes, root: Id, olddir: Id, oldname: string, newdir: Id, newname: string, stuck: bool, e: Error)
    requires KidsIn(nodes, olddir) && KidsIn(nodes, newdir)
  {
    var dirs := nodes[olddir].dir && nodes[newdir].dir;
    var named := dirs && !IsDot(oldname) && HasEntry(nodes, olddir, oldname) && !IsDot(newname);
    var moving := named && !SameEntry(nodes, olddir, oldname, newdir, newname);
    var clear := moving && !IsAbove(nodes, root, newdir, olddir);
    && (e == Ok <==> named && MayMove(nodes, root, olddir, oldname, newdir, newname, stuck))
    && (e == ENOTDIR <==> !dirs)
    && (e == EPERM <==> dirs && (IsDot(oldname) || (IsDot(newname) && HasEntry(nodes, olddir, oldname))))
    && (e == ENOENT <==> dirs && !IsDot(oldname) && !HasEntry(nodes, olddir, oldname))
    && (e == EINVAL <==> moving && IsAbove(nodes, root, newdir, olddir))
    && (e == ENOTEMPTY <==> clear && OntoFull(nodes, newdir, newname))
    && (e == EVnode <==> clear && !OntoFull(nodes, newdir, newname) && HasEntry(nodes, newdir, newname) && stuck)
  }

  /** The test of rename is whether olddir is an ancestor of newdir. */
  lemma {:induction false} BeneathIs(nodes: Nodes, root: Id, depth: map<Id, nat>, newdir: Id, olddir: Id)
    requires Tree(nodes, root, depth) && newdir in nodes
    ensures Beneath(nodes, root, depth, newdir, olddir) <==> IsAbove(nodes, root, newdir, olddir)
    decreases depth[newdir]
  {
    hide Tree;
    assert newdir in nodes && newdir in depth by { InTree(nodes, root, depth, newdir); }
    if newdir != root {
      var p := nodes[newdir].parent;
      InTree(nodes, root, depth, newdir);
      BelowIs(nodes, root, depth, newdir, olddir);
      BeneathIs(nodes, root, depth, p, olddir);
      if p == olddir {
        assert UpChain(nodes, root, newdir, olddir, [newdir, p]);
      } else if IsAbove(nodes, root, p, olddir) {
        var chain :| UpChain(nodes, root, p, olddir, chain);
        assert UpChain(nodes, root, newdir, olddir, [newdir] + chain);
      }
      if IsAbove(nodes, root, newdir, olddir) && p != olddir {
        var chain :| UpChain(nodes, root, newdir, olddir, chain);
        assert chain[1] == p;
        assert UpChain(nodes, root, p, olddir, chain[1..]);
      }
    } else {
      assert !IsAbove(nodes, root, newdir, olddir);
    }
  }

  lemma InTree(nodes: Nodes, root: Id, depth: map<Id, nat>, v: Id)
    requires Tree(nodes, root, depth) && v in nodes
    ensures v in depth && nodes[v].parent in nodes && nodes[v].parent in depth && (v != root ==> depth[nodes[v].parent] < depth[v])
  {
    assert NodeOk(nodes, root, depth, v);
  }

  lemma BelowIs(nodes: Nodes, root: Id, depth: map<Id, nat>, newdir: Id, olddir: Id)
    requires Tree(nodes, root, depth) && newdir in nodes && newdir != root
    ensures nodes[newdir].parent in nodes
    ensures Beneath(nodes, root, depth, newdir, olddir) <==>
            nodes[newdir].parent == olddir || Beneath(nodes, root, depth, nodes[newdir].parent, olddir)
  {
    assert NodeOk(nodes, root, depth, newdir);
  }

  /** Rename answers as it should. */
  lemma RenameAnswers(nodes: Nodes, root: Id, depth: map<Id, nat>, olddir: Id, oldname: string, newdir: Id, newname: string, stuck: bool)
    requires Tree(nodes, root, depth) && KidsIn(nodes, olddir) && KidsIn(nodes, newdir)
    ensures RenameSays(nodes, root, olddir, oldname, newdir, newname, stuck,
                       RenameError(nodes, root, depth, olddir, oldname, newdir, newname, stuck))
  {
    BeneathIs(nodes, root, depth, newdir, olddir);
    NamedIs(nodes, root, depth, olddir, oldname);
    NamedIs(nodes, root, depth, newdir, newname);
    hide Tree, Beneath, IsAbove, Named;
    var v, lost := Named(nodes, nodes[olddir].kids, oldname), Named(nodes, nodes[newdir].kids, newname);
    assert SameEntry(nodes, olddir, oldname, newdir, newname) <==> v.Some? && v == lost;
    assert OntoFull(nodes, newdir, newname) <==> lost.Some? && nodes[lost.value].dir && nodes[lost.value].kids != [];
  }

  lemma NamedIs(nodes: Nodes, root: Id, depth: map<Id, nat>, d: Id, name: string)
    requires Tree(nodes, root, depth) && KidsIn(nodes, d)
    ensures HasEntry(nodes, d, name) <==> Named(nodes, nodes[d].kids, name).Some?
    ensures forall k: Id :: IsEntry(nodes, d, name, k) <==> Named(nodes, nodes[d].kids, name) == Some(k)
  {
    assert NodeOk(nodes, root, depth, d);
    var v := Named(nodes, nodes[d].kids, name);
    assert v.Some? ==> IsEntry(nodes, d, name, v.value);
    forall k: Id | IsEntry(nodes, d, name, k) ensures v == Some(k) {
      NamedOnce(nodes, nodes[d].kids, name, k);
    }
  }

  /** No two entries of a directory have the same name. */
  lemma NamedOnce(nodes: Nodes, kids: seq<Id>, name: string, k: Id)
    requires Sorted(nodes, kids) && k in kids && nodes[k].name == name
    ensures Named(nodes, kids, name) == Some(k)
  {
    var v := Named(nodes, kids, name).value;
    var i, j :| 0 <= i < |kids| && 0 <= j < |kids| && kids[i] == v && kids[j] == k;
    Total(name, name);
  }

  /** Entry v has been taken out of d. */
  ghost predicate Took(nodes: Nodes, nodes': Nodes, d: Id, v: Id) {
    d in nodes && exists i: nat :: i < |nodes[d].kids| && nodes[d].kids[i] == v && nodes' == Taken(nodes, d, i)
  }

  lemma TookKids(nodes: Nodes, root: Id, depth: map<Id, nat>, nodes': Nodes, d: Id, v: Id, u: Id)
    requires Tree(nodes, root, depth) && Took(nodes, nodes', d, v) && u in nodes
    ensures u in nodes' && nodes'[u].(kids := nodes[u].kids) == nodes[u] && v in nodes' && v != root && Loose(nodes', v)
    ensures forall k :: k in nodes'[u].kids <==> k in nodes[u].kids && k != v
    ensures Tree(nodes', root, depth)
  {
    var i: nat :| i < |nodes[d].kids| && nodes[d].kids[i] == v && nodes' == Taken(nodes, d, i);
    TakenIs(nodes, root, depth, d, i);
    TakenTree(nodes, root, depth, d, i);
    assert NodeOk(nodes, root, depth, u) && NodeOk(nodes, root, depth, d);
    hide Sorted, Loose;
  }

  lemma TookBelow(nodes: Nodes, root: Id, depth: map<Id, nat>, nodes': Nodes, d: Id, v: Id, u: Id, a: Id)
    requires Tree(nodes, root, depth) && Took(nodes, nodes', d, v) && u in nodes && Tree(nodes', root, depth)
    ensures u in nodes' && Below(nodes', root, depth, u, a) == Below(nodes, root, depth, u, a)
  {
    var i: nat :| i < |nodes[d].kids| && nodes[d].kids[i] == v && nodes' == Taken(nodes, d, i);
    TakenBelow(nodes, root, depth, d, i, u, a);
  }

  /** From nodes to nodes1 what would be replaced has gone, if there is such an entry, and from nodes1 to nodes2 the
      entry has gone from where it was. */
  ghost predicate Cleared(nodes: Nodes, root: Id, depth: map<Id, nat>, olddir: Id, newdir: Id, v: Id, lost: Option<Id>,
                          nodes1: Nodes, nodes2: Nodes)
  {
    && Tree(nodes, root, depth) && Tree(nodes1, root, depth) && Took(nodes1, nodes2, olddir, v)
    && (match lost case None => nodes1 == nodes case Some(l) => Took(nodes, nodes1, newdir, l))
  }

  lemma ClearedKids(nodes: Nodes, root: Id, depth: map<Id, nat>, olddir: Id, newdir: Id, v: Id, lost: Option<Id>,
                    nodes1: Nodes, nodes2: Nodes, u: Id)
    requires Cleared(nodes, root, depth, olddir, newdir, v, lost, nodes1, nodes2) && u in nodes
    ensures u in nodes2 && v in nodes2 && v != root && Loose(nodes2, v) && Tree(nodes2, root, depth)
    ensures nodes2[u].(kids := nodes[u].kids) == nodes[u]
    ensures forall k :: k in nodes2[u].kids <==> k in nodes[u].kids && k != v && Some(k) != lost
    ensures forall a :: Below(nodes2, root, depth, u, a) == Below(nodes, root, depth, u, a)
  {
    hide Tree, Took, Loose, Below;
    if lost.Some? { TookKids(nodes, root, depth, nodes1, newdir, lost.value, u); }
    TookKids(nodes1, root, depth, nodes2, olddir, v, u);
    forall a ensures Below(nodes2, root, depth, u, a) == Below(nodes, root, depth, u, a) {
      if lost.Some? { TookBelow(nodes, root, depth, nodes1, newdir, lost.value, u, a); }
      TookBelow(nodes1, root, depth, nodes2, olddir, v, u, a);
    }
  }

  /** The entry may now be put where it is to be. */
  lemma ClearedReady(nodes: Nodes, root: Id, depth: map<Id, nat>, olddir: Id, newdir: Id, v: Id, lost: Option<Id>,
                     newname: string, nodes1: Nodes, nodes2: Nodes)
    requires Cleared(nodes, root, depth, olddir, newdir, v, lost, nodes1, nodes2)
    requires KidsIn(nodes, olddir) && KidsIn(nodes, newdir) && v in nodes[olddir].kids && nodes[newdir].dir
    requires lost == Named(nodes, nodes[newdir].kids, newname) && !Beneath(nodes, root, depth, newdir, olddir)
    ensures newdir in nodes2 && nodes2[newdir].dir && v in nodes2 && v != root && Loose(nodes2, v) && Tree(nodes2, root, depth)
    ensures !Below(nodes2, root, depth, newdir, v)
    ensures forall k :: k in nodes2[newdir].kids ==> k in nodes2 && nodes2[k].name != newname
  {
    TestIsEnough(nodes, root, depth, olddir, newdir, v);
    ClearedKids(nodes, root, depth, olddir, newdir, v, lost, nodes1, nodes2, newdir);
    assert NodeOk(nodes, root, depth, newdir);
    forall k | k in nodes2[newdir].kids ensures k in nodes2 && nodes2[k].name != newname {
      ClearedKids(nodes, root, depth, olddir, newdir, v, lost, nodes1, nodes2, k);
      if nodes[k].name == newname { NamedOnce(nodes, nodes[newdir].kids, newname, k); }
    }
  }

  /** And then all is as Renamed says. */
  lemma PutBackRenamed(nodes: Nodes, root: Id, depth: map<Id, nat>, olddir: Id, newdir: Id, v: Id, lost: Option<Id>,
                       newname: string, nodes1: Nodes, nodes2: Nodes, nodes3: Nodes)
    requires Cleared(nodes, root, depth, olddir, newdir, v, lost, nodes1, nodes2) && v in nodes && newdir in nodes && v != newdir
    requires KidsIn(nodes2, newdir) && v in nodes2 && nodes3 == Put(nodes2, v, newdir, newname)
    requires nodes2.Keys == nodes.Keys && forall k :: k in nodes2[newdir].kids ==> k in nodes2 && nodes2[k].name != newname
    ensures Renamed(nodes, nodes3, v, lost, newdir, newname)
  {
    hide Cleared, Tree, Loose, Below;
    forall u | u in nodes
      ensures nodes3[u].(kids := nodes[u].kids) == if u == v then nodes[u].(name := newname, parent := newdir) else nodes[u]
      ensures forall k :: k in nodes3[u].kids <==> (k in nodes[u].kids && k != v && Some(k) != lost) || (u == newdir && k == v)
    {
      ClearedKids(nodes, root, depth, olddir, newdir, v, lost, nodes1, nodes2, u);
      PutKids(nodes2, root, depth, v, newdir, newname, u);
    }
  }

  // ---- new nodes and flags

  lemma AddLoose(nodes: Nodes, root: Id, depth: map<Id, nat>, v: Id, d: Id, n: Node)
    requires Tree(nodes, root, depth) && v !in nodes && d in nodes && nodes[d].dir
    requires n.parent == d && n.kids == []
    ensures Tree(nodes[v := n], root, depth[v := depth[d] + 1]) && Loose(nodes[v := n], v)
  {
    var nodes', depth' := nodes[v := n], depth[v := depth[d] + 1];
    AddLooseNew(nodes, root, depth, v, d, n);
    forall u | u in nodes' ensures NodeOk(nodes', root, depth', u) && v !in nodes'[u].kids {
      if u != v {
        AddLooseOld(nodes, root, depth, v, d, n, u);
      }
    }
    hide NodeOk;
  }

  lemma AddLooseNew(nodes: Nodes, root: Id, depth: map<Id, nat>, v: Id, d: Id, n: Node)
    requires Tree(nodes, root, depth) && v !in nodes && d in nodes && nodes[d].dir
    requires n.parent == d && n.kids == []
    ensures NodeOk(nodes[v := n], root, depth[v := depth[d] + 1], v) && root in nodes
  {
    assert NodeOk(nodes, root, depth, d);
  }

  lemma AddLooseOld(nodes: Nodes, root: Id, depth: map<Id, nat>, v: Id, d: Id, n: Node, u: Id)
    requires Tree(nodes, root, depth) && v !in nodes && d in nodes && u in nodes
    ensures NodeOk(nodes[v := n], root, depth[v := depth[d] + 1], u) && v !in nodes[u].kids
  {
    assert NodeOk(nodes, root, depth, u);
    SameNames(nodes, nodes[v := n], nodes[u].kids);
  }

  /** Nothing is below a node that has just been made. */
  lemma {:induction false} NoneBelow(nodes: Nodes, root: Id, depth: map<Id, nat>, v: Id, u: Id)
    requires Tree(nodes, root, depth) && v in nodes && u in nodes && u != v
    requires forall w :: w in nodes && nodes[w].parent == v ==> w == v
    ensures !Below(nodes, root, depth, u, v)
    decreases depth[u]
  {
    assert NodeOk(nodes, root, depth, u);
    if u != root {
      NoneBelow(nodes, root, depth, v, nodes[u].parent);
    }
  }

  lemma Flagged(nodes: Nodes, root: Id, depth: map<Id, nat>, v: Id)
    requires Tree(nodes, root, depth) && v in nodes
    ensures Tree(nodes[v := nodes[v].(removed := true)], root, depth)
  {
    var nodes' := nodes[v := nodes[v].(removed := true)];
    assert NodeOk(nodes, root, depth, root);
    forall u | u in nodes' ensures NodeOk(nodes', root, depth, u) {
      assert NodeOk(nodes, root, depth, u);
      SameNames(nodes, nodes', nodes[u].kids);
    }
  }

  /** v is a new entry of d; nothing else changes. */
  ghost predicate Created(nodes: Nodes, nodes': Nodes, v: Id, d: Id, name: string, dir: bool) {
    && v !in nodes && nodes'.Keys == nodes.Keys + {v} && nodes'[v] == Node(name, dir, d, false, [])
    && (forall u :: u in nodes ==> nodes'[u].(kids := nodes[u].kids) == nodes[u])
    && (forall u, k {:trigger k in nodes'[u].kids} :: u in nodes ==>
          (k in nodes'[u].kids <==> k in nodes[u].kids || (u == d && k == v)))
  }

  /** v is no entry any more and marked so; nothing else changes. */
  ghost predicate Unlinked(nodes: Nodes, nodes': Nodes, v: Id) {
    && v in nodes && nodes'.Keys == nodes.Keys
    && (forall u :: u in nodes ==>
          nodes'[u].(kids := nodes[u].kids) == if u == v then nodes[u].(removed := true) else nodes[u])
    && (forall u, k {:trigger k in nodes'[u].kids} :: u in nodes ==>
          (k in nodes'[u].kids <==> k in nodes[u].kids && k != v))
  }

  /** A new entry is found from the root just if its directory is. */
  lemma CreateReach(nodes: Nodes, root: Id, depth: map<Id, nat>, v: Id, d: Id, name: string, dir: bool,
                    nodes': Nodes, depth': map<Id, nat>, u: Id)
    requires Tree(nodes, root, depth) && Tree(nodes', root, depth') && d in nodes
    requires Created(nodes, nodes', v, d, name, dir) && u in nodes'
    ensures Reachable(nodes', root, depth', u) <==> Reachable(nodes, root, depth, if u == v then d else u)
    decreases depth'[u]
  {
    hide Reachable, Tree, NodeOk;
    TreeRoot(nodes, root, depth);
    if u == root {
      ReachRoot(nodes, root, depth);
      ReachRoot(nodes', root, depth');
    } else {
      ReachUnfold(nodes', root, depth', u);
      var p := nodes'[u].parent;
      if u == v {
        assert u in nodes'[d].kids;
      } else {
        assert nodes'[u].(kids := nodes[u].kids) == nodes[u];
        ReachUnfold(nodes, root, depth, u);
        assert u in nodes'[p].kids <==> u in nodes[p].kids;
      }
      CreateReach(nodes, root, depth, v, d, name, dir, nodes', depth', p);
    }
  }

  lemma TreeRoot(nodes: Nodes, root: Id, depth: map<Id, nat>)
    requires Tree(nodes, root, depth)
    ensures root in nodes
  {
  }

  /** Unlinking an entry without entries of its own loses just that. */
  lemma UnlinkReach(nodes: Nodes, root: Id, depth: map<Id, nat>, v: Id, nodes': Nodes, depth': map<Id, nat>, u: Id)
    requires Tree(nodes, root, depth) && Tree(nodes', root, depth') && v != root && u in nodes
    requires Unlinked(nodes, nodes', v) && nodes[v].kids == []
    ensures Reachable(nodes', root, depth', u) <==> Reachable(nodes, root, depth, u) && u != v
    decreases depth'[u]
  {
    hide Reachable, Tree, NodeOk;
    if u == root {
      ReachRoot(nodes, root, depth);
      ReachRoot(nodes', root, depth');
    } else {
      ReachUnfold(nodes', root, depth', u);
      ReachUnfold(nodes, root, depth, u);
      assert nodes'[u].(kids := nodes[u].kids) == if u == v then nodes[u].(removed := true) else nodes[u];
      var p := nodes[u].parent;
      assert u in nodes'[p].kids <==> u in nodes[p].kids && u != v;
      UnlinkReach(nodes, root, depth, v, nodes', depth', p);
    }
  }

  /** Does the entry have its name still, when rename has given e?  It has been refused after making room for the new
      name, if that is longer. */
  predicate KeepsName(e: Error, oldname: string, newname: string) {
    (e == ENOTEMPTY || e == EVnode) ==> |newname| <= |oldname|
  }

  /** The root with a file "a" and a directory "bb" that has an entry. */
  function FileAndFull(): Nodes {
    map[0 := Node("", true, 0, false, [1, 2]), 1 := Node("a", false, 0, false, []), 2 := Node("bb", true, 0, false, [3]),
        3 := Node("c", false, 2, false, [])]
  }

  lemma NameLost()
    ensures var depth := map[0 := 0, 1 := 1, 2 := 1, 3 := 2];
      && Tree(FileAndFull(), 0, depth) && KidsIn(FileAndFull(), 0)
      && RenameError(FileAndFull(), 0, depth, 0, "a", 0, "bb", false) == ENOTEMPTY && !KeepsName(ENOTEMPTY, "a", "bb")
  {
    FileAndFullTree();
    hide Tree, NodeOk, Beneath, FileAndFull;
    assert !Beneath(FileAndFull(), 0, map[0 := 0, 1 := 1, 2 := 1, 3 := 2], 0, 0) by { AtTop(FileAndFull(), 0, map[0 := 0, 1 := 1, 2 := 1, 3 := 2], 0); }
  }

  lemma AtTop(nodes: Nodes, root: Id, depth: map<Id, nat>, d: Id)
    requires Tree(nodes, root, depth)
    ensures root in nodes && !Beneath(nodes, root, depth, root, d)
  {
  }

  lemma FileAndFullTree()
    ensures Tree(FileAndFull(), 0, map[0 := 0, 1 := 1, 2 := 1, 3 := 2]) && KidsIn(FileAndFull(), 0)
    ensures var nodes := FileAndFull();
      && 0 in nodes && 2 in nodes && nodes[0].dir && nodes[2].dir && nodes[2].kids != []
      && Named(nodes, nodes[0].kids, "a") == Some(1) && Named(nodes, nodes[0].kids, "bb") == Some(2)
  {
    var nodes, depth := FileAndFull(), map[0 := 0, 1 := 1, 2 := 1, 3 := 2];
    assert NodeOk(nodes, 0, depth, 0) && NodeOk(nodes, 0, depth, 1) && NodeOk(nodes, 0, depth, 2) && NodeOk(nodes, 0, depth, 3);
    assert nodes[0].kids[1..] == [2];
  }

  /** Entry v of olddir moved to newdir. */
  ghost predicate MovesWell(nodes: Nodes, root: Id, olddir: Id, i: nat, newdir: Id, name: string)
    requires KidsIn(nodes, olddir) && KidsIn(nodes, newdir) && i < |nodes[olddir].kids| && nodes[olddir].kids[i] != newdir
  {
    exists depth' :: Tree(Put(Taken(nodes, olddir, i), nodes[olddir].kids[i], newdir, name), root, depth')
  }

  /** The test of rename refuses more than it must: a refusal is needless, the tree being one after the move, exactly if
      olddir is above newdir but the entry is not. */
  lemma RefusesHarmless(nodes: Nodes, root: Id, depth: map<Id, nat>, olddir: Id, i: nat, newdir: Id, name: string)
    requires Tree(nodes, root, depth) && KidsIn(nodes, olddir) && KidsIn(nodes, newdir) && i < |nodes[olddir].kids| && nodes[newdir].dir
    requires Beneath(nodes, root, depth, newdir, olddir) && forall k :: k in nodes[newdir].kids ==> nodes[k].name != name
    ensures nodes[olddir].kids[i] != newdir && MovesWell(nodes, root, olddir, i, newdir, name) <==>
            !Below(nodes, root, depth, newdir, nodes[olddir].kids[i])
  {
    var v := nodes[olddir].kids[i];
    if v == newdir {
    } else if Below(nodes, root, depth, newdir, v) {
      if MovesWell(nodes, root, olddir, i, newdir, name) {
        var depth' :| Tree(Put(Taken(nodes, olddir, i), v, newdir, name), root, depth');
        MovedBelow(nodes, root, depth, olddir, i, newdir, name, depth', newdir);
        assert NodeOk(Put(Taken(nodes, olddir, i), v, newdir, name), root, depth', v);
        TakenIs(nodes, root, depth, olddir, i);
      }
    } else {
      assert NodeOk(nodes, root, depth, newdir);
      BelowDeeper(nodes, root, depth, nodes[newdir].parent, olddir);
      HarmlessMove(nodes, root, depth, olddir, i, newdir, name);
    }
  }

  lemma HarmlessMove(nodes: Nodes, root: Id, depth: map<Id, nat>, olddir: Id, i: nat, newdir: Id, name: string)
    requires Tree(nodes, root, depth) && KidsIn(nodes, olddir) && KidsIn(nodes, newdir) && i < |nodes[olddir].kids| && nodes[newdir].dir
    requires forall k :: k in nodes[newdir].kids ==> nodes[k].name != name
    requires newdir != olddir && !Below(nodes, root, depth, newdir, nodes[olddir].kids[i])
    ensures nodes[olddir].kids[i] != newdir && MovesWell(nodes, root, olddir, i, newdir, name)
  {
    var v, nodes1 := nodes[olddir].kids[i], Taken(nodes, olddir, i);
    TakenTree(nodes, root, depth, olddir, i);
    TakenIs(nodes, root, depth, olddir, i);
    TakenBelow(nodes, root, depth, olddir, i, newdir, v);
    hide Tree, Below, Loose;
    PutTree(nodes1, root, depth, v, newdir, name);
  }

  /** Where v would be, what is below it now is deeper than it. */
  lemma {:induction false} MovedBelow(nodes: Nodes, root: Id, depth: map<Id, nat>, olddir: Id, i: nat, newdir: Id, name: string,
                                      depth': map<Id, nat>, u: Id)
    requires Tree(nodes, root, depth) && KidsIn(nodes, olddir) && KidsIn(nodes, newdir) && i < |nodes[olddir].kids|
    requires nodes[olddir].kids[i] != newdir && u in nodes && Below(nodes, root, depth, u, nodes[olddir].kids[i])
    requires Tree(Put(Taken(nodes, olddir, i), nodes[olddir].kids[i], newdir, name), root, depth')
    ensures u in depth' && nodes[olddir].kids[i] in depth' && depth'[u] >= depth'[nodes[olddir].kids[i]]
    decreases depth[u]
  {
    var v, nodes' := nodes[olddir].kids[i], Put(Taken(nodes, olddir, i), nodes[olddir].kids[i], newdir, name);
    assert NodeOk(nodes, root, depth, u) && NodeOk(nodes', root, depth', u);
    if u != v {
      MovedBelow(nodes, root, depth, olddir, i, newdir, name, depth', nodes[u].parent);
    }
  }

  /** What a rename that succeeds replaces is an entry without entries. */
  lemma RenameLost(nodes: Nodes, root: Id, depth: map<Id, nat>, olddir: Id, oldname: string, newdir: Id,
                   newname: string, stuck: bool)
    requires Tree(nodes, root, depth) && KidsIn(nodes, olddir) && KidsIn(nodes, newdir)
    requires RenameError(nodes, root, depth, olddir, oldname, newdir, newname, stuck) == Ok
    ensures var v, lost := Named(nodes, nodes[olddir].kids, oldname), Named(nodes, nodes[newdir].kids, newname);
      v.Some? && v.value != root && lost != Some(root) && (v != lost ==> LostOk(nodes, v.value, lost, newdir))
  {
    var lost := Named(nodes, nodes[newdir].kids, newname);
    assert NodeOk(nodes, root, depth, newdir) && NodeOk(nodes, root, depth, olddir);
    if lost.Some? { assert NodeOk(nodes, root, depth, lost.value); }
    hide Beneath;
  }

  // ---- the code

  class FileSystem {
    const root: Id
    var nodes: Nodes
    var nxvnid: nat
    ghost var depth: map<Id, nat>
    /** The entries whose name is in storage that has been given back. */
    ghost var dead: set<Id>

    ghost predicate Sound()
      reads this
    {
      Tree(nodes, root, depth) && forall v :: v in nodes ==> v <= nxvnid
    }

    ghost predicate Valid()
      reads this
    {
      Sound() && dead == {}
    }

    constructor (root: Id)
      ensures Valid() && this.root == root && nodes == map[root := Node("", true, root, false, [])]
    {
      this.root, nxvnid := root, root;
      nodes, depth, dead := map[root := Node("", true, root, false, [])], map[root := 0], {};
    }

    lemma KidsOk(d: Id)
      requires Sound() && d in nodes
      ensures Sorted(nodes, nodes[d].kids)
      ensures forall k :: k in nodes[d].kids ==> k in nodes && k != root && nodes[k].parent == d
    {
      assert NodeOk(nodes, root, depth, d);
    }

    /** The entry of that name in d. */
    method Find(d: Id, name: string) returns (v: Option<Id>)
      requires KidsIn(nodes, d)
      ensures v == Named(nodes, nodes[d].kids, name)
    {
      var kids := nodes[d].kids;
      var i := 0;
      while i < |kids| && nodes[kids[i]].name != name
        invariant i <= |kids| && Named(nodes, kids, name) == Named(nodes, kids[i..], name)
      {
        assert kids[i..][1..] == kids[i + 1..];
        i := i + 1;
      }
      v := if i < |kids| then Some(kids[i]) else None;
    }

    /** The walk up from newdir, looking for olddir. */
    method Above(olddir: Id, newdir: Id) returns (above: bool)
      requires Sound() && newdir in nodes
      ensures above == Beneath(nodes, root, depth, newdir, olddir)
    {
      hide NodeOk;
      var avn := newdir;
      while avn != root
        invariant avn in nodes && Beneath(nodes, root, depth, newdir, olddir) == Beneath(nodes, root, depth, avn, olddir)
        decreases depth[avn]
      {
        ParentOk(avn);
        BeneathStep(avn, olddir);
        avn := nodes[avn].parent;
        if avn == olddir {
          return true;
        }
      }
      above := false;
    }

    lemma ParentOk(v: Id)
      requires Sound() && v in nodes
      ensures nodes[v].parent in nodes && (v != root ==> depth[nodes[v].parent] < depth[v])
    {
      assert NodeOk(nodes, root, depth, v);
    }

    lemma BeneathStep(v: Id, a: Id)
      requires Sound() && v in nodes && v != root
      ensures nodes[v].parent in nodes
      ensures Beneath(nodes, root, depth, v, a) <==> nodes[v].parent == a || Beneath(nodes, root, depth, nodes[v].parent, a)
    {
      assert NodeOk(nodes, root, depth, v);
    }

    /** Unlink entry v from the list of d. */
    method TakeOut(d: Id, v: Id)
      requires Sound() && d in nodes && v in nodes[d].kids
      modifies this`nodes
      ensures Sound() && Took(old(nodes), nodes, d, v) && nodes.Keys == old(nodes).Keys
    {
      hide NodeOk;
      var j := 0;
      while nodes[d].kids[j] != v
        invariant j < |nodes[d].kids| && v in nodes[d].kids[j..]
        decreases |nodes[d].kids| - j
      {
        j := j + 1;
      }
      TakenTree(nodes, root, depth, d, j);
      nodes := Taken(nodes, d, j);
    }

    /** The place for a name among the sorted names in d. */
    method Slot(d: Id, name: string) returns (i: nat)
      requires KidsIn(nodes, d)
      ensures i == Place(nodes, nodes[d].kids, name)
    {
      var kids := nodes[d].kids;
      i := 0;
      while i < |kids| && Compare(name, nodes[kids[i]].name) > 0
        invariant i <= |kids| && Place(nodes, kids, name) == i + Place(nodes, kids[i..], name)
      {
        Total(name, nodes[kids[i]].name);
        assert kids[i..][1..] == kids[i + 1..];
        i := i + 1;
      }
      if i < |kids| {
        Total(name, nodes[kids[i]].name);
      }
    }

    /** Link v into the list of d, after the names before its own. */
    method PutIn(v: Id, d: Id, name: string)
      requires Sound() && Loose(nodes, v) && v != root && d in nodes && nodes[d].dir && !Below(nodes, root, depth, d, v)
      requires forall k :: k in nodes[d].kids ==> k in nodes && nodes[k].name != name
      modifies this`nodes, this`depth
      ensures v != d && Sound() && nodes == Put(old(nodes), v, d, name)
      ensures depth == Redepth(old(nodes), root, old(depth), v, d)
    {
      PutTree(nodes, root, depth, v, d, name);
      hide Tree, Below, Loose;
      var kids := nodes[d].kids;
      var i := Slot(d, name);
      depth := Redepth(nodes, root, depth, v, d);
      nodes := nodes[d := nodes[d].(kids := kids[..i] + [v] + kids[i..])][v := nodes[v].(name := name, parent := d)];
    }

    /** realloc makes room for the new name before the last checks; a rename refused after that leaves the entry with
        a name in storage that is given back, just if the new name is longer. */
    method Rename(olddir: Id, oldname: string, newdir: Id, newname: string, stuck: bool) returns (e: Error)
      requires Valid() && KidsIn(nodes, olddir) && KidsIn(nodes, newdir)
      modifies this
      ensures Sound() && nxvnid == old(nxvnid)
      ensures Valid() <==> ((e == ENOTEMPTY || e == EVnode) ==> |newname| <= |oldname|)
      ensures !KeepsName(e, oldname, newname) ==> (var v := Named(old(nodes), old(nodes)[olddir].kids, oldname); v.Some? && dead == {v.value})
      ensures RenameSays(old(nodes), root, olddir, oldname, newdir, newname, stuck, e)
      ensures var v, lost := Named(old(nodes), old(nodes)[olddir].kids, oldname), Named(old(nodes), old(nodes)[newdir].kids, newname);
        if e == Ok && v != lost then v.Some? && Renamed(old(nodes), nodes, v.value, lost, newdir, newname)
        else nodes == old(nodes)
    {
      RenameAnswers(nodes, root, depth, olddir, oldname, newdir, newname, stuck);
      hide Tree, Below, Beneath, Renamed, Named, RenameSays;
      if !nodes[olddir].dir || !nodes[newdir].dir {
        return ENOTDIR;
      }
      if oldname == "." || oldname == ".." {
        return EPERM;
      }
      var found := Find(olddir, oldname);
      if found == None {
        return ENOENT;
      }
      if newname == "." || newname == ".." {
        return EPERM;
      }
      var lost := Find(newdir, newname);
      if found == lost {
        return Ok;
      }
      var above := Above(olddir, newdir);
      if above {
        return EINVAL;
      }
      if |newname| > |nodes[found.value].name| {
        dead := dead + {found.value};
      }
      if lost.Some? {
        if nodes[lost.value].dir && nodes[lost.value].kids != [] {
          return ENOTEMPTY;
        }
        if stuck {
          return EVnode;
        }
      }
      Relink(olddir, newdir, found.value, lost, newname);
      dead := dead - {found.value};
      e := Ok;
    }

    /** The part of rename that changes things. */
    method Relink(olddir: Id, newdir: Id, v: Id, lost: Option<Id>, newname: string)
      requires Sound() && KidsIn(nodes, olddir) && KidsIn(nodes, newdir) && nodes[newdir].dir
      requires v in nodes[olddir].kids && lost == Named(nodes, nodes[newdir].kids, newname) && lost != Some(v)
      requires !Beneath(nodes, root, depth, newdir, olddir)
      modifies this`nodes, this`depth
      ensures Sound() && v in old(nodes) && Renamed(old(nodes), nodes, v, lost, newdir, newname)
    {
      hide Tree, Below, Beneath, Named, Loose, Took;
      ghost var nodes0, depth0 := nodes, depth;
      if lost.Some? {
        TakeOut(newdir, lost.value);
        TookKids(nodes0, root, depth, nodes, newdir, lost.value, olddir);
      }
      ghost var nodes1 := nodes;
      TakeOut(olddir, v);
      ghost var nodes2 := nodes;
      ClearedReady(nodes0, root, depth, olddir, newdir, v, lost, newname, nodes1, nodes2);
      PutIn(v, newdir, newname);
      PutBackRenamed(nodes0, root, depth0, olddir, newdir, v, lost, newname, nodes1, nodes2, nodes);
    }

    // ---- creating and removing

    /** do_create's own search, which stops at the first name that comes later. */
    method Present(d: Id, name: string) returns (found: bool)
      requires KidsIn(nodes, d) && Sorted(nodes, nodes[d].kids)
      ensures found <==> exists k :: k in nodes[d].kids && nodes[k].name == name
    {
      var kids := nodes[d].kids;
      var i := 0;
      while i < |kids|
        invariant i <= |kids| && forall j :: 0 <= j < i ==> nodes[kids[j]].name != name
      {
        var c := Compare(name, nodes[kids[i]].name);
        Total(name, nodes[kids[i]].name);
        if c < 0 {
          Later(kids, i, name);
          return false;
        }
        if c == 0 {
          assert kids[i] in kids;
          return true;
        }
        i := i + 1;
      }
      found := false;
    }

    lemma Later(kids: seq<Id>, i: nat, name: string)
      requires Sorted(nodes, kids) && i < |kids| && Less(name, nodes[kids[i]].name)
      ensures forall j :: i <= j < |kids| ==> nodes[kids[j]].name != name
    {
      forall j | i <= j < |kids| ensures nodes[kids[j]].name != name {
        if j > i { LessTrans(name, nodes[kids[i]].name, nodes[kids[j]].name); }
        Total(name, nodes[kids[j]].name);
      }
    }

    method Create(d: Id, name: string, dir: bool) returns (e: Error, v: Id)
      requires Valid() && KidsIn(nodes, d)
      modifies this
      ensures Valid()
      ensures e == if !old(nodes)[d].dir then ENOTDIR
                   else if old(nodes)[d].removed then ENOENT
                   else if name == "." || name == ".." then EEXIST
                   else if Named(old(nodes), old(nodes)[d].kids, name).Some? then EEXIST
                   else Ok
      ensures if e == Ok then Created(old(nodes), nodes, v, d, name, dir) else nodes == old(nodes)
    {
      v := 0;
      if !nodes[d].dir {
        return ENOTDIR, 0;
      }
      if nodes[d].removed {
        return ENOENT, 0;
      }
      if name == "." || name == ".." {
        return EEXIST, 0;
      }
      KidsOk(d);
      var found := Present(d, name);
      if found {
        return EEXIST, 0;
      }
      hide Tree, Below, Named, Created;
      nxvnid := nxvnid + 1;
      v := nxvnid;
      NewEntry(v, d, name, dir);
      e := Ok;
    }

    /** The part of do_create that changes things. */
    method NewEntry(v: Id, d: Id, name: string, dir: bool)
      requires Tree(nodes, root, depth) && KidsIn(nodes, d) && nodes[d].dir && v == nxvnid && dead == {}
      requires forall u :: u in nodes ==> u < v
      requires forall k :: k in nodes[d].kids ==> nodes[k].name != name
      modifies this`nodes, this`depth
      ensures Valid() && Created(old(nodes), nodes, v, d, name, dir)
    {
      hide Tree, Below, Loose, Created;
      ghost var nodes0, depth0, n := nodes, depth, Node(name, dir, d, false, []);
      AddLoose(nodes, root, depth, v, d, n);
      Childless(nodes, root, depth, v);
      HasRoot();
      nodes, depth := nodes[v := Node(name, dir, d, false, [])], depth[v := depth[d] + 1];
      NoneBelow(nodes, root, depth, v, d);
      ghost var nodes1, depth1 := nodes, depth;
      PutIn(v, d, name);
      IsCreated(nodes0, nodes1, root, depth1, v, d, name, dir);
    }

    static lemma IsCreated(nodes0: Nodes, nodes1: Nodes, root: Id, depth: map<Id, nat>, v: Id, d: Id, name: string, dir: bool)
      requires v !in nodes0 && nodes1 == nodes0[v := Node(name, dir, d, false, [])] && d in nodes0 && v != root
      requires Tree(nodes1, root, depth) && Loose(nodes1, v)
      requires forall k :: k in nodes1[d].kids ==> k in nodes1 && nodes1[k].name != name
      ensures Created(nodes0, Put(nodes1, v, d, name), v, d, name, dir)
    {
      hide Tree, Loose, WithKid;
      var nodes3 := Put(nodes1, v, d, name);
      forall u | u in nodes1 ensures forall k :: k in nodes3[u].kids <==> k in nodes1[u].kids || (u == d && k == v) {
        PutKids(nodes1, root, depth, v, d, name, u);
      }
      assert nodes3[v].kids == [];
    }

    lemma HasRoot()
      requires Tree(nodes, root, depth)
      ensures root in nodes && depth.Keys == nodes.Keys
    {
    }

    static lemma Childless(nodes: Nodes, root: Id, depth: map<Id, nat>, v: Id)
      requires Tree(nodes, root, depth) && v !in nodes
      ensures forall u :: u in nodes ==> nodes[u].parent != v
    {
      forall u | u in nodes ensures nodes[u].parent != v {
        assert NodeOk(nodes, root, depth, u);
      }
    }

    method Unlink(d: Id, name: string, isdir: bool, stuck: bool) returns (e: Error)
      requires Valid() && KidsIn(nodes, d)
      modifies this
      ensures Valid()
      ensures var v := Named(old(nodes), old(nodes)[d].kids, name);
        && e == (if !old(nodes)[d].dir then ENOTDIR
                 else if name == "." || name == ".." then EINVAL
                 else if v == None then ENOENT
                 else if isdir && !old(nodes)[v.value].dir then ENOTDIR
                 else if !isdir && old(nodes)[v.value].dir then EISDIR
                 else if old(nodes)[v.value].dir && old(nodes)[v.value].kids != [] then ENOTEMPTY
                 else if stuck then EVnode
                 else Ok)
        && if e == Ok then v.Some? && Unlinked(old(nodes), nodes, v.value) else nodes == old(nodes)
    {
      hide Tree, Named, Unlinked;
      if !nodes[d].dir {
        return ENOTDIR;
      }
      if name == ".." || name == "." {
        return EINVAL;
      }
      var v := Find(d, name);
      if v == None {
        return ENOENT;
      }
      if isdir && !nodes[v.value].dir {
        return ENOTDIR;
      }
      if !isdir && nodes[v.value].dir {
        return EISDIR;
      }
      if nodes[v.value].dir && nodes[v.value].kids != [] {
        return ENOTEMPTY;
      }
      if stuck {
        return EVnode;
      }
      Detach(d, v.value);
      e := Ok;
    }

    /** The part of do_unlink that changes things. */
    method Detach(d: Id, v: Id)
      requires Valid() && KidsIn(nodes, d) && v in nodes[d].kids
      modifies this`nodes
      ensures Valid() && Unlinked(old(nodes), nodes, v)
    {
      hide Tree, Took, Loose;
      ghost var nodes0 := nodes;
      TakeOut(d, v);
      forall u | u in nodes0
        ensures nodes[u].(kids := nodes0[u].kids) == nodes0[u]
        ensures forall k :: k in nodes[u].kids <==> k in nodes0[u].kids && k != v
      {
        TookKids(nodes0, root, depth, nodes, d, v, u);
      }
      Flagged(nodes, root, depth, v);
      nodes := nodes[v := nodes[v].(removed := true)];
    }
  }
}
