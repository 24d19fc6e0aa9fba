// The inventory as it is edited: group nodes on the heap, changed in place.
//
// A loaded file is a tree: no node is shared.  `repr` bounds the nodes below (and including) a node.
module InventoryTree {
  import opened Options
  import opened Inventory
  import opened Rehoming
  import opened GroupDeletion

  datatype Entry = Ref(node: GroupNode) | Raw(raw: int)

  datatype Kid = Kid(name: string, entry: Entry)

  datatype Kids = NoKids | KidMap(kids: seq<Kid>) | KidList(names: seq<string>) | OtherKids(raw: int)

  class GroupNode {
    var hosts: Hosts
    var kids: Kids
    const others: int
    ghost var repr: set<GroupNode>

    ghost predicate Valid()
      reads `kids, `repr, repr`kids, repr`repr
      decreases repr, 0
    {
      this in repr && (kids.KidMap? ==> Forest(kids.kids, repr - {this}))
    }

    // The value this node and everything below it stand for.
    ghost function Model(): Node
      requires Valid()
      reads this, repr
      decreases repr, 0
    {
      Group(hosts,
            match kids
              case NoKids => NoChildren
              case KidMap(ks) => ChildMap(Models(ks, repr - {this}))
              case KidList(names) => ChildList(names)
              case OtherKids(raw) => OtherChildren(raw),
            others)
    }

    constructor (hosts: Hosts)
      ensures Valid() && repr == {this} && fresh(this) && Model() == Group(hosts, NoChildren, 0)
    {
      this.hosts, kids, others, repr := hosts, NoKids, 0, {this};
    }
  }

  ghost predicate Inside(n: GroupNode, inside: set<GroupNode>)
    reads inside`kids, inside`repr
    decreases inside, 1
  {
    n in inside && n.repr <= inside && n.Valid()
  }

  // A mapping of children: valid subtrees within the bound, no two of them overlapping.
  ghost predicate Forest(kids: seq<Kid>, inside: set<GroupNode>)
    reads inside`kids, inside`repr
    decreases inside, 2
  {
    && (forall i :: 0 <= i < |kids| && kids[i].entry.Ref? ==> Inside(kids[i].entry.node, inside))
    && (forall i, j :: 0 <= i < j < |kids| && kids[i].entry.Ref? && kids[j].entry.Ref? ==>
          kids[i].entry.node.repr !! kids[j].entry.node.repr)
  }

  ghost function EntryModel(e: Entry, inside: set<GroupNode>): Node
    requires e.Ref? ==> Inside(e.node, inside)
    reads inside
    decreases inside, 1
  {
    if e.Ref? then e.node.Model() else NotAGroup(e.raw)
  }

  ghost function Models(kids: seq<Kid>, inside: set<GroupNode>): (r: seq<Child>)
    requires Forest(kids, inside)
    ensures |r| == |kids|
    ensures forall i :: 0 <= i < |kids| ==> r[i] == Child(kids[i].name, EntryModel(kids[i].entry, inside))
    reads inside
    decreases inside, 2, |kids|
  {
    if kids == [] then []
    else
      assert forall i :: 0 <= i < |kids[1..]| ==> kids[1..][i] == kids[i + 1];
      [Child(kids[0].name, EntryModel(kids[0].entry, inside))] + Models(kids[1..], inside)
  }

  // What a mapping of children says about the subtree of its i-th entry.
  lemma {:induction false} Subtree(kids: seq<Kid>, inside: set<GroupNode>, i: nat)
    requires Forest(kids, inside) && i < |kids| && kids[i].entry.Ref?
    ensures var n := kids[i].entry.node;
            && n.Valid() && n in n.repr && n in inside && n.repr <= inside
            && (n.kids.KidMap? ==> Forest(n.kids.kids, n.repr - {n}))
            && Models(kids, inside)[i] == Child(kids[i].name, n.Model())
            && (n.kids.KidMap? ==> n.Model().children == ChildMap(Models(n.kids.kids, n.repr - {n})))
            && (!n.kids.KidMap? ==> !n.Model().children.ChildMap?)
  {
    assert Inside(kids[i].entry.node, inside);
  }

  // ----- removing a host everywhere -----

  lemma {:induction false} WalkAllMembers(groups: seq<Child>, host: string)
    ensures WalkAll(groups, host) != {} <==> exists i :: 0 <= i < |groups| && Walk(groups[i].node, groups[i].name, host) != {}
  {
    if groups != [] {
      WalkAllMembers(groups[1..], host);
      if i :| 0 <= i < |groups[1..]| && Walk(groups[1..][i].node, groups[1..][i].name, host) != {} {
        assert groups[i + 1] == groups[1..][i];
      }
      if i :| 0 <= i < |groups| && Walk(groups[i].node, groups[i].name, host) != {} {
        if i > 0 { assert groups[1..][i - 1] == groups[i]; }
      }
    }
  }

  // Deletes the host from one group's own hosts.
  method RemoveFromHosts(g: GroupNode, host: string) returns (changed: bool)
    modifies g`hosts
    ensures g.hosts == HostsWithout(old(g.hosts), host)
    ensures changed <==> Listed(old(g.hosts), host)
  {
    changed := false;
    match g.hosts
    case HostMap(entries) =>
      if HasKey(entries, Str(host)) {
        var left := DropKey(entries, Str(host));
        g.hosts := if left == [] then NoHosts else HostMap(left);
        changed := true;
      }
    case HostList(keys) =>
      if Str(host) in keys {
        g.hosts := HostList(DropFirst(keys, Str(host)));
        changed := true;
      }
    case _ =>
  }

  ghost predicate ListedBelow(groups: seq<Child>, n: nat, host: string)
    requires n <= |groups|
  {
    exists j :: 0 <= j < n && Walk(groups[j].node, groups[j].name, host) != {}
  }

  // One child of a mapping; data that is no group lists nobody.
  method RemoveHostFromEntry(kids: seq<Kid>, i: nat, host: string, ghost inside: set<GroupNode>) returns (changed: bool)
    requires i < |kids| && Forest(kids, inside)
    modifies inside
    ensures forall n :: n in inside ==> n.repr == old(n.repr)
    ensures Forest(kids, inside)
    ensures forall j :: 0 <= j < |kids| && j != i ==> EntryModel(kids[j].entry, inside) == old(EntryModel(kids[j].entry, inside))
    ensures EntryModel(kids[i].entry, inside) == RemoveHost(old(EntryModel(kids[i].entry, inside)), host)
    ensures changed <==> Walk(old(EntryModel(kids[i].entry, inside)), kids[i].name, host) != {}
    decreases inside, 0, 2
  {
    changed := false;
    if kids[i].entry.Ref? { changed := RemoveHostFromKid(kids, i, host, inside); }
  }

  method RemoveHostFromChildren(kids: seq<Kid>, host: string, ghost inside: set<GroupNode>) returns (changed: bool)
    requires Forest(kids, inside)
    modifies inside
    ensures forall n :: n in inside ==> n.repr == old(n.repr)
    ensures Forest(kids, inside)
    ensures Models(kids, inside) == RemoveHostAll(old(Models(kids, inside)), host)
    ensures changed <==> WalkAll(old(Models(kids, inside)), host) != {}
    decreases inside, 1
  {
    changed := false;
    ghost var before := Models(kids, inside);
    var i := 0;
    while i < |kids|
      invariant 0 <= i <= |kids|
      invariant forall n :: n in inside ==> n.repr == old(n.repr)
      invariant Forest(kids, inside)
      invariant forall j :: 0 <= j < i ==> EntryModel(kids[j].entry, inside) == RemoveHost(before[j].node, host)
      invariant forall j :: i <= j < |kids| ==> EntryModel(kids[j].entry, inside) == before[j].node
      invariant changed <==> ListedBelow(before, i, host)
    {
      var c := RemoveHostFromEntry(kids, i, host, inside);
      changed := changed || c;
      i := i + 1;
    }
    EachRemoved(before, Models(kids, inside), host);
    WalkAllMembers(before, host);
  }

  lemma {:induction false} EachRemoved(before: seq<Child>, after: seq<Child>, host: string)
    requires |after| == |before|
    requires forall j :: 0 <= j < |before| ==> after[j] == before[j].(node := RemoveHost(before[j].node, host))
    ensures after == RemoveHostAll(before, host)
  {
    forall j | 0 <= j < |before| ensures after[j] == RemoveHostAll(before, host)[j] {
      RemoveHostAllAt(before, host, j);
    }
  }

  method RemoveHostFromKid(kids: seq<Kid>, i: nat, host: string, ghost inside: set<GroupNode>) returns (changed: bool)
    requires i < |kids| && kids[i].entry.Ref? && Forest(kids, inside)
    modifies kids[i].entry.node.repr
    ensures forall n :: n in inside ==> n.repr == old(n.repr)
    ensures Forest(kids, inside)
    ensures forall j :: 0 <= j < |kids| && j != i ==> EntryModel(kids[j].entry, inside) == old(EntryModel(kids[j].entry, inside))
    ensures EntryModel(kids[i].entry, inside) == RemoveHost(old(EntryModel(kids[i].entry, inside)), host)
    ensures changed <==> Walk(old(EntryModel(kids[i].entry, inside)), kids[i].name, host) != {}
    decreases inside, 0, 1
  {
    ghost var sub := kids[i].entry.node.repr;
    assert Inside(kids[i].entry.node, inside);
    changed := RemoveHostFromNode(kids[i].entry.node, kids[i].name, host);
    forall j | 0 <= j < |kids| && kids[j].entry.Ref?
      ensures Inside(kids[j].entry.node, inside)
      ensures j != i ==> kids[j].entry.node.Model() == old(kids[j].entry.node.Model())
    {
      var n := kids[j].entry.node;
      assert old(Inside(n, inside)) && old(n.Valid());
      if j != i {
        assert n.repr == old(n.repr) && n.repr !! sub;
        assert forall m :: m in n.repr ==> unchanged(m);
        assert n.Valid();
      }
    }
  }

  // One group of the loop: its own hosts, then its sub-groups.
  method RemoveHostFromNode(g: GroupNode, ghost name: string, host: string) returns (changed: bool)
    requires g.Valid()
    modifies g.repr
    ensures forall n :: n in old(g.repr) ==> n.repr == old(n.repr)
    ensures g.Valid() && g.Model() == RemoveHost(old(g.Model()), host)
    ensures changed <==> Walk(old(g.Model()), name, host) != {}
    decreases g.repr, 0, 0
  {
    changed := RemoveFromHosts(g, host);
    if g.kids.KidMap? {
      var c := RemoveHostFromChildren(g.kids.kids, host, g.repr - {g});
      changed := changed || c;
    }
  }

  // ----- deleting a group -----

  function DropNamed(groups: seq<Child>, name: string): seq<Child> {
    if groups == [] then []
    else if groups[0].name == name then DropNamed(groups[1..], name)
    else [groups[0]] + DropNamed(groups[1..], name)
  }

  function KeptKids(kids: seq<Kid>, name: string): (r: seq<Kid>)
    ensures |r| <= |kids| && forall k :: k in r ==> k in kids && k.name != name
    ensures |r| < |kids| <==> exists k :: k in kids && k.name == name
  {
    if kids == [] then []
    else
      assert kids == [kids[0]] + kids[1..];
      if kids[0].name == name then KeptKids(kids[1..], name) else [kids[0]] + KeptKids(kids[1..], name)
  }

  lemma {:induction false} ForestTail(kids: seq<Kid>, inside: set<GroupNode>)
    requires kids != [] && Forest(kids, inside)
    ensures Forest(kids[1..], inside)
    ensures Models(kids, inside) == [Child(kids[0].name, EntryModel(kids[0].entry, inside))] + Models(kids[1..], inside)
    ensures kids[0].entry.Ref? ==> forall j :: 0 <= j < |kids[1..]| && kids[1..][j].entry.Ref? ==>
              kids[0].entry.node.repr !! kids[1..][j].entry.node.repr
  {
    assert forall i :: 0 <= i < |kids[1..]| ==> kids[1..][i] == kids[i + 1];
  }

  lemma {:induction false} ForestCons(k: Kid, rest: seq<Kid>, inside: set<GroupNode>)
    requires Forest(rest, inside) && (k.entry.Ref? ==> Inside(k.entry.node, inside))
    requires k.entry.Ref? ==> forall r :: r in rest && r.entry.Ref? ==> k.entry.node.repr !! r.entry.node.repr
    ensures Forest([k] + rest, inside)
    ensures Models([k] + rest, inside) == [Child(k.name, EntryModel(k.entry, inside))] + Models(rest, inside)
  {
    var all := [k] + rest;
    assert forall i :: 1 <= i < |all| ==> all[i] == rest[i - 1] && all[i] in rest;
    assert all[1..] == rest;
  }

  lemma {:induction false} KeptKidsModel(kids: seq<Kid>, name: string, inside: set<GroupNode>)
    requires Forest(kids, inside)
    ensures Forest(KeptKids(kids, name), inside)
    ensures Models(KeptKids(kids, name), inside) == DropNamed(Models(kids, inside), name)
  {
    if kids != [] {
      ForestTail(kids, inside);
      KeptKidsModel(kids[1..], name, inside);
      assert Models(kids, inside)[1..] == Models(kids[1..], inside);
      if kids[0].name != name { ForestCons(kids[0], KeptKids(kids[1..], name), inside); }
    }
  }

  predicate AnyBelow(groups: seq<Child>, name: string) {
    exists i :: 0 <= i < |groups| && OccursBelow(groups[i].node, name)
  }

  lemma {:induction false} AnyBelowCons(c: Child, rest: seq<Child>, name: string)
    ensures AnyBelow([c] + rest, name) <==> OccursBelow(c.node, name) || AnyBelow(rest, name)
  {
    var all := [c] + rest;
    assert all[0] == c && forall i :: 0 <= i < |rest| ==> all[i + 1] == rest[i];
  }

  function RewriteBelow(groups: seq<Child>, name: string): (r: seq<Child>)
    ensures |r| == |groups|
    ensures forall i :: 0 <= i < |groups| ==> r[i] == groups[i].(node := RemoveBelow(groups[i].node, name))
  {
    seq(|groups|, i requires 0 <= i < |groups| => groups[i].(node := RemoveBelow(groups[i].node, name)))
  }

  // Deletion seen entry by entry: drop the key, then rewrite what is left.
  lemma {:induction false} RemoveGroupByParts(groups: seq<Child>, name: string)
    ensures RemoveGroup(groups, name) == RewriteBelow(DropNamed(groups, name), name)
  {
    if groups != [] { RemoveGroupByParts(groups[1..], name); }
  }

  lemma {:induction false} OccursByParts(groups: seq<Child>, name: string)
    ensures |DropNamed(groups, name)| <= |groups|
    ensures Occurs(groups, name) <==> |DropNamed(groups, name)| < |groups| || AnyBelow(DropNamed(groups, name), name)
  {
    if groups != [] {
      OccursByParts(groups[1..], name);
      if groups[0].name != name { AnyBelowCons(groups[0], DropNamed(groups[1..], name), name); }
    }
  }

  // Drops the name from everything below g; true when something was dropped.
  method RemoveGroupBelow(g: GroupNode, name: string) returns (removed: bool)
    requires g.Valid()
    modifies g.repr`kids
    ensures g.Valid() && g.Model() == RemoveBelow(old(g.Model()), name)
    ensures removed <==> OccursBelow(old(g.Model()), name)
    decreases g.repr, 0, 1
  {
    removed := false;
    match g.kids
    case KidList(names) =>
      if name in names {
        g.kids := KidList(DropFirst(names, name));
        removed := true;
      } else {
        DropFirstAbsent(names, name);
      }
    case KidMap(ks) => removed := RemoveGroupFromMap(g, ks, name);
    case _ =>
  }

  // What deletion means for a node with a map of children, in terms of the children left after dropping the key.
  lemma {:induction false} KeyDropped(g: GroupNode, ks: seq<Kid>, name: string)
    requires g.Valid() && g.kids == KidMap(ks)
    ensures var inside, kept := g.repr - {g}, KeptKids(ks, name);
            && Forest(kept, inside) && |Models(kept, inside)| == |kept|
            && RemoveBelow(g.Model(), name) == g.Model().(children := ChildMap(RewriteBelow(Models(kept, inside), name)))
            && (OccursBelow(g.Model(), name) <==> |kept| < |ks| || AnyBelow(Models(kept, inside), name))
  {
    var inside := g.repr - {g};
    KeptKidsModel(ks, name, inside);
    RemoveGroupByParts(Models(ks, inside), name);
    OccursByParts(Models(ks, inside), name);
  }

  // Puts some of a node's own children in the place of all of them.
  method ReplaceKids(g: GroupNode, kept: seq<Kid>)
    requires g.Valid() && Forest(kept, g.repr - {g})
    modifies g`kids
    ensures g.Valid() && g.kids == KidMap(kept)
    ensures Models(kept, g.repr - {g}) == old(Models(kept, g.repr - {g}))
  {
    g.kids := KidMap(kept);
  }

  method RemoveGroupFromMap(g: GroupNode, ks: seq<Kid>, name: string) returns (removed: bool)
    requires g.Valid() && g.kids == KidMap(ks)
    modifies g.repr`kids
    ensures g.Valid() && g.Model() == RemoveBelow(old(g.Model()), name)
    ensures removed <==> OccursBelow(old(g.Model()), name)
    decreases g.repr, 0, 0
  {
    var kept := KeptKids(ks, name);
    ghost var inside := g.repr - {g};
    KeyDropped(g, ks, name);
    removed := |kept| < |ks|;
    ReplaceKids(g, kept);
    var below := RemoveGroupFromKids(kept, name, inside);
    removed := removed || below;
  }

  method RemoveGroupFromKids(kids: seq<Kid>, name: string, ghost inside: set<GroupNode>) returns (removed: bool)
    requires Forest(kids, inside)
    modifies inside`kids
    ensures Forest(kids, inside)
    ensures Models(kids, inside) == RewriteBelow(old(Models(kids, inside)), name)
    ensures removed <==> AnyBelow(old(Models(kids, inside)), name)
    decreases inside, 1
  {
    removed := false;
    ghost var before := Models(kids, inside);
    var i := 0;
    while i < |kids|
      invariant 0 <= i <= |kids|
      invariant Forest(kids, inside)
      invariant forall j :: 0 <= j < i ==> EntryModel(kids[j].entry, inside) == RemoveBelow(before[j].node, name)
      invariant forall j :: i <= j < |kids| ==> EntryModel(kids[j].entry, inside) == before[j].node
      invariant removed <==> exists j :: 0 <= j < i && OccursBelow(before[j].node, name)
    {
      if kids[i].entry.Ref? {
        var r := RemoveGroupFromKid(kids, i, name, inside);
        removed := removed || r;
      }
      i := i + 1;
    }
  }

  method RemoveGroupFromKid(kids: seq<Kid>, i: nat, name: string, ghost inside: set<GroupNode>) returns (removed: bool)
    requires i < |kids| && kids[i].entry.Ref? && Forest(kids, inside)
    modifies kids[i].entry.node.repr`kids
    ensures Forest(kids, inside)
    ensures forall j :: 0 <= j < |kids| && j != i ==> EntryModel(kids[j].entry, inside) == old(EntryModel(kids[j].entry, inside))
    ensures EntryModel(kids[i].entry, inside) == RemoveBelow(old(EntryModel(kids[i].entry, inside)), name)
    ensures removed <==> OccursBelow(old(EntryModel(kids[i].entry, inside)), name)
    decreases inside, 0, 2
  {
    ghost var sub := kids[i].entry.node.repr;
    assert Inside(kids[i].entry.node, inside);
    removed := RemoveGroupBelow(kids[i].entry.node, name);
    forall j | 0 <= j < |kids| && kids[j].entry.Ref?
      ensures Inside(kids[j].entry.node, inside)
      ensures j != i ==> kids[j].entry.node.Model() == old(kids[j].entry.node.Model())
    {
      var n := kids[j].entry.node;
      assert old(Inside(n, inside)) && old(n.Valid());
      if j != i {
        assert n.repr == old(n.repr) && n.repr !! sub;
        assert forall m :: m in n.repr ==> unchanged(m);
        assert n.Valid();
      }
    }
  }

  // ----- adding a host to a group found inside the tree -----

  // The value of a tree in which node g has hosts h.  It does not depend on the hosts g really has,
  // so it is not affected by assigning them.
  ghost function NodeWith(n: GroupNode, g: GroupNode, h: Hosts): Node
    requires n.Valid()
    reads n`kids, n`repr, n.repr`kids, n.repr`repr, (n.repr - {g})`hosts
    decreases n.repr, 0
  {
    Group(if n == g then h else n.hosts,
          match n.kids
            case NoKids => NoChildren
            case KidMap(ks) => ChildMap(ModelsWith(ks, n.repr - {n}, g, h))
            case KidList(names) => ChildList(names)
            case OtherKids(raw) => OtherChildren(raw),
          n.others)
  }

  ghost function EntryWith(e: Entry, inside: set<GroupNode>, g: GroupNode, h: Hosts): Node
    requires e.Ref? ==> Inside(e.node, inside)
    reads inside`kids, inside`repr, (inside - {g})`hosts
    decreases inside, 1
  {
    if e.Ref? then NodeWith(e.node, g, h) else NotAGroup(e.raw)
  }

  ghost function ModelsWith(kids: seq<Kid>, inside: set<GroupNode>, g: GroupNode, h: Hosts): (r: seq<Child>)
    requires Forest(kids, inside)
    ensures |r| == |kids|
    ensures forall i :: 0 <= i < |kids| ==> r[i] == Child(kids[i].name, EntryWith(kids[i].entry, inside, g, h))
    reads inside`kids, inside`repr, (inside - {g})`hosts
    decreases inside, 2, |kids|
  {
    if kids == [] then []
    else
      assert forall i :: 0 <= i < |kids[1..]| ==> kids[1..][i] == kids[i + 1];
      [Child(kids[0].name, EntryWith(kids[0].entry, inside, g, h))] + ModelsWith(kids[1..], inside, g, h)
  }

  // With its own hosts the tree is what it is; so is a tree that does not contain g.
  lemma {:induction false} NodeWithSame(n: GroupNode, g: GroupNode, h: Hosts)
    requires n.Valid() && (g in n.repr ==> h == g.hosts)
    ensures NodeWith(n, g, h) == n.Model()
    decreases n.repr, 0
  {
    if n.kids.KidMap? { ModelsWithSame(n.kids.kids, n.repr - {n}, g, h); }
  }

  lemma {:induction false} ModelsWithSame(kids: seq<Kid>, inside: set<GroupNode>, g: GroupNode, h: Hosts)
    requires Forest(kids, inside) && (g in inside ==> h == g.hosts)
    ensures ModelsWith(kids, inside, g, h) == Models(kids, inside)
    decreases inside, 1
  {
    forall i | 0 <= i < |kids| && kids[i].entry.Ref? ensures NodeWith(kids[i].entry.node, g, h) == kids[i].entry.node.Model() {
      assert Inside(kids[i].entry.node, inside);
      NodeWithSame(kids[i].entry.node, g, h);
    }
  }

  // Assigning g's hosts turns entry i, the subtree g lies in, into its changed value; its siblings stay.
  lemma {:induction false} ChangeWithin(kids: seq<Kid>, inside: set<GroupNode>, i: nat, g: GroupNode, h: Hosts)
    requires Forest(kids, inside) && i < |kids| && kids[i].entry.Ref? && g in kids[i].entry.node.repr
    ensures ModelsWith(kids, inside, g, h) ==
              Models(kids, inside)[i := Child(kids[i].name, EntryWith(kids[i].entry, inside, g, h))]
  {
    forall j | 0 <= j < |kids| && j != i && kids[j].entry.Ref? ensures NodeWith(kids[j].entry.node, g, h) == kids[j].entry.node.Model() {
      assert Inside(kids[j].entry.node, inside);
      NodeWithSame(kids[j].entry.node, g, h);
    }
  }

  ghost predicate Below(kids: seq<Kid>, inside: set<GroupNode>, i: nat, g: GroupNode)
    reads inside`repr
  {
    i < |kids| && kids[i].entry.Ref? && kids[i].entry.node in inside && g in kids[i].entry.node.repr
  }

  ghost predicate Within(kids: seq<Kid>, inside: set<GroupNode>, g: GroupNode)
    reads inside`repr
  {
    g in inside && exists i: nat :: Below(kids, inside, i, g)
  }

  // Giving `found` the host is what placing the host under `name` means.
  ghost predicate IsPlace(kids: seq<Kid>, inside: set<GroupNode>, name: string, found: GroupNode)
    requires Forest(kids, inside)
    reads inside
  {
    Within(kids, inside, found)
    && forall host :: Place(Models(kids, inside), name, host) == Some(ModelsWith(kids, inside, found, HostsWith(found.hosts, host)))
  }

  // The same for a place that is not at this level.
  ghost predicate IsPlaceBelow(kids: seq<Kid>, inside: set<GroupNode>, name: string, found: GroupNode)
    requires Forest(kids, inside)
    reads inside
  {
    Within(kids, inside, found)
    && forall host :: PlaceBelow(Models(kids, inside), name, host) == Some(ModelsWith(kids, inside, found, HostsWith(found.hosts, host)))
  }

  method IndexOfKid(kids: seq<Kid>, name: string, ghost inside: set<GroupNode>) returns (i: Option<nat>)
    requires Forest(kids, inside)
    ensures i == IndexOf(Models(kids, inside), name)
    ensures i.Some? ==> i.value < |kids|
    decreases |kids|
  {
    if kids == [] { return None; }
    if kids[0].name == name { return Some(0); }
    ForestTail(kids, inside);
    assert Models(kids, inside)[1..] == Models(kids[1..], inside);
    var rest := IndexOfKid(kids[1..], name, inside);
    i := if rest == None then None else Some(rest.value + 1);
  }

  // The search at this level and below; the answer is a reference into the tree.
  method FindGroupRecursive(kids: seq<Kid>, name: string, ghost inside: set<GroupNode>) returns (found: GroupNode?)
    requires Forest(kids, inside)
    ensures found == null <==> Find(Models(kids, inside), name) == None
    ensures found != null ==> IsPlace(kids, inside, name, found)
    decreases inside, |kids| + 1, 0
  {
    var i := IndexOfKid(kids, name, inside);
    IndexOfFinds(Models(kids, inside), name);
    if i.Some? && kids[i.value].entry.Ref? {
      found := kids[i.value].entry.node;
      FoundHere(kids, inside, name, i.value);
      return;
    }
    assert Here(Models(kids, inside), name) == None;
    found := FindGroupBelow(kids, name, inside);
  }

  lemma {:induction false} ChangeAtTop(g: GroupNode, host: string)
    requires g.Valid()
    ensures NodeWith(g, g, HostsWith(g.hosts, host)) == AddTo(g.Model(), host)
  {
    if g.kids.KidMap? { ModelsWithSame(g.kids.kids, g.repr - {g}, g, HostsWith(g.hosts, host)); }
  }

  lemma {:induction false} FoundHere(kids: seq<Kid>, inside: set<GroupNode>, name: string, i: nat)
    requires Forest(kids, inside) && IndexOf(Models(kids, inside), name) == Some(i) && i < |kids| && kids[i].entry.Ref?
    ensures Here(Models(kids, inside), name) == Some(i)
    ensures IsPlace(kids, inside, name, kids[i].entry.node)
  {
    IndexOfFinds(Models(kids, inside), name);
    var g := kids[i].entry.node;
    Subtree(kids, inside, i);
    assert Below(kids, inside, i, g);
    forall host ensures Place(Models(kids, inside), name, host) == Some(ModelsWith(kids, inside, g, HostsWith(g.hosts, host))) {
      ChangeWithin(kids, inside, i, g, HostsWith(g.hosts, host));
      ChangeAtTop(g, host);
    }
  }

  // The first child, then the others.
  lemma {:induction false} FindInTwo(kids: seq<Kid>, name: string, inside: set<GroupNode>)
    requires kids != [] && Forest(kids, inside)
    ensures Forest(kids[1..], inside)
    ensures var first := FindUnder(Models(kids, inside)[0].node, name);
            FindBelow(Models(kids, inside), name) == if first.Some? then first else FindBelow(Models(kids[1..], inside), name)
  {
    ForestTail(kids, inside);
    assert Models(kids, inside)[1..] == Models(kids[1..], inside);
  }

  method FindGroupBelow(kids: seq<Kid>, name: string, ghost inside: set<GroupNode>) returns (found: GroupNode?)
    requires Forest(kids, inside)
    ensures found == null <==> FindBelow(Models(kids, inside), name) == None
    ensures found != null ==> IsPlaceBelow(kids, inside, name, found)
    decreases inside, |kids|, 1
  {
    if kids == [] { return null; }
    FindInTwo(kids, name, inside);
    found := FindGroupUnder(kids, name, inside);
    if found == null {
      found := FindGroupBelow(kids[1..], name, inside);
      if found != null { FoundLater(kids, inside, name, found); }
    }
  }

  method FindGroupUnder(kids: seq<Kid>, name: string, ghost inside: set<GroupNode>) returns (found: GroupNode?)
    requires kids != [] && Forest(kids, inside)
    ensures found == null <==> FindUnder(Models(kids, inside)[0].node, name) == None
    ensures found != null ==> IsPlaceBelow(kids, inside, name, found)
    decreases inside, |kids|, 0
  {
    if !kids[0].entry.Ref? { return null; }
    Subtree(kids, inside, 0);
    var n := kids[0].entry.node;
    if !n.kids.KidMap? { return null; }
    found := FindGroupRecursive(n.kids.kids, name, n.repr - {n});
    if found != null { FoundUnder(kids, inside, name, n.kids.kids, found); }
  }

  lemma {:induction false} FoundUnder(kids: seq<Kid>, inside: set<GroupNode>, name: string, sub: seq<Kid>, g: GroupNode)
    requires kids != [] && Forest(kids, inside) && kids[0].entry.Ref? && kids[0].entry.node.kids == KidMap(sub)
    requires Forest(sub, kids[0].entry.node.repr - {kids[0].entry.node})
    requires IsPlace(sub, kids[0].entry.node.repr - {kids[0].entry.node}, name, g)
    ensures FindBelow(Models(kids, inside), name).Some? && IsPlaceBelow(kids, inside, name, g)
  {
    var n, ms := kids[0].entry.node, Models(kids, inside);
    Subtree(kids, inside, 0);
    assert Below(kids, inside, 0, g);
    PlaceExact(ms[0].node.children.groups, name, "", "");
    forall host ensures PlaceBelow(ms, name, host) == Some(ModelsWith(kids, inside, g, HostsWith(g.hosts, host))) {
      ChangeWithin(kids, inside, 0, g, HostsWith(g.hosts, host));
      var c := Child(ms[0].name, NodeWith(n, g, HostsWith(g.hosts, host)));
      assert PlaceUnder(ms[0].node, name, host) == Some(c.node);
      assert ms[0 := c] == [c] + ms[1..];
    }
  }

  lemma {:induction false} FoundLater(kids: seq<Kid>, inside: set<GroupNode>, name: string, g: GroupNode)
    requires kids != [] && Forest(kids, inside) && Forest(kids[1..], inside)
    requires FindUnder(Models(kids, inside)[0].node, name) == None
    requires IsPlaceBelow(kids[1..], inside, name, g)
    ensures IsPlaceBelow(kids, inside, name, g)
  {
    var ms, node := Models(kids, inside), Models(kids, inside)[0].node;
    ForestTail(kids, inside);
    var i: nat :| Below(kids[1..], inside, i, g);
    assert kids[i + 1] == kids[1..][i] && Below(kids, inside, i + 1, g);
    forall host ensures PlaceBelow(ms, name, host) == Some(ModelsWith(kids, inside, g, HostsWith(g.hosts, host))) {
      if node.Group? && node.children.ChildMap? { PlaceExact(node.children.groups, name, host, host); }
      if kids[0].entry.Ref? {
        assert Inside(kids[0].entry.node, inside);
        NodeWithSame(kids[0].entry.node, g, HostsWith(g.hosts, host));
      }
      assert ms[1..] == Models(kids[1..], inside);
    }
  }

  // Adds the host to one group: an existing one, wherever it is, or a new one at the top.
  method AddHostToGroup(all: GroupNode, name: string, host: string)
    requires all.Valid() && all.kids.KidMap?
    modifies all.repr
    ensures all.Valid() && all.kids.KidMap? && fresh(all.repr - old(all.repr)) && all.hosts == old(all.hosts)
    ensures all.Model().children == ChildMap(AddToGroup(old(all.Model()).children.groups, name, host))
  {
    ghost var inside := all.repr - {all};
    var kids := all.kids.kids;
    var found := FindGroupRecursive(kids, name, inside);
    PlaceExact(Models(kids, inside), name, host, host);
    if found != null {
      AddHostToNode(kids, host, found, inside);
    } else {
      PutNewGroup(all, kids, name, host);
    }
  }

  // Only found's hosts change, and everything above it sees just that.
  method AddHostToNode(kids: seq<Kid>, host: string, found: GroupNode, ghost inside: set<GroupNode>)
    requires Forest(kids, inside) && found in inside
    modifies found`hosts
    ensures Forest(kids, inside) && Models(kids, inside) == old(ModelsWith(kids, inside, found, HostsWith(found.hosts, host)))
  {
    ghost var target := HostsWith(found.hosts, host);
    AddToHosts(found, host);
    ModelsWithSame(kids, inside, found, target);
  }

  method AddToHosts(g: GroupNode, host: string)
    modifies g`hosts
    ensures g.hosts == HostsWith(old(g.hosts), host)
  {
    match g.hosts {
      case HostMap(entries) =>
        if !HasKey(entries, Str(host)) {
          g.hosts := HostMap(entries + [(Str(host), Settings(Some(VarsFileFor(host)), 0))]);
        }
      case HostList(keys) =>
        if Str(host) !in keys {
          g.hosts := HostList(keys + [Str(host)]);
        }
      case _ =>
        g.hosts := HostMap([(Str(host), Settings(Some(VarsFileFor(host)), 0))]);
    }
  }

  // A new single-node subtree, put over an entry that is no group or at the end.
  lemma {:induction false} ForestPut(kids: seq<Kid>, inside: set<GroupNode>, i: nat, name: string, node: GroupNode)
    requires Forest(kids, inside) && i <= |kids| && (i < |kids| ==> !kids[i].entry.Ref?)
    requires node.Valid() && node.repr == {node} && node !in inside
    ensures var kids' := kids[..i] + [Kid(name, Ref(node))] + kids[if i < |kids| then i + 1 else i..];
            && Forest(kids', inside + {node})
            && Models(kids', inside + {node}) ==
                 Models(kids, inside)[..i] + [Child(name, node.Model())] + Models(kids, inside)[if i < |kids| then i + 1 else i..]
  {
    var kids' := kids[..i] + [Kid(name, Ref(node))] + kids[if i < |kids| then i + 1 else i..];
    assert forall j :: 0 <= j < |kids'| && j != i ==> j < |kids| && kids'[j] == kids[j];
    PutStaysForest(kids, kids', inside, i, name, node);
    var ms, ms' := Models(kids, inside), Models(kids', inside + {node});
    OneReplaced(ms, ms', i);
  }

  lemma {:induction false} OneReplaced(ms: seq<Child>, ms': seq<Child>, i: nat)
    requires i <= |ms| && |ms'| == (if i < |ms| then |ms| else i + 1)
    requires forall j :: 0 <= j < |ms'| && j != i ==> ms'[j] == ms[j]
    ensures ms' == ms[..i] + [ms'[i]] + ms[if i < |ms| then i + 1 else i..]
  {
  }

  lemma {:induction false} PutStaysForest(kids: seq<Kid>, kids': seq<Kid>, inside: set<GroupNode>, i: nat,
                                          name: string, node: GroupNode)
    requires Forest(kids, inside) && i < |kids'| && kids'[i] == Kid(name, Ref(node))
    requires forall j :: 0 <= j < |kids'| && j != i ==> j < |kids| && kids'[j] == kids[j]
    requires node.Valid() && node.repr == {node} && node !in inside
    ensures Forest(kids', inside + {node})
  {
    forall j | 0 <= j < |kids'| && kids'[j].entry.Ref?
      ensures Inside(kids'[j].entry.node, inside + {node})
      ensures j != i ==> kids'[j].entry.node.repr <= inside
    {
      if j != i { assert Inside(kids[j].entry.node, inside); }
    }
  }

  function WithKid(kids: seq<Kid>, i: Option<nat>, k: Kid): seq<Kid>
    requires i.Some? ==> i.value < |kids|
  {
    if i.Some? then kids[i.value := k] else kids + [k]
  }

  // Both kinds of update, written as one concatenation.
  lemma {:induction false} PutAsConcat(groups: seq<Child>, name: string, node: Node)
    ensures var at := if IndexOf(groups, name).Some? then IndexOf(groups, name).value else |groups|;
            && at <= |groups|
            && Put(groups, name, node) == groups[..at] + [Child(name, node)] + groups[if at < |groups| then at + 1 else at..]
  {
    IndexOfFinds(groups, name);
  }

  lemma {:induction false} WithKidAsConcat(kids: seq<Kid>, i: Option<nat>, k: Kid)
    requires i.Some? ==> i.value < |kids|
    ensures var at := if i.Some? then i.value else |kids|;
            WithKid(kids, i, k) == kids[..at] + [k] + kids[if at < |kids| then at + 1 else at..]
  {
  }

  lemma {:induction false} PutIsForest(kids: seq<Kid>, inside: set<GroupNode>, i: Option<nat>, name: string,
                                       node: GroupNode)
    requires Forest(kids, inside) && i == IndexOf(Models(kids, inside), name) && Here(Models(kids, inside), name) == None
    requires node.Valid() && node.repr == {node} && node !in inside
    ensures i.Some? ==> i.value < |kids|
    ensures Forest(WithKid(kids, i, Kid(name, Ref(node))), inside + {node})
    ensures Models(WithKid(kids, i, Kid(name, Ref(node))), inside + {node}) == Put(Models(kids, inside), name, node.Model())
  {
    IndexOfFinds(Models(kids, inside), name);
    var at := if i.Some? then i.value else |kids|;
    if i.Some? && kids[at].entry.Ref? { Subtree(kids, inside, at); }
    ForestPut(kids, inside, at, name, node);
    WithKidAsConcat(kids, i, Kid(name, Ref(node)));
    PutAsConcat(Models(kids, inside), name, node.Model());
  }

  // Gives a node children of which one is new.
  method Adopt(all: GroupNode, kids: seq<Kid>, node: GroupNode)
    requires node != all && Forest(kids, all.repr - {all} + {node})
    modifies all`kids, all`repr
    ensures all.Valid() && all.kids == KidMap(kids) && all.repr == old(all.repr) + {all, node}
    ensures Models(kids, all.repr - {all}) == old(Models(kids, all.repr - {all} + {node}))
  {
    ghost var inside := all.repr - {all} + {node};
    all.kids := KidMap(kids);
    all.repr := all.repr + {all, node};
    assert all.repr - {all} == inside;
  }

  method PutNewGroup(all: GroupNode, kids: seq<Kid>, name: string, host: string)
    requires all.Valid() && all.kids == KidMap(kids)
    requires Here(Models(kids, all.repr - {all}), name) == None
    modifies all`kids, all`repr
    ensures all.Valid() && all.kids.KidMap? && fresh(all.repr - old(all.repr)) && all.hosts == old(all.hosts)
    ensures all.Model().children == ChildMap(Put(old(Models(kids, all.repr - {all})), name, NewGroup(host)))
  {
    ghost var inside := all.repr - {all};
    var i := IndexOfKid(kids, name, inside);
    var node := new GroupNode(HostMap([(Str(host), Settings(Some(VarsFileFor(host)), 0))]));
    assert Forest(kids, inside) && Models(kids, inside) == old(Models(kids, inside)) && node.Model() == NewGroup(host);
    PutIsForest(kids, inside, i, name, node);
    Adopt(all, WithKid(kids, i, Kid(name, Ref(node))), node);
  }

  // The tree part of the update, in the primary file: every target group gets the host.
  method AddHostToGroups(all: GroupNode, targets: seq<string>, host: string)
    requires all.Valid() && all.kids.KidMap?
    modifies all.repr
    ensures all.Valid() && all.kids.KidMap? && all.hosts == old(all.hosts)
    ensures all.Model().children == ChildMap(AddToGroups(old(all.Model()).children.groups, targets, host))
  {
    ghost var goal := AddToGroups(all.Model().children.groups, targets, host);
    var i := 0;
    while i < |targets|
      invariant 0 <= i <= |targets|
      invariant all.Valid() && all.kids.KidMap? && fresh(all.repr - old(all.repr)) && all.hosts == old(all.hosts)
      invariant AddToGroups(all.Model().children.groups, targets[i..], host) == goal
    {
      assert targets[i..][0] == targets[i] && targets[i..][1..] == targets[i + 1..];
      AddHostToGroup(all, targets[i], host);
      i := i + 1;
    }
  }
}
