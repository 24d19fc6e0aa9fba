// Moving a host to a given set of groups, across all inventory files of a project.
module Rehoming {
  import opened Options
  import opened Filters
  import opened Inventory

  // What a file holds: a mapping with an entry 'all' (and `top`, its other top-level entries) or one without.
  datatype InvFile = Rooted(all: Node, top: seq<Child>) | Unrooted(top: seq<Child>)

  // The entry 'all' is there and is a mapping. Only then is it read as the root of the file's groups.
  predicate HasAllGroup(f: InvFile) {
    f.Rooted? && f.all.Group?
  }

  // Without an 'all' group the top-level entries are groups themselves.
  function WalkFile(f: InvFile, host: string): set<string> {
    if HasAllGroup(f) then Walk(f.all, "all", host) else WalkAll(f.top, host)
  }

  // The groups the reader reports for a host: always 'all', and whatever any file says.
  function Reported(files: map<string, InvFile>, host: string): set<string> {
    {"all"} + set p, g | p in files && g in WalkFile(files[p], host) :: g
  }

  // Besides 'all', a group is reported exactly when some path of some file leads to one of that name that lists the
  // host: from the entry 'all' if that is a mapping, and else from the top.
  lemma {:induction false} ReportedByPath(files: map<string, InvFile>, host: string, group: string)
    ensures group in Reported(files, host) <==>
              || group == "all"
              || (exists p, path :: p in files && files[p].Rooted? && files[p].all.Group? && LeadsTo(files[p].all, "all", path, host, group))
              || (exists p, i: nat, rest :: p in files && (files[p].Rooted? ==> !files[p].all.Group?) && LeadsFrom(files[p].top, i, rest, host, group))
  {
    forall p | p in files
      ensures group in WalkFile(files[p], host) <==>
                if files[p].Rooted? && files[p].all.Group? then exists path :: LeadsTo(files[p].all, "all", path, host, group)
                else exists i: nat, rest :: LeadsFrom(files[p].top, i, rest, host, group)
    {
      if HasAllGroup(files[p]) {
        WalkByPath(files[p].all, "all", host, group);
      } else {
        WalkAllByPath(files[p].top, host, group);
      }
    }
  }

  // ----- adding the host to one group -----

  function VarsFileFor(host: string): string {
    "host_vars/" + host + ".yml"
  }

  function HostsWith(hosts: Hosts, host: string): Hosts {
    var entry := (Str(host), Settings(Some(VarsFileFor(host)), 0));
    match hosts
    case HostMap(entries) => if HasKey(entries, Str(host)) then hosts else HostMap(entries + [entry])
    case HostList(keys) => if Str(host) in keys then hosts else HostList(keys + [Str(host)])
    case _ => HostMap([entry])
  }

  function AddTo(node: Node, host: string): Node
    requires node.Group?
  {
    node.(hosts := HostsWith(node.hosts, host))
  }

  // The tree with the host added to the first group of that name, in the order Find searches; None if there is none.
  function Place(groups: seq<Child>, name: string, host: string): Option<seq<Child>>
    decreases groups, 1
  {
    IndexOfFinds(groups, name);
    var here := Here(groups, name);
    if here.Some? then Some(groups[here.value := groups[here.value].(node := AddTo(groups[here.value].node, host))])
    else PlaceBelow(groups, name, host)
  }

  function PlaceBelow(groups: seq<Child>, name: string, host: string): Option<seq<Child>>
    decreases groups, 0
  {
    if groups == [] then None
    else
      var first := PlaceUnder(groups[0].node, name, host);
      if first.Some? then Some([groups[0].(node := first.value)] + groups[1..])
      else
        var rest := PlaceBelow(groups[1..], name, host);
        if rest.Some? then Some([groups[0]] + rest.value) else None
  }

  function PlaceUnder(node: Node, name: string, host: string): Option<Node>
    decreases node, 0
  {
    if node.Group? && node.children.ChildMap? then
      var sub := Place(node.children.groups, name, host);
      if sub.Some? then Some(node.(children := ChildMap(sub.value))) else None
    else None
  }

  lemma {:induction false} HostsWithLists(hosts: Hosts, host: string, other: string)
    ensures Listed(HostsWith(hosts, host), other) <==> other == host || Listed(hosts, other)
  {
    var entry := (Str(host), Settings(Some(VarsFileFor(host)), 0));
    if hosts.HostMap? {
      var longer := hosts.entries + [entry];
      assert longer[|hosts.entries|] == entry;
      forall i | 0 <= i < |hosts.entries| ensures longer[i] == hosts.entries[i] {}
      if HasKey(longer, Str(other)) && other != host {
        var i :| 0 <= i < |longer| && longer[i].0 == Str(other);
        assert hosts.entries[i].0 == Str(other);
      }
      if HasKey(hosts.entries, Str(other)) {
        var i :| 0 <= i < |hosts.entries| && hosts.entries[i].0 == Str(other);
        assert longer[i].0 == Str(other);
      }
    } else if !hosts.HostList? {
      assert [entry][0].0 == Str(host);
    }
  }

  // Replacing one entry changes only that entry's share.
  lemma {:induction false} WalkAllReplace(groups: seq<Child>, i: nat, c: Child, host: string)
    requires i < |groups|
    ensures WalkAll(groups[i := c], host) == WalkAll(groups[..i], host) + Walk(c.node, c.name, host) + WalkAll(groups[i + 1..], host)
  {
    WalkAllSplit(groups[i := c], i, host);
    assert groups[i := c][..i] == groups[..i] && groups[i := c][i + 1..] == groups[i + 1..];
  }

  lemma {:induction false} WalkAllSplit(groups: seq<Child>, i: nat, host: string)
    requires i < |groups|
    ensures WalkAll(groups, host) == WalkAll(groups[..i], host) + Walk(groups[i].node, groups[i].name, host) + WalkAll(groups[i + 1..], host)
  {
    assert groups == groups[..i] + groups[i..];
    WalkAllConcat(groups[..i], groups[i..], host);
    assert groups[i..][1..] == groups[i + 1..];
  }

  function Added(name: string, host: string, other: string): set<string> {
    if other == host then {name} else {}
  }

  // Placing adds the group's name to the host's memberships and touches nobody else's; it succeeds exactly when
  // the search finds a group.
  lemma {:induction false} PlaceExact(groups: seq<Child>, name: string, host: string, other: string)
    ensures Place(groups, name, host).Some? <==> Find(groups, name).Some?
    ensures Place(groups, name, host).Some? ==>
              WalkAll(Place(groups, name, host).value, other) == WalkAll(groups, other) + Added(name, host, other)
    decreases groups, 1
  {
    IndexOfFinds(groups, name);
    var here := Here(groups, name);
    if here.Some? {
      var i := here.value;
      HostsWithLists(groups[i].node.hosts, host, other);
      WalkAllReplace(groups, i, groups[i].(node := AddTo(groups[i].node, host)), other);
      WalkAllSplit(groups, i, other);
    } else {
      PlaceBelowExact(groups, name, host, other);
    }
  }

  lemma {:induction false} PlaceBelowExact(groups: seq<Child>, name: string, host: string, other: string)
    ensures PlaceBelow(groups, name, host).Some? <==> FindBelow(groups, name).Some?
    ensures PlaceBelow(groups, name, host).Some? ==>
              WalkAll(PlaceBelow(groups, name, host).value, other) == WalkAll(groups, other) + Added(name, host, other)
    decreases groups, 0
  {
    if groups != [] {
      var node := groups[0].node;
      if node.Group? && node.children.ChildMap? { PlaceExact(node.children.groups, name, host, other); }
      PlaceBelowExact(groups[1..], name, host, other);
      var first := PlaceUnder(node, name, host);
      if first.Some? {
        assert ([groups[0].(node := first.value)] + groups[1..])[1..] == groups[1..];
      } else if PlaceBelow(groups[1..], name, host).Some? {
        var rest := PlaceBelow(groups[1..], name, host).value;
        assert ([groups[0]] + rest)[1..] == rest;
      }
    }
  }

  // ----- what placing a host changes -----

  // The host at the end, with a vars_file of its own; one that is there already, and all others, as they were.
  ghost predicate HostGained(a: Hosts, b: Hosts, host: string) {
    match a
    case HostMap(es) =>
      b == if exists e :: e in es && e.0 == Str(host) then a
           else HostMap(es + [(Str(host), Settings(Some("host_vars/" + host + ".yml"), 0))])
    case HostList(keys) => b == if Str(host) in keys then a else HostList(keys + [Str(host)])
    case _ => b == HostMap([(Str(host), Settings(Some("host_vars/" + host + ".yml"), 0))])
  }

  // What a place in the tree holds afterwards, if the host is placed here or elsewhere.
  ghost predicate WithHost(before: Option<Node>, after: Option<Node>, here: bool, host: string) {
    if before.Some? && before.value.Group? then
      && after.Some? && after.value.Group? && after.value.others == before.value.others
      && SameChildNames(before.value.children, after.value.children)
      && if here then HostGained(before.value.hosts, after.value.hosts, host) else after.value.hosts == before.value.hosts
    else after == before
  }

  lemma {:induction false} SameWithoutHost(node: Node, path: seq<nat>, host: string)
    ensures WithHost(NodeAt(node, path), NodeAt(node, path), false, host)
  {
  }

  lemma {:induction false} HostsWithGained(hosts: Hosts, host: string)
    ensures HostGained(hosts, HostsWith(hosts, host), host)
  {
    ListedByEntry(hosts, host);
  }

  // Placed at the first group the search meets: at that place the host is gained, everywhere else nothing changes.
  ghost predicate PlacedAt(groups: seq<Child>, after: seq<Child>, path: seq<nat>, name: string, host: string) {
    && IsFirstTarget(groups, path, name)
    && forall q :: WithHost(NodeAt(Root(groups), q), NodeAt(Root(after), q), q == path, host)
  }

  ghost predicate PlacedBelow(groups: seq<Child>, k: nat, after: seq<Child>, path: seq<nat>, name: string, host: string) {
    && FirstBelow(groups, k, path, name)
    && forall q :: WithHost(NodeAt(Root(groups), q), NodeAt(Root(after), q), q == path, host)
  }

  ghost predicate PlacesBelow(groups: seq<Child>, k: nat, name: string, host: string)
    requires k <= |groups|
  {
    PlaceBelow(groups[k..], name, host).Some? ==>
      exists path :: PlacedBelow(groups, k, groups[..k] + PlaceBelow(groups[k..], name, host).value, path, name, host)
  }

  lemma {:induction false} NodeUpdated(groups: seq<Child>, i: nat, node: Node, q: seq<nat>)
    requires i < |groups|
    ensures ChildNames(groups[i := groups[i].(node := node)]) == ChildNames(groups)
    ensures NodeAt(Root(groups[i := groups[i].(node := node)]), q) ==
              if q == [] then Some(Root(groups[i := groups[i].(node := node)]))
              else if q[0] == i then NodeAt(node, q[1..]) else NodeAt(Root(groups), q)
  {
  }

  lemma {:induction false} PlacedHere(groups: seq<Child>, i: nat, name: string, host: string)
    requires Here(groups, name) == Some(i)
    ensures i < |groups| && groups[i].node.Group?
    ensures PlacedAt(groups, groups[i := groups[i].(node := AddTo(groups[i].node, host))], [i], name, host)
  {
    HereIsTarget(groups, name);
    var node, after := groups[i].node, AddTo(groups[i].node, host);
    HostsWithGained(node.hosts, host);
    forall q ensures WithHost(NodeAt(Root(groups), q), NodeAt(Root(groups[i := groups[i].(node := after)]), q), q == [i], host) {
      NodeUpdated(groups, i, after, q);
      if q != [] && q[0] == i {
        assert q == [i] + q[1..];
        if q[1..] != [] { assert NodeAt(after, q[1..]) == NodeAt(node, q[1..]); }
      }
    }
  }

  lemma {:induction false} PlacedUnder(groups: seq<Child>, k: nat, sub: seq<Child>, rest: seq<nat>, name: string,
                                       host: string)
    requires k < |groups| && groups[k].node.Group? && groups[k].node.children.ChildMap?
    requires PlacedAt(groups[k].node.children.groups, sub, rest, name, host)
    ensures PlacedBelow(groups, k, groups[k := groups[k].(node := groups[k].node.(children := ChildMap(sub)))], [k] + rest, name, host)
  {
    var node := groups[k].node;
    var placed := node.(children := ChildMap(sub));
    UnderIsFirst(groups, k, rest, name);
    assert WithHost(NodeAt(Root(node.children.groups), []), NodeAt(Root(sub), []), [] == rest, host);
    forall q ensures WithHost(NodeAt(Root(groups), q), NodeAt(Root(groups[k := groups[k].(node := placed)]), q), q == [k] + rest, host) {
      NodeUpdated(groups, k, placed, q);
      if q != [] && q[0] == k {
        assert q == [k] + q[1..];
        assert q == [k] + rest ==> q[1..] == rest by { assert ([k] + rest)[1..] == rest; }
        if q[1..] != [] {
          SameBelow(node, q[1..]);
          SameBelow(placed, q[1..]);
          assert WithHost(NodeAt(Root(node.children.groups), q[1..]), NodeAt(Root(sub), q[1..]), q[1..] == rest, host);
        }
      }
    }
  }

  lemma {:induction false} PlaceChangesOne(groups: seq<Child>, name: string, host: string)
    ensures Place(groups, name, host).Some? ==> exists path :: PlacedAt(groups, Place(groups, name, host).value, path, name, host)
    decreases groups, 2
  {
    IndexOfFinds(groups, name);
    var here := Here(groups, name);
    if here.Some? {
      PlacedHere(groups, here.value, name, host);
    } else {
      assert groups[0..] == groups;
      HereIsTarget(groups, name);
      PlaceBelowChangesOne(groups, 0, name, host);
      if Place(groups, name, host).Some? {
        var path :| PlacedBelow(groups, 0, groups[..0] + Place(groups, name, host).value, path, name, host);
        assert groups[..0] + Place(groups, name, host).value == Place(groups, name, host).value;
        assert PlacedAt(groups, Place(groups, name, host).value, path, name, host);
      }
    }
  }

  lemma {:induction false} PlaceBelowChangesOne(groups: seq<Child>, k: nat, name: string, host: string)
    requires k <= |groups|
    ensures PlacesBelow(groups, k, name, host)
    decreases groups, 1, |groups| - k
  {
    if k < |groups| {
      var node := groups[k].node;
      assert groups[k..][0] == groups[k] && groups[k..][1..] == groups[k + 1..];
      if node.Group? && node.children.ChildMap? { PlaceChangesOne(node.children.groups, name, host); }
      var first := PlaceUnder(node, name, host);
      if first.Some? {
        var sub := Place(node.children.groups, name, host).value;
        var rest :| PlacedAt(node.children.groups, sub, rest, name, host);
        PlacedUnder(groups, k, sub, rest, name, host);
        assert groups[..k] + ([groups[k].(node := first.value)] + groups[k + 1..]) == groups[k := groups[k].(node := first.value)];
      } else {
        PlaceBelowChangesOne(groups, k + 1, name, host);
        PlacedLater(groups, k, name, host);
      }
    }
  }

  lemma {:induction false} PlacedLater(groups: seq<Child>, k: nat, name: string, host: string)
    requires k < |groups| && PlaceUnder(groups[k].node, name, host) == None
    requires PlacesBelow(groups, k + 1, name, host)
    ensures PlacesBelow(groups, k, name, host)
  {
    assert groups[k..][0] == groups[k] && groups[k..][1..] == groups[k + 1..];
    NothingUnder(groups, k, name, host);
    if PlaceBelow(groups[k..], name, host).Some? {
      var rest := PlaceBelow(groups[k + 1..], name, host).value;
      assert groups[..k] + ([groups[k]] + rest) == groups[..k + 1] + rest;
      var path :| PlacedBelow(groups, k + 1, groups[..k + 1] + rest, path, name, host);
      assert PlacedBelow(groups, k, groups[..k + 1] + rest, path, name, host);
    }
  }

  lemma {:induction false} NothingUnder(groups: seq<Child>, k: nat, name: string, host: string)
    requires k < |groups| && PlaceUnder(groups[k].node, name, host) == None
    ensures forall q :: IsTarget(groups, q, name) && |q| > 1 ==> q[0] != k
  {
    var node := groups[k].node;
    if node.Group? && node.children.ChildMap? {
      PlaceExact(node.children.groups, name, host, host);
      FindIsFirst(node.children.groups, name);
    }
    forall q | IsTarget(groups, q, name) && |q| > 1 ensures q[0] != k {
      if q[0] == k { assert IsTarget(node.children.groups, q[1..], name); }
    }
  }

  // ----- all target groups -----

  function NewGroup(host: string): Node {
    Group(HostMap([(Str(host), Settings(Some(VarsFileFor(host)), 0))]), NoChildren, 0)
  }

  function Put(groups: seq<Child>, name: string, node: Node): seq<Child> {
    IndexOfFinds(groups, name);
    var i := IndexOf(groups, name);
    if i.Some? then groups[i.value := Child(name, node)] else groups + [Child(name, node)]
  }

  // An existing group, possibly nested, is preferred; else one is made at the top level.
  function AddToGroup(groups: seq<Child>, name: string, host: string): seq<Child> {
    var placed := Place(groups, name, host);
    if placed.Some? then placed.value else Put(groups, name, NewGroup(host))
  }

  function AddToGroups(groups: seq<Child>, targets: seq<string>, host: string): seq<Child>
    decreases targets
  {
    if targets == [] then groups else AddToGroups(AddToGroup(groups, targets[0], host), targets[1..], host)
  }

  lemma {:induction false} AddToGroupExact(groups: seq<Child>, name: string, host: string, other: string)
    ensures WalkAll(AddToGroup(groups, name, host), other) == WalkAll(groups, other) + Added(name, host, other)
  {
    PlaceExact(groups, name, host, other);
    if Place(groups, name, host) == None {
      IndexOfFinds(groups, name);
      var c, i := Child(name, NewGroup(host)), IndexOf(groups, name);
      assert NewGroup(host).hosts.entries[0].0 == Str(host);
      assert Walk(c.node, name, other) == Added(name, host, other);
      if i.Some? {
        WalkAllReplace(groups, i.value, c, other);
        WalkAllSplit(groups, i.value, other);
        assert groups[i.value].node.NotAGroup?;
      } else {
        WalkAllConcat(groups, [c], other);
      }
    }
  }

  function Names(targets: seq<string>): set<string> {
    set g | g in targets
  }

  lemma {:induction false} AddToGroupsExact(groups: seq<Child>, targets: seq<string>, host: string, other: string)
    ensures WalkAll(AddToGroups(groups, targets, host), other) == WalkAll(groups, other) + if other == host then Names(targets) else {}
    decreases targets
  {
    if targets == [] {
      assert Names(targets) == {};
    } else {
      AddToGroupExact(groups, targets[0], host, other);
      AddToGroupsExact(AddToGroup(groups, targets[0], host), targets[1..], host, other);
      assert Names(targets) == {targets[0]} + Names(targets[1..]);
    }
  }

  // ----- what becomes of everybody else -----

  // The other hosts, with their settings and in their order.
  ghost predicate OthersKept(a: Hosts, b: Hosts, host: string) {
    && Filter(OtherEntries(Str(host)), Entries(b)) == Filter(OtherEntries(Str(host)), Entries(a))
    && Filter(Others(Str(host)), ListedKeys(b)) == Filter(Others(Str(host)), ListedKeys(a))
  }

  // A group stays the group it is, but for where it lists the host.
  ghost predicate KeptAt(before: Option<Node>, after: Option<Node>, host: string) {
    before.Some? && before.value.Group? ==>
      && after.Some? && after.value.Group? && after.value.others == before.value.others
      && SameChildNames(before.value.children, after.value.children) && OthersKept(before.value.hosts, after.value.hosts, host)
  }

  // If the host is mapped to settings, then to a vars_file of its own and nothing else.
  ghost predicate DefaultAt(place: Option<Node>, host: string) {
    place.Some? && place.value.Group? ==>
      forall e :: e in Entries(place.value.hosts) && e.0 == Str(host) ==> e.1 == Settings(Some("host_vars/" + host + ".yml"), 0)
  }

  lemma {:induction false} TakenOutKeepsOthers(a: Hosts, b: Hosts, host: string)
    requires HostTakenOut(a, b, host)
    ensures OthersKept(a, b, host) && forall e :: e in Entries(b) ==> e.0 != Str(host)
  {
    if a.HostMap? {
      FilterAll(OtherEntries(Str(host)), Filter(OtherEntries(Str(host)), a.entries));
    } else if a.HostList? {
      OthersStay(a.keys, Str(host), b.keys);
    }
  }

  lemma {:induction false} GainedKeepsOthers(a: Hosts, b: Hosts, host: string)
    requires HostGained(a, b, host)
    ensures OthersKept(a, b, host)
  {
    var entry := (Str(host), Settings(Some("host_vars/" + host + ".yml"), 0));
    assert [entry][1..] == [] && Filter(OtherEntries(Str(host)), [entry]) == [];
    assert [Str(host)][1..] == [] && Filter(Others(Str(host)), [Str(host)]) == [];
    if a.HostMap? {
      FilterConcat(OtherEntries(Str(host)), a.entries, [entry]);
    } else if a.HostList? {
      FilterConcat(Others(Str(host)), a.keys, [Str(host)]);
    }
  }

  // A target that is nowhere found becomes a new group at the top, with nothing but the host.
  lemma {:induction false} NewGroupAtTop(groups: seq<Child>, name: string, host: string)
    requires Find(groups, name) == None
    ensures var bare := Child(name, Group(HostMap([(Str(host), Settings(Some("host_vars/" + host + ".yml"), 0))]), NoChildren, 0));
            || ((forall i :: 0 <= i < |groups| ==> groups[i].name != name) && AddToGroup(groups, name, host) == groups + [bare])
            || exists i :: 0 <= i < |groups| && groups[i].name == name && groups[i].node.NotAGroup? && AddToGroup(groups, name, host) == groups[i := bare]
  {
    PlaceExact(groups, name, host, host);
    IndexOfFinds(groups, name);
  }

  lemma {:induction false} NewGroupBesides(groups: seq<Child>, name: string, host: string, q: seq<nat>)
    requires Find(groups, name) == None && q != []
    ensures var before, after := NodeAt(Root(groups), q), NodeAt(Root(AddToGroup(groups, name, host)), q);
            after == before || ((before.Some? ==> before.value.NotAGroup?) && DefaultAt(after, host))
  {
    NewGroupAtTop(groups, name, host);
    assert q[1..] == [] || NodeAt(NewGroup(host), q[1..]) == None;
  }

  lemma {:induction false} AddToGroupKeeps(groups: seq<Child>, name: string, host: string, q: seq<nat>)
    requires q != []
    ensures var before, after := NodeAt(Root(groups), q), NodeAt(Root(AddToGroup(groups, name, host)), q);
            KeptAt(before, after, host) && (DefaultAt(before, host) ==> DefaultAt(after, host))
  {
    PlaceExact(groups, name, host, host);
    if Place(groups, name, host).Some? {
      PlaceChangesOne(groups, name, host);
      var path :| PlacedAt(groups, Place(groups, name, host).value, path, name, host);
      var before, after := NodeAt(Root(groups), q), NodeAt(Root(AddToGroup(groups, name, host)), q);
      assert WithHost(before, after, q == path, host);
      if before.Some? && before.value.Group? && q == path { GainedKeepsOthers(before.value.hosts, after.value.hosts, host); }
    } else {
      NewGroupBesides(groups, name, host, q);
    }
  }

  lemma {:induction false} AddToGroupsKeeps(groups: seq<Child>, targets: seq<string>, host: string, q: seq<nat>)
    requires q != []
    ensures var before, after := NodeAt(Root(groups), q), NodeAt(Root(AddToGroups(groups, targets, host)), q);
            KeptAt(before, after, host) && (DefaultAt(before, host) ==> DefaultAt(after, host))
    decreases targets
  {
    if targets != [] {
      AddToGroupKeeps(groups, targets[0], host, q);
      AddToGroupsKeeps(AddToGroup(groups, targets[0], host), targets[1..], host, q);
    }
  }

  lemma {:induction false} NamesGrow(groups: seq<Child>, targets: seq<string>, host: string)
    ensures ChildNames(groups) <= ChildNames(AddToGroups(groups, targets, host))
    decreases targets
  {
    if targets != [] {
      var next := AddToGroup(groups, targets[0], host);
      assert ChildNames(groups) <= ChildNames(next) by {
        PlaceExact(groups, targets[0], host, host);
        if Place(groups, targets[0], host).Some? {
          PlaceChangesOne(groups, targets[0], host);
          var path :| PlacedAt(groups, next, path, targets[0], host);
          assert WithHost(NodeAt(Root(groups), []), NodeAt(Root(next), []), [] == path, host);
        } else {
          NewGroupAtTop(groups, targets[0], host);
        }
      }
      NamesGrow(next, targets[1..], host);
    }
  }

  // ----- the whole project -----

  function SweepFile(f: InvFile, host: string): InvFile {
    if HasAllGroup(f) then f.(all := RemoveHost(f.all, host)) else f
  }

  // The primary file, made ready to take groups; a file that does not exist yet starts empty.
  function Prepared(f: Option<InvFile>): InvFile {
    if f.Some? && HasAllGroup(f.value) then
      if f.value.all.children.ChildMap? then f.value else f.value.(all := f.value.all.(children := ChildMap([])))
    else Rooted(Group(NoHosts, ChildMap([]), 0), if f.Some? then f.value.top else [])
  }

  function WithTargets(f: InvFile, targets: seq<string>, host: string): InvFile
    requires f.Rooted? && f.all.Group? && f.all.children.ChildMap?
  {
    f.(all := f.all.(children := ChildMap(AddToGroups(f.all.children.groups, targets, host))))
  }

  function Lookup(files: map<string, InvFile>, p: string): Option<InvFile> {
    if p in files then Some(files[p]) else None
  }

  function Swept(files: map<string, InvFile>, host: string): map<string, InvFile> {
    map p | p in files :: SweepFile(files[p], host)
  }

  function Rehome(files: map<string, InvFile>, primary: string, host: string, targets: seq<string>): map<string, InvFile> {
    var swept := Swept(files, host);
    if targets == [] then swept
    else swept[primary := WithTargets(Prepared(Lookup(swept, primary)), targets, host)]
  }

  // Groups the edit cannot take the host out of: those of a file without an 'all' group, which it skips,
  // and lists that name the host twice.
  function Stuck(f: InvFile, host: string): set<string> {
    if HasAllGroup(f) then Repeats(f.all, "all", host) else WalkAll(f.top, host)
  }

  // Giving the primary file an 'all' group hides its other top-level groups from the reader.
  predicate Hidden(files: map<string, InvFile>, primary: string, targets: seq<string>, p: string) {
    p == primary && targets != [] && p in files && !HasAllGroup(files[p])
  }

  lemma {:induction false} SweptFileExact(f: InvFile, host: string, other: string)
    ensures WalkFile(SweepFile(f, host), other) == if other == host then Stuck(f, host) else WalkFile(f, other)
  {
    if HasAllGroup(f) { RemoveHostExact(f.all, "all", host, other); }
  }

  // What the primary file reports afterwards.
  lemma {:induction false} PrimaryExact(f: Option<InvFile>, targets: seq<string>, host: string, other: string)
    ensures WalkFile(WithTargets(Prepared(f), targets, host), other) ==
              (if f.Some? && HasAllGroup(f.value) then WalkFile(f.value, other) else {}) + (if other == host then Names(targets) else {})
  {
    AddToGroupsExact(Prepared(f).all.children.groups, targets, host, other);
  }

  function Leftover(files: map<string, InvFile>, primary: string, targets: seq<string>, host: string): set<string> {
    set p, g | p in files && !Hidden(files, primary, targets, p) && g in Stuck(files[p], host) :: g
  }

  function VisibleElsewhere(files: map<string, InvFile>, primary: string, targets: seq<string>, host: string): set<string> {
    {"all"} + set p, g | p in files && !Hidden(files, primary, targets, p) && g in WalkFile(files[p], host) :: g
  }

  lemma {:induction false} RehomedFile(files: map<string, InvFile>, primary: string, host: string,
                                       targets: seq<string>, other: string, p: string)
    requires p in Rehome(files, primary, host, targets)
    ensures var after := WalkFile(Rehome(files, primary, host, targets)[p], other);
            var before := if p !in files || Hidden(files, primary, targets, p) then {}
                          else if other == host then Stuck(files[p], host) else WalkFile(files[p], other);
            after == before + (if p == primary && other == host then Names(targets) else {})
  {
    var swept := Swept(files, host);
    if p in files { SweptFileExact(files[p], host, other); }
    if targets == [] {
      assert Names(targets) == {};
    } else if p == primary {
      PrimaryExact(Lookup(swept, primary), targets, host, other);
    }
  }

  // What one file reports for the host afterwards.
  function KeptAndGiven(files: map<string, InvFile>, primary: string, targets: seq<string>, p: string, host: string): set<string> {
    (if p !in files || Hidden(files, primary, targets, p) then {} else Stuck(files[p], host))
    + (if p == primary then Names(targets) else {})
  }

  lemma {:induction false} RehomedFiles(files: map<string, InvFile>, primary: string, host: string,
                                        targets: seq<string>)
    ensures var after := Rehome(files, primary, host, targets);
            && files.Keys <= after.Keys <= files.Keys + {primary} && (targets != [] ==> primary in after)
            && forall p :: p in after ==> WalkFile(after[p], host) == KeptAndGiven(files, primary, targets, p, host)
  {
    var after := Rehome(files, primary, host, targets);
    forall p | p in after ensures WalkFile(after[p], host) == KeptAndGiven(files, primary, targets, p, host) {
      RehomedFile(files, primary, host, targets, host, p);
    }
  }

  // The host is reported for exactly the target groups and 'all', plus what the edit cannot reach.
  lemma {:induction false} RehomeExact(files: map<string, InvFile>, primary: string, host: string, targets: seq<string>)
    ensures Reported(Rehome(files, primary, host, targets), host) ==
              {"all"} + Names(targets) + Leftover(files, primary, targets, host)
  {
    NothingElseReported(files, primary, host, targets);
    AllReported(files, primary, host, targets);
  }

  lemma {:induction false} NothingElseReported(files: map<string, InvFile>, primary: string, host: string,
                                               targets: seq<string>)
    ensures Reported(Rehome(files, primary, host, targets), host) <= {"all"} + Names(targets) + Leftover(files, primary, targets, host)
  {
    RehomedFiles(files, primary, host, targets);
  }

  lemma {:induction false} AllReported(files: map<string, InvFile>, primary: string, host: string, targets: seq<string>)
    ensures {"all"} + Names(targets) + Leftover(files, primary, targets, host) <= Reported(Rehome(files, primary, host, targets), host)
  {
    var after := Rehome(files, primary, host, targets);
    RehomedFiles(files, primary, host, targets);
    forall g | g in Names(targets) ensures g in WalkFile(after[primary], host) {
      assert targets != [];
    }
    forall p, g | p in files && !Hidden(files, primary, targets, p) && g in Stuck(files[p], host) ensures g in WalkFile(after[p], host) {}
  }

  // So the move is exact precisely when every group the edit cannot reach is a target itself (or 'all').
  lemma {:induction false} RehomeMeetsPromise(files: map<string, InvFile>, primary: string, host: string,
                                              targets: seq<string>)
    ensures Reported(Rehome(files, primary, host, targets), host) == {"all"} + Names(targets)
            <==> Leftover(files, primary, targets, host) <= {"all"} + Names(targets)
    ensures (forall p :: p in files ==> HasAllGroup(files[p]) && Repeats(files[p].all, "all", host) == {}) ==>
              Leftover(files, primary, targets, host) == {}
  {
    RehomeExact(files, primary, host, targets);
  }

  // Every other host keeps its groups, except those read from the top level of a primary file without an 'all' group.
  lemma {:induction false} RehomeSparesOthers(files: map<string, InvFile>, primary: string, host: string,
                                              targets: seq<string>, other: string)
    requires other != host
    ensures Reported(Rehome(files, primary, host, targets), other) == VisibleElsewhere(files, primary, targets, other)
    ensures !Hidden(files, primary, targets, primary) ==> Reported(Rehome(files, primary, host, targets), other) == Reported(files, other)
  {
    var after := Rehome(files, primary, host, targets);
    forall p | p in after ensures WalkFile(after[p], other) ==
      if p !in files || Hidden(files, primary, targets, p) then {} else WalkFile(files[p], other)
    {
      RehomedFile(files, primary, host, targets, other, p);
    }
  }

  // ----- what the files hold afterwards -----

  // A file keeps its groups, each with its other hosts and their settings, its variables and its children; the primary
  // file may have more groups at the top than before.
  lemma {:induction false} RehomingLeavesTheRest(files: map<string, InvFile>, primary: string, host: string,
                                                 targets: seq<string>, p: string, path: seq<nat>)
    requires p in files && HasAllGroup(files[p])
    ensures var after := Rehome(files, primary, host, targets);
            && p in after && HasAllGroup(after[p]) && after[p].top == files[p].top
            && var (before, now) := (NodeAt(files[p].all, path), NodeAt(after[p].all, path));
            && (path != [] || p != primary || targets == [] ==> KeptAt(before, now, host))
            && OthersKept(files[p].all.hosts, after[p].all.hosts, host) && after[p].all.others == files[p].all.others
            && (files[p].all.children.ChildMap? ==>
                  after[p].all.children.ChildMap? && ChildNames(files[p].all.children.groups) <= ChildNames(after[p].all.children.groups))
  {
    var swept := RemoveHost(files[p].all, host);
    RemovalKeeps(files[p].all, host, path);
    RemovalKeeps(files[p].all, host, []);
    if p == primary && targets != [] {
      var ready := Prepared(Some(SweepFile(files[p], host)));
      PreparedKeeps(SweepFile(files[p], host), path);
      WithTargetsKeeps(ready, targets, host, path);
    }
  }

  lemma {:induction false} RemovalKeeps(node: Node, host: string, path: seq<nat>)
    ensures KeptAt(NodeAt(node, path), NodeAt(RemoveHost(node, host), path), host)
    ensures DefaultAt(NodeAt(RemoveHost(node, host), path), host)
  {
    RemovalLeavesTheRest(node, host, path);
    var before, after := NodeAt(node, path), NodeAt(RemoveHost(node, host), path);
    if before.Some? && before.value.Group? { TakenOutKeepsOthers(before.value.hosts, after.value.hosts, host); }
  }

  lemma {:induction false} PreparedKeeps(f: InvFile, path: seq<nat>)
    requires HasAllGroup(f)
    ensures var ready := Prepared(Some(f));
            && ready.Rooted? && ready.all.Group? && ready.all.children.ChildMap? && ready.top == f.top
            && ready.all.hosts == f.all.hosts && ready.all.others == f.all.others
            && (f.all.children.ChildMap? ==> ready == f)
            && (path != [] ==> NodeAt(ready.all, path) == NodeAt(f.all, path))
  {
  }

  lemma {:induction false} WithTargetsKeeps(f: InvFile, targets: seq<string>, host: string, path: seq<nat>)
    requires f.Rooted? && f.all.Group? && f.all.children.ChildMap?
    ensures var after := WithTargets(f, targets, host);
            && HasAllGroup(after) && after.top == f.top && after.all.hosts == f.all.hosts && after.all.others == f.all.others
            && after.all.children.ChildMap? && ChildNames(f.all.children.groups) <= ChildNames(after.all.children.groups)
            && (path != [] ==> KeptAt(NodeAt(f.all, path), NodeAt(after.all, path), host))
            && (path != [] && DefaultAt(NodeAt(f.all, path), host) ==> DefaultAt(NodeAt(after.all, path), host))
  {
    NamesGrow(f.all.children.groups, targets, host);
    if path != [] {
      AddToGroupsKeeps(f.all.children.groups, targets, host, path);
      SameBelow(f.all, path);
      SameBelow(WithTargets(f, targets, host).all, path);
    }
  }

  // A file without an 'all' group stays as it is, unless it is the primary file: that one is given such a group.
  lemma {:induction false} SkippedFilesStay(files: map<string, InvFile>, primary: string, host: string,
                                            targets: seq<string>, p: string)
    requires p in files && !HasAllGroup(files[p])
    ensures var after := Rehome(files, primary, host, targets);
            p in after && if p == primary && targets != [] then HasAllGroup(after[p]) && after[p].top == files[p].top else after[p] == files[p]
  {
  }

  // Wherever a swept file maps the host to settings afterwards, they name a vars_file of its own and nothing else.
  lemma {:induction false} RehomedSettings(files: map<string, InvFile>, primary: string, host: string,
                                           targets: seq<string>, p: string, path: seq<nat>)
    requires p in Rehome(files, primary, host, targets) && HasAllGroup(Rehome(files, primary, host, targets)[p])
    ensures DefaultAt(NodeAt(Rehome(files, primary, host, targets)[p].all, path), host)
  {
    var swept := Swept(files, host);
    if p in files && HasAllGroup(files[p]) { RemovalKeeps(files[p].all, host, path); }
    if p == primary && targets != [] {
      var ready := Prepared(Lookup(swept, p));
      if p in files && HasAllGroup(files[p]) { PreparedKeeps(swept[p], path); }
      WithTargetsKeeps(ready, targets, host, path);
    }
  }

  // A primary file without an 'all' group: moving host h to g takes group "web" away from host x.
  lemma {:induction false} HiddenGroupsAreLost()
    ensures var web := Child("web", Group(HostList([Str("x")]), NoChildren, 0));
            var files := map["inventory.yml" := Unrooted([web])];
            && "web" in Reported(files, "x")
            && "web" !in Reported(Rehome(files, "inventory.yml", "h", ["g"]), "x")
  {
    var web := Child("web", Group(HostList([Str("x")]), NoChildren, 0));
    var files := map["inventory.yml" := Unrooted([web])];
    assert WalkAll([web], "x") == {"web"} + WalkAll([], "x");
    assert "web" in WalkFile(files["inventory.yml"], "x");
    RehomeSparesOthers(files, "inventory.yml", "h", ["g"], "x");
  }

  // A file whose 'all' is null is skipped by the edit but read from its top level: the host stays in "web".
  lemma {:induction false} NullAllIsSkipped()
    ensures var web := Child("web", Group(HostList([Str("h")]), NoChildren, 0));
            var files := map["other.yml" := Rooted(NotAGroup(0), [web])];
            "web" in Reported(Rehome(files, "inventory.yml", "h", ["g"]), "h")
  {
    var web := Child("web", Group(HostList([Str("h")]), NoChildren, 0));
    var files := map["other.yml" := Rooted(NotAGroup(0), [web])];
    assert WalkAll([web], "h") == {"web"} + WalkAll([], "h");
    assert "web" in Stuck(files["other.yml"], "h");
    RehomeExact(files, "inventory.yml", "h", ["g"]);
  }
}
