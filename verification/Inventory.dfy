// Inventory trees, as values: what a loaded inventory file contains, what the reader of
// group memberships reports, and what each editing operation means.
//
// YAML mappings are sequences of entries in document order.
module Inventory {
  import opened Options
  import opened Filters

  // A host name, or some other scalar used as one.
  datatype Key = Str(s: string) | Scalar(n: int)

  datatype Config = Null | Settings(varsFile: Option<string>, others: int) | Plain(n: int)

  datatype Hosts =
    | NoHosts
    | NullHosts
    | HostMap(entries: seq<(Key, Config)>)
    | HostList(keys: seq<Key>)
    | OtherHosts(raw: int)

  datatype Children =
    | NoChildren
    | ChildMap(groups: seq<Child>)
    | ChildList(names: seq<string>)
    | OtherChildren(raw: int)

  datatype Child = Child(name: string, node: Node)

  // A group's data; anything that is not a mapping is carried along untouched.
  datatype Node = Group(hosts: Hosts, children: Children, others: int) | NotAGroup(raw: int)

  // ----- the membership reader -----

  predicate HasKey(entries: seq<(Key, Config)>, k: Key) {
    exists i :: 0 <= i < |entries| && entries[i].0 == k
  }

  predicate Listed(hosts: Hosts, host: string) {
    (hosts.HostMap? && HasKey(hosts.entries, Str(host))) || (hosts.HostList? && Str(host) in hosts.keys)
  }

  // The names of the groups at or below `node` that list the host.
  function Walk(node: Node, name: string, host: string): set<string>
    decreases node, 1
  {
    if node.NotAGroup? then {}
    else
      (if Listed(node.hosts, host) then {name} else {})
      + (if node.children.ChildMap? then WalkAll(node.children.groups, host) else {})
  }

  function WalkAll(groups: seq<Child>, host: string): set<string>
    decreases groups, 0
  {
    if groups == [] then {} else Walk(groups[0].node, groups[0].name, host) + WalkAll(groups[1..], host)
  }

  lemma {:induction false} WalkAllConcat(a: seq<Child>, b: seq<Child>, host: string)
    ensures WalkAll(a + b, host) == WalkAll(a, host) + WalkAll(b, host)
  {
    if a == [] {
      assert a + b == b;
    } else {
      assert (a + b)[1..] == a[1..] + b;
      WalkAllConcat(a[1..], b, host);
    }
  }

  // ----- groups by their place in a tree -----

  // The node reached by child indices, and the name it goes by.
  function NodeAt(node: Node, path: seq<nat>): Option<Node> {
    if path == [] then Some(node)
    else if node.Group? && node.children.ChildMap? && path[0] < |node.children.groups| then
      NodeAt(node.children.groups[path[0]].node, path[1..])
    else None
  }

  function NameAt(node: Node, own: string, path: seq<nat>): string {
    if path == [] then own
    else if node.Group? && node.children.ChildMap? && path[0] < |node.children.groups| then
      NameAt(node.children.groups[path[0]].node, node.children.groups[path[0]].name, path[1..])
    else own
  }

  function Entries(hosts: Hosts): seq<(Key, Config)> {
    if hosts.HostMap? then hosts.entries else []
  }

  function ListedKeys(hosts: Hosts): seq<Key> {
    if hosts.HostList? then hosts.keys else []
  }

  // The path leads to a group of that name which has the host among its keys or in its list.
  ghost predicate LeadsTo(node: Node, own: string, path: seq<nat>, host: string, group: string) {
    && NodeAt(node, path).Some? && NodeAt(node, path).value.Group? && NameAt(node, own, path) == group
    && var hosts := NodeAt(node, path).value.hosts;
    (Str(host) in ListedKeys(hosts) || exists e :: e in Entries(hosts) && e.0 == Str(host))
  }

  lemma {:induction false} ListedByEntry(hosts: Hosts, host: string)
    ensures Listed(hosts, host) <==> Str(host) in ListedKeys(hosts) || exists e :: e in Entries(hosts) && e.0 == Str(host)
  {
    if hosts.HostMap? {
      if e :| e in hosts.entries && e.0 == Str(host) {
        var i :| 0 <= i < |hosts.entries| && hosts.entries[i] == e;
      }
      if i :| 0 <= i < |hosts.entries| && hosts.entries[i].0 == Str(host) { assert hosts.entries[i] in hosts.entries; }
    }
  }

  lemma {:induction false} StepDown(node: Node, own: string, i: nat, rest: seq<nat>)
    requires node.Group? && node.children.ChildMap? && i < |node.children.groups|
    ensures var c := node.children.groups[i];
            NodeAt(node, [i] + rest) == NodeAt(c.node, rest) && NameAt(node, own, [i] + rest) == NameAt(c.node, c.name, rest)
  {
    assert ([i] + rest)[1..] == rest;
  }

  // The reader reports a group exactly when some path leads to one of that name that lists the host.
  lemma {:induction false} WalkByPath(node: Node, own: string, host: string, group: string)
    ensures group in Walk(node, own, host) <==> exists path :: LeadsTo(node, own, path, host, group)
    decreases node, 1
  {
    if node.Group? {
      ListedByEntry(node.hosts, host);
      if node.children.ChildMap? {
        var groups := node.children.groups;
        WalkAllByPath(groups, host, group);
        if i: nat, rest :| LeadsFrom(groups, i, rest, host, group) {
          StepDown(node, own, i, rest);
          assert LeadsTo(node, own, [i] + rest, host, group);
        }
      }
      if path :| LeadsTo(node, own, path, host, group) {
        if path != [] {
          assert path == [path[0]] + path[1..];
          StepDown(node, own, path[0], path[1..]);
          assert LeadsFrom(node.children.groups, path[0], path[1..], host, group);
        }
      }
      if Listed(node.hosts, host) && group == own { assert LeadsTo(node, own, [], host, group); }
    }
  }

  ghost predicate LeadsFrom(groups: seq<Child>, i: nat, rest: seq<nat>, host: string, group: string) {
    i < |groups| && LeadsTo(groups[i].node, groups[i].name, rest, host, group)
  }

  lemma {:induction false} WalkAllByPath(groups: seq<Child>, host: string, group: string)
    ensures group in WalkAll(groups, host) <==> exists i: nat, rest :: LeadsFrom(groups, i, rest, host, group)
    decreases groups, 0
  {
    if groups != [] {
      WalkByPath(groups[0].node, groups[0].name, host, group);
      WalkAllByPath(groups[1..], host, group);
      if rest :| LeadsTo(groups[0].node, groups[0].name, rest, host, group) { assert LeadsFrom(groups, 0, rest, host, group); }
      if i: nat, rest :| LeadsFrom(groups[1..], i, rest, host, group) { assert LeadsFrom(groups, i + 1, rest, host, group); }
      if i: nat, rest :| LeadsFrom(groups, i, rest, host, group) {
        if i > 0 { assert LeadsFrom(groups[1..], i - 1, rest, host, group); }
      }
    }
  }

  // ----- removing a host everywhere -----

  function DropFirst<T(==)>(xs: seq<T>, x: T): seq<T> {
    if xs == [] then [] else if xs[0] == x then xs[1..] else [xs[0]] + DropFirst(xs[1..], x)
  }

  function DropKey(entries: seq<(Key, Config)>, k: Key): seq<(Key, Config)> {
    if entries == [] then []
    else if entries[0].0 == k then DropKey(entries[1..], k)
    else [entries[0]] + DropKey(entries[1..], k)
  }

  // An emptied mapping disappears; an emptied list stays.
  function HostsWithout(hosts: Hosts, host: string): Hosts {
    if !Listed(hosts, host) then hosts
    else if hosts.HostMap? then
      var left := DropKey(hosts.entries, Str(host));
      if left == [] then NoHosts else HostMap(left)
    else HostList(DropFirst(hosts.keys, Str(host)))
  }

  function RemoveHost(node: Node, host: string): Node
    decreases node, 1
  {
    if node.NotAGroup? then node
    else
      node.(hosts := HostsWithout(node.hosts, host),
            children := if node.children.ChildMap? then ChildMap(RemoveHostAll(node.children.groups, host)) else node.children)
  }

  function RemoveHostAll(groups: seq<Child>, host: string): (r: seq<Child>)
    ensures |r| == |groups|
    decreases groups, 0
  {
    if groups == [] then [] else [groups[0].(node := RemoveHost(groups[0].node, host))] + RemoveHostAll(groups[1..], host)
  }

  function Count<T(==)>(xs: seq<T>, x: T): nat {
    if xs == [] then 0 else (if xs[0] == x then 1 else 0) + Count(xs[1..], x)
  }

  // A list that names the host more than once still lists it after one removal.
  predicate ListedTwice(hosts: Hosts, host: string) {
    hosts.HostList? && Count(hosts.keys, Str(host)) >= 2
  }

  function Repeats(node: Node, name: string, host: string): set<string>
    decreases node, 1
  {
    if node.NotAGroup? then {}
    else
      (if ListedTwice(node.hosts, host) then {name} else {})
      + (if node.children.ChildMap? then RepeatsAll(node.children.groups, host) else {})
  }

  function RepeatsAll(groups: seq<Child>, host: string): set<string>
    decreases groups, 0
  {
    if groups == [] then {} else Repeats(groups[0].node, groups[0].name, host) + RepeatsAll(groups[1..], host)
  }

  lemma {:induction false} CountIsMembership<T>(xs: seq<T>, x: T)
    ensures Count(xs, x) > 0 <==> x in xs
  {
    if xs != [] { CountIsMembership(xs[1..], x); }
  }

  lemma {:induction false} DropFirstCounts<T>(xs: seq<T>, x: T, y: T)
    ensures Count(DropFirst(xs, x), y) == Count(xs, y) - (if x == y && x in xs then 1 else 0)
  {
    CountIsMembership(xs, x);
    if xs != [] && xs[0] != x {
      DropFirstCounts(xs[1..], x, y);
      var d := DropFirst(xs[1..], x);
      assert ([xs[0]] + d)[1..] == d;
    }
  }

  lemma {:induction false} DropKeyKeeps(entries: seq<(Key, Config)>, k: Key, other: Key)
    ensures HasKey(DropKey(entries, k), other) <==> HasKey(entries, other) && other != k
  {
    if entries != [] {
      DropKeyKeeps(entries[1..], k, other);
      var d := DropKey(entries[1..], k);
      HasKeyStep(entries, other);
      if entries[0].0 != k {
        assert ([entries[0]] + d)[1..] == d;
        HasKeyStep([entries[0]] + d, other);
      }
    }
  }

  lemma {:induction false} HasKeyStep(entries: seq<(Key, Config)>, k: Key)
    requires entries != []
    ensures HasKey(entries, k) <==> entries[0].0 == k || HasKey(entries[1..], k)
  {
    if HasKey(entries[1..], k) {
      var i :| 0 <= i < |entries[1..]| && entries[1..][i].0 == k;
      assert entries[i + 1].0 == k;
    }
    if HasKey(entries, k) && entries[0].0 != k {
      var i :| 0 <= i < |entries| && entries[i].0 == k;
      assert entries[1..][i - 1].0 == k;
    }
  }

  lemma {:induction false} HostsWithoutLists(hosts: Hosts, host: string, other: string)
    ensures Listed(HostsWithout(hosts, host), other) <==> if other == host then ListedTwice(hosts, host) else Listed(hosts, other)
    ensures ListedTwice(hosts, host) ==> Listed(hosts, host)
  {
    if hosts.HostMap? {
      DropKeyKeeps(hosts.entries, Str(host), Str(other));
    } else if hosts.HostList? {
      DropFirstCounts(hosts.keys, Str(host), Str(other));
      CountIsMembership(hosts.keys, Str(other));
      CountIsMembership(hosts.keys, Str(host));
      CountIsMembership(DropFirst(hosts.keys, Str(host)), Str(other));
    }
  }

  // After the removal the host is reported exactly for the groups whose list named it twice,
  // and every other host exactly as before.
  lemma {:induction false} RemoveHostExact(node: Node, name: string, host: string, other: string)
    ensures Walk(RemoveHost(node, host), name, other) ==
              if other == host then Repeats(node, name, host) else Walk(node, name, other)
    decreases node, 1
  {
    if node.Group? {
      HostsWithoutLists(node.hosts, host, other);
      if node.children.ChildMap? { RemoveHostAllExact(node.children.groups, host, other); }
    }
  }

  lemma {:induction false} RemoveHostAllExact(groups: seq<Child>, host: string, other: string)
    ensures WalkAll(RemoveHostAll(groups, host), other) ==
              if other == host then RepeatsAll(groups, host) else WalkAll(groups, other)
    decreases groups, 0
  {
    if groups != [] {
      RemoveHostExact(groups[0].node, groups[0].name, host, other);
      RemoveHostAllExact(groups[1..], host, other);
      assert RemoveHostAll(groups, host)[1..] == RemoveHostAll(groups[1..], host);
    }
  }

  // A tree that lists the host nowhere is left as it is.
  lemma {:induction false} RemoveHostNoChange(node: Node, name: string, host: string)
    ensures Walk(node, name, host) == {} ==> RemoveHost(node, host) == node
    decreases node, 1
  {
    if node.Group? && node.children.ChildMap? { RemoveHostAllNoChange(node.children.groups, host); }
  }

  lemma {:induction false} RemoveHostAllNoChange(groups: seq<Child>, host: string)
    ensures WalkAll(groups, host) == {} ==> RemoveHostAll(groups, host) == groups
    decreases groups, 0
  {
    if groups != [] {
      RemoveHostNoChange(groups[0].node, groups[0].name, host);
      RemoveHostAllNoChange(groups[1..], host);
    }
  }

  // ----- what a removal leaves behind -----

  function OtherEntries(k: Key): ((Key, Config)) -> bool {
    (e: (Key, Config)) => e.0 != k
  }

  function ChildNames(groups: seq<Child>): seq<string> {
    seq(|groups|, i requires 0 <= i < |groups| => groups[i].name)
  }

  // The same child names in the same order; children that are no mapping, untouched.
  ghost predicate SameChildNames(a: Children, b: Children) {
    if a.ChildMap? then b.ChildMap? && ChildNames(a.groups) == ChildNames(b.groups) else b == a
  }

  // The hosts without this one: every other entry with its settings, in order, and every other name in a list.
  ghost predicate HostTakenOut(a: Hosts, b: Hosts, host: string) {
    match a
    case HostMap(es) =>
      if forall e :: e in es ==> e.0 != Str(host) then b == a
      else if Filter(OtherEntries(Str(host)), es) == [] then b == NoHosts
      else b == HostMap(Filter(OtherEntries(Str(host)), es))
    case HostList(keys) => b.HostList? && FirstTakenOut(keys, Str(host), b.keys)
    case _ => b == a
  }

  // What a place in the tree holds after the removal.
  ghost predicate WithoutHost(before: Option<Node>, after: Option<Node>, host: string) {
    if before.Some? && before.value.Group? then
      && after.Some? && after.value.Group? && after.value.others == before.value.others
      && SameChildNames(before.value.children, after.value.children)
      && HostTakenOut(before.value.hosts, after.value.hosts, host)
    else after == before
  }

  lemma {:induction false} DropKeyFilters(entries: seq<(Key, Config)>, k: Key)
    ensures DropKey(entries, k) == Filter(OtherEntries(k), entries)
  {
    if entries != [] { DropKeyFilters(entries[1..], k); }
  }

  lemma {:induction false} DropFirstTakesOut<T(!new)>(xs: seq<T>, x: T)
    ensures FirstTakenOut(xs, x, DropFirst(xs, x))
  {
    if xs != [] {
      if xs[0] == x {
        assert TakenOutAt(xs, x, 0, DropFirst(xs, x));
      } else {
        DropFirstTakesOut(xs[1..], x);
        if x in xs {
          var i: nat :| TakenOutAt(xs[1..], x, i, DropFirst(xs[1..], x));
          TakenOutLater(xs[0], xs[1..], x, i, DropFirst(xs[1..], x));
          assert xs == [xs[0]] + xs[1..];
        }
      }
    }
  }

  lemma {:induction false} HostsWithoutTakesOut(hosts: Hosts, host: string)
    ensures HostTakenOut(hosts, HostsWithout(hosts, host), host)
  {
    ListedByEntry(hosts, host);
    if hosts.HostMap? {
      DropKeyFilters(hosts.entries, Str(host));
    } else if hosts.HostList? {
      DropFirstTakesOut(hosts.keys, Str(host));
    }
  }

  lemma {:induction false} RemoveHostAllAt(groups: seq<Child>, host: string, i: nat)
    requires i < |groups|
    ensures RemoveHostAll(groups, host)[i] == groups[i].(node := RemoveHost(groups[i].node, host))
  {
    if i > 0 { RemoveHostAllAt(groups[1..], host, i - 1); }
  }

  lemma {:induction false} RemovalKeepsNames(groups: seq<Child>, host: string)
    ensures ChildNames(RemoveHostAll(groups, host)) == ChildNames(groups)
  {
    forall i | 0 <= i < |groups| ensures ChildNames(RemoveHostAll(groups, host))[i] == ChildNames(groups)[i] {
      RemoveHostAllAt(groups, host, i);
    }
  }

  // At every place of the tree a removal takes out the host and leaves all else: the settings and the order of the
  // other hosts, the names of the children, and data that is no group.
  lemma {:induction false} RemovalLeavesTheRest(node: Node, host: string, path: seq<nat>)
    ensures WithoutHost(NodeAt(node, path), NodeAt(RemoveHost(node, host), path), host)
    decreases path
  {
    if node.Group? {
      if path == [] {
        HostsWithoutTakesOut(node.hosts, host);
        if node.children.ChildMap? { RemovalKeepsNames(node.children.groups, host); }
      } else if node.children.ChildMap? && path[0] < |node.children.groups| {
        RemoveHostAllAt(node.children.groups, host, path[0]);
        RemovalLeavesTheRest(node.children.groups[path[0]].node, host, path[1..]);
      }
    }
  }

  // ----- finding a group -----

  function IndexOf(groups: seq<Child>, name: string): Option<nat> {
    if groups == [] then None
    else if groups[0].name == name then Some(0)
    else
      var r := IndexOf(groups[1..], name);
      if r == None then None else Some(r.value + 1)
  }

  lemma {:induction false} IndexOfFinds(groups: seq<Child>, name: string)
    ensures IndexOf(groups, name).Some? ==> IndexOf(groups, name).value < |groups| && groups[IndexOf(groups, name).value].name == name
    ensures IndexOf(groups, name) == None <==> forall i :: 0 <= i < |groups| ==> groups[i].name != name
    ensures IndexOf(groups, name).Some? ==> forall j :: 0 <= j < IndexOf(groups, name).value ==> groups[j].name != name
  {
    if groups != [] {
      IndexOfFinds(groups[1..], name);
      if IndexOf(groups, name) == None {
        forall i | 0 <= i < |groups| ensures groups[i].name != name {
          if i > 0 { assert groups[1..][i - 1] == groups[i]; }
        }
      }
      if forall i :: 0 <= i < |groups| ==> groups[i].name != name {
        assert forall i :: 0 <= i < |groups[1..]| ==> groups[1..][i] == groups[i + 1];
      }
    }
  }

  // A group of that name at this level.
  function Here(groups: seq<Child>, name: string): Option<nat> {
    IndexOfFinds(groups, name);
    var i := IndexOf(groups, name);
    if i.Some? && groups[i.value].node.Group? then i else None
  }

  // This level first, then the levels below, in order.
  function Find(groups: seq<Child>, name: string): Option<Node>
    decreases groups, 1
  {
    IndexOfFinds(groups, name);
    if Here(groups, name).Some? then Some(groups[Here(groups, name).value].node) else FindBelow(groups, name)
  }

  function FindBelow(groups: seq<Child>, name: string): Option<Node>
    decreases groups, 0
  {
    if groups == [] then None
    else
      var first := FindUnder(groups[0].node, name);
      if first.Some? then first else FindBelow(groups[1..], name)
  }

  function FindUnder(node: Node, name: string): Option<Node>
    decreases node, 0
  {
    if node.Group? && node.children.ChildMap? then Find(node.children.groups, name) else None
  }

  // The groups of a mapping of children, as a tree of their own.
  function Root(groups: seq<Child>): Node {
    Group(NoHosts, ChildMap(groups), 0)
  }

  // The path leads to a group that is the first of that name among its siblings.
  ghost predicate IsTarget(groups: seq<Child>, path: seq<nat>, name: string)
    decreases path
  {
    && path != [] && path[0] < |groups| && groups[path[0]].node.Group?
    && if |path| == 1 then groups[path[0]].name == name && forall j :: 0 <= j < path[0] ==> groups[j].name != name
       else groups[path[0]].node.children.ChildMap? && IsTarget(groups[path[0]].node.children.groups, path[1..], name)
  }

  // The order of the search: a child before anything deeper, and otherwise what an earlier child holds.
  predicate Precedes(p: seq<nat>, q: seq<nat>)
    decreases p
  {
    && p != [] && q != []
    && if |p| == 1 then |q| > 1 || p[0] < q[0]
       else |q| > 1 && (p[0] < q[0] || (p[0] == q[0] && Precedes(p[1..], q[1..])))
  }

  ghost predicate IsFirstTarget(groups: seq<Child>, path: seq<nat>, name: string) {
    IsTarget(groups, path, name) && forall q :: IsTarget(groups, q, name) ==> q == path || Precedes(path, q)
  }

  ghost predicate FoundAt(groups: seq<Child>, path: seq<nat>, name: string, node: Node) {
    IsFirstTarget(groups, path, name) && NodeAt(Root(groups), path) == Some(node)
  }

  // The first below the children, starting from child k.
  ghost predicate FirstBelow(groups: seq<Child>, k: nat, path: seq<nat>, name: string) {
    && IsTarget(groups, path, name) && |path| > 1 && path[0] >= k
    && forall q :: IsTarget(groups, q, name) && |q| > 1 && q[0] >= k ==> q == path || Precedes(path, q)
  }

  ghost predicate FoundBelow(groups: seq<Child>, k: nat, path: seq<nat>, name: string, node: Node) {
    FirstBelow(groups, k, path, name) && NodeAt(Root(groups), path) == Some(node)
  }

  lemma {:induction false} HereIsTarget(groups: seq<Child>, name: string)
    ensures Here(groups, name).Some? ==> Here(groups, name).value < |groups|
    ensures Here(groups, name).Some? ==> FoundAt(groups, [Here(groups, name).value], name, groups[Here(groups, name).value].node)
    ensures Here(groups, name) == None ==> forall q :: IsTarget(groups, q, name) ==> |q| > 1
  {
    IndexOfFinds(groups, name);
    if Here(groups, name).Some? {
      var i := Here(groups, name).value;
      assert NodeAt(Root(groups), [i]) == Some(groups[i].node) by { assert [i][1..] == []; }
      forall q | IsTarget(groups, q, name) ensures q == [i] || Precedes([i], q) {
        if |q| == 1 { assert q == [q[0]]; }
      }
    }
  }

  // The search finds the first group of that name, in this order, and fails only when there is none.
  lemma {:induction false} FindIsFirst(groups: seq<Child>, name: string)
    ensures Find(groups, name) == None <==> forall path :: !IsTarget(groups, path, name)
    ensures Find(groups, name).Some? ==> exists path :: FoundAt(groups, path, name, Find(groups, name).value)
    decreases groups, 2
  {
    HereIsTarget(groups, name);
    if Here(groups, name) == None {
      assert groups[0..] == groups;
      FindBelowIsFirst(groups, 0, name);
      if Find(groups, name).Some? {
        var path :| FoundBelow(groups, 0, path, name, Find(groups, name).value);
        assert FoundAt(groups, path, name, Find(groups, name).value) && IsTarget(groups, path, name);
      }
    } else {
      assert IsTarget(groups, [Here(groups, name).value], name);
    }
  }

  lemma {:induction false} FindBelowIsFirst(groups: seq<Child>, k: nat, name: string)
    requires k <= |groups|
    ensures FindBelow(groups[k..], name) == None ==> forall q :: IsTarget(groups, q, name) && |q| > 1 ==> q[0] < k
    ensures FindBelow(groups[k..], name).Some? ==> exists path :: FoundBelow(groups, k, path, name, FindBelow(groups[k..], name).value)
    decreases groups, 1, |groups| - k
  {
    if k < |groups| {
      var node := groups[k].node;
      assert groups[k..][0] == groups[k] && groups[k..][1..] == groups[k + 1..];
      FindBelowIsFirst(groups, k + 1, name);
      if node.Group? && node.children.ChildMap? { FindIsFirst(node.children.groups, name); }
      var first := FindUnder(node, name);
      if first.Some? {
        var rest :| FoundAt(node.children.groups, rest, name, first.value);
        UnderIsFirst(groups, k, rest, name);
        assert FoundBelow(groups, k, [k] + rest, name, first.value);
      } else {
        forall q | IsTarget(groups, q, name) && |q| > 1 ensures q[0] != k {
          if q[0] == k { assert IsTarget(node.children.groups, q[1..], name); }
        }
        if FindBelow(groups[k..], name).Some? {
          var path :| FoundBelow(groups, k + 1, path, name, FindBelow(groups[k..], name).value);
          assert FoundBelow(groups, k, path, name, FindBelow(groups[k..], name).value);
        }
      }
    }
  }

  lemma {:induction false} UnderIsFirst(groups: seq<Child>, k: nat, rest: seq<nat>, name: string)
    requires k < |groups| && groups[k].node.Group? && groups[k].node.children.ChildMap?
    requires IsFirstTarget(groups[k].node.children.groups, rest, name)
    ensures FirstBelow(groups, k, [k] + rest, name)
    ensures NodeAt(Root(groups), [k] + rest) == NodeAt(Root(groups[k].node.children.groups), rest)
  {
    var path, sub := [k] + rest, groups[k].node.children.groups;
    assert path[1..] == rest;
    assert NodeAt(Root(groups), path) == NodeAt(groups[k].node, rest);
    SameBelow(groups[k].node, rest);
    forall q | IsTarget(groups, q, name) && |q| > 1 && q[0] >= k ensures q == path || Precedes(path, q) {
      if q[0] == k {
        assert IsTarget(sub, q[1..], name);
        assert q == [k] + q[1..];
      }
    }
  }

  lemma {:induction false} SameBelow(node: Node, path: seq<nat>)
    requires node.Group? && node.children.ChildMap? && path != []
    ensures NodeAt(Root(node.children.groups), path) == NodeAt(node, path)
  {
  }
}
