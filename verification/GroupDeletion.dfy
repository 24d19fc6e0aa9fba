// Deleting a group wherever it occurs below a mapping of children.
module GroupDeletion {
  import opened Options
  import opened Filters
  import opened Inventory

  // Drops the entry of that name, then looks below every entry that is left.
  function RemoveGroup(groups: seq<Child>, name: string): (r: seq<Child>)
    ensures |r| <= |groups|
    decreases groups, 1
  {
    if groups == [] then []
    else if groups[0].name == name then RemoveGroup(groups[1..], name)
    else [groups[0].(node := RemoveBelow(groups[0].node, name))] + RemoveGroup(groups[1..], name)
  }

  function RemoveBelow(node: Node, name: string): Node
    decreases node, 0
  {
    if node.NotAGroup? then node
    else match node.children
      case ChildMap(sub) => node.(children := ChildMap(RemoveGroup(sub, name)))
      case ChildList(names) => node.(children := ChildList(DropFirst(names, name)))
      case _ => node
  }

  // The name occurs as a key of some reachable mapping of children, or in a list of child names.
  predicate Occurs(groups: seq<Child>, name: string)
    decreases groups, 1
  {
    groups != [] && (groups[0].name == name || OccursBelow(groups[0].node, name) || Occurs(groups[1..], name))
  }

  predicate OccursBelow(node: Node, name: string)
    decreases node, 0
  {
    node.Group? && match node.children
      case ChildMap(sub) => Occurs(sub, name)
      case ChildList(names) => name in names
      case _ => false
  }

  // A list of child names below a surviving group mentions the name twice.
  predicate NamedTwice(groups: seq<Child>, name: string)
    decreases groups, 1
  {
    groups != [] && ((groups[0].name != name && NamedTwiceBelow(groups[0].node, name)) || NamedTwice(groups[1..], name))
  }

  predicate NamedTwiceBelow(node: Node, name: string)
    decreases node, 0
  {
    node.Group? && match node.children
      case ChildMap(sub) => NamedTwice(sub, name)
      case ChildList(names) => Count(names, name) >= 2
      case _ => false
  }

  // The reader's walk when it refuses to enter groups of that name.
  function WalkAvoiding(groups: seq<Child>, name: string, host: string): set<string>
    decreases groups, 1
  {
    if groups == [] then {}
    else (if groups[0].name == name then {} else WalkNodeAvoiding(groups[0].node, groups[0].name, name, host))
         + WalkAvoiding(groups[1..], name, host)
  }

  function WalkNodeAvoiding(node: Node, own: string, name: string, host: string): set<string>
    decreases node, 0
  {
    if node.NotAGroup? then {}
    else (if Listed(node.hosts, host) then {own} else {})
         + (if node.children.ChildMap? then WalkAvoiding(node.children.groups, name, host) else {})
  }

  lemma {:induction false} DropFirstAbsent<T>(xs: seq<T>, x: T)
    ensures x !in xs ==> DropFirst(xs, x) == xs
  {
    if xs != [] { DropFirstAbsent(xs[1..], x); }
  }

  // What is left of the name, whether anything changed, and what the survivors still list.
  lemma {:induction false} RemoveGroupExact(groups: seq<Child>, name: string, host: string)
    ensures Occurs(RemoveGroup(groups, name), name) <==> NamedTwice(groups, name)
    ensures RemoveGroup(groups, name) == groups <==> !Occurs(groups, name)
    ensures WalkAll(RemoveGroup(groups, name), host) == WalkAvoiding(groups, name, host)
    ensures Find(RemoveGroup(groups, name), name) == None
    decreases groups, 1
  {
    RemoveGroupNoKey(groups, name);
    NoKeyNotFound(RemoveGroup(groups, name), name);
    if groups != [] {
      RemoveGroupExact(groups[1..], name, host);
      var rest := RemoveGroup(groups[1..], name);
      if groups[0].name != name {
        RemoveBelowExact(groups[0].node, groups[0].name, name, host);
        assert RemoveGroup(groups, name)[1..] == rest;
      }
    }
  }

  lemma {:induction false} RemoveBelowExact(node: Node, own: string, name: string, host: string)
    ensures OccursBelow(RemoveBelow(node, name), name) <==> NamedTwiceBelow(node, name)
    ensures RemoveBelow(node, name) == node <==> !OccursBelow(node, name)
    ensures Walk(RemoveBelow(node, name), own, host) == WalkNodeAvoiding(node, own, name, host)
    decreases node, 0
  {
    if node.Group? {
      match node.children
      case ChildMap(sub) => RemoveGroupExact(sub, name, host);
      case ChildList(names) =>
        DropFirstAbsent(names, name);
        DropFirstCounts(names, name, name);
        CountIsMembership(names, name);
        CountIsMembership(DropFirst(names, name), name);
      case _ =>
    }
  }

  // No reachable mapping of children has the key.
  predicate HasName(groups: seq<Child>, name: string)
    decreases groups, 1
  {
    groups != [] && (groups[0].name == name || HasNameBelow(groups[0].node, name) || HasName(groups[1..], name))
  }

  predicate HasNameBelow(node: Node, name: string)
    decreases node, 0
  {
    node.Group? && node.children.ChildMap? && HasName(node.children.groups, name)
  }

  lemma {:induction false} RemoveGroupNoKey(groups: seq<Child>, name: string)
    ensures !HasName(RemoveGroup(groups, name), name)
    decreases groups, 1
  {
    if groups != [] {
      RemoveGroupNoKey(groups[1..], name);
      if groups[0].name != name {
        var node := groups[0].node;
        if node.Group? && node.children.ChildMap? { RemoveGroupNoKey(node.children.groups, name); }
        assert RemoveGroup(groups, name)[1..] == RemoveGroup(groups[1..], name);
      }
    }
  }

  lemma {:induction false} NoKeyNotFound(groups: seq<Child>, name: string)
    requires !HasName(groups, name)
    ensures Find(groups, name) == None && FindBelow(groups, name) == None
    decreases groups, 1
  {
    IndexOfFinds(groups, name);
    NoKeyHere(groups, name);
    if groups != [] {
      NoKeyNotFound(groups[1..], name);
      var node := groups[0].node;
      if node.Group? && node.children.ChildMap? { NoKeyNotFound(node.children.groups, name); }
      assert FindUnder(node, name) == None;
    }
    assert Here(groups, name) == None;
  }

  lemma {:induction false} NoKeyHere(groups: seq<Child>, name: string)
    requires !HasName(groups, name)
    ensures forall i :: 0 <= i < |groups| ==> groups[i].name != name
  {
    if groups != [] {
      NoKeyHere(groups[1..], name);
      forall i | 0 <= i < |groups| ensures groups[i].name != name {
        if i > 0 { assert groups[1..][i - 1] == groups[i]; }
      }
    }
  }

  // With no repeated names in lists, deletion leaves no trace of the name and reports success exactly when there was one.
  lemma {:induction false} DeletionIsComplete(groups: seq<Child>, name: string)
    requires !NamedTwice(groups, name)
    ensures !Occurs(RemoveGroup(groups, name), name) && Find(RemoveGroup(groups, name), name) == None
    ensures RemoveGroup(RemoveGroup(groups, name), name) == RemoveGroup(groups, name)
  {
    RemoveGroupExact(groups, name, "");
    RemoveGroupExact(RemoveGroup(groups, name), name, "");
  }

  // A group whose name is not the deleted one and that is not nested below it keeps every host it lists.
  lemma {:induction false} AvoidingIsPart(groups: seq<Child>, name: string, host: string)
    ensures WalkAvoiding(groups, name, host) <= WalkAll(groups, host)
    ensures name !in WalkAvoiding(groups, name, host)
    ensures !HasName(groups, name) ==> WalkAvoiding(groups, name, host) == WalkAll(groups, host)
    decreases groups, 1
  {
    if groups != [] {
      AvoidingIsPart(groups[1..], name, host);
      var node := groups[0].node;
      if node.Group? && node.children.ChildMap? { AvoidingIsPart(node.children.groups, name, host); }
      assert !HasName(groups, name) ==> !HasNameBelow(node, name) && !HasName(groups[1..], name) && groups[0].name != name;
      assert !HasName(groups, name) ==> WalkNodeAvoiding(node, groups[0].name, name, host) == Walk(node, groups[0].name, host);
    }
  }

  // The path leads to the name: to a node that goes by it, or to a group with the name in its list of children.
  ghost predicate MentionedAt(node: Node, path: seq<nat>, name: string) {
    && NodeAt(node, path).Some?
    && (|| (path != [] && NameAt(node, "", path) == name)
        || (NodeAt(node, path).value.Group? && NodeAt(node, path).value.children.ChildList?
            && name in NodeAt(node, path).value.children.names))
  }

  ghost predicate MentionedFrom(groups: seq<Child>, i: nat, rest: seq<nat>, name: string) {
    i < |groups| && ((rest == [] && groups[i].name == name) || MentionedAt(groups[i].node, rest, name))
  }

  // Deletion finds something to do exactly when some path leads to the name.
  lemma {:induction false} OccursByPath(node: Node, name: string)
    ensures OccursBelow(node, name) <==> exists path :: MentionedAt(node, path, name)
    decreases node, 0
  {
    if node.Group? && node.children.ChildMap? {
      var groups := node.children.groups;
      OccursFrom(groups, name);
      if i: nat, rest :| MentionedFrom(groups, i, rest, name) {
        StepDown(node, "", i, rest);
        NamedBelow(groups[i], rest);
        assert MentionedAt(node, [i] + rest, name);
      }
      if path :| MentionedAt(node, path, name) {
        assert path != [] && path == [path[0]] + path[1..];
        StepDown(node, "", path[0], path[1..]);
        NamedBelow(groups[path[0]], path[1..]);
        assert MentionedFrom(groups, path[0], path[1..], name);
      }
    } else if OccursBelow(node, name) {
      assert MentionedAt(node, [], name);
    }
  }

  // Below a child, names do not depend on the child's own.
  lemma {:induction false} NamedBelow(c: Child, path: seq<nat>)
    ensures path != [] && NodeAt(c.node, path).Some? ==> NameAt(c.node, c.name, path) == NameAt(c.node, "", path)
  {
  }

  lemma {:induction false} OccursFrom(groups: seq<Child>, name: string)
    ensures Occurs(groups, name) <==> exists i: nat, rest :: MentionedFrom(groups, i, rest, name)
    decreases groups, 1
  {
    if groups != [] {
      OccursByPath(groups[0].node, name);
      OccursFrom(groups[1..], name);
      if groups[0].name == name { assert MentionedFrom(groups, 0, [], name); }
      if rest :| MentionedAt(groups[0].node, rest, name) { assert MentionedFrom(groups, 0, rest, name); }
      if i: nat, rest :| MentionedFrom(groups[1..], i, rest, name) { assert MentionedFrom(groups, i + 1, rest, name); }
      if i: nat, rest :| MentionedFrom(groups, i, rest, name) {
        if i > 0 { assert MentionedFrom(groups[1..], i - 1, rest, name); }
      }
    }
  }

  // ----- what a deletion leaves behind -----

  // No group on the way, nor the last one, has that name.
  predicate Avoids(groups: seq<Child>, path: seq<nat>, name: string)
    decreases path
  {
    && path != [] && path[0] < |groups| && groups[path[0]].name != name
    && (|path| == 1 || (groups[path[0]].node.Group? && groups[path[0]].node.children.ChildMap?
                        && Avoids(groups[path[0]].node.children.groups, path[1..], name)))
  }

  function IsOther(name: string): Child -> bool {
    (c: Child) => c.name != name
  }

  // Where a surviving place is afterwards: before it at each level are the survivors that were before it.
  function Shifted(groups: seq<Child>, path: seq<nat>, name: string): seq<nat>
    requires Avoids(groups, path, name)
    decreases path
  {
    [|Filter(IsOther(name), groups[..path[0]])|]
    + if |path| == 1 then [] else Shifted(groups[path[0]].node.children.groups, path[1..], name)
  }

  // The children without that name: in a mapping all others, in order; in a list, which is not read further, the names
  // without its first mention.
  ghost predicate NameTakenOut(a: Children, b: Children, name: string) {
    match a
    case ChildMap(sub) => b.ChildMap? && ChildNames(b.groups) == Filter(Others(name), ChildNames(sub))
    case ChildList(names) => b.ChildList? && FirstTakenOut(names, name, b.names)
    case _ => b == a
  }

  // A survivor keeps its hosts with all their settings and its variables.
  ghost predicate Survives(before: Node, after: Node, name: string) {
    if before.NotAGroup? then after == before
    else after.Group? && after.hosts == before.hosts && after.others == before.others
         && NameTakenOut(before.children, after.children, name)
  }

  lemma {:induction false} NamesOfFirst(c: Child, rest: seq<Child>)
    ensures ChildNames([c] + rest) == [c.name] + ChildNames(rest)
  {
  }

  lemma {:induction false} DeletionKeepsNames(groups: seq<Child>, name: string)
    ensures ChildNames(RemoveGroup(groups, name)) == Filter(Others(name), ChildNames(groups))
  {
    if groups != [] {
      DeletionKeepsNames(groups[1..], name);
      assert groups == [groups[0]] + groups[1..];
      NamesOfFirst(groups[0], groups[1..]);
      assert ChildNames(groups)[1..] == ChildNames(groups[1..]);
      NamesOfFirst(groups[0].(node := RemoveBelow(groups[0].node, name)), RemoveGroup(groups[1..], name));
    }
  }

  lemma {:induction false} CountedBefore(groups: seq<Child>, name: string, i: nat)
    requires 0 < i <= |groups|
    ensures |Filter(IsOther(name), groups[..i])|
            == (if groups[0].name != name then 1 else 0) + |Filter(IsOther(name), groups[1..][..i - 1])|
  {
    assert groups[..i][0] == groups[0] && groups[..i][1..] == groups[1..][..i - 1];
  }

  lemma {:induction false} RemovedInTwo(groups: seq<Child>, name: string, k: nat)
    requires groups != [] && k < |RemoveGroup(groups[1..], name)|
    ensures var at := k + if groups[0].name != name then 1 else 0;
            at < |RemoveGroup(groups, name)| && RemoveGroup(groups, name)[at] == RemoveGroup(groups[1..], name)[k]
  {
  }

  // The survivors of one level.
  lemma {:induction false} SurvivorOf(groups: seq<Child>, name: string, i: nat)
    requires i < |groups| && groups[i].name != name
    ensures var k := |Filter(IsOther(name), groups[..i])|;
            && k < |RemoveGroup(groups, name)|
            && RemoveGroup(groups, name)[k] == groups[i].(node := RemoveBelow(groups[i].node, name))
  {
    if i > 0 {
      SurvivorOf(groups[1..], name, i - 1);
      CountedBefore(groups, name, i);
      RemovedInTwo(groups, name, |Filter(IsOther(name), groups[1..][..i - 1])|);
    }
  }

  lemma {:induction false} OneSurvivor(node: Node, name: string)
    ensures Survives(node, RemoveBelow(node, name), name)
  {
    if node.Group? {
      match node.children
      case ChildMap(sub) => DeletionKeepsNames(sub, name);
      case ChildList(names) => DropFirstTakesOut(names, name);
      case _ =>
    }
  }

  // Every place that does not lie under the name survives, under its name and with all it holds; and where its children
  // stay, so do theirs.
  lemma {:induction false} SurvivorsKept(groups: seq<Child>, path: seq<nat>, name: string)
    requires Avoids(groups, path, name)
    ensures var (before, after) := (NodeAt(Root(groups), path), NodeAt(Root(RemoveGroup(groups, name)), Shifted(groups, path, name)));
            before.Some? && after.Some? && Survives(before.value, after.value, name)
    ensures NameAt(Root(RemoveGroup(groups, name)), "", Shifted(groups, path, name)) == NameAt(Root(groups), "", path)
    decreases path
  {
    var i := path[0];
    var k := |Filter(IsOther(name), groups[..i])|;
    SurvivorOf(groups, name, i);
    var child := groups[i];
    if |path| == 1 {
      assert path == [i] && path[1..] == [] && Shifted(groups, path, name)[1..] == [];
      OneSurvivor(child.node, name);
    } else {
      var sub, rest := child.node.children.groups, path[1..];
      SurvivorsKept(sub, rest, name);
      var shifted := Shifted(sub, rest, name);
      assert Shifted(groups, path, name) == [k] + shifted;
      StepDown(Root(RemoveGroup(groups, name)), "", k, shifted);
      BelowRoot(child, path[1..]);
      BelowRoot(child.(node := RemoveBelow(child.node, name)), shifted);
    }
  }

  lemma {:induction false} BelowRoot(c: Child, path: seq<nat>)
    requires c.node.Group? && c.node.children.ChildMap? && path != []
    ensures NodeAt(c.node, path) == NodeAt(Root(c.node.children.groups), path)
    ensures NodeAt(c.node, path).Some? ==> NameAt(c.node, c.name, path) == NameAt(Root(c.node.children.groups), "", path)
  {
  }
}
