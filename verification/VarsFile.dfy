// Giving every host of an inventory tree a vars_file.
module VarsFile {
  import opened Options
  import opened Inventory
  import opened Rehoming

  predicate IsComment(s: string) {
    s != "" && s[0] == '#'
  }

  // ----- meaning of the pass -----

  // A host that is a string and no comment gets the default file unless its settings name one.
  function FilledConfig(k: Key, c: Config): Config {
    if k.Scalar? || IsComment(k.s) then c
    else match c
      case Null => Settings(Some(VarsFileFor(k.s)), 0)
      case Settings(None, others) => Settings(Some(VarsFileFor(k.s)), others)
      case _ => c
  }

  function FilledEntries(es: seq<(Key, Config)>): (r: seq<(Key, Config)>)
    ensures |r| == |es|
  {
    seq(|es|, i requires 0 <= i < |es| => (es[i].0, FilledConfig(es[i].0, es[i].1)))
  }

  // What a list item becomes as a mapping entry.
  function ItemConfig(k: Key): Config {
    if k.Str? && !IsComment(k.s) then Settings(Some(VarsFileFor(k.s)), 0) else Null
  }

  // Assignment into an ordered mapping: an existing key keeps its place.
  function Assign(es: seq<(Key, Config)>, k: Key, c: Config): seq<(Key, Config)> {
    if es == [] then [(k, c)]
    else if es[0].0 == k then [(k, c)] + es[1..]
    else [es[0]] + Assign(es[1..], k, c)
  }

  function FromList(keys: seq<Key>): seq<(Key, Config)> {
    if keys == [] then []
    else Assign(FromList(keys[..|keys| - 1]), keys[|keys| - 1], ItemConfig(keys[|keys| - 1]))
  }

  function FilledHosts(h: Hosts): Hosts {
    match h
    case HostMap(es) => HostMap(FilledEntries(es))
    case HostList(keys) => HostMap(FromList(keys))
    case _ => h
  }

  function Filled(node: Node): Node
    decreases node, 1
  {
    if node.NotAGroup? then node
    else node.(hosts := FilledHosts(node.hosts),
               children := if node.children.ChildMap? then ChildMap(FilledAll(node.children.groups)) else node.children)
  }

  function FilledAll(groups: seq<Child>): (r: seq<Child>)
    ensures |r| == |groups|
    decreases groups, 0
  {
    if groups == [] then [] else [groups[0].(node := Filled(groups[0].node))] + FilledAll(groups[1..])
  }

  // Some host of this group has no vars_file yet.
  predicate NeedsConfig(k: Key, c: Config) {
    k.Str? && !IsComment(k.s) && (c.Null? || (c.Settings? && c.varsFile == None))
  }

  predicate NeedsHosts(h: Hosts) {
    (h.HostMap? && exists i :: 0 <= i < |h.entries| && NeedsConfig(h.entries[i].0, h.entries[i].1))
    || (h.HostList? && exists k :: k in h.keys && k.Str? && !IsComment(k.s))
  }

  predicate Needs(node: Node)
    decreases node, 1
  {
    node.Group? && (NeedsHosts(node.hosts) || (node.children.ChildMap? && NeedsAny(node.children.groups)))
  }

  predicate NeedsAny(groups: seq<Child>)
    decreases groups, 0
  {
    groups != [] && (Needs(groups[0].node) || NeedsAny(groups[1..]))
  }

  // ----- the pass reaches a fixed point -----

  lemma {:induction false} FilledConfigStable(k: Key, c: Config)
    ensures FilledConfig(k, FilledConfig(k, c)) == FilledConfig(k, c)
    ensures !NeedsConfig(k, FilledConfig(k, c))
    ensures FilledConfig(k, c) != c <==> NeedsConfig(k, c)
  {
  }

  // A text that is no comment stands for a host; its file is named after it.
  predicate IsHostName(k: Key) {
    k.Str? && (k.s == "" || k.s[0] != '#')
  }

  // An item of a list, and an entry of a mapping, before and after.
  predicate ItemBecomes(k: Key, after: Config) {
    after == if IsHostName(k) then Settings(Some("host_vars/" + k.s + ".yml"), 0) else Null
  }

  predicate EntryBecomes(k: Key, before: Config, after: Config) {
    if IsHostName(k) && before == Null then after == Settings(Some("host_vars/" + k.s + ".yml"), 0)
    else if IsHostName(k) && before.Settings? && before.varsFile == None then after == Settings(Some("host_vars/" + k.s + ".yml"), before.others)
    else after == before
  }

  lemma {:induction false} EveryEntry(es: seq<(Key, Config)>, i: nat)
    requires i < |es|
    ensures FilledEntries(es)[i].0 == es[i].0 && EntryBecomes(es[i].0, es[i].1, FilledEntries(es)[i].1)
  {
  }

  // The items of the list, each once and in the order in which they first come.
  ghost predicate InListOrder(es: seq<(Key, Config)>, keys: seq<Key>) {
    forall i, j :: 0 <= i < j < |es| ==> FirstBefore(keys, es[i].0, es[j].0)
  }

  ghost predicate FirstBefore(keys: seq<Key>, a: Key, b: Key) {
    exists p :: 0 <= p < |keys| && keys[p] == a && b !in keys[..p + 1]
  }

  lemma {:induction false} FirstBeforeLonger(keys: seq<Key>, last: Key, a: Key, b: Key)
    ensures FirstBefore(keys, a, b) ==> FirstBefore(keys + [last], a, b)
    ensures a in keys && last !in keys ==> FirstBefore(keys + [last], a, last)
  {
    var longer := keys + [last];
    if p :| 0 <= p < |keys| && keys[p] == a && b !in keys[..p + 1] {
      assert longer[p] == a && longer[..p + 1] == keys[..p + 1];
    }
    if a in keys && last !in keys {
      var p :| 0 <= p < |keys| && keys[p] == a;
      assert longer[p] == a && longer[..p + 1] == keys[..p + 1];
    }
  }

  lemma {:induction false} AssignAtEnd(es: seq<(Key, Config)>, k: Key, c: Config)
    ensures var r := Assign(es, k, c);
            && (HasKey(es, k) ==> |r| == |es| && forall i :: 0 <= i < |r| ==> r[i].0 == es[i].0)
            && (!HasKey(es, k) ==> r == es + [(k, c)])
  {
    if es != [] {
      HasKeyStep(es, k);
      assert es == [es[0]] + es[1..];
      if es[0].0 != k {
        AssignAtEnd(es[1..], k, c);
        assert Assign(es, k, c) == [es[0]] + Assign(es[1..], k, c);
      }
    }
  }

  lemma {:induction false} AssignKeepsOrder(es: seq<(Key, Config)>, keys: seq<Key>, last: Key, c: Config)
    requires IsItems(es, keys) && InListOrder(es, keys)
    ensures InListOrder(Assign(es, last, c), keys + [last])
  {
    var r := Assign(es, last, c);
    AssignAtEnd(es, last, c);
    forall i, j | 0 <= i < j < |r| ensures FirstBefore(keys + [last], r[i].0, r[j].0) {
      assert r[i].0 == es[i].0;
      assert j < |es| ==> r[j].0 == es[j].0 && FirstBefore(keys, es[i].0, es[j].0);
      FirstBeforeLonger(keys, last, r[i].0, r[j].0);
    }
  }

  lemma {:induction false} FromListInOrder(keys: seq<Key>)
    ensures InListOrder(FromList(keys), keys)
  {
    if keys != [] {
      var front, last := keys[..|keys| - 1], keys[|keys| - 1];
      assert keys == front + [last];
      FromListInOrder(front);
      FromListIsItems(front);
      AssignKeepsOrder(FromList(front), front, last, ItemConfig(last));
    }
  }

  // Every key of the list has its item as entry, once.
  ghost predicate IsItems(es: seq<(Key, Config)>, keys: seq<Key>) {
    && (forall i :: 0 <= i < |es| ==> es[i].0 in keys && es[i].1 == ItemConfig(es[i].0))
    && (forall k :: k in keys ==> HasKey(es, k))
    && (forall i, j :: 0 <= i < j < |es| ==> es[i].0 != es[j].0)
  }

  lemma {:induction false} AssignItem(es: seq<(Key, Config)>, k: Key, c: Config)
    requires forall i, j :: 0 <= i < j < |es| ==> es[i].0 != es[j].0
    ensures var r := Assign(es, k, c);
            && (forall i :: 0 <= i < |r| ==> (r[i].0 == k && r[i].1 == c) || (r[i].0 != k && r[i] in es))
            && (forall other :: HasKey(r, other) <==> other == k || HasKey(es, other))
            && (forall i, j :: 0 <= i < j < |r| ==> r[i].0 != r[j].0)
  {
    var r := Assign(es, k, c);
    forall other ensures HasKey(r, other) <==> other == k || HasKey(es, other) {
      AssignKeys(es, k, c, other);
    }
    if es != [] {
      if es[0].0 == k {
        assert forall i :: 1 <= i < |r| ==> r[i] == es[i];
      } else {
        AssignItem(es[1..], k, c);
        assert forall i :: 1 <= i < |r| ==> r[i] == Assign(es[1..], k, c)[i - 1];
      }
    }
  }

  lemma {:induction false} AssignKeys(es: seq<(Key, Config)>, k: Key, c: Config, other: Key)
    ensures HasKey(Assign(es, k, c), other) <==> other == k || HasKey(es, other)
  {
    if es == [] {
      assert [(k, c)][0].0 == k;
    } else {
      HasKeyStep(es, other);
      HasKeyStep(Assign(es, k, c), other);
      if es[0].0 == k {
        assert ([(k, c)] + es[1..])[1..] == es[1..];
      } else {
        AssignKeys(es[1..], k, c, other);
        assert ([es[0]] + Assign(es[1..], k, c))[1..] == Assign(es[1..], k, c);
      }
    }
  }

  lemma {:induction false} FromListIsItems(keys: seq<Key>)
    ensures IsItems(FromList(keys), keys)
  {
    if keys != [] {
      var front, last := keys[..|keys| - 1], keys[|keys| - 1];
      FromListIsItems(front);
      AssignItem(FromList(front), last, ItemConfig(last));
      assert keys == front + [last];
    }
  }

  lemma {:induction false} FilledHostsStable(h: Hosts)
    ensures FilledHosts(FilledHosts(h)) == FilledHosts(h)
    ensures !NeedsHosts(FilledHosts(h))
  {
    if h.HostMap? {
      forall i | 0 <= i < |h.entries| ensures FilledEntries(FilledEntries(h.entries))[i] == FilledEntries(h.entries)[i] {
        FilledConfigStable(h.entries[i].0, h.entries[i].1);
      }
    } else if h.HostList? {
      FromListIsItems(h.keys);
      assert FilledEntries(FromList(h.keys)) == FromList(h.keys);
    }
  }

  // One pass is enough: a second one returns an equal tree and reports no change.
  lemma {:induction false} OnePassSuffices(node: Node)
    ensures Filled(Filled(node)) == Filled(node) && !Needs(Filled(node))
    decreases node, 1
  {
    if node.Group? {
      FilledHostsStable(node.hosts);
      if node.children.ChildMap? { OnePassSufficesAll(node.children.groups); }
    }
  }

  lemma {:induction false} OnePassSufficesAll(groups: seq<Child>)
    ensures FilledAll(FilledAll(groups)) == FilledAll(groups) && !NeedsAny(FilledAll(groups))
    decreases groups, 0
  {
    if groups != [] {
      OnePassSuffices(groups[0].node);
      OnePassSufficesAll(groups[1..]);
      assert FilledAll(groups)[1..] == FilledAll(groups[1..]);
    }
  }

  // ----- every place of the tree -----

  // What the pass does to the hosts of one group.
  ghost predicate HostsBecome(a: Hosts, b: Hosts) {
    match a
    case HostMap(es) => b.HostMap? && |b.entries| == |es|
                        && forall i :: 0 <= i < |es| ==> b.entries[i].0 == es[i].0 && EntryBecomes(es[i].0, es[i].1, b.entries[i].1)
    case HostList(keys) =>
      && b.HostMap? && InListOrder(b.entries, keys) && (forall k :: k in keys ==> HasKey(b.entries, k))
      && forall i :: 0 <= i < |b.entries| ==> b.entries[i].0 in keys && ItemBecomes(b.entries[i].0, b.entries[i].1)
    case _ => b == a
  }

  ghost predicate PlaceBecomes(before: Option<Node>, after: Option<Node>) {
    if before.Some? && before.value.Group? then
      && after.Some? && after.value.Group? && after.value.others == before.value.others
      && SameChildNames(before.value.children, after.value.children) && HostsBecome(before.value.hosts, after.value.hosts)
    else after == before
  }

  lemma {:induction false} FilledHostsBecome(h: Hosts)
    ensures HostsBecome(h, FilledHosts(h))
  {
    if h.HostMap? {
      forall i | 0 <= i < |h.entries| ensures EntryBecomes(h.entries[i].0, h.entries[i].1, FilledEntries(h.entries)[i].1) {
        EveryEntry(h.entries, i);
      }
    } else if h.HostList? {
      FromListIsItems(h.keys);
      FromListInOrder(h.keys);
    }
  }

  lemma {:induction false} FilledAllAt(groups: seq<Child>, i: nat)
    requires i < |groups|
    ensures FilledAll(groups)[i] == groups[i].(node := Filled(groups[i].node))
  {
    if i > 0 { FilledAllAt(groups[1..], i - 1); }
  }

  lemma {:induction false} FillingKeepsNames(groups: seq<Child>)
    ensures ChildNames(FilledAll(groups)) == ChildNames(groups)
  {
    forall i | 0 <= i < |groups| ensures ChildNames(FilledAll(groups))[i] == ChildNames(groups)[i] {
      FilledAllAt(groups, i);
    }
  }

  // At every place the pass touches the hosts only: variables, child names and data that is no group stay.
  lemma {:induction false} FillingLeavesTheRest(node: Node, path: seq<nat>)
    ensures PlaceBecomes(NodeAt(node, path), NodeAt(Filled(node), path))
    decreases path
  {
    if node.Group? {
      if path == [] {
        FilledHostsBecome(node.hosts);
        if node.children.ChildMap? { FillingKeepsNames(node.children.groups); }
      } else if node.children.ChildMap? && path[0] < |node.children.groups| {
        FilledAllAt(node.children.groups, path[0]);
        FillingLeavesTheRest(node.children.groups[path[0]].node, path[1..]);
      }
    }
  }

  // A group at this place has a host that is to gain a file.
  ghost predicate GainsAt(node: Node, path: seq<nat>) {
    NodeAt(node, path).Some? && NodeAt(node, path).value.Group?
    && var h := NodeAt(node, path).value.hosts;
    && (|| (exists k :: k in ListedKeys(h) && IsHostName(k))
        || (exists e :: e in Entries(h) && IsHostName(e.0) && (e.1 == Null || (e.1.Settings? && e.1.varsFile == None))))
  }

  ghost predicate GainsFrom(groups: seq<Child>, i: nat, rest: seq<nat>) {
    i < |groups| && GainsAt(groups[i].node, rest)
  }

  lemma {:induction false} NeedsHere(h: Hosts)
    ensures NeedsHosts(h) <==>
              || (exists k :: k in ListedKeys(h) && IsHostName(k))
              || (exists e :: e in Entries(h) && IsHostName(e.0) && (e.1 == Null || (e.1.Settings? && e.1.varsFile == None)))
  {
    if h.HostMap? {
      if i :| 0 <= i < |h.entries| && NeedsConfig(h.entries[i].0, h.entries[i].1) { assert h.entries[i] in h.entries; }
      if e :| e in h.entries && IsHostName(e.0) && (e.1 == Null || (e.1.Settings? && e.1.varsFile == None)) {
        var i :| 0 <= i < |h.entries| && h.entries[i] == e;
        assert NeedsConfig(h.entries[i].0, h.entries[i].1);
      }
    } else if h.HostList? {
      assert ListedKeys(h) == h.keys && forall k :: k in h.keys ==> (IsHostName(k) <==> k.Str? && !IsComment(k.s));
    }
  }

  // The flag is raised exactly when some host, somewhere in the tree, gains a file.
  lemma {:induction false} NeedsByPath(node: Node)
    ensures Needs(node) <==> exists path :: GainsAt(node, path)
    decreases node, 1
  {
    if node.Group? {
      NeedsHere(node.hosts);
      if NeedsHosts(node.hosts) { assert GainsAt(node, []); }
      if node.children.ChildMap? {
        NeedsFrom(node.children.groups);
        if i: nat, rest :| GainsFrom(node.children.groups, i, rest) {
          StepDown(node, "", i, rest);
          assert GainsAt(node, [i] + rest);
        }
      }
      if path :| GainsAt(node, path) {
        if path != [] { assert GainsFrom(node.children.groups, path[0], path[1..]); }
      }
    }
  }

  lemma {:induction false} NeedsFrom(groups: seq<Child>)
    ensures NeedsAny(groups) <==> exists i: nat, rest :: GainsFrom(groups, i, rest)
    decreases groups, 0
  {
    if groups != [] {
      NeedsByPath(groups[0].node);
      NeedsFrom(groups[1..]);
      if rest :| GainsAt(groups[0].node, rest) { assert GainsFrom(groups, 0, rest); }
      if i: nat, rest :| GainsFrom(groups[1..], i, rest) { assert GainsFrom(groups, i + 1, rest); }
      if i: nat, rest :| GainsFrom(groups, i, rest) {
        if i > 0 { assert GainsFrom(groups[1..], i - 1, rest); }
      }
    }
  }

  // ----- when a changed tree is not reported -----

  // Some group of the tree lists its hosts, instead of mapping them to settings.
  predicate HasList(node: Node)
    decreases node, 1
  {
    node.Group? && (node.hosts.HostList? || (node.children.ChildMap? && HasListAny(node.children.groups)))
  }

  predicate HasListAny(groups: seq<Child>)
    decreases groups, 0
  {
    groups != [] && (HasList(groups[0].node) || HasListAny(groups[1..]))
  }

  lemma {:induction false} HostsChange(h: Hosts)
    ensures FilledHosts(h) != h <==> NeedsHosts(h) || h.HostList?
  {
    if h.HostMap? {
      var f := FilledEntries(h.entries);
      forall i | 0 <= i < |f| ensures f[i] != h.entries[i] <==> NeedsConfig(h.entries[i].0, h.entries[i].1) {
        FilledConfigStable(h.entries[i].0, h.entries[i].1);
      }
      if !NeedsHosts(h) { assert f == h.entries; }
    }
  }

  // The pass changes a tree exactly when some host needs a file or some group lists its hosts. The flag tells only the
  // former, so a tree is changed and not reported exactly when it has lists and no host of it needs a file.
  lemma {:induction false} ChangedTree(node: Node)
    ensures Filled(node) != node <==> Needs(node) || HasList(node)
    ensures Filled(node) != node && !Needs(node) <==> HasList(node) && !Needs(node)
    decreases node, 1
  {
    if node.Group? {
      HostsChange(node.hosts);
      if node.children.ChildMap? { ChangedTrees(node.children.groups); }
    }
  }

  lemma {:induction false} ChangedTrees(groups: seq<Child>)
    ensures FilledAll(groups) != groups <==> NeedsAny(groups) || HasListAny(groups)
    decreases groups, 0
  {
    if groups != [] {
      ChangedTree(groups[0].node);
      ChangedTrees(groups[1..]);
      assert groups == [groups[0]] + groups[1..] && FilledAll(groups)[1..] == FilledAll(groups[1..]);
    }
  }

  // A list of comments becomes a mapping, and nothing says so.
  lemma {:induction false} CommentsAreNotReported()
    ensures var node := Group(HostList([Str("#old")]), NoChildren, 0);
            Filled(node) == Group(HostMap([(Str("#old"), Null)]), NoChildren, 0) && !Needs(node)
  {
    var keys := [Str("#old")];
    assert keys[..0] == [] && FromList([]) == [];
    assert FromList(keys) == Assign([], Str("#old"), ItemConfig(Str("#old")));
  }

  // ----- who is in which group -----

  predicate HasHost(h: Hosts, k: Key) {
    (h.HostMap? && HasKey(h.entries, k)) || (h.HostList? && k in h.keys)
  }

  // Host k is listed by the group at the end of this path of group names.
  predicate Member(node: Node, path: seq<string>, k: Key)
    decreases node, 1
  {
    node.Group? && if path == [] then HasHost(node.hosts, k)
                   else node.children.ChildMap? && MemberOfAny(node.children.groups, path, k)
  }

  predicate MemberOfAny(groups: seq<Child>, path: seq<string>, k: Key)
    requires path != []
    decreases groups, 0
  {
    groups != [] && ((groups[0].name == path[0] && Member(groups[0].node, path[1..], k)) || MemberOfAny(groups[1..], path, k))
  }

  lemma {:induction false} HostsKept(h: Hosts, k: Key)
    ensures HasHost(FilledHosts(h), k) <==> HasHost(h, k)
  {
    if h.HostMap? {
      var f := FilledEntries(h.entries);
      assert forall i :: 0 <= i < |f| ==> f[i].0 == h.entries[i].0;
      if HasKey(f, k) {
        var i :| 0 <= i < |f| && f[i].0 == k;
        assert h.entries[i].0 == k;
      }
      if HasKey(h.entries, k) {
        var i :| 0 <= i < |h.entries| && h.entries[i].0 == k;
        assert f[i].0 == k;
      }
    } else if h.HostList? {
      FromListIsItems(h.keys);
    }
  }

  // No host joins or leaves a group.
  lemma {:induction false} MembershipsKept(node: Node, path: seq<string>, k: Key)
    ensures Member(Filled(node), path, k) <==> Member(node, path, k)
    decreases node, 1
  {
    if node.Group? {
      HostsKept(node.hosts, k);
      if path != [] && node.children.ChildMap? { MembershipsKeptAll(node.children.groups, path, k); }
    }
  }

  lemma {:induction false} MembershipsKeptAll(groups: seq<Child>, path: seq<string>, k: Key)
    requires path != []
    ensures MemberOfAny(FilledAll(groups), path, k) <==> MemberOfAny(groups, path, k)
    decreases groups, 0
  {
    if groups != [] {
      MembershipsKept(groups[0].node, path[1..], k);
      MembershipsKeptAll(groups[1..], path, k);
      assert FilledAll(groups)[1..] == FilledAll(groups[1..]);
    }
  }

  // What a mapping entry ends up with: a host keeps the file it names and every other setting, and gains one if it
  // names none; anything else is untouched.
  lemma {:induction false} EntryOutcome(es: seq<(Key, Config)>, i: nat)
    requires i < |es|
    ensures var (k, before), (k', after) := (es[i].0, es[i].1), (FilledEntries(es)[i].0, FilledEntries(es)[i].1);
            && k' == k
            && (IsHostName(k) && (before == Null || before.Settings?) ==> after.Settings? && after.varsFile.Some?)
            && (IsHostName(k) && (before == Null || (before.Settings? && before.varsFile == None)) ==>
                  after.varsFile == Some("host_vars/" + k.s + ".yml"))
            && (before.Settings? ==> after.Settings? && after.others == before.others)
            && (before.Settings? && before.varsFile.Some? ==> after == before)
            && (!IsHostName(k) || before.Plain? ==> after == before)
  {
    EveryEntry(es, i);
  }

  // ----- the pass as the server runs it -----

  method UpdateHosts(h: Hosts, updated: bool) returns (h': Hosts, flag: bool)
    ensures h' == FilledHosts(h)
    ensures flag <==> updated || NeedsHosts(h)
  {
    h', flag := h, updated;
    match h {
      case HostMap(es) =>
        var updatedHosts: seq<(Key, Config)> := [];
        for i := 0 to |es|
          invariant updatedHosts == FilledEntries(es)[..i]
          invariant flag <==> updated || exists j :: 0 <= j < i && NeedsConfig(es[j].0, es[j].1)
        {
          var (host, config) := es[i];
          if host.Str? && !IsComment(host.s) {
            if config == Null {
              config := Settings(None, 0);
              flag := true;
            }
            if config.Settings? && config.varsFile == None {
              config := config.(varsFile := Some(VarsFileFor(host.s)));
              flag := true;
            }
          }
          updatedHosts := updatedHosts + [(host, config)];
        }
        h' := HostMap(updatedHosts);
      case HostList(keys) =>
        var updatedHosts: seq<(Key, Config)> := [];
        for i := 0 to |keys|
          invariant updatedHosts == FromList(keys[..i])
          invariant flag <==> updated || exists j :: 0 <= j < i && keys[j].Str? && !IsComment(keys[j].s)
        {
          var host := keys[i];
          if host.Str? && !IsComment(host.s) {
            updatedHosts := Assign(updatedHosts, host, Settings(Some(VarsFileFor(host.s)), 0));
            flag := true;
          } else {
            updatedHosts := Assign(updatedHosts, host, Null);
          }
          assert keys[..i + 1][..i] == keys[..i];
        }
        assert keys[..|keys|] == keys;
        h' := HostMap(updatedHosts);
      case _ =>
    }
  }

  // Returns the tree with every host's file named, and the flag it was given or true when a host gained one.
  method UpdateHostsVarsFile(group: Node, updated: bool) returns (group': Node, flag: bool)
    ensures group' == Filled(group)
    ensures flag <==> updated || Needs(group)
    decreases group, 1
  {
    group', flag := group, updated;
    if group.NotAGroup? { return; }
    var hosts;
    hosts, flag := UpdateHosts(group.hosts, flag);
    group' := group'.(hosts := hosts);
    if group.children.ChildMap? {
      var children;
      children, flag := UpdateChildren(group.children.groups, flag);
      group' := group'.(children := ChildMap(children));
    }
  }

  method UpdateChildren(groups: seq<Child>, updated: bool) returns (updatedChildren: seq<Child>, flag: bool)
    ensures updatedChildren == FilledAll(groups)
    ensures flag <==> updated || NeedsAny(groups)
    decreases groups, 0
  {
    updatedChildren, flag := [], updated;
    for i := 0 to |groups|
      invariant |updatedChildren| == i
      invariant forall j :: 0 <= j < i ==> updatedChildren[j] == groups[j].(node := Filled(groups[j].node))
      invariant flag <==> updated || exists j :: 0 <= j < i && Needs(groups[j].node)
    {
      var child := groups[i];
      if child.node.Group? {
        var node, childUpdated := UpdateHostsVarsFile(child.node, flag);
        child := child.(node := node);
        if childUpdated { flag := true; }
      }
      updatedChildren := updatedChildren + [child];
    }
    FilledByIndex(groups, updatedChildren);
    NeedsByIndex(groups);
  }

  lemma {:induction false} FilledByIndex(groups: seq<Child>, filled: seq<Child>)
    requires |filled| == |groups|
    requires forall j :: 0 <= j < |groups| ==> filled[j] == groups[j].(node := Filled(groups[j].node))
    ensures filled == FilledAll(groups)
  {
    if groups != [] {
      FilledByIndex(groups[1..], filled[1..]);
      assert filled == [filled[0]] + filled[1..];
    }
  }

  lemma {:induction false} NeedsByIndex(groups: seq<Child>)
    ensures NeedsAny(groups) <==> exists j :: 0 <= j < |groups| && Needs(groups[j].node)
  {
    if groups != [] {
      NeedsByIndex(groups[1..]);
      if j :| 0 <= j < |groups[1..]| && Needs(groups[1..][j].node) {
        assert groups[j + 1] == groups[1..][j];
      }
      if j :| 0 <= j < |groups| && Needs(groups[j].node) {
        if j > 0 { assert groups[1..][j - 1] == groups[j]; }
      }
    }
  }
}
