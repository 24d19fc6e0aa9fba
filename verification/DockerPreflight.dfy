// Putting the Python dependencies of Docker modules in front of the tasks that need them.
module DockerPreflight {
  import opened TextLines

  // Parsed YAML. Other stands for numbers, dates and the like.
  datatype Yaml =
    | Null
    | Bool(b: bool)
    | Str(s: string)
    | Other(id: int, truthy: bool)
    | List(items: seq<Yaml>)
    | Dict(entries: seq<Entry>)
  datatype Entry = Entry(key: Yaml, value: Yaml)

  // How values other than strings are shown is left open.
  ghost predicate ShowsStrings(show: Yaml -> string) {
    forall s :: show(Str(s)) == s
  }

  const DOCKER_MODULE_KEYS := {
    "community.docker.docker_login", "community.docker.docker_image", "community.docker.docker_container",
    "community.docker.docker_network", "community.docker.docker_volume",
    "docker_login", "docker_image", "docker_container", "docker_network", "docker_volume"
  }
  const DOCKER_COLLECTION := "community.docker."
  const PREFIX := "OpenSible preflight | Ensure Python deps for community.docker"
  const INSTALLERS := ["ansible.builtin.apt", "apt", "ansible.builtin.package", "package"]

  predicate OccursAt(s: string, part: string, i: int) {
    0 <= i <= |s| - |part| && s[i..i + |part|] == part
  }

  predicate Contains(s: string, part: string) {
    exists i :: 0 <= i <= |s| && OccursAt(s, part, i)
  }

  lemma {:induction false} ContainsIsPart(s: string, part: string)
    ensures Contains(s, part) <==> exists a, b :: s == a + part + b
  {
    if i :| 0 <= i <= |s| && OccursAt(s, part, i) {
      assert s == s[..i] + part + s[i + |part|..];
    }
    if a, b :| s == a + part + b {
      assert OccursAt(s, part, |a|) by { assert (a + part + b)[|a|..|a| + |part|] == part; }
    }
  }

  // ----- which tasks use Docker -----

  predicate IsDockerKey(key: Yaml) {
    key.Str? && (key.s in DOCKER_MODULE_KEYS || DOCKER_COLLECTION <= key.s)
  }

  predicate NamesDocker(s: string) {
    Contains(s, DOCKER_COLLECTION) || exists key :: key in DOCKER_MODULE_KEYS && Contains(s, key + ":")
  }

  predicate ObjectUsesDocker(value: Yaml)
    decreases value, 1
  {
    match value
    case Dict(entries) => AnyEntryUsesDocker(entries)
    case List(items) => AnyItemUsesDocker(items)
    case Str(s) => NamesDocker(s)
    case _ => false
  }

  predicate AnyItemUsesDocker(items: seq<Yaml>)
    decreases items, 0
  {
    items != [] && (ObjectUsesDocker(items[0]) || AnyItemUsesDocker(items[1..]))
  }

  predicate AnyEntryUsesDocker(entries: seq<Entry>)
    decreases entries, 0
  {
    entries != [] && (EntryUsesDocker(entries[0]) || AnyEntryUsesDocker(entries[1..]))
  }

  predicate EntryUsesDocker(entry: Entry)
    decreases entry, 0
  {
    IsDockerKey(entry.key) || ObjectUsesDocker(entry.value)
  }

  // Every text in a value, at any depth, and every mapping key.
  function Texts(value: Yaml): set<string>
    decreases value, 1
  {
    match value
    case Dict(entries) => TextsOfEntries(entries)
    case List(items) => TextsOfItems(items)
    case Str(s) => {s}
    case _ => {}
  }

  function TextsOfItems(items: seq<Yaml>): set<string>
    decreases items, 0
  {
    if items == [] then {} else Texts(items[0]) + TextsOfItems(items[1..])
  }

  function TextsOfEntries(entries: seq<Entry>): set<string>
    decreases entries, 0
  {
    if entries == [] then {} else TextsOfEntry(entries[0]) + TextsOfEntries(entries[1..])
  }

  function TextsOfEntry(entry: Entry): set<string>
    decreases entry, 0
  {
    Texts(entry.value)
  }

  function Keys(value: Yaml): set<Yaml>
    decreases value, 1
  {
    match value
    case Dict(entries) => KeysOfEntries(entries)
    case List(items) => KeysOfItems(items)
    case _ => {}
  }

  function KeysOfItems(items: seq<Yaml>): set<Yaml>
    decreases items, 0
  {
    if items == [] then {} else Keys(items[0]) + KeysOfItems(items[1..])
  }

  function KeysOfEntries(entries: seq<Entry>): set<Yaml>
    decreases entries, 0
  {
    if entries == [] then {} else KeysOfEntry(entries[0]) + KeysOfEntries(entries[1..])
  }

  function KeysOfEntry(entry: Entry): set<Yaml>
    decreases entry, 0
  {
    {entry.key} + Keys(entry.value)
  }

  predicate Mentions(texts: set<string>, keys: set<Yaml>) {
    (exists t :: t in texts && NamesDocker(t)) || (exists k :: k in keys && IsDockerKey(k))
  }

  lemma {:induction false} MentionsUnion(t: set<string>, u: set<string>, k: set<Yaml>, l: set<Yaml>)
    ensures Mentions(t + u, k + l) <==> Mentions(t, k) || Mentions(u, l)
  {
  }

  // A structure uses Docker exactly when some text in it names a module or some key is one.
  lemma {:induction false} ObjectMentions(value: Yaml)
    ensures ObjectUsesDocker(value) <==> Mentions(Texts(value), Keys(value))
    decreases value, 1
  {
    match value {
      case Dict(entries) => EntriesMention(entries);
      case List(items) => ItemsMention(items);
      case Str(s) => assert s in Texts(value);
      case _ =>
    }
  }

  lemma {:induction false} ItemsMention(items: seq<Yaml>)
    ensures AnyItemUsesDocker(items) <==> Mentions(TextsOfItems(items), KeysOfItems(items))
    decreases items, 0
  {
    if items != [] {
      ObjectMentions(items[0]);
      ItemsMention(items[1..]);
      MentionsUnion(Texts(items[0]), TextsOfItems(items[1..]), Keys(items[0]), KeysOfItems(items[1..]));
    }
  }

  lemma {:induction false} EntriesMention(entries: seq<Entry>)
    ensures AnyEntryUsesDocker(entries) <==> Mentions(TextsOfEntries(entries), KeysOfEntries(entries))
    decreases entries, 0
  {
    if entries != [] {
      EntryMentions(entries[0]);
      EntriesMention(entries[1..]);
      MentionsUnion(TextsOfEntry(entries[0]), TextsOfEntries(entries[1..]), KeysOfEntry(entries[0]), KeysOfEntries(entries[1..]));
    }
  }

  lemma {:induction false} EntryMentions(entry: Entry)
    ensures EntryUsesDocker(entry) <==> Mentions(TextsOfEntry(entry), KeysOfEntry(entry))
    decreases entry, 0
  {
    ObjectMentions(entry.value);
    MentionsUnion({}, Texts(entry.value), {entry.key}, Keys(entry.value));
    assert entry.key in {entry.key} && {} + Texts(entry.value) == Texts(entry.value);
  }

  // At the top of a task, text is no sign of a module: only keys and nested structures are.
  predicate TaskUsesDocker(task: Yaml) {
    task.Dict? && exists i :: 0 <= i < |task.entries| &&
                    (IsDockerKey(task.entries[i].key)
                     || ((task.entries[i].value.Dict? || task.entries[i].value.List?) && ObjectUsesDocker(task.entries[i].value)))
  }

  lemma {:induction false} ModuleNames(name: string)
    requires name in DOCKER_MODULE_KEYS
    ensures name in {"docker_login", "docker_image", "docker_container", "docker_network", "docker_volume"} || "community.docker." <= name
  {
  }

  // The keys of Docker modules, and the texts that name one, spelled out.
  lemma {:induction false} DockerKeysAre(key: Yaml)
    ensures IsDockerKey(key) <==>
              key.Str? && (|| "community.docker." <= key.s
                           || key.s in {"docker_login", "docker_image", "docker_container", "docker_network", "docker_volume"})
  {
    if key.Str? && key.s in DOCKER_MODULE_KEYS { ModuleNames(key.s); }
  }

  lemma {:induction false} ContainsFront(s: string, front: string, part: string)
    requires Contains(s, part) && front <= part
    ensures Contains(s, front)
  {
    var i :| 0 <= i <= |s| && OccursAt(s, part, i);
    assert s[i..i + |front|] == s[i..i + |part|][..|front|];
    assert OccursAt(s, front, i);
  }

  lemma {:induction false} DockerTextsAre(s: string)
    ensures NamesDocker(s) <==>
              || Contains(s, "community.docker.")
              || exists name :: name in {"docker_login", "docker_image", "docker_container", "docker_network", "docker_volume"}
                                && Contains(s, name + ":")
  {
    if name :| name in DOCKER_MODULE_KEYS && Contains(s, name + ":") {
      ModuleNames(name);
      if "community.docker." <= name { ContainsFront(s, "community.docker.", name + ":"); }
    }
  }

  // A task uses Docker if a key in it, at any depth, is a Docker key, or a text inside one of its lists or mappings
  // names a module.
  ghost predicate UsesDocker(task: Yaml) {
    task.Dict?
    && (|| (exists k :: k in Keys(task) && IsDockerKey(k))
        || (exists e, t :: e in task.entries && (e.value.Dict? || e.value.List?) && t in Texts(e.value) && NamesDocker(t)))
  }

  lemma {:induction false} KeysByEntry(entries: seq<Entry>, k: Yaml)
    ensures k in KeysOfEntries(entries) <==> exists i :: 0 <= i < |entries| && (k == entries[i].key || k in Keys(entries[i].value))
  {
    if entries != [] {
      KeysByEntry(entries[1..], k);
      if i :| 0 <= i < |entries[1..]| && (k == entries[1..][i].key || k in Keys(entries[1..][i].value)) {
        assert entries[i + 1] == entries[1..][i];
      }
      if i :| 0 <= i < |entries| && (k == entries[i].key || k in Keys(entries[i].value)) {
        if i > 0 { assert entries[1..][i - 1] == entries[i]; }
      }
    }
  }

  lemma {:induction false} EntryOfTask(task: Yaml, i: nat)
    requires task.Dict? && i < |task.entries|
    requires || IsDockerKey(task.entries[i].key)
             || ((task.entries[i].value.Dict? || task.entries[i].value.List?) && ObjectUsesDocker(task.entries[i].value))
    ensures UsesDocker(task)
  {
    var e := task.entries[i];
    KeysByEntry(task.entries, e.key);
    if !IsDockerKey(e.key) {
      ObjectMentions(e.value);
      if k :| k in Keys(e.value) && IsDockerKey(k) {
        KeysByEntry(task.entries, k);
      } else {
        var t :| t in Texts(e.value) && NamesDocker(t);
        assert e in task.entries;
      }
    }
  }

  lemma {:induction false} TaskUsesIff(task: Yaml)
    ensures TaskUsesDocker(task) <==> UsesDocker(task)
  {
    if task.Dict? {
      if TaskUsesDocker(task) {
        var i :| 0 <= i < |task.entries| && (IsDockerKey(task.entries[i].key)
                   || ((task.entries[i].value.Dict? || task.entries[i].value.List?) && ObjectUsesDocker(task.entries[i].value)));
        EntryOfTask(task, i);
      }
      if k :| k in Keys(task) && IsDockerKey(k) {
        KeysByEntry(task.entries, k);
        var i :| 0 <= i < |task.entries| && (k == task.entries[i].key || k in Keys(task.entries[i].value));
        ObjectMentions(task.entries[i].value);
      } else if UsesDocker(task) {
        var e, t :| e in task.entries && (e.value.Dict? || e.value.List?) && t in Texts(e.value) && NamesDocker(t);
        ObjectMentions(e.value);
        var i :| 0 <= i < |task.entries| && task.entries[i] == e;
      }
    }
  }

  // ----- which tasks install the dependencies -----

  // d.get(key)
  function Get(entries: seq<Entry>, key: string): Yaml {
    if entries == [] then Null
    else if entries[0].key == Str(key) then entries[0].value
    else Get(entries[1..], key)
  }

  predicate Truthy(value: Yaml) {
    match value
    case Null => false
    case Bool(b) => b
    case Str(s) => s != ""
    case Other(_, truthy) => truthy
    case List(items) => items != []
    case Dict(entries) => entries != []
  }

  function Shown(show: Yaml -> string, items: seq<Yaml>): seq<string> {
    seq(|items|, i requires 0 <= i < |items| => show(items[i]))
  }

  predicate InstallsPackages(show: Yaml -> string, args: Yaml) {
    args.Dict? &&
    var names := Get(args.entries, "name");
    var text := if names.Str? then names.s else if names.List? then Join(Shown(show, names.items), ' ') else "";
    Contains(text, "python3-docker") && Contains(text, "python3-requests")
  }

  predicate TaskInstallsDeps(show: Yaml -> string, task: Yaml) {
    task.Dict? &&
    var name := Get(task.entries, "name");
    (PREFIX <= (if Truthy(name) then show(name) else "")
     || exists m :: m in INSTALLERS && InstallsPackages(show, Get(task.entries, m)))
  }

  // The first entry of that key.
  predicate FirstEntry(entries: seq<Entry>, key: string, i: int) {
    0 <= i < |entries| && entries[i].key == Str(key) && forall j :: 0 <= j < i ==> entries[j].key != Str(key)
  }

  lemma {:induction false} GetIsFirst(entries: seq<Entry>, key: string)
    ensures forall i :: FirstEntry(entries, key, i) ==> Get(entries, key) == entries[i].value
    ensures (exists i :: FirstEntry(entries, key, i)) || Get(entries, key) == Null
  {
    if entries != [] {
      if entries[0].key == Str(key) {
        assert FirstEntry(entries, key, 0);
      } else {
        GetIsFirst(entries[1..], key);
        forall i | FirstEntry(entries, key, i) ensures Get(entries, key) == entries[i].value {
          assert entries[1..][i - 1] == entries[i];
          assert FirstEntry(entries[1..], key, i - 1) by {
            forall j | 0 <= j < i - 1 ensures entries[1..][j].key != Str(key) { assert entries[1..][j] == entries[j + 1]; }
          }
        }
        if i :| FirstEntry(entries[1..], key, i) {
          assert FirstEntry(entries, key, i + 1) by {
            forall j | 0 <= j < i + 1 ensures entries[j].key != Str(key) {
              if j > 0 { assert entries[1..][j - 1] == entries[j]; }
            }
          }
        }
      }
    }
  }

  lemma {:induction false} CoveredIsIn(s: string, part: string, i: nat, k: nat)
    requires OccursAt(s, part, i) && i <= k < i + |part|
    ensures s[k] in part
  {
    assert s[k] == s[i..i + |part|][k - i];
  }

  lemma {:induction false} ContainsInside(x: string, y: string, z: string, part: string)
    requires Contains(y, part)
    ensures Contains(x + y + z, part)
  {
    ContainsIsPart(y, part);
    var a, b :| y == a + part + b;
    assert x + y + z == (x + a) + part + (b + z);
    ContainsIsPart(x + y + z, part);
  }

  lemma {:induction false} OccursInFront(a: string, b: string, part: string, i: nat)
    requires OccursAt(a + b, part, i) && i + |part| <= |a|
    ensures Contains(a, part)
  {
    assert a[i..i + |part|] == (a + b)[i..i + |part|];
    assert OccursAt(a, part, i);
  }

  lemma {:induction false} OccursBehind(a: string, b: string, part: string, i: nat)
    requires OccursAt(a + b, part, i) && i >= |a|
    ensures Contains(b, part)
  {
    assert b[i - |a|..i - |a| + |part|] == (a + b)[i..i + |part|];
    assert OccursAt(b, part, i - |a|);
  }

  lemma {:induction false} ContainsAround(a: string, c: char, b: string, part: string)
    requires part != "" && c !in part
    ensures Contains(a + [c] + b, part) <==> Contains(a, part) || Contains(b, part)
  {
    var s := a + [c] + b;
    assert s == a + ([c] + b) && s == (a + [c]) + b && s == a + [c] + b + "" && s == "" + a + ([c] + b);
    if i: nat :| 0 <= i <= |s| && OccursAt(s, part, i) {
      if i + |part| <= |a| {
        OccursInFront(a, [c] + b, part, i);
      } else if i > |a| {
        OccursBehind(a + [c], b, part, i);
      } else {
        CoveredIsIn(s, part, i, |a|);
      }
    }
    if Contains(a, part) { ContainsInside("", a, [c] + b, part); }
    if Contains(b, part) { ContainsInside(a + [c], b, "", part); }
  }

  // A word is in the list of names exactly when it is in one of them.
  lemma {:induction false} ContainsInJoin(parts: seq<string>, part: string)
    requires part != "" && ' ' !in part
    ensures Contains(Join(parts, ' '), part) <==> exists i :: 0 <= i < |parts| && Contains(parts[i], part)
  {
    if |parts| > 1 {
      var rest := parts[1..];
      ContainsInJoin(rest, part);
      ContainsAround(parts[0], ' ', Join(rest, ' '), part);
      if i :| 0 <= i < |rest| && Contains(rest[i], part) { assert parts[i + 1] == rest[i]; }
      if i :| 0 <= i < |parts| && Contains(parts[i], part) {
        if i > 0 { assert rest[i - 1] == parts[i]; }
      }
    }
  }

  // Some package is named in the text or in one of the shown items of the list.
  ghost predicate NamesPackage(show: Yaml -> string, names: Yaml, package: string) {
    || (names.Str? && Contains(names.s, package))
    || (names.List? && exists i :: 0 <= i < |names.items| && Contains(show(names.items[i]), package))
  }

  // A task installs the dependencies if its name says that it is a preflight task, or if one of the four package
  // modules is given both packages by name.
  ghost predicate Installs(show: Yaml -> string, task: Yaml) {
    task.Dict?
    && (|| (Truthy(Get(task.entries, "name")) && "OpenSible preflight | Ensure Python deps for community.docker" <= show(Get(task.entries, "name")))
        || (exists m :: m in {"ansible.builtin.apt", "apt", "ansible.builtin.package", "package"}
                        && Get(task.entries, m).Dict?
                        && NamesPackage(show, Get(Get(task.entries, m).entries, "name"), "python3-docker")
                        && NamesPackage(show, Get(Get(task.entries, m).entries, "name"), "python3-requests")))
  }

  lemma {:induction false} PackagesIff(show: Yaml -> string, args: Yaml)
    ensures InstallsPackages(show, args) <==>
              && args.Dict? && NamesPackage(show, Get(args.entries, "name"), "python3-docker")
              && NamesPackage(show, Get(args.entries, "name"), "python3-requests")
  {
    if args.Dict? {
      var names := Get(args.entries, "name");
      ContainsNothing("python3-docker");
      ContainsNothing("python3-requests");
      if names.List? {
        var shown := Shown(show, names.items);
        assert forall i :: 0 <= i < |names.items| ==> shown[i] == show(names.items[i]);
        ContainsInJoin(shown, "python3-docker");
        ContainsInJoin(shown, "python3-requests");
      }
    }
  }

  lemma {:induction false} ContainsNothing(part: string)
    requires part != ""
    ensures !Contains("", part)
  {
  }

  lemma {:induction false} TaskInstallsIff(show: Yaml -> string, task: Yaml)
    ensures TaskInstallsDeps(show, task) <==> Installs(show, task)
  {
    if task.Dict? {
      assert forall m :: m in INSTALLERS <==> m in {"ansible.builtin.apt", "apt", "ansible.builtin.package", "package"};
      forall m | m in INSTALLERS ensures InstallsPackages(show, Get(task.entries, m)) <==>
        && Get(task.entries, m).Dict?
        && NamesPackage(show, Get(Get(task.entries, m).entries, "name"), "python3-docker")
        && NamesPackage(show, Get(Get(task.entries, m).entries, "name"), "python3-requests")
      {
        PackagesIff(show, Get(task.entries, m));
      }
    }
  }

  // ----- the two preflight tasks -----

  const PACKAGES := List([Str("python3-docker"), Str("python3-requests")])

  function DepsTask(family: string, module_: string, args: seq<Entry>): Yaml {
    Dict([Entry(Str("name"), Str(PREFIX + " (" + family + ")")),
          Entry(Str("become"), Bool(true)),
          Entry(Str(module_), Dict(args)),
          Entry(Str("when"), Str("ansible_os_family == '" + family + "'"))])
  }

  const APT_ARGS := [Entry(Str("name"), PACKAGES), Entry(Str("state"), Str("present")), Entry(Str("update_cache"), Bool(true))]
  const PACKAGE_ARGS := [Entry(Str("name"), PACKAGES), Entry(Str("state"), Str("present"))]

  const DEPS_TASKS := [DepsTask("Debian", "ansible.builtin.apt", APT_ARGS), DepsTask("RedHat", "ansible.builtin.package", PACKAGE_ARGS)]

  lemma {:induction false} NoDockerKey(s: string)
    requires s != "" && s[0] != 'c' && s[0] != 'd'
    ensures !IsDockerKey(Str(s))
  {
    assert forall key :: key in DOCKER_MODULE_KEYS ==> key[0] == 'c' || key[0] == 'd';
    assert DOCKER_COLLECTION[0] == 'c';
  }

  lemma {:induction false} PartNeedsItsChars(s: string, part: string, c: char)
    requires Contains(s, part) && c in part
    ensures c in s
  {
    var i :| 0 <= i <= |s| && OccursAt(s, part, i);
    var k :| 0 <= k < |part| && part[k] == c;
    assert s[i..i + |part|][k] == s[i + k];
  }

  lemma {:induction false} NamesNoDocker(s: string)
    requires ':' !in s && |s| < |DOCKER_COLLECTION|
    ensures !ObjectUsesDocker(Str(s))
  {
    if key :| key in DOCKER_MODULE_KEYS && Contains(s, key + ":") {
      assert (key + ":")[|key|] == ':';
      PartNeedsItsChars(s, key + ":", ':');
    }
  }

  lemma {:induction false} PackagesUseNoDocker()
    ensures !ObjectUsesDocker(PACKAGES)
  {
    NamesNoDocker("python3-docker");
    NamesNoDocker("python3-requests");
    assert PACKAGES.items[1..] == [Str("python3-requests")];
  }

  lemma {:induction false} AnyEntryByIndex(entries: seq<Entry>)
    ensures AnyEntryUsesDocker(entries) <==> exists i :: 0 <= i < |entries| && EntryUsesDocker(entries[i])
  {
    if entries != [] {
      AnyEntryByIndex(entries[1..]);
      if i :| 0 <= i < |entries| && EntryUsesDocker(entries[i]) {
        assert i > 0 ==> entries[1..][i - 1] == entries[i];
      }
    }
  }

  lemma {:induction false} ArgsUseNoDocker()
    ensures !AnyEntryUsesDocker(APT_ARGS) && !AnyEntryUsesDocker(PACKAGE_ARGS)
  {
    NoDockerKey("name");
    NoDockerKey("state");
    NoDockerKey("update_cache");
    PackagesUseNoDocker();
    NamesNoDocker("present");
    assert !EntryUsesDocker(APT_ARGS[0]) && !EntryUsesDocker(APT_ARGS[1]) && !EntryUsesDocker(APT_ARGS[2]);
    assert !EntryUsesDocker(PACKAGE_ARGS[0]) && !EntryUsesDocker(PACKAGE_ARGS[1]);
    AnyEntryByIndex(APT_ARGS);
    AnyEntryByIndex(PACKAGE_ARGS);
  }

  lemma {:induction false} DepsTaskUsesNoDocker(family: string, module_: string, args: seq<Entry>)
    requires module_ != "" && module_[0] == 'a' && !AnyEntryUsesDocker(args)
    ensures !TaskUsesDocker(DepsTask(family, module_, args))
  {
    NoDockerKey("name");
    NoDockerKey("become");
    NoDockerKey("when");
    NoDockerKey(module_);
  }

  lemma {:induction false} DepsTaskInstalls(show: Yaml -> string, family: string, module_: string, args: seq<Entry>)
    requires ShowsStrings(show)
    ensures TaskInstallsDeps(show, DepsTask(family, module_, args))
  {
    var title := PREFIX + " (" + family + ")";
    assert Get(DepsTask(family, module_, args).entries, "name") == Str(title);
    assert show(Str(title)) == title;
    assert title[..|PREFIX|] == PREFIX;
  }

  // Tasks that count as installers and not as users of Docker.
  predicate ArePreflight(show: Yaml -> string, deps: seq<Yaml>) {
    deps != [] && forall task :: task in deps ==> TaskInstallsDeps(show, task) && !TaskUsesDocker(task)
  }

  lemma {:induction false} PreflightTasks(show: Yaml -> string)
    requires ShowsStrings(show)
    ensures ArePreflight(show, DEPS_TASKS) && |DEPS_TASKS| == 2
  {
    ArgsUseNoDocker();
    DepsTaskInstalls(show, "Debian", "ansible.builtin.apt", APT_ARGS);
    DepsTaskUsesNoDocker("Debian", "ansible.builtin.apt", APT_ARGS);
    DepsTaskInstalls(show, "RedHat", "ansible.builtin.package", PACKAGE_ARGS);
    DepsTaskUsesNoDocker("RedHat", "ansible.builtin.package", PACKAGE_ARGS);
  }

  // What the two tasks do: they install both packages, as administrator, each on its family of systems.
  lemma {:induction false} PreflightContents()
    ensures forall i :: 0 <= i < 2 ==>
              var family, m := if i == 0 then "Debian" else "RedHat", if i == 0 then "ansible.builtin.apt" else "ansible.builtin.package";
              && DEPS_TASKS[i].Dict? && Get(DEPS_TASKS[i].entries, "become") == Bool(true)
              && Get(DEPS_TASKS[i].entries, "when") == Str("ansible_os_family == '" + family + "'")
              && Get(DEPS_TASKS[i].entries, "name") == Str("OpenSible preflight | Ensure Python deps for community.docker (" + family + ")")
              && Get(DEPS_TASKS[i].entries, m).Dict?
              && Get(Get(DEPS_TASKS[i].entries, m).entries, "name") == List([Str("python3-docker"), Str("python3-requests")])
              && Get(Get(DEPS_TASKS[i].entries, m).entries, "state") == Str("present")
  {
    DepsTaskContents("Debian", "ansible.builtin.apt", APT_ARGS);
    DepsTaskContents("RedHat", "ansible.builtin.package", PACKAGE_ARGS);
  }

  lemma {:induction false} DepsTaskContents(family: string, module_: string, args: seq<Entry>)
    requires module_ in {"ansible.builtin.apt", "ansible.builtin.package"} && args in {APT_ARGS, PACKAGE_ARGS}
    ensures var task := DepsTask(family, module_, args);
            && Get(task.entries, "become") == Bool(true) && Get(task.entries, "when") == Str("ansible_os_family == '" + family + "'")
            && Get(task.entries, "name") == Str("OpenSible preflight | Ensure Python deps for community.docker (" + family + ")")
            && Get(task.entries, module_) == Dict(args)
            && Get(args, "name") == List([Str("python3-docker"), Str("python3-requests")]) && Get(args, "state") == Str("present")
  {
    var task := DepsTask(family, module_, args);
    assert PREFIX + " (" + family + ")" == "OpenSible preflight | Ensure Python deps for community.docker (" + family + ")";
    GetIsFirst(task.entries, "become");
    GetIsFirst(task.entries, "when");
    GetIsFirst(task.entries, module_);
    GetIsFirst(args, "state");
    assert module_[0] == 'a';
    assert FirstEntry(task.entries, "become", 1) && FirstEntry(task.entries, module_, 2) && FirstEntry(task.entries, "when", 3);
    assert FirstEntry(args, "state", 1);
  }

  // ----- one play -----

  function PreTasks(play: Yaml): seq<Yaml>
    requires play.Dict?
  {
    if Get(play.entries, "pre_tasks").List? then Get(play.entries, "pre_tasks").items else []
  }

  predicate AnyUses(tasks: seq<Yaml>) {
    exists i :: 0 <= i < |tasks| && TaskUsesDocker(tasks[i])
  }

  predicate AnyInstalls(show: Yaml -> string, tasks: seq<Yaml>) {
    exists i :: 0 <= i < |tasks| && TaskInstallsDeps(show, tasks[i])
  }

  // A play with Docker tasks and no installer among its tasks and pre-tasks.
  predicate NeedsDeps(show: Yaml -> string, play: Yaml) {
    && play.Dict? && Get(play.entries, "tasks").List?
    && var tasks := Get(play.entries, "tasks").items;
    && AnyUses(tasks) && !AnyInstalls(show, PreTasks(play) + tasks)
  }

  // The list of tasks under a key of the play, if the first entry of that key is a list.
  ghost predicate HasTask(play: Yaml, key: string, holds: Yaml -> bool)
    requires play.Dict?
  {
    exists i :: FirstEntry(play.entries, key, i) && play.entries[i].value.List?
                && exists task :: task in play.entries[i].value.items && holds(task)
  }

  lemma {:induction false} HasTaskByGet(play: Yaml, key: string, holds: Yaml -> bool)
    requires play.Dict?
    ensures HasTask(play, key, holds) <==>
              Get(play.entries, key).List? && exists task :: task in Get(play.entries, key).items && holds(task)
  {
    GetIsFirst(play.entries, key);
  }

  // Which plays are given the preflight tasks, in terms of what their tasks hold.
  lemma {:induction false} NeedsDepsExactly(show: Yaml -> string, play: Yaml, uses: Yaml -> bool,
                                            installs: Yaml -> bool)
    requires forall task :: uses(task) <==> UsesDocker(task)
    requires forall task :: installs(task) <==> Installs(show, task)
    ensures NeedsDeps(show, play) <==>
              play.Dict? && HasTask(play, "tasks", uses) && !HasTask(play, "tasks", installs) && !HasTask(play, "pre_tasks", installs)
  {
    if play.Dict? {
      HasTaskByGet(play, "tasks", uses);
      HasTaskByGet(play, "tasks", installs);
      HasTaskByGet(play, "pre_tasks", installs);
      if Get(play.entries, "tasks").List? {
        var tasks, pre := Get(play.entries, "tasks").items, PreTasks(play);
        forall task ensures (TaskUsesDocker(task) <==> uses(task)) && (TaskInstallsDeps(show, task) <==> installs(task)) {
          TaskUsesIff(task);
          TaskInstallsIff(show, task);
        }
        assert AnyUses(tasks) <==> exists task :: task in tasks && uses(task);
        InstallsInEither(show, pre, tasks, installs);
      }
    }
  }

  lemma {:induction false} InstallsInEither(show: Yaml -> string, pre: seq<Yaml>, tasks: seq<Yaml>,
                                            installs: Yaml -> bool)
    requires forall task :: installs(task) <==> TaskInstallsDeps(show, task)
    ensures AnyInstalls(show, pre + tasks) <==> (exists task :: task in pre && installs(task)) || (exists task :: task in tasks && installs(task))
  {
    var all := pre + tasks;
    if i :| 0 <= i < |all| && TaskInstallsDeps(show, all[i]) {
      assert all[i] in pre || all[i] in tasks;
    }
    if task :| task in pre && installs(task) {
      var i :| 0 <= i < |pre| && pre[i] == task;
      assert all[i] == task;
    }
    if task :| task in tasks && installs(task) {
      var i :| 0 <= i < |tasks| && tasks[i] == task;
      assert all[|pre| + i] == task;
    }
  }

  function FirstDocker(tasks: seq<Yaml>): (k: nat)
    ensures k <= |tasks|
    ensures forall i :: 0 <= i < k ==> !TaskUsesDocker(tasks[i])
    ensures k < |tasks| ==> TaskUsesDocker(tasks[k])
  {
    if tasks == [] || TaskUsesDocker(tasks[0]) then 0 else 1 + FirstDocker(tasks[1..])
  }

  function Inserted<T>(list: seq<T>, at: nat, added: seq<T>): seq<T>
    requires at <= |list|
  {
    list[..at] + added + list[at..]
  }

  lemma {:induction false} InsertedParts<T>(list: seq<T>, at: nat, added: seq<T>)
    requires at <= |list|
    ensures var r, n := Inserted(list, at, added), |added|;
            |r| == |list| + n && r[..at] == list[..at] && r[at..at + n] == added && r[at + n..] == list[at..]
    ensures forall i :: 0 <= i < at ==> Inserted(list, at, added)[i] == list[i]
    ensures forall i :: 0 <= i < |added| ==> Inserted(list, at, added)[at + i] == added[i]
    ensures at < |list| ==> Inserted(list, at, added)[at + |added|] == list[at]
  {
  }

  function WithDeps(tasks: seq<Yaml>, deps: seq<Yaml>): seq<Yaml> {
    Inserted(tasks, FirstDocker(tasks), deps)
  }

  // d[key] = value, for a key that is there.
  function Put(entries: seq<Entry>, key: string, value: Yaml): seq<Entry> {
    if entries == [] then []
    else if entries[0].key == Str(key) then [entries[0].(value := value)] + entries[1..]
    else [entries[0]] + Put(entries[1..], key, value)
  }

  function Patched(show: Yaml -> string, deps: seq<Yaml>, play: Yaml): Yaml {
    if NeedsDeps(show, play) then Dict(Put(play.entries, "tasks", List(WithDeps(Get(play.entries, "tasks").items, deps)))) else play
  }

  lemma {:induction false} GetAfterPut(entries: seq<Entry>, key: string, value: Yaml, other: string)
    requires Get(entries, key) != Null
    ensures Get(Put(entries, key, value), other) == if other == key then value else Get(entries, other)
  {
    if entries[0].key != Str(key) { GetAfterPut(entries[1..], key, value, other); }
  }

  // Setting a key that is there changes the value of its first entry, and of no other entry.
  lemma {:induction false} PutIsUpdate(entries: seq<Entry>, key: string, value: Yaml, i: nat)
    requires FirstEntry(entries, key, i)
    ensures Put(entries, key, value) == entries[i := entries[i].(value := value)]
  {
    if i > 0 {
      assert FirstEntry(entries[1..], key, i - 1) by {
        forall j | 0 <= j < i - 1 ensures entries[1..][j].key != Str(key) { assert entries[1..][j] == entries[j + 1]; }
      }
      PutIsUpdate(entries[1..], key, value, i - 1);
    }
  }

  // Everything of the play but its task list.
  function Frame(play: Yaml): seq<Entry>
    requires play.Dict?
  {
    Put(play.entries, "tasks", Null)
  }

  lemma {:induction false} PutTwice(entries: seq<Entry>, key: string, v: Yaml, w: Yaml)
    ensures Put(Put(entries, key, v), key, w) == Put(entries, key, w)
  {
    if entries != [] && entries[0].key != Str(key) { PutTwice(entries[1..], key, v, w); }
  }

  // The list without the preflight tasks.
  function WithoutDeps(tasks: seq<Yaml>, deps: seq<Yaml>): seq<Yaml> {
    if tasks == [] then []
    else (if tasks[0] in deps then [] else [tasks[0]]) + WithoutDeps(tasks[1..], deps)
  }

  lemma {:induction false} NoDepsToRemove(tasks: seq<Yaml>, deps: seq<Yaml>)
    requires forall task :: task in tasks ==> task !in deps
    ensures WithoutDeps(tasks, deps) == tasks
  {
    if tasks != [] {
      assert tasks[0] in tasks;
      NoDepsToRemove(tasks[1..], deps);
    }
  }

  lemma {:induction false} OnlyDeps(tasks: seq<Yaml>, deps: seq<Yaml>)
    requires forall task :: task in tasks ==> task in deps
    ensures WithoutDeps(tasks, deps) == []
  {
    if tasks != [] {
      assert tasks[0] in tasks;
      OnlyDeps(tasks[1..], deps);
    }
  }

  lemma {:induction false} WithoutDepsConcat(a: seq<Yaml>, b: seq<Yaml>, deps: seq<Yaml>)
    ensures WithoutDeps(a + b, deps) == WithoutDeps(a, deps) + WithoutDeps(b, deps)
  {
    if a == [] {
      assert a + b == b;
    } else {
      assert (a + b)[1..] == a[1..] + b;
      WithoutDepsConcat(a[1..], b, deps);
    }
  }

  lemma {:induction false} KeptAround(a: seq<Yaml>, added: seq<Yaml>, b: seq<Yaml>, deps: seq<Yaml>)
    requires forall task :: task in added ==> task in deps
    requires forall task :: task in a || task in b ==> task !in deps
    ensures WithoutDeps(a + added + b, deps) == a + b
  {
    assert WithoutDeps(a + added, deps) == a by {
      WithoutDepsConcat(a, added, deps);
      NoDepsToRemove(a, deps);
      OnlyDeps(added, deps);
    }
    WithoutDepsConcat(a + added, b, deps);
    NoDepsToRemove(b, deps);
  }

  lemma {:induction false} RemovingDepsRestores(tasks: seq<Yaml>, deps: seq<Yaml>)
    requires forall task :: task in tasks ==> task !in deps
    ensures WithoutDeps(WithDeps(tasks, deps), deps) == tasks
  {
    var k := FirstDocker(tasks);
    KeptAround(tasks[..k], deps, tasks[k..], deps);
    assert tasks[..k] + tasks[k..] == tasks;
  }

  // The preflight tasks stand right before the first task that uses Docker, which is still the first one to use it.
  predicate StandBeforeDocker(before: seq<Yaml>, deps: seq<Yaml>, after: seq<Yaml>, k: nat) {
    && k < |before| && |after| == |before| + |deps|
    && after[..k] == before[..k] && after[k..k + |deps|] == deps && after[k + |deps|..] == before[k..]
    && TaskUsesDocker(after[k + |deps|]) && forall i :: 0 <= i < k + |deps| ==> !TaskUsesDocker(after[i])
  }

  lemma {:induction false} DepsStandBeforeDocker(show: Yaml -> string, deps: seq<Yaml>, tasks: seq<Yaml>)
    requires ArePreflight(show, deps) && AnyUses(tasks)
    ensures StandBeforeDocker(tasks, deps, WithDeps(tasks, deps), FirstDocker(tasks))
  {
    var k, after := FirstDocker(tasks), WithDeps(tasks, deps);
    InsertedParts(tasks, k, deps);
    forall i | 0 <= i < k + |deps| ensures !TaskUsesDocker(after[i]) {
      assert if i < k then after[i] == tasks[i] else after[i] == deps[i - k];
    }
  }

  lemma {:induction false} PatchedParts(show: Yaml -> string, deps: seq<Yaml>, play: Yaml)
    requires NeedsDeps(show, play)
    ensures var tasks, patched := Get(play.entries, "tasks").items, Patched(show, deps, play);
            && patched.Dict? && Frame(patched) == Frame(play)
            && Get(patched.entries, "tasks") == List(WithDeps(tasks, deps)) && PreTasks(patched) == PreTasks(play)
  {
    var tasks := Get(play.entries, "tasks").items;
    GetAfterPut(play.entries, "tasks", List(WithDeps(tasks, deps)), "tasks");
    GetAfterPut(play.entries, "tasks", List(WithDeps(tasks, deps)), "pre_tasks");
    PutTwice(play.entries, "tasks", List(WithDeps(tasks, deps)), Null);
  }

  lemma {:induction false} NoDepsYet(show: Yaml -> string, deps: seq<Yaml>, play: Yaml)
    requires ArePreflight(show, deps) && NeedsDeps(show, play)
    ensures forall task :: task in Get(play.entries, "tasks").items ==> task !in deps
  {
    var pre, tasks := PreTasks(play), Get(play.entries, "tasks").items;
    forall i | 0 <= i < |tasks| ensures tasks[i] !in deps {
      assert (pre + tasks)[|pre| + i] == tasks[i];
    }
  }

  // A play changes exactly when it needs the preflight tasks. It then has both of them, right before its first
  // Docker task, and nothing else about it differs.
  lemma {:induction false} PlayOutcome(show: Yaml -> string, deps: seq<Yaml>, play: Yaml)
    requires ArePreflight(show, deps)
    ensures Patched(show, deps, play) != play <==> NeedsDeps(show, play)
    ensures NeedsDeps(show, play) ==>
              var tasks, patched := Get(play.entries, "tasks").items, Patched(show, deps, play);
              && patched.Dict? && Frame(patched) == Frame(play) && Get(patched.entries, "tasks").List?
              && (exists k: nat :: StandBeforeDocker(tasks, deps, Get(patched.entries, "tasks").items, k))
              && WithoutDeps(Get(patched.entries, "tasks").items, deps) == tasks
  {
    if NeedsDeps(show, play) {
      var tasks := Get(play.entries, "tasks").items;
      PatchedParts(show, deps, play);
      DepsStandBeforeDocker(show, deps, tasks);
      NoDepsYet(show, deps, play);
      RemovingDepsRestores(tasks, deps);
    }
  }

  // Of the entries of the play only the first one of tasks changes.
  lemma {:induction false} OnlyTasksChange(show: Yaml -> string, deps: seq<Yaml>, play: Yaml)
    requires ArePreflight(show, deps) && NeedsDeps(show, play)
    ensures exists i: nat, after, k ::
              && FirstEntry(play.entries, "tasks", i) && play.entries[i].value.List?
              && Patched(show, deps, play) == Dict(play.entries[i := Entry(Str("tasks"), List(after))])
              && StandBeforeDocker(play.entries[i].value.items, deps, after, k)
  {
    GetIsFirst(play.entries, "tasks");
    var i: nat :| FirstEntry(play.entries, "tasks", i);
    var tasks := play.entries[i].value.items;
    DepsStandBeforeDocker(show, deps, tasks);
    PutIsUpdate(play.entries, "tasks", List(WithDeps(tasks, deps)), i);
    assert StandBeforeDocker(tasks, deps, WithDeps(tasks, deps), FirstDocker(tasks));
  }

  // A second pass finds nothing to do.
  lemma {:induction false} SecondPassChangesNothing(show: Yaml -> string, deps: seq<Yaml>, play: Yaml)
    requires ArePreflight(show, deps)
    ensures !NeedsDeps(show, Patched(show, deps, play)) && Patched(show, deps, Patched(show, deps, play)) == Patched(show, deps, play)
  {
    if NeedsDeps(show, play) {
      var patched := Patched(show, deps, play);
      var tasks := Get(play.entries, "tasks").items;
      GetAfterPut(play.entries, "tasks", List(WithDeps(tasks, deps)), "tasks");
      var k := |PreTasks(patched)| + FirstDocker(tasks);
      assert (PreTasks(patched) + WithDeps(tasks, deps))[k] == deps[0];
    }
  }

  // An installer runs before the first Docker task: among the pre-tasks, or earlier in the list.
  predicate InstallsInTime(show: Yaml -> string, play: Yaml) {
    play.Dict? && Get(play.entries, "tasks").List? &&
    var tasks := Get(play.entries, "tasks").items;
    AnyInstalls(show, PreTasks(play)) || AnyInstalls(show, tasks[..FirstDocker(tasks)])
  }

  lemma {:induction false} DepsComeInTime(show: Yaml -> string, deps: seq<Yaml>, tasks: seq<Yaml>)
    requires ArePreflight(show, deps) && AnyUses(tasks)
    ensures AnyInstalls(show, WithDeps(tasks, deps)[..FirstDocker(WithDeps(tasks, deps))])
  {
    var after, k := WithDeps(tasks, deps), FirstDocker(tasks);
    DepsStandBeforeDocker(show, deps, tasks);
    assert FirstDocker(after) == k + |deps|;
    assert after[..FirstDocker(after)][k] == after[k..k + |deps|][0] == deps[0];
  }

  // Unless the play already had an installer that comes too late, Docker tasks follow one.
  lemma {:induction false} InTimeUnlessLate(show: Yaml -> string, deps: seq<Yaml>, play: Yaml)
    requires ArePreflight(show, deps) && play.Dict? && Get(play.entries, "tasks").List? && AnyUses(Get(play.entries, "tasks").items)
    ensures InstallsInTime(show, Patched(show, deps, play)) <==> NeedsDeps(show, play) || InstallsInTime(show, play)
  {
    if NeedsDeps(show, play) {
      var tasks := Get(play.entries, "tasks").items;
      GetAfterPut(play.entries, "tasks", List(WithDeps(tasks, deps)), "tasks");
      DepsComeInTime(show, deps, tasks);
    }
  }

  // ----- the pass over the plays -----

  method InsertEach<T>(list: seq<T>, at: nat, added: seq<T>) returns (r: seq<T>)
    requires at <= |list|
    ensures r == Inserted(list, at, added)
  {
    r := list;
    for offset := 0 to |added|
      invariant r == Inserted(list, at, added[..offset])
    {
      InsertedParts(list, at, added[..offset]);
      assert added[..offset + 1] == added[..offset] + [added[offset]];
      assert r[..at + offset] == list[..at] + added[..offset];
      r := r[..at + offset] + [added[offset]] + r[at + offset..];
    }
    assert added[..|added|] == added;
  }

  method EnsureInPlay(play: Yaml, show: Yaml -> string, deps: seq<Yaml>) returns (patched: Yaml, changed: bool)
    ensures patched == Patched(show, deps, play)
    ensures changed <==> NeedsDeps(show, play)
  {
    patched, changed := play, false;
    if !play.Dict? || !Get(play.entries, "tasks").List? { return; }
    var tasks := Get(play.entries, "tasks").items;
    if !AnyUses(tasks) || AnyInstalls(show, PreTasks(play) + tasks) { return; }
    tasks := InsertEach(tasks, FirstDocker(tasks), deps);
    patched, changed := Dict(Put(play.entries, "tasks", List(tasks))), true;
  }

  ghost predicate SomeNeeds(show: Yaml -> string, plays: seq<Yaml>) {
    exists i :: 0 <= i < |plays| && NeedsDeps(show, plays[i])
  }

  ghost predicate AllPatched(show: Yaml -> string, deps: seq<Yaml>, before: seq<Yaml>, after: seq<Yaml>) {
    |after| == |before| && forall i :: 0 <= i < |before| ==> after[i] == Patched(show, deps, before[i])
  }

  // The first p plays are done, the others as they were.
  ghost predicate PatchedUpTo(show: Yaml -> string, deps: seq<Yaml>, before: seq<Yaml>, now: seq<Yaml>, p: nat) {
    && p <= |before| == |now|
    && forall i :: 0 <= i < |before| ==> now[i] == if i < p then Patched(show, deps, before[i]) else before[i]
  }

  lemma {:induction false} OneMorePlay(show: Yaml -> string, before: seq<Yaml>, p: nat)
    requires p < |before|
    ensures SomeNeeds(show, before[..p + 1]) <==> SomeNeeds(show, before[..p]) || NeedsDeps(show, before[p])
  {
    assert before[..p + 1] == before[..p] + [before[p]];
    if i :| 0 <= i < p && NeedsDeps(show, before[..p][i]) { assert before[..p + 1][i] == before[..p][i]; }
    assert before[..p + 1][p] == before[p];
  }

  // One play of the list, patched in place.
  method EnsurePlayAt(plays: array<Yaml>, p: nat, show: Yaml -> string, deps: seq<Yaml>) returns (needed: bool)
    requires p < plays.Length
    modifies plays
    ensures plays[..] == old(plays[..])[p := Patched(show, deps, old(plays[p]))]
    ensures needed <==> NeedsDeps(show, old(plays[p]))
  {
    var patched;
    patched, needed := EnsureInPlay(plays[p], show, deps);
    if needed { plays[p] := patched; }
  }

  // Inserts the preflight tasks into every play that needs them.
  method EnsureInPlays(plays: array<Yaml>, show: Yaml -> string, deps: seq<Yaml>) returns (changed: bool)
    modifies plays
    ensures AllPatched(show, deps, old(plays[..]), plays[..])
    ensures changed <==> SomeNeeds(show, old(plays[..]))
  {
    changed := false;
    ghost var before := plays[..];
    for p := 0 to plays.Length
      invariant PatchedUpTo(show, deps, before, plays[..], p)
      invariant changed <==> SomeNeeds(show, before[..p])
    {
      OneMorePlay(show, before, p);
      assert plays[p] == plays[..][p] == before[p];
      var needed := EnsurePlayAt(plays, p, show, deps);
      if needed { changed := true; }
    }
    assert before[..plays.Length] == before;
  }

  method EnsureDockerPythonDeps(plays: array<Yaml>, show: Yaml -> string) returns (changed: bool)
    modifies plays
    ensures AllPatched(show, DEPS_TASKS, old(plays[..]), plays[..])
    ensures changed <==> SomeNeeds(show, old(plays[..]))
  {
    changed := EnsureInPlays(plays, show, DEPS_TASKS);
  }
}
