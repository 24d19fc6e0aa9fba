// Clean-up of a saved ansible.cfg.
module AnsibleCfg {
  import opened Filters
  import opened Options
  import opened TextLines

  const DEPRECATED_CALLBACKS := {"profile_tasks", "ansible.posix.profile_tasks"}
  const AUTO_INTERPRETERS := {"auto", "auto_silent", "auto_legacy", "auto_legacy_silent"}
  const INTERPRETER := "/usr/bin/python3"

  // ----- strings -----

  // The Unicode white space that strip() removes.
  predicate IsSpace(c: char) {
    || '\t' <= c <= '\r' || '\U{1C}' <= c <= ' ' || c == '\U{85}' || c == '\U{A0}' || c == '\U{1680}'
    || '\U{2000}' <= c <= '\U{200A}' || '\U{2028}' <= c <= '\U{2029}' || c == '\U{202F}' || c == '\U{205F}' || c == '\U{3000}'
  }

  function StripLeft(s: string): string {
    if s != "" && IsSpace(s[0]) then StripLeft(s[1..]) else s
  }

  function StripRight(s: string): string {
    if s != "" && IsSpace(s[|s| - 1]) then StripRight(s[..|s| - 1]) else s
  }

  function Strip(s: string): string {
    StripLeft(StripRight(s))
  }

  predicate Trimmed(s: string) {
    s != "" ==> !IsSpace(s[0]) && !IsSpace(s[|s| - 1])
  }

  // Nothing but white space stands outside s[i..j].
  predicate StrippedBetween(s: string, i: int, j: int) {
    0 <= i <= j <= |s| && forall k :: 0 <= k < |s| && !(i <= k < j) ==> IsSpace(s[k])
  }

  // What goes is white space, and what stays does not begin with any.
  lemma {:induction false} StripLeftEnds(s: string)
    ensures var r := StripLeft(s); StrippedBetween(s, |s| - |r|, |s|) && r == s[|s| - |r|..]
    ensures var r := StripLeft(s); r != "" ==> !IsSpace(r[0])
  {
    if s != "" && IsSpace(s[0]) {
      var t, r := s[1..], StripLeft(s);
      StripLeftEnds(t);
      assert s[|s| - |r|..] == t[|t| - |r|..];
      forall k | 1 <= k < |s| - |r| ensures IsSpace(s[k]) { assert s[k] == t[k - 1]; }
    }
  }

  lemma {:induction false} StripRightEnds(s: string)
    ensures var r := StripRight(s); StrippedBetween(s, 0, |r|) && r == s[..|r|]
    ensures var r := StripRight(s); r != "" ==> !IsSpace(r[|r| - 1])
  {
    if s != "" && IsSpace(s[|s| - 1]) {
      var t, r := s[..|s| - 1], StripRight(s);
      StripRightEnds(t);
      forall k | |r| <= k < |s| - 1 ensures IsSpace(s[k]) { assert s[k] == t[k]; }
    }
  }

  // A stripped text is the one trimmed part with nothing but white space around it.
  lemma {:induction false} StripTrims(s: string)
    ensures Trimmed(Strip(s))
    ensures exists i, j :: StrippedBetween(s, i, j) && Strip(s) == s[i..j]
  {
    var r := StripRight(s);
    StripRightEnds(s);
    StripLeftEnds(r);
    var i := |r| - |Strip(s)|;
    assert Strip(s) == r[i..] == s[i..|r|];
    assert forall k :: 0 <= k < i ==> s[k] == r[k];
    assert StrippedBetween(s, i, |r|);
  }

  // Of the printable ASCII characters only the blank is white space; so are the tab and the line ends.
  lemma {:induction false} AsciiSpaces()
    ensures IsSpace(' ') && IsSpace('\t') && IsSpace('\n') && IsSpace('\r')
    ensures forall c :: '!' <= c <= '~' ==> !IsSpace(c)
  {
  }

  // Lower case as far as it can produce an ASCII letter: A to Z and the Kelvin sign.
  function LowerChar(c: char): char {
    if 'A' <= c <= 'Z' then c + 32 as char else if c == '\U{212A}' then 'k' else c
  }

  function Lower(s: string): string {
    if s == "" then "" else [LowerChar(s[0])] + Lower(s[1..])
  }

  // Two texts that differ only in the case of ASCII letters.
  predicate SameButCase(a: string, b: string) {
    |a| == |b| && forall i :: 0 <= i < |a| ==>
      || a[i] == b[i]
      || ('A' <= a[i] <= 'Z' && b[i] as int == a[i] as int + 32)
      || ('a' <= a[i] <= 'z' && b[i] as int == a[i] as int - 32)
  }

  lemma {:induction false} CaseIsIgnored(a: string, b: string)
    requires SameButCase(a, b)
    ensures Lower(a) == Lower(b)
  {
    if a != "" {
      assert forall i :: 0 <= i < |a[1..]| ==> a[1..][i] == a[i + 1] && b[1..][i] == b[i + 1];
      CaseIsIgnored(a[1..], b[1..]);
    }
  }

  predicate IsLowerText(s: string) {
    forall c :: c in s ==> c < '\U{80}' && !('A' <= c <= 'Z')
  }

  lemma {:induction false} LowerTextStays(s: string)
    requires IsLowerText(s)
    ensures Lower(s) == s
  {
    if s != "" {
      assert s[0] in s && forall c :: c in s[1..] ==> c in s;
      LowerTextStays(s[1..]);
    }
  }

  function IndexOf(s: string, c: char): (i: nat)
    ensures i <= |s| && (i < |s| ==> s[i] == c)
    ensures forall k :: 0 <= k < i ==> s[k] != c
  {
    if s == "" || s[0] == c then 0 else 1 + IndexOf(s[1..], c)
  }

  // split(c, 1)[0]
  function Before(s: string, c: char): string {
    s[..IndexOf(s, c)]
  }

  // split(c, 1)[1]
  function After(s: string, c: char): string
    requires c in s
  {
    s[IndexOf(s, c) + 1..]
  }

  lemma {:induction false} CutAt(s: string, c: char, i: nat)
    requires i < |s| && s[i] == c && c !in s[..i]
    ensures Before(s, c) == s[..i] && After(s, c) == s[i + 1..]
  {
    assert forall k :: 0 <= k < i ==> s[k] == s[..i][k];
    assert IndexOf(s, c) == i;
  }

  lemma {:induction false} NoCut(s: string, c: char)
    requires c !in s
    ensures Before(s, c) == s
  {
  }

  lemma {:induction false} StripRightSpaced(s: string)
    ensures StripRight(StripRight(s)) == StripRight(s)
    ensures StripRight(StripRight(s) + " ") == StripRight(s)
  {
    var r := StripRight(s);
    StripRightEnds(s);
    assert (r + " ")[..|r|] == r;
  }

  lemma {:induction false} StripSpaced(s: string)
    requires s != "" && Trimmed(s)
    ensures Strip(s) == s && Strip(" " + s) == s
  {
    assert (" " + s)[1..] == s;
  }

  // The first character that is no white space.
  function Head(s: string): Option<char> {
    if s == "" then None else if IsSpace(s[0]) then Head(s[1..]) else Some(s[0])
  }

  lemma {:induction false} HeadOfStart(a: string, b: string)
    ensures Head(a) != None ==> Head(a + b) == Head(a)
    ensures Head(a) == None ==> Head(a + b) == Head(b)
  {
    if a == "" {
      assert a + b == b;
    } else {
      assert (a + b)[1..] == a[1..] + b;
      HeadOfStart(a[1..], b);
    }
  }

  lemma {:induction false} HeadOfStripRight(s: string)
    ensures Head(StripRight(s)) == Head(s)
  {
    if s != "" && IsSpace(s[|s| - 1]) {
      HeadOfStripRight(s[..|s| - 1]);
      assert s == s[..|s| - 1] + [s[|s| - 1]];
      HeadOfStart(s[..|s| - 1], [s[|s| - 1]]);
      assert Head([s[|s| - 1]]) == None;
    }
  }

  lemma {:induction false} HeadOfStripLeft(s: string)
    ensures Head(s) == if StripLeft(s) == "" then None else Some(StripLeft(s)[0])
  {
    if s != "" && IsSpace(s[0]) { HeadOfStripLeft(s[1..]); }
  }

  lemma {:induction false} HeadOfStrip(s: string)
    ensures Head(s) == if Strip(s) == "" then None else Some(Strip(s)[0])
  {
    HeadOfStripRight(s);
    HeadOfStripLeft(StripRight(s));
  }

  // ----- settings -----

  predicate IsComment(line: string) {
    "#" <= Strip(line) || ";" <= Strip(line)
  }

  predicate IsSetting(line: string) {
    '=' in line && !IsComment(line)
  }

  function KeyOf(line: string): string
    requires IsSetting(line)
  {
    Lower(Strip(Before(line, '=')))
  }

  function Stripped(items: seq<string>): seq<string> {
    if items == [] then []
    else (if Strip(items[0]) == "" then [] else [Strip(items[0])]) + Stripped(items[1..])
  }

  function IsFull(): string -> bool {
    (s: string) => s != ""
  }

  // The stripped items but the empty ones, in order.
  lemma {:induction false} StrippedInOrder(items: seq<string>)
    ensures Stripped(items) == Filter(IsFull(), seq(|items|, i requires 0 <= i < |items| => Strip(items[i])))
  {
    if items != [] {
      StrippedInOrder(items[1..]);
      var all := seq(|items|, i requires 0 <= i < |items| => Strip(items[i]));
      assert all[1..] == seq(|items[1..]|, i requires 0 <= i < |items[1..]| => Strip(items[1..][i]));
    }
  }

  // The callbacks a value lists, without the comment behind them.
  function Callbacks(value: string): seq<string> {
    Stripped(Split(Before(Before(value, '#'), ';'), ','))
  }

  function Without(items: seq<string>, unwanted: set<string>): (r: seq<string>)
    ensures forall item :: item in r <==> item in items && item !in unwanted
  {
    if items == [] then []
    else (if items[0] in unwanted then [] else [items[0]]) + Without(items[1..], unwanted)
  }

  // key.rstrip() = value
  function Assigned(key: string, value: string): string {
    StripRight(key) + " = " + value
  }

  // What a line becomes, if it stays at all.
  function Rewritten(line: string): Option<string> {
    if !IsSetting(line) then Some(line)
    else
      var key, value := Before(line, '='), After(line, '=');
      if KeyOf(line) == "interpreter_discovery" then None
      else if KeyOf(line) == "interpreter_python" && Strip(value) in AUTO_INTERPRETERS then
        Some(Assigned(key, INTERPRETER))
      else if KeyOf(line) != "callbacks_enabled" then Some(line)
      else
        var callbacks := Without(Callbacks(value), DEPRECATED_CALLBACKS);
        if callbacks == [] then None else Some(Assigned(key, Join(callbacks, ',')))
  }

  function AsLines(line: Option<string>): seq<string> {
    match line case None => [] case Some(s) => [s]
  }

  function RewrittenAll(lines: seq<string>): seq<string> {
    if lines == [] then [] else AsLines(Rewritten(lines[0])) + RewrittenAll(lines[1..])
  }

  function Normalized(text: string): string {
    Join(RewrittenAll(Lines(text)), '\n') + Closing(text)
  }

  // ----- one line -----

  lemma {:induction false} CommentByHead(line: string)
    ensures IsComment(line) <==> Head(line) == Some('#') || Head(line) == Some(';')
  {
    HeadOfStrip(line);
  }

  lemma {:induction false} SettingByKey(line: string)
    requires '=' in line && Head(Before(line, '=')) != None
    ensures IsSetting(line) <==> Head(Before(line, '=')) != Some('#') && Head(Before(line, '=')) != Some(';')
  {
    var i := IndexOf(line, '=');
    assert line == line[..i] + line[i..];
    HeadOfStart(line[..i], line[i..]);
    CommentByHead(line);
  }

  lemma {:induction false} AssignedParts(key: string, value: string)
    requires '=' !in key
    ensures '=' in Assigned(key, value)
    ensures Before(Assigned(key, value), '=') == StripRight(key) + " " && After(Assigned(key, value), '=') == " " + value
  {
    var front := StripRight(key) + " ";
    assert Assigned(key, value) == front + ['='] + (" " + value);
    assert Assigned(key, value)[..|front|] == front;
    StripRightKeeps(key);
    CutAt(Assigned(key, value), '=', |front|);
  }

  lemma {:induction false} SpacedKey(key: string)
    ensures Head(StripRight(key) + " ") == Head(key) && Strip(StripRight(key) + " ") == Strip(key)
  {
    StripRightSpaced(key);
    HeadOfStripRight(key);
    HeadOfStripRight(StripRight(key) + " ");
  }

  // A new value leaves the key of a setting alone.
  lemma {:induction false} NewValueKeepsKey(line: string, value: string)
    requires IsSetting(line) && KeyOf(line) != ""
    ensures var changed := Assigned(Before(line, '='), value);
            && IsSetting(changed) && KeyOf(changed) == KeyOf(line) && After(changed, '=') == " " + value
            && StripRight(Before(changed, '=')) == StripRight(Before(line, '='))
  {
    var key := Before(line, '=');
    AssignedParts(key, value);
    SpacedKey(key);
    StripRightSpaced(key);
    assert Head(key) != None by { HeadOfStrip(key); }
    SettingByKey(line);
    SettingByKey(Assigned(key, value));
  }

  // A key written in any case, with white space before it or behind it, is the key.
  lemma {:induction false} KeyAsWritten(key: string, spelled: string, space: string, value: string)
    requires IsLowerText(key) && key != "" && SameButCase(key, spelled) && space in {"", " ", "\t"}
    requires forall c :: c in spelled ==> '!' <= c <= '~' && c !in {'=', '#', ';'}
    ensures forall line :: line in {space + spelled + "=" + value, spelled + space + "=" + value} ==>
              IsSetting(line) && KeyOf(line) == key && After(line, '=') == value
  {
    AsciiSpaces();
    CaseIsIgnored(key, spelled);
    LowerTextStays(key);
    assert spelled[0] in spelled;
    StripsTo(spelled, space);
    KeyOfParts(space + spelled, value);
    KeyOfParts(spelled + space, value);
  }

  lemma {:induction false} KeyOfParts(front: string, value: string)
    requires '=' !in front && Head(front) != None && Head(front) != Some('#') && Head(front) != Some(';')
    ensures var line := front + "=" + value;
            IsSetting(line) && Before(line, '=') == front && After(line, '=') == value && KeyOf(line) == Lower(Strip(front))
  {
    var line := front + "=" + value;
    assert line[..|front|] == front && line[|front|] == '=';
    CutAt(line, '=', |front|);
    SettingByKey(line);
  }

  lemma {:induction false} StripsTo(word: string, space: string)
    requires word != "" && (forall c :: c in word ==> !IsSpace(c)) && space in {"", " ", "\t"}
    ensures Strip(space + word) == word && Head(space + word) == Some(word[0])
    ensures Strip(word + space) == word && Head(word + space) == Some(word[0])
  {
    assert word[0] in word && word[|word| - 1] in word && IsSpace(' ') && IsSpace('\t');
    if space == "" {
      assert space + word == word == word + space;
    } else {
      assert |space| == 1 && IsSpace(space[0]);
      assert (space + word)[1..] == word && (space + word)[|word|] == word[|word| - 1];
      assert StripRight(space + word) == space + word && StripLeft(space + word) == StripLeft(word) == word;
      assert (word + space)[..|word|] == word && (word + space)[|word|] == space[0];
      assert StripRight(word + space) == StripRight(word) == word;
    }
  }

  // ----- a value that lists callbacks -----

  predicate IsItem(item: string) {
    item != "" && Trimmed(item) && ',' !in item && ';' !in item && '#' !in item
  }

  lemma {:induction false} StripLeftKeeps(s: string)
    ensures forall c :: c in StripLeft(s) ==> c in s
  {
    if s != "" && IsSpace(s[0]) { StripLeftKeeps(s[1..]); }
  }

  lemma {:induction false} StripRightKeeps(s: string)
    ensures forall c :: c in StripRight(s) ==> c in s
  {
    if s != "" && IsSpace(s[|s| - 1]) { StripRightKeeps(s[..|s| - 1]); }
  }

  // Some part holds this character.
  predicate Holds(parts: seq<string>, c: char) {
    exists i :: 0 <= i < |parts| && c in parts[i]
  }

  lemma {:induction false} StrippedParts(parts: seq<string>, item: string)
    requires item in Stripped(parts)
    ensures item != "" && Trimmed(item) && forall c :: c in item ==> Holds(parts, c)
  {
    if item in Stripped(parts[1..]) {
      StrippedParts(parts[1..], item);
      forall c | c in item ensures Holds(parts, c) {
        var i :| 0 <= i < |parts[1..]| && c in parts[1..][i];
        assert c in parts[i + 1];
      }
    } else {
      StripRightKeeps(parts[0]);
      StripLeftKeeps(StripRight(parts[0]));
      StripTrims(parts[0]);
    }
  }

  // What counts as listed: the parts between commas, up to a comment, stripped, but the empty ones.
  lemma {:induction false} CallbacksInOrder(value: string)
    ensures var parts := Split(Before(Before(value, '#'), ';'), ',');
            Callbacks(value) == Filter(IsFull(), seq(|parts|, i requires 0 <= i < |parts| => Strip(parts[i])))
  {
    StrippedInOrder(Split(Before(Before(value, '#'), ';'), ','));
  }

  lemma {:induction false} CallbackIsItem(value: string, item: string)
    requires item in Callbacks(value)
    ensures IsItem(item) && forall c :: c in item ==> c in value
  {
    var front := Before(value, '#');
    var listed := Before(front, ';');
    PartsHaveNoSeparator(listed, ',');
    var parts := Split(listed, ',');
    StrippedParts(parts, item);
    forall c | c in item ensures c in listed && c != ',' {
      var i :| 0 <= i < |parts| && c in parts[i];
      assert parts[i] in parts;
    }
  }

  lemma {:induction false} JoinedItems(items: seq<string>)
    requires forall item :: item in items ==> IsItem(item)
    ensures var s := Join(items, ','); '#' !in s && ';' !in s
    ensures forall c :: c in Join(items, ',') ==> c == ',' || exists item :: item in items && c in item
  {
    if |items| > 1 {
      JoinedItems(items[1..]);
      assert forall item :: item in items[1..] ==> item in items;
      assert items[0] in items;
    } else if |items| == 1 {
      assert items[0] in items;
    }
  }

  lemma {:induction false} StrippedItems(items: seq<string>)
    requires forall item :: item in items ==> IsItem(item)
    ensures Stripped(items) == items
  {
    if items != [] {
      assert items[0] in items;
      StripSpaced(items[0]);
      StrippedItems(items[1..]);
    }
  }

  // Listing callbacks and reading them again gives the same callbacks.
  lemma {:induction false} CallbacksOfJoin(items: seq<string>)
    requires items != [] && forall item :: item in items ==> IsItem(item)
    ensures Callbacks(" " + Join(items, ',')) == items
  {
    var value := " " + Join(items, ',');
    JoinedItems(items);
    assert '#' !in value && ';' !in value;
    NoCut(value, '#');
    NoCut(value, ';');
    SplitJoin(items, ',');
    var parts := Split(value, ',');
    assert value[1..] == Join(items, ',');
    assert parts == [" " + items[0]] + items[1..];
    assert items[0] in items;
    StripSpaced(items[0]);
    StrippedItems(items[1..]);
    assert parts[1..] == items[1..];
  }

  lemma {:induction false} NothingUnwanted(items: seq<string>, unwanted: set<string>)
    requires forall item :: item in items ==> item !in unwanted
    ensures Without(items, unwanted) == items
  {
    if items != [] {
      assert items[0] in items;
      NothingUnwanted(items[1..], unwanted);
    }
  }

  lemma {:induction false} WantedAreItems(value: string)
    ensures var wanted := Without(Callbacks(value), DEPRECATED_CALLBACKS);
            forall item :: item in wanted ==> IsItem(item) && item in Callbacks(value)
  {
    forall item | item in Without(Callbacks(value), DEPRECATED_CALLBACKS) ensures IsItem(item) {
      CallbackIsItem(value, item);
    }
  }

  // ----- what a rewritten line says -----

  // No setting of the removed or replaced kinds is left in the line.
  predicate Clean(line: string) {
    IsSetting(line) ==>
      && KeyOf(line) != "interpreter_discovery"
      && (KeyOf(line) == "interpreter_python" ==> Strip(After(line, '=')) !in {"auto", "auto_silent", "auto_legacy", "auto_legacy_silent"})
      && (KeyOf(line) == "callbacks_enabled" ==>
            && Callbacks(After(line, '=')) != []
            && forall item :: item in Callbacks(After(line, '=')) ==> item != "profile_tasks" && item != "ansible.posix.profile_tasks")
  }

  lemma {:induction false} InterpreterIsNotAuto()
    ensures Strip(" " + INTERPRETER) == INTERPRETER && INTERPRETER !in AUTO_INTERPRETERS
  {
    StripSpaced(INTERPRETER);
    assert INTERPRETER[0] == '/';
  }

  function WantedCallbacks(line: string): seq<string>
    requires IsSetting(line)
  {
    Without(Callbacks(After(line, '=')), DEPRECATED_CALLBACKS)
  }

  lemma {:induction false} ListedAgain(line: string, callbacks: seq<string>)
    requires IsSetting(line) && KeyOf(line) == "callbacks_enabled"
    requires callbacks != [] && forall item :: item in callbacks ==> IsItem(item) && item !in DEPRECATED_CALLBACKS
    ensures var r := Assigned(Before(line, '='), Join(callbacks, ','));
            IsSetting(r) && KeyOf(r) == KeyOf(line) && Callbacks(After(r, '=')) == callbacks && Rewritten(r) == Some(r)
  {
    CallbacksOfJoin(callbacks);
    NewValueKeepsKey(line, Join(callbacks, ','));
    NothingUnwanted(callbacks, DEPRECATED_CALLBACKS);
  }

  function IsWanted(): string -> bool {
    (s: string) => s != "profile_tasks" && s != "ansible.posix.profile_tasks"
  }

  lemma {:induction false} WantedInOrder(items: seq<string>)
    ensures Without(items, DEPRECATED_CALLBACKS) == Filter(IsWanted(), items)
  {
    if items != [] { WantedInOrder(items[1..]); }
  }

  // The wanted callbacks are all but two, in order.
  lemma {:induction false} AllButTwo(line: string)
    requires IsSetting(line)
    ensures WantedCallbacks(line) == Filter(IsWanted(), Callbacks(After(line, '=')))
  {
    WantedInOrder(Callbacks(After(line, '=')));
  }

  // The wanted callbacks stay in order, and the line goes exactly when it lists no others.
  lemma {:induction false} CallbacksKept(line: string)
    requires IsSetting(line) && KeyOf(line) == "callbacks_enabled"
    ensures Rewritten(line) == None <==> WantedCallbacks(line) == []
    ensures WantedCallbacks(line) != [] ==>
              var r := Rewritten(line).value;
              IsSetting(r) && KeyOf(r) == KeyOf(line) && Callbacks(After(r, '=')) == WantedCallbacks(line) && Rewritten(r) == Some(r)
  {
    if WantedCallbacks(line) != [] {
      WantedAreItems(After(line, '='));
      ListedAgain(line, WantedCallbacks(line));
    }
  }

  lemma {:induction false} InterpreterPinned(line: string)
    requires IsSetting(line) && KeyOf(line) == "interpreter_python"
    requires Strip(After(line, '=')) in {"auto", "auto_silent", "auto_legacy", "auto_legacy_silent"}
    ensures Rewritten(line) != None
    ensures var r := Rewritten(line).value;
            IsSetting(r) && KeyOf(r) == KeyOf(line) && Strip(After(r, '=')) == "/usr/bin/python3" && Rewritten(r) == Some(r)
  {
    NewValueKeepsKey(line, INTERPRETER);
    InterpreterIsNotAuto();
  }

  // Which settings go or change; all other lines, also an interpreter that was chosen explicitly, stay as they are.
  lemma {:induction false} WhatChanges(line: string)
    requires IsSetting(line)
    ensures KeyOf(line) == "interpreter_discovery" ==> Rewritten(line) == None
    ensures KeyOf(line) !in {"interpreter_discovery", "interpreter_python", "callbacks_enabled"} ==> Rewritten(line) == Some(line)
    ensures KeyOf(line) == "interpreter_python" && Strip(After(line, '=')) !in {"auto", "auto_silent", "auto_legacy", "auto_legacy_silent"} ==>
              Rewritten(line) == Some(line)
  {
  }

  // A rewritten line is clean, and rewriting it again changes nothing.
  lemma {:induction false} RewrittenIsStable(line: string)
    requires Rewritten(line) != None
    ensures var r := Rewritten(line).value; Clean(r) && Rewritten(r) == Some(r)
  {
    if IsSetting(line) {
      if KeyOf(line) == "callbacks_enabled" {
        CallbacksKept(line);
      } else if KeyOf(line) == "interpreter_python" && Strip(After(line, '=')) in AUTO_INTERPRETERS {
        InterpreterPinned(line);
        InterpreterIsNotAuto();
      }
    }
  }

  lemma {:induction false} AssignedStaysOnItsLine(line: string, value: string)
    requires '\n' !in line && '\n' !in value
    ensures '\n' !in Assigned(Before(line, '='), value)
  {
    StripRightKeeps(Before(line, '='));
  }

  lemma {:induction false} CallbacksOnOneLine(line: string)
    requires '\n' !in line && IsSetting(line)
    ensures '\n' !in Join(WantedCallbacks(line), ',')
  {
    var value, wanted := After(line, '='), WantedCallbacks(line);
    WantedAreItems(value);
    JoinedItems(wanted);
    if '\n' in Join(wanted, ',') {
      var item :| item in wanted && '\n' in item;
      CallbackIsItem(value, item);
    }
  }

  lemma {:induction false} RewrittenStaysOnItsLine(line: string)
    requires '\n' !in line && Rewritten(line) != None
    ensures '\n' !in Rewritten(line).value
  {
    if IsSetting(line) {
      if KeyOf(line) == "callbacks_enabled" {
        CallbacksOnOneLine(line);
        AssignedStaysOnItsLine(line, Join(WantedCallbacks(line), ','));
      } else if KeyOf(line) == "interpreter_python" {
        assert forall i :: 0 <= i < |INTERPRETER| ==> INTERPRETER[i] != '\n';
        AssignedStaysOnItsLine(line, INTERPRETER);
      }
    }
  }

  // ----- the whole text -----

  lemma {:induction false} ResultLines(lines: seq<string>)
    ensures forall line :: line in RewrittenAll(lines) ==> Clean(line) && Rewritten(line) == Some(line)
    ensures (forall line :: line in lines ==> '\n' !in line) ==> forall line :: line in RewrittenAll(lines) ==> '\n' !in line
  {
    if lines != [] {
      ResultLines(lines[1..]);
      assert lines[0] in lines;
      if Rewritten(lines[0]) != None {
        RewrittenIsStable(lines[0]);
        if '\n' !in lines[0] { RewrittenStaysOnItsLine(lines[0]); }
      }
    }
  }

  // The lines of the result are the rewritten lines, but for a blank line at the end: one is left when every line of
  // a closed text went, and one is lost when the line behind it went.
  lemma {:induction false} LinesOfResult(text: string)
    ensures var kept := RewrittenAll(Lines(text));
            Lines(Normalized(text)) == if EndsLine(text) then (if kept == [] then [""] else kept) else WithoutBlankEnd(kept)
    ensures EndsLine(text) ==> EndsLine(Normalized(text))
  {
    LinesHaveNoNewline(text);
    ResultLines(Lines(text));
    LinesOfJoin(RewrittenAll(Lines(text)), EndsLine(text));
  }

  lemma {:induction false} StableLines(lines: seq<string>)
    requires forall line :: line in lines ==> Rewritten(line) == Some(line)
    ensures RewrittenAll(lines) == lines
  {
    if lines != [] {
      assert lines[0] in lines;
      StableLines(lines[1..]);
    }
  }

  lemma {:induction false} ResultLinesAreStable(text: string)
    ensures forall line :: line in Lines(Normalized(text)) ==> Clean(line) && Rewritten(line) == Some(line)
  {
    ResultLines(Lines(text));
    LinesOfResult(text);
    assert Rewritten("") == Some("") && Clean("") by { assert !IsSetting(""); }
    assert forall line :: line in Lines(Normalized(text)) ==> line in RewrittenAll(Lines(text)) || line == "";
  }

  // A text is left alone exactly when each of its lines is.
  lemma {:induction false} LeftAlone(text: string)
    ensures Normalized(text) == text <==> forall line :: line in Lines(text) ==> Rewritten(line) == Some(line)
  {
    if Normalized(text) == text {
      ResultLinesAreStable(text);
    } else if forall line :: line in Lines(text) ==> Rewritten(line) == Some(line) {
      StableLines(Lines(text));
      Reassembled(text);
    }
  }

  // Normalising twice is normalising once, and no setting of a removed kind is left.
  lemma {:induction false} NormalizingTwice(text: string)
    ensures Normalized(Normalized(text)) == Normalized(text)
    ensures forall line :: line in Lines(Normalized(text)) ==> Clean(line)
  {
    ResultLinesAreStable(text);
    LeftAlone(Normalized(text));
  }

  // Lines of no concern: comments, section headers, other settings. Blank lines are in LinesOfResult.
  predicate IsUnrelated(line: string) {
    line != "" && (IsSetting(line) ==> KeyOf(line) !in {"interpreter_discovery", "interpreter_python", "callbacks_enabled"})
  }

  function Unrelated(lines: seq<string>): seq<string> {
    if lines == [] then []
    else (if IsUnrelated(lines[0]) then [lines[0]] else []) + Unrelated(lines[1..])
  }

  lemma {:induction false} UnrelatedConcat(a: seq<string>, b: seq<string>)
    ensures Unrelated(a + b) == Unrelated(a) + Unrelated(b)
  {
    if a == [] {
      assert a + b == b;
    } else {
      assert (a + b)[1..] == a[1..] + b;
      UnrelatedConcat(a[1..], b);
    }
  }

  lemma {:induction false} StaysRelated(line: string)
    ensures Unrelated(AsLines(Rewritten(line))) == Unrelated([line])
  {
    if IsSetting(line) {
      if KeyOf(line) == "callbacks_enabled" {
        CallbacksKept(line);
      } else if KeyOf(line) == "interpreter_python" && Strip(After(line, '=')) in AUTO_INTERPRETERS {
        InterpreterPinned(line);
      }
    }
  }

  lemma {:induction false} UnrelatedRewritten(lines: seq<string>)
    ensures Unrelated(RewrittenAll(lines)) == Unrelated(lines)
  {
    if lines != [] {
      UnrelatedRewritten(lines[1..]);
      StaysRelated(lines[0]);
      UnrelatedConcat(AsLines(Rewritten(lines[0])), RewrittenAll(lines[1..]));
      assert Unrelated([lines[0]]) + Unrelated(lines[1..]) == Unrelated(lines);
    }
  }

  lemma {:induction false} UnrelatedBlankEnd(lines: seq<string>)
    ensures Unrelated(WithoutBlankEnd(lines)) == Unrelated(lines)
  {
    var front := WithoutBlankEnd(lines);
    if front != lines {
      assert lines == front + [""];
      UnrelatedConcat(front, [""]);
    }
  }

  // Unrelated lines survive, unchanged and in order.
  lemma {:induction false} UnrelatedSurvive(text: string)
    ensures Unrelated(Lines(Normalized(text))) == Unrelated(Lines(text))
  {
    LinesOfResult(text);
    var kept := RewrittenAll(Lines(text));
    UnrelatedRewritten(Lines(text));
    UnrelatedBlankEnd(kept);
  }

  lemma {:induction false} RewrittenLast(lines: seq<string>, last: string)
    ensures RewrittenAll(lines + [last]) == RewrittenAll(lines) + AsLines(Rewritten(last))
  {
    if lines == [] {
      assert lines + [last] == [last];
    } else {
      assert (lines + [last])[1..] == lines[1..] + [last];
      RewrittenLast(lines[1..], last);
    }
  }

  method NormalizeAnsibleConfigContent(text: string) returns (content: string)
    ensures content == Normalized(text)
  {
    var lines := Lines(text);
    var normalized := [];
    for i := 0 to |lines|
      invariant normalized == RewrittenAll(lines[..i])
    {
      var line := lines[i];
      var stripped := Strip(line);
      assert lines[..i + 1] == lines[..i] + [line];
      RewrittenLast(lines[..i], line);
      if '=' !in line || "#" <= stripped || ";" <= stripped {
        normalized := normalized + [line];
        continue;
      }
      var key, value := Before(line, '='), After(line, '=');
      var normalizedKey := Lower(Strip(key));
      if normalizedKey == "interpreter_discovery" { continue; }
      if normalizedKey == "interpreter_python" && Strip(value) in AUTO_INTERPRETERS {
        normalized := normalized + [Assigned(key, INTERPRETER)];
        continue;
      }
      if normalizedKey != "callbacks_enabled" {
        normalized := normalized + [line];
        continue;
      }
      var callbacks := Without(Callbacks(value), DEPRECATED_CALLBACKS);
      if callbacks != [] {
        normalized := normalized + [Assigned(key, Join(callbacks, ','))];
      }
    }
    assert lines[..|lines|] == lines;
    content := Join(normalized, '\n') + Closing(text);
  }
}
