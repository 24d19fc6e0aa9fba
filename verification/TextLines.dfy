// Text as a list of lines, with the newline as the only separator.
module TextLines {

  // Splits at newlines; a newline at the very end starts no further line.
  function Lines(text: string): seq<string> {
    if text == [] then []
    else
      var rest := Lines(text[1..]);
      if text[0] == '\n' then [[]] + rest
      else if rest == [] then [[text[0]]]
      else [[text[0]] + rest[0]] + rest[1..]
  }

  // Splits at every occurrence of a separator.
  function Split(text: string, c: char): (parts: seq<string>)
    ensures |parts| >= 1
  {
    if text == "" then [""]
    else
      var rest := Split(text[1..], c);
      if text[0] == c then [""] + rest else [[text[0]] + rest[0]] + rest[1..]
  }

  // Puts a separator between the parts.
  function Join(parts: seq<string>, c: char): string {
    if parts == [] then ""
    else if |parts| == 1 then parts[0]
    else parts[0] + [c] + Join(parts[1..], c)
  }

  predicate EndsLine(text: string) {
    text != "" && text[|text| - 1] == '\n'
  }

  function Closing(text: string): string {
    if EndsLine(text) then "\n" else ""
  }

  // All parts but a blank one at the end.
  function WithoutBlankEnd(parts: seq<string>): seq<string> {
    if parts != [] && parts[|parts| - 1] == "" then parts[..|parts| - 1] else parts
  }

  lemma {:induction false} BlankEndStep(first: string, rest: seq<string>)
    requires rest != []
    ensures WithoutBlankEnd([first] + rest) == [first] + WithoutBlankEnd(rest)
  {
  }

  lemma {:induction false} LinesAreParts(text: string)
    ensures Lines(text) == WithoutBlankEnd(Split(text, '\n'))
  {
    if text != "" {
      LinesAreParts(text[1..]);
      var rest := Split(text[1..], '\n');
      if text[0] == '\n' {
        BlankEndStep("", rest);
      } else if |rest| == 1 {
        assert rest[0] == "" ==> [text[0]] + rest[0] == [text[0]];
      } else {
        assert rest == [rest[0]] + rest[1..];
        BlankEndStep(rest[0], rest[1..]);
        BlankEndStep([text[0]] + rest[0], rest[1..]);
      }
    }
  }

  lemma {:induction false} SplitPart(part: string, text: string, c: char)
    requires c !in part
    ensures Split(part + [c] + text, c) == [part] + Split(text, c)
  {
    var whole := part + [c] + text;
    if part == "" {
      assert whole[1..] == text;
    } else {
      SplitPart(part[1..], text, c);
      assert whole[0] == part[0] != c && [part[0]] + part[1..] == part;
      assert whole[1..] == part[1..] + [c] + text;
    }
  }

  lemma {:induction false} SplitNothing(part: string, c: char)
    requires c !in part
    ensures Split(part, c) == [part]
  {
    if part != "" {
      SplitNothing(part[1..], c);
      assert part[0] in part && [part[0]] + part[1..] == part;
    }
  }

  lemma {:induction false} SplitJoin(parts: seq<string>, c: char)
    requires parts != [] && forall p :: p in parts ==> c !in p
    ensures Split(Join(parts, c), c) == parts
  {
    if |parts| == 1 {
      SplitNothing(parts[0], c);
    } else {
      SplitJoin(parts[1..], c);
      SplitPart(parts[0], Join(parts[1..], c), c);
    }
  }

  lemma {:induction false} PartsHaveNoSeparator(text: string, c: char)
    ensures forall p :: p in Split(text, c) ==> c !in p
    ensures forall p, x :: p in Split(text, c) && x in p ==> x in text
  {
    if text != "" { PartsHaveNoSeparator(text[1..], c); }
  }

  lemma {:induction false} LinesHaveNoNewline(text: string)
    ensures forall line :: line in Lines(text) ==> '\n' !in line
  {
    LinesAreParts(text);
    PartsHaveNoSeparator(text, '\n');
  }

  lemma {:induction false} SplitClosed(text: string)
    ensures Split(text + "\n", '\n') == Split(text, '\n') + [""]
  {
    if text == "" {
      assert (text + "\n")[1..] == "";
    } else {
      SplitClosed(text[1..]);
      assert (text + "\n")[1..] == text[1..] + "\n";
    }
  }

  // Lines and the closing newline are all there is to a text.
  lemma {:induction false} Reassembled(text: string)
    ensures Join(Lines(text), '\n') + Closing(text) == text
  {
    if text != "" {
      Reassembled(text[1..]);
      var rest := Lines(text[1..]);
      if text[1..] == "" {
        assert text == [text[0]];
      } else {
        assert EndsLine(text) == EndsLine(text[1..]);
        assert rest != [];
        assert Lines(text) == if text[0] == '\n' then [[]] + rest else [[text[0]] + rest[0]] + rest[1..];
        assert Join(Lines(text), '\n') == [text[0]] + Join(rest, '\n') by {
          if text[0] == '\n' {
            assert Lines(text)[1..] == rest;
          } else {
            assert Lines(text)[1..] == rest[1..];
          }
        }
      }
    }
  }

  // The lines of a text put together from lines.
  lemma {:induction false} LinesOfJoin(lines: seq<string>, closed: bool)
    requires forall line :: line in lines ==> '\n' !in line
    ensures var text := Join(lines, '\n') + (if closed then "\n" else "");
            Lines(text) == if closed then (if lines == [] then [""] else lines) else WithoutBlankEnd(lines)
  {
    var joined := Join(lines, '\n');
    if lines != [] { SplitJoin(lines, '\n'); }
    if closed {
      SplitClosed(joined);
      LinesAreParts(joined + "\n");
    } else {
      assert joined + "" == joined;
      LinesAreParts(joined);
    }
  }
}
