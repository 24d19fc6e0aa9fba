// The last lines of a log file, read backwards in chunks.
module LogTail {
  import opened TextLines

  function Newlines(text: string): nat {
    if text == [] then 0 else (if text[0] == '\n' then 1 else 0) + Newlines(text[1..])
  }

  // lines[-n:]
  function LastN(lines: seq<string>, n: nat): seq<string> {
    if |lines| <= n then lines else lines[|lines| - n..]
  }

  // The tail of a file: as many lines as asked for, or all there are, and line by line those at the end.
  ghost predicate IsTail(tail: seq<string>, lines: seq<string>, n: nat) {
    && |tail| == (if |lines| < n then |lines| else n)
    && forall k :: 0 <= k < |tail| ==> tail[k] == lines[|lines| - |tail| + k]
  }

  lemma {:induction false} LastNIsTail(lines: seq<string>, n: nat)
    ensures IsTail(LastN(lines, n), lines, n)
  {
  }

  lemma {:induction false} NewlinesConcat(a: string, b: string)
    ensures Newlines(a + b) == Newlines(a) + Newlines(b)
  {
    if a == [] {
      assert a + b == b;
    } else {
      assert (a + b)[1..] == a[1..] + b;
      NewlinesConcat(a[1..], b);
    }
  }

  lemma {:induction false} LineCount(text: string)
    ensures |Lines(text)| == Newlines(text) + (if text != [] && text[|text| - 1] != '\n' then 1 else 0)
  {
    if text != [] {
      LineCount(text[1..]);
      if text[1..] == [] { assert text == [text[0]]; } else { assert text[1..][|text[1..]| - 1] == text[|text| - 1]; }
    }
  }

  predicate SameEnd(a: seq<string>, b: seq<string>, m: nat) {
    m <= |a| && m <= |b| && a[|a| - m..] == b[|b| - m..]
  }

  lemma {:induction false} SameShorterEnd(a: seq<string>, b: seq<string>, m: nat, n: nat)
    requires SameEnd(a, b, m) && n <= m
    ensures SameEnd(a, b, n)
  {
    assert a[|a| - n..] == a[|a| - m..][m - n..];
    assert b[|b| - n..] == b[|b| - m..][m - n..];
  }

  // One more character in front keeps every line but possibly the first.
  lemma {:induction false} LinesOfTail(text: string)
    requires text != [] && text[1..] != []
    ensures |Lines(text[1..])| >= 1 && |Lines(text)| >= |Lines(text[1..])|
    ensures SameEnd(Lines(text), Lines(text[1..]), |Lines(text[1..])| - 1)
  {
    LineCount(text[1..]);
    var rest := Lines(text[1..]);
    if text[0] == '\n' {
      assert ([[]] + rest)[2..] == rest[1..];
    }
  }

  // Whatever precedes a text only adds lines before it and lengthens its first line.
  lemma {:induction false} LinesOfSuffix(text: string, i: nat)
    requires i < |text|
    ensures |Lines(text)| >= |Lines(text[i..])| >= 1
    ensures SameEnd(Lines(text), Lines(text[i..]), |Lines(text[i..])| - 1)
  {
    LineCount(text[i..]);
    if i == 0 {
      assert text[0..] == text;
    } else {
      var suffix := text[i..];
      assert text[1..][i - 1..] == suffix;
      LinesOfSuffix(text[1..], i - 1);
      LinesOfTail(text);
      SameShorterEnd(Lines(text), Lines(text[1..]), |Lines(text[1..])| - 1, |Lines(suffix)| - 1);
    }
  }

  // A suffix with more than n newlines already contains the last n lines.
  lemma {:induction false} SuffixIsEnough(text: string, i: nat, n: nat)
    requires i < |text| && Newlines(text[i..]) > n
    ensures LastN(Lines(text), n) == LastN(Lines(text[i..]), n)
  {
    LineCount(text[i..]);
    LinesOfSuffix(text, i);
    SameShorterEnd(Lines(text), Lines(text[i..]), |Lines(text[i..])| - 1, n);
  }

  // What was read holds the last n lines, if it is the whole file or has more than n newlines.
  lemma {:induction false} ReadIsEnough(content: string, pos: nat, n: nat)
    requires pos <= |content| && (pos > 0 ==> Newlines(content[pos..]) > n)
    ensures LastN(Lines(content[pos..]), n) == LastN(Lines(content), n)
  {
    if pos > 0 { SuffixIsEnough(content, pos, n); }
  }

  // Without the last chunk, what was read had no more than n newlines.
  predicate NoChunkTooMany(content: string, pos: nat, chunk: nat, n: int)
    requires pos <= |content|
  {
    pos + chunk < |content| ==> Newlines(content[pos + chunk..]) <= n
  }

  lemma {:induction false} OneChunkMore(content: string, pos: nat, size: nat, chunk: nat, n: int)
    requires size <= pos <= |content| && size <= chunk && Newlines(content[pos..]) <= n
    ensures content[pos - size..] == content[pos - size..pos] + content[pos..]
    ensures NoChunkTooMany(content, pos - size, chunk, n)
  {
    var from := pos - size + chunk;
    if from < |content| {
      assert content[pos..] == content[pos..from] + content[from..];
      NewlinesConcat(content[pos..from], content[from..]);
    }
  }

  // `read` is how much of the file was read.
  method TailLines(content: string, n: int, chunk: nat) returns (lines: seq<string>, read: nat)
    requires chunk >= 1
    ensures n <= 0 ==> lines == [] && read == 0
    ensures n > 0 ==> lines == LastN(Lines(content), n)
    ensures n > 0 ==> IsTail(lines, Lines(content), n)
    // It stops as soon as it can: without its last chunk it had not seen n + 1 newlines.
    ensures read <= |content|
    ensures n > 0 ==> NoChunkTooMany(content, |content| - read, chunk, n)
    ensures read < |content| && n > 0 ==> Newlines(content[|content| - read..]) > n
  {
    if n <= 0 { return [], 0; }
    var end := |content|;
    LastNIsTail(Lines(content), n);
    if end == 0 { return [], 0; }
    var buf, pos, found := "", end, 0;
    while pos > 0 && found <= n
      invariant 0 <= pos <= end
      invariant buf == content[pos..] && found == Newlines(buf)
      invariant NoChunkTooMany(content, pos, chunk, n)
    {
      var size := if chunk < pos then chunk else pos;
      OneChunkMore(content, pos, size, chunk, n);
      pos := pos - size;
      var data := content[pos..pos + size];
      buf := data + buf;
      found := Newlines(buf);
    }
    ReadIsEnough(content, pos, n);
    read := end - pos;
    var all := Lines(buf);
    lines := LastN(all, n);
  }
}
