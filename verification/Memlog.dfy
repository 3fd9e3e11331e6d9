/** The append-only memory log: parsing, rendering and the three commands
    (_bmad/scripts/memlog.py). */
module Memlog {
  import opened Prelude
  import opened Strings

  /* ---------- characters and lines ---------- */

  predicate OneLine(s: string) {
    forall i :: 0 <= i < |s| ==> !IsBreak(s[i])
  }

  function FirstBreak(s: string): (n: nat)
    ensures n <= |s| && OneLine(s[..n]) && (n < |s| ==> IsBreak(s[n]))
  {
    if s == "" || IsBreak(s[0]) then 0 else 1 + FirstBreak(s[1..])
  }

  // What follows the first line; "\r\n" is one boundary.
  function AfterLine(s: string): (r: string)
    requires s != ""
    ensures |r| < |s|
  {
    var n := FirstBreak(s);
    if n == |s| then ""
    else if s[n] == '\r' && n + 1 < |s| && s[n + 1] == '\n' then s[n + 2..]
    else s[n + 1..]
  }

  function SplitLines(s: string): seq<string>
    decreases |s|
  {
    if s == "" then [] else [s[..FirstBreak(s)]] + SplitLines(AfterLine(s))
  }

  function Join(lines: seq<string>, sep: string): string {
    if lines == [] then "" else if |lines| == 1 then lines[0] else lines[0] + sep + Join(lines[1..], sep)
  }

  function DropNewlines(s: string): string {   // lstrip("\n")
    if s != "" && s[0] == '\n' then DropNewlines(s[1..]) else s
  }

  function TrimNewlines(s: string): string {   // rstrip("\n")
    if s != "" && s[|s| - 1] == '\n' then TrimNewlines(s[..|s| - 1]) else s
  }

  // The first occurrence of c, or the length.
  function Find(s: string, c: char): (n: nat)
    ensures n <= |s| && (forall i :: 0 <= i < n ==> s[i] != c) && (n < |s| ==> s[n] == c)
  {
    if s == "" || s[0] == c then 0 else 1 + Find(s[1..], c)
  }

  // str.split(): the whitespace-separated words.
  function Words(s: string): seq<string>
    decreases |s|
  {
    if s == "" then []
    else if IsSpace(s[0]) then Words(s[1..])
    else [s[..WordEnd(s)]] + Words(s[WordEnd(s)..])
  }

  function WordEnd(s: string): (n: nat)
    ensures n <= |s| && (forall i :: 0 <= i < n ==> !IsSpace(s[i])) && (s != "" && !IsSpace(s[0]) ==> 1 <= n)
  {
    if s == "" || IsSpace(s[0]) then 0 else 1 + WordEnd(s[1..])
  }

  /* ---------- split and render ---------- */

  type Meta = seq<(string, string)>   // a dict in insertion order

  datatype Error = NoFrontmatter | NotTerminated | FieldWithoutEquals | AlreadyExists | NoFile

  function MetaSet(meta: Meta, k: string, v: string): Meta {
    if meta == [] then [(k, v)]
    else if meta[0].0 == k then [(k, v)] + meta[1..]
    else [meta[0]] + MetaSet(meta[1..], k, v)
  }

  function MetaDrop(meta: Meta, k: string): Meta {
    if meta == [] then [] else if meta[0].0 == k then meta[1..] else [meta[0]] + MetaDrop(meta[1..], k)
  }

  function ParseLine(meta: Meta, line: string): Meta {
    var n := Find(line, ':');
    if n == |line| then meta else MetaSet(meta, Strip(line[..n]), Strip(line[n + 1..]))
  }

  function ParseLines(lines: seq<string>): Meta {
    if lines == [] then [] else ParseLine(ParseLines(lines[..|lines| - 1]), lines[|lines| - 1])
  }

  // The first closing fence at or after i.
  function Fence(lines: seq<string>, i: nat): (n: nat)
    requires i <= |lines|
    ensures i <= n <= |lines| && (forall j :: i <= j < n ==> lines[j] != "---") && (n < |lines| ==> lines[n] == "---")
    decreases |lines| - i
  {
    if i == |lines| || lines[i] == "---" then i else Fence(lines, i + 1)
  }

  function Split(text: string): Result<(Meta, string), Error> {
    var lines := SplitLines(text);
    if lines == [] || lines[0] != "---" then Err(NoFrontmatter)
    else
      var end := Fence(lines, 1);
      if end == |lines| then Err(NotTerminated)
      else Ok((ParseLines(lines[1..end]), DropNewlines(Join(lines[end + 1..], "\n"))))
  }

  function FieldLine(field: (string, string)): string {
    field.0 + ": " + Join(SplitLines(field.1), " ")
  }

  function FieldLines(meta: Meta): seq<string> {
    seq(|meta|, i requires 0 <= i < |meta| => FieldLine(meta[i]))
  }

  function Render(meta: Meta, body: string): string {
    "---\n" + Join(FieldLines(meta), "\n") + "\n---\n\n" + TrimNewlines(body) + "\n"
  }

  /* ---------- lines, joined and split again ---------- */

  predicate AllOneLine(lines: seq<string>) {
    forall i :: 0 <= i < |lines| ==> OneLine(lines[i])
  }

  // Each line with its newline.
  function Text(lines: seq<string>): string {
    if lines == [] then "" else lines[0] + "\n" + Text(lines[1..])
  }

  lemma {:induction false} FirstBreakIs(line: string, rest: string)
    requires OneLine(line)
    ensures FirstBreak(line + "\n" + rest) == |line|
  {
    var s := line + "\n" + rest;
    if line != "" {
      assert s[1..] == line[1..] + "\n" + rest;
      assert s[0] == line[0];
      FirstBreakIs(line[1..], rest);
    }
  }

  lemma SplitFirst(line: string, rest: string)
    requires OneLine(line)
    ensures SplitLines(line + "\n" + rest) == [line] + SplitLines(rest)
  {
    var s := line + "\n" + rest;
    FirstBreakIs(line, rest);
    assert s[..|line|] == line && s[|line|] == '\n' && s[|line| + 1..] == rest;
  }

  lemma Assoc(a: string, b: string, c: string)
    ensures (a + b) + c == a + (b + c)
  {}

  lemma {:induction false} SplitText(lines: seq<string>, rest: string)
    requires AllOneLine(lines)
    ensures SplitLines(Text(lines) + rest) == lines + SplitLines(rest)
  {
    if lines == [] {
      assert Text(lines) + rest == rest;
      assert [] + SplitLines(rest) == SplitLines(rest);
    } else {
      var more := Text(lines[1..]);
      SplitText(lines[1..], rest);
      Assoc(lines[0] + "\n", more, rest);
      SplitFirst(lines[0], more + rest);
      PrependLine(lines, SplitLines(rest));
    }
  }

  lemma PrependLine(lines: seq<string>, more: seq<string>)
    requires lines != []
    ensures [lines[0]] + (lines[1..] + more) == lines + more
  {}

  lemma {:induction false} TextOfJoin(lines: seq<string>)
    requires lines != []
    ensures Text(lines) == Join(lines, "\n") + "\n"
  {
    if |lines| > 1 { TextOfJoin(lines[1..]); }
    else { assert Text(lines[1..]) == ""; }
  }

  lemma {:induction false} TextConcat(a: seq<string>, b: seq<string>)
    ensures Text(a + b) == Text(a) + Text(b)
  {
    if a == [] {
      assert a + b == b;
    } else {
      assert (a + b)[1..] == a[1..] + b;
      TextConcat(a[1..], b);
    }
  }

  lemma {:induction false} SplitLinesOneLine(s: string)
    ensures AllOneLine(SplitLines(s))
    decreases |s|
  {
    if s != "" { SplitLinesOneLine(AfterLine(s)); }
  }

  lemma {:induction false} JoinOneLine(lines: seq<string>)
    requires AllOneLine(lines)
    ensures OneLine(Join(lines, " "))
  {
    if |lines| > 1 { JoinOneLine(lines[1..]); }
  }

  lemma FieldIsOneLine(field: (string, string))
    requires OneLine(field.0)
    ensures OneLine(FieldLine(field)) && FieldLine(field) != "---"
  {
    SplitLinesOneLine(field.1);
    JoinOneLine(SplitLines(field.1));
    assert FieldLine(field)[|field.0|] == ':';
  }

  // The lines between the fences, as they come back.
  function Between(meta: Meta): seq<string> {
    if meta == [] then [""] else FieldLines(meta)
  }

  // A body made of lines, none of them blank at either end.
  ghost predicate BodyLines(lines: seq<string>) {
    AllOneLine(lines) && (lines != [] ==> lines[0] != "" && lines[|lines| - 1] != "")
  }

  ghost predicate KeysOneLine(meta: Meta) {
    forall i :: 0 <= i < |meta| ==> OneLine(meta[i].0)
  }

  lemma {:induction false} JoinEnds(lines: seq<string>)
    requires BodyLines(lines) && lines != []
    ensures var s := Join(lines, "\n"); s != "" && s[0] == lines[0][0] && s[|s| - 1] == lines[|lines| - 1][|lines[|lines| - 1]| - 1]
  {
    if |lines| > 1 { JoinLast(lines); }
  }

  lemma {:induction false} JoinLast(lines: seq<string>)
    requires lines != [] && lines[|lines| - 1] != ""
    ensures var s := Join(lines, "\n"); s != "" && s[|s| - 1] == lines[|lines| - 1][|lines[|lines| - 1]| - 1]
  {
    if |lines| > 1 { JoinLast(lines[1..]); }
  }

  lemma BodyKeepsEnds(lines: seq<string>)
    requires BodyLines(lines)
    ensures TrimNewlines(Join(lines, "\n")) == Join(lines, "\n") && DropNewlines(Join(lines, "\n")) == Join(lines, "\n")
  {
    if lines != [] { JoinEnds(lines); }
  }

  // The lines a rendered file consists of.
  function FileLines(meta: Meta, lines: seq<string>): seq<string> {
    ["---"] + Between(meta) + ["---", ""] + BodyOrBlank(lines)
  }

  function BodyOrBlank(lines: seq<string>): seq<string> {
    if lines == [] then [""] else lines
  }

  lemma FencesConcat(fields: string, body: string)
    ensures "---\n" + fields + "\n---\n\n" + body + "\n" == (("---\n" + (fields + "\n")) + "---\n\n") + (body + "\n")
  {
    assert "\n---\n\n" == "\n" + "---\n\n";
  }

  lemma FenceTexts()
    ensures Text(["---"]) == "---\n" && Text(["---", ""]) == "---\n\n"
  {
    assert Text(["---"]) == "---" + "\n" + Text([]);
    assert ["---", ""][1..] == [""];
    assert Text([""]) == "" + "\n" + Text([]);
    assert Text(["---", ""]) == "---" + "\n" + Text([""]);
  }

  lemma JoinBetween(meta: Meta)
    ensures Join(Between(meta), "\n") == Join(FieldLines(meta), "\n") && Between(meta) != []
  {}

  lemma {:induction false} RenderIsText(meta: Meta, lines: seq<string>)
    requires BodyLines(lines)
    ensures Render(meta, Join(lines, "\n")) == Text(FileLines(meta, lines))
  {
    var last := BodyOrBlank(lines);
    BodyKeepsEnds(lines);
    TextOfJoin(last);
    JoinBetween(meta);
    TextOfJoin(Between(meta));
    FenceTexts();
    FencesConcat(Join(Between(meta), "\n"), Join(last, "\n"));
    TextConcat(["---"], Between(meta));
    TextConcat(["---"] + Between(meta), ["---", ""]);
    TextConcat(["---"] + Between(meta) + ["---", ""], last);
  }

  lemma BetweenFences(meta: Meta)
    requires KeysOneLine(meta)
    ensures forall i :: 0 <= i < |Between(meta)| ==> OneLine(Between(meta)[i]) && Between(meta)[i] != "---"
  {
    forall i | 0 <= i < |Between(meta)| ensures OneLine(Between(meta)[i]) && Between(meta)[i] != "---" {
      if meta != [] { FieldIsOneLine(meta[i]); }
    }
  }

  // Where the closing fence of three parts stands.
  lemma FencedShape(between: seq<string>, tail: seq<string>)
    requires forall i :: 0 <= i < |between| ==> between[i] != "---"
    ensures var file, end := ["---"] + between + ["---", ""] + tail, 1 + |between|;
            file[0] == "---" && end < |file| && Fence(file, 1) == end && file[1..end] == between && file[end + 1..] == [""] + tail
  {
    var file, end := ["---"] + between + ["---", ""] + tail, 1 + |between|;
    assert forall j :: 1 <= j < end ==> file[j] == between[j - 1];
    FenceIs(file, 1, end);
  }

  lemma FileOneLine(meta: Meta, lines: seq<string>)
    requires KeysOneLine(meta) && BodyLines(lines)
    ensures AllOneLine(FileLines(meta, lines))
  {
    BetweenFences(meta);
  }

  lemma FenceIs(lines: seq<string>, i: nat, end: nat)
    requires i <= end < |lines| && lines[end] == "---" && forall j :: i <= j < end ==> lines[j] != "---"
    ensures Fence(lines, i) == end
  {}

  lemma BodyComesBack(lines: seq<string>)
    requires BodyLines(lines)
    ensures DropNewlines(Join([""] + BodyOrBlank(lines), "\n")) == Join(lines, "\n")
  {
    var tail := BodyOrBlank(lines);
    assert ([""] + tail)[1..] == tail;
    var s := "\n" + Join(tail, "\n");
    assert Join([""] + tail, "\n") == s;
    assert s[1..] == Join(tail, "\n");
    BodyKeepsEnds(lines);
  }

  /** Rendering one-line keys over a body of lines parses back to that body, with the field
      lines read one by one. */
  lemma {:induction false} SplitRendered(meta: Meta, lines: seq<string>)
    requires KeysOneLine(meta) && BodyLines(lines)
    ensures Split(Render(meta, Join(lines, "\n"))) == Ok((ParseLines(Between(meta)), Join(lines, "\n")))
  {
    var file := FileLines(meta, lines);
    RenderIsText(meta, lines);
    BetweenFences(meta);
    FencedShape(Between(meta), BodyOrBlank(lines));
    FileOneLine(meta, lines);
    SplitText(file, "");
    assert Text(file) + "" == Text(file) && file + [] == file;
    BodyComesBack(lines);
  }

  /* ---------- round trip ---------- */

  // Every boundary is a plain newline.
  ghost predicate Plain(s: string) {
    forall i :: 0 <= i < |s| && IsBreak(s[i]) ==> s[i] == '\n'
  }

  lemma {:induction false} JoinPlain(lines: seq<string>)
    requires AllOneLine(lines)
    ensures Plain(Join(lines, "\n"))
  {
    if |lines| > 1 {
      JoinPlain(lines[1..]);
      assert Join(lines, "\n") == lines[0] + "\n" + Join(lines[1..], "\n");
    }
  }

  lemma {:induction false} DropPlain(s: string)
    requires Plain(s)
    ensures Plain(DropNewlines(s)) && (DropNewlines(s) != "" ==> DropNewlines(s)[0] != '\n')
  {
    if s != "" && s[0] == '\n' { DropPlain(s[1..]); }
  }

  lemma {:induction false} TrimPlain(s: string)
    requires Plain(s) && (s != "" ==> s[0] != '\n')
    ensures var t := TrimNewlines(s);
            Plain(t) && TrimNewlines(t) == t && (t != "" ==> t[0] != '\n' && t[|t| - 1] != '\n')
  {
    if s != "" && s[|s| - 1] == '\n' { TrimPlain(s[..|s| - 1]); }
  }

  lemma {:induction false} SingleLine(s: string)
    requires s != "" && FirstBreak(s) == |s|
    ensures SplitLines(s) == [s]
  {
    assert s[..|s|] == s && AfterLine(s) == "" && SplitLines("") == [];
  }

  lemma JoinCons(x: string, lines: seq<string>, sep: string)
    requires lines != []
    ensures Join([x] + lines, sep) == x + sep + Join(lines, sep)
  {
    assert ([x] + lines)[1..] == lines;
  }

  lemma CutAt(s: string, n: nat)
    requires n < |s| && s[n] == '\n'
    ensures s == s[..n] + "\n" + s[n + 1..]
  {}

  lemma PlainStep(s: string)
    requires Plain(s) && s != "" && s[|s| - 1] != '\n' && FirstBreak(s) < |s|
    ensures var n := FirstBreak(s);
            && AfterLine(s) == s[n + 1..] != "" && Plain(AfterLine(s)) && AfterLine(s)[|AfterLine(s)| - 1] != '\n'
            && s == s[..n] + "\n" + AfterLine(s)
  {
    CutAt(s, FirstBreak(s));
  }

  lemma {:induction false} JoinSplit(s: string)
    requires Plain(s) && (s != "" ==> s[|s| - 1] != '\n')
    ensures Join(SplitLines(s), "\n") == s && (s != "" ==> SplitLines(s) != [])
    decreases |s|
  {
    if s != "" {
      if FirstBreak(s) == |s| {
        SingleLine(s);
      } else {
        PlainStep(s);
        JoinSplit(AfterLine(s));
        JoinCons(s[..FirstBreak(s)], SplitLines(AfterLine(s)), "\n");
      }
    }
  }

  lemma {:induction false} SplitEnds(s: string)
    requires Plain(s) && s != "" && s[|s| - 1] != '\n'
    ensures var lines := SplitLines(s); lines != [] && lines[|lines| - 1] != "" && (s[0] != '\n' ==> lines[0] != "")
    decreases |s|
  {
    if FirstBreak(s) == |s| {
      SingleLine(s);
    } else {
      PlainStep(s);
      SplitEnds(AfterLine(s));
    }
  }

  // What parsing a header leaves behind: distinct stripped one-line keys without a colon, and
  // stripped one-line values.
  ghost predicate Parsed(meta: Meta) {
    && (forall i :: 0 <= i < |meta| ==> ParsedField(meta[i]))
    && (forall i, j :: 0 <= i < j < |meta| ==> meta[i].0 != meta[j].0)
  }

  ghost predicate ParsedField(f: (string, string)) {
    && OneLine(f.0) && Strip(f.0) == f.0 && (forall i :: 0 <= i < |f.0| ==> f.0[i] != ':')
    && OneLine(f.1) && Strip(f.1) == f.1
  }

  lemma {:induction false} StripPart(s: string)
    ensures OneLine(s) ==> OneLine(Strip(s))
    ensures (forall i :: 0 <= i < |s| ==> s[i] != ':') ==> forall i :: 0 <= i < |Strip(s)| ==> Strip(s)[i] != ':'
    decreases |s|
  {
    if s != "" {
      if IsSpace(s[0]) { StripPart(s[1..]); }
      else if IsSpace(s[|s| - 1]) { StripPart(s[..|s| - 1]); }
    }
  }

  ghost predicate HasField(meta: Meta, k: string) {
    exists i :: 0 <= i < |meta| && meta[i].0 == k
  }

  lemma TailField(meta: Meta, k: string)
    requires meta != [] && meta[0].0 != k
    ensures HasField(meta, k) <==> HasField(meta[1..], k)
  {
    if HasField(meta, k) {
      var i :| 0 <= i < |meta| && meta[i].0 == k;
      assert meta[1..][i - 1].0 == k;
    }
    if HasField(meta[1..], k) {
      var i :| 0 <= i < |meta[1..]| && meta[1..][i].0 == k;
      assert meta[i + 1].0 == k;
    }
  }

  lemma {:induction false} MetaSetNew(meta: Meta, k: string, v: string)
    requires !HasField(meta, k)
    ensures MetaSet(meta, k, v) == meta + [(k, v)]
  {
    if meta != [] {
      assert meta[0].0 != k;
      TailField(meta, k);
      MetaSetNew(meta[1..], k, v);
      assert meta == [meta[0]] + meta[1..];
    }
  }

  lemma {:induction false} MetaSetOld(meta: Meta, k: string, v: string)
    requires HasField(meta, k)
    ensures |MetaSet(meta, k, v)| == |meta|
    ensures forall i :: 0 <= i < |meta| ==> MetaSet(meta, k, v)[i].0 == meta[i].0 && (MetaSet(meta, k, v)[i] == (k, v) || MetaSet(meta, k, v)[i] == meta[i])
  {
    if meta[0].0 != k {
      TailField(meta, k);
      MetaSetOld(meta[1..], k, v);
    }
  }

  lemma MetaSetKeys(meta: Meta, k: string, v: string)
    ensures var m := MetaSet(meta, k, v);
            && (forall i :: 0 <= i < |m| ==> m[i] == (k, v) || (i < |meta| && m[i] == meta[i]))
            && |meta| <= |m|
            && (forall i :: 0 <= i < |meta| ==> m[i].0 == meta[i].0)
            && (HasField(meta, k) ==> |m| == |meta|)
            && (!HasField(meta, k) ==> m == meta + [(k, v)])
  {
    if HasField(meta, k) { MetaSetOld(meta, k, v); } else { MetaSetNew(meta, k, v); }
  }

  lemma {:induction false} MetaSetParsed(meta: Meta, k: string, v: string)
    requires Parsed(meta) && ParsedField((k, v))
    ensures Parsed(MetaSet(meta, k, v))
  {
    MetaSetKeys(meta, k, v);
    var m := MetaSet(meta, k, v);
    forall i, j | 0 <= i < j < |m| ensures m[i].0 != m[j].0 {
      if !HasField(meta, k) && j == |meta| { assert meta[i].0 != k; }
    }
    forall i | 0 <= i < |m| ensures ParsedField(m[i]) {
      if i < |meta| { assert ParsedField(meta[i]); }
    }
  }

  lemma {:induction false} ParseLinesParsed(lines: seq<string>)
    requires AllOneLine(lines)
    ensures Parsed(ParseLines(lines))
  {
    if lines != [] {
      var front, line := lines[..|lines| - 1], lines[|lines| - 1];
      ParseLinesParsed(front);
      var n := Find(line, ':');
      if n < |line| {
        StripPart(line[..n]);
        StripPart(line[n + 1..]);
        StripTwice(line[..n]);
        StripTwice(line[n + 1..]);
        MetaSetParsed(ParseLines(front), Strip(line[..n]), Strip(line[n + 1..]));
      }
    }
  }

  lemma {:induction false} ColonFound(k: string, rest: string)
    requires forall i :: 0 <= i < |k| ==> k[i] != ':'
    ensures Find(k + ":" + rest, ':') == |k|
  {
    if k != "" {
      assert (k + ":" + rest)[1..] == k[1..] + ":" + rest;
      ColonFound(k[1..], rest);
    }
  }

  lemma {:induction false} FirstBreakNone(s: string)
    requires OneLine(s)
    ensures FirstBreak(s) == |s|
  {
    if s != "" { FirstBreakNone(s[1..]); }
  }

  lemma OneLineStays(s: string)
    requires OneLine(s)
    ensures Join(SplitLines(s), " ") == s
  {
    FirstBreakNone(s);
    if s != "" { SingleLine(s); }
  }

  lemma FieldComesBack(f: (string, string))
    requires ParsedField(f)
    ensures var line := FieldLine(f); var n := Find(line, ':');
            n < |line| && Strip(line[..n]) == f.0 && Strip(line[n + 1..]) == f.1
  {
    OneLineStays(f.1);
    var line := FieldLine(f);
    assert line == f.0 + ":" + (" " + f.1);
    ColonFound(f.0, " " + f.1);
    assert line[..|f.0|] == f.0 && line[|f.0| + 1..] == " " + f.1;
    assert (" " + f.1)[1..] == f.1;
  }

  lemma OneMoreField(front: Meta, f: (string, string))
    requires ParsedField(f) && !HasField(front, f.0)
    ensures ParseLine(front, FieldLine(f)) == front + [f]
  {
    FieldComesBack(f);
    MetaSetKeys(front, f.0, f.1);
  }

  lemma FieldLinesSnoc(front: Meta, f: (string, string))
    ensures FieldLines(front + [f]) == FieldLines(front) + [FieldLine(f)]
  {}

  lemma ParseSnoc(lines: seq<string>, line: string)
    ensures ParseLines(lines + [line]) == ParseLine(ParseLines(lines), line)
  {
    assert (lines + [line])[..|lines|] == lines;
  }

  lemma ParsedFront(meta: Meta)
    requires Parsed(meta) && meta != []
    ensures var front, last := meta[..|meta| - 1], meta[|meta| - 1];
            meta == front + [last] && Parsed(front) && ParsedField(last) && !HasField(front, last.0)
  {}

  lemma {:induction false} FieldsComeBack(meta: Meta)
    requires Parsed(meta)
    ensures ParseLines(FieldLines(meta)) == meta
  {
    if meta != [] {
      var front, last := meta[..|meta| - 1], meta[|meta| - 1];
      ParsedFront(meta);
      FieldsComeBack(front);
      FieldLinesSnoc(front, last);
      ParseSnoc(FieldLines(front), FieldLine(last));
      OneMoreField(front, last);
    }
  }

  lemma HeaderComesBack(meta: Meta)
    requires Parsed(meta)
    ensures ParseLines(Between(meta)) == meta
  {
    FieldsComeBack(meta);
    if meta == [] { assert [""][..0] == []; assert ParseLines([""]) == ParseLine([], ""); }
  }

  lemma SplitYields(text: string)
    requires Split(text).Ok?
    ensures Parsed(Split(text).value.0)
    ensures var body := TrimNewlines(Split(text).value.1);
            TrimNewlines(body) == body && BodyLines(SplitLines(body)) && Join(SplitLines(body), "\n") == body
  {
    var lines := SplitLines(text);
    SplitLinesOneLine(text);
    var end := Fence(lines, 1);
    assert AllOneLine(lines[1..end]) && AllOneLine(lines[end + 1..]);
    ParseLinesParsed(lines[1..end]);
    JoinPlain(lines[end + 1..]);
    DropPlain(Join(lines[end + 1..], "\n"));
    var body := Split(text).value.1;
    TrimPlain(body);
    JoinSplit(TrimNewlines(body));
    SplitLinesOneLine(TrimNewlines(body));
    if TrimNewlines(body) != "" { SplitEnds(TrimNewlines(body)); }
  }

  /** For every text split accepts, splitting what render prints gives the same fields in the
      same order and the same body up to trailing newlines. */
  lemma RenderRoundTrip(text: string)
    requires Split(text).Ok?
    ensures var (meta, body) := Split(text).value;
            Split(Render(meta, body)) == Ok((meta, TrimNewlines(body)))
  {
    var (meta, body) := Split(text).value;
    SplitYields(text);
    var lines := SplitLines(TrimNewlines(body));
    SplitRendered(meta, lines);
    HeaderComesBack(meta);
    assert Render(meta, body) == Render(meta, TrimNewlines(body));
  }

  /* ---------- the commands ---------- */

  datatype Command =
    | Append(text: string, kind: string, author: string, stamp: string)   // "" for an option not given
    | Set(key: string, value: string, stamp: string)

  function Label(kind: string, author: string): string {
    if author != "" then Strip(kind + " by " + author) else kind
  }

  function Entry(text: string, kind: string, author: string): string {
    "- " + (if Label(kind, author) != "" then "(" + Label(kind, author) + ") " else "") + Join(Words(text), " ")
  }

  function WithEntry(body: string, entry: string): string {
    if Strip(body) != "" then TrimNewlines(body) + "\n" + entry else entry
  }

  function Touch(meta: Meta, stamp: string): Meta {
    MetaDrop(meta, "updated") + [("updated", stamp)]
  }

  function EntryCount(body: string): nat {
    CountEntries(SplitLines(body))
  }

  function CountEntries(lines: seq<string>): nat {
    if lines == [] then 0 else (if "- " <= lines[0] then 1 else 0) + CountEntries(lines[1..])
  }

  // cmd_init's fields; None when one has no "=".
  function InitMeta(fields: seq<string>): Option<Meta> {
    if fields == [] then Some([])
    else
      var front, pair := InitMeta(fields[..|fields| - 1]), fields[|fields| - 1];
      var n := Find(pair, '=');
      if front.None? || n == |pair| then None
      else Some(MetaSet(front.value, Strip(pair[..n]), Strip(pair[n + 1..])))
  }

  // The meta and body a command writes, given what it read.
  function Edited(meta: Meta, body: string, c: Command): (Meta, string) {
    match c
    case Append(text, kind, author, stamp) => (Touch(meta, stamp), WithEntry(body, Entry(text, kind, author)))
    case Set(key, value, stamp) => (Touch(MetaSet(meta, key, value), stamp), body)
  }

  function Apply(file: string, c: Command): Result<string, Error> {
    match Split(file)
    case Err(e) => Err(e)
    case Ok((meta, body)) => Ok(Render(Edited(meta, body, c).0, Edited(meta, body, c).1))
  }

  function ApplyAll(file: string, cs: seq<Command>): Result<string, Error> {
    if cs == [] then Ok(file)
    else
      match ApplyAll(file, cs[..|cs| - 1])
      case Err(e) => Err(e)
      case Ok(f) => Apply(f, cs[|cs| - 1])
  }

  // The entries of a run, in order.
  function Log(cs: seq<Command>): seq<string> {
    if cs == [] then []
    else
      var c := cs[|cs| - 1];
      Log(cs[..|cs| - 1]) + (if c.Append? then [Entry(c.text, c.kind, c.author)] else [])
  }

  // Labels and field keys without line boundaries.
  predicate TidyCommand(c: Command) {
    if c.Append? then OneLine(Label(c.kind, c.author)) else OneLine(c.key)
  }

  predicate Tidy(cs: seq<Command>) {
    forall i :: 0 <= i < |cs| ==> TidyCommand(cs[i])
  }

  /* ---------- what a run leaves ---------- */

  ghost predicate Entries(lines: seq<string>) {
    forall i :: 0 <= i < |lines| ==> OneLine(lines[i]) && "- " <= lines[i]
  }

  ghost predicate FileOf(file: string, entries: seq<string>) {
    Entries(entries) && exists meta :: KeysOneLine(meta) && file == Render(meta, Join(entries, "\n"))
  }

  lemma {:induction false} WordsOneLine(s: string)
    ensures OneLine(Join(Words(s), " ")) && AllOneLine(Words(s))
    decreases |s|
  {
    if s != "" {
      if IsSpace(s[0]) {
        WordsOneLine(s[1..]);
      } else {
        WordsOneLine(s[WordEnd(s)..]);
        assert OneLine(s[..WordEnd(s)]);
        JoinOneLine(Words(s));
      }
    }
  }

  lemma EntryOneLine(text: string, kind: string, author: string)
    ensures OneLine(Entry(text, kind, author)) <==> OneLine(Label(kind, author))
    ensures "- " <= Entry(text, kind, author)
  {
    WordsOneLine(text);
    var tag, words := Label(kind, author), Join(Words(text), " ");
    var e := Entry(text, kind, author);
    if tag != "" {
      assert e == "- (" + tag + ") " + words;
      assert e[3..3 + |tag|] == tag;
    }
  }

  lemma {:induction false} DropKeys(meta: Meta, k: string)
    ensures forall i :: 0 <= i < |MetaDrop(meta, k)| ==> MetaDrop(meta, k)[i] in meta
  {
    if meta != [] && meta[0].0 != k { DropKeys(meta[1..], k); }
  }

  lemma TouchKeys(meta: Meta, stamp: string)
    requires KeysOneLine(meta)
    ensures KeysOneLine(Touch(meta, stamp))
  {
    DropKeys(meta, "updated");
    forall i | 0 <= i < |MetaDrop(meta, "updated")| ensures OneLine(MetaDrop(meta, "updated")[i].0) {
      var j :| 0 <= j < |meta| && meta[j] == MetaDrop(meta, "updated")[i];
    }
  }

  lemma SetKeys(meta: Meta, k: string, v: string)
    requires KeysOneLine(meta) && OneLine(k)
    ensures KeysOneLine(MetaSet(meta, k, v))
  {
    MetaSetKeys(meta, k, v);
    var m := MetaSet(meta, k, v);
    forall i | 0 <= i < |m| ensures OneLine(m[i].0) {
      if i < |meta| { assert OneLine(meta[i].0); }
    }
  }

  lemma {:induction false} EntriesAreBody(entries: seq<string>)
    requires Entries(entries)
    ensures BodyLines(entries)
    ensures Strip(Join(entries, "\n")) != "" <==> entries != []
    ensures TrimNewlines(Join(entries, "\n")) == Join(entries, "\n")
  {
    BodyKeepsEnds(entries);
    if entries != [] {
      assert entries[0][0] == "- "[0];
      JoinEnds(entries);
      StripKeeps(Join(entries, "\n"));
    }
  }

  lemma {:induction false} StripKeeps(s: string)
    requires s != "" && !IsSpace(s[0])
    ensures Strip(s) != ""
    decreases |s|
  {
    if IsSpace(s[|s| - 1]) { StripKeeps(s[..|s| - 1]); }
  }

  lemma {:induction false} JoinSnoc(lines: seq<string>, last: string)
    ensures Join(lines + [last], "\n") == if lines == [] then last else Join(lines, "\n") + "\n" + last
  {
    if |lines| == 1 {
      JoinCons(lines[0], [last], "\n");
    } else if |lines| > 1 {
      JoinSnoc(lines[1..], last);
      assert lines + [last] == [lines[0]] + (lines[1..] + [last]);
      JoinCons(lines[0], lines[1..] + [last], "\n");
    } else {
      assert lines + [last] == [last];
    }
  }

  lemma {:induction false} AppendKeeps(meta: Meta, entries: seq<string>, c: Command)
    requires KeysOneLine(meta) && Entries(entries) && c.Append? && TidyCommand(c)
    ensures var (meta', body') := Edited(meta, Join(entries, "\n"), c);
            FileOf(Render(meta', body'), entries + [Entry(c.text, c.kind, c.author)])
  {
    EntriesAreBody(entries);
    EntryOneLine(c.text, c.kind, c.author);
    JoinSnoc(entries, Entry(c.text, c.kind, c.author));
    TouchKeys(meta, c.stamp);
  }

  lemma {:induction false} SetKeeps(meta: Meta, entries: seq<string>, c: Command)
    requires KeysOneLine(meta) && Entries(entries) && c.Set? && TidyCommand(c)
    ensures var (meta', body') := Edited(meta, Join(entries, "\n"), c);
            FileOf(Render(meta', body'), entries)
  {
    SetKeys(meta, c.key, c.value);
    TouchKeys(MetaSet(meta, c.key, c.value), c.stamp);
  }

  lemma CommandKeeps(file: string, entries: seq<string>, c: Command)
    requires FileOf(file, entries) && TidyCommand(c)
    ensures var after := if c.Append? then entries + [Entry(c.text, c.kind, c.author)] else entries;
            Apply(file, c).Ok? && FileOf(Apply(file, c).value, after)
  {
    var meta0 :| KeysOneLine(meta0) && file == Render(meta0, Join(entries, "\n"));
    EntriesAreBody(entries);
    SplitRendered(meta0, entries);
    BetweenOneLine(meta0);
    ParseLinesParsed(Between(meta0));
    var meta := ParseLines(Between(meta0));
    assert KeysOneLine(meta);
    if c.Append? { AppendKeeps(meta, entries, c); } else { SetKeeps(meta, entries, c); }
  }

  lemma BetweenOneLine(meta: Meta)
    requires KeysOneLine(meta)
    ensures AllOneLine(Between(meta))
  {
    forall i | 0 <= i < |FieldLines(meta)| ensures OneLine(FieldLines(meta)[i]) { FieldIsOneLine(meta[i]); }
  }

  lemma {:induction false} SplitJoin(lines: seq<string>)
    requires AllOneLine(lines) && (lines != [] ==> lines[|lines| - 1] != "")
    ensures SplitLines(Join(lines, "\n")) == lines
  {
    if |lines| == 1 {
      FirstBreakNone(lines[0]);
      SingleLine(lines[0]);
    } else if |lines| > 1 {
      SplitJoin(lines[1..]);
      SplitFirst(lines[0], Join(lines[1..], "\n"));
      assert lines == [lines[0]] + lines[1..];
    }
  }

  lemma {:induction false} AllCounted(lines: seq<string>)
    requires Entries(lines)
    ensures CountEntries(lines) == |lines|
  {
    if lines != [] { AllCounted(lines[1..]); }
  }

  lemma OneMoreCommand(file: string, front: seq<Command>, c: Command)
    requires ApplyAll(file, front).Ok? && FileOf(ApplyAll(file, front).value, Log(front)) && TidyCommand(c)
    ensures ApplyAll(file, front + [c]).Ok? && FileOf(ApplyAll(file, front + [c]).value, Log(front + [c]))
  {
    assert (front + [c])[..|front|] == front;
    CommandKeeps(ApplyAll(file, front).value, Log(front), c);
    assert Log(front + [c]) == (if c.Append? then Log(front) + [Entry(c.text, c.kind, c.author)] else Log(front));
  }

  lemma {:induction false} RunKeeps(file: string, cs: seq<Command>)
    requires FileOf(file, []) && Tidy(cs)
    ensures ApplyAll(file, cs).Ok? && FileOf(ApplyAll(file, cs).value, Log(cs))
  {
    if cs != [] {
      var front, last := cs[..|cs| - 1], cs[|cs| - 1];
      assert cs == front + [last];
      RunKeeps(file, front);
      OneMoreCommand(file, front, last);
    }
  }

  ghost predicate InitTidy(fields: seq<string>) {
    InitMeta(fields).Some? && KeysOneLine(InitMeta(fields).value)
  }

  /** Over any run of one init and then appends and sets, with labels and field keys free of
      line boundaries, every command succeeds, the body's lines are exactly the entries
      appended so far in order, and entry_count is the number of appends. */
  lemma RunsOnlyAppend(fields: seq<string>, stamp: string, cs: seq<Command>)
    requires InitTidy(fields) && Tidy(cs)
    ensures var start := Render(Touch(InitMeta(fields).value, stamp), "");
            && ApplyAll(start, cs).Ok? && Split(ApplyAll(start, cs).value).Ok?
            && SplitLines(Split(ApplyAll(start, cs).value).value.1) == Log(cs)
            && EntryCount(Split(ApplyAll(start, cs).value).value.1) == |Log(cs)|
  {
    var meta := InitMeta(fields).value;
    var start := Render(Touch(meta, stamp), "");
    TouchKeys(meta, stamp);
    assert Join([], "\n") == "";
    assert FileOf(start, []);
    RunKeeps(start, cs);
    var meta' :| KeysOneLine(meta') && ApplyAll(start, cs).value == Render(meta', Join(Log(cs), "\n"));
    EntriesAreBody(Log(cs));
    SplitRendered(meta', Log(cs));
    SplitJoin(Log(cs));
    AllCounted(Log(cs));
  }

  function Appends(cs: seq<Command>): nat {
    if cs == [] then 0 else Appends(cs[..|cs| - 1]) + (if cs[|cs| - 1].Append? then 1 else 0)
  }

  lemma {:induction false} LogsGrow(cs: seq<Command>, more: seq<Command>)
    ensures Log(cs) <= Log(cs + more) && |Log(cs)| == Appends(cs)
    decreases |more|, |cs|
  {
    if more != [] {
      assert (cs + more)[..|cs + more| - 1] == cs + more[..|more| - 1];
      LogsGrow(cs, more[..|more| - 1]);
    } else {
      assert cs + more == cs;
      if cs != [] { LogsGrow(cs[..|cs| - 1], []); }
    }
  }

  /** Entries are never removed, edited or reordered: over any further run the file's body keeps
      the lines it had, in place, and gains one line for each append. */
  lemma FilesGrow(fields: seq<string>, stamp: string, cs: seq<Command>, more: seq<Command>)
    requires InitTidy(fields) && Tidy(cs + more)
    ensures var start := Render(Touch(InitMeta(fields).value, stamp), "");
            var (before, after) := (ApplyAll(start, cs), ApplyAll(start, cs + more));
            && before.Ok? && after.Ok? && Split(before.value).Ok? && Split(after.value).Ok?
            && SplitLines(Split(before.value).value.1) <= SplitLines(Split(after.value).value.1)
            && EntryCount(Split(after.value).value.1) == EntryCount(Split(before.value).value.1) + Appends(more)
  {
    assert Tidy(cs) by {
      forall i | 0 <= i < |cs| ensures TidyCommand(cs[i]) { assert (cs + more)[i] == cs[i]; }
    }
    RunsOnlyAppend(fields, stamp, cs);
    RunsOnlyAppend(fields, stamp, cs + more);
    LogsGrow(cs, more);
    LogsGrow(cs + more, []);
    assert cs + more + [] == cs + more;
    AppendsOfConcat(cs, more);
  }

  lemma {:induction false} AppendsOfConcat(cs: seq<Command>, more: seq<Command>)
    ensures Appends(cs + more) == Appends(cs) + Appends(more)
  {
    if more != [] {
      assert (cs + more)[..|cs + more| - 1] == cs + more[..|more| - 1];
      AppendsOfConcat(cs, more[..|more| - 1]);
    } else {
      assert cs + more == cs;
    }
  }

  lemma {:induction false} OneLineIffSingle(s: string)
    requires s != "" && !IsBreak(s[|s| - 1])
    ensures |SplitLines(s)| == 1 <==> OneLine(s)
  {
    if FirstBreak(s) == |s| {
      SingleLine(s);
      assert s[..|s|] == s;
    } else {
      assert AfterLine(s) != "";
      assert !OneLine(s);
    }
  }

  lemma {:induction false} SplitAfterLines(lines: seq<string>, last: string)
    requires AllOneLine(lines) && lines != []
    ensures SplitLines(Join(lines, "\n") + "\n" + last) == lines + SplitLines(last)
  {
    TextOfJoin(lines);
    SplitText(lines, last);
  }

  lemma {:induction false} BodyWithEntry(entries: seq<string>, entry: string)
    requires Entries(entries)
    ensures SplitLines(WithEntry(Join(entries, "\n"), entry)) == entries + SplitLines(entry)
  {
    EntriesAreBody(entries);
    if entries != [] { SplitAfterLines(entries, entry); }
  }

  /** An append adds the entry's own lines to those before it, and that is exactly one line if
      and only if the label has no line boundary. */
  lemma AppendAddsOneLine(entries: seq<string>, text: string, kind: string, author: string)
    requires Entries(entries)
    ensures var body := WithEntry(Join(entries, "\n"), Entry(text, kind, author));
            && SplitLines(body) == entries + SplitLines(Entry(text, kind, author))
            && (|SplitLines(body)| == |entries| + 1 <==> OneLine(Label(kind, author)))
  {
    BodyWithEntry(entries, Entry(text, kind, author));
    EntryOneLine(text, kind, author);
    EntryEnd(text, kind, author);
    OneLineIffSingle(Entry(text, kind, author));
  }

  lemma EntryEnd(text: string, kind: string, author: string)
    ensures var e := Entry(text, kind, author); e != "" && !IsBreak(e[|e| - 1])
  {
    WordsOneLine(text);
    var words := Join(Words(text), " ");
    var e := Entry(text, kind, author);
    var front := "- " + (if Label(kind, author) != "" then "(" + Label(kind, author) + ") " else "");
    assert e == front + words && front[|front| - 1] == ' ';
    if words != "" { assert e[|e| - 1] == words[|words| - 1]; }
  }

  /* ---------- what the pieces of a log look like ---------- */

  /** split refuses a text exactly when its first line is not a fence, or no later line is. */
  lemma SplitRefuses(text: string)
    ensures var lines := SplitLines(text);
            && (Split(text) == Err(NoFrontmatter) <==> lines == [] || lines[0] != "---")
            && (Split(text) == Err(NotTerminated) <==> lines != [] && lines[0] == "---" && forall i :: 1 <= i < |lines| ==> lines[i] != "---")
            && (Split(text).Err? ==> Split(text).error == NoFrontmatter || Split(text).error == NotTerminated)
  {}

  lemma RenderedIsLines(meta: Meta, lines: seq<string>)
    requires KeysOneLine(meta) && BodyLines(lines)
    ensures SplitLines(Render(meta, Join(lines, "\n"))) == FileLines(meta, lines)
  {
    var file := FileLines(meta, lines);
    RenderIsText(meta, lines);
    FileOneLine(meta, lines);
    SplitText(file, "");
    assert Text(file) + "" == Text(file) && file + [] == file;
  }

  /** A rendered log, line by line: the fields as "key: value" in order between two fences, a blank
      line and the body's lines. */
  lemma RenderedLines(meta: Meta, lines: seq<string>)
    requires KeysOneLine(meta) && BodyLines(lines) && meta != [] && lines != []
    requires forall i :: 0 <= i < |meta| ==> OneLine(meta[i].1)
    ensures var file := SplitLines(Render(meta, Join(lines, "\n")));
            && |file| == |meta| + |lines| + 3
            && file[0] == "---" && file[|meta| + 1] == "---" && file[|meta| + 2] == ""
            && (forall i :: 0 <= i < |meta| ==> file[i + 1] == meta[i].0 + ": " + meta[i].1)
            && file[|meta| + 3..] == lines
  {
    RenderedIsLines(meta, lines);
    FileShape(meta, lines);
    forall i | 0 <= i < |meta| ensures FieldLine(meta[i]) == meta[i].0 + ": " + meta[i].1 { OneLineStays(meta[i].1); }
  }

  lemma FileShape(meta: Meta, lines: seq<string>)
    requires meta != [] && lines != []
    ensures var file := FileLines(meta, lines);
            && |file| == |meta| + |lines| + 3
            && file[0] == "---" && file[|meta| + 1] == "---" && file[|meta| + 2] == ""
            && (forall i :: 0 <= i < |meta| ==> file[i + 1] == FieldLine(meta[i]))
            && file[|meta| + 3..] == lines
  {}

  lemma {:induction false} WordsAcross(a: string, c: char, b: string)
    requires IsSpace(c)
    ensures Words(a + [c] + b) == Words(a) + Words(b)
    decreases |a|
  {
    var s := a + [c] + b;
    if a == "" {
      assert s[0] == c && s[1..] == b;
    } else if IsSpace(a[0]) {
      assert s[1..] == a[1..] + [c] + b;
      WordsAcross(a[1..], c, b);
    } else {
      var n := WordEnd(a);
      WordEndStops(a, c, b);
      assert s[..n] == a[..n] && s[n..] == a[n..] + [c] + b;
      WordsAcross(a[n..], c, b);
    }
  }

  /** Splitting into words: white space separates, and anything else holds together. These three
      facts determine the words of every text. */
  lemma WordsMeaning(a: string, c: char, b: string)
    requires IsSpace(c)
    ensures Words("") == []
    ensures a != "" && (forall i :: 0 <= i < |a| ==> !IsSpace(a[i])) ==> Words(a) == [a]
    ensures Words(a + [c] + b) == Words(a) + Words(b)
  {
    WordsAcross(a, c, b);
    if a != "" && forall i :: 0 <= i < |a| ==> !IsSpace(a[i]) {
      WordEndAll(a);
      assert a[..|a|] == a && a[|a|..] == "";
    }
  }

  lemma {:induction false} WordEndStops(a: string, c: char, b: string)
    requires IsSpace(c)
    ensures WordEnd(a + [c] + b) == WordEnd(a)
  {
    var s := a + [c] + b;
    if a != "" && !IsSpace(a[0]) {
      assert s[1..] == a[1..] + [c] + b;
      WordEndStops(a[1..], c, b);
    }
  }

  lemma {:induction false} WordEndAll(a: string)
    requires forall i :: 0 <= i < |a| ==> !IsSpace(a[i])
    ensures WordEnd(a) == |a|
  {
    if a != "" { WordEndAll(a[1..]); }
  }

  // Nothing strip would cut off.
  predicate Trimmed(s: string) {
    s != "" && !IsSpace(s[0]) && !IsSpace(s[|s| - 1])
  }

  /** The line an append writes: the tag, if any, in one pair of parentheses, then the words of the
      text, single-spaced. */
  lemma {:induction false} EntryMeaning(text: string, kind: string, author: string)
    ensures var words := Join(Words(text), " ");
            && (kind == "" && author == "" ==> Entry(text, kind, author) == "- " + words)
            && (kind != "" && author == "" ==> Entry(text, kind, author) == "- (" + kind + ") " + words)
            && (kind == "" && Trimmed(author) ==> Entry(text, kind, author) == "- (by " + author + ") " + words)
            && (author != "" ==> var tag := Strip(kind + " by " + author);
                                 Entry(text, kind, author) == "- " + (if tag != "" then "(" + tag + ") " else "") + words)
            && (Trimmed(kind) && Trimmed(author) ==> Entry(text, kind, author) == "- (" + kind + " by " + author + ") " + words)
  {
    var words := Join(Words(text), " ");
    if kind == "" && Trimmed(author) {
      assert kind + " by " + author == " by " + author;
      assert (" by " + author)[1..] == "by " + author && IsSpace(' ');
      assert Strip("by " + author) == "by " + author;
      assert "- " + ("(" + ("by " + author) + ") ") + words == "- (by " + author + ") " + words;
    } else if Trimmed(kind) && Trimmed(author) {
      assert Strip(kind + " by " + author) == kind + " by " + author;
      assert "- " + ("(" + (kind + " by " + author) + ") ") + words == "- (" + kind + " by " + author + ") " + words;
    } else if kind != "" && author == "" {
      assert "- " + ("(" + kind + ") ") + words == "- (" + kind + ") " + words;
    }
  }

  /** entry_count counts each line once, and exactly those that start with "- ". */
  lemma {:induction false} CountMeaning(lines: seq<string>, line: string)
    ensures CountEntries([]) == 0
    ensures CountEntries(lines + [line]) == CountEntries(lines) + (if "- " <= line then 1 else 0)
  {
    if lines == [] {
      assert [line][1..] == [] && [] + [line] == [line];
    } else {
      assert (lines + [line])[1..] == lines[1..] + [line];
      CountMeaning(lines[1..], line);
    }
  }

  /* ---------- what a command leaves when the log is read back ---------- */

  lemma {:induction false} DropNone(meta: Meta, k: string)
    requires !HasField(meta, k)
    ensures MetaDrop(meta, k) == meta
  {
    if meta != [] {
      assert meta[0].0 != k;
      TailField(meta, k);
      DropNone(meta[1..], k);
    }
  }

  lemma {:induction false} DropAt(meta: Meta, k: string, u: nat)
    requires u < |meta| && meta[u].0 == k && forall i :: 0 <= i < u ==> meta[i].0 != k
    ensures MetaDrop(meta, k) == meta[..u] + meta[u + 1..]
  {
    if u > 0 {
      var rest := meta[1..];
      assert forall i :: 0 <= i < u - 1 ==> rest[i].0 == meta[i + 1].0;
      DropAt(rest, k, u - 1);
      assert rest[..u - 1] == meta[1..u] && rest[u..] == meta[u + 1..];
      assert [meta[0]] + meta[1..u] == meta[..u];
    }
  }

  lemma {:induction false} DropMeaning(meta: Meta, k: string)
    requires Parsed(meta)
    ensures !HasField(meta, k) ==> MetaDrop(meta, k) == meta
    ensures forall u :: 0 <= u < |meta| && meta[u].0 == k ==> MetaDrop(meta, k) == meta[..u] + meta[u + 1..]
  {
    if !HasField(meta, k) { DropNone(meta, k); }
    forall u | 0 <= u < |meta| && meta[u].0 == k ensures MetaDrop(meta, k) == meta[..u] + meta[u + 1..] { DropAt(meta, k, u); }
  }

  // The fields of before, in order, without key, and then (key, value).
  ghost predicate MovedLast(before: Meta, after: Meta, key: string, value: string) {
    && after != [] && after[|after| - 1] == (key, value)
    && if HasField(before, key) then
         exists u :: 0 <= u < |before| && before[u].0 == key && after[..|after| - 1] == before[..u] + before[u + 1..]
       else after[..|after| - 1] == before
  }

  // The field is replaced where it stands, or added last.
  ghost predicate SetInPlace(before: Meta, after: Meta, key: string, value: string) {
    if HasField(before, key) then
      && |after| == |before|
      && forall i :: 0 <= i < |before| ==> after[i] == (if before[i].0 == key then (key, value) else before[i])
    else after == before + [(key, value)]
  }

  lemma TouchMeaning(meta: Meta, stamp: string)
    requires Parsed(meta)
    ensures MovedLast(meta, Touch(meta, stamp), "updated", stamp)
  {
    DropMeaning(meta, "updated");
    if HasField(meta, "updated") {
      var u :| 0 <= u < |meta| && meta[u].0 == "updated";
      assert MetaDrop(meta, "updated") == meta[..u] + meta[u + 1..];
      assert Touch(meta, stamp)[..|Touch(meta, stamp)| - 1] == meta[..u] + meta[u + 1..];
    }
  }

  lemma {:induction false} SetMeaning(meta: Meta, k: string, v: string)
    requires Parsed(meta)
    ensures SetInPlace(meta, MetaSet(meta, k, v), k, v)
  {
    if HasField(meta, k) {
      MetaSetOld(meta, k, v);
      if meta[0].0 == k {
        assert forall i :: 1 <= i < |meta| ==> meta[i].0 != k;
      } else {
        TailField(meta, k);
        assert Parsed(meta[1..]) by {
          forall i | 0 <= i < |meta[1..]| ensures ParsedField(meta[1..][i]) { assert ParsedField(meta[i + 1]); }
        }
        SetMeaning(meta[1..], k, v);
        forall i | 0 <= i < |meta| ensures MetaSet(meta, k, v)[i] == (if meta[i].0 == k then (k, v) else meta[i]) {
          if i > 0 { assert MetaSet(meta, k, v)[i] == MetaSet(meta[1..], k, v)[i - 1] && meta[1..][i - 1] == meta[i]; }
        }
      }
    } else {
      MetaSetNew(meta, k, v);
    }
  }

  function Without(meta: Meta, u: nat): Meta
    requires u < |meta|
  {
    meta[..u] + meta[u + 1..]
  }

  lemma WithoutAt(meta: Meta, u: nat, i: nat)
    requires u < |meta| && i < |meta| - 1
    ensures |Without(meta, u)| == |meta| - 1 && Without(meta, u)[i] == meta[if i < u then i else i + 1]
  {}

  lemma WithoutParsed(meta: Meta, u: nat)
    requires Parsed(meta) && u < |meta|
    ensures Parsed(Without(meta, u)) && !HasField(Without(meta, u), meta[u].0)
  {
    var d := Without(meta, u);
    forall i | 0 <= i < |d| ensures ParsedField(d[i]) && d[i].0 != meta[u].0 { WithoutAt(meta, u, i); }
    forall i, j | 0 <= i < j < |d| ensures d[i].0 != d[j].0 {
      WithoutAt(meta, u, i);
      WithoutAt(meta, u, j);
    }
  }

  lemma {:induction false} DropParsed(meta: Meta, k: string)
    requires Parsed(meta)
    ensures Parsed(MetaDrop(meta, k)) && !HasField(MetaDrop(meta, k), k)
  {
    DropMeaning(meta, k);
    if HasField(meta, k) {
      var u :| 0 <= u < |meta| && meta[u].0 == k;
      WithoutParsed(meta, u);
    }
  }

  lemma AddedParsed(meta: Meta, f: (string, string))
    requires Parsed(meta) && ParsedField(f) && !HasField(meta, f.0)
    ensures Parsed(meta + [f])
  {
    forall i | 0 <= i < |meta| ensures meta[i].0 != f.0 {}
  }

  lemma TouchParsed(meta: Meta, stamp: string)
    requires Parsed(meta) && ParsedField(("updated", stamp))
    ensures Parsed(Touch(meta, stamp))
  {
    DropParsed(meta, "updated");
    AddedParsed(MetaDrop(meta, "updated"), ("updated", stamp));
  }

  // Values that come back as they were given: one line, nothing to strip.
  predicate Plainly(v: string) {
    OneLine(v) && Strip(v) == v
  }

  // A command whose texts come back as given.
  predicate PlainCommand(c: Command) {
    && Plainly(c.stamp)
    && match c
       case Append(_, kind, author, _) => OneLine(Label(kind, author))
       case Set(key, value, _) => Plainly(key) && (forall i :: 0 <= i < |key| ==> key[i] != ':') && Plainly(value)
  }

  lemma UpdatedIsKey(stamp: string)
    requires Plainly(stamp)
    ensures ParsedField(("updated", stamp))
  {
    var k := "updated";
    assert !IsSpace(k[0]) && !IsSpace(k[|k| - 1]);
    assert Strip(k) == k;
  }

  lemma AppendReadBack(file: string, text: string, kind: string, author: string, stamp: string)
    requires Split(file).Ok? && PlainCommand(Append(text, kind, author, stamp))
    ensures var (meta, body) := Split(file).value;
            var r := Apply(file, Append(text, kind, author, stamp));
            && r.Ok? && Split(r.value).Ok?
            && Split(r.value).value.0 == Touch(meta, stamp)
            && SplitLines(Split(r.value).value.1) ==
               (if Strip(body) == "" then [] else SplitLines(TrimNewlines(body))) + [Entry(text, kind, author)]
  {
    var (meta, body) := Split(file).value;
    var entry := Entry(text, kind, author);
    SplitYields(file);
    EntryOneLine(text, kind, author);
    var lines := if Strip(body) == "" then [] else SplitLines(TrimNewlines(body));
    JoinSnoc(lines, entry);
    if Strip(body) != "" { TrimKeepsText(body); }
    assert WithEntry(body, entry) == Join(lines + [entry], "\n");
    UpdatedIsKey(stamp);
    TouchParsed(meta, stamp);
    ReadBack(Touch(meta, stamp), lines + [entry]);
    SplitJoin(lines + [entry]);
  }

  // A body with text in it has lines.
  lemma {:induction false} TrimKeepsText(body: string)
    requires Strip(body) != ""
    ensures TrimNewlines(body) != "" && SplitLines(TrimNewlines(body)) != []
  {
    if TrimNewlines(body) == "" { OnlyNewlines(body); }
  }

  lemma OnlyNewlines(s: string)
    requires TrimNewlines(s) == ""
    ensures Strip(s) == ""
  {
    AllNewlines(s);
    StripsAway(s);
  }

  lemma {:induction false} StripsAway(s: string)
    requires forall i :: 0 <= i < |s| ==> s[i] == '\n'
    ensures Strip(s) == ""
  {
    if s != "" { StripsAway(s[1..]); }
  }

  lemma {:induction false} AllNewlines(s: string)
    requires TrimNewlines(s) == ""
    ensures forall i :: 0 <= i < |s| ==> s[i] == '\n'
  {
    if s != "" {
      AllNewlines(s[..|s| - 1]);
      forall i | 0 <= i < |s| ensures s[i] == '\n' { if i < |s| - 1 { assert s[i] == s[..|s| - 1][i]; } }
    }
  }

  // A parsed header over a body of lines comes back whole.
  lemma {:induction false} ReadBack(meta: Meta, lines: seq<string>)
    requires Parsed(meta) && BodyLines(lines)
    ensures Split(Render(meta, Join(lines, "\n"))) == Ok((meta, Join(lines, "\n")))
  {
    SplitRendered(meta, lines);
    HeaderComesBack(meta);
  }

  lemma SetReadBack(file: string, key: string, value: string, stamp: string)
    requires Split(file).Ok? && PlainCommand(Set(key, value, stamp))
    ensures var (meta, body) := Split(file).value;
            var r := Apply(file, Set(key, value, stamp));
            && r.Ok? && Split(r.value) == Ok((Touch(MetaSet(meta, key, value), stamp), TrimNewlines(body)))
  {
    var (meta, body) := Split(file).value;
    SplitYields(file);
    MetaSetParsed(meta, key, value);
    UpdatedIsKey(stamp);
    TouchParsed(MetaSet(meta, key, value), stamp);
    ReadBack(Touch(MetaSet(meta, key, value), stamp), SplitLines(TrimNewlines(body)));
    assert Render(Touch(MetaSet(meta, key, value), stamp), body) == Render(Touch(MetaSet(meta, key, value), stamp), TrimNewlines(body));
  }

  /** What any log split accepts holds once an append has run and the log is read back: every field as
      it was, the stamp moved last, and after the lines it had, one for the entry. */
  lemma AppendMeaning(file: string, text: string, kind: string, author: string, stamp: string)
    requires Split(file).Ok? && PlainCommand(Append(text, kind, author, stamp))
    ensures var (meta, body) := Split(file).value;
            var r := Apply(file, Append(text, kind, author, stamp));
            && r.Ok? && Split(r.value).Ok?
            && MovedLast(meta, Split(r.value).value.0, "updated", stamp)
            && SplitLines(Split(r.value).value.1) ==
               (if Strip(body) == "" then [] else SplitLines(TrimNewlines(body))) + [Entry(text, kind, author)]
  {
    AppendReadBack(file, text, kind, author, stamp);
    SplitYields(file);
    TouchMeaning(Split(file).value.0, stamp);
  }

  /** And once a set has run: the field replaced where it stood or added, the stamp moved last, and
      the body as it was up to trailing newlines. */
  lemma SetCommandMeaning(file: string, key: string, value: string, stamp: string) returns (between: Meta)
    requires Split(file).Ok? && PlainCommand(Set(key, value, stamp))
    ensures var (meta, body) := Split(file).value;
            var r := Apply(file, Set(key, value, stamp));
            && r.Ok? && Split(r.value).Ok?
            && SetInPlace(meta, between, key, value) && MovedLast(between, Split(r.value).value.0, "updated", stamp)
            && Split(r.value).value.1 == TrimNewlines(body)
  {
    SetReadBack(file, key, value, stamp);
    SplitYields(file);
    between := MetaSet(Split(file).value.0, key, value);
    MetaSetParsed(Split(file).value.0, key, value);
    SetMeaning(Split(file).value.0, key, value);
    TouchMeaning(between, stamp);
  }

  /** init takes every field at its first "=", and refuses when one has none. */
  lemma {:induction false} InitMeaning(fields: seq<string>, key: string, value: string, other: string)
    requires (forall i :: 0 <= i < |key| ==> key[i] != '=') && (forall i :: 0 <= i < |other| ==> other[i] != '=')
    ensures InitMeta([]) == Some([])
    ensures InitMeta(fields + [key + "=" + value]) ==
            match InitMeta(fields) case Some(meta) => Some(MetaSet(meta, Strip(key), Strip(value))) case None => None
    ensures InitMeta(fields + [other]) == None
  {
    var f := key + "=" + value;
    assert (fields + [f])[..|fields|] == fields && (fields + [other])[..|fields|] == fields;
    EqualsFound(key, value);
    assert f[..|key|] == key && f[|key| + 1..] == value;
  }

  lemma {:induction false} EqualsFound(k: string, rest: string)
    requires forall i :: 0 <= i < |k| ==> k[i] != '='
    ensures Find(k + "=" + rest, '=') == |k|
  {
    if k != "" {
      assert (k + "=" + rest)[1..] == k[1..] + "=" + rest;
      EqualsFound(k[1..], rest);
    }
  }

  /* ---------- the script over its file ---------- */

  class MemlogFile {
    var file: Option<string>

    constructor ()
      ensures file == None
    {
      file := None;
    }

    // split, filling the dict line by line.
    method ReadFile() returns (r: Result<(Meta, string), Error>)
      ensures r == if file.None? then Err(NoFile) else Split(file.value)
    {
      if file.None? { return Err(NoFile); }
      var lines := SplitLines(file.value);
      if lines == [] || lines[0] != "---" { return Err(NoFrontmatter); }
      var end := 1;
      while end < |lines| && lines[end] != "---"
        invariant 1 <= end <= |lines| && Fence(lines, 1) == Fence(lines, end)
      {
        end := end + 1;
      }
      if end == |lines| { return Err(NotTerminated); }
      var header := lines[1..end];
      var meta: Meta := [];
      for i := 0 to |header|
        invariant meta == ParseLines(header[..i])
      {
        assert header[..i + 1][..|header[..i + 1]| - 1] == header[..i];
        var n := Find(header[i], ':');
        if n < |header[i]| { meta := MetaSet(meta, Strip(header[i][..n]), Strip(header[i][n + 1..])); }
      }
      assert header[..|header|] == header;
      r := Ok((meta, DropNewlines(Join(lines[end + 1..], "\n"))));
    }

    // Returns the acknowledged entry count.
    method CmdInit(fields: seq<string>, stamp: string) returns (r: Result<nat, Error>)
      modifies this
      ensures old(file).Some? ==> r == Err(AlreadyExists)
      ensures old(file).None? && InitMeta(fields).None? ==> r == Err(FieldWithoutEquals)
      ensures r.Err? ==> file == old(file)
      ensures old(file).None? && InitMeta(fields).Some? ==>
                r == Ok(0) && file == Some(Render(Touch(InitMeta(fields).value, stamp), ""))
    {
      if file.Some? { return Err(AlreadyExists); }
      var meta: Meta := [];
      for i := 0 to |fields|
        invariant InitMeta(fields[..i]) == Some(meta)
      {
        assert fields[..i + 1][..|fields[..i + 1]| - 1] == fields[..i];
        var n := Find(fields[i], '=');
        if n == |fields[i]| {
          InitStops(fields, i);
          return Err(FieldWithoutEquals);
        }
        meta := MetaSet(meta, Strip(fields[i][..n]), Strip(fields[i][n + 1..]));
      }
      assert fields[..|fields|] == fields;
      file := Some(Render(Touch(meta, stamp), ""));
      r := Ok(0);
    }

    method Run(c: Command) returns (r: Result<nat, Error>)
      modifies this
      ensures old(file).None? ==> r == Err(NoFile)
      ensures r.Err? ==> file == old(file)
      ensures old(file).Some? && Split(old(file).value).Err? ==> r == Err(Split(old(file).value).error)
      ensures old(file).Some? && Split(old(file).value).Ok? ==>
                var (meta, body) := Split(old(file).value).value;
                && Apply(old(file).value, c).Ok? && file == Some(Apply(old(file).value, c).value)
                && r == Ok(EntryCount(Edited(meta, body, c).1))
    {
      var read := ReadFile();
      if read.Err? { return Err(read.error); }
      var (meta, body) := read.value;
      match c {
        case Append(text, kind, author, stamp) =>
          var entry := Entry(text, kind, author);
          body := if Strip(body) != "" then TrimNewlines(body) + "\n" + entry else entry;
          meta := MetaDrop(meta, "updated") + [("updated", stamp)];
        case Set(key, value, stamp) =>
          meta := MetaSet(meta, key, value);
          meta := MetaDrop(meta, "updated") + [("updated", stamp)];
      }
      file := Some(Render(meta, body));
      r := Ok(EntryCount(body));
    }
  }

  lemma {:induction false} InitStops(fields: seq<string>, i: nat)
    requires i < |fields| && Find(fields[i], '=') == |fields[i]|
    ensures InitMeta(fields).None?
  {
    if i < |fields| - 1 { InitStops(fields[..|fields| - 1], i); }
  }
}
