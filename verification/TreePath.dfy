/** `get_dependency_path`: recovering the way from the root to a crate from the printed output of `cargo tree`. */
module TreePath {
  import opened Basics

  // ---- the code ----

  /** The characters a tree is drawn with: vertical bar, tee, corner, dash, space and tab. */
  predicate IsDrawing(c: char) {
    c == '\U{2502}' || c == '\U{251C}' || c == '\U{2514}' || c == '\U{2500}' || c == ' ' || c == '\t'
  }

  /** What `str.split()` splits at. */
  predicate IsSpace(c: char) {
    || '\t' <= c <= '\r' || '\U{1C}' <= c <= ' ' || c == '\U{85}' || c == '\U{A0}' || c == '\U{1680}'
    || '\U{2000}' <= c <= '\U{200A}' || c == '\U{2028}' || c == '\U{2029}' || c == '\U{202F}' || c == '\U{205F}'
    || c == '\U{3000}'
  }

  /** The length of the drawing at the start of the line. */
  function DrawingLength(line: string): (n: nat)
    ensures n <= |line| && (forall j | 0 <= j < n :: IsDrawing(line[j])) && (n < |line| ==> !IsDrawing(line[n]))
  {
    if line == "" || !IsDrawing(line[0]) then 0 else 1 + DrawingLength(line[1..])
  }

  function StripLeft(line: string): string {
    line[DrawingLength(line)..]
  }

  function SkipSpace(s: string): string {
    if s != "" && IsSpace(s[0]) then SkipSpace(s[1..]) else s
  }

  function WordLength(s: string): (n: nat)
    ensures n <= |s|
  {
    if s == "" || IsSpace(s[0]) then 0 else 1 + WordLength(s[1..])
  }

  /** `s.split()[0]`; None: there is no first word, an IndexError. */
  function FirstWord(s: string): Option<string> {
    var t := SkipSpace(s);
    if t == "" then None else Some(t[..WordLength(t)])
  }

  /** A word at the start, up to the white space or the end, is the first word. */
  lemma {:induction false} WordEnds(name: string, rest: string)
    requires (forall c | c in name :: !IsSpace(c)) && (rest == "" || IsSpace(rest[0]))
    ensures WordLength(name + rest) == |name|
  {
    if name == "" {
      assert name + rest == rest;
    } else {
      assert name[0] in name && (name + rest)[1..] == name[1..] + rest;
      WordEnds(name[1..], rest);
    }
  }

  lemma {:induction false} SpaceSkipped(space: string, rest: string)
    requires (forall c | c in space :: IsSpace(c)) && (rest == "" || !IsSpace(rest[0]))
    ensures SkipSpace(space + rest) == rest
  {
    if space == "" {
      assert space + rest == rest;
    } else {
      assert space[0] in space && (space + rest)[1..] == space[1..] + rest;
      SpaceSkipped(space[1..], rest);
    }
  }

  /** The first word of any line: white space in front is passed over, and the word ends where white space or the end
      of the line comes. */
  lemma FirstWordIs(space: string, name: string, rest: string)
    requires (forall c | c in space :: IsSpace(c)) && (rest == "" || IsSpace(rest[0]))
    requires name != "" && forall c | c in name :: !IsSpace(c)
    ensures FirstWord(space + name + rest) == Some(name)
  {
    assert name[0] in name && (name + rest)[0] == name[0];
    SpaceSkipped(space, name + rest);
    assert space + name + rest == space + (name + rest);
    WordEnds(name, rest);
  }

  /** There is no first word exactly if there is nothing but white space. */
  lemma {:induction false} NoFirstWord(s: string)
    ensures FirstWord(s).None? <==> forall c | c in s :: IsSpace(c)
  {
    if s != "" {
      assert s == [s[0]] + s[1..] && s[0] in s;
      if IsSpace(s[0]) { NoFirstWord(s[1..]); }
    }
  }

  /** The crate that a line names. */
  function CrateOf(line: string): Option<string> {
    FirstWord(StripLeft(line))
  }

  /** A line that is all drawing counts as not indented. */
  function Indent(line: string): nat {
    var n := DrawingLength(line);
    if n == |line| then 0 else n
  }

  /** `indent_level` */
  method IndentLevel(line: string) returns (contentStart: nat)
    ensures contentStart == Indent(line)
    ensures (forall k | 0 <= k < |line| :: IsDrawing(line[k])) ==> contentStart == 0
    ensures (exists k :: 0 <= k < |line| && !IsDrawing(line[k])) ==>
              contentStart < |line| && !IsDrawing(line[contentStart]) &&
              forall k | 0 <= k < contentStart :: IsDrawing(line[k])
  {
    contentStart := 0;
    for j := 0 to |line|
      invariant contentStart == 0 && forall k | 0 <= k < j :: IsDrawing(line[k])
    {
      if !IsDrawing(line[j]) {
        contentStart := j;
        DrawingEnds(line, j);
        return;
      }
    }
    AllDrawing(line);
  }

  lemma DrawingEnds(line: string, j: nat)
    requires j < |line| && !IsDrawing(line[j]) && forall k | 0 <= k < j :: IsDrawing(line[k])
    ensures DrawingLength(line) == j
  {
  }

  lemma AllDrawing(line: string)
    requires forall k | 0 <= k < |line| :: IsDrawing(line[k])
    ensures DrawingLength(line) == |line|
  {
  }

  /** How `cargo tree` ended: with an error exit, or with the lines it printed. */
  datatype CargoTree = Failed(stderr: string) | Printed(lines: seq<string>)

  function TrimRight(s: string): string {
    if s != "" && IsSpace(s[|s| - 1]) then TrimRight(s[..|s| - 1]) else s
  }

  /** `message` is `s` without the white space around it. */
  ghost predicate Stripped(s: string, message: string) {
    exists i, j :: StrippedAt(s, message, i, j)
  }

  ghost predicate StrippedAt(s: string, message: string, i: int, j: int) {
    && 0 <= i <= j <= |s| && message == s[i..j]
    && (forall k | 0 <= k < i || j <= k < |s| :: IsSpace(s[k]))
    && (message != "" ==> !IsSpace(message[0]) && !IsSpace(message[|message| - 1]))
  }

  predicate AllSpace(s: string) {
    forall k | 0 <= k < |s| :: IsSpace(s[k])
  }

  lemma {:induction false} SkipSpaceMeans(s: string) returns (i: nat)
    ensures i <= |s| && SkipSpace(s) == s[i..] && AllSpace(s[..i])
    ensures SkipSpace(s) != "" ==> !IsSpace(SkipSpace(s)[0])
  {
    hide IsSpace;
    i := 0;
    if s != "" && IsSpace(s[0]) {
      var t := s[1..];
      var k := SkipSpaceMeans(t);
      i := k + 1;
      assert s[i..] == t[k..];
      assert s[..i] == [s[0]] + t[..k];
    } else {
      assert s[0..] == s;
    }
  }

  lemma {:induction false} TrimRightMeans(s: string) returns (j: nat)
    ensures j <= |s| && TrimRight(s) == s[..j] && AllSpace(s[j..])
    ensures TrimRight(s) != "" ==> !IsSpace(TrimRight(s)[|TrimRight(s)| - 1])
  {
    hide IsSpace;
    j := |s|;
    if s != "" && IsSpace(s[|s| - 1]) {
      var r := s[..|s| - 1];
      j := TrimRightMeans(r);
      assert s[..j] == r[..j];
      assert s[j..] == r[j..] + [s[|s| - 1]];
    } else {
      assert s[..|s|] == s;
    }
  }

  lemma StripMeans(s: string)
    ensures Stripped(s, TrimRight(SkipSpace(s)))
  {
    hide IsSpace, SkipSpace, TrimRight;
    var i := SkipSpaceMeans(s);
    var t := SkipSpace(s);
    var j := TrimRightMeans(t);
    assert t[..j] == s[i..i + j];
    assert TrimRight(t) != "" ==> TrimRight(t)[0] == t[0];
    forall k | 0 <= k < i || i + j <= k < |s|
      ensures IsSpace(s[k])
    {
      if k < i { assert s[..i][k] == s[k]; } else { assert t[j..][k - i - j] == s[k]; }
    }
    assert StrippedAt(s, TrimRight(t), i, i + j);
  }

  datatype PathResult =
    | CargoFailed(message: string)
    | IndexError           // a line without a word comes before any match
    | NotFound
    | Found(lines: seq<string>)

  /** Line `i` is the first to name `dep`, and every line before it names something. */
  predicate FirstMatch(lines: seq<string>, dep: string, i: nat) {
    && i < |lines| && CrateOf(lines[i]) == Some(dep)
    && forall j | 0 <= j < i :: CrateOf(lines[j]).Some? && CrateOf(lines[j]) != Some(dep)
  }

  predicate FirstBlank(lines: seq<string>, dep: string, i: nat) {
    && i < |lines| && CrateOf(lines[i]).None?
    && forall j | 0 <= j < i :: CrateOf(lines[j]).Some? && CrateOf(lines[j]) != Some(dep)
  }

  /** The less and less indented lines met on the way up from line `n`, topmost first. */
  function Climb(lines: seq<string>, n: nat, current: nat): seq<string>
    requires n <= |lines|
  {
    if n == 0 then []
    else if Indent(lines[n - 1]) < current then Climb(lines, n - 1, Indent(lines[n - 1])) + [lines[n - 1]]
    else Climb(lines, n - 1, current)
  }

  function Reversed(s: seq<string>): seq<string> {
    if s == [] then [] else [s[|s| - 1]] + Reversed(s[..|s| - 1])
  }

  lemma {:induction false} NothingAboveTheRoot(lines: seq<string>, n: nat)
    requires n <= |lines|
    ensures Climb(lines, n, 0) == []
  {
    if n > 0 { NothingAboveTheRoot(lines, n - 1); }
  }

  lemma ReversedAppend(s: seq<string>, x: string)
    ensures Reversed(s + [x]) == [x] + Reversed(s)
  {
    assert (s + [x])[..|s|] == s;
  }

  /** The whole path: what is still to be climbed from line `i`, and what has been collected below. */
  function Path(lines: seq<string>, i: nat, current: nat, collected: seq<string>): seq<string>
    requires i <= |lines|
  {
    Climb(lines, i, current) + Reversed(collected)
  }

  lemma PathBegins(lines: seq<string>, target: nat)
    requires target < |lines|
    ensures Path(lines, target, Indent(lines[target]), [lines[target]])
         == Climb(lines, target, Indent(lines[target])) + [lines[target]]
  {
    hide Indent, Climb;
    assert Reversed([lines[target]]) == [lines[target]];
  }

  /** One turn of the loop leaves the whole path as it is. */
  lemma PathStep(lines: seq<string>, i: nat, current: nat, collected: seq<string>)
    requires i < |lines|
    ensures Path(lines, i + 1, current, collected) ==
            if Indent(lines[i]) < current then Path(lines, i, Indent(lines[i]), collected + [lines[i]])
            else Path(lines, i, current, collected)
  {
    hide Indent, Reversed;
    if Indent(lines[i]) < current {
      ReversedAppend(collected, lines[i]);
      var c, r := Climb(lines, i, Indent(lines[i])), Reversed(collected);
      assert (c + [lines[i]]) + r == c + ([lines[i]] + r);
    }
  }

  lemma PathEnds(lines: seq<string>, i: nat, current: nat, collected: seq<string>)
    requires i <= |lines| && (i == 0 || current == 0)
    ensures Path(lines, i, current, collected) == Reversed(collected)
  {
    hide Indent, Reversed;
    if current == 0 { NothingAboveTheRoot(lines, i); }
  }

  /** The backward walk; it stops early once it has met a line without indentation. */
  method WalkBack(lines: seq<string>, target: nat) returns (path: seq<string>)
    requires target < |lines|
    ensures path == Climb(lines, target, Indent(lines[target])) + [lines[target]]
  {
    hide Indent, CrateOf, Climb, Path, Reversed;
    var pathLines := [lines[target]];
    var currentIndent := IndentLevel(lines[target]);
    PathBegins(lines, target);
    ghost var whole := Path(lines, target, currentIndent, pathLines);
    for i := target downto 0
      invariant whole == Path(lines, i, currentIndent, pathLines)
    {
      var lineIndent := IndentLevel(lines[i]);
      PathStep(lines, i, currentIndent, pathLines);
      if lineIndent < currentIndent {
        pathLines := pathLines + [lines[i]];
        currentIndent := lineIndent;
        if lineIndent == 0 {
          PathEnds(lines, i, 0, pathLines);
          return Reversed(pathLines);
        }
      }
    }
    PathEnds(lines, 0, currentIndent, pathLines);
    path := Reversed(pathLines);
  }

  lemma OneFirstMatch(lines: seq<string>, dep: string, i: nat)
    requires FirstMatch(lines, dep, i)
    ensures forall j: nat :: FirstMatch(lines, dep, j) ==> j == i
    ensures forall j: nat :: !FirstBlank(lines, dep, j)
  {
    hide CrateOf;
    forall j: nat
      ensures FirstMatch(lines, dep, j) ==> j == i
      ensures !FirstBlank(lines, dep, j)
    {
      if j < i { assert CrateOf(lines[j]).Some? && CrateOf(lines[j]) != Some(dep); }
    }
  }

  predicate AllOther(lines: seq<string>, dep: string) {
    forall i | 0 <= i < |lines| :: CrateOf(lines[i]).Some? && CrateOf(lines[i]) != Some(dep)
  }

  /** `get_dependency_path`, from the point where `cargo tree` has ended. */
  method GetDependencyPath(output: CargoTree, dep: string) returns (r: PathResult)
    ensures r.CargoFailed? <==> output.Failed?
    ensures r.CargoFailed? ==> Stripped(output.stderr, r.message)
    ensures r.IndexError? <==> output.Printed? && exists i :: FirstBlank(output.lines, dep, i)
    ensures r.NotFound? <==> output.Printed? && AllOther(output.lines, dep)
    ensures r.Found? <==> output.Printed? && exists i :: FirstMatch(output.lines, dep, i)
    ensures forall i: nat :: r.Found? && FirstMatch(output.lines, dep, i) ==>
              r.lines == Climb(output.lines, i, Indent(output.lines[i])) + [output.lines[i]]
  {
    if output.Failed? {
      StripMeans(output.stderr);
      return CargoFailed(TrimRight(SkipSpace(output.stderr)));
    }
    r := FindPath(output.lines, dep);
  }

  method FindPath(lines: seq<string>, dep: string) returns (r: PathResult)
    ensures !r.CargoFailed?
    ensures r.IndexError? <==> exists i :: FirstBlank(lines, dep, i)
    ensures r.NotFound? <==> AllOther(lines, dep)
    ensures r.Found? <==> exists i :: FirstMatch(lines, dep, i)
    ensures forall i: nat :: r.Found? && FirstMatch(lines, dep, i) ==>
              r.lines == Climb(lines, i, Indent(lines[i])) + [lines[i]]
  {
    hide CrateOf, Indent, Climb;
    for i := 0 to |lines|
      invariant forall j | 0 <= j < i :: CrateOf(lines[j]).Some? && CrateOf(lines[j]) != Some(dep)
    {
      var word := CrateOf(lines[i]);
      if word.None? {
        assert FirstBlank(lines, dep, i);
        return IndexError;
      }
      if word.value == dep {
        assert FirstMatch(lines, dep, i);
        OneFirstMatch(lines, dep, i);
        var path := WalkBack(lines, i);
        return Found(path);
      }
    }
    return NotFound;
  }

  // ---- what `cargo tree` prints ----

  /** A crate with its dependencies. Its line says its name and the rest: version and remarks. */
  datatype Tree = Tree(name: string, rest: string, children: seq<Tree>) {
    function Label(): string {
      name + rest
    }
  }

  const TEE := "\U{251C}\U{2500}\U{2500} "
  const CORNER := "\U{2514}\U{2500}\U{2500} "
  const BAR := "\U{2502}   "
  const GAP := "    "

  /** The lines of `t` in preorder: `own` is drawn in front of its label, `lead` in front of everything below. */
  function Print(t: Tree, own: string, lead: string): seq<string> {
    [own + t.Label()] + PrintAll(t.children, lead)
  }

  function PrintAll(ts: seq<Tree>, lead: string): seq<string> {
    if ts == [] then []
    else Print(ts[0], lead + Branch(ts), lead + Stem(ts)) + PrintAll(ts[1..], lead)
  }

  /** Drawn at the first of `ts`, depending on whether more follow. */
  function Branch(ts: seq<Tree>): string {
    if |ts| > 1 then TEE else CORNER
  }

  function Stem(ts: seq<Tree>): string {
    if |ts| > 1 then BAR else GAP
  }

  /** For each printed line, in the same order, the lines from the root of the tree down to it. */
  function Trails(t: Tree, own: string, lead: string, above: seq<string>): seq<seq<string>> {
    var trail := above + [own + t.Label()];
    [trail] + TrailsAll(t.children, lead, trail)
  }

  function TrailsAll(ts: seq<Tree>, lead: string, above: seq<string>): seq<seq<string>> {
    if ts == [] then []
    else Trails(ts[0], lead + Branch(ts), lead + Stem(ts), above) + TrailsAll(ts[1..], lead, above)
  }

  /** The names in preorder. */
  function Names(t: Tree): seq<string> {
    [t.name] + NamesAll(t.children)
  }

  function NamesAll(ts: seq<Tree>): seq<string> {
    if ts == [] then [] else Names(ts[0]) + NamesAll(ts[1..])
  }

  /** Every line starts with a crate name. */
  predicate Labelled(t: Tree) {
    && t.name != "" && !IsDrawing(t.name[0]) && (forall c | c in t.name :: !IsSpace(c))
    && (t.rest == "" || IsSpace(t.rest[0]))
    && forall c | c in t.children :: Labelled(c)
  }

  predicate AllDrawn(s: string) {
    forall c | c in s :: IsDrawing(c)
  }

  lemma LineFacts(own: string, text: string)
    requires AllDrawn(own) && text != "" && !IsDrawing(text[0])
    ensures Indent(own + text) == |own| && CrateOf(own + text) == FirstWord(text)
  {
    var line := own + text;
    assert forall k | 0 <= k < |own| :: line[k] in own;
    DrawingEnds(line, |own|);
    assert line[|own|..] == text;
  }

  lemma LabelFacts(t: Tree)
    requires Labelled(t)
    ensures t.Label() != "" && !IsDrawing(t.Label()[0]) && FirstWord(t.Label()) == Some(t.name)
  {
    FirstWordIs("", t.name, t.rest);
    assert "" + t.name + t.rest == t.Label();
    assert t.Label()[0] == t.name[0];
  }

  lemma DrawnMore(lead: string, ts: seq<Tree>)
    requires AllDrawn(lead)
    ensures AllDrawn(lead + Branch(ts)) && AllDrawn(lead + Stem(ts))
    ensures |lead + Branch(ts)| == |lead + Stem(ts)| == |lead| + 4
  {
  }

  // ---- climbing in a printed tree ----

  /** Climbing from a line looks at nothing below it. */
  lemma {:induction false} ClimbPrefix(lines: seq<string>, more: seq<string>, n: nat, current: nat)
    requires n <= |lines|
    ensures Climb(lines + more, n, current) == Climb(lines, n, current)
  {
    hide Indent;
    if n > 0 {
      assert (lines + more)[n - 1] == lines[n - 1];
      ClimbPrefix(lines, more, n - 1, current);
      ClimbPrefix(lines, more, n - 1, Indent(lines[n - 1]));
    }
  }

  /** Climbing passes over lines that are indented at least as much. */
  lemma {:induction false} ClimbOver(lines: seq<string>, more: seq<string>, current: nat)
    requires forall k | 0 <= k < |more| :: Indent(more[k]) >= current
    ensures Climb(lines + more, |lines| + |more|, current) == Climb(lines, |lines|, current)
  {
    hide Indent;
    if more == [] {
      assert lines + more == lines;
    } else {
      var r := more[..|more| - 1];
      assert lines + more == (lines + r) + [more[|more| - 1]];
      ClimbPrefix(lines + r, [more[|more| - 1]], |lines| + |r|, current);
      ClimbOver(lines, r, current);
    }
  }

  /** Everything printed for a tree is indented at least as much as its first line. */
  lemma {:induction false} PrintIndent(t: Tree, own: string, lead: string, k: nat)
    requires Labelled(t) && AllDrawn(own) && AllDrawn(lead) && |own| == |lead| && k < |Print(t, own, lead)|
    ensures Indent(Print(t, own, lead)[k]) >= |own|
    decreases t, 0
  {
    hide Indent, CrateOf;
    if k == 0 {
      LabelFacts(t);
      LineFacts(own, t.Label());
    } else {
      PrintAllIndent(t.children, lead, k - 1);
    }
  }

  lemma {:induction false} PrintAllIndent(ts: seq<Tree>, lead: string, k: nat)
    requires (forall c | c in ts :: Labelled(c)) && AllDrawn(lead) && k < |PrintAll(ts, lead)|
    ensures Indent(PrintAll(ts, lead)[k]) >= |lead| + 4
    decreases ts, 1
  {
    hide Indent, AllDrawn, Branch, Stem;
    DrawnMore(lead, ts);
    var first := Print(ts[0], lead + Branch(ts), lead + Stem(ts));
    if k < |first| {
      PrintIndent(ts[0], lead + Branch(ts), lead + Stem(ts), k);
    } else {
      PrintAllIndent(ts[1..], lead, k - |first|);
    }
  }

  lemma {:induction false} SameLength(t: Tree, own: string, lead: string, above: seq<string>)
    ensures |Trails(t, own, lead, above)| == |Print(t, own, lead)| == |Names(t)|
    decreases t, 0
  {
    SameLengthAll(t.children, lead, above + [own + t.Label()]);
  }

  lemma {:induction false} SameLengthAll(ts: seq<Tree>, lead: string, above: seq<string>)
    ensures |TrailsAll(ts, lead, above)| == |PrintAll(ts, lead)| == |NamesAll(ts)|
    decreases ts, 1
  {
    if ts != [] {
      SameLength(ts[0], lead + Branch(ts), lead + Stem(ts), above);
      SameLengthAll(ts[1..], lead, above);
    }
  }

  /** The line and what climbing from it collects make up its trail. */
  predicate Recovers(before: seq<string>, lines: seq<string>, trail: seq<string>, k: nat)
    requires k < |lines|
  {
    Climb(before + lines, |before| + k, Indent(lines[k])) + [lines[k]] == trail
  }

  /** If climbing from a line indented like the first one of `t` yields `above`, every line of `t` leads back to its
      trail. */
  lemma {:induction false} ClimbTree(before: seq<string>, t: Tree, own: string, lead: string, above: seq<string>,
                                     k: nat)
    requires Labelled(t) && AllDrawn(own) && AllDrawn(lead) && |own| == |lead|
    requires Climb(before, |before|, |own|) == above
    requires k < |Print(t, own, lead)| == |Trails(t, own, lead, above)|
    ensures Recovers(before, Print(t, own, lead), Trails(t, own, lead, above)[k], k)
    decreases t, 0
  {
    hide Indent, CrateOf, Print, Trails, AllDrawn;
    var line := own + t.Label();
    LabelFacts(t);
      LineFacts(own, t.Label());
    PrintSplit(t, own, lead, above);
    var lines, below := Print(t, own, lead), PrintAll(t.children, lead);
    if k == 0 {
      ClimbPrefix(before, lines, |before|, |own|);
    } else {
      ClimbPrefix(before, [line], |before|, |own|);
      SameLengthAll(t.children, lead, above + [line]);
      assert (before + [line])[|before|] == line;
      ClimbForest(before + [line], t.children, lead, above + [line], k - 1);
      assert before + lines == (before + [line]) + below;
    }
  }

  lemma PrintSplit(t: Tree, own: string, lead: string, above: seq<string>)
    ensures Print(t, own, lead) == [own + t.Label()] + PrintAll(t.children, lead)
    ensures Trails(t, own, lead, above)
         == [above + [own + t.Label()]] + TrailsAll(t.children, lead, above + [own + t.Label()])
  {
  }

  lemma {:induction false} ClimbForest(before: seq<string>, ts: seq<Tree>, lead: string, above: seq<string>, k: nat)
    requires (forall c | c in ts :: Labelled(c)) && AllDrawn(lead)
    requires Climb(before, |before|, |lead| + 4) == above
    requires k < |PrintAll(ts, lead)| == |TrailsAll(ts, lead, above)|
    ensures Recovers(before, PrintAll(ts, lead), TrailsAll(ts, lead, above)[k], k)
    decreases ts, 1
  {
    hide Indent, CrateOf, AllDrawn, Branch, Stem, Climb, Recovers, Labelled;
    DrawnMore(lead, ts);
    var own, deep := lead + Branch(ts), lead + Stem(ts);
    var first, rest := Print(ts[0], own, deep), PrintAll(ts[1..], lead);
    SameLength(ts[0], own, deep, above);
    if k < |first| {
      ClimbTree(before, ts[0], own, deep, above, k);
      RecoversMore(before, first, rest, Trails(ts[0], own, deep, above)[k], k);
    } else {
      forall j | 0 <= j < |first|
        ensures Indent(first[j]) >= |lead| + 4
      {
        PrintIndent(ts[0], own, deep, j);
      }
      ClimbOver(before, first, |lead| + 4);
      ClimbForest(before + first, ts[1..], lead, above, k - |first|);
      RecoversLater(before, first, rest, TrailsAll(ts[1..], lead, above)[k - |first|], k - |first|);
    }
  }

  lemma RecoversMore(before: seq<string>, first: seq<string>, rest: seq<string>, trail: seq<string>, k: nat)
    requires k < |first| && Recovers(before, first, trail, k)
    ensures Recovers(before, first + rest, trail, k)
  {
    hide Indent;
    assert before + (first + rest) == (before + first) + rest;
    ClimbPrefix(before + first, rest, |before| + k, Indent(first[k]));
  }

  lemma RecoversLater(before: seq<string>, first: seq<string>, rest: seq<string>, trail: seq<string>, k: nat)
    requires k < |rest| && Recovers(before + first, rest, trail, k)
    ensures Recovers(before, first + rest, trail, |first| + k)
  {
    hide Indent, Climb;
    assert before + (first + rest) == (before + first) + rest;
  }

  // ---- the theorem ----

  /** Line by line, the crates named are those of the tree in preorder. */
  lemma {:induction false} PrintNames(t: Tree, own: string, lead: string, k: nat)
    requires Labelled(t) && AllDrawn(own) && AllDrawn(lead) && k < |Print(t, own, lead)| == |Names(t)|
    ensures CrateOf(Print(t, own, lead)[k]) == Some(Names(t)[k])
    decreases t, 0
  {
    hide CrateOf, FirstWord, Indent;
    if k == 0 {
      LabelFacts(t);
      LineFacts(own, t.Label());
    } else {
      SameLengthAll(t.children, lead, []);
      PrintAllNames(t.children, lead, k - 1);
    }
  }

  lemma {:induction false} PrintAllNames(ts: seq<Tree>, lead: string, k: nat)
    requires (forall c | c in ts :: Labelled(c)) && AllDrawn(lead) && k < |PrintAll(ts, lead)| == |NamesAll(ts)|
    ensures CrateOf(PrintAll(ts, lead)[k]) == Some(NamesAll(ts)[k])
    decreases ts, 1
  {
    hide CrateOf, FirstWord, Indent, AllDrawn, Branch, Stem, Labelled;
    DrawnMore(lead, ts);
    var own, deep := lead + Branch(ts), lead + Stem(ts);
    SameLength(ts[0], own, deep, []);
    SameLengthAll(ts[1..], lead, []);
    var first := Print(ts[0], own, deep);
    if k < |first| {
      PrintNames(ts[0], own, deep, k);
    } else {
      PrintAllNames(ts[1..], lead, k - |first|);
    }
  }

  /** `path` starts with the line of `t` itself and goes on from a line to that of one of its children. */
  predicate PathIn(t: Tree, own: string, lead: string, path: seq<string>)
    decreases t, 0
  {
    path != [] && path[0] == own + t.Label() && (|path| == 1 || PathInOne(t.children, lead, path[1..]))
  }

  predicate PathInOne(ts: seq<Tree>, lead: string, path: seq<string>)
    decreases ts, 1
  {
    ts != [] && (PathIn(ts[0], lead + Branch(ts), lead + Stem(ts), path) || PathInOne(ts[1..], lead, path))
  }

  /** A trail is a path from parent to child down the tree. */
  lemma {:induction false} TrailIsPath(t: Tree, own: string, lead: string, above: seq<string>, k: nat)
    returns (path: seq<string>)
    requires k < |Trails(t, own, lead, above)|
    ensures Trails(t, own, lead, above)[k] == above + path && PathIn(t, own, lead, path)
    decreases t, 0
  {
    var line := own + t.Label();
    if k == 0 {
      path := [line];
    } else {
      var p := TrailIsPathOfOne(t.children, lead, above + [line], k - 1);
      path := [line] + p;
      assert path[1..] == p;
      assert (above + [line]) + p == above + path;
    }
  }

  lemma {:induction false} TrailIsPathOfOne(ts: seq<Tree>, lead: string, above: seq<string>, k: nat)
    returns (path: seq<string>)
    requires k < |TrailsAll(ts, lead, above)|
    ensures TrailsAll(ts, lead, above)[k] == above + path && path != [] && PathInOne(ts, lead, path)
    decreases ts, 1
  {
    hide Branch, Stem;
    var first := Trails(ts[0], lead + Branch(ts), lead + Stem(ts), above);
    if k < |first| {
      path := TrailIsPath(ts[0], lead + Branch(ts), lead + Stem(ts), above, k);
    } else {
      path := TrailIsPathOfOne(ts[1..], lead, above, k - |first|);
    }
  }

  /** Along a path the depth grows by one from line to line: four columns each. */
  lemma {:induction false} PathDepths(t: Tree, own: string, lead: string, path: seq<string>, j: nat)
    requires Labelled(t) && AllDrawn(own) && AllDrawn(lead) && |own| == |lead|
    requires PathIn(t, own, lead, path) && j < |path|
    ensures Indent(path[j]) == |own| + 4 * j
    decreases t, 0
  {
    hide Indent, CrateOf;
    if j == 0 {
      LabelFacts(t);
      LineFacts(own, t.Label());
    } else {
      PathDepthsOfOne(t.children, lead, path[1..], j - 1);
    }
  }

  lemma {:induction false} PathDepthsOfOne(ts: seq<Tree>, lead: string, path: seq<string>, j: nat)
    requires (forall c | c in ts :: Labelled(c)) && AllDrawn(lead) && PathInOne(ts, lead, path) && j < |path|
    ensures Indent(path[j]) == |lead| + 4 + 4 * j
    decreases ts, 1
  {
    hide Indent, CrateOf, AllDrawn, Branch, Stem, Labelled;
    DrawnMore(lead, ts);
    if PathIn(ts[0], lead + Branch(ts), lead + Stem(ts), path) {
      PathDepths(ts[0], lead + Branch(ts), lead + Stem(ts), path, j);
    } else {
      PathDepthsOfOne(ts[1..], lead, path, j);
    }
  }

  /** Node `i` in preorder is the first one named `dep`. */
  predicate FirstNamed(t: Tree, dep: string, i: nat) {
    i < |Names(t)| && Names(t)[i] == dep && forall j | 0 <= j < i ::
        Names(t)[j] != dep
  }

  /** On the printed form of any tree of named crates: if no crate has the forbidden name, nothing is found. Otherwise
      the result is the path of lines, parent to child and four columns deeper each, from the root to the first crate
      of that name in preorder. */
  method GetDependencyPathInTree(t: Tree, dep: string) returns (r: PathResult, ghost i: nat)
    requires Labelled(t)
    ensures !r.IndexError? && !r.CargoFailed?
    ensures r.NotFound? <==> forall j | 0 <= j < |Names(t)| :: Names(t)[j] != dep
    ensures r.Found? ==> FirstNamed(t, dep, i) && |Names(t)| == |Print(t, "", "")|
    ensures r.Found? ==> PathIn(t, "", "", r.lines) && r.lines[|r.lines| - 1] == Print(t, "", "")[i]
    ensures r.Found? ==> forall j | 0 <= j < |r.lines| :: Indent(r.lines[j]) == 4 * j
    ensures r.Found? ==> i < |Trails(t, "", "", [])| && r.lines == Trails(t, "", "", [])[i]
  {
    hide CrateOf, FirstWord, Indent, Print, Names, Trails, PathIn;
    var lines := Print(t, "", "");
    SameLength(t, "", "", []);
    forall j | 0 <= j < |lines|
      ensures CrateOf(lines[j]) == Some(Names(t)[j])
    {
      PrintNames(t, "", "", j);
    }
    r := GetDependencyPath(Printed(lines), dep);
    i := 0;
    if r.Found? {
      i :| FirstMatch(lines, dep, i);
      FoundIsTrail(t, i);
      var path := TrailIsPath(t, "", "", [], i);
      assert [] + path == path;
      forall j | 0 <= j < |path|
        ensures Indent(path[j]) == 4 * j
      {
        PathDepths(t, "", "", path, j);
      }
    }
  }

  lemma FoundIsTrail(t: Tree, i: nat)
    requires Labelled(t) && i < |Print(t, "", "")| == |Trails(t, "", "", [])|
    ensures var lines := Print(t, "", "");
            Climb(lines, i, Indent(lines[i])) + [lines[i]] == Trails(t, "", "", [])[i]
  {
    hide Indent, Print, Trails, Labelled;
    RootHasNothingAbove();
    ClimbTree([], t, "", "", [], i);
    NothingBefore(Print(t, "", ""), Trails(t, "", "", [])[i], i);
  }

  lemma RootHasNothingAbove()
    ensures Climb([], 0, 0) == []
  {
  }

  lemma NothingBefore(lines: seq<string>, trail: seq<string>, i: nat)
    requires i < |lines| && Recovers([], lines, trail, i)
    ensures Climb(lines, i, Indent(lines[i])) + [lines[i]] == trail
  {
    hide Indent, Climb;
    assert [] + lines == lines;
  }
}
