// The heading path of a chunk: which headings the chunker files a section under, which ones
// enclose it, and exactly when the two agree.
module Outlines {
  import opened InvertedIndexes
  import opened MarkdownChunker
  import opened ChunkerTheorems

  datatype Heading = Heading(level: nat, text: string)

  function HeadingsOf(lines: seq<string>): seq<Heading> {
    if lines == [] then []
    else
      var last := lines[|lines| - 1];
      HeadingsOf(lines[..|lines| - 1])
        + (if HeadingLevel(last) > 0 then [Heading(HeadingLevel(last), HeadingText(last))] else [])
  }

  ghost predicate LevelsPositive(hs: seq<Heading>) {
    forall i :: 0 <= i < |hs| ==> hs[i].level > 0
  }

  lemma {:induction false} HeadingsHaveLevels(lines: seq<string>)
    ensures LevelsPositive(HeadingsOf(lines))
  {
    hide HeadingText;
    if lines != [] {
      HeadingsHaveLevels(lines[..|lines| - 1]);
    }
  }

  // --- two stacks ---------------------------------------------------------------------------

  predicate InRange(positions: seq<nat>, n: nat) {
    forall j :: 0 <= j < |positions| ==> positions[j] < n
  }

  function Kept(open: nat, level: nat): nat {
    if open < level then open else if level > 0 then level - 1 else 0
  }

  // The headings on the stack of the code, by position.
  function Stack(hs: seq<Heading>): (open: seq<nat>)
    ensures InRange(open, |hs|)
  {
    if hs == [] then []
    else
      var (n, open) := (|hs| - 1, Stack(hs[..|hs| - 1]));
      open[..Kept(|open|, hs[n].level)] + [n]
  }

  // How many of the open headings enclose a heading of this level: those above the first
  // that is not shallower.
  function Enclosing(hs: seq<Heading>, open: seq<nat>, level: nat): (n: nat)
    requires InRange(open, |hs|)
    ensures n <= |open| && (n < |open| ==> hs[open[n]].level >= level)
    ensures forall j :: 0 <= j < n ==> hs[open[j]].level < level
  {
    if open == [] || hs[open[0]].level >= level then 0 else 1 + Enclosing(hs, open[1..], level)
  }

  // The reference: a heading closes every open heading of its own or a deeper level.
  function Outline(hs: seq<Heading>): (open: seq<nat>)
    ensures InRange(open, |hs|)
  {
    if hs == [] then []
    else
      var (n, open) := (|hs| - 1, Outline(hs[..|hs| - 1]));
      open[..Enclosing(hs, open, hs[n].level)] + [n]
  }

  // How deep the code files a heading: one below its predecessor, or at its own level.
  function Depth(hs: seq<Heading>): nat {
    if hs == [] then 0
    else
      var (n, before) := (|hs| - 1, Depth(hs[..|hs| - 1]));
      if before + 1 < hs[n].level then before + 1 else hs[n].level
  }

  // Heading i has not been closed: in the outline by a heading of its own level or above, in
  // the code by one no deeper than the place where it was filed.
  ghost predicate IsOpen(hs: seq<Heading>, i: nat) {
    i < |hs| && forall z :: i < z < |hs| ==> hs[z].level > hs[i].level
  }

  ghost predicate IsStacked(hs: seq<Heading>, i: nat) {
    i < |hs| && forall z :: i < z < |hs| ==> hs[z].level > Depth(hs[..i + 1])
  }

  ghost predicate Rising(positions: seq<nat>) {
    forall j, k :: 0 <= j < k < |positions| ==> positions[j] < positions[k]
  }

  lemma DepthBound(hs: seq<Heading>)
    requires hs != []
    ensures Depth(hs) <= hs[|hs| - 1].level
  {
  }

  lemma OpenIsStacked(hs: seq<Heading>, i: nat)
    requires IsOpen(hs, i)
    ensures IsStacked(hs, i)
  {
    DepthBound(hs[..i + 1]);
  }

  lemma StackedBefore(hs: seq<Heading>, i: nat)
    requires hs != [] && i < |hs| - 1
    ensures var (n, before) := (|hs| - 1, hs[..|hs| - 1]);
      IsStacked(hs, i) <==> IsStacked(before, i) && hs[n].level > Depth(before[..i + 1])
  {
    var before := hs[..|hs| - 1];
    assert before[..i + 1] == hs[..i + 1];
    hide Depth;
    assert forall z :: i < z < |before| ==> before[z] == hs[z];
  }

  // The code's stack holds what is stacked, each heading at its depth.
  lemma {:induction false} StackMeaning(hs: seq<Heading>)
    requires LevelsPositive(hs)
    ensures var open := Stack(hs);
      && Rising(open) && |open| == Depth(hs)
      && (forall j :: 0 <= j < |open| ==> Depth(hs[..open[j] + 1]) == j + 1)
      && (forall i: nat :: i in open <==> IsStacked(hs, i))
  {
    if hs != [] {
      var (n, before) := (|hs| - 1, hs[..|hs| - 1]);
      StackMeaning(before);
      var (open, open') := (Stack(before), Stack(hs));
      var kept := Kept(|open|, hs[n].level);
      assert open' == open[..kept] + [n];
      forall j | 0 <= j < |open'| ensures Depth(hs[..open'[j] + 1]) == j + 1 {
        if j < kept {
          assert hs[..open[j] + 1] == before[..open[j] + 1];
        } else {
          assert hs[..n + 1] == hs;
        }
      }
      hide Stack, Depth;
      forall i: nat ensures i in open' <==> IsStacked(hs, i) {
        StackKeeps(hs, open, open', kept, i);
      }
    }
  }

  lemma StackKeeps(hs: seq<Heading>, open: seq<nat>, open': seq<nat>, kept: nat, i: nat)
    requires hs != [] && hs[|hs| - 1].level > 0 && kept == Kept(|open|, hs[|hs| - 1].level) <= |open|
    requires open' == open[..kept] + [|hs| - 1] && Rising(open) && InRange(open, |hs| - 1)
    requires forall j :: 0 <= j < |open| ==> Depth(hs[..|hs| - 1][..open[j] + 1]) == j + 1
    requires i in open <==> IsStacked(hs[..|hs| - 1], i)
    ensures i in open' <==> IsStacked(hs, i)
  {
    hide Depth;
    var n := |hs| - 1;
    if i < n {
      StackedBefore(hs, i);
      hide IsStacked;
      if i in open {
        var j :| 0 <= j < |open| && open[j] == i;
        assert i in open[..kept] <==> j < kept;
      }
      assert i in open' <==> i in open[..kept];
    } else if i == n {
      assert open'[kept] == n;
    }
  }

  lemma OpenBefore(hs: seq<Heading>, i: nat)
    requires hs != [] && i < |hs| - 1
    ensures IsOpen(hs, i) <==> IsOpen(hs[..|hs| - 1], i) && hs[|hs| - 1].level > hs[i].level
  {
    var before := hs[..|hs| - 1];
    assert forall z :: i < z < |before| ==> before[z] == hs[z];
  }

  ghost predicate Deepening(hs: seq<Heading>, open: seq<nat>)
    requires InRange(open, |hs|)
  {
    forall j, k :: 0 <= j < k < |open| ==> hs[open[j]].level < hs[open[k]].level
  }

  // The outline holds what is open, ever deeper.
  lemma {:induction false} OutlineMeaning(hs: seq<Heading>)
    ensures var open := Outline(hs);
      && Rising(open) && Deepening(hs, open)
      && (forall i: nat :: i in open <==> IsOpen(hs, i))
  {
    if hs != [] {
      var (n, before) := (|hs| - 1, hs[..|hs| - 1]);
      OutlineMeaning(before);
      var (open, open') := (Outline(before), Outline(hs));
      var enclosing := Enclosing(hs, open, hs[n].level);
      assert open' == open[..enclosing] + [n];
      hide Outline, Enclosing;
      forall i: nat ensures i in open' <==> IsOpen(hs, i) {
        OutlineKeeps(hs, open, open', enclosing, i);
      }
    }
  }

  lemma OutlineKeeps(hs: seq<Heading>, open: seq<nat>, open': seq<nat>, enclosing: nat, i: nat)
    requires hs != [] && InRange(open, |hs| - 1) && Rising(open) && Deepening(hs, open)
    requires enclosing <= |open| && (enclosing < |open| ==> hs[open[enclosing]].level >= hs[|hs| - 1].level)
    requires forall j :: 0 <= j < enclosing ==> hs[open[j]].level < hs[|hs| - 1].level
    requires open' == open[..enclosing] + [|hs| - 1]
    requires i in open <==> IsOpen(hs[..|hs| - 1], i)
    ensures i in open' <==> IsOpen(hs, i)
  {
    var n := |hs| - 1;
    if i < n {
      OpenBefore(hs, i);
      hide IsOpen;
      if i in open {
        var j :| 0 <= j < |open| && open[j] == i;
        assert i in open[..enclosing] <==> j < enclosing;
      }
      assert i in open' <==> i in open[..enclosing];
    } else if i == n {
      assert open'[enclosing] == n;
    }
  }

  // --- paths --------------------------------------------------------------------------------

  function TextsAt(hs: seq<Heading>, positions: seq<nat>): (texts: seq<string>)
    requires InRange(positions, |hs|)
    ensures |texts| == |positions|
  {
    seq(|positions|, j requires 0 <= j < |positions| => hs[positions[j]].text)
  }

  // The heading path the code writes, and the one that names the enclosing headings.
  function CodePath(hs: seq<Heading>): string {
    JoinHeadings(TextsAt(hs, Stack(hs)))
  }

  function OutlinePath(hs: seq<Heading>): string {
    JoinHeadings(TextsAt(hs, Outline(hs)))
  }

  // Every heading that the code still has on its stack is open, or has no text. Levels and
  // empty texts are all this depends on.
  ghost predicate Filed(hs: seq<Heading>) {
    forall i: nat :: IsStacked(hs, i) && hs[i].text != "" ==> IsOpen(hs, i)
  }

  function Extend(path: string, text: string): string {
    if text == "" then path else if path == "" then text else path + " > " + text
  }

  // The path of the chosen headings among the first n.
  ghost function PathOf(hs: seq<Heading>, chosen: set<nat>, n: nat): string
    requires n <= |hs|
  {
    if n == 0 then ""
    else if n - 1 in chosen then Extend(PathOf(hs, chosen, n - 1), hs[n - 1].text)
    else PathOf(hs, chosen, n - 1)
  }

  lemma {:induction false} PathSame(hs: seq<Heading>, a: set<nat>, b: set<nat>, n: nat)
    requires n <= |hs| && forall i: nat :: i < n ==> (i in a <==> i in b)
    ensures PathOf(hs, a, n) == PathOf(hs, b, n)
  {
    if n > 0 {
      PathSame(hs, a, b, n - 1);
    }
  }

  ghost function Members(positions: seq<nat>): set<nat> {
    set i | i in positions
  }

  lemma JoinSnoc(texts: seq<string>, text: string)
    ensures JoinHeadings(texts + [text]) == Extend(JoinHeadings(texts), text)
  {
    assert (texts + [text])[..|texts|] == texts;
  }

  lemma {:induction false} JoinIsPath(hs: seq<Heading>, positions: seq<nat>, n: nat)
    requires n <= |hs| && InRange(positions, n) && Rising(positions)
    ensures JoinHeadings(TextsAt(hs, positions)) == PathOf(hs, Members(positions), n)
    decreases n
  {
    hide JoinHeadings;
    if n == 0 {
      assert positions == [] && TextsAt(hs, positions) == [];
      NoTexts();
    } else if positions != [] && positions[|positions| - 1] == n - 1 {
      var (front, last) := (positions[..|positions| - 1], |positions| - 1);
      assert positions == front + [n - 1];
      JoinIsPath(hs, front, n - 1);
      assert TextsAt(hs, positions) == TextsAt(hs, front) + [hs[n - 1].text];
      JoinSnoc(TextsAt(hs, front), hs[n - 1].text);
      PathSame(hs, Members(front), Members(positions), n - 1);
    } else {
      assert forall j :: 0 <= j < |positions| ==> positions[j] <= positions[|positions| - 1] < n - 1;
      JoinIsPath(hs, positions, n - 1);
      assert n - 1 !in positions;
    }
  }

  lemma NoTexts()
    ensures JoinHeadings([]) == ""
  {
  }

  // Choosing more headings lengthens the path, unless the extra ones have no text.
  lemma {:induction false} PathGrows(hs: seq<Heading>, fewer: set<nat>, more: set<nat>, n: nat)
    requires n <= |hs| && fewer <= more
    ensures var extra := exists i: nat :: i < n && i in more && i !in fewer && hs[i].text != "";
      if extra then |PathOf(hs, fewer, n)| < |PathOf(hs, more, n)| else PathOf(hs, fewer, n) == PathOf(hs, more, n)
  {
    if n > 0 {
      PathGrows(hs, fewer, more, n - 1);
      hide PathOf;
      ExtendGrows(PathOf(hs, fewer, n - 1), PathOf(hs, more, n - 1), hs[n - 1].text);
      PathTurn(hs, fewer, n);
      PathTurn(hs, more, n);
    }
  }

  lemma PathTurn(hs: seq<Heading>, chosen: set<nat>, n: nat)
    requires 0 < n <= |hs|
    ensures PathOf(hs, chosen, n) ==
      if n - 1 in chosen then Extend(PathOf(hs, chosen, n - 1), hs[n - 1].text) else PathOf(hs, chosen, n - 1)
  {
  }

  lemma ExtendGrows(path: string, path': string, text: string)
    requires path == path' || |path| < |path'|
    ensures path == path' ==> Extend(path, text) == Extend(path', text)
    ensures |path| < |path'| ==> |Extend(path, text)| < |Extend(path', text)|
    ensures text != "" ==> |path| < |Extend(path', text)|
    ensures |path| <= |Extend(path', text)|
  {
  }

  // The code writes the path of the enclosing headings exactly when the section is filed.
  lemma PathExactly(hs: seq<Heading>)
    requires LevelsPositive(hs)
    ensures CodePath(hs) == OutlinePath(hs) <==> Filed(hs)
  {
    StackMeaning(hs);
    OutlineMeaning(hs);
    var (stack, outline) := (Members(Stack(hs)), Members(Outline(hs)));
    JoinIsPath(hs, Stack(hs), |hs|);
    JoinIsPath(hs, Outline(hs), |hs|);
    hide Stack, Outline, PathOf, JoinHeadings, TextsAt, Depth;
    forall i | i in outline ensures i in stack {
      OpenIsStacked(hs, i);
    }
    PathGrows(hs, outline, stack, |hs|);
  }

  // --- whole documents ----------------------------------------------------------------------

  // Heading y is the first that closes heading x.
  ghost predicate ClosedBy(hs: seq<Heading>, x: nat, y: nat) {
    && x < y < |hs| && hs[y].level <= hs[x].level
    && forall z :: x < z < y ==> hs[z].level > hs[x].level
  }

  ghost predicate Encloses(hs: seq<Heading>, i: nat, x: nat)
    requires x < |hs|
  {
    i < x && IsOpen(hs[..x + 1], i)
  }

  // The headings that enclose heading x.
  ghost function AncestorsOf(hs: seq<Heading>, x: nat): set<nat>
    requires x < |hs|
  {
    set i: nat | i < x && Encloses(hs, i, x)
  }

  // No heading closes another one and is yet more than one level below that one's parents.
  ghost predicate LevelsFit(hs: seq<Heading>) {
    forall x: nat, y: nat :: ClosedBy(hs, x, y) ==> hs[y].level <= |AncestorsOf(hs, x)| + 1
  }

  ghost predicate StacksAgree(hs: seq<Heading>) {
    forall n: nat :: n <= |hs| ==> Stack(hs[..n]) == Outline(hs[..n])
  }

  lemma {:induction false} RisingCount(positions: seq<nat>)
    requires Rising(positions)
    ensures |Members(positions)| == |positions|
  {
    if positions != [] {
      var (front, last) := (positions[..|positions| - 1], positions[|positions| - 1]);
      RisingCount(front);
      assert positions == front + [last] && last !in front;
      assert Members(positions) == Members(front) + {last};
    }
  }

  lemma {:induction false} SameMembers(a: seq<nat>, b: seq<nat>)
    requires Rising(a) && Rising(b) && forall i :: i in a <==> i in b
    ensures a == b
  {
    assert Members(a) == Members(b);
    RisingCount(a);
    RisingCount(b);
    if a != [] {
      assert a[|a| - 1] in b && b[|b| - 1] in a;
      var (m, n) := (|a| - 1, |b| - 1);
      assert a[m] == b[n];
      forall i ensures i in a[..m] <==> i in b[..n] {
        assert i in a <==> i in a[..m] || i == a[m];
        assert i in b <==> i in b[..n] || i == b[n];
        assert a[m] !in a[..m] && b[n] !in b[..n];
      }
      SameMembers(a[..m], b[..n]);
      assert a == a[..m] + [a[m]] && b == b[..n] + [b[n]];
    }
  }

  // A heading stands in the outline right below its ancestors.
  lemma AncestorCount(hs: seq<Heading>, x: nat)
    requires x < |hs|
    ensures |Outline(hs[..x + 1])| == |AncestorsOf(hs, x)| + 1
  {
    var (open, prefix) := (Outline(hs[..x + 1]), hs[..x + 1]);
    OutlineMeaning(prefix);
    RisingCount(open);
    assert IsOpen(prefix, x);
    hide Outline, IsOpen;
    assert Members(open) == AncestorsOf(hs, x) + {x};
  }

  lemma DepthWhereAgreed(hs: seq<Heading>, x: nat)
    requires LevelsPositive(hs) && x < |hs| && Stack(hs[..x + 1]) == Outline(hs[..x + 1])
    ensures Depth(hs[..x + 1]) == |AncestorsOf(hs, x)| + 1
  {
    StackMeaning(hs[..x + 1]);
    AncestorCount(hs, x);
    hide Stack, Outline, Depth, AncestorsOf;
  }

  lemma ClosedIsNotOpen(hs: seq<Heading>, x: nat, y: nat)
    requires ClosedBy(hs, x, y)
    ensures !IsOpen(hs[..y + 1], x)
  {
    assert hs[..y + 1][y] == hs[y] && hs[..y + 1][x] == hs[x];
  }

  lemma DeeperStaysStacked(hs: seq<Heading>, x: nat, y: nat)
    requires ClosedBy(hs, x, y) && hs[y].level > Depth(hs[..x + 1])
    ensures IsStacked(hs[..y + 1], x)
  {
    DepthBound(hs[..x + 1]);
    assert hs[..y + 1][..x + 1] == hs[..x + 1];
    hide Depth;
  }

  lemma AgreeSoFits(hs: seq<Heading>, x: nat, y: nat)
    requires LevelsPositive(hs) && StacksAgree(hs) && ClosedBy(hs, x, y)
    ensures hs[y].level <= |AncestorsOf(hs, x)| + 1
  {
    DepthWhereAgreed(hs, x);
    StackMeaning(hs[..y + 1]);
    OutlineMeaning(hs[..y + 1]);
    ClosedIsNotOpen(hs, x, y);
    assert Stack(hs[..y + 1]) == Outline(hs[..y + 1]);
    hide Stack, Outline, Depth, AncestorsOf, StacksAgree, IsOpen, IsStacked, LevelsPositive;
    if hs[y].level > Depth(hs[..x + 1]) {
      DeeperStaysStacked(hs, x, y);
    }
  }

  lemma {:induction false} FitSoAgree(hs: seq<Heading>, n: nat)
    requires LevelsPositive(hs) && LevelsFit(hs) && n <= |hs|
    ensures Stack(hs[..n]) == Outline(hs[..n])
    decreases n
  {
    var prefix := hs[..n];
    StackMeaning(prefix);
    OutlineMeaning(prefix);
    hide Stack, Outline;
    forall i: nat ensures i in Stack(prefix) <==> i in Outline(prefix) {
      if IsOpen(prefix, i) {
        OpenIsStacked(prefix, i);
      }
      if IsStacked(prefix, i) && i < n - 1 {
        FitSoOpen(hs, n, i);
      }
    }
    SameMembers(Stack(prefix), Outline(prefix));
  }

  lemma FitSoOpen(hs: seq<Heading>, n: nat, i: nat)
    requires LevelsPositive(hs) && LevelsFit(hs) && i < n - 1 < |hs| && IsStacked(hs[..n], i)
    ensures IsOpen(hs[..n], i)
    decreases n, 0
  {
    hide *;
    StackedThen(hs, n, i);
    FitSoAgree(hs, n - 1);
    FitSoAgree(hs, i + 1);
    AgreedIsOpen(hs, n - 1, i);
    DepthWhereAgreed(hs, i);
    StillDeeper(hs, i, n - 1);
    OpenThen(hs, n, i);
  }

  lemma StackedThen(hs: seq<Heading>, n: nat, i: nat)
    requires i < n - 1 < |hs| && IsStacked(hs[..n], i)
    ensures IsStacked(hs[..n - 1], i) && hs[n - 1].level > Depth(hs[..i + 1])
  {
    hide Depth, IsStacked;
    StackedBefore(hs[..n], i);
    assert hs[..n][..n - 1] == hs[..n - 1] && hs[..n - 1][..i + 1] == hs[..i + 1];
  }

  lemma OpenThen(hs: seq<Heading>, n: nat, i: nat)
    requires i < n - 1 < |hs| && IsOpen(hs[..n - 1], i) && hs[n - 1].level > hs[i].level
    ensures IsOpen(hs[..n], i)
  {
    hide IsOpen;
    OpenBefore(hs[..n], i);
    assert hs[..n][..n - 1] == hs[..n - 1];
  }

  lemma AgreedIsOpen(hs: seq<Heading>, m: nat, i: nat)
    requires LevelsPositive(hs) && m <= |hs| && Stack(hs[..m]) == Outline(hs[..m]) && IsStacked(hs[..m], i)
    ensures IsOpen(hs[..m], i)
  {
    PositiveBefore(hs, m);
    hide *;
    StackMeaning(hs[..m]);
    OutlineMeaning(hs[..m]);
  }

  lemma PositiveBefore(hs: seq<Heading>, n: nat)
    requires LevelsPositive(hs) && n <= |hs|
    ensures LevelsPositive(hs[..n])
  {
  }

  lemma StillDeeper(hs: seq<Heading>, i: nat, y: nat)
    requires LevelsFit(hs) && i < y < |hs| && IsOpen(hs[..y], i) && hs[y].level > |AncestorsOf(hs, i)| + 1
    ensures hs[y].level > hs[i].level
  {
    hide AncestorsOf, ClosedBy;
    if hs[y].level <= hs[i].level {
      ClosedFirst(hs, i, y);
    }
  }

  lemma ClosedFirst(hs: seq<Heading>, i: nat, y: nat)
    requires i < y < |hs| && IsOpen(hs[..y], i) && hs[y].level <= hs[i].level
    ensures ClosedBy(hs, i, y)
  {
    assert forall z :: i < z < y ==> hs[..y][z] == hs[z];
  }

  // The code's stack is the outline after every heading exactly when the levels fit.
  lemma StacksAgreeExactly(hs: seq<Heading>)
    requires LevelsPositive(hs)
    ensures StacksAgree(hs) <==> LevelsFit(hs)
  {
    if StacksAgree(hs) {
      forall x: nat, y: nat | ClosedBy(hs, x, y) ensures hs[y].level <= |AncestorsOf(hs, x)| + 1 {
        AgreeSoFits(hs, x, y);
      }
    }
    if LevelsFit(hs) {
      forall n: nat | n <= |hs| ensures Stack(hs[..n]) == Outline(hs[..n]) {
        FitSoAgree(hs, n);
      }
    }
  }

  // Every heading is at most one level deeper than the one before it.
  ghost predicate NoSkips(hs: seq<Heading>) {
    forall n :: 0 <= n < |hs| ==> 0 < hs[n].level <= LevelBefore(hs, n) + 1
  }

  function LevelBefore(hs: seq<Heading>, n: nat): nat
    requires n <= |hs|
  {
    if n == 0 then 0 else hs[n - 1].level
  }

  lemma NoSkipsBefore(hs: seq<Heading>, n: nat)
    requires NoSkips(hs) && n <= |hs|
    ensures NoSkips(hs[..n])
  {
    forall i | 0 <= i < n ensures 0 < hs[..n][i].level <= LevelBefore(hs[..n], i) + 1 {
      assert LevelBefore(hs[..n], i) == LevelBefore(hs, i);
    }
  }

  lemma {:induction false} NoSkipsDepth(hs: seq<Heading>)
    requires NoSkips(hs)
    ensures Depth(hs) == LevelBefore(hs, |hs|)
  {
    if hs != [] {
      var n := |hs| - 1;
      NoSkipsBefore(hs, n);
      NoSkipsDepth(hs[..n]);
      assert LevelBefore(hs[..n], n) == LevelBefore(hs, n);
      assert 0 < hs[n].level <= LevelBefore(hs, n) + 1;
    }
  }

  // A document that skips no level files every section under its enclosing headings.
  lemma NoSkipsFiles(hs: seq<Heading>)
    requires NoSkips(hs)
    ensures Filed(hs)
  {
    forall i: nat | IsStacked(hs, i) ensures IsOpen(hs, i) {
      NoSkipsBefore(hs, i + 1);
      NoSkipsDepth(hs[..i + 1]);
    }
  }
}
