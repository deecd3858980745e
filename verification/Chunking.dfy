/** Splitting a markdown text into heading-scoped, overlapping passages. */
module Chunking {
  import opened Common

  /** Python's `str.isspace`, which is also what `\s` matches in a text pattern. */
  predicate IsSpace(c: char) {
    var n := c as int;
    || 9 <= n <= 13 || 28 <= n <= 32 || n == 0x85 || n == 0xA0 || n == 0x1680
    || 0x2000 <= n <= 0x200A || n == 0x2028 || n == 0x2029 || n == 0x202F || n == 0x205F || n == 0x3000
  }

  /** The characters meant, one by one. */
  const BLANKS: string := "\t\n\U{000B}\U{000C}\r\U{001C}\U{001D}\U{001E}\U{001F} \U{0085}\U{00A0}\U{1680}" +
    "\U{2000}\U{2001}\U{2002}\U{2003}\U{2004}\U{2005}\U{2006}\U{2007}\U{2008}\U{2009}\U{200A}" +
    "\U{2028}\U{2029}\U{202F}\U{205F}\U{3000}"

  lemma SpacesAre(c: char)
    ensures IsSpace(c) <==> c in BLANKS
  {
  }

  /** A match of `^(#{1,3})\s+(.*)$`: the text [start, end), with the title from `title` on. */
  datatype Heading = Heading(start: nat, level: nat, title: nat, end: nat)

  datatype Passage = Passage(source: string, headingPath: string, text: string)

  // ---- the heading pattern ----

  function HashRun(text: string, i: nat): nat
    requires i <= |text|
    ensures i + HashRun(text, i) <= |text|
    decreases |text| - i
  {
    if i < |text| && text[i] == '#' then 1 + HashRun(text, i + 1) else 0
  }

  function SpaceEnd(text: string, i: nat): (e: nat)
    requires i <= |text|
    ensures i <= e <= |text| && forall k :: i <= k < e ==> IsSpace(text[k])
    ensures e < |text| ==> !IsSpace(text[e])
    decreases |text| - i
  {
    if i < |text| && IsSpace(text[i]) then SpaceEnd(text, i + 1) else i
  }

  function LineEnd(text: string, i: nat): (e: nat)
    requires i <= |text|
    ensures i <= e <= |text| && (forall k :: i <= k < e ==> text[k] != '\n')
    ensures e < |text| ==> text[e] == '\n'
    decreases |text| - i
  {
    if i < |text| && text[i] != '\n' then LineEnd(text, i + 1) else i
  }

  predicate AtLineStart(text: string, i: nat)
    requires i <= |text|
  {
    i == 0 || text[i - 1] == '\n'
  }

  /** A fourth `#`, or no blank after the marks, and the line is no heading. */
  predicate HeadingAt(text: string, i: nat)
    requires i <= |text|
  {
    var level := HashRun(text, i);
    AtLineStart(text, i) && 1 <= level <= 3 && i + level < |text| && IsSpace(text[i + level])
  }

  function MatchAt(text: string, i: nat): (h: Heading)
    requires i <= |text| && HeadingAt(text, i)
    ensures h.start == i && i < h.title <= h.end <= |text| && 1 <= h.level <= 3
  {
    var level := HashRun(text, i);
    var title := SpaceEnd(text, i + level);
    Heading(i, level, title, LineEnd(text, title))
  }

  /** MAIN: a heading line is one to three marks at the start of a line and a blank after them; its level is how many,
      its title runs from the first character that is not blank to the end of that line. */
  lemma HeadingIs(text: string, i: nat)
    requires i <= |text|
    ensures HeadingAt(text, i) <==>
              (i == 0 || text[i - 1] == '\n')
              && exists n :: 1 <= n <= 3 && IsMarked(text, i, n)
    ensures HeadingAt(text, i) ==>
              var h := MatchAt(text, i);
              && IsMarked(text, i, h.level) && h.start == i && h.title > i + h.level
              && (forall p :: i + h.level <= p < h.title ==> IsSpace(text[p]))
              && (h.title < |text| ==> !IsSpace(text[h.title]))
              && (forall p :: h.title <= p < h.end ==> text[p] != '\n')
              && (h.end < |text| ==> text[h.end] == '\n')
  {
    var level := HashRun(text, i);
    RunIsMarks(text, i);
    forall n: nat | IsMarked(text, i, n) ensures n == level { MarksAre(text, i, n); }
    if 1 <= level <= 3 && i + level < |text| && IsSpace(text[i + level]) { assert IsMarked(text, i, level); }
  }

  /** So many marks and then a blank. */
  predicate IsMarked(text: string, i: nat, n: nat) {
    i + n < |text| && (forall k :: i <= k < i + n ==> text[k] == '#') && IsSpace(text[i + n])
  }

  lemma {:induction false} RunIsMarks(text: string, i: nat)
    requires i <= |text|
    ensures forall k :: i <= k < i + HashRun(text, i) ==> text[k] == '#'
    decreases |text| - i
  {
    if i < |text| && text[i] == '#' { RunIsMarks(text, i + 1); }
  }

  lemma {:induction false} MarksAre(text: string, i: nat, n: nat)
    requires IsMarked(text, i, n)
    ensures HashRun(text, i) == n
    decreases n
  {
    if n > 0 { MarksAre(text, i + 1, n - 1); }
  }

  /** `finditer`: leftmost matches, each search resuming where the last match ended. */
  function Headings(text: string, i: nat): (hs: seq<Heading>)
    requires i <= |text|
    ensures InOrder(hs, i, |text|)
    decreases |text| - i
  {
    if i == |text| then []
    else if HeadingAt(text, i) then
      var h := MatchAt(text, i);
      var rest := Headings(text, h.end);
      [h] + rest
    else Headings(text, i + 1)
  }

  predicate InOrder(hs: seq<Heading>, lo: nat, hi: nat) {
    && (forall k :: 0 <= k < |hs| ==> lo <= hs[k].start < hs[k].title <= hs[k].end <= hi && 1 <= hs[k].level <= 3)
    && (forall j, k :: 0 <= j < k < |hs| ==> hs[j].end <= hs[k].start)
  }

  /** The position lies strictly inside a match. */
  ghost predicate Inside(hs: seq<Heading>, i: nat) { exists h :: h in hs && h.start < i < h.end }

  ghost predicate Found(hs: seq<Heading>, i: nat) { exists h :: h in hs && h.start == i }

  /** MAIN: exactly the heading lines that do not start inside an earlier match are found, each as its own match. */
  lemma {:induction false} HeadingsFound(text: string, from: nat, i: nat)
    requires from <= i <= |text|
    ensures Found(Headings(text, from), i) <==> HeadingAt(text, i) && !Inside(Headings(text, from), i)
    ensures forall h :: h in Headings(text, from) ==>
            h.start <= |text| && HeadingAt(text, h.start) && h == MatchAt(text, h.start)
    decreases |text| - from
  {
    var hs := Headings(text, from);
    if from < |text| && HeadingAt(text, from) {
      var m := MatchAt(text, from);
      var rest := Headings(text, m.end);
      assert hs == [m] + rest;
      if i < m.end {
        HeadingsFound(text, m.end, m.end);
        assert hs[0] == m;
      } else {
        HeadingsFound(text, m.end, i);
        assert Found(hs, i) <==> Found(rest, i);
        assert Inside(hs, i) <==> Inside(rest, i);
      }
    } else if from < |text| {
      if i == from {
        HeadingsFound(text, from + 1, from + 1);
      } else {
        HeadingsFound(text, from + 1, i);
      }
    }
  }

  // ---- strip ----

  function StripLeft(text: string, lo: nat, hi: nat): (k: nat)
    requires lo <= hi <= |text|
    ensures lo <= k <= hi && forall p :: lo <= p < k ==> IsSpace(text[p])
    ensures k < hi ==> !IsSpace(text[k])
    decreases hi - lo
  {
    if lo < hi && IsSpace(text[lo]) then StripLeft(text, lo + 1, hi) else lo
  }

  function StripRight(text: string, lo: nat, hi: nat): (k: nat)
    requires lo <= hi <= |text|
    ensures lo <= k <= hi && forall p :: k <= p < hi ==> IsSpace(text[p])
    ensures lo < k ==> !IsSpace(text[k - 1])
    decreases hi - lo
  {
    if lo < hi && IsSpace(text[hi - 1]) then StripRight(text, lo, hi - 1) else hi
  }

  function Title(text: string, h: Heading): string
    requires h.title <= h.end <= |text|
  {
    var a := StripLeft(text, h.title, h.end);
    text[a..StripRight(text, a, h.end)]
  }

  /** A title is its line without the blanks around it. */
  lemma TitleIs(text: string, h: Heading)
    requires h.title <= h.end <= |text|
    ensures exists a, b ::
            h.title <= a <= b <= h.end && Title(text, h) == text[a..b] && IsStripped(text, h.title, h.end, a, b)
  {
    var a := StripLeft(text, h.title, h.end);
    var b := StripRight(text, a, h.end);
    assert IsStripped(text, h.title, h.end, a, b);
  }

  /** What lies between lo and a and between b and hi is blank, and nothing next to it inside. */
  ghost predicate IsStripped(text: string, lo: nat, hi: nat, a: nat, b: nat)
    requires lo <= a <= b <= hi <= |text|
  {
    && (forall p :: lo <= p < a || b <= p < hi ==> IsSpace(text[p]))
    && (a < b ==> !IsSpace(text[a]) && !IsSpace(text[b - 1]))
  }

  // ---- sections and their trails ----

  function SectionStart(hs: seq<Heading>, k: nat): nat
    requires k <= |hs|
  {
    if k == 0 then 0 else hs[k - 1].end
  }

  function SectionEnd(text: string, hs: seq<Heading>, k: nat): nat
    requires k <= |hs|
  {
    if k == |hs| then |text| else hs[k].start
  }

  /** Heading j encloses what follows heading i: no heading after j, up to i, is at j's level or above. */
  ghost predicate Encloses(hs: seq<Heading>, j: nat, i: nat)
    requires j <= i < |hs|
  {
    forall k :: j < k <= i ==> hs[k].level > hs[j].level
  }

  /** The first n headings that enclose what follows heading i. */
  ghost function Enclosing(hs: seq<Heading>, n: nat, i: nat): (r: seq<Heading>)
    requires n <= i + 1 <= |hs|
  {
    if n == 0 then []
    else Enclosing(hs, n - 1, i) + if Encloses(hs, n - 1, i) then [hs[n - 1]] else []
  }

  ghost function Trail(hs: seq<Heading>, i: nat): seq<Heading>
    requires i < |hs|
  {
    Enclosing(hs, i + 1, i)
  }

  /** Membership in a trail, stated outright. */
  lemma {:induction false} EnclosingMembers(hs: seq<Heading>, n: nat, i: nat, h: Heading)
    requires n <= i + 1 <= |hs|
    ensures h in Enclosing(hs, n, i) <==> exists j :: 0 <= j < n && hs[j] == h && Encloses(hs, j, i)
  {
    if n > 0 { EnclosingMembers(hs, n - 1, i, h); }
  }

  function Shallower(stack: seq<Heading>, level: nat): seq<Heading> {
    if stack == [] then []
    else Shallower(stack[..|stack| - 1], level) + if stack[|stack| - 1].level < level then [stack[|stack| - 1]] else []
  }

  lemma StillEncloses(hs: seq<Heading>, j: nat, i: nat)
    requires j <= i && i + 1 < |hs|
    ensures Encloses(hs, j, i + 1) <==> Encloses(hs, j, i) && hs[j].level < hs[i + 1].level
  {
  }

  lemma ShallowerAppend(stack: seq<Heading>, h: Heading, level: nat)
    ensures Shallower(stack + [h], level) == Shallower(stack, level) + if h.level < level then [h] else []
  {
    assert (stack + [h])[..|stack|] == stack;
  }

  /** Popping every entry at the new level or deeper leaves exactly the headings that still enclose. */
  lemma {:induction false} PoppingIsEnclosing(hs: seq<Heading>, n: nat, i: nat)
    requires n <= i + 1 < |hs|
    ensures Shallower(Enclosing(hs, n, i), hs[i + 1].level) == Enclosing(hs, n, i + 1)
  {
    if n > 0 {
      PoppingIsEnclosing(hs, n - 1, i);
      StillEncloses(hs, n - 1, i);
      var before := Enclosing(hs, n - 1, i);
      if Encloses(hs, n - 1, i) {
        ShallowerAppend(before, hs[n - 1], hs[i + 1].level);
        assert Enclosing(hs, n, i) == before + [hs[n - 1]];
      } else {
        assert Enclosing(hs, n, i) == before;
        assert Enclosing(hs, n, i + 1) == Enclosing(hs, n - 1, i + 1);
      }
    }
  }

  /** MAIN: levels climb strictly along a trail, so it never has more than three entries. */
  lemma TrailClimbs(hs: seq<Heading>, i: nat)
    requires i < |hs| && forall k :: 0 <= k < |hs| ==> 1 <= hs[k].level <= 3
    ensures forall a, b :: 0 <= a < b < |Trail(hs, i)| ==> Trail(hs, i)[a].level < Trail(hs, i)[b].level
    ensures |Trail(hs, i)| <= 3 && hs[i] == Trail(hs, i)[|Trail(hs, i)| - 1]
  {
    ClimbingTrail(hs, i + 1, i);
    assert Encloses(hs, i, i);
    var t := Trail(hs, i);
    assert t == Enclosing(hs, i, i) + [hs[i]];
    assert |t| <= t[|t| - 1].level;
  }

  /** Levels climb, so the n-th entry is at level n at least. */
  predicate Climbs(trail: seq<Heading>) {
    && (forall a, b :: 0 <= a < b < |trail| ==> trail[a].level < trail[b].level)
    && (forall a :: 0 <= a < |trail| ==> a + 1 <= trail[a].level <= 3)
  }

  lemma ClimbsOn(trail: seq<Heading>, h: Heading)
    requires Climbs(trail) && 1 <= h.level <= 3 && forall a :: 0 <= a < |trail| ==> trail[a].level < h.level
    ensures Climbs(trail + [h])
  {
    if trail != [] { assert |trail| <= trail[|trail| - 1].level; }
  }

  lemma {:induction false} ClimbingTrail(hs: seq<Heading>, n: nat, i: nat)
    requires n <= i + 1 <= |hs|
    requires forall k :: 0 <= k < |hs| ==> 1 <= hs[k].level <= 3
    ensures Climbs(Enclosing(hs, n, i))
  {
    if n > 0 {
      ClimbingTrail(hs, n - 1, i);
      if Encloses(hs, n - 1, i) {
        BelowTheLast(hs, n - 1, i);
        ClimbsOn(Enclosing(hs, n - 1, i), hs[n - 1]);
      }
    }
  }

  /** Whatever still encloses lies above the next heading that does. */
  lemma BelowTheLast(hs: seq<Heading>, n: nat, i: nat)
    requires n <= i < |hs| && Encloses(hs, n, i)
    ensures forall a :: 0 <= a < |Enclosing(hs, n, i)| ==> Enclosing(hs, n, i)[a].level < hs[n].level
  {
    var before := Enclosing(hs, n, i);
    forall a | 0 <= a < |before| ensures before[a].level < hs[n].level {
      EnclosingMembers(hs, n, i, before[a]);
      var j :| 0 <= j < n && hs[j] == before[a] && Encloses(hs, j, i);
      assert hs[n].level > hs[j].level;
    }
  }

  function Join(parts: seq<string>): string {
    if parts == [] then ""
    else if |parts| == 1 then parts[0]
    else Join(parts[..|parts| - 1]) + " \U{203A} " + parts[|parts| - 1]
  }

  function Titles(text: string, stack: seq<Heading>): seq<string>
    requires forall h :: h in stack ==> h.title <= h.end <= |text|
  {
    seq(|stack|, i requires 0 <= i < |stack| => assert stack[i] in stack; Title(text, stack[i]))
  }

  lemma TrailInText(text: string, hs: seq<Heading>, i: nat)
    requires i < |hs| && InOrder(hs, 0, |text|)
    ensures forall h :: h in Trail(hs, i) ==> h.title <= h.end <= |text|
  {
    forall h | h in Trail(hs, i) ensures h.title <= h.end <= |text| { EnclosingMembers(hs, i + 1, i, h); }
  }

  /** The citation of section k: nothing before the first heading, then the trail of heading k - 1. */
  ghost function PathOf(text: string, hs: seq<Heading>, k: nat): string
    requires k <= |hs| && InOrder(hs, 0, |text|)
  {
    if k == 0 then ""
    else
      TrailInText(text, hs, k - 1);
      Join(Titles(text, Trail(hs, k - 1)))
  }

  /** MAIN: a citation names the enclosing headings from the outermost in, at most three, with a mark between them. */
  lemma CitationIs(text: string, hs: seq<Heading>, k: nat)
    requires 0 < k <= |hs| && InOrder(hs, 0, |text|)
    ensures 1 <= |Trail(hs, k - 1)| <= 3 && Cites(text, Trail(hs, k - 1), PathOf(text, hs, k))
  {
    TrailInText(text, hs, k - 1);
    TrailSize(text, hs, k - 1);
    JoinCites(text, Trail(hs, k - 1));
  }

  predicate Cites(text: string, trail: seq<Heading>, path: string) {
    var mark := " \U{203A} ";
    && InText(text, trail)
    && (|trail| == 1 ==> path == Title(text, trail[0]))
    && (|trail| == 2 ==> path == Title(text, trail[0]) + mark + Title(text, trail[1]))
    && (|trail| == 3 ==>
          path == Title(text, trail[0]) + mark + Title(text, trail[1]) + mark + Title(text, trail[2]))
  }

  lemma JoinCites(text: string, trail: seq<Heading>)
    requires forall h :: h in trail ==> h.title <= h.end <= |text|
    ensures Cites(text, trail, Join(Titles(text, trail)))
  {
    TitlesInOrder(text, trail);
    JoinThree(Titles(text, trail));
  }

  predicate InText(text: string, trail: seq<Heading>) {
    forall i :: 0 <= i < |trail| ==> trail[i].title <= trail[i].end <= |text|
  }

  lemma TrailSize(text: string, hs: seq<Heading>, i: nat)
    requires i < |hs| && InOrder(hs, 0, |text|)
    ensures 1 <= |Trail(hs, i)| <= 3 && InText(text, Trail(hs, i))
  {
    TrailInText(text, hs, i);
    TrailClimbs(hs, i);
    forall k | 0 <= k < |Trail(hs, i)| ensures Trail(hs, i)[k].title <= Trail(hs, i)[k].end <= |text| {
      assert Trail(hs, i)[k] in Trail(hs, i);
    }
  }

  lemma TitlesInOrder(text: string, trail: seq<Heading>)
    requires forall h :: h in trail ==> h.title <= h.end <= |text|
    ensures |Titles(text, trail)| == |trail| && InText(text, trail)
    ensures forall i :: 0 <= i < |trail| ==> Titles(text, trail)[i] == Title(text, trail[i])
  {
    forall i | 0 <= i < |trail| ensures trail[i].title <= trail[i].end <= |text| { assert trail[i] in trail; }
  }

  lemma JoinThree(parts: seq<string>)
    ensures |parts| == 1 ==> Join(parts) == parts[0]
    ensures |parts| == 2 ==> Join(parts) == parts[0] + " \U{203A} " + parts[1]
    ensures |parts| == 3 ==> Join(parts) == parts[0] + " \U{203A} " + parts[1] + " \U{203A} " + parts[2]
  {
    if |parts| == 2 { assert Join(parts[..1]) == parts[0]; }
    if |parts| == 3 {
      var two := parts[..2];
      assert two[..1] == [parts[0]];
      assert Join(two[..1]) == parts[0];
      assert Join(two) == parts[0] + " \U{203A} " + parts[1];
    }
  }

  /** MAIN: sections and heading lines together cover every position of the text. */
  lemma EveryPositionPlaced(text: string, hs: seq<Heading>, p: nat)
    requires InOrder(hs, 0, |text|) && p < |text|
    ensures (exists k :: 0 <= k < |hs| && hs[k].start <= p < hs[k].end)
         || (exists k :: 0 <= k <= |hs| && SectionStart(hs, k) <= p < SectionEnd(text, hs, k))
  {
    var k := 0;
    while k < |hs| && hs[k].end <= p
      invariant k <= |hs| && SectionStart(hs, k) <= p
    {
      k := k + 1;
    }
    assert (k < |hs| && hs[k].start <= p) || p < SectionEnd(text, hs, k);
  }

  // ---- passages ----

  predicate Blank(s: string) { forall c <- s :: IsSpace(c) }

  function StepOf(maxChars: nat, overlap: int): nat { Max(1, maxChars - overlap) }

  /** The section's body without surrounding blanks. */
  function BodyStart(text: string, hs: seq<Heading>, k: nat): (a: nat)
    requires k <= |hs| && InOrder(hs, 0, |text|)
    ensures SectionStart(hs, k) <= a <= SectionEnd(text, hs, k) <= |text|
  {
    StripLeft(text, SectionStart(hs, k), SectionEnd(text, hs, k))
  }

  function BodyEnd(text: string, hs: seq<Heading>, k: nat): (b: nat)
    requires k <= |hs| && InOrder(hs, 0, |text|)
    ensures BodyStart(text, hs, k) <= b <= SectionEnd(text, hs, k)
  {
    StripRight(text, BodyStart(text, hs, k), SectionEnd(text, hs, k))
  }

  /** A passage of the body text[a..b] starts at `pos`: the whole body if it fits, otherwise every
      `step`-th position whose window is not blank. */
  predicate IsStart(text: string, a: nat, b: nat, maxChars: nat, step: nat, pos: nat)
    requires a <= b <= |text| && step >= 1
  {
    && a <= pos < b
    && (if b - a <= maxChars then pos == a
        else (pos - a) % step == 0 && !Blank(text[pos..Min(pos + maxChars, b)]))
  }

  /** Where a passage was cut: its offset in the text, and its section. */
  datatype Cut = Cut(at: nat, section: nat)

  ghost predicate IsCut(text: string, a: nat, b: nat, k: nat, source: string,
                        path: string, maxChars: nat, step: nat, p: Passage, c: Cut)
    requires a <= b <= |text| && step >= 1
  {
    && c.section == k && IsStart(text, a, b, maxChars, step, c.at)
    && p == Passage(source, path, text[c.at..Min(c.at + maxChars, b)])
  }

  predicate Rising(cuts: seq<Cut>) { forall i, j :: 0 <= i < j < |cuts| ==> cuts[i].at < cuts[j].at }

  /** The passages of text[a..b] that start before `upTo`: all of them, in order, and nothing else. */
  ghost predicate IsWindowing(text: string, a: nat, b: nat, k: nat, source: string, path: string,
                              maxChars: nat, step: nat, passages: seq<Passage>, cuts: seq<Cut>, upTo: nat)
    requires a <= b <= |text| && step >= 1
  {
    && |cuts| == |passages| && Rising(cuts)
    && (forall i :: 0 <= i < |passages| ==>
      IsCut(text, a, b, k, source, path, maxChars, step, passages[i], cuts[i]) && cuts[i].at < upTo)
    && (forall pos: nat :: pos < upTo && IsStart(text, a, b, maxChars, step, pos) ==> Cut(pos, k) in cuts)
  }

  /** `_window` over the body text[lo..hi] of section k. */
  method Window(text: string, lo: nat, hi: nat, ghost k: nat, source: string, path: string, maxChars: nat, overlap: int)
    returns (passages: seq<Passage>)
    requires lo <= hi <= |text|
    ensures exists cuts ::
            IsWindowing(text, lo, hi, k, source, path, maxChars, StepOf(maxChars, overlap), passages, cuts, hi)
  {
    var step := StepOf(maxChars, overlap);
    passages := [];
    ghost var cuts: seq<Cut> := [];
    if lo == hi {
      assert IsWindowing(text, lo, hi, k, source, path, maxChars, step, passages, cuts, hi);
      return;
    }
    if hi - lo <= maxChars {
      passages, cuts := [Passage(source, path, text[lo..hi])], [Cut(lo, k)];
      assert cuts[0] == Cut(lo, k);
      assert IsWindowing(text, lo, hi, k, source, path, maxChars, step, passages, cuts, hi);
      return;
    }
    var pos := lo;
    while pos < hi
      invariant lo <= pos && (pos - lo) % step == 0
      invariant IsWindowing(text, lo, hi, k, source, path, maxChars, step, passages, cuts, Min(pos, hi))
    {
      var window := text[pos..Min(pos + maxChars, hi)];
      NextStart(text, lo, hi, k, source, path, maxChars, step, passages, cuts, pos);
      if !Blank(window) {
        passages, cuts := passages + [Passage(source, path, window)], cuts + [Cut(pos, k)];
      }
      NextOnGrid(pos - lo, step);
      pos := pos + step;
    }
  }

  /** One turn of the loop. */
  lemma NextStart(text: string, a: nat, b: nat, k: nat, source: string, path: string,
                  maxChars: nat, step: nat, passages: seq<Passage>, cuts: seq<Cut>, pos: nat)
    requires a <= pos < b <= |text| && b - a > maxChars && step >= 1 && (pos - a) % step == 0
    requires IsWindowing(text, a, b, k, source, path, maxChars, step, passages, cuts, pos)
    ensures var window := text[pos..Min(pos + maxChars, b)];
            if Blank(window)
            then IsWindowing(text, a, b, k, source, path, maxChars, step, passages, cuts, Min(pos + step, b))
            else IsWindowing(text, a, b, k, source, path, maxChars, step, passages + [Passage(source, path, window)],
                             cuts + [Cut(pos, k)], Min(pos + step, b))
  {
    var window := text[pos..Min(pos + maxChars, b)];
    forall x: nat | x < Min(pos + step, b) && IsStart(text, a, b, maxChars, step, x)
      ensures x < pos || (x == pos && !Blank(window))
    {
      if x >= pos { OneOnGrid(pos - a, x - a, step); }
    }
    var ps, cs := passages + [Passage(source, path, window)], cuts + [Cut(pos, k)];
    if !Blank(window) {
      forall i | 0 <= i < |ps|
        ensures IsCut(text, a, b, k, source, path, maxChars, step, ps[i], cs[i]) && cs[i].at <= pos
      {
        if i < |passages| { assert IsCut(text, a, b, k, source, path, maxChars, step, passages[i], cuts[i]); }
      }
      forall x: nat | x < Min(pos + step, b) && IsStart(text, a, b, maxChars, step, x) ensures Cut(x, k) in cs {
        if x == pos { assert cs[|cuts|] == Cut(pos, k); }
      }
    }
  }

  lemma NextOnGrid(x: nat, step: nat)
    requires step >= 1 && x % step == 0
    ensures (x + step) % step == 0
  {
    Multiple(x / step + 1, step);
    assert x == (x / step) * step;
    assert x + step == (x / step + 1) * step;
  }

  lemma {:induction false} Multiple(q: nat, step: nat)
    requires step >= 1
    ensures (q * step) % step == 0
  {
    Remainder(q * step, q, 0, step);
  }

  lemma Remainder(n: nat, q: nat, r: nat, step: nat)
    requires step >= 1 && n == q * step + r && r < step
    ensures n % step == r
  {
    var q', r' := n / step, n % step;
    assert n == q' * step + r';
    if q' > q { Scaled(q + 1, q', step); }
    if q' < q { Scaled(q' + 1, q, step); }
  }

  lemma Scaled(x: nat, y: nat, step: nat)
    requires x <= y
    ensures x * step <= y * step
    ensures x >= 1 ==> x * step == (x - 1) * step + step
  {
  }

  lemma OneOnGrid(x: nat, y: nat, step: nat)
    requires step >= 1 && x % step == 0 && y % step == 0 && x <= y < x + step
    ensures x == y
  {
    assert y == (x / step) * step + (y - x);
    Remainder(y, x / step, y - x, step);
  }

  /** The passages of the first n sections: every start of every section, in order, and nothing else. */
  ghost predicate IsChunking(text: string, hs: seq<Heading>, n: nat, source: string,
                             maxChars: nat, step: nat, passages: seq<Passage>, cuts: seq<Cut>)
    requires n <= |hs| + 1 && InOrder(hs, 0, |text|) && step >= 1
  {
    && |cuts| == |passages| && Rising(cuts)
    && AllFrom(text, hs, n, source, maxChars, step, passages, cuts)
    && AllStarts(text, hs, n, maxChars, step, cuts)
  }

  ghost predicate AllFrom(text: string, hs: seq<Heading>, n: nat, source: string,
                          maxChars: nat, step: nat, passages: seq<Passage>, cuts: seq<Cut>)
    requires InOrder(hs, 0, |text|) && step >= 1 && |cuts| == |passages|
  {
    forall i :: 0 <= i < |passages| ==>
      cuts[i].section < n && FromSection(text, hs, source, maxChars, step, passages[i], cuts[i])
  }

  ghost predicate AllStarts(text: string, hs: seq<Heading>, n: nat, maxChars: nat, step: nat, cuts: seq<Cut>)
    requires n <= |hs| + 1 && InOrder(hs, 0, |text|) && step >= 1
  {
    forall k, pos: nat :: 0 <= k < n && StartsIn(text, hs, k, maxChars, step, pos) ==> Cut(pos, k) in cuts
  }

  predicate StartsIn(text: string, hs: seq<Heading>, k: nat, maxChars: nat, step: nat, pos: nat)
    requires k <= |hs| && InOrder(hs, 0, |text|) && step >= 1
  {
    IsStart(text, BodyStart(text, hs, k), BodyEnd(text, hs, k), maxChars, step, pos)
  }

  ghost predicate FromSection(text: string, hs: seq<Heading>, source: string,
                              maxChars: nat, step: nat, p: Passage, c: Cut)
    requires InOrder(hs, 0, |text|) && step >= 1
  {
    && c.section <= |hs|
    && IsCut(text, BodyStart(text, hs, c.section), BodyEnd(text, hs, c.section), c.section, source,
             PathOf(text, hs, c.section), maxChars, step, p, c)
  }

  /** All passages of section k. */
  ghost predicate IsSectionCut(text: string, hs: seq<Heading>, k: nat, source: string, path: string,
                               maxChars: nat, step: nat, passages: seq<Passage>, cuts: seq<Cut>)
    requires k <= |hs| && InOrder(hs, 0, |text|) && step >= 1
  {
    IsWindowing(text, BodyStart(text, hs, k), BodyEnd(text, hs, k), k, source, path, maxChars, step,
                passages, cuts, BodyEnd(text, hs, k))
  }

  /** All passages of the text. */
  ghost predicate IsChunked(text: string, hs: seq<Heading>, source: string, maxChars: nat,
                            step: nat, passages: seq<Passage>, cuts: seq<Cut>)
    requires InOrder(hs, 0, |text|) && step >= 1
  {
    IsChunking(text, hs, |hs| + 1, source, maxChars, step, passages, cuts)
  }

  lemma EarlierSection(text: string, hs: seq<Heading>, n: nat, source: string,
                       maxChars: nat, step: nat, p: Passage, c: Cut)
    requires n <= |hs| && InOrder(hs, 0, |text|) && step >= 1
    requires c.section < n && FromSection(text, hs, source, maxChars, step, p, c)
    ensures c.at < SectionStart(hs, n)
  {
    SectionsInOrder(text, hs, c.section, n);
  }

  lemma RisingAppend(a: seq<Cut>, b: seq<Cut>, border: nat)
    requires Rising(a) && Rising(b)
    requires (forall i :: 0 <= i < |a| ==> a[i].at < border) && (forall i :: 0 <= i < |b| ==> border <= b[i].at)
    ensures Rising(a + b)
  {
  }

  lemma OneMoreSection(text: string, hs: seq<Heading>, n: nat, source: string, maxChars: nat, step: nat,
                       passages: seq<Passage>, cuts: seq<Cut>, more: seq<Passage>, moreCuts: seq<Cut>)
    requires n <= |hs| && InOrder(hs, 0, |text|) && step >= 1
    requires IsChunking(text, hs, n, source, maxChars, step, passages, cuts)
    requires IsSectionCut(text, hs, n, source, PathOf(text, hs, n), maxChars, step, more, moreCuts)
    ensures IsChunking(text, hs, n + 1, source, maxChars, step, passages + more, cuts + moreCuts)
  {
    SectionIsFrom(text, hs, n, source, maxChars, step, more, moreCuts);
    forall i | 0 <= i < |cuts| ensures cuts[i].at < SectionStart(hs, n) {
      EarlierSection(text, hs, n, source, maxChars, step, passages[i], cuts[i]);
    }
    RisingAppend(cuts, moreCuts, SectionStart(hs, n));
    FromAppend(text, hs, n, source, maxChars, step, passages, cuts, more, moreCuts);
    StartsAppend(text, hs, n, maxChars, step, cuts, moreCuts);
  }

  lemma SectionIsFrom(text: string, hs: seq<Heading>, n: nat, source: string,
                      maxChars: nat, step: nat, more: seq<Passage>, moreCuts: seq<Cut>)
    requires n <= |hs| && InOrder(hs, 0, |text|) && step >= 1
    requires IsSectionCut(text, hs, n, source, PathOf(text, hs, n), maxChars, step, more, moreCuts)
    ensures |moreCuts| == |more| && Rising(moreCuts) && AllFrom(text, hs, n + 1, source, maxChars, step, more, moreCuts)
    ensures forall i :: 0 <= i < |moreCuts| ==> SectionStart(hs, n) <= moreCuts[i].at
    ensures forall pos: nat :: StartsIn(text, hs, n, maxChars, step, pos) ==> Cut(pos, n) in moreCuts
  {
    forall i | 0 <= i < |more|
      ensures moreCuts[i].section == n && FromSection(text, hs, source, maxChars, step, more[i], moreCuts[i]) &&
              SectionStart(hs, n) <= moreCuts[i].at
    {
      assert IsCut(text, BodyStart(text, hs, n), BodyEnd(text, hs, n), n, source,
                   PathOf(text, hs, n), maxChars, step, more[i], moreCuts[i]);
    }
  }

  lemma FromAppend(text: string, hs: seq<Heading>, n: nat, source: string, maxChars: nat, step: nat,
                   passages: seq<Passage>, cuts: seq<Cut>, more: seq<Passage>, moreCuts: seq<Cut>)
    requires InOrder(hs, 0, |text|) && step >= 1 && |cuts| == |passages| && |moreCuts| == |more|
    requires AllFrom(text, hs, n, source, maxChars, step, passages, cuts)
    requires AllFrom(text, hs, n + 1, source, maxChars, step, more, moreCuts)
    ensures AllFrom(text, hs, n + 1, source, maxChars, step, passages + more, cuts + moreCuts)
  {
    var placed := (p: Passage, c: Cut) => c.section < n + 1 && FromSection(text, hs, source, maxChars, step, p, c);
    PairsAppend(placed, passages, cuts, more, moreCuts);
  }

  lemma PairsAppend<A, B>(ok: (A, B) -> bool, a: seq<A>, b: seq<B>, a': seq<A>, b': seq<B>)
    requires |a| == |b| && |a'| == |b'|
    requires forall i :: 0 <= i < |a| ==> ok(a[i], b[i])
    requires forall i :: 0 <= i < |a'| ==> ok(a'[i], b'[i])
    ensures forall i :: 0 <= i < |a + a'| ==> ok((a + a')[i], (b + b')[i])
  {
  }

  lemma StartsAppend(text: string, hs: seq<Heading>, n: nat, maxChars: nat,
                     step: nat, cuts: seq<Cut>, moreCuts: seq<Cut>)
    requires n <= |hs| && InOrder(hs, 0, |text|) && step >= 1 && AllStarts(text, hs, n, maxChars, step, cuts)
    requires forall pos: nat :: StartsIn(text, hs, n, maxChars, step, pos) ==> Cut(pos, n) in moreCuts
    ensures AllStarts(text, hs, n + 1, maxChars, step, cuts + moreCuts)
  {
    forall k, pos: nat | 0 <= k < n + 1 && StartsIn(text, hs, k, maxChars, step, pos)
      ensures Cut(pos, k) in cuts + moreCuts
    {
      if k < n { assert Cut(pos, k) in cuts; } else { assert Cut(pos, k) in moreCuts; }
    }
  }

  lemma SectionsInOrder(text: string, hs: seq<Heading>, j: nat, k: nat)
    requires InOrder(hs, 0, |text|) && j < k <= |hs|
    ensures SectionEnd(text, hs, j) <= SectionStart(hs, k)
  {
  }

  /** `chunk_markdown`: every section of the text is windowed under its own trail, in order. */
  method ChunkMarkdown(text: string, source: string, maxChars: nat, overlap: int) returns (passages: seq<Passage>)
    ensures exists cuts ::
            IsChunked(text, Headings(text, 0), source, maxChars, StepOf(maxChars, overlap), passages, cuts)
  {
    var hs := Headings(text, 0);
    ghost var cuts;
    passages, cuts := ChunkSections(text, hs, source, maxChars, overlap);
  }

  /** The walk over the heading matches. */
  method ChunkSections(text: string, hs: seq<Heading>, source: string, maxChars: nat, overlap: int)
    returns (passages: seq<Passage>, ghost cuts: seq<Cut>)
    requires InOrder(hs, 0, |text|)
    ensures IsChunked(text, hs, source, maxChars, StepOf(maxChars, overlap), passages, cuts)
  {
    passages, cuts := AddSection(text, hs, 0, source, "", maxChars, overlap, [], []);
    var stack: seq<Heading> := [];
    for i := 0 to |hs|
      invariant stack == TrailBefore(hs, i)
      invariant IsChunking(text, hs, i + 1, source, maxChars, StepOf(maxChars, overlap), passages, cuts)
    {
      stack, passages, cuts := AddHeading(text, hs, i, source, maxChars, overlap, stack, passages, cuts);
    }
  }

  ghost function TrailBefore(hs: seq<Heading>, i: nat): seq<Heading>
    requires i <= |hs|
  {
    if i == 0 then [] else Trail(hs, i - 1)
  }

  /** One turn of the walk: pop, push, cite, window. */
  method AddHeading(text: string, hs: seq<Heading>, i: nat, source: string, maxChars: nat,
                    overlap: int, stack: seq<Heading>, passages: seq<Passage>, ghost cuts: seq<Cut>)
    returns (pushed: seq<Heading>, all: seq<Passage>, ghost allCuts: seq<Cut>)
    requires i < |hs| && InOrder(hs, 0, |text|) && stack == TrailBefore(hs, i)
    requires IsChunking(text, hs, i + 1, source, maxChars, StepOf(maxChars, overlap), passages, cuts)
    ensures pushed == TrailBefore(hs, i + 1)
    ensures IsChunking(text, hs, i + 2, source, maxChars, StepOf(maxChars, overlap), all, allCuts)
  {
    TrailPath(text, hs, i);
    pushed := Shallower(stack, hs[i].level) + [hs[i]];
    var path := Join(Titles(text, pushed));
    all, allCuts := AddSection(text, hs, i + 1, source, path, maxChars, overlap, passages, cuts);
  }

  /** The stack after heading i is its trail, and spells the citation of the section it opens. */
  lemma TrailPath(text: string, hs: seq<Heading>, i: nat)
    requires i < |hs| && InOrder(hs, 0, |text|)
    ensures Trail(hs, i) == Shallower(TrailBefore(hs, i), hs[i].level) + [hs[i]]
    ensures forall h :: h in Trail(hs, i) ==> h.title <= h.end <= |text|
    ensures Join(Titles(text, Trail(hs, i))) == PathOf(text, hs, i + 1)
  {
    PushedTrail(hs, i);
    TrailInText(text, hs, i);
  }

  ghost predicate HasSectionCut(text: string, hs: seq<Heading>, k: nat, source: string,
                                path: string, maxChars: nat, step: nat, passages: seq<Passage>)
    requires k <= |hs| && InOrder(hs, 0, |text|) && step >= 1
  {
    exists cuts :: IsSectionCut(text, hs, k, source, path, maxChars, step, passages, cuts)
  }

  /** One section's passages: its body stripped, then windowed. */
  method EmitSection(text: string, hs: seq<Heading>, k: nat, source: string, path: string, maxChars: nat, overlap: int)
    returns (passages: seq<Passage>)
    requires InOrder(hs, 0, |text|) && k <= |hs|
    ensures HasSectionCut(text, hs, k, source, path, maxChars, StepOf(maxChars, overlap), passages)
  {
    var a := BodyStart(text, hs, k);
    var b := BodyEnd(text, hs, k);
    passages := Window(text, a, b, k, source, path, maxChars, overlap);
    ghost var cuts :| IsWindowing(text, a, b, k, source, path, maxChars, StepOf(maxChars, overlap), passages, cuts, b);
    assert IsSectionCut(text, hs, k, source, path, maxChars, StepOf(maxChars, overlap), passages, cuts);
  }

  method AddSection(text: string, hs: seq<Heading>, n: nat, source: string, path: string,
                    maxChars: nat, overlap: int, passages: seq<Passage>, ghost cuts: seq<Cut>)
    returns (all: seq<Passage>, ghost allCuts: seq<Cut>)
    requires n <= |hs| && InOrder(hs, 0, |text|) && path == PathOf(text, hs, n)
    requires IsChunking(text, hs, n, source, maxChars, StepOf(maxChars, overlap), passages, cuts)
    ensures IsChunking(text, hs, n + 1, source, maxChars, StepOf(maxChars, overlap), all, allCuts)
  {
    var more := EmitSection(text, hs, n, source, path, maxChars, overlap);
    ghost var c :| IsSectionCut(text, hs, n, source, path, maxChars, StepOf(maxChars, overlap), more, c);
    OneMoreSection(text, hs, n, source, maxChars, StepOf(maxChars, overlap), passages, cuts, more, c);
    all, allCuts := passages + more, cuts + c;
  }

  lemma PushedTrail(hs: seq<Heading>, i: nat)
    requires i < |hs|
    ensures Trail(hs, i) == Shallower(if i == 0 then [] else Trail(hs, i - 1), hs[i].level) + [hs[i]]
  {
    assert Encloses(hs, i, i);
    assert Trail(hs, i) == Enclosing(hs, i, i) + [hs[i]];
    if i > 0 { PoppingIsEnclosing(hs, i, i - 1); }
  }

  // ---- what the passages are good for ----

  /** Every passage is a non-empty verbatim stretch of one section, at most `maxChars` long, cited by the
      headings that enclose it. */
  lemma PassagesFaithful(text: string, hs: seq<Heading>, source: string, maxChars: nat,
                         step: nat, passages: seq<Passage>, cuts: seq<Cut>, i: nat)
    requires InOrder(hs, 0, |text|) && step >= 1 && i < |passages|
    requires IsChunked(text, hs, source, maxChars, step, passages, cuts)
    ensures |cuts| == |passages|
    ensures var p, c := passages[i], cuts[i];
            && c.section <= |hs| && 0 < |p.text| <= maxChars
            && SectionStart(hs, c.section) <= c.at && c.at + |p.text| <= SectionEnd(text, hs, c.section)
            && p.text == text[c.at..c.at + |p.text|]
            && p.source == source && p.headingPath == PathOf(text, hs, c.section)
  {
    assert FromSection(text, hs, source, maxChars, step, passages[i], cuts[i]);
    CutFromSection(text, hs, source, maxChars, step, passages[i], cuts[i]);
  }

  lemma CutFromSection(text: string, hs: seq<Heading>, source: string, maxChars: nat, step: nat, p: Passage, c: Cut)
    requires InOrder(hs, 0, |text|) && step >= 1 && FromSection(text, hs, source, maxChars, step, p, c)
    ensures 0 < |p.text| <= maxChars
    ensures SectionStart(hs, c.section) <= c.at && c.at + |p.text| <= SectionEnd(text, hs, c.section) <= |text|
    ensures p.text == text[c.at..c.at + |p.text|] && p.source == source && p.headingPath == PathOf(text, hs, c.section)
  {
    CutFaithful(text, BodyStart(text, hs, c.section), BodyEnd(text, hs, c.section),
                c.section, source, PathOf(text, hs, c.section), maxChars, step, p, c);
  }

  lemma CutFaithful(text: string, a: nat, b: nat, k: nat, source: string,
                    path: string, maxChars: nat, step: nat, p: Passage, c: Cut)
    requires a <= b <= |text| && step >= 1 && IsCut(text, a, b, k, source, path, maxChars, step, p, c)
    ensures 0 < |p.text| <= maxChars && a <= c.at && c.at + |p.text| <= b && p.text == text[c.at..c.at + |p.text|]
  {
    var until := Min(c.at + maxChars, b);
    if b - a > maxChars { assert !Blank(text[c.at..until]); }
  }

  ghost predicate Holds(passages: seq<Passage>, cuts: seq<Cut>, section: nat, p: nat) {
    exists i :: 0 <= i < |passages| && i < |cuts| && cuts[i].section == section &&
      cuts[i].at <= p < cuts[i].at + |passages[i].text|
  }

  /** MAIN: every non-blank character outside the heading lines is in some passage of its own section. */
  lemma EveryCharacterHeld(text: string, hs: seq<Heading>, source: string, maxChars: nat,
                           overlap: int, passages: seq<Passage>, cuts: seq<Cut>, k: nat, p: nat)
    requires InOrder(hs, 0, |text|) && maxChars >= 1 && overlap >= 0
    requires IsChunked(text, hs, source, maxChars, StepOf(maxChars, overlap), passages, cuts)
    requires k <= |hs| && SectionStart(hs, k) <= p < SectionEnd(text, hs, k) <= |text| && !IsSpace(text[p])
    ensures Holds(passages, cuts, k, p)
  {
    var step := StepOf(maxChars, overlap);
    var pos := StartFor(text, BodyStart(text, hs, k), BodyEnd(text, hs, k), maxChars, step, p);
    assert StartsIn(text, hs, k, maxChars, step, pos);
    assert Cut(pos, k) in cuts;
    var i :| 0 <= i < |cuts| && cuts[i] == Cut(pos, k);
    assert FromSection(text, hs, source, maxChars, step, passages[i], cuts[i]);
  }

  /** The last window start at or before a position reaches past it. */
  lemma StartFor(text: string, a: nat, b: nat, maxChars: nat, step: nat, p: nat) returns (pos: nat)
    requires a <= p < b <= |text| && 1 <= step <= maxChars && !IsSpace(text[p])
    ensures IsStart(text, a, b, maxChars, step, pos) && pos <= p < Min(pos + maxChars, b)
  {
    if b - a <= maxChars {
      pos := a;
    } else {
      var q := (p - a) / step;
      pos := a + q * step;
      assert p - a == q * step + (p - a) % step;
      Multiple(q, step);
      var window := text[pos..Min(pos + maxChars, b)];
      assert window[p - pos] == text[p];
    }
  }

  /** MAIN: windows one step apart repeat the last `overlap` characters of the first. */
  lemma NeighboursOverlap(text: string, a: nat, b: nat, k: nat, source: string, path: string,
                          maxChars: nat, overlap: nat, p: Passage, q: Passage, c: Cut, d: Cut)
    requires a <= b <= |text| && overlap < maxChars
    requires IsCut(text, a, b, k, source, path, maxChars, StepOf(maxChars, overlap), p, c)
    requires IsCut(text, a, b, k, source, path, maxChars, StepOf(maxChars, overlap), q, d)
    requires d.at == c.at + StepOf(maxChars, overlap) && c.at + maxChars <= b
    ensures overlap <= |q.text| && |p.text| == maxChars && p.text[maxChars - overlap..] == q.text[..overlap]
  {
    assert p.text == text[c.at..c.at + maxChars];
    assert q.text == text[d.at..Min(d.at + maxChars, b)];
    SharedSlice(text, c.at, d.at, maxChars, overlap, Min(d.at + maxChars, b));
  }

  lemma SharedSlice(text: string, x: nat, y: nat, size: nat, overlap: nat, until: nat)
    requires overlap <= size && y == x + size - overlap && x + size <= until <= |text|
    ensures text[x..x + size][size - overlap..] == text[y..until][..overlap]
  {
  }

  /** MAIN: the passages are a function of the text, the source and the two sizes. */
  lemma ChunkingIsUnique(text: string, hs: seq<Heading>, source: string, maxChars: nat,
                         step: nat, a: seq<Passage>, b: seq<Passage>, ca: seq<Cut>, cb: seq<Cut>)
    requires InOrder(hs, 0, |text|) && step >= 1
    requires IsChunked(text, hs, source, maxChars, step, a, ca) && IsChunked(text, hs, source, maxChars, step, b, cb)
    ensures a == b
  {
    forall c ensures c in ca <==> c in cb {
      SameCutsOneWay(text, hs, source, maxChars, step, a, b, ca, cb, c);
      SameCutsOneWay(text, hs, source, maxChars, step, b, a, cb, ca, c);
    }
    RisingIsUnique(ca, cb);
    forall i | 0 <= i < |a| ensures a[i] == b[i] {
      assert FromSection(text, hs, source, maxChars, step, a[i], ca[i]);
      assert FromSection(text, hs, source, maxChars, step, b[i], cb[i]);
    }
  }

  lemma SameCutsOneWay(text: string, hs: seq<Heading>, source: string, maxChars: nat, step: nat,
                       a: seq<Passage>, b: seq<Passage>, ca: seq<Cut>, cb: seq<Cut>, c: Cut)
    requires InOrder(hs, 0, |text|) && step >= 1
    requires IsChunked(text, hs, source, maxChars, step, a, ca) && IsChunked(text, hs, source, maxChars, step, b, cb)
    ensures c in ca ==> c in cb
  {
    if c in ca {
      var i :| 0 <= i < |ca| && ca[i] == c;
      assert FromSection(text, hs, source, maxChars, step, a[i], ca[i]);
      assert StartsIn(text, hs, c.section, maxChars, step, c.at);
    }
  }

  lemma {:induction false} RisingIsUnique(a: seq<Cut>, b: seq<Cut>)
    requires Rising(a) && Rising(b) && forall c :: c in a <==> c in b
    ensures a == b
    decreases |a|
  {
    NeitherEmpty(a, b);
    NeitherEmpty(b, a);
    if a != [] {
      assert a[0] in b && b[0] in a;
      forall c ensures c in a[1..] <==> c in b[1..] {
        TailMembers(a, c);
        TailMembers(b, c);
      }
      RisingIsUnique(a[1..], b[1..]);
      assert a == [a[0]] + a[1..] && b == [b[0]] + b[1..];
    }
  }

  lemma NeitherEmpty(a: seq<Cut>, b: seq<Cut>)
    requires forall c :: c in a ==> c in b
    ensures b == [] ==> a == []
  {
    if a != [] { assert a[0] in b; }
  }

  lemma TailMembers(a: seq<Cut>, c: Cut)
    requires Rising(a) && a != []
    ensures c in a[1..] <==> c in a && c != a[0]
  {
    if c in a && c != a[0] {
      var i :| 0 <= i < |a| && a[i] == c;
      assert a[1..][i - 1] == c;
    }
  }
}
