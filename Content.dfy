/** How content updates change a text window: the paragraphs of a buffer window (appending,
    blank paragraphs, clearing, scrollback trimming) and the lines of a grid window. */
module Content {
  import opened GlkTypes

  /** The runs a buffer paragraph keeps from a line's content: text and image runs, in
      order; any other special entry is skipped. */
  function BufferRuns(content: seq<Run>): (r: seq<Run>)
    ensures forall x :: x in r <==> x in content && !x.OtherSpecial?
    ensures |r| <= |content|
  {
    if content == [] then []
    else (if content[0].OtherSpecial? then [] else [content[0]]) + BufferRuns(content[1..])
  }

  /** The runs a grid line keeps: grid windows skip every special entry. */
  function GridRuns(content: seq<Run>): (r: seq<Run>)
    ensures forall x :: x in r <==> x in content && x.TextRun?
    ensures |r| <= |content|
  {
    if content == [] then []
    else (if content[0].TextRun? then [content[0]] else []) + GridRuns(content[1..])
  }

  lemma {:induction false} BufferRunsConcat(a: seq<Run>, b: seq<Run>)
    ensures BufferRuns(a + b) == BufferRuns(a) + BufferRuns(b)
  {
    if a != [] {
      assert (a + b)[0] == a[0];
      assert (a + b)[1..] == a[1..] + b;
      BufferRunsConcat(a[1..], b);
      assert BufferRuns(a + b) ==
        (if a[0].OtherSpecial? then [] else [a[0]]) + BufferRuns(a[1..] + b);
    } else {
      assert a + b == b;
    }
  }

  // ---------------------------------------------------------------- buffer windows

  /** A blank paragraph (BlankPara) shows only its placeholder and holds no runs. */
  ghost predicate BlankHoldsNothing(paras: seq<Para>) {
    forall i :: 0 <= i < |paras| && paras[i].blank ==> paras[i].runs == []
  }

  /** All runs of the paragraphs, in order. */
  function AllRuns(paras: seq<Para>): seq<Run> {
    if paras == [] then [] else AllRuns(paras[..|paras| - 1]) + paras[|paras| - 1].runs
  }

  /** Whether a text entry lands in the last paragraph rather than a new one: it is an
      append and the frame already ends with a paragraph. */
  predicate Merges(paras: seq<Para>, t: TextArg) {
    t.append && paras != []
  }

  /** A paragraph receiving one text entry: it is marked FlowBreak when asked, and
      non-empty content ends its blankness (dropping the placeholder) and is appended. */
  function Extend(p: Para, t: TextArg): (r: Para)
    ensures r.flowbreak == (p.flowbreak || t.flowbreak)
    ensures r.blank == (p.blank && t.content == [])
    ensures t.content == [] ==> r.runs == p.runs
    ensures t.content != [] ==> r.runs == (if p.blank then [] else p.runs) + BufferRuns(t.content)
  {
    var p1 := p.(flowbreak := p.flowbreak || t.flowbreak);
    if t.content == [] then p1
    else if p1.blank then p1.(blank := false, runs := BufferRuns(t.content))
    else p1.(runs := p1.runs + BufferRuns(t.content))
  }

  /** One entry of a content update's `text` list. An append with empty content is skipped;
      otherwise the entry extends the last paragraph (append) or a new blank one. */
  function AddText(paras: seq<Para>, t: TextArg): (r: seq<Para>)
    ensures |r| == |paras| + 1 <==> !t.append || (paras == [] && t.content != [])
    ensures |r| == |paras| || |r| == |paras| + 1
  {
    if t.append && t.content == [] then paras
    else if Merges(paras, t) then paras[..|paras| - 1] + [Extend(paras[|paras| - 1], t)]
    else paras + [Extend(Para([], true, false), t)]
  }

  /** The paragraphs after the whole `text` list, entry by entry. */
  function AddTexts(paras: seq<Para>, ts: seq<TextArg>): (r: seq<Para>)
    ensures |paras| <= |r| <= |paras| + |ts|
  {
    if ts == [] then paras else AddText(AddTexts(paras, ts[..|ts| - 1]), ts[|ts| - 1])
  }

  /** An entry leaves every earlier paragraph alone, and creates a paragraph exactly when it
      is not merged into the last one and not a skipped empty append; a new paragraph is
      blank exactly when its content is empty. */
  lemma AddTextShape(paras: seq<Para>, t: TextArg)
    ensures var r := AddText(paras, t);
      if t.append && t.content == [] then r == paras
      else if Merges(paras, t) then
        && |r| == |paras| && r[..|r| - 1] == paras[..|paras| - 1]
        && r[|r| - 1].blank == (paras[|paras| - 1].blank && t.content == [])
        && r[|r| - 1].flowbreak == (paras[|paras| - 1].flowbreak || t.flowbreak)
      else
        && |r| == |paras| + 1 && r[..|paras|] == paras
        && r[|paras|].blank == (t.content == [])
        && r[|paras|].flowbreak == t.flowbreak
  {
  }

  /** Appending to a non-blank paragraph extends it with the kept runs of the content. */
  lemma AppendExtendsLastParagraph(paras: seq<Para>, t: TextArg)
    requires Merges(paras, t) && t.content != [] && !paras[|paras| - 1].blank
    ensures AddText(paras, t)[|paras| - 1].runs == paras[|paras| - 1].runs + BufferRuns(t.content)
  {
  }

  lemma {:induction false} AllRunsAppend(paras: seq<Para>, p: Para)
    ensures AllRuns(paras + [p]) == AllRuns(paras) + p.runs
  {
    assert (paras + [p])[..|paras|] == paras;
  }

  lemma ExtendKeepsRuns(p: Para, t: TextArg)
    requires p.blank ==> p.runs == []
    ensures Extend(p, t).blank ==> Extend(p, t).runs == []
    ensures Extend(p, t).runs == p.runs + BufferRuns(t.content)
  {
    if t.content == [] {
      assert BufferRuns(t.content) == [];
    }
  }

  /** Text reaches the window in order and nothing is lost: the runs of all paragraphs grow
      by exactly the kept runs of the entry, and blank paragraphs stay empty. */
  lemma {:induction false} AddTextKeepsRuns(paras: seq<Para>, t: TextArg)
    requires BlankHoldsNothing(paras)
    ensures BlankHoldsNothing(AddText(paras, t))
    ensures AllRuns(AddText(paras, t)) == AllRuns(paras) + BufferRuns(t.content)
  {
    AddTextKeepsBlank(paras, t);
    AddTextAppendsRuns(paras, t);
  }

  lemma AddTextKeepsBlank(paras: seq<Para>, t: TextArg)
    requires BlankHoldsNothing(paras)
    ensures BlankHoldsNothing(AddText(paras, t))
  {
  }

  lemma {:induction false} AddTextAppendsRuns(paras: seq<Para>, t: TextArg)
    requires BlankHoldsNothing(paras)
    ensures AllRuns(AddText(paras, t)) == AllRuns(paras) + BufferRuns(t.content)
  {
    if t.append && t.content == [] {
      assert BufferRuns(t.content) == [];
    } else if Merges(paras, t) {
      var n := |paras|;
      var base := paras[..n - 1];
      var last := paras[n - 1];
      assert paras == base + [last];
      ExtendKeepsRuns(last, t);
      AllRunsAppend(base, last);
      AllRunsAppend(base, Extend(last, t));
    } else {
      ExtendKeepsRuns(Para([], true, false), t);
      AllRunsAppend(paras, Extend(Para([], true, false), t));
    }
  }

  /** The concatenated kept runs of a whole `text` list. */
  function TextRuns(ts: seq<TextArg>): seq<Run> {
    if ts == [] then [] else TextRuns(ts[..|ts| - 1]) + BufferRuns(ts[|ts| - 1].content)
  }

  lemma {:induction false} AddTextsKeepsRuns(paras: seq<Para>, ts: seq<TextArg>)
    requires BlankHoldsNothing(paras)
    ensures BlankHoldsNothing(AddTexts(paras, ts))
    ensures AllRuns(AddTexts(paras, ts)) == AllRuns(paras) + TextRuns(ts)
  {
    AddTextsKeepBlank(paras, ts);
    AddTextsAppendRuns(paras, ts);
  }

  lemma {:induction false} AddTextsKeepBlank(paras: seq<Para>, ts: seq<TextArg>)
    requires BlankHoldsNothing(paras)
    ensures BlankHoldsNothing(AddTexts(paras, ts))
  {
    if ts != [] {
      var init := ts[..|ts| - 1];
      AddTextsKeepBlank(paras, init);
      AddTextKeepsBlank(AddTexts(paras, init), ts[|ts| - 1]);
    }
  }

  lemma {:induction false} AddTextsAppendRuns(paras: seq<Para>, ts: seq<TextArg>)
    requires BlankHoldsNothing(paras)
    ensures AllRuns(AddTexts(paras, ts)) == AllRuns(paras) + TextRuns(ts)
  {
    if ts != [] {
      var init, t := ts[..|ts| - 1], ts[|ts| - 1];
      var m := AddTexts(paras, init);
      AddTextsUnfold(paras, ts);
      AddTextsKeepBlank(paras, init);
      calc {
        AllRuns(AddTexts(paras, ts));
        AllRuns(AddText(m, t));
        { AddTextAppendsRuns(m, t); }
        AllRuns(m) + BufferRuns(t.content);
        { AddTextsAppendRuns(paras, init); }
        AllRuns(paras) + TextRuns(init) + BufferRuns(t.content);
        AllRuns(paras) + TextRuns(ts);
      }
    }
  }

  lemma AddTextsUnfold(paras: seq<Para>, ts: seq<TextArg>)
    requires ts != []
    ensures AddTexts(paras, ts) == AddText(AddTexts(paras, ts[..|ts| - 1]), ts[|ts| - 1])
    ensures TextRuns(ts) == TextRuns(ts[..|ts| - 1]) + BufferRuns(ts[|ts| - 1].content)
  {
  }

  /** The number of children of a buffer frame: the previous-page mark (when present, it is
      the first child) and the paragraphs. */
  function Children(prevmark: bool, paras: seq<Para>): nat {
    (if prevmark then 1 else 0) + |paras|
  }

  /** A buffer frame's state that scrollback trimming touches. */
  datatype Frame = Frame(paras: seq<Para>, prevmark: bool, topunseen: int, pagefrommark: int)

  /** Trimming the scrollback to `max` children: the `Children - max` oldest children go
      (the mark first, when present), and both paging cursors move up by `offtop`, the
      offset of the first retained child, without going below 0. */
  function Trim(f: Frame, max: int, offtop: int): (r: Frame)
    requires max > 0
    ensures Children(r.prevmark, r.paras) == if Children(f.prevmark, f.paras) > max then max
                                             else Children(f.prevmark, f.paras)
    ensures |r.paras| <= |f.paras| && r.paras == f.paras[|f.paras| - |r.paras|..]
    ensures r.prevmark ==> f.prevmark
    ensures r.topunseen >= 0 || r.topunseen == f.topunseen
    ensures Children(f.prevmark, f.paras) <= max ==> r == f
  {
    var n := Children(f.prevmark, f.paras);
    var totrim := n - max;
    if n == 0 || totrim <= 0 then f
    else
      var top := if f.topunseen - offtop < 0 then 0 else f.topunseen - offtop;
      var mark := if f.pagefrommark - offtop < 0 then 0 else f.pagefrommark - offtop;
      var drop := if f.prevmark then totrim - 1 else totrim;
      Frame(f.paras[drop..], false, top, mark)
  }

  /** Trimming keeps the newest paragraphs, at most `max` of them, and the paging cursors it
      moves stay at or above 0. */
  lemma TrimKeepsNewest(f: Frame, max: int, offtop: int)
    requires max > 0 && f.topunseen >= 0 && f.pagefrommark >= 0
    ensures var r := Trim(f, max, offtop);
      && |r.paras| == (if |f.paras| < max then |f.paras| else max)
      && r.topunseen >= 0 && r.pagefrommark >= 0
      && (offtop >= 0 ==> r.topunseen <= f.topunseen && r.pagefrommark <= f.pagefrommark)
  {
  }

  /** The removal loop of the trim as written, from pass `ix` on: the children are the
      frame's live child list, so every removal moves the later children down one place,
      and the next pass's `parals[ix]` names the child after the next one. A pass whose
      index has run past the end finds no child, and the call on it throws (None). */
  function RemoveLive<T>(children: seq<T>, ix: nat, totrim: nat): (r: Option<seq<T>>)
    decreases totrim - ix
    ensures ix <= totrim && r.Some? ==> |r.value| + (totrim - ix) == |children|
  {
    if ix >= totrim then Some(children)
    else if ix >= |children| then None
    else RemoveLive(children[..ix] + children[ix + 1..], ix + 1, totrim)
  }

  /** Three paragraphs and a limit of one: the trim is meant to keep the newest, but the
      loop as written removes the first and the third and keeps the middle one. */
  lemma LiveRemovalKeepsMiddleChild(p0: Para, p1: Para, p2: Para)
    requires p1 != p2
    ensures Trim(Frame([p0, p1, p2], false, 0, 0), 1, 0).paras == [p2]
    ensures RemoveLive([p0, p1, p2], 0, Children(false, [p0, p1, p2]) - 1) == Some([p1])
  {
    var cs := [p0, p1, p2];
    assert cs[..0] + cs[1..] == [p1, p2];
    var c1 := [p1, p2];
    assert c1[..1] + c1[2..] == [p1];
    assert RemoveLive(cs, 0, 2) == RemoveLive(c1, 1, 2) == RemoveLive([p1], 2, 2);
  }

  /** Four paragraphs and a limit of one: the third pass finds no child and throws, so
      nothing after the trim in accept_content runs. */
  lemma LiveRemovalThrows(p0: Para, p1: Para, p2: Para, p3: Para)
    ensures RemoveLive([p0, p1, p2, p3], 0, Children(false, [p0, p1, p2, p3]) - 1).None?
  {
    var cs := [p0, p1, p2, p3];
    assert cs[..0] + cs[1..] == [p1, p2, p3];
    var c1 := [p1, p2, p3];
    assert c1[..1] + c1[2..] == [p1, p3];
    assert RemoveLive(cs, 0, 3) == RemoveLive(c1, 1, 3) == RemoveLive([p1, p3], 2, 3);
  }

  /** A buffer window's part of accept_content: `clear` empties the frame (the mark too)
      and zeroes both paging cursors; then the text entries are added and the scrollback is
      trimmed. */
  function BufferUpdate(f: Frame, clear: bool, ts: seq<TextArg>, max: int, offtop: int): (r: Frame)
    requires max > 0
    ensures Children(r.prevmark, r.paras) <= max
    ensures clear ==> !r.prevmark
    ensures !clear && Children(f.prevmark, f.paras) + |ts| <= max ==>
      && r.prevmark == f.prevmark && |f.paras| <= |r.paras|
      && (f.paras != [] ==> r.paras[..|f.paras| - 1] == f.paras[..|f.paras| - 1])
  {
    var f1 := if clear then Frame([], false, 0, 0) else f;
    AddTextsKeepEarlier(f1.paras, ts);
    Trim(f1.(paras := AddTexts(f1.paras, ts)), max, offtop)
  }

  /** A whole `text` list leaves every paragraph before the last one alone. */
  lemma {:induction false} AddTextsKeepEarlier(paras: seq<Para>, ts: seq<TextArg>)
    ensures paras != [] ==> AddTexts(paras, ts)[..|paras| - 1] == paras[..|paras| - 1]
  {
    if ts != [] && paras != [] {
      var m := AddTexts(paras, ts[..|ts| - 1]);
      AddTextsUnfold(paras, ts);
      AddTextsKeepEarlier(paras, ts[..|ts| - 1]);
      AddTextShape(m, ts[|ts| - 1]);
      assert AddTexts(paras, ts)[..|m| - 1] == m[..|m| - 1];
      assert AddTexts(paras, ts)[..|paras| - 1] == AddTexts(paras, ts)[..|m| - 1][..|paras| - 1];
    }
  }

  /** After clearing, the window holds only the newest of the paragraphs the update created,
      and its runs are exactly the update's kept runs when nothing was trimmed. */
  lemma ClearThenAdd(f: Frame, ts: seq<TextArg>, max: int, offtop: int)
    requires max > 0
    ensures var r := BufferUpdate(f, true, ts, max, offtop);
      && !r.prevmark
      && (offtop >= 0 ==> r.topunseen == 0 && r.pagefrommark == 0)
      && (|AddTexts([], ts)| <= max ==> AllRuns(r.paras) == TextRuns(ts))
  {
    AddTextsKeepsRuns([], ts);
    assert AllRuns([]) == [];
  }

  // ---------------------------------------------------------------- grid windows

  /** Line `k` of a grid window exists when it is one of its GridLine rows. */
  predicate HasLine(lines: seq<seq<Run>>, k: int) {
    0 <= k < |lines|
  }

  /** The content of one line of a grid window after one entry of `lines`, or None when the
      line does not exist. Empty content blanks the line. */
  function ReplaceLine(lines: seq<seq<Run>>, la: LineArg): (r: Option<seq<seq<Run>>>)
    ensures r.Some? <==> HasLine(lines, la.line)
    ensures r.Some? ==> |r.value| == |lines| && r.value[la.line] == GridRuns(la.content)
    ensures r.Some? ==> forall k :: 0 <= k < |lines| && k != la.line ==> r.value[k] == lines[k]
  {
    if !HasLine(lines, la.line) then None
    else Some(lines[la.line := GridRuns(la.content)])
  }

  /** ReplaceLine as the code is written: for empty content it assigns the line element's
      `text` property, which a div does not have, so the old runs stay on screen. */
  function ReplaceLineAsWritten(lines: seq<seq<Run>>, la: LineArg): (r: Option<seq<seq<Run>>>)
    ensures r.Some? <==> HasLine(lines, la.line)
    ensures la.content != [] ==> r == ReplaceLine(lines, la)
    ensures la.content == [] && r.Some? ==> r.value == lines
  {
    if !HasLine(lines, la.line) then None
    else if la.content == [] then Some(lines)
    else Some(lines[la.line := GridRuns(la.content)])
  }

  /** A line holding text, sent empty content, keeps showing its old text. */
  lemma EmptyGridLineKeepsOldText()
    ensures ReplaceLineAsWritten(MazeLine, LineArg(0, [])) == Some(MazeLine)
    ensures ReplaceLineAsWritten(MazeLine, LineArg(0, [])).value[0] != GridRuns([])
    ensures ReplaceLine(MazeLine, LineArg(0, [])) == Some([[]])
  {
    assert GridRuns([]) == [];
    assert MazeLine[0 := []] == [[]];
  }

  /** A one-line grid holding some text. */
  const MazeLine: seq<seq<Run>> := [[TextRun("normal", "You are in a maze.", None)]]

  /** The lines after the whole `lines` list and the numbers of the nonexistent lines it
      named, in order; an entry for a nonexistent line is skipped. */
  function ReplaceLines(lines: seq<seq<Run>>, las: seq<LineArg>): (r: (seq<seq<Run>>, seq<int>))
    ensures |r.0| == |lines|
  {
    if las == [] then (lines, [])
    else
      var prev := ReplaceLines(lines, las[..|las| - 1]);
      var la := las[|las| - 1];
      match ReplaceLine(prev.0, la)
      case None => (prev.0, prev.1 + [la.line])
      case Some(l) => (l, prev.1)
  }

  /** A grid line named by some entry ends up with the content of one of the entries at or
      after it that name the line: the last entry naming a line wins. */
  lemma {:induction false} ReplaceLinesLastWins(lines: seq<seq<Run>>, las: seq<LineArg>, k: int, i: int)
    requires 0 <= k < |lines| && 0 <= i < |las| && las[i].line == k
    ensures exists j :: (i <= j < |las| && las[j].line == k &&
                         ReplaceLines(lines, las).0[k] == GridRuns(las[j].content))
  {
    var n := |las| - 1;
    var init := las[..n];
    if las[n].line == k {
      assert ReplaceLines(lines, las).0[k] == GridRuns(las[n].content);
    } else {
      assert i < n && init[i] == las[i];
      ReplaceLinesLastWins(lines, init, k, i);
      var j :| i <= j < |init| && init[j].line == k
             && ReplaceLines(lines, init).0[k] == GridRuns(init[j].content);
      assert las[j] == init[j];
    }
  }

  /** A grid line that no entry names keeps its runs. */
  lemma {:induction false} ReplaceLinesKeepsUnnamed(lines: seq<seq<Run>>, las: seq<LineArg>, k: int)
    requires 0 <= k < |lines|
    requires forall i :: 0 <= i < |las| ==> las[i].line != k
    ensures ReplaceLines(lines, las).0[k] == lines[k]
  {
    if las != [] {
      var init := las[..|las| - 1];
      assert forall i :: 0 <= i < |init| ==> init[i] == las[i];
      ReplaceLinesKeepsUnnamed(lines, init, k);
    }
  }

  /** The lines reported missing are exactly the entries' lines that do not exist, in the
      order of the entries. */
  lemma {:induction false} ReplaceLinesReportsMissing(lines: seq<seq<Run>>, las: seq<LineArg>)
    ensures ReplaceLines(lines, las).1 == MissingLines(lines, las)
  {
    if las != [] {
      ReplaceLinesReportsMissing(lines, las[..|las| - 1]);
    }
  }

  /** The line numbers of the entries that name no existing line. */
  function MissingLines(lines: seq<seq<Run>>, las: seq<LineArg>): (r: seq<int>)
    ensures forall x :: x in r ==> !HasLine(lines, x)
  {
    if las == [] then []
    else
      var la := las[|las| - 1];
      MissingLines(lines, las[..|las| - 1]) + (if HasLine(lines, la.line) then [] else [la.line])
  }

  /** The GridLine rows after a window arrangement gives the window `height` rows: new
      rows are added blank at the bottom, surplus rows are removed from the bottom. */
  function ResizeLines(lines: seq<seq<Run>>, height: nat): (r: seq<seq<Run>>)
    ensures |r| == height
    ensures forall k :: 0 <= k < |r| ==> r[k] == if k < |lines| then lines[k] else []
  {
    if height <= |lines| then lines[..height]
    else lines + seq(height - |lines|, _ => [])
  }
}
