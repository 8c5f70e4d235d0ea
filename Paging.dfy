/** Paging of buffer windows: the scroll pass at the end of an update, window_scroll, and
    readjust_paging_focus, which counts the windows still to be paged through and moves
    the paging focus and the input focus. */
module Paging {
  import opened GlkTypes
  import opened Ordering

  function Max(a: int, b: int): int {
    if a >= b then a else b
  }

  /** One buffer window after the scroll pass, given what the layout measures once its
      unseen content has been scrolled to the top: `seen`, the offset read to, and `below`,
      whether content remains below the viewport. */
  function ScrollWindow(w: Window, cfg: Config, seen: int, below: bool): (r: Window)
    ensures r.(needscroll := w.needscroll, needspaging := w.needspaging, topunseen := w.topunseen,
               pagefrommark := w.pagefrommark, moreprompt := w.moreprompt, prevmark := w.prevmark) == w
    ensures !(w.data.BufferData? && w.needscroll) ==> r == w
    ensures w.data.BufferData? && w.needscroll ==> !r.needscroll
    ensures w.needspaging ==> r == w.(needscroll := false) || r == w
    ensures r.topunseen >= w.topunseen
  {
    if !(w.data.BufferData? && w.needscroll) then w
    else
      var w1 := w.(needscroll := false);
      if w1.needspaging then w1
      else
        var w2 :=
          if !cfg.performPaging then w1.(needspaging := false)
          else w1.(pagefrommark := w1.topunseen, topunseen := Max(w1.topunseen, seen), needspaging := below);
        w2.(moreprompt := w2.needspaging, prevmark := w2.needspaging)
  }

  /** The scroll pass: every window independently. */
  function ScrollPass(ws: map<WinId, Window>, cfg: Config, layout: Layout): (r: map<WinId, Window>)
    ensures r.Keys == ws.Keys
    ensures forall k :: k in ws ==> r[k] == ScrollWindow(ws[k], cfg, layout.seenTo(k), layout.moreBelow(k))
  {
    map k | k in ws :: ScrollWindow(ws[k], cfg, layout.seenTo(k), layout.moreBelow(k))
  }

  /** A scrolled window that had no paging pending starts paging exactly when paging is on
      and its new content runs past the viewport; it then shows the more-prompt and a mark
      at the place the unseen content began, and reading resumes from there. A window
      already being paged is left to the player. */
  lemma ScrollWindowPages(w: Window, cfg: Config, seen: int, below: bool)
    requires w.data.BufferData? && w.needscroll
    ensures var r := ScrollWindow(w, cfg, seen, below);
      && (w.needspaging ==> r.needspaging && r.moreprompt == w.moreprompt && r.topunseen == w.topunseen)
      && (!w.needspaging ==>
            && (r.needspaging <==> cfg.performPaging && below)
            && r.moreprompt == r.needspaging && r.prevmark == r.needspaging
            && (cfg.performPaging ==> r.pagefrommark == w.topunseen && r.topunseen == Max(w.topunseen, seen)))
  {
  }

  /** With paging off, the scroll pass never starts paging: no window pages afterwards
      unless it paged before. */
  lemma PagingOffNeverPages(ws: map<WinId, Window>, cfg: Config, layout: Layout)
    requires !cfg.performPaging
    ensures forall k :: k in ws && ScrollPass(ws, cfg, layout)[k].needspaging ==> ws[k].needspaging
  {
  }

  /** The more-prompt is shown exactly while a window has paging pending. */
  ghost predicate PromptTracksPaging(ws: map<WinId, Window>) {
    forall k :: k in ws ==> ws[k].moreprompt == ws[k].needspaging
  }

  lemma ScrollPassKeepsPrompt(ws: map<WinId, Window>, cfg: Config, layout: Layout)
    requires PromptTracksPaging(ws)
    ensures PromptTracksPaging(ScrollPass(ws, cfg, layout))
  {
    var r := ScrollPass(ws, cfg, layout);
    forall k | k in r ensures r[k].moreprompt == r[k].needspaging {
      var w := ws[k];
      if w.data.BufferData? && w.needscroll {
        ScrollWindowPages(w, cfg, layout.seenTo(k), layout.moreBelow(k));
      }
    }
  }

  function PagingWindows(ws: map<WinId, Window>): set<WinId> {
    set k | k in ws && ws[k].needspaging
  }

  function InputWindows(ws: map<WinId, Window>): set<WinId> {
    set k | k in ws && ws[k].input.Some?
  }

  /** windows_paging_count: the windows with paging pending, or none when paging is off. */
  function PagingCount(ws: map<WinId, Window>, cfg: Config): (n: nat)
    ensures n == 0 <==> !cfg.performPaging || PagingWindows(ws) == {}
    ensures n <= |ws|
  {
    if cfg.performPaging then
      assert PagingWindows(ws) <= ws.Keys;
      assert |PagingWindows(ws)| <= |ws.Keys| by { SubsetCard(PagingWindows(ws), ws.Keys); }
      |PagingWindows(ws)|
    else 0
  }

  lemma {:induction false} SubsetCard(a: set<WinId>, b: set<WinId>)
    requires a <= b
    ensures |a| <= |b|
    decreases |b|
  {
    if b != {} {
      var x :| x in b;
      SubsetCard(a - {x}, b - {x});
    }
  }

  /** The window the input focus goes to: the last focused one when it still wants input,
      else the first that wants input, and none while the display is disabled or paging
      is pending. */
  function FocusChoice(ws: map<WinId, Window>, disabled: bool, pagingCount: int, lastFocus: int): (f: int)
    ensures f != 0 ==> f in ws && ws[f].input.Some? && !disabled && pagingCount == 0
    ensures f == 0 <==> disabled || pagingCount != 0 || InputWindows(ws) == {}
    ensures f != 0 && lastFocus in InputWindows(ws) ==> f == lastFocus
  {
    if !disabled && pagingCount == 0 then
      PreferChoosesCandidate(InputWindows(ws), lastFocus);
      Prefer(InputWindows(ws), lastFocus)
    else 0
  }

  /** The window paging keys go to: the last one paged when it still pages, else the first
      that pages. */
  function PagingChoice(ws: map<WinId, Window>, cfg: Config, lastPaging: int): (p: int)
    ensures p != 0 <==> PagingCount(ws, cfg) != 0
    ensures p != 0 ==> p in ws && ws[p].needspaging
    ensures p != 0 && lastPaging in PagingWindows(ws) ==> p == lastPaging
  {
    if cfg.performPaging then
      PreferChoosesCandidate(PagingWindows(ws), lastPaging);
      Prefer(PagingWindows(ws), lastPaging)
    else 0
  }

  /** readjust_paging_focus(canfocus). */
  function Readjust(s: St, cfg: Config, canfocus: bool): (r: St)
    ensures r.windowsPagingCount == PagingCount(s.windows, cfg)
    ensures r.windowsPagingCount != 0 ==> r.lastKnownPaging in PagingWindows(s.windows)
    ensures r.windowsPagingCount != 0 && s.lastKnownPaging in PagingWindows(s.windows) ==>
      r.lastKnownPaging == s.lastKnownPaging
    ensures r.windowsPagingCount == 0 ==> r.lastKnownPaging == s.lastKnownPaging
    ensures !(canfocus && r.windowsPagingCount == 0 && !s.disabled && InputWindows(s.windows) != {}) ==>
      r.focusTarget == s.focusTarget
    ensures canfocus && r.windowsPagingCount == 0 && !s.disabled && InputWindows(s.windows) != {} ==>
      && r.focusTarget.Some? && r.focusTarget.value in InputWindows(s.windows)
      && (s.lastKnownFocus in InputWindows(s.windows) ==> r.focusTarget == Some(s.lastKnownFocus))
    ensures r.(windowsPagingCount := s.windowsPagingCount, lastKnownPaging := s.lastKnownPaging,
               focusTarget := s.focusTarget) == s
  {
    var count := PagingCount(s.windows, cfg);
    var pageable := PagingChoice(s.windows, cfg, s.lastKnownPaging);
    var s1 := s.(windowsPagingCount := count,
                 lastKnownPaging := if count != 0 then pageable else s.lastKnownPaging);
    if count == 0 && canfocus then
      var f := FocusChoice(s1.windows, s1.disabled, count, s1.lastKnownFocus);
      if f != 0 then s1.(focusTarget := Some(f)) else s1
    else s1
  }

  /** The scrolled window itself: its reading position moves up to what is now visible,
      and when nothing remains below the viewport its paging ends and its more-prompt
      goes (the mark of the previous page stays). */
  function Scrolled(w: Window, seen: int, below: bool): (r: Window)
    ensures r.topunseen == Max(w.topunseen, seen) && r.topunseen >= w.topunseen
    ensures r.needspaging == (w.needspaging && below)
    ensures r.moreprompt == (if w.needspaging && !below then false else w.moreprompt)
    ensures r.(topunseen := w.topunseen, needspaging := w.needspaging, moreprompt := w.moreprompt) == w
  {
    var w1 := w.(topunseen := Max(w.topunseen, seen));
    if w.needspaging && !below then w1.(needspaging := false, moreprompt := false) else w1
  }

  /** window_scroll after the player's scrolling (or a paging key): the window is
      scrolled, and when its paging has just ended, paging and focus are readjusted. */
  function WindowScroll(s: St, cfg: Config, id: WinId, layout: Layout): (r: St)
    requires id in s.windows
    ensures r.windows == s.windows[id := Scrolled(s.windows[id], layout.seenTo(id), layout.moreBelow(id))]
    ensures s.windows[id].needspaging && !layout.moreBelow(id) ==> r == Readjust(s.(windows := r.windows), cfg, true)
    ensures !(s.windows[id].needspaging && !layout.moreBelow(id)) ==> r == s.(windows := r.windows)
  {
    var w := s.windows[id];
    var s1 := s.(windows := s.windows[id := Scrolled(w, layout.seenTo(id), layout.moreBelow(id))]);
    if w.needspaging && !layout.moreBelow(id) then Readjust(s1, cfg, true) else s1
  }

  /** window_scroll keeps the more-prompt in step with paging. */
  lemma WindowScrollKeepsPrompt(s: St, cfg: Config, id: WinId, layout: Layout)
    requires id in s.windows && PromptTracksPaging(s.windows)
    ensures PromptTracksPaging(WindowScroll(s, cfg, id, layout).windows)
  {
    var r := WindowScroll(s, cfg, id, layout);
    forall k | k in r.windows ensures r.windows[k].moreprompt == r.windows[k].needspaging {
      if k != id {
        assert r.windows[k] == s.windows[k];
      }
    }
  }

  /** When the player pages through the last window with content pending, and the display
      is enabled, the input focus returns to a window that wants input, preferring the one
      that last had it. */
  lemma LastPageReturnsFocus(s: St, cfg: Config, id: WinId, layout: Layout)
    requires id in s.windows && s.windows[id].needspaging && !layout.moreBelow(id)
    requires PagingWindows(s.windows) == {id} && !s.disabled && InputWindows(s.windows) != {}
    ensures var r := WindowScroll(s, cfg, id, layout);
      && r.windowsPagingCount == 0
      && r.focusTarget.Some? && r.focusTarget.value in InputWindows(s.windows)
      && (s.lastKnownFocus in InputWindows(s.windows) ==> r.focusTarget == Some(s.lastKnownFocus))
  {
    var r := WindowScroll(s, cfg, id, layout);
    var t := s.(windows := r.windows);
    assert PagingWindows(t.windows) == {} by {
      forall k | k in t.windows ensures !t.windows[k].needspaging {
        if k != id {
          assert k !in PagingWindows(s.windows);
        }
      }
    }
    assert InputWindows(t.windows) == InputWindows(s.windows) by {
      forall k | k in s.windows ensures t.windows[k].input == s.windows[k].input {
      }
    }
  }

  /** Paging keys always go to a window with paging pending, and the count is zero
      whenever paging is switched off. */
  lemma PagingFocusIsPaging(s: St, cfg: Config, canfocus: bool)
    ensures var r := Readjust(s, cfg, canfocus);
      && (!cfg.performPaging ==> r.windowsPagingCount == 0 && r.lastKnownPaging == s.lastKnownPaging)
      && (r.windowsPagingCount != 0 ==> r.lastKnownPaging in s.windows && s.windows[r.lastKnownPaging].needspaging)
  {
  }
}
