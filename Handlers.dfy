/** The browser-side event handlers: keys in input fields and at document level, mouse
    clicks and focus changes, scrolling, hyperlinks, the three timers, deferred calls, and
    the calls the embedding page makes. Each turns into at most one event for the game. */
module Handlers {
  import opened GlkTypes
  import opened Events
  import opened Paging
  import opened DrawQueue
  import opened History
  import opened KeyCodes

  // ---------------------------------------------------------------- line input

  /** submit_line_input: the line joins the window's history (unless blank or a repeat),
      then a line event is offered to the gate. */
  function SubmitLine(s: St, id: WinId, val: string, term: Option<string>): (r: St)
    requires id in s.windows
    ensures r.windows.Keys == s.windows.Keys
    ensures r.windows[id] == s.windows[id].(history := Remember(s.windows[id].history, val))
    ensures forall k :: k in s.windows && k != id ==> r.windows[k] == s.windows[k]
    ensures r.generation == s.generation && r.disabled == s.disabled
  {
    var w := s.windows[id];
    Send(s.(windows := s.windows[id := w.(history := Remember(w.history, val))]), LineReq(id, val, term))
  }

  /** A submitted line is remembered in the history, and a line event carrying it goes
      out exactly when the gate is open; the event does not report the submitting
      window's own text as partial input. */
  lemma SubmitLineSends(s: St, id: WinId, val: string, term: Option<string>)
    requires id in s.windows
    ensures var r := SubmitLine(s, id, val, term);
      && (Emits(s, LineReq(id, val, term)) ==>
            && |r.sent| == |s.sent| + 1 && r.sent[..|s.sent|] == s.sent
            && r.sent[|s.sent|].req == LineReq(id, val, term)
            && r.sent[|s.sent|].gen == s.generation
            && id !in r.sent[|s.sent|].partial)
      && (!Emits(s, LineReq(id, val, term)) ==> r.sent == s.sent)
  {
    var w := s.windows[id];
    var s1 := s.(windows := s.windows[id := w.(history := Remember(w.history, val))]);
    assert Emits(s1, LineReq(id, val, term)) == Emits(s, LineReq(id, val, term));
  }

  /** The cursor the history keys work on: the history position and the field's text. */
  function CursorOf(w: Window): Cursor
    requires w.input.Some?
  {
    Cursor(w.historypos, w.input.value.value)
  }

  function WithCursor(w: Window, c: Cursor): Window
    requires w.input.Some?
  {
    w.(historypos := c.pos, input := Some(w.input.value.(value := c.text)))
  }

  /** evhan_input_keydown: up and down walk the history; a terminator key the window
      accepts submits the line with that terminator; anything else is left alone. */
  function InputKeydown(s: St, id: WinId, keycode: int): (r: St)
    ensures keycode == 0 || id !in s.windows || s.windows[id].input.None? ==> r == s
    ensures keycode == Up || keycode == Down ==> r.sent == s.sent
  {
    if keycode == 0 || id !in s.windows || s.windows[id].input.None? then s
    else
      var w := s.windows[id];
      if keycode == Up || keycode == Down then
        var c := if keycode == Up then HistoryUp(w.history, CursorOf(w)) else HistoryDown(w.history, CursorOf(w));
        s.(windows := s.windows[id := WithCursor(w, c)])
      else
        var term := TerminatorNameOf(keycode);
        if term.Some? && term.value in w.terminators then
          SubmitLine(s, id, w.input.value.value, term)
        else s
  }

  /** The history keys keep the position within the history and show its entry (or an
      empty field past the newest one). */
  lemma HistoryKeysStayInRange(s: St, id: WinId, keycode: int)
    requires id in s.windows && s.windows[id].input.Some?
    requires keycode == Up || keycode == Down
    requires 0 <= s.windows[id].historypos <= |s.windows[id].history|
    ensures var w := InputKeydown(s, id, keycode).windows[id];
      && 0 <= w.historypos <= |w.history| && w.input.Some?
      && (w.historypos != s.windows[id].historypos ==> w.input.value.value == Shown(w.history, w.historypos))
      && w.history == s.windows[id].history
  {
    var w := s.windows[id];
    var c := if keycode == Up then HistoryUp(w.history, CursorOf(w)) else HistoryDown(w.history, CursorOf(w));
    assert InputKeydown(s, id, keycode).windows[id] == WithCursor(w, c);
    CursorStaysInRange(w.history, CursorOf(w));
  }

  /** A terminator key submits the typed line with the key's name exactly when the
      window's request lists it. */
  lemma TerminatorSubmits(s: St, id: WinId, keycode: int)
    requires id in s.windows && s.windows[id].input.Some? && keycode != Up && keycode != Down
    requires TerminatorNameOf(keycode).Some?
    ensures var t := TerminatorNameOf(keycode).value;
      InputKeydown(s, id, keycode) ==
        if t in s.windows[id].terminators
        then SubmitLine(s, id, s.windows[id].input.value.value, Some(t)) else s
  {
  }

  /** evhan_input_keypress: Return submits the field's text, with no terminator. */
  function InputKeypress(s: St, id: WinId, keycode: int): (r: St)
    ensures keycode != Return || id !in s.windows || s.windows[id].input.None? ==> r == s
    ensures keycode == Return && id in s.windows && s.windows[id].input.Some? ==>
      r == SubmitLine(s, id, s.windows[id].input.value.value, None)
  {
    if keycode == Return && id in s.windows && s.windows[id].input.Some?
    then SubmitLine(s, id, s.windows[id].input.value.value, None)
    else s
  }

  // ---------------------------------------------------------------- char input

  /** evhan_input_char_keydown: a key with a name in the key table sends a char event with
      that name. Return has a name in the table too, so a Return keydown is sent from here
      as "return". */
  function CharKeydown(s: St, id: WinId, keycode: int): (r: St)
    ensures keycode == 0 || KeyNameOf(keycode).None? || id !in s.windows || s.windows[id].input.None? ==> r == s
    ensures keycode != 0 && KeyNameOf(keycode).Some? && id in s.windows && s.windows[id].input.Some? ==>
      r == Send(s, CharReq(id, KeyNameOf(keycode).value))
  {
    if keycode != 0 && KeyNameOf(keycode).Some? && id in s.windows && s.windows[id].input.Some?
    then Send(s, CharReq(id, KeyNameOf(keycode).value))
    else s
  }

  /** evhan_input_char_keypress: every other key sends its character (Return as
      'return'). */
  function CharKeypress(s: St, id: WinId, keycode: KeyValue): (r: St)
    ensures keycode == 0 || id !in s.windows || s.windows[id].input.None? ==> r == s
  {
    if keycode != 0 && id in s.windows && s.windows[id].input.Some?
    then Send(s, CharReq(id, CharKeypressName(keycode)))
    else s
  }

  /** A char event names its key so that the key can be read back from it. */
  lemma CharEventNamesKey(s: St, id: WinId, keycode: KeyValue)
    requires keycode != 0 && id in s.windows && s.windows[id].input.Some?
    requires Emits(s, CharReq(id, CharKeypressName(keycode)))
    ensures var r := CharKeypress(s, id, keycode);
      && |r.sent| == |s.sent| + 1
      && r.sent[|s.sent|].req.CharReq?
      && CodeOfCharName(r.sent[|s.sent|].req.value) == Some(keycode)
  {
    CharKeypressRoundTrip(keycode);
  }

  // ---------------------------------------------------------------- document keys

  /** A key the paging focus takes: a printable one or Return. */
  predicate PagingKey(keycode: int)
    ensures keycode == Return || keycode == 32 ==> PagingKey(keycode)
    ensures PagingKey(keycode) ==> keycode == Return || keycode >= 32
  {
    (32 <= keycode <= 126) || keycode == Return
  }

  /** evhan_doc_keypress: a key pressed outside any input field. It is ignored while the
      display is disabled, with a modifier held, or when aimed at an input-like element.
      While paging is pending in a known window, a printable key pages that window and
      other keys are left to the browser. Otherwise the key goes to the window that last
      had the focus, if it still has an input element: it gets the focus back; in line
      input Return submits and a printable key is typed into the field; in char input the
      key is sent. */
  function DocKeypress(s: St, cfg: Config, layout: Layout, keycode: KeyValue, modified: bool, inInput: bool): (r: St)
    ensures s.disabled || modified || inInput ==> r == s
  {
    if s.disabled || modified || inInput then s
    else if s.windowsPagingCount != 0 && s.lastKnownPaging > 0 && s.lastKnownPaging in s.windows then
      if PagingKey(keycode) then WindowScroll(s, cfg, s.lastKnownPaging, layout) else s
    else if !(s.lastKnownFocus > 0 && s.lastKnownFocus in s.windows) then s
    else
      var id: WinId := s.lastKnownFocus;
      var w := s.windows[id];
      if w.input.None? then s
      else
        var s1 := s.(focusTarget := Some(id));
        if w.input.value.req.kind == Some(LineKind) then
          if keycode == Return then SubmitLine(s1, id, w.input.value.value, None)
          else if keycode >= 32 then
            s1.(windows := s1.windows[id := w.(input := Some(w.input.value.(value := w.input.value.value + FromCharCode(keycode))))])
          else s1
        else
          var name := DocCharName(keycode);
          if name.Some? then Send(s1, CharReq(id, name.value)) else s1
  }

  /** While paging is pending, keys page: they never reach the game, never change any
      window's typed text or history, and a non-printable key changes nothing at all. */
  lemma PagingKeysOnlyPage(s: St, cfg: Config, layout: Layout, keycode: KeyValue)
    requires !s.disabled && s.windowsPagingCount != 0 && s.lastKnownPaging > 0 && s.lastKnownPaging in s.windows
    ensures var r := DocKeypress(s, cfg, layout, keycode, false, false);
      && r.sent == s.sent
      && r.windows.Keys == s.windows.Keys
      && (forall k :: k in s.windows ==> r.windows[k].input == s.windows[k].input && r.windows[k].history == s.windows[k].history)
      && (!PagingKey(keycode) ==> r == s)
  {
  }

  /** In line input a printable key reaches the field of the window that last had the
      focus, appended to its text, and nothing goes to the game. */
  lemma DocKeyTypesIntoField(s: St, cfg: Config, layout: Layout, keycode: KeyValue)
    requires !s.disabled && !(s.windowsPagingCount != 0 && s.lastKnownPaging > 0 && s.lastKnownPaging in s.windows)
    requires s.lastKnownFocus > 0 && s.lastKnownFocus in s.windows
    requires s.windows[s.lastKnownFocus].HasLineInput() && keycode >= 32 && keycode != Return
    ensures var r := DocKeypress(s, cfg, layout, keycode, false, false);
      var w := s.windows[s.lastKnownFocus];
      && r.sent == s.sent && r.focusTarget == Some(s.lastKnownFocus)
      && r.windows[s.lastKnownFocus].input.Some?
      && r.windows[s.lastKnownFocus].input.value.value == w.input.value.value + [keycode as char]
  {
  }

  /** In char input a key goes to the game under its document-level name, which reads
      back as the key; the key value 0 sends nothing. The window gets the focus back and no
      window changes. */
  lemma DocKeySendsChar(s: St, cfg: Config, layout: Layout, keycode: KeyValue)
    requires !s.disabled && !(s.windowsPagingCount != 0 && s.lastKnownPaging > 0 && s.lastKnownPaging in s.windows)
    requires s.lastKnownFocus > 0 && s.lastKnownFocus in s.windows
    requires s.windows[s.lastKnownFocus].input.Some? && !s.windows[s.lastKnownFocus].HasLineInput()
    ensures var r := DocKeypress(s, cfg, layout, keycode, false, false);
      && r.windows == s.windows && r.focusTarget == Some(s.lastKnownFocus)
      && (keycode == 0 ==> r.sent == s.sent)
      && (keycode != 0 && Emits(s, CharReq(s.lastKnownFocus, DocCharName(keycode).value)) ==>
            && |r.sent| == |s.sent| + 1
            && r.sent[|s.sent|].req == CharReq(s.lastKnownFocus, DocCharName(keycode).value)
            && CodeOfCharName(r.sent[|s.sent|].req.value) == Some(keycode))
  {
    if keycode != 0 {
      DocCharNameRoundTrip(keycode);
    }
  }

  /** In line input Return submits the field's text with no terminator, exactly as the
      field's own Return does, after giving the window the focus back. */
  lemma DocReturnSubmits(s: St, cfg: Config, layout: Layout)
    requires !s.disabled && !(s.windowsPagingCount != 0 && s.lastKnownPaging > 0 && s.lastKnownPaging in s.windows)
    requires s.lastKnownFocus > 0 && s.lastKnownFocus in s.windows
    requires s.windows[s.lastKnownFocus].HasLineInput()
    ensures var id := s.lastKnownFocus;
      DocKeypress(s, cfg, layout, Return, false, false) ==
        InputKeypress(s.(focusTarget := Some(id)), id, Return)
  {
  }

  // ---------------------------------------------------------------- mouse and focus

  /** evhan_window_mousedown: a click in a window makes it the focus hint when it has an
      input element, and the paging hint when it pages (a window with input and no
      paging clears the paging hint). */
  function WindowMousedown(s: St, id: WinId): (r: St)
    ensures id !in s.windows ==> r == s
    ensures r.(lastKnownFocus := s.lastKnownFocus, lastKnownPaging := s.lastKnownPaging) == s
    ensures id in s.windows ==>
      && r.lastKnownFocus == (if s.windows[id].input.Some? then id else s.lastKnownFocus)
      && r.lastKnownPaging == (if s.windows[id].needspaging then id
                               else if s.windows[id].input.Some? then 0 else s.lastKnownPaging)
  {
    if id !in s.windows then s
    else
      var w := s.windows[id];
      s.(lastKnownFocus := if w.input.Some? then id else s.lastKnownFocus,
         lastKnownPaging := if w.needspaging then id else if w.input.Some? then 0 else s.lastKnownPaging)
  }

  /** The hints always name a window fit for them, or are cleared: a focus hint set by a
      click names a window with input, a paging hint a window that pages. */
  lemma MousedownHintsFit(s: St, id: WinId)
    requires id in s.windows
    ensures var r := WindowMousedown(s, id);
      && (r.lastKnownFocus != s.lastKnownFocus ==> r.lastKnownFocus in InputWindows(s.windows))
      && (r.lastKnownPaging != s.lastKnownPaging && r.lastKnownPaging != 0 ==>
            r.lastKnownPaging in PagingWindows(s.windows))
  {
  }

  function Min(a: int, b: int): int {
    if a <= b then a else b
  }

  /** The position a click reports, from the measured one: `x` and `y` are the character
      cell in a grid (used only when its first line exists) or the pixel offset on a canvas.
      It is clamped to the window's extent and then to 0. */
  function MousePosition(d: Payload, x: int, y: int): (p: (int, int))
    requires !d.BufferData?
    ensures p.0 >= 0 && p.1 >= 0
    ensures d.GridData? ==> p.0 <= Max(d.gridwidth - 1, 0) && p.1 <= Max(|d.lines| - 1, 0)
    ensures d.GridData? && |d.lines| > 0 && 0 <= x < d.gridwidth && 0 <= y < |d.lines| ==> p == (x, y)
    ensures d.GridData? && |d.lines| == 0 ==> p == (0, 0)
    ensures d.GraphicsData? ==> p.0 <= Max(d.graphwidth - 1, 0) && p.1 <= Max(d.graphheight - 1, 0)
    ensures d.GraphicsData? && 0 <= x < d.graphwidth && 0 <= y < d.graphheight ==> p == (x, y)
  {
    match d
    case GridData(lines, gw) =>
      var x0 := if |lines| > 0 then x else 0;
      var y0 := if |lines| > 0 then y else 0;
      (Max(Min(x0, gw - 1), 0), Max(Min(y0, |lines| - 1), 0))
    case GraphicsData(gw, gh, _, _) => (Max(Min(x, gw - 1), 0), Max(Min(y, gh - 1), 0))
  }

  /** evhan_input_mouse_click: a left click where a mouse request is open sends the
      clicked position; a buffer window sends nothing. */
  function MouseClick(s: St, id: WinId, button: int, x: int, y: int): (r: St)
    ensures id !in s.windows || !s.windows[id].reqmouse || button != 0 || s.windows[id].data.BufferData? ==> r == s
    ensures id in s.windows && s.windows[id].reqmouse && button == 0 && !s.windows[id].data.BufferData? ==>
      r == Send(s, MouseReq(id, MousePosition(s.windows[id].data, x, y).0, MousePosition(s.windows[id].data, x, y).1))
  {
    if id !in s.windows || !s.windows[id].reqmouse || button != 0 || s.windows[id].data.BufferData? then s
    else
      var p := MousePosition(s.windows[id].data, x, y);
      Send(s, MouseReq(id, p.0, p.1))
  }

  /** evhan_input_focus: an input field of a known window got the focus; it becomes both
      the focus and the paging hint. */
  function InputFocus(s: St, id: WinId): (r: St)
    ensures id !in s.windows ==> r == s
    ensures id in s.windows ==> r == s.(currentlyFocused := true, lastKnownFocus := id, lastKnownPaging := id)
  {
    if id in s.windows then s.(currentlyFocused := true, lastKnownFocus := id, lastKnownPaging := id) else s
  }

  /** evhan_input_blur. */
  function InputBlur(s: St, id: WinId): (r: St)
    ensures id !in s.windows ==> r == s
    ensures id in s.windows ==> r == s.(currentlyFocused := false)
  {
    if id in s.windows then s.(currentlyFocused := false) else s
  }

  /** Focus then blur of the same field leaves the hints on it and nothing focused. */
  lemma FocusThenBlur(s: St, id: WinId)
    requires id in s.windows
    ensures var r := InputBlur(InputFocus(s, id), id);
      !r.currentlyFocused && r.lastKnownFocus == id && r.lastKnownPaging == id
  {
  }

  /** evhan_window_scroll: the player scrolled a window that pages. */
  function WindowScrollEvent(s: St, cfg: Config, layout: Layout, id: WinId): (r: St)
    ensures !(id in s.windows && s.windows[id].needspaging) ==> r == s
  {
    if id in s.windows && s.windows[id].needspaging then WindowScroll(s, cfg, id, layout) else s
  }

  /** A hyperlink click, honoured only while the window asks for hyperlink input. */
  function HyperlinkClick(s: St, id: WinId, link: int): (r: St)
    ensures !(id in s.windows && s.windows[id].reqhyperlink) ==> r == s
    ensures id in s.windows && s.windows[id].reqhyperlink ==> r == Send(s, HyperlinkReq(id, link))
  {
    if id in s.windows && s.windows[id].reqhyperlink then Send(s, HyperlinkReq(id, link)) else s
  }

  // ---------------------------------------------------------------- timers and deferred calls

  /** evhan_timer_event: the timer re-arms itself with the same interval, and sends a
      timer event unless the display is disabled. A call after cancellation does nothing. */
  function TimerFires(s: St): (r: St)
    ensures r.requestTimer == s.requestTimer
    ensures s.requestTimer.None? || s.disabled ==> r == s
    ensures s.requestTimer.Some? ==> r == Send(s, TimerReq)
  {
    if s.requestTimer.None? || s.disabled then s else Send(s, TimerReq)
  }

  /** retry_update: the retry timer is spent and a refresh goes out, which the gate lets
      through even for an answered generation. */
  function RetryFires(s: St): (r: St)
    ensures !s.retryPending ==> r == s
    ensures s.retryPending ==> !r.retryPending && r == Send(s.(retryPending := false), RefreshReq)
  {
    if s.retryPending then Send(s.(retryPending := false), RefreshReq) else s
  }

  lemma RetrySendsRefresh(s: St)
    requires s.retryPending && !s.disabled
    ensures var r := RetryFires(s);
      && |r.sent| == |s.sent| + 1 && r.sent[|s.sent|].req == RefreshReq && r.sent[|s.sent|].gen == s.generation
  {
  }

  /** evhan_doc_resize: a resize (re)starts the one debounce timer. */
  function DocResize(s: St): (r: St)
    ensures r == s.(resizePending := true)
  {
    s.(resizePending := true)
  }

  /** The metrics metrics_match is meant to compare. */
  const MatchedMetrics: seq<string> :=
    ["width", "height", "gridcharwidth", "gridcharheight", "buffercharwidth", "buffercharheight"]

  /** A property read on a metrics object; a name it does not have reads as undefined. */
  function Field(m: Metrics, name: string): Option<int> {
    if name == "width" then Some(m.width)
    else if name == "height" then Some(m.height)
    else if name == "gridcharwidth" then Some(m.gridcharwidth)
    else if name == "gridcharheight" then Some(m.gridcharheight)
    else if name == "buffercharwidth" then Some(m.buffercharwidth)
    else if name == "buffercharheight" then Some(m.buffercharheight)
    else if name == "gridmarginx" then Some(m.gridmarginx)
    else if name == "gridmarginy" then Some(m.gridmarginy)
    else if name == "buffermarginx" then Some(m.buffermarginx)
    else if name == "buffermarginy" then Some(m.buffermarginy)
    else if name == "graphicsmarginx" then Some(m.graphicsmarginx)
    else if name == "graphicsmarginy" then Some(m.graphicsmarginy)
    else None
  }

  /** The loop of metrics_match over `names`: with `literal`, each pass reads the property
      literally named "metric" (as written); otherwise the property the name says. */
  function FieldsMatch(m1: Metrics, m2: Metrics, names: seq<string>, literal: bool): bool {
    if names == [] then true
    else
      var key := if literal then "metric" else names[0];
      if Field(m1, key) != Field(m2, key) then false else FieldsMatch(m1, m2, names[1..], literal)
  }

  /** Two metrics agree on the window size and the character sizes. */
  predicate SameSize(m1: Metrics, m2: Metrics) {
    && m1.width == m2.width && m1.height == m2.height
    && m1.gridcharwidth == m2.gridcharwidth && m1.gridcharheight == m2.gridcharheight
    && m1.buffercharwidth == m2.buffercharwidth && m1.buffercharheight == m2.buffercharheight
  }

  /** metrics_match as written: every pass compares two undefined values, so any two
      metrics match, even ones of different widths. */
  function MetricsMatchAsWritten(m1: Metrics, m2: Metrics): (b: bool)
    ensures b
  {
    LiteralKeyAlwaysMatches(m1, m2, MatchedMetrics);
    FieldsMatch(m1, m2, MatchedMetrics, true)
  }

  /** metrics_match as intended: metrics match exactly when they agree on size. */
  function MetricsMatch(m1: Metrics, m2: Metrics): (b: bool)
    ensures b <==> SameSize(m1, m2)
  {
    MatchedNamesCompareSize(m1, m2);
    FieldsMatch(m1, m2, MatchedMetrics, false)
  }

  lemma {:induction false} LiteralKeyAlwaysMatches(m1: Metrics, m2: Metrics, names: seq<string>)
    ensures FieldsMatch(m1, m2, names, true)
  {
    if names != [] {
      LiteralKeyAlwaysMatches(m1, m2, names[1..]);
    }
  }

  /** One pass of the loop, for the name at the front. */
  lemma FieldsMatchFront(m1: Metrics, m2: Metrics, names: seq<string>)
    requires names != []
    ensures FieldsMatch(m1, m2, names, false) ==
      (Field(m1, names[0]) == Field(m2, names[0]) && FieldsMatch(m1, m2, names[1..], false))
  {
  }

  /** The loop over the names metrics_match lists compares exactly the window size and the
      character sizes. */
  lemma MatchedNamesCompareSize(m1: Metrics, m2: Metrics)
    ensures FieldsMatch(m1, m2, MatchedMetrics, false) <==> SameSize(m1, m2)
  {
    var n0 := MatchedMetrics;
    var n1 := n0[1..];
    var n2 := n1[1..];
    var n3 := n2[1..];
    var n4 := n3[1..];
    var n5 := n4[1..];
    assert n1 == ["height", "gridcharwidth", "gridcharheight", "buffercharwidth", "buffercharheight"];
    assert n2 == ["gridcharwidth", "gridcharheight", "buffercharwidth", "buffercharheight"];
    assert n3 == ["gridcharheight", "buffercharwidth", "buffercharheight"];
    assert n4 == ["buffercharwidth", "buffercharheight"];
    assert n5 == ["buffercharheight"];
    FieldsMatchFront(m1, m2, n0);
    FieldsMatchFront(m1, m2, n1);
    FieldsMatchFront(m1, m2, n2);
    FieldsMatchFront(m1, m2, n3);
    FieldsMatchFront(m1, m2, n4);
    FieldsMatchFront(m1, m2, n5);
    assert n5[1..] == [];
  }

  /** doc_resize_real, the debounced resize, with the comparison it uses: while disabled it
      waits again; a new size is recorded and reported with an arrange event; the same
      size is dropped. */
  function ResizeWith(s: St, m: Metrics, same: bool): (r: St)
    ensures !s.resizePending ==> r == s
    ensures s.resizePending && s.disabled ==> r == s
    ensures s.resizePending && !s.disabled && same ==> r == s.(resizePending := false)
    ensures s.resizePending && !s.disabled && !same ==>
      r == Send(s.(resizePending := false, metrics := m), ArrangeReq(m))
  {
    if !s.resizePending then s
    else if s.disabled then s
    else if same then s.(resizePending := false)
    else Send(s.(resizePending := false, metrics := m), ArrangeReq(m))
  }

  /** The debounced resize as intended: the new metrics count as the same size exactly
      when they agree on size with the recorded ones. */
  function ResizeFires(s: St, m: Metrics): (r: St)
    ensures r == ResizeWith(s, m, SameSize(m, s.metrics))
  {
    ResizeWith(s, m, MetricsMatch(m, s.metrics))
  }

  /** The debounced resize as written: every new size counts as the same size. */
  function ResizeFiresAsWritten(s: St, m: Metrics): (r: St)
    ensures r == ResizeWith(s, m, true)
  {
    ResizeWith(s, m, MetricsMatchAsWritten(m, s.metrics))
  }

  /** As written, a resize never reaches the game, whatever the new size. */
  lemma ResizeAsWrittenNeverArranges(s: St, m: Metrics)
    ensures ResizeFiresAsWritten(s, m).sent == s.sent
    ensures ResizeFiresAsWritten(s, m).metrics == s.metrics
  {
  }

  /** As intended, a resize to a new size is recorded and reported to the game exactly when
      the gate is open; a resize to the same size is dropped. */
  lemma ResizeArrangesOnNewSize(s: St, m: Metrics)
    requires s.resizePending && !s.disabled
    ensures var r := ResizeFires(s, m);
      && (SameSize(m, s.metrics) ==> r.sent == s.sent && r.metrics == s.metrics)
      && (!SameSize(m, s.metrics) ==>
            && r.metrics == m
            && (Emits(s, ArrangeReq(m)) ==> |r.sent| == |s.sent| + 1 && r.sent[|s.sent|].req == ArrangeReq(m)))
  {
  }

  /** The redraw a canvas resize deferred: sent only if the window is still a canvas. */
  function SendWindowRedraw(s: St, id: WinId): (r: St)
    ensures !(id in s.windows && s.windows[id].data.GraphicsData?) ==> r == s
    ensures id in s.windows && s.windows[id].data.GraphicsData? ==> r == Send(s, RedrawReq(id))
  {
    if id in s.windows && s.windows[id].data.GraphicsData? then Send(s, RedrawReq(id)) else s
  }

  /** The oldest deferred call runs: a focus call gives the focus to the window's input
      element if it still has one, a redraw call sends the redraw. */
  function RunDeferred(s: St): (r: St)
    ensures s.deferred == [] ==> r == s
    ensures s.deferred != [] ==> r.deferred == s.deferred[1..]
  {
    if s.deferred == [] then s
    else
      var s1 := s.(deferred := s.deferred[1..]);
      match s.deferred[0]
      case FocusLater(id) =>
        if id in s1.windows && s1.windows[id].input.Some? then s1.(focusTarget := Some(id)) else s1
      case RedrawLater(id) => SendWindowRedraw(s1, id)
  }

  /** The deferred focus lands only on a window that still wants input. */
  lemma DeferredFocusWantsInput(s: St)
    requires s.deferred != [] && s.deferred[0].FocusLater?
    ensures var r := RunDeferred(s);
      && r.sent == s.sent && r.deferred == s.deferred[1..]
      && (r.focusTarget != s.focusTarget ==>
            r.focusTarget == Some(s.deferred[0].id) && s.deferred[0].id in InputWindows(s.windows))
  {
  }

  /** The load or error callback of the image the draw queue waits for. */
  function ImageLoaded(s: St, ok: bool, width: int, height: int): (r: St)
    ensures s.pendingLoad.None? ==> r == s
    ensures r.sent == s.sent && r.generation == s.generation
  {
    Resume(s, ok, width, height)
  }

  // ---------------------------------------------------------------- calls from the page

  /** glkote_extevent. */
  function ExtEvent(s: St, val: string): (r: St)
    ensures r == Send(s, ExternalReq(val))
  {
    Send(s, ExternalReq(val))
  }

  /** evhan_debug_command: a debug command goes out even when it repeats a generation's
      answer only if the gate is open, and reports no partial input. */
  function DebugCommand(s: St, cmd: string): (r: St)
    ensures Emits(s, DebugInputReq(cmd)) ==> r.sent == s.sent + [Event(s.generation, DebugInputReq(cmd), [], map[])]
    ensures !Emits(s, DebugInputReq(cmd)) ==> r == s
  {
    Send(s, DebugInputReq(cmd))
  }

  /** The file dialog's reply to a file prompt: a special response, which is let through
      even while the display is disabled for the prompt. */
  function FileDialogReply(s: St, ref: Option<string>): (r: St)
    ensures s.generation > s.generationSent ==>
      r.sent == s.sent + [Event(s.generation, SpecialResponseReq("fileref_prompt", ref), [], map[])]
  {
    Send(s, SpecialResponseReq("fileref_prompt", ref))
  }

  /** finish_init without a font delay: the measured metrics are recorded and the init
      event goes out, carrying them and the supported features. */
  function FinishInit(s: St, m: Metrics): (r: St)
    ensures !s.disabled ==>
      && r.metrics == m
      && r.sent == s.sent + [Event(s.generation, InitReq(m), Support, Partial(s.windows, InitReq(m)))]
  {
    Send(s.(metrics := m), InitReq(m))
  }
}
