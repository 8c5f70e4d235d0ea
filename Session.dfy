/** The library object itself: its globals and window table as fields, updated in place by
    the message handler, the stages of an update and the browser's event handlers. Each
    method is proved against the function of the value model that describes it, so the
    properties proved of those functions hold of the object. */
module GlkOteSession {
  import opened GlkTypes
  import opened Ordering
  import opened Content
  import opened DrawQueue
  import opened Registry
  import opened Inputs
  import opened Events
  import opened Paging
  import opened Protocol
  import opened History
  import opened KeyCodes
  import Handlers
  import opened Passes

  /** The state at load time: generation 0 with nothing answered yet (generation_sent is
      -1), no windows, no focus or paging hints, and the measured metrics. */
  function Initial(m: Metrics): (s: St)
    ensures EventsInOrder(s) && s.generationSent < s.generation
    ensures s.windows == map[] && s.sent == [] && !s.disabled && s.metrics == m
  {
    St(0, -1, false, map[], m, 0, 0, 0, false, None, [], map[], None, [], false, None, false, [], [], [])
  }

  /** The focus and paging hints: last_known_focus, last_known_paging,
      windows_paging_count, currently_focused, and the window last given the focus. */
  datatype Hints = Hints(lastKnownFocus: int, lastKnownPaging: int, windowsPagingCount: int,
                         currentlyFocused: bool, focusTarget: Option<WinId>)

  /** graphics_draw_queue, the image cache, the image being loaded, and what the draw ops
      have painted. */
  datatype DrawState = DrawState(queue: seq<QOp>, cache: map<int, Bitmap>, pending: Option<int>, painted: seq<Paint>)

  /** The three timer tokens: the retry timer, the game's request timer (its interval) and
      the resize debounce timer. */
  datatype Timers = Timers(retryPending: bool, requestTimer: Option<int>, resizePending: bool)

  /** The first event: finish_init on a fresh session sends init, at generation 0, with the
      metrics and the supported features, and reports no partial input. */
  lemma InitSendsInit(m: Metrics)
    ensures Handlers.FinishInit(Initial(m), m).sent == [Event(0, InitReq(m), Support, map[])]
  {
  }

  class Session {
    const cfg: Config
    var generation: int
    var generationSent: int
    var disabled: bool
    var windows: map<WinId, Window>
    var metrics: Metrics
    var hints: Hints
    var graphics: DrawState
    var timers: Timers
    var deferred: seq<Deferred>
    var sent: seq<Event>
    var errors: seq<GlkError>

    /** The fields as one value of the model. */
    function State(): St
      reads this
    {
      St(generation, generationSent, disabled, windows, metrics,
         hints.lastKnownFocus, hints.lastKnownPaging, hints.windowsPagingCount, hints.currentlyFocused, hints.focusTarget,
         graphics.queue, graphics.cache, graphics.pending, graphics.painted,
         timers.retryPending, timers.requestTimer, timers.resizePending, deferred, sent, errors)
    }

    /** The events handed to the game agree with the generation counters. */
    ghost predicate Valid()
      reads this
    {
      EventsInOrder(State())
    }

    constructor (cfg: Config, m: Metrics)
      ensures this.cfg == cfg && State() == Initial(m) && Valid()
    {
      this.cfg := cfg;
      generation, generationSent, disabled := 0, -1, false;
      windows, metrics := map[], m;
      hints := Hints(0, 0, 0, false, None);
      graphics := DrawState([], map[], None, []);
      timers := Timers(false, None, false);
      deferred, sent, errors := [], [], [];
    }

    /** send_response: nothing goes out while the display is disabled (except a special
        response) or once the generation is answered (except init and refresh); otherwise
        the event, with its partial inputs, and the generation is answered. */
    method SendResponse(req: Request)
      requires Valid()
      modifies this
      ensures State() == Send(old(State()), req) && Valid()
    {
      if disabled && !req.SpecialResponseReq? {
        return;
      }
      if generation <= generationSent && !(req.InitReq? || req.RefreshReq?) {
        return;
      }
      var support := if req.InitReq? then Support else [];
      var partial := PartialInputs(windows, req);
      generationSent, sent := generation, sent + [Event(generation, req, support, partial)];
      SendKeepsEventsInOrder(old(State()), req);
    }

    // ------------------------------------------------------------ the stages of an update

    /** accept_windowset: mark every window, accept each listed one, close the rest. */
    method AcceptWindowSet(args: seq<WindowArg>)
      modifies this
      ensures State() == WithReg(old(State()), WindowSet(RegOf(old(State())), metrics, args))
    {
      var r := WindowSetPass(RegOf(State()), metrics, args);
      windows, errors, deferred := r.windows, r.errors, r.deferred;
    }

    /** perform_graphics_ops: the draw queue, run from its head. Ops for a window without a
        canvas are dropped and the others painted, until the queue is empty or an image must
        first be loaded. A held image is given up after the op it came for. */
    method PerformGraphicsOps(loaded: Option<Loaded>)
      modifies this
      ensures State() == Drain(old(State()), loaded)
    {
      var g := DrainQueue(GfxOf(State()), loaded);
      windows, graphics := g.windows, DrawState(g.queue, g.cache, g.pending, g.painted);
    }

    /** accept_inputcancel. */
    method AcceptInputCancel(args: seq<InputArg>)
      modifies this
      ensures State() == old(State()).(windows := InputCancel(old(windows), args))
    {
      windows := CancelPass(windows, args);
    }

    /** accept_content for one entry: an entry for a missing window or for one awaiting
        line input is reported; otherwise grid lines are replaced, buffer text is added and
        trimmed, and a canvas's draw ops are queued, the queue running at once when it was
        empty. */
    method AcceptContent(layout: Layout, a: ContentArg)
      modifies this
      ensures State() == ContentOne(old(State()), cfg, layout, a)
    {
      if a.id !in windows {
        errors := errors + [NoSuchWindow(a.id)];
        return;
      }
      var w := windows[a.id];
      if w.HasLineInput() {
        errors := errors + [AwaitingLineInput(a.id)];
        return;
      }
      var w', bad := ContentPass(w, a, cfg.maxBufferLength, layout.trimOffset(a.id));
      windows, errors := windows[a.id := w'], errors + LineErrors(a.id, bad);
      if w'.data.GraphicsData? {
        var docall := graphics.queue == [];
        var q := PushOps(graphics.queue, a.id, a.draw);
        graphics := graphics.(queue := q);
        if docall && q != [] {
          PerformGraphicsOps(None);
        }
      }
    }

    /** The `content` list of an update, entry by entry. */
    method AcceptContentList(layout: Layout, args: seq<ContentArg>)
      modifies this
      ensures State() == ContentAll(old(State()), cfg, layout, args)
    {
      var i := 0;
      while i < |args|
        invariant 0 <= i <= |args|
        invariant State() == ContentAll(old(State()), cfg, layout, args[..i])
      {
        assert args[..i + 1][..i] == args[..i];
        AcceptContent(layout, args[i]);
        i := i + 1;
      }
      assert args[..i] == args;
    }

    /** accept_inputset, its errors reported window by window. */
    method AcceptInputSet(args: seq<InputArg>)
      modifies this
      ensures State() == old(State()).(windows := InputSetWindows(old(windows), args),
                                       errors := old(errors) + InputSetErrorsOf(old(windows), old(windows).Keys, TypedMap(args)))
    {
      var ws, errs := InputSetPass(windows, args);
      windows, errors := ws, errors + errs;
    }

    /** accept_timerrequest. */
    method AcceptTimerRequest(t: TimerField)
      modifies this
      ensures State() == TimerStage(old(State()), t)
    {
      match t {
        case NoTimerField =>
        case TimerNull => timers := timers.(requestTimer := None);
        case TimerSet(ms) => timers := timers.(requestTimer := if ms != 0 then Some(ms) else None);
      }
    }

    /** accept_specialinput. */
    method AcceptSpecialInput(sp: SpecialInput)
      modifies this
      ensures sp.kind == "fileref_prompt" ==> State() == old(State())
      ensures sp.kind != "fileref_prompt" ==> State() == old(State()).(errors := old(errors) + [UnknownSpecialInput(sp.kind)])
    {
      if sp.kind != "fileref_prompt" {
        errors := errors + [UnknownSpecialInput(sp.kind)];
      }
    }

    /** The scroll pass at the end of an update. */
    method ScrollWindows(layout: Layout)
      modifies this
      ensures State() == old(State()).(windows := ScrollPass(old(windows), cfg, layout))
    {
      windows := ScrollAll(windows, cfg, layout);
    }

    /** readjust_paging_focus. */
    method ReadjustPagingFocus(canfocus: bool)
      modifies this
      ensures State() == Readjust(old(State()), cfg, canfocus)
    {
      var h := hints;
      var count, pageable := PagingCandidate(windows, cfg, h.lastKnownPaging);
      h := h.(windowsPagingCount := count);
      if count != 0 {
        h := h.(lastKnownPaging := pageable);
      }
      if count == 0 && canfocus {
        var f := FocusCandidate(windows, disabled, count, h.lastKnownFocus);
        if f != 0 {
          h := h.(focusTarget := Some(f));
        }
      }
      hints := h;
    }

    // ------------------------------------------------------------ an update, and the messages

    /** The first stages of a newer update: the generation moves on, the display is
        enabled, input requests are cancelled and the window list is accepted. */
    method PrepareUpdate(u: Update)
      requires u.gen > generation
      modifies this
      ensures State() == WindowStage(CancelStage(old(State()).(generation := u.gen, disabled := false), u), u)
    {
      generation, disabled := u.gen, false;
      if u.input.Some? {
        AcceptInputCancel(u.input.value);
      }
      if u.windows.Some? {
        AcceptWindowSet(u.windows.value);
      }
    }

    /** The middle stages: content, input requests, the timer and special input. */
    method AcceptUpdateParts(layout: Layout, u: Update)
      modifies this
      ensures State() == SpecialStage(TimerStage(InputStage(ContentStage(old(State()), cfg, layout, u), u), u.timer), u)
    {
      if u.content.Some? {
        AcceptContentList(layout, u.content.value);
      }
      ghost var s4 := State();
      if u.input.Some? {
        AcceptInputSet(u.input.value);
      }
      assert State() == InputStage(s4, u);
      AcceptTimerRequest(u.timer);
      if u.specialinput.Some? {
        AcceptSpecialInput(u.specialinput.value);
      }
    }

    /** The last stages: the scroll pass, the paging readjustment, and the display disabled
        as the update asks. */
    method SettleUpdate(layout: Layout, u: Update)
      modifies this
      ensures State() == Readjust(old(State()).(windows := ScrollPass(old(windows), cfg, layout)), cfg, false)
                           .(disabled := u.disable || u.specialinput.Some?)
    {
      ScrollWindows(layout);
      ReadjustPagingFocus(false);
      disabled := u.disable || u.specialinput.Some?;
    }

    /** The stages of a newer update, in order, up to the end of the paging readjustment. */
    method Reconcile(layout: Layout, u: Update)
      requires u.gen > generation
      modifies this
      ensures State() == Reconciled(old(State()), cfg, layout, u)
    {
      PrepareUpdate(u);
      AcceptUpdateParts(layout, u);
      SettleUpdate(layout, u);
    }

    /** An `update` message: ignored unless its generation is newer; otherwise reconciled,
        and the focus is scheduled for later. */
    method ApplyUpdate(layout: Layout, u: Update)
      modifies this
      ensures State() == UpdateSpec(old(State()), cfg, layout, u)
    {
      if u.gen <= generation {
        return;
      }
      Reconcile(layout, u);
      var f := FocusCandidate(windows, disabled, hints.windowsPagingCount, hints.lastKnownFocus);
      if f != 0 {
        deferred := deferred + [FocusLater(f)];
      }
    }

    /** glkote_update: a message from the game. */
    method Receive(layout: Layout, m: Message)
      requires Valid()
      modifies this
      ensures State() == Handle(old(State()), cfg, layout, m) && Valid()
    {
      match m {
        case ErrorMessage(msg) =>
          errors := errors + [ServerErrorOf(msg)];
        case PassMessage =>
        case RetryMessage =>
          if !timers.retryPending {
            timers := timers.(retryPending := true);
          }
        case UpdateMessage(u) =>
          ApplyUpdate(layout, u);
        case UnknownMessage(_) =>
      }
      HandleKeepsEventsInOrder(old(State()), cfg, layout, m);
    }

    // ------------------------------------------------------------ the browser's events

    /** submit_line_input. */
    method SubmitLine(id: WinId, val: string, term: Option<string>)
      requires Valid() && id in windows
      modifies this
      ensures State() == Handlers.SubmitLine(old(State()), id, val, term) && Valid()
    {
      var w := windows[id];
      windows := windows[id := w.(history := Remember(w.history, val))];
      SendResponse(LineReq(id, val, term));
    }

    /** evhan_input_keydown. */
    method InputKeydown(id: WinId, keycode: int)
      requires Valid()
      modifies this
      ensures State() == Handlers.InputKeydown(old(State()), id, keycode) && Valid()
    {
      if keycode == 0 || id !in windows || windows[id].input.None? {
        return;
      }
      var w := windows[id];
      if keycode == Up || keycode == Down {
        var c := if keycode == Up then HistoryUp(w.history, Handlers.CursorOf(w))
                 else HistoryDown(w.history, Handlers.CursorOf(w));
        windows := windows[id := Handlers.WithCursor(w, c)];
      } else {
        var term := TerminatorNameOf(keycode);
        if term.Some? && term.value in w.terminators {
          SubmitLine(id, w.input.value.value, term);
        }
      }
    }

    /** evhan_input_keypress. */
    method InputKeypress(id: WinId, keycode: int)
      requires Valid()
      modifies this
      ensures State() == Handlers.InputKeypress(old(State()), id, keycode) && Valid()
    {
      if keycode == Return && id in windows && windows[id].input.Some? {
        SubmitLine(id, windows[id].input.value.value, None);
      }
    }

    /** evhan_input_char_keydown. */
    method CharKeydown(id: WinId, keycode: int)
      requires Valid()
      modifies this
      ensures State() == Handlers.CharKeydown(old(State()), id, keycode) && Valid()
    {
      if keycode != 0 && id in windows && windows[id].input.Some? {
        var name := KeyNameOf(keycode);
        if name.Some? {
          SendResponse(CharReq(id, name.value));
        }
      }
    }

    /** evhan_input_char_keypress. */
    method CharKeypress(id: WinId, keycode: KeyValue)
      requires Valid()
      modifies this
      ensures State() == Handlers.CharKeypress(old(State()), id, keycode) && Valid()
    {
      if keycode != 0 && id in windows && windows[id].input.Some? {
        SendResponse(CharReq(id, CharKeypressName(keycode)));
      }
    }

    /** window_scroll. */
    method ScrollWindow(layout: Layout, id: WinId)
      requires id in windows
      modifies this
      ensures State() == WindowScroll(old(State()), cfg, id, layout)
    {
      var w := windows[id];
      windows := windows[id := Scrolled(w, layout.seenTo(id), layout.moreBelow(id))];
      if w.needspaging && !layout.moreBelow(id) {
        ReadjustPagingFocus(true);
      }
    }

    /** evhan_doc_keypress when no paging is pending: the key goes to the window that last
        had the focus. */
    method KeyToFocusedWindow(layout: Layout, keycode: KeyValue)
      requires Valid() && !disabled
      requires !(hints.windowsPagingCount != 0 && hints.lastKnownPaging > 0 && hints.lastKnownPaging in windows)
      modifies this
      ensures State() == Handlers.DocKeypress(old(State()), cfg, layout, keycode, false, false) && Valid()
    {
      if !(hints.lastKnownFocus > 0 && hints.lastKnownFocus in windows) {
        return;
      }
      var id: WinId := hints.lastKnownFocus;
      var w := windows[id];
      if w.input.None? {
        return;
      }
      hints := hints.(focusTarget := Some(id));
      if w.input.value.req.kind == Some(LineKind) {
        if keycode == Return {
          SubmitLine(id, w.input.value.value, None);
        } else if keycode >= 32 {
          windows := windows[id := w.(input := Some(w.input.value.(value := w.input.value.value + FromCharCode(keycode))))];
        }
      } else {
        var name := DocCharName(keycode);
        if name.Some? {
          SendResponse(CharReq(id, name.value));
        }
      }
    }

    /** evhan_doc_keypress. */
    method DocKeypress(layout: Layout, keycode: KeyValue, modified: bool, inInput: bool)
      requires Valid()
      modifies this
      ensures State() == Handlers.DocKeypress(old(State()), cfg, layout, keycode, modified, inInput) && Valid()
    {
      if disabled || modified || inInput {
        return;
      }
      if hints.windowsPagingCount != 0 && hints.lastKnownPaging > 0 && hints.lastKnownPaging in windows {
        if Handlers.PagingKey(keycode) {
          ScrollWindow(layout, hints.lastKnownPaging);
        }
        return;
      }
      KeyToFocusedWindow(layout, keycode);
    }

    /** evhan_window_mousedown. */
    method WindowMousedown(id: WinId)
      requires Valid()
      modifies this
      ensures State() == Handlers.WindowMousedown(old(State()), id) && Valid()
    {
      if id !in windows {
        return;
      }
      var w := windows[id];
      hints := hints.(lastKnownFocus := if w.input.Some? then id else hints.lastKnownFocus,
                      lastKnownPaging := if w.needspaging then id else if w.input.Some? then 0 else hints.lastKnownPaging);
    }

    /** evhan_input_mouse_click. */
    method MouseClick(id: WinId, button: int, x: int, y: int)
      requires Valid()
      modifies this
      ensures State() == Handlers.MouseClick(old(State()), id, button, x, y) && Valid()
    {
      if id !in windows || !windows[id].reqmouse || button != 0 || windows[id].data.BufferData? {
        return;
      }
      var p := Handlers.MousePosition(windows[id].data, x, y);
      SendResponse(MouseReq(id, p.0, p.1));
    }

    /** evhan_input_focus. */
    method InputFocus(id: WinId)
      requires Valid()
      modifies this
      ensures State() == Handlers.InputFocus(old(State()), id) && Valid()
    {
      if id in windows {
        hints := hints.(currentlyFocused := true, lastKnownFocus := id, lastKnownPaging := id);
      }
    }

    /** evhan_input_blur. */
    method InputBlur(id: WinId)
      requires Valid()
      modifies this
      ensures State() == Handlers.InputBlur(old(State()), id) && Valid()
    {
      if id in windows {
        hints := hints.(currentlyFocused := false);
      }
    }

    /** evhan_window_scroll. */
    method WindowScrollEvent(layout: Layout, id: WinId)
      requires Valid()
      modifies this
      ensures State() == Handlers.WindowScrollEvent(old(State()), cfg, layout, id) && Valid()
    {
      if id in windows && windows[id].needspaging {
        ScrollWindow(layout, id);
      }
    }

    /** A hyperlink click. */
    method HyperlinkClick(id: WinId, link: int)
      requires Valid()
      modifies this
      ensures State() == Handlers.HyperlinkClick(old(State()), id, link) && Valid()
    {
      if id in windows && windows[id].reqhyperlink {
        SendResponse(HyperlinkReq(id, link));
      }
    }

    /** evhan_timer_event. */
    method TimerFires()
      requires Valid()
      modifies this
      ensures State() == Handlers.TimerFires(old(State())) && Valid()
    {
      if timers.requestTimer.Some? && !disabled {
        SendResponse(TimerReq);
      }
    }

    /** retry_update. */
    method RetryFires()
      requires Valid()
      modifies this
      ensures State() == Handlers.RetryFires(old(State())) && Valid()
    {
      if timers.retryPending {
        timers := timers.(retryPending := false);
        SendResponse(RefreshReq);
      }
    }

    /** evhan_doc_resize. */
    method DocResize()
      requires Valid()
      modifies this
      ensures State() == Handlers.DocResize(old(State())) && Valid()
    {
      timers := timers.(resizePending := true);
    }

    /** doc_resize_real, with the measured metrics `m`. */
    method ResizeFires(m: Metrics)
      requires Valid()
      modifies this
      ensures State() == Handlers.ResizeFires(old(State()), m) && Valid()
    {
      if !timers.resizePending || disabled {
        return;
      }
      var same := MetricsAgree(m, metrics, Handlers.MatchedMetrics, false);
      timers := timers.(resizePending := false);
      if !same {
        metrics := m;
        SendResponse(ArrangeReq(m));
      }
    }

    /** The oldest deferred call. */
    method RunDeferred()
      requires Valid()
      modifies this
      ensures State() == Handlers.RunDeferred(old(State())) && Valid()
    {
      if deferred == [] {
        return;
      }
      var d := deferred[0];
      deferred := deferred[1..];
      match d {
        case FocusLater(id) =>
          if id in windows && windows[id].input.Some? {
            hints := hints.(focusTarget := Some(id));
          }
        case RedrawLater(id) =>
          if id in windows && windows[id].data.GraphicsData? {
            SendResponse(RedrawReq(id));
          }
      }
    }

    /** The load or error callback of the image the draw queue waits for. */
    method ImageLoaded(ok: bool, width: int, height: int)
      requires Valid()
      modifies this
      ensures State() == Handlers.ImageLoaded(old(State()), ok, width, height) && Valid()
    {
      if graphics.pending.None? {
        return;
      }
      var image := graphics.pending.value;
      graphics := graphics.(pending := None);
      PerformGraphicsOps(Some(Loaded(Bitmap(image, width, height), ok)));
    }

    /** glkote_extevent. */
    method ExtEvent(val: string)
      requires Valid()
      modifies this
      ensures State() == Handlers.ExtEvent(old(State()), val) && Valid()
    {
      SendResponse(ExternalReq(val));
    }

    /** evhan_debug_command. */
    method DebugCommand(cmd: string)
      requires Valid()
      modifies this
      ensures State() == Handlers.DebugCommand(old(State()), cmd) && Valid()
    {
      SendResponse(DebugInputReq(cmd));
    }

    /** The file dialog's reply. */
    method FileDialogReply(ref: Option<string>)
      requires Valid()
      modifies this
      ensures State() == Handlers.FileDialogReply(old(State()), ref) && Valid()
    {
      SendResponse(SpecialResponseReq("fileref_prompt", ref));
    }

    /** finish_init. */
    method FinishInit(m: Metrics)
      requires Valid()
      modifies this
      ensures State() == Handlers.FinishInit(old(State()), m) && Valid()
    {
      metrics := m;
      SendResponse(InitReq(m));
    }
  }
}
