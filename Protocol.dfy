/** The messages the game sends the display: an error, a pass, a retry request, or an
    update, which is applied in a fixed order of stages (input cancel, windows, content,
    input set, timer, special input, scrolling, paging, disabling, focus). */
module Protocol {
  import opened GlkTypes
  import opened Ordering
  import opened Content
  import opened DrawQueue
  import opened Registry
  import opened Inputs
  import opened Events
  import opened Paging

  /** glkote_error: an empty message is shown as '???'. */
  function ServerErrorOf(msg: string): (e: GlkError)
    ensures e.ServerError? && e.message != ""
    ensures msg != "" ==> e.message == msg
  {
    ServerError(if msg == "" then "???" else msg)
  }

  // ---------------------------------------------------------------- content

  /** An update's draw ops, each tagged with the window it came for. */
  function Tag(id: WinId, ops: seq<DrawOp>): (r: seq<QOp>)
    ensures |r| == |ops|
    ensures forall i :: 0 <= i < |ops| ==> r[i] == QOp(id, ops[i])
  {
    seq(|ops|, i requires 0 <= i < |ops| => QOp(id, ops[i]))
  }

  /** The errors for the grid lines an update names that do not exist. */
  function LineErrors(id: WinId, bad: seq<int>): (r: seq<GlkError>)
    ensures |r| == |bad|
    ensures forall i :: 0 <= i < |bad| ==> r[i] == NoSuchLine(id, bad[i])
  {
    seq(|bad|, i requires 0 <= i < |bad| => NoSuchLine(id, bad[i]))
  }

  /** The part of a buffer window that scrollback trimming works on. */
  function FrameOf(w: Window): Frame
    requires w.data.BufferData?
  {
    Frame(w.data.paras, w.prevmark, w.topunseen, w.pagefrommark)
  }

  /** An entry's grid lines or buffer text applied to its window, with the lines it named
      that are missing. A canvas is left to the draw queue. Only the content, the paging
      cursors and the scroll flag change; the window's type, input, and history stay. */
  function ContentWindow(w: Window, a: ContentArg, max: BufferLimit, offtop: int): (r: (Window, seq<int>))
    ensures r.0.needscroll && r.0.Type() == w.Type()
    ensures r.0.input == w.input && r.0.history == w.history && r.0.historypos == w.historypos
    ensures r.0.needspaging == w.needspaging && r.0.moreprompt == w.moreprompt && r.0.coords == w.coords
    ensures !w.data.GridData? ==> r.1 == []
  {
    var w1 := w.(needscroll := true);
    match w1.data
    case GridData(lines, gw) =>
      var res := ReplaceLines(lines, a.lines);
      (w1.(data := GridData(res.0, gw)), res.1)
    case BufferData(paras) =>
      var f := BufferUpdate(FrameOf(w1), a.clear, a.text, max, offtop);
      (w1.(data := BufferData(f.paras), prevmark := f.prevmark, topunseen := f.topunseen,
           pagefrommark := f.pagefrommark), [])
    case GraphicsData(_, _, _, _) => (w1, [])
  }

  /** What each kind of window makes of the entry: a grid takes the replaced lines and
      reports the missing ones, a buffer's frame is updated and trimmed, a canvas is only
      marked for scrolling. */
  lemma ContentWindowByType(w: Window, a: ContentArg, max: BufferLimit, offtop: int)
    ensures var r := ContentWindow(w, a, max, offtop);
      && (w.data.GridData? ==>
            && r.0 == w.(needscroll := true, data := GridData(ReplaceLines(w.data.lines, a.lines).0, w.data.gridwidth))
            && r.1 == ReplaceLines(w.data.lines, a.lines).1)
      && (w.data.BufferData? ==>
            r.0.data.BufferData? && FrameOf(r.0) == BufferUpdate(FrameOf(w), a.clear, a.text, max, offtop))
      && (w.data.GraphicsData? ==> r.0 == w.(needscroll := true))
  {
  }

  /** A canvas's draw ops join the shared queue, which is run at once when it was empty
      (otherwise a load callback is already outstanding and will get to them). */
  function QueueDraw(s: St, id: WinId, ops: seq<DrawOp>): (r: St)
    ensures SameGate(s, r) && r.windows.Keys == s.windows.Keys && r.errors == s.errors
    ensures s.drawQueue != [] || ops == [] ==> r == s.(drawQueue := s.drawQueue + Tag(id, ops))
    ensures s.drawQueue == [] && ops != [] ==> r == Drain(s.(drawQueue := Tag(id, ops)), None)
  {
    var s1 := s.(drawQueue := s.drawQueue + Tag(id, ops));
    if s.drawQueue == [] && ops != [] then
      assert s.drawQueue + Tag(id, ops) == Tag(id, ops);
      RunConsumesFront(GfxOf(s1), None, false);
      Drain(s1, None)
    else s1
  }

  /** accept_content for one entry. An entry for a missing window, or for one awaiting line
      input, is reported and changes nothing else. */
  function ContentOne(s: St, cfg: Config, layout: Layout, a: ContentArg): (r: St)
    ensures a.id !in s.windows ==> r == s.(errors := s.errors + [NoSuchWindow(a.id)])
    ensures a.id in s.windows && s.windows[a.id].HasLineInput() ==>
      r == s.(errors := s.errors + [AwaitingLineInput(a.id)])
    ensures r.windows.Keys == s.windows.Keys
    ensures SameGate(s, r)
  {
    if a.id !in s.windows then s.(errors := s.errors + [NoSuchWindow(a.id)])
    else if s.windows[a.id].HasLineInput() then s.(errors := s.errors + [AwaitingLineInput(a.id)])
    else
      var res := ContentWindow(s.windows[a.id], a, cfg.maxBufferLength, layout.trimOffset(a.id));
      var s1 := s.(windows := s.windows[a.id := res.0], errors := s.errors + LineErrors(a.id, res.1));
      if res.0.data.GraphicsData? then QueueDraw(s1, a.id, a.draw) else s1
  }

  /** The counters and flags that decide whether an event may go out. */
  predicate SameGate(s: St, r: St) {
    && r.generation == s.generation && r.generationSent == s.generationSent
    && r.disabled == s.disabled && r.sent == s.sent
  }

  /** The `content` list, entry by entry. */
  function ContentAll(s: St, cfg: Config, layout: Layout, args: seq<ContentArg>): (r: St)
    ensures r.windows.Keys == s.windows.Keys
    ensures SameGate(s, r)
  {
    if args == [] then s
    else ContentOne(ContentAll(s, cfg, layout, args[..|args| - 1]), cfg, layout, args[|args| - 1])
  }

  /** A content entry for a text window touches no other window and never touches the
      input request or the history of its own. */
  lemma ContentKeepsInput(s: St, cfg: Config, layout: Layout, a: ContentArg)
    requires a.id in s.windows && !s.windows[a.id].data.GraphicsData?
    ensures var r := ContentOne(s, cfg, layout, a);
      && r.windows[a.id].input == s.windows[a.id].input
      && r.windows[a.id].history == s.windows[a.id].history
      && forall k :: k in s.windows && k != a.id ==> r.windows[k] == s.windows[k]
  {
    if !s.windows[a.id].HasLineInput() {
      var res := ContentWindow(s.windows[a.id], a, cfg.maxBufferLength, layout.trimOffset(a.id));
      var s1 := s.(windows := s.windows[a.id := res.0], errors := s.errors + LineErrors(a.id, res.1));
      assert ContentOne(s, cfg, layout, a) == s1;
    }
  }

  /** Draw ops for a canvas join the back of the queue; when ops were already waiting
      (a load is outstanding) nothing is drawn yet. */
  lemma DrawOpsQueued(s: St, cfg: Config, layout: Layout, a: ContentArg)
    requires a.id in s.windows && s.windows[a.id].data.GraphicsData? && !s.windows[a.id].HasLineInput()
    requires s.drawQueue != []
    ensures var r := ContentOne(s, cfg, layout, a);
      && r.drawQueue == s.drawQueue + Tag(a.id, a.draw)
      && r.painted == s.painted && r.imageCache == s.imageCache
  {
    var res := ContentWindow(s.windows[a.id], a, cfg.maxBufferLength, layout.trimOffset(a.id));
    var s1 := s.(windows := s.windows[a.id := res.0], errors := s.errors + LineErrors(a.id, res.1));
    assert ContentOne(s, cfg, layout, a) == QueueDraw(s1, a.id, a.draw);
  }

  // ---------------------------------------------------------------- the stages

  function CancelStage(s: St, u: Update): (r: St)
    ensures SameGate(s, r)
  {
    if u.input.Some? then s.(windows := InputCancel(s.windows, u.input.value)) else s
  }

  function WindowStage(s: St, u: Update): (r: St)
    ensures SameGate(s, r)
  {
    if u.windows.Some? then WithReg(s, WindowSet(RegOf(s), s.metrics, u.windows.value)) else s
  }

  function ContentStage(s: St, cfg: Config, layout: Layout, u: Update): (r: St)
    ensures SameGate(s, r)
  {
    if u.content.Some? then ContentAll(s, cfg, layout, u.content.value) else s
  }

  /** accept_inputset, with its errors reported window by window in ascending id order. */
  function InputStage(s: St, u: Update): (r: St)
    ensures SameGate(s, r)
  {
    if u.input.Some? then
      var args := u.input.value;
      s.(windows := InputSetWindows(s.windows, args),
         errors := s.errors + InputSetErrorsOf(s.windows, s.windows.Keys, TypedMap(args)))
    else s
  }

  /** accept_timerrequest: an existing timer is always cancelled, and a non-zero interval
      starts a new one. An absent field leaves the timer alone. */
  function TimerStage(s: St, t: TimerField): (r: St)
    ensures t.NoTimerField? ==> r == s
    ensures t.TimerNull? ==> r == s.(requestTimer := None)
    ensures t.TimerSet? ==> r == s.(requestTimer := if t.ms != 0 then Some(t.ms) else None)
  {
    match t
    case NoTimerField => s
    case TimerNull => s.(requestTimer := None)
    case TimerSet(ms) => s.(requestTimer := if ms != 0 then Some(ms) else None)
  }

  /** accept_specialinput: a file prompt is handed to the dialog (not part of this model);
      any other kind is reported. */
  function SpecialStage(s: St, u: Update): (r: St)
    ensures SameGate(s, r)
  {
    if u.specialinput.Some? && u.specialinput.value.kind != "fileref_prompt"
    then s.(errors := s.errors + [UnknownSpecialInput(u.specialinput.value.kind)])
    else s
  }

  /** The focus chosen at the end of an update is given later, by a deferred call. */
  function FocusStage(s: St): (r: St)
    ensures SameGate(s, r)
    ensures r.windows == s.windows && r.windowsPagingCount == s.windowsPagingCount
  {
    var f := FocusChoice(s.windows, s.disabled, s.windowsPagingCount, s.lastKnownFocus);
    if f != 0 then s.(deferred := s.deferred + [FocusLater(f)]) else s
  }

  /** The state an update reaches just before the focus is chosen. */
  function Reconciled(s: St, cfg: Config, layout: Layout, u: Update): (r: St)
    requires u.gen > s.generation
    ensures r.generation == u.gen && r.generationSent == s.generationSent && r.sent == s.sent
    ensures r.disabled == (u.disable || u.specialinput.Some?)
  {
    var s1 := s.(generation := u.gen, disabled := false);
    var s2 := CancelStage(s1, u);
    var s3 := WindowStage(s2, u);
    var s4 := ContentStage(s3, cfg, layout, u);
    var s5 := InputStage(s4, u);
    var s6 := TimerStage(s5, u.timer);
    var s7 := SpecialStage(s6, u);
    var s8 := s7.(windows := ScrollPass(s7.windows, cfg, layout));
    var s9 := Readjust(s8, cfg, false);
    s9.(disabled := u.disable || u.specialinput.Some?)
  }

  /** glkote_update for an `update` message. An update whose generation is not newer than
      the current one is ignored. A newer one moves the generation on, sends no event
      itself, leaves the display disabled exactly when it asks to be or asks for special
      input, and schedules the input focus only while the display is enabled and no window
      has paging pending. */
  function UpdateSpec(s: St, cfg: Config, layout: Layout, u: Update): (r: St)
    ensures u.gen <= s.generation ==> r == s
    ensures u.gen > s.generation ==>
      && r.generation == u.gen && r.generationSent == s.generationSent && r.sent == s.sent
      && r.disabled == (u.disable || u.specialinput.Some?)
      && r == FocusStage(Reconciled(s, cfg, layout, u))
  {
    if u.gen <= s.generation then s
    else FocusStage(Reconciled(s, cfg, layout, u))
  }

  /** glkote_update. */
  function Handle(s: St, cfg: Config, layout: Layout, m: Message): (r: St)
    ensures m.ErrorMessage? ==> r == s.(errors := s.errors + [ServerErrorOf(m.message)])
    ensures m.PassMessage? || m.UnknownMessage? ==> r == s
    ensures m.RetryMessage? ==> r == s.(retryPending := true)
    ensures m.UpdateMessage? ==> r == UpdateSpec(s, cfg, layout, m.update)
  {
    match m
    case ErrorMessage(msg) => s.(errors := s.errors + [ServerErrorOf(msg)])
    case PassMessage => s
    case RetryMessage => if s.retryPending then s else s.(retryPending := true)
    case UpdateMessage(u) => UpdateSpec(s, cfg, layout, u)
    case UnknownMessage(_) => s
  }

  // ---------------------------------------------------------------- properties

  /** Delivering the same update twice has the effect of delivering it once: the second
      copy repeats a generation and is ignored. */
  lemma UpdateIdempotent(s: St, cfg: Config, layout: Layout, m: Message)
    requires m.UpdateMessage? || m.RetryMessage? || m.PassMessage?
    ensures Handle(Handle(s, cfg, layout, m), cfg, layout, m) == Handle(s, cfg, layout, m)
  {
    if m.UpdateMessage? && m.update.gen > s.generation {
      var r := Handle(s, cfg, layout, m);
      assert r.generation == m.update.gen;
    }
  }

  /** Updates are taken in increasing generation order: after any message the generation
      is at least the old one, and an out-of-date update changes nothing at all. */
  lemma GenerationNeverDecreases(s: St, cfg: Config, layout: Layout, m: Message)
    ensures Handle(s, cfg, layout, m).generation >= s.generation
    ensures m.UpdateMessage? && m.update.gen <= s.generation ==> Handle(s, cfg, layout, m) == s
    ensures Handle(s, cfg, layout, m).sent == s.sent
  {
  }

  /** A message keeps the record of sent events consistent with the generation counters. */
  lemma HandleKeepsEventsInOrder(s: St, cfg: Config, layout: Layout, m: Message)
    requires EventsInOrder(s)
    ensures EventsInOrder(Handle(s, cfg, layout, m))
  {
    var r := Handle(s, cfg, layout, m);
    assert r.sent == s.sent && r.generationSent == s.generationSent && r.generation >= s.generation;
  }

  /** A new, enabling update opens the gate again: whatever event the player causes next
      goes out, under the new generation. */
  lemma UpdateReopensGate(s: St, cfg: Config, layout: Layout, u: Update, req: Request)
    requires EventsInOrder(s) && u.gen > s.generation && !u.disable && u.specialinput.None?
    ensures Emits(UpdateSpec(s, cfg, layout, u), req)
    ensures EventFor(UpdateSpec(s, cfg, layout, u), req).gen == u.gen
  {
  }

  /** Once an event has gone out, no further event other than init or refresh goes out
      before the next update: each generation is answered at most once. */
  lemma OneEventPerGeneration(s: St, req: Request, req2: Request)
    requires Emits(s, req) && !(req2.InitReq? || req2.RefreshReq?)
    ensures !Emits(Send(s, req), req2)
  {
  }

  /** A disabling update, or one asking for special input, blocks every event except the
      special response until the next update. */
  lemma DisabledUpdateBlocks(s: St, cfg: Config, layout: Layout, u: Update, req: Request)
    requires u.gen > s.generation && (u.disable || u.specialinput.Some?) && !req.SpecialResponseReq?
    ensures Send(UpdateSpec(s, cfg, layout, u), req) == UpdateSpec(s, cfg, layout, u)
  {
  }

  /** The focus an update schedules goes to a window that wants input, is scheduled only
      when the display is enabled and nothing needs paging, and prefers the window that
      last had the focus. */
  lemma UpdateFocus(s: St, cfg: Config, layout: Layout, u: Update)
    requires u.gen > s.generation
    ensures var t := Reconciled(s, cfg, layout, u);
      var r := UpdateSpec(s, cfg, layout, u);
      && (r.deferred == t.deferred ||
          exists f :: r.deferred == t.deferred + [FocusLater(f)] && f in t.windows && t.windows[f].input.Some?)
      && (r.deferred != t.deferred ==> !r.disabled && r.windowsPagingCount == 0)
      && (!r.disabled && r.windowsPagingCount == 0 && t.lastKnownFocus in InputWindows(t.windows) ==>
            exists f :: f == t.lastKnownFocus && r.deferred == t.deferred + [FocusLater(f)])
  {
    var t := Reconciled(s, cfg, layout, u);
    var f := FocusChoice(t.windows, t.disabled, t.windowsPagingCount, t.lastKnownFocus);
    if f != 0 {
      assert UpdateSpec(s, cfg, layout, u).deferred == t.deferred + [FocusLater(f)];
    }
  }

  /** A retry request arms one retry timer, however many arrive. */
  lemma RetryArmsOnce(s: St, cfg: Config, layout: Layout)
    ensures Handle(s, cfg, layout, RetryMessage).retryPending
    ensures Handle(Handle(s, cfg, layout, RetryMessage), cfg, layout, RetryMessage) ==
            Handle(s, cfg, layout, RetryMessage)
  {
  }
}
