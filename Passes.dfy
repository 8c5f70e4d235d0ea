/** The loops of the library over its window table and over the lists of an update, as
    methods on values. Each visits the windows in ascending id order, as the library's
    passes over its window table do, and is proved to compute the function of the value
    model that describes the whole pass. */
module Passes {
  import opened GlkTypes
  import opened Ordering
  import opened Content
  import opened Registry
  import opened Inputs
  import opened Events
  import opened Paging
  import opened Protocol
  import Handlers
  import opened WindowTable
  import opened DrawQueue

  /** The typed entries of an `input` list by window; a later one overrides. */
  method TypedEntries(args: seq<InputArg>) returns (typed: map<WinId, InputArg>)
    ensures typed == TypedMap(args)
  {
    typed := map[];
    var i := 0;
    while i < |args|
      invariant 0 <= i <= |args|
      invariant typed == TypedMap(args[..i])
    {
      assert args[..i + 1][..i] == args[..i];
      if args[i].kind.Some? {
        typed := typed[args[i].id := args[i]];
      }
      i := i + 1;
    }
    assert args[..i] == args;
  }

  /** The first pass of accept_inputset: the typed entries, and the windows asking for
      hyperlink and for mouse input. */
  method InputFlags(args: seq<InputArg>) returns (typed: map<WinId, InputArg>, hl: set<WinId>, mice: set<WinId>)
    ensures typed == TypedMap(args) && hl == Hyperlinks(args) && mice == Mice(args)
  {
    typed, hl, mice := map[], {}, {};
    var i := 0;
    while i < |args|
      invariant 0 <= i <= |args|
      invariant typed == TypedMap(args[..i])
      invariant hl == Hyperlinks(args[..i]) && mice == Mice(args[..i])
    {
      var pre := args[..i + 1];
      assert pre[..i] == args[..i];
      assert Hyperlinks(pre) == Hyperlinks(args[..i]) + (if args[i].hyperlink then {args[i].id} else {}) by {
        assert forall j :: 0 <= j < i ==> pre[j] == args[j];
        assert pre[i] == args[i];
      }
      assert Mice(pre) == Mice(args[..i]) + (if args[i].mouse then {args[i].id} else {}) by {
        assert forall j :: 0 <= j < i ==> pre[j] == args[j];
        assert pre[i] == args[i];
      }
      if args[i].kind.Some? {
        typed := typed[args[i].id := args[i]];
      }
      if args[i].hyperlink {
        hl := hl + {args[i].id};
      }
      if args[i].mouse {
        mice := mice + {args[i].id};
      }
      i := i + 1;
    }
    assert args[..i] == args;
  }

  /** The GridLine rows of a grid after accept_one_window gives it `height` rows: blank
      rows are appended one by one, or the surplus rows removed one by one from the row at
      index `height` on. */
  method ResizeGrid(lines: seq<seq<Run>>, height: nat) returns (r: seq<seq<Run>>)
    ensures r == ResizeLines(lines, height)
  {
    r := lines;
    if height > |lines| {
      var ix := |lines|;
      while ix < height
        invariant |lines| <= ix <= height
        invariant r == lines + seq(ix - |lines|, _ => [])
      {
        r := r + [[]];
        ix := ix + 1;
      }
    }
    if height < |lines| {
      var ix := height;
      while ix < |lines|
        invariant height <= ix <= |lines|
        invariant r == lines[..height] + lines[ix..]
      {
        assert r[height] == lines[ix];
        r := r[..height] + r[height + 1..];
        ix := ix + 1;
      }
    }
  }

  /** metrics_match, one metric name after another, stopping at the first that differs. */
  method MetricsAgree(m1: Metrics, m2: Metrics, names: seq<string>, literal: bool) returns (same: bool)
    ensures same == Handlers.FieldsMatch(m1, m2, names, literal)
  {
    var i := 0;
    while i < |names|
      invariant 0 <= i <= |names|
      invariant Handlers.FieldsMatch(m1, m2, names, literal) == Handlers.FieldsMatch(m1, m2, names[i..], literal)
    {
      var key := if literal then "metric" else names[i];
      if Handlers.Field(m1, key) != Handlers.Field(m2, key) {
        return false;
      }
      assert names[i..][1..] == names[i + 1..];
      i := i + 1;
    }
    return true;
  }

  /** A map that agrees with the partial inputs window by window is the partial inputs. */
  lemma PartialPointwise(ws: map<WinId, Window>, req: Request, p: map<WinId, string>)
    requires forall k :: k in p <==> k in ws && ReportsPartial(ws[k], k, req)
    requires forall k :: k in p ==> k in ws && ReportsPartial(ws[k], k, req) && p[k] == ws[k].input.value.value
    ensures p == Partial(ws, req)
  {
    assert p.Keys == Partial(ws, req).Keys;
  }

  /** The lines of a grid after the `lines` list of a content entry, entry by entry, and
      the line numbers of the entries that named no line. */
  method GridContent(lines: seq<seq<Run>>, las: seq<LineArg>) returns (l: seq<seq<Run>>, bad: seq<int>)
    ensures (l, bad) == ReplaceLines(lines, las)
  {
    l, bad := lines, [];
    var i := 0;
    while i < |las|
      invariant 0 <= i <= |las|
      invariant (l, bad) == ReplaceLines(lines, las[..i])
    {
      assert las[..i + 1][..i] == las[..i];
      var la := las[i];
      if !HasLine(l, la.line) {
        bad := bad + [la.line];
      } else {
        l := l[la.line := GridRuns(la.content)];
      }
      i := i + 1;
    }
    assert las[..i] == las;
  }

  /** The type-specific part of accept_one_window: a grid gets its rows, a known canvas
      whose size changes is resized, cleared to its default colour, and owes a redraw. */
  method ArrangePayload(d: Payload, a: WindowArg, isNew: bool) returns (d': Payload, redraw: bool)
    ensures (d', redraw) == Arrange(d, a, isNew)
  {
    d', redraw := d, false;
    match d {
      case GridData(lines, _) =>
        var l := ResizeGrid(lines, a.gridheight);
        d' := GridData(l, a.gridwidth);
      case BufferData(_) =>
      case GraphicsData(gw, gh, dc, _) =>
        if !isNew && (gw != a.graphwidth || gh != a.graphheight) {
          d', redraw := GraphicsData(a.graphwidth, a.graphheight, dc, dc), true;
        }
    }
  }

  /** Scrollback trimming: the oldest children are removed one at a time from the front,
      and both paging cursors move up by the offset of the first child kept. */
  method TrimScrollback(f: Frame, max: BufferLimit, offtop: int) returns (r: Frame)
    ensures r == Trim(f, max, offtop)
  {
    r := f;
    var n := Children(f.prevmark, f.paras);
    if n == 0 {
      return;
    }
    var totrim := n - max;
    if totrim <= 0 {
      return;
    }
    var top := Max(f.topunseen - offtop, 0);
    var mark := Max(f.pagefrommark - offtop, 0);
    var prev := f.prevmark;
    var paras := f.paras;
    var ix := 0;
    while ix < totrim
      invariant 0 <= ix <= totrim
      invariant prev == (f.prevmark && ix == 0)
      invariant paras == f.paras[if f.prevmark then (if ix == 0 then 0 else ix - 1) else ix..]
    {
      if prev {
        prev := false;
      } else {
        paras := paras[1..];
      }
      ix := ix + 1;
    }
    r := Frame(paras, prev, top, mark);
  }

  /** A buffer window's frame after a content entry: cleared if asked, then the text
      entries one by one, then trimmed. */
  method BufferContent(f: Frame, clear: bool, ts: seq<TextArg>, max: BufferLimit, offtop: int) returns (r: Frame)
    ensures r == BufferUpdate(f, clear, ts, max, offtop)
  {
    var f1 := if clear then Frame([], false, 0, 0) else f;
    var paras := f1.paras;
    var i := 0;
    while i < |ts|
      invariant 0 <= i <= |ts|
      invariant paras == AddTexts(f1.paras, ts[..i])
    {
      assert ts[..i + 1][..i] == ts[..i];
      paras := AddText(paras, ts[i]);
      i := i + 1;
    }
    assert ts[..i] == ts;
    r := TrimScrollback(f1.(paras := paras), max, offtop);
  }

  /** Window-by-window agreement with accept_inputcancel is accept_inputcancel. */
  lemma CancelPointwise(W: map<WinId, Window>, args: seq<InputArg>, ws: map<WinId, Window>)
    requires ws.Keys == W.Keys
    requires forall k :: k in W ==>
      ws[k] == if Cancels(W[k], TypedMap(args), k) then W[k].(input := None) else W[k]
    ensures ws == InputCancel(W, args)
  {
    assert ws.Keys == InputCancel(W, args).Keys;
  }

  lemma InputSetPointwise(W: map<WinId, Window>, args: seq<InputArg>, ws: map<WinId, Window>)
    requires ws.Keys == W.Keys
    requires forall k :: k in W ==> ws[k] == InputSetWindow(W[k], k, TypedMap(args), Hyperlinks(args), Mice(args))
    ensures ws == InputSetWindows(W, args)
  {
    assert ws.Keys == InputSetWindows(W, args).Keys;
  }

  lemma MarkPointwise(W: map<WinId, Window>, ws: map<WinId, Window>)
    requires ws.Keys == W.Keys
    requires forall k :: k in W ==> ws[k] == W[k].(inplace := false)
    ensures ws == Mark(W)
  {
    assert ws.Keys == Mark(W).Keys;
  }

  lemma SweepPointwise(W: map<WinId, Window>, ws: map<WinId, Window>)
    requires forall k :: k in ws <==> k in W && W[k].inplace
    requires forall k :: k in ws ==> ws[k] == W[k]
    ensures ws == Sweep(W)
  {
    assert ws.Keys == Sweep(W).Keys;
  }

  lemma ScrollPointwise(W: map<WinId, Window>, cfg: Config, layout: Layout, ws: map<WinId, Window>)
    requires ws.Keys == W.Keys
    requires forall k :: k in W ==> ws[k] == ScrollWindow(W[k], cfg, layout.seenTo(k), layout.moreBelow(k))
    ensures ws == ScrollPass(W, cfg, layout)
  {
    assert ws.Keys == ScrollPass(W, cfg, layout).Keys;
  }


  /** The partial inputs send_response attaches, window by window; none for the events
      that carry none. */
  method PartialInputs(ws: map<WinId, Window>, req: Request) returns (p: map<WinId, string>)
    ensures p == Partial(ws, req)
  {
    p := map[];
    if SavesPartial(req) {
      p := CollectWindows(ws, (k: WinId, w: Window) => ReportsPartial(w, k, req), (w: Window) =>
        if w.input.Some? then w.input.value.value else "");
      PartialPointwise(ws, req, p);
    }
  }

  /** accept_inputcancel: the typed entries, then every window with an open request. */
  method CancelPass(W: map<WinId, Window>, args: seq<InputArg>) returns (ws: map<WinId, Window>)
    ensures ws == InputCancel(W, args)
  {
    var typed := TypedEntries(args);
    ws := EachWindow(W, (k: WinId, w: Window) => if Cancels(w, typed, k) then w.(input := None) else w);
    CancelPointwise(W, args, ws);
  }

  /** The marking pass of accept_windowset. */
  method MarkPass(W: map<WinId, Window>) returns (ws: map<WinId, Window>)
    ensures ws == Mark(W)
  {
    ws := EachWindow(W, (k: WinId, w: Window) => w.(inplace := false));
    MarkPointwise(W, ws);
  }

  /** The closing pass of accept_windowset: every window not in place is closed. */
  method SweepPass(W: map<WinId, Window>) returns (ws: map<WinId, Window>)
    ensures ws == Sweep(W)
  {
    ws := KeepWindows(W, (k: WinId, w: Window) => w.inplace);
    SweepPointwise(W, ws);
  }

  /** The errors of accept_inputset as a pass that reports them window by window. */
  lemma {:induction false} InputSetErrorsAsLog(W: map<WinId, Window>, ids: set<WinId>, typed: map<WinId, InputArg>,
                                               log: (WinId, Window) -> seq<GlkError>)
    requires forall k, w :: log(k, w) == InputSetErrors(w, k, typed)
    ensures LogOf(W, ids, log) == InputSetErrorsOf(W, ids, typed)
    decreases |ids|
  {
    if ids != {} {
      InputSetErrorsAsLog(W, ids - {Least(ids)}, typed, log);
    }
  }

  /** accept_inputset: the flags of the list, then every window in turn, with the errors
      in the order the windows are visited. */
  method InputSetPass(W: map<WinId, Window>, args: seq<InputArg>) returns (ws: map<WinId, Window>, errs: seq<GlkError>)
    ensures ws == InputSetWindows(W, args)
    ensures errs == InputSetErrorsOf(W, W.Keys, TypedMap(args))
  {
    var typed, hl, mice := InputFlags(args);
    var log := (k: WinId, w: Window) => InputSetErrors(w, k, typed);
    ws, errs := EachWindowLog(W, (k: WinId, w: Window) => InputSetWindow(w, k, typed, hl, mice), log);
    InputSetPointwise(W, args, ws);
    InputSetErrorsAsLog(W, W.Keys, typed, log);
  }

  /** The scroll pass at the end of an update. */
  method ScrollAll(W: map<WinId, Window>, cfg: Config, layout: Layout) returns (ws: map<WinId, Window>)
    ensures ws == ScrollPass(W, cfg, layout)
  {
    ws := EachWindow(W, (k: WinId, w: Window) => ScrollWindow(w, cfg, layout.seenTo(k), layout.moreBelow(k)));
    ScrollPointwise(W, cfg, layout, ws);
  }

  /** The counting pass of readjust_paging_focus: the windows with paging pending, and the
      one the paging keys go to; nothing when paging is off. */
  method PagingCandidate(W: map<WinId, Window>, cfg: Config, lastPaging: int) returns (count: int, pageable: int)
    ensures count == PagingCount(W, cfg) && pageable == PagingChoice(W, cfg, lastPaging)
  {
    count, pageable := 0, 0;
    if cfg.performPaging {
      count, pageable := PreferPass(W, (w: Window) => w.needspaging, lastPaging);
      assert Passing(W, (w: Window) => w.needspaging) == PagingWindows(W);
    }
  }

  /** The focus pass: the window that last had the focus if it still wants input, else the
      first that does; none while disabled or paging. */
  method FocusCandidate(W: map<WinId, Window>, disabled: bool, pagingCount: int, lastFocus: int) returns (f: int)
    ensures f == FocusChoice(W, disabled, pagingCount, lastFocus)
  {
    f := 0;
    if !disabled && pagingCount == 0 {
      var _, chosen := PreferPass(W, (w: Window) => w.input.Some?, lastFocus);
      assert Passing(W, (w: Window) => w.input.Some?) == InputWindows(W);
      f := chosen;
    }
  }

  /** A canvas's draw ops pushed one by one onto the shared queue, tagged with its id. */
  method PushOps(q0: seq<QOp>, id: WinId, ops: seq<DrawOp>) returns (q: seq<QOp>)
    ensures q == q0 + Tag(id, ops)
  {
    q := q0;
    var i := 0;
    while i < |ops|
      invariant 0 <= i <= |ops|
      invariant q == q0 + Tag(id, ops[..i])
    {
      assert Tag(id, ops[..i + 1]) == Tag(id, ops[..i]) + [QOp(id, ops[i])];
      q := q + [QOp(id, ops[i])];
      i := i + 1;
    }
    assert ops[..i] == ops;
  }

  /** accept_one_window on the window table: the window found or created, its type checked
      against the argument, its payload arranged, and a redraw owed by a resized canvas. */
  method AcceptEntry(r: Reg, m: Metrics, a: WindowArg) returns (r': Reg)
    ensures r' == AcceptOne(r, m, a)
  {
    var prior := Prior(r.windows, a.id);
    var w := if prior.None? then NewWindow(a) else prior.value;
    var errs, defs := r.errors, r.deferred;
    if prior.Some? && w.Type() != a.wtype {
      errs := errs + [TypeMismatch(a.id, w.Type(), a.wtype)];
    }
    var d, redraw := ArrangePayload(w.data, a, prior.None?);
    if redraw {
      defs := defs + [RedrawLater(a.id)];
    }
    w := w.(inplace := true, data := d, coords := Place(m, a));
    r' := Reg(r.windows[a.id := w], errs, defs);
  }

  /** One pass of the loop of perform_graphics_ops on the op at the head of the queue,
      with the image held for it, if any. */
  method DrawStep(g: Gfx, loaded: Option<Loaded>) returns (g': Gfx, l: Option<Loaded>, suspended: bool)
    requires g.queue != []
    ensures StepResult(g', l, suspended) == Step(g, loaded, false)
  {
    var op := g.queue[0];
    g', l, suspended := g.(queue := g.queue[1..]), None, false;
    if !(op.winid in g.windows && g.windows[op.winid].data.GraphicsData?) {
      return;
    }
    var d := g.windows[op.winid].data;
    match op.op {
      case SetColor(c) =>
        g' := g'.(windows := g.windows[op.winid := g.windows[op.winid].(data := d.(defcolor := c))]);
      case Fill(c, area) =>
        var style := if c.Some? then c.value else d.defcolor;
        var d' := if area.None? then d.(background := style) else d;
        g' := g'.(windows := g.windows[op.winid := g.windows[op.winid].(data := d')],
                  painted := g.painted + [FillPaint(op.winid, style, area)]);
      case DrawImage(_, _, _, _, _, _) =>
        g', l, suspended := DrawImageStep(g, loaded);
      case UnknownOp(_) =>
    }
  }

  /** An image op of a canvas: the held image, else a usable cached one, is painted and
      cached, except after a failed load; with neither, the broken cache entry is dropped
      and the op waits at the head of the queue for its image. */
  method DrawImageStep(g: Gfx, loaded: Option<Loaded>) returns (g': Gfx, l: Option<Loaded>, suspended: bool)
    requires g.queue != [] && g.queue[0].op.DrawImage? && CanDraw(g, g.queue[0].winid)
    ensures StepResult(g', l, suspended) == Step(g, loaded, false)
  {
    var q := g.queue[0];
    var image := q.op.image;
    var img := loaded;
    var cache := g.cache;
    if img.None? {
      if CacheHit(cache, image) {
        img := Some(Loaded(cache[image], true));
      } else {
        cache := cache - {image};
      }
    }
    l, suspended := None, false;
    if img.None? {
      g', suspended := g.(cache := cache, pending := Some(image)), true;
    } else if img.value.ok {
      var b := img.value.bitmap;
      g' := g.(queue := g.queue[1..], cache := cache[image := b],
               painted := g.painted + [ImagePaint(q.winid, b, q.op.x, q.op.y, q.op.width, q.op.height)]);
    } else {
      g' := g.(queue := g.queue[1..], cache := cache);
    }
  }

  /** The loop of perform_graphics_ops: ops run until the queue is empty or an image op
      waits for its image; the held image is given up after the first op. */
  method DrainQueue(g: Gfx, loaded: Option<Loaded>) returns (g': Gfx)
    ensures g' == DrawQueue.Run(g, loaded, false)
  {
    g' := g;
    var l := loaded;
    while g'.queue != []
      invariant DrawQueue.Run(g', l, false) == DrawQueue.Run(g, loaded, false)
      decreases |g'.queue|
    {
      var suspended;
      var g1;
      g1, l, suspended := DrawStep(g', l);
      if suspended {
        return g1;
      }
      g' := g1;
    }
  }

  /** accept_windowset on the window table: every window marked, each listed one accepted
      in turn, and the windows not listed closed. */
  method WindowSetPass(r: Reg, m: Metrics, args: seq<WindowArg>) returns (r': Reg)
    ensures r' == WindowSet(r, m, args)
  {
    var ws := MarkPass(r.windows);
    r' := r.(windows := ws);
    ghost var r0 := r';
    var j := 0;
    while j < |args|
      invariant 0 <= j <= |args|
      invariant r' == AcceptAll(r0, m, args[..j])
    {
      assert args[..j + 1][..j] == args[..j];
      r' := AcceptEntry(r', m, args[j]);
      j := j + 1;
    }
    assert args[..j] == args;
    ws := SweepPass(r'.windows);
    r' := r'.(windows := ws);
  }

  /** A content entry applied to its window: grid lines replaced, or buffer text added and
      the scrollback trimmed; a canvas only needs scrolling. */
  method ContentPass(w: Window, a: ContentArg, max: BufferLimit, offtop: int) returns (w': Window, bad: seq<int>)
    ensures (w', bad) == ContentWindow(w, a, max, offtop)
  {
    var w1 := w.(needscroll := true);
    w', bad := w1, [];
    match w1.data {
      case GridData(lines, gw) =>
        var l;
        l, bad := GridContent(lines, a.lines);
        w' := w1.(data := GridData(l, gw));
      case BufferData(_) =>
        var f := BufferContent(FrameOf(w1), a.clear, a.text, max, offtop);
        w' := w1.(data := BufferData(f.paras), prevmark := f.prevmark, topunseen := f.topunseen,
                  pagefrommark := f.pagefrommark);
      case GraphicsData(_, _, _, _) =>
    }
  }
}
