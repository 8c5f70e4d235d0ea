/** The shared queue of graphics draw ops: consumed head first, ops for windows without a
    canvas dropped, and image ops that wait for their image to load. */
module DrawQueue {
  import opened GlkTypes

  /** An image handed back by a load callback (`ok` is false for the error callback) or
      found in the cache. */
  datatype Loaded = Loaded(bitmap: Bitmap, ok: bool)

  /** The part of the session the draw queue works on: the window table, the queue, the
      image cache, the image being loaded, and what has been painted. */
  datatype Gfx = Gfx(
    windows: map<WinId, Window>, queue: seq<QOp>, cache: map<int, Bitmap>,
    pending: Option<int>, painted: seq<Paint>)

  function GfxOf(s: St): Gfx {
    Gfx(s.windows, s.drawQueue, s.imageCache, s.pendingLoad, s.painted)
  }

  function WithGfx(s: St, g: Gfx): St {
    s.(windows := g.windows, drawQueue := g.queue, imageCache := g.cache,
       pendingLoad := g.pending, painted := g.painted)
  }

  /** A queued op can run when its window still exists and has a canvas. */
  predicate CanDraw(g: Gfx, id: WinId) {
    id in g.windows && g.windows[id].data.GraphicsData?
  }

  /** A usable cache entry: a decoded image with a positive size. */
  predicate CacheHit(cache: map<int, Bitmap>, image: int) {
    image in cache && cache[image].width > 0 && cache[image].height > 0
  }

  /** The window `id` with its graphics state replaced. */
  function SetGraphics(g: Gfx, id: WinId, d: Payload): Gfx
    requires id in g.windows
  {
    g.(windows := g.windows[id := g.windows[id].(data := d)])
  }

  /** Where one op leaves the queue: the new state, the image still held, and whether the
      queue now waits for an image load. */
  datatype StepResult = StepResult(g: Gfx, loaded: Option<Loaded>, suspended: bool)

  /** One pass of the loop on the op at the head of the queue. An op whose window is gone
      or has no canvas is dropped; `setcolor` sets the default colour; `fill` paints with
      its colour or the default one, and one without a rectangle sets the background; an
      image op paints the held image, or a cached one, and caches it, except after a
      failed load; with no image at hand it drops the broken cache entry and waits, the op
      still at the head. `carry` says whether a held image survives an op that does not use
      it: the code as written keeps it, the intended behaviour drops it with the op. */
  function Step(g: Gfx, loaded: Option<Loaded>, carry: bool): (r: StepResult)
    requires g.queue != []
    ensures !r.suspended ==> r.g.queue == g.queue[1..] && r.g.pending == g.pending
    ensures r.suspended ==>
      && r.g.queue == g.queue && r.g.windows == g.windows && r.g.painted == g.painted
      && g.queue[0].op.DrawImage? && CanDraw(g, g.queue[0].winid)
      && r.g.pending == Some(g.queue[0].op.image) && g.queue[0].op.image !in r.g.cache
    ensures r.g.windows.Keys == g.windows.Keys
    ensures |g.painted| <= |r.g.painted| && r.g.painted[..|g.painted|] == g.painted
    ensures !carry ==> r.loaded.None?
  {
    var q := g.queue[0];
    var keep := if carry then loaded else None;
    var rest := g.queue[1..];
    if !CanDraw(g, q.winid) then StepResult(g.(queue := rest), keep, false)
    else
      var d := g.windows[q.winid].data;
      match q.op
      case SetColor(c) =>
        StepResult(SetGraphics(g, q.winid, d.(defcolor := c)).(queue := rest), keep, false)
      case Fill(c, area) =>
        var style := if c.Some? then c.value else d.defcolor;
        var d' := if area.None? then d.(background := style) else d;
        var g1 := SetGraphics(g, q.winid, d');
        StepResult(g1.(queue := rest, painted := g.painted + [FillPaint(q.winid, style, area)]), keep, false)
      case DrawImage(image, _, x, y, width, height) =>
        var hit := CacheHit(g.cache, image);
        var l := if loaded.Some? then loaded
                 else if hit then Some(Loaded(g.cache[image], true)) else None;
        var cache := if loaded.None? && !hit then g.cache - {image} else g.cache;
        if l.None? then StepResult(g.(cache := cache, pending := Some(image)), None, true)
        else if l.value.ok then
          StepResult(g.(queue := rest, cache := cache[image := l.value.bitmap],
                        painted := g.painted + [ImagePaint(q.winid, l.value.bitmap, x, y, width, height)]),
                     None, false)
        else StepResult(g.(queue := rest, cache := cache), None, false)
      case UnknownOp(_) => StepResult(g.(queue := rest), keep, false)
  }

  /** The loop of perform_graphics_ops: ops run until the queue is empty or an image op
      waits for its image. */
  function Run(g: Gfx, loaded: Option<Loaded>, carry: bool): (r: Gfx)
    ensures r.windows.Keys == g.windows.Keys
    ensures r.queue == [] || (r.queue[0].op.DrawImage? && r.pending == Some(r.queue[0].op.image))
    ensures r.queue == [] ==> r.pending == g.pending
    ensures |g.painted| <= |r.painted|
    decreases |g.queue|
  {
    if g.queue == [] then g
    else
      var r := Step(g, loaded, carry);
      if r.suspended then r.g else Run(r.g, r.loaded, carry)
  }

  /** perform_graphics_ops with the intended handling of a held image. */
  function Drain(s: St, loaded: Option<Loaded>): (r: St)
    ensures Drained(s, r)
  {
    RunConsumesFront(GfxOf(s), loaded, false);
    WithGfx(s, Run(GfxOf(s), loaded, false))
  }

  /** perform_graphics_ops as written. */
  function DrainAsWritten(s: St, loaded: Option<Loaded>): (r: St)
    ensures Drained(s, r)
  {
    RunConsumesFront(GfxOf(s), loaded, true);
    WithGfx(s, Run(GfxOf(s), loaded, true))
  }

  /** What a run of the queue leaves: the queue is empty or waits on the image of its head
      op, it is what remained of the old queue, paint was only added, no window appeared or
      disappeared, and no event, error or generation changed. */
  predicate Drained(s: St, r: St) {
    && (r.drawQueue == [] || (r.drawQueue[0].op.DrawImage? && r.pendingLoad == Some(r.drawQueue[0].op.image)))
    && |r.drawQueue| <= |s.drawQueue| && r.drawQueue == s.drawQueue[|s.drawQueue| - |r.drawQueue|..]
    && |s.painted| <= |r.painted| && r.painted[..|s.painted|] == s.painted
    && r.windows.Keys == s.windows.Keys
    && r.sent == s.sent && r.errors == s.errors && r.generation == s.generation
    && r.disabled == s.disabled && r.deferred == s.deferred
  }

  /** The load or error callback of the pending image: the queue runs again holding the
      decoded image. With no load pending there is no callback, and nothing happens. */
  function ResumeGfx(g: Gfx, ok: bool, width: int, height: int, carry: bool): Gfx {
    if g.pending.None? then g
    else Run(g.(pending := None), Some(Loaded(Bitmap(g.pending.value, width, height), ok)), carry)
  }

  /** The load callback with the intended handling of the held image: with no load
      pending nothing happens; otherwise the queue runs on from where it waited, and no
      longer waits for that load. */
  function Resume(s: St, ok: bool, width: int, height: int): (r: St)
    ensures s.pendingLoad.None? ==> r == s
    ensures s.pendingLoad.Some? ==> r.pendingLoad.None? || r.drawQueue != []
    ensures r.windows.Keys == s.windows.Keys && r.sent == s.sent && r.errors == s.errors
  {
    WithGfx(s, ResumeGfx(GfxOf(s), ok, width, height, false))
  }

  /** The load callback as written; it has the same outline as Resume. */
  function ResumeAsWritten(s: St, ok: bool, width: int, height: int): (r: St)
    ensures s.pendingLoad.None? ==> r == s
    ensures s.pendingLoad.Some? ==> r.pendingLoad.None? || r.drawQueue != []
    ensures r.windows.Keys == s.windows.Keys && r.sent == s.sent && r.errors == s.errors
  {
    WithGfx(s, ResumeGfx(GfxOf(s), ok, width, height, true))
  }

  /** The code as written and the intended code differ only while an image is held: a run
      that starts with none behaves the same either way. */
  lemma {:induction false} CarryNeedsHeldImage(g: Gfx)
    ensures Run(g, None, true) == Run(g, None, false)
    decreases |g.queue|
  {
    if g.queue != [] {
      var st := Step(g, None, true);
      assert st == Step(g, None, false);
      assert st.loaded.None?;
      if !st.suspended {
        CarryNeedsHeldImage(st.g);
      }
    }
  }

  /** The queue is consumed strictly from the front, paint is only ever added, and no
      window appears or disappears. */
  lemma {:induction false} RunConsumesFront(g: Gfx, loaded: Option<Loaded>, carry: bool)
    ensures var r := Run(g, loaded, carry);
      && |r.queue| <= |g.queue| && r.queue == g.queue[|g.queue| - |r.queue|..]
      && |g.painted| <= |r.painted| && r.painted[..|g.painted|] == g.painted
      && r.windows.Keys == g.windows.Keys
    decreases |g.queue|
  {
    if g.queue != [] {
      var st := Step(g, loaded, carry);
      if !st.suspended {
        RunConsumesFront(st.g, st.loaded, carry);
        var r := Run(st.g, st.loaded, carry);
        assert r.queue == g.queue[|g.queue| - |r.queue|..];
        assert r.painted[..|g.painted|] == r.painted[..|st.g.painted|][..|g.painted|];
      }
    }
  }

  /** Where a run stops: either the queue is empty and nothing is loading, or its head is
      an image op of a window with a canvas, waiting for that very image, which the cache
      does not hold. */
  ghost predicate Settled(g: Gfx) {
    || (g.queue == [] && g.pending.None?)
    || (&& g.queue != []
        && g.queue[0].op.DrawImage?
        && CanDraw(g, g.queue[0].winid)
        && g.pending == Some(g.queue[0].op.image)
        && g.queue[0].op.image !in g.cache)
  }

  lemma {:induction false} RunSettles(g: Gfx, loaded: Option<Loaded>, carry: bool)
    requires g.pending.None?
    ensures Settled(Run(g, loaded, carry))
    decreases |g.queue|
  {
    if g.queue != [] {
      var st := Step(g, loaded, carry);
      if !st.suspended {
        RunSettles(st.g, st.loaded, carry);
      }
    }
  }

  /** An image op that finds neither a held nor a cached image leaves the queue as it was,
      with that op at its head, and waits for its image. */
  lemma UncachedImageSuspends(g: Gfx)
    requires g.queue != [] && g.queue[0].op.DrawImage? && CanDraw(g, g.queue[0].winid)
    requires !CacheHit(g.cache, g.queue[0].op.image)
    ensures var r := Run(g, None, false);
      && r.queue == g.queue && r.windows == g.windows && r.painted == g.painted
      && r.pending == Some(g.queue[0].op.image)
      && g.queue[0].op.image !in r.cache
  {
  }

  /** An op whose window is gone (or has no canvas) is dropped without effect, and the
      intended behaviour drops a held image with it. */
  lemma MissingWindowDropped(g: Gfx, loaded: Option<Loaded>)
    requires g.queue != [] && !CanDraw(g, g.queue[0].winid)
    ensures Run(g, loaded, false) == Run(g.(queue := g.queue[1..]), None, false)
    ensures Run(g, loaded, true) == Run(g.(queue := g.queue[1..]), loaded, true)
  {
  }

  /** A resumed load removes exactly the op that waited for it; the image is cached and
      painted only when the load succeeded, and the queue then runs on. */
  lemma ResumeConsumesHead(g: Gfx, ok: bool, width: int, height: int)
    requires Settled(g) && g.queue != []
    ensures var q := g.queue[0];
      var b := Bitmap(q.op.image, width, height);
      var g1 := if ok then g.(cache := g.cache[q.op.image := b],
                              painted := g.painted + [ImagePaint(q.winid, b, q.op.x, q.op.y, q.op.width, q.op.height)])
                else g;
      ResumeGfx(g, ok, width, height, false) == Run(g1.(queue := g.queue[1..], pending := None), None, false)
  {
  }

  /** A fill without a rectangle records its colour, or the default colour, as the window's
      background. */
  lemma FullFillSetsBackground(g: Gfx, loaded: Option<Loaded>)
    requires g.queue != [] && CanDraw(g, g.queue[0].winid)
    requires g.queue[0].op.Fill? && g.queue[0].op.rect.None?
    ensures var q := g.queue[0];
      var d := g.windows[q.winid].data;
      var style := if q.op.fillColor.Some? then q.op.fillColor.value else d.defcolor;
      Run(g, loaded, false) == Run(SetGraphics(g, q.winid, d.(background := style)).(
        queue := g.queue[1..], painted := g.painted + [FillPaint(q.winid, style, None)]), None, false)
  {
  }

  /** Every cached image is stored under its own image number. */
  ghost predicate CacheSound(g: Gfx) {
    forall k :: k in g.cache ==> g.cache[k].image == k
  }

  /** A held image, if any, is the one the head op asked for. */
  ghost predicate LoadedFitsHead(g: Gfx, loaded: Option<Loaded>) {
    loaded.Some? ==>
      g.queue != [] && g.queue[0].op.DrawImage? && loaded.value.bitmap.image == g.queue[0].op.image
  }

  lemma StepKeepsCacheSound(g: Gfx, loaded: Option<Loaded>)
    requires g.queue != [] && CacheSound(g) && LoadedFitsHead(g, loaded)
    ensures CacheSound(Step(g, loaded, false).g)
  {
  }

  lemma {:induction false} RunKeepsCacheSound(g: Gfx, loaded: Option<Loaded>)
    requires CacheSound(g) && LoadedFitsHead(g, loaded)
    ensures CacheSound(Run(g, loaded, false))
    decreases |g.queue|
  {
    if g.queue != [] {
      StepKeepsCacheSound(g, loaded);
      var st := Step(g, loaded, false);
      if !st.suspended {
        RunKeepsCacheSound(st.g, st.loaded);
      }
    }
  }

  /** The intended queue never files an image under another image's number. */
  lemma ResumeKeepsCacheSound(g: Gfx, ok: bool, width: int, height: int)
    requires CacheSound(g) && Settled(g)
    ensures CacheSound(ResumeGfx(g, ok, width, height, false))
  {
    if g.pending.Some? {
      RunKeepsCacheSound(g.(pending := None), Some(Loaded(Bitmap(g.pending.value, width, height), ok)));
    }
  }

  /** Window 1 closed while image 10 was loading for it; next in the queue is image 20 for
      window 2. As written, the loaded image 10 is painted in window 2 and cached as
      image 20; intended, image 20 is looked up and loaded in its own right. */
  lemma LoadedImageCarriedPastDroppedOp()
    ensures var r := ResumeGfx(ClosedWhileLoading, true, 8, 8, true);
      && r.cache == map[20 := Bitmap(10, 8, 8)]
      && r.painted == [ImagePaint(2, Bitmap(10, 8, 8), 0, 0, 8, 8)]
      && !CacheSound(r)
    ensures var r := ResumeGfx(ClosedWhileLoading, true, 8, 8, false);
      && r.cache == map[]
      && r.painted == []
      && r.pending == Some(20)
      && r.queue == [QOp(2, DrawImage(20, "pict20.png", 0, 0, 8, 8))]
  {
    var g := ClosedWhileLoading.(pending := None);
    var rest := [QOp(2, DrawImage(20, "pict20.png", 0, 0, 8, 8))];
    assert g.queue[1..] == rest;
    var none: map<int, Bitmap> := map[];
    assert none - {20} == none;
  }

  const ClosedWhileLoading: Gfx := Gfx(
    map[2 := Window(2, 0, GraphicsData(8, 8, "#FFF", "#FFF"), Coords(0, 0, 0, 0), None, {},
                    false, false, false, false, 0, 0, false, false, [], 0, true)],
    [QOp(1, DrawImage(10, "pict10.png", 0, 0, 8, 8)), QOp(2, DrawImage(20, "pict20.png", 0, 0, 8, 8))],
    map[], Some(10), [])
}
