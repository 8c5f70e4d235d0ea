/** The outbound gate: when an input event may reach the game, what it carries, and the
    uncommitted line input it reports alongside. */
module Events {
  import opened GlkTypes

  /** The set of optional features an init event declares. */
  const Support: seq<string> := ["timer", "graphics", "graphicswin", "hyperlinks"]

  /** An event goes out unless the display is disabled (a special response still goes),
      or it would repeat a generation already answered (init and refresh still go). */
  predicate Emits(s: St, req: Request)
    ensures Emits(s, req) && s.disabled ==> req.SpecialResponseReq?
    ensures req.SpecialResponseReq? && s.generation > s.generationSent ==> Emits(s, req)
    ensures (req.InitReq? || req.RefreshReq?) && !s.disabled ==> Emits(s, req)
  {
    && !(s.disabled && !req.SpecialResponseReq?)
    && !(s.generation <= s.generationSent && !(req.InitReq? || req.RefreshReq?))
  }

  /** The events that report the partial line input of the other windows. */
  predicate SavesPartial(req: Request) {
    !(req.InitReq? || req.RefreshReq? || req.SpecialResponseReq? || req.DebugInputReq?)
  }

  /** A line or char event does not report the partial input of its own window. */
  predicate FromWindow(req: Request, k: WinId) {
    (req.LineReq? || req.CharReq?) && req.window == k
  }

  /** A window whose uncommitted line input an event reports. */
  predicate ReportsPartial(w: Window, k: WinId, req: Request) {
    SavesPartial(req) && !FromWindow(req, k) && w.HasLineInput() && w.input.value.value != ""
  }

  /** The `partial` field: the typed text of every open line request with text in it,
      except the window the event comes from. */
  function Partial(ws: map<WinId, Window>, req: Request): (r: map<WinId, string>)
    ensures forall k :: k in r <==> k in ws && ReportsPartial(ws[k], k, req)
    ensures forall k :: k in r ==> k in ws && ws[k].input.Some? && r[k] == ws[k].input.value.value && r[k] != ""
    ensures !SavesPartial(req) ==> r == map[]
  {
    map k | k in ws && ReportsPartial(ws[k], k, req) :: ws[k].input.value.value
  }

  /** The event send_response builds: the current generation, its own fields, the support
      list for init, and the partial input. */
  function EventFor(s: St, req: Request): (e: Event)
    ensures e.gen == s.generation && e.req == req
    ensures e.support == (if req.InitReq? then Support else [])
  {
    Event(s.generation, req, if req.InitReq? then Support else [], Partial(s.windows, req))
  }

  /** send_response. When the event goes out, the generation sent becomes the current one
      and the event is the newest one handed to the game; otherwise nothing changes. */
  function Send(s: St, req: Request): (r: St)
    ensures !Emits(s, req) ==> r == s
    ensures s.disabled && !req.SpecialResponseReq? ==> r == s
    ensures s.generation <= s.generationSent && !(req.InitReq? || req.RefreshReq?) ==> r == s
    ensures Emits(s, req) ==>
      && r.generationSent == s.generation
      && r.sent == s.sent + [EventFor(s, req)]
      && r.(generationSent := s.generationSent, sent := s.sent) == s
  {
    if Emits(s, req) then s.(generationSent := s.generation, sent := s.sent + [EventFor(s, req)])
    else s
  }

  /** What the game has been sent is consistent with the generation counters: no event is
      newer than the generation sent, which is not newer than the current generation, and
      an event other than init or refresh is newer than every event before it. */
  ghost predicate EventsInOrder(s: St) {
    && s.generationSent <= s.generation
    && (forall i :: 0 <= i < |s.sent| ==> s.sent[i].gen <= s.generationSent)
    && (forall i, j :: 0 <= i < j < |s.sent| && !(s.sent[j].req.InitReq? || s.sent[j].req.RefreshReq?) ==>
          s.sent[i].gen < s.sent[j].gen)
  }

  lemma SendKeepsEventsInOrder(s: St, req: Request)
    requires EventsInOrder(s)
    ensures EventsInOrder(Send(s, req))
  {
    if Emits(s, req) {
      var r := Send(s, req);
      var n := |s.sent|;
      assert r.sent[n] == EventFor(s, req);
      forall i, j | 0 <= i < j < |r.sent| && !(r.sent[j].req.InitReq? || r.sent[j].req.RefreshReq?)
        ensures r.sent[i].gen < r.sent[j].gen
      {
        if j < n {
          assert r.sent[i] == s.sent[i] && r.sent[j] == s.sent[j];
        } else {
          assert r.sent[i] == s.sent[i];
        }
      }
    }
  }

  /** Hence no two events other than init and refresh carry the same generation. */
  lemma NoRepeatedGeneration(s: St, i: int, j: int)
    requires EventsInOrder(s) && 0 <= i < |s.sent| && 0 <= j < |s.sent| && i != j
    requires !(s.sent[i].req.InitReq? || s.sent[i].req.RefreshReq?)
    requires !(s.sent[j].req.InitReq? || s.sent[j].req.RefreshReq?)
    ensures s.sent[i].gen != s.sent[j].gen
  {
    if i < j {
      assert s.sent[i].gen < s.sent[j].gen;
    } else {
      assert s.sent[j].gen < s.sent[i].gen;
    }
  }

  /** A newer generation keeps the order, since it only moves the current generation up. */
  lemma NewGenerationKeepsEventsInOrder(s: St, gen: int)
    requires EventsInOrder(s) && gen >= s.generation
    ensures EventsInOrder(s.(generation := gen))
  {
  }
}
