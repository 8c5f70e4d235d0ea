/** The shapes of the library's loops over its window table, `Object.values(windowdic)`
    followed by a callback, written once for any kind of table entry. Each visits the ids
    in ascending order, taking the least id not yet visited, and is proved to do to every
    entry what its callback says. */
module WindowTable {
  import opened GlkTypes
  import opened Ordering

  /** A pass whose callback rewrites the entry it is given: every entry is replaced by
      the callback's result, and no entry is added or removed. */
  method EachWindow<V>(W: map<WinId, V>, cb: (WinId, V) -> V) returns (ws: map<WinId, V>)
    ensures ws.Keys == W.Keys
    ensures forall k :: k in W ==> ws[k] == cb(k, W[k])
  {
    ws := W;
    var rest := W.Keys;
    while rest != {}
      invariant rest <= W.Keys && ws.Keys == W.Keys
      invariant forall k :: k in W ==> ws[k] == if k in rest then W[k] else cb(k, W[k])
      decreases |rest|
    {
      var k := Least(rest);
      ws := ws[k := cb(k, ws[k])];
      rest := rest - {k};
    }
  }

  /** What the callbacks of a pass report for the entries `ids`, in ascending id order. */
  function LogOf<V, E>(W: map<WinId, V>, ids: set<WinId>, log: (WinId, V) -> seq<E>): seq<E>
    decreases |ids|
  {
    if ids == {} then []
    else
      var k := Least(ids);
      (if k in W then log(k, W[k]) else []) + LogOf(W, ids - {k}, log)
  }

  /** A rewriting pass whose callback also reports something (errors, say): the entries as
      EachWindow leaves them, and the reports in visiting order. */
  method EachWindowLog<V, E>(W: map<WinId, V>, cb: (WinId, V) -> V, log: (WinId, V) -> seq<E>)
    returns (ws: map<WinId, V>, out: seq<E>)
    ensures ws.Keys == W.Keys
    ensures forall k :: k in W ==> ws[k] == cb(k, W[k])
    ensures out == LogOf(W, W.Keys, log)
  {
    ws, out := W, [];
    var rest := W.Keys;
    while rest != {}
      invariant rest <= W.Keys && ws.Keys == W.Keys
      invariant forall k :: k in W ==> ws[k] == if k in rest then W[k] else cb(k, W[k])
      invariant out + LogOf(W, rest, log) == LogOf(W, W.Keys, log)
      decreases |rest|
    {
      var k := Least(rest);
      out := out + log(k, ws[k]);
      ws := ws[k := cb(k, ws[k])];
      rest := rest - {k};
    }
  }

  /** A pass that closes every entry its test rejects and leaves the others as they were. */
  method KeepWindows<V>(W: map<WinId, V>, keep: (WinId, V) -> bool) returns (ws: map<WinId, V>)
    ensures forall k :: k in ws <==> k in W && keep(k, W[k])
    ensures forall k :: k in ws ==> ws[k] == W[k]
  {
    ws := W;
    var rest := W.Keys;
    while rest != {}
      invariant rest <= W.Keys
      invariant forall k :: k in ws ==> k in W && ws[k] == W[k]
      invariant forall k :: k in W ==> (k in ws <==> k in rest || keep(k, W[k]))
      decreases |rest|
    {
      var k := Least(rest);
      if !keep(k, W[k]) {
        ws := ws - {k};
      }
      rest := rest - {k};
    }
  }

  /** A pass that collects a value from every entry its test picks, by id. */
  method CollectWindows<V, U>(W: map<WinId, V>, pick: (WinId, V) -> bool, val: V -> U) returns (m: map<WinId, U>)
    ensures forall k :: k in m <==> k in W && pick(k, W[k])
    ensures forall k :: k in m ==> k in W && m[k] == val(W[k])
  {
    m := map[];
    var rest := W.Keys;
    while rest != {}
      invariant rest <= W.Keys
      invariant forall k :: k in m ==> k in W && k !in rest && pick(k, W[k]) && m[k] == val(W[k])
      invariant forall k :: k in W && k !in rest && pick(k, W[k]) ==> k in m
      decreases |rest|
    {
      var k := Least(rest);
      if pick(k, W[k]) {
        m := m[k := val(W[k])];
      }
      rest := rest - {k};
    }
  }

  /** The entries a test accepts. */
  function Passing<V>(W: map<WinId, V>, test: V -> bool): set<WinId> {
    set k | k in W && test(W[k])
  }

  /** The pass `if (test(win)) { count++; if (!chosen || win.id == preferred) chosen = win.id; }`:
      how many entries pass the test, and the one chosen. */
  method PreferPass<V>(W: map<WinId, V>, test: V -> bool, preferred: int) returns (count: int, chosen: int)
    ensures count == |Passing(W, test)|
    ensures chosen == Prefer(Passing(W, test), preferred)
  {
    count, chosen := 0, 0;
    var rest := W.Keys;
    ghost var seen: set<WinId> := {};
    while rest != {}
      invariant rest <= W.Keys
      invariant forall x :: x in seen ==> x in W && x !in rest && test(W[x])
      invariant forall x :: x in W && x !in rest && test(W[x]) ==> x in seen
      invariant forall x, y :: x in seen && y in rest ==> x < y
      invariant count == |seen| && chosen == Prefer(seen, preferred)
      decreases |rest|
    {
      var k := Least(rest);
      if test(W[k]) {
        PreferStep(seen, k, preferred);
        count := count + 1;
        if chosen == 0 || k == preferred {
          chosen := k;
        }
        seen := seen + {k};
      }
      rest := rest - {k};
    }
    assert seen == Passing(W, test);
  }
}
