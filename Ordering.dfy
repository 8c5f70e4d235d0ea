/** The order in which the library visits its windows. `Object.values(windowdic)` lists
    integer-like keys in ascending numeric order, so every pass over the window table is
    modelled as visiting the least id not yet visited, again and again. */
module Ordering {
  import opened GlkTypes

  /** The smallest id of a non-empty set, found by taking one element apart. */
  ghost function SomeLeast(s: set<WinId>): (m: WinId)
    requires s != {}
    ensures m in s
    ensures forall x :: x in s ==> m <= x
  {
    var x :| x in s;
    assert forall y :: y in s ==> y == x || y in s - {x};
    if s - {x} == {} then x
    else
      var m' := SomeLeast(s - {x});
      if x < m' then x else m'
  }

  function Least(s: set<WinId>): (m: WinId)
    requires s != {}
    ensures m in s
    ensures forall x :: x in s ==> m <= x
  {
    var _ := SomeLeast(s);
    var m :| m in s && forall x :: x in s ==> m <= x;
    m
  }

  /** The window a pass "if (!chosen || id == preferred) chosen = id" settles on over the
      candidates: the preferred one when it is a candidate, else the first, else 0. */
  function Prefer(cands: set<WinId>, preferred: int): (w: int)
    ensures cands != {} ==> w in cands
    ensures preferred in cands ==> w == preferred
    ensures cands != {} && preferred !in cands ==> forall c :: c in cands ==> w <= c
  {
    if cands == {} then 0
    else if preferred in cands then preferred
    else Least(cands)
  }

  lemma PreferChoosesCandidate(cands: set<WinId>, preferred: int)
    ensures Prefer(cands, preferred) == 0 <==> cands == {}
    ensures cands != {} ==> Prefer(cands, preferred) in cands
    ensures preferred in cands ==> Prefer(cands, preferred) == preferred
    ensures cands != {} && preferred !in cands ==>
      forall x :: x in cands ==> Prefer(cands, preferred) <= x
  {
    if cands != {} {
      var w := Least(cands);
      assert w > 0;
    }
  }

  /** One step of that pass, visiting an id larger than every id seen so far. */
  lemma {:induction false} PreferStep(seen: set<WinId>, id: WinId, preferred: int)
    requires forall x :: x in seen ==> x < id
    ensures Prefer(seen + {id}, preferred) ==
      (if Prefer(seen, preferred) == 0 || id == preferred then id else Prefer(seen, preferred))
  {
    var all := seen + {id};
    if seen == {} {
      assert all == {id};
      assert Least(all) == id;
    } else {
      PreferChoosesCandidate(seen, preferred);
      if preferred !in all {
        var m := Least(seen);
        var m' := Least(all);
        assert m' <= m;
        assert m' == m;
      }
    }
  }
}
