// The bounded window of recently handled request ids, oldest first.

module RequestWindow {

  /** The window after making room for one more id: the oldest ids go. */
  function MakeRoom<T>(window: seq<T>, maxEntries: nat): seq<T> {
    if |window| < maxEntries then window
    else if maxEntries == 0 then []
    else window[|window| - maxEntries + 1..]
  }

  /** The window after `add`: an id that is present stays where it is. */
  function Add<T(==)>(window: seq<T>, id: T, maxEntries: nat): seq<T> {
    if id in window then window else MakeRoom(window, maxEntries) + [id]
  }

  function AddAll<T(==)>(window: seq<T>, ids: seq<T>, maxEntries: nat): seq<T>
    decreases |ids|
  {
    if ids == [] then window else AddAll(Add(window, ids[0], maxEntries), ids[1..], maxEntries)
  }

  /** The additions that changed the window: those of ids that were not present. */
  function Effective<T(==)>(window: seq<T>, ids: seq<T>, maxEntries: nat): seq<T>
    decreases |ids|
  {
    if ids == [] then []
    else
      (if ids[0] in window then [] else [ids[0]]) + Effective(Add(window, ids[0], maxEntries), ids[1..], maxEntries)
  }

  /** The last n elements, or all of them. */
  function Last<T>(xs: seq<T>, n: nat): seq<T> {
    if |xs| <= n then xs else xs[|xs| - n..]
  }

  /** A limit of zero still leaves room for the newest id. */
  function Capacity(maxEntries: nat): nat { if maxEntries == 0 then 1 else maxEntries }

  lemma AddIsLast<T>(window: seq<T>, id: T, maxEntries: nat)
    requires |window| <= Capacity(maxEntries) && id !in window
    ensures Add(window, id, maxEntries) == Last(window + [id], Capacity(maxEntries))
  {
  }

  /**
   * After any additions, the window is what is left of the old window and of the effective additions
   * when only the newest are kept.
   */
  lemma {:induction false} IsFifo<T>(window: seq<T>, ids: seq<T>, maxEntries: nat)
    requires |window| <= Capacity(maxEntries)
    ensures AddAll(window, ids, maxEntries) == Last(window + Effective(window, ids, maxEntries), Capacity(maxEntries))
    decreases |ids|
  {
    var n := Capacity(maxEntries);
    if ids == [] {
      assert window + [] == window;
    } else {
      var next := Add(window, ids[0], maxEntries);
      var rest := Effective(next, ids[1..], maxEntries);
      if ids[0] in window {
        IsFifo(window, ids[1..], maxEntries);
        assert Effective(window, ids, maxEntries) == rest;
      } else {
        AddIsLast(window, ids[0], maxEntries);
        IsFifo(next, ids[1..], maxEntries);
        FifoStep(window, ids[0], rest, n);
      }
    }
  }

  lemma FifoStep<T>(window: seq<T>, id: T, rest: seq<T>, n: nat)
    ensures Last(Last(window + [id], n) + rest, n) == Last(window + ([id] + rest), n)
  {
    LastOfLast(window + [id], rest, n);
    assert window + ([id] + rest) == (window + [id]) + rest;
  }

  lemma LastOfLast<T>(xs: seq<T>, ys: seq<T>, n: nat)
    ensures Last(Last(xs, n) + ys, n) == Last(xs + ys, n)
  {
  }

  /**
   * An empty cache after any additions holds exactly the newest effective additions, as many as fit;
   * so the id added last survives the next ones until as many new ids as fit have followed it.
   */
  lemma HoldsNewest<T>(ids: seq<T>, maxEntries: nat)
    ensures AddAll([], ids, maxEntries) == Last(Effective([], ids, maxEntries), Capacity(maxEntries))
    ensures |AddAll([], ids, maxEntries)| <= if maxEntries == 0 then 1 else maxEntries
    ensures |Effective([], ids, maxEntries)| <= maxEntries ==> AddAll([], ids, maxEntries) == Effective([], ids, maxEntries)
  {
    IsFifo([], ids, maxEntries);
    assert [] + Effective([], ids, maxEntries) == Effective([], ids, maxEntries);
  }

  /** An id just added is still there after fewer than `Capacity` effective additions, and not because it was refreshed. */
  lemma SurvivesWindow<T>(window: seq<T>, id: T, ids: seq<T>, maxEntries: nat)
    requires |window| <= Capacity(maxEntries) && id !in window
    requires |Effective(Add(window, id, maxEntries), ids, maxEntries)| < Capacity(maxEntries)
    ensures id in AddAll(Add(window, id, maxEntries), ids, maxEntries)
  {
    var next := Add(window, id, maxEntries);
    AddIsLast(window, id, maxEntries);
    IsFifo(next, ids, maxEntries);
    var all := next + Effective(next, ids, maxEntries);
    assert all[|next| - 1] == id;
    assert Last(all, Capacity(maxEntries))[|Last(all, Capacity(maxEntries))| - (|all| - |next|) - 1] == id;
  }
}
