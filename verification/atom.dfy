/** The observable cell `Atom` of the page script: a current value, an
    ordered list of watchers and, as the record of what the watchers were
    called with, a delivery log. A watcher is known by an identifier: every
    `addWatcher` call of the script passes a new closure, and closures are
    compared by identity, so the registration identifier is that identity.
    Values of `T` are compared with Dafny's `==`, which is JavaScript's `!==`
    negated once every object carries its own identity (see `Js.Value`). */
module Atoms {

  /** One call `watcher(value)`. */
  datatype Delivery<T> = Delivery(watcher: nat, value: T)

  datatype Atom<T> = Atom(value: T, watchers: seq<nat>, log: seq<Delivery<T>>)

  /** `Atom(initValue)`: no watchers, nothing delivered. */
  function NewAtom<T>(init: T): (a: Atom<T>)
    ensures a.value == init && a.watchers == [] && a.log == []
  {
    Atom(init, [], [])
  }

  /** `watchers.forEach((watcher) => watcher(v))`: one call per watcher, in
      registration order. */
  function Notify<T>(ws: seq<nat>, v: T): (ds: seq<Delivery<T>>)
    ensures |ds| == |ws|
    ensures forall i :: 0 <= i < |ws| ==> ds[i] == Delivery(ws[i], v)
  {
    if |ws| == 0 then [] else [Delivery(ws[0], v)] + Notify(ws[1..], v)
  }

  /** `set(val)`: a different value is stored and delivered to every
      watcher; an identical one changes nothing. */
  function Set<T(==)>(a: Atom<T>, v: T): (r: Atom<T>)
    ensures v != a.value ==> r == Atom(v, a.watchers, a.log + Notify(a.watchers, v))
    ensures v == a.value ==> r == a
  {
    if v != a.value then a.(value := v, log := a.log + Notify(a.watchers, v)) else a
  }

  /** `update(f)`: `set` applied to `f` of the current value. */
  function Update<T(==)>(a: Atom<T>, f: T -> T): (r: Atom<T>)
    ensures f(a.value) != a.value ==> r.value == f(a.value) && r.watchers == a.watchers
    ensures f(a.value) != a.value ==> r.log == a.log + Notify(a.watchers, f(a.value))
    ensures f(a.value) == a.value ==> r == a
  {
    Set(a, f(a.value))
  }

  /** `addWatcher(w)`: `push` appends. */
  function AddWatcher<T>(a: Atom<T>, w: nat): (r: Atom<T>)
    ensures r.watchers == a.watchers + [w]
    ensures r.value == a.value && r.log == a.log
  {
    a.(watchers := a.watchers + [w])
  }

  /** `Array.prototype.indexOf`: the first position of `w`, or -1. */
  function IndexOf(ws: seq<nat>, w: nat): (k: int)
    ensures -1 <= k < |ws|
    ensures k == -1 <==> w !in ws
    ensures k >= 0 ==> ws[k] == w && w !in ws[..k]
  {
    if |ws| == 0 then -1
    else if ws[0] == w then 0
    else
      var k := IndexOf(ws[1..], w);
      if k == -1 then -1
      else
        assert ws[..k + 1] == [ws[0]] + ws[1..][..k];
        k + 1
  }

  /** `splice(start, 1)`: a negative start counts from the end and is
      clamped at 0, a start past the end is clamped at the length; the
      element at the resulting position, if any, is removed. */
  function SpliceOne(ws: seq<nat>, start: int): (r: seq<nat>)
    ensures 0 <= start < |ws| ==> r == ws[..start] + ws[start + 1..]
    ensures -|ws| <= start < 0 ==> r == ws[..|ws| + start] + ws[|ws| + start + 1..]
    ensures start < -|ws| && |ws| > 0 ==> r == ws[1..]
    ensures start >= |ws| ==> r == ws
    ensures |ws| == 0 ==> r == ws
  {
    var p := if start < 0 then (if |ws| + start < 0 then 0 else |ws| + start)
             else if start > |ws| then |ws| else start;
    if p < |ws| then ws[..p] + ws[p + 1..] else ws
  }

  /** `removeWatcher(w)`: `splice(indexOf(w), 1)`. A registered watcher
      loses its first occurrence and nothing else; for an unregistered one
      `indexOf` gives -1, so the last watcher is removed. */
  function RemoveWatcher<T>(a: Atom<T>, w: nat): (r: Atom<T>)
    ensures r.value == a.value && r.log == a.log
    ensures w in a.watchers ==>
              |r.watchers| == |a.watchers| - 1 &&
              multiset(r.watchers) == multiset(a.watchers) - multiset{w}
    ensures w !in a.watchers && |a.watchers| > 0 ==> r.watchers == a.watchers[..|a.watchers| - 1]
    ensures |a.watchers| == 0 ==> r == a
  {
    var ws := a.watchers;
    var k := IndexOf(ws, w);
    if k >= 0 then
      SpliceAt(ws, k);
      a.(watchers := SpliceOne(ws, k))
    else
      SpliceLast(ws);
      a.(watchers := SpliceOne(ws, k))
  }

  /** Splicing at an index removes one occurrence of the element there. */
  lemma SpliceAt(ws: seq<nat>, k: nat)
    requires k < |ws|
    ensures |SpliceOne(ws, k)| == |ws| - 1
    ensures multiset(SpliceOne(ws, k)) == multiset(ws) - multiset{ws[k]}
  {
    assert ws == ws[..k] + [ws[k]] + ws[k + 1..];
  }

  /** `splice(-1, 1)` drops the last element, if any. */
  lemma SpliceLast(ws: seq<nat>)
    ensures |ws| > 0 ==> SpliceOne(ws, -1) == ws[..|ws| - 1]
    ensures |ws| == 0 ==> SpliceOne(ws, -1) == ws
  {
    if |ws| > 0 {
      assert ws[|ws|..] == [];
    }
  }

  // ---------------------------------------------------------------------
  // Lemmas

  /** After a `set`, setting the same value again delivers nothing. */
  lemma SetIdempotent<T>(a: Atom<T>, v: T)
    ensures Set(Set(a, v), v) == Set(a, v)
    ensures Set(a, v).value == v
  {
  }

  /** Between two `set`s of different values, each watcher receives each
      new value once, in order: the log grows by one round per change. */
  lemma SetTwice<T>(a: Atom<T>, v: T, u: T)
    requires v != a.value && u != v
    ensures Set(Set(a, v), u).log == a.log + Notify(a.watchers, v) + Notify(a.watchers, u)
  {
  }

  /** A present watcher: its first occurrence, and only that, is removed. */
  lemma RemovePresentWatcher<T>(a: Atom<T>, w: nat)
    requires w in a.watchers
    ensures var k := IndexOf(a.watchers, w);
      RemoveWatcher(a, w).watchers == a.watchers[..k] + a.watchers[k + 1..] &&
      w !in a.watchers[..k]
    ensures |RemoveWatcher(a, w).watchers| == |a.watchers| - 1
    ensures multiset(RemoveWatcher(a, w).watchers) == multiset(a.watchers) - multiset{w}
  {
    var ws := a.watchers;
    var k := IndexOf(ws, w);
    assert ws == ws[..k] + [w] + ws[k + 1..];
  }

  /** An absent watcher: `indexOf` gives -1 and `splice(-1, 1)` removes the
      last watcher of a non-empty list. */
  lemma RemoveAbsentWatcher<T>(a: Atom<T>, w: nat)
    requires w !in a.watchers
    ensures |a.watchers| > 0 ==> RemoveWatcher(a, w).watchers == a.watchers[..|a.watchers| - 1]
    ensures |a.watchers| == 0 ==> RemoveWatcher(a, w) == a
  {
  }

  /** Removing a watcher just added, when it was not yet registered, gives
      the atom back. */
  lemma AddRemoveRoundTrip<T>(a: Atom<T>, w: nat)
    requires w !in a.watchers
    ensures RemoveWatcher(AddWatcher(a, w), w) == a
  {
    var ws := a.watchers + [w];
    assert IndexOf(ws, w) == |a.watchers|;
    assert ws[..|a.watchers|] == a.watchers;
  }

  /** Removing leaves value and log alone; only the watcher list changes. */
  lemma RemoveKeepsValue<T>(a: Atom<T>, w: nat)
    ensures RemoveWatcher(a, w).value == a.value && RemoveWatcher(a, w).log == a.log
    ensures multiset(RemoveWatcher(a, w).watchers) <= multiset(a.watchers)
  {
    var ws := a.watchers;
    if w !in ws && |ws| > 0 {
      assert ws == ws[..|ws| - 1] + [ws[|ws| - 1]];
    }
  }
}
