/** `subs(atom, field, fn)`: a watcher that calls `fn` with the value of
    one field, and only when that value differs from the last one it passed
    on. The remembered value starts as `undefined`. A snapshot that is no
    object, or has no such key, is ignored and leaves the memory as it is. */
module Subscriptions {
  import opened Js

  datatype Subscription = Subscription(field: string, previous: Value)

  /** The state of `subs` right after registration. */
  function Subscribe(field: string): (s: Subscription)
    ensures s.field == field && s.previous == Undefined
  {
    Subscription(field, Undefined)
  }

  /** What one snapshot does to a subscription: whether `fn` ran, and with
      which value. */
  datatype StepResult = StepResult(next: Subscription, fired: Option<Value>)

  /** The watcher body for one snapshot. */
  function SubsStep(sub: Subscription, nv: Value): (r: StepResult)
    ensures r.next.field == sub.field
    ensures r.fired.Some? <==> HasProperty(nv, sub.field) && Get(nv, sub.field) != sub.previous
    ensures r.fired.Some? ==> r.fired.value == Get(nv, sub.field) && r.next.previous == r.fired.value
    ensures r.fired.None? ==> r.next == sub
  {
    if HasProperty(nv, sub.field) then
      var current := Get(nv, sub.field);
      if current != sub.previous then StepResult(sub.(previous := current), Some(current))
      else StepResult(sub, None)
    else StepResult(sub, None)
  }

  /** The calls of `fn` over a sequence of snapshots, and the memory after. */
  datatype Reaction = Reaction(next: Subscription, fired: seq<Value>)

  function SubsRun(sub: Subscription, snaps: seq<Value>): (r: Reaction)
    ensures r.next.field == sub.field
    ensures |r.fired| <= |snaps|
    ensures r.fired == [] ==> r.next == sub
    decreases |snaps|
  {
    if |snaps| == 0 then Reaction(sub, [])
    else
      var step := SubsStep(sub, snaps[0]);
      var rest := SubsRun(step.next, snaps[1..]);
      Reaction(rest.next, (if step.fired.Some? then [step.fired.value] else []) + rest.fired)
  }

  // ---------------------------------------------------------------------
  // Reference definitions

  /** The field's values in the snapshots that have the field, in order. */
  function FieldValues(field: string, snaps: seq<Value>): seq<Value>
    decreases |snaps|
  {
    if |snaps| == 0 then []
    else if HasProperty(snaps[0], field) then [Get(snaps[0], field)] + FieldValues(field, snaps[1..])
    else FieldValues(field, snaps[1..])
  }

  /** `xs` with every element dropped that equals the one kept before it,
      `prev` standing before the first. */
  function Dedup(prev: Value, xs: seq<Value>): seq<Value>
    decreases |xs|
  {
    if |xs| == 0 then []
    else if xs[0] == prev then Dedup(prev, xs[1..])
    else [xs[0]] + Dedup(xs[0], xs[1..])
  }

  /** The last element of `xs`, or `prev` when there is none. */
  function LastOr(prev: Value, xs: seq<Value>): Value {
    if |xs| == 0 then prev else xs[|xs| - 1]
  }

  // ---------------------------------------------------------------------
  // Lemmas

  /** `subs` calls `fn` with exactly the de-duplicated sequence of the
      field's values, and remembers the last value seen. */
  lemma {:induction false} SubsRunIsDedup(sub: Subscription, snaps: seq<Value>)
    ensures SubsRun(sub, snaps).fired == Dedup(sub.previous, FieldValues(sub.field, snaps))
    ensures SubsRun(sub, snaps).next.previous == LastOr(sub.previous, FieldValues(sub.field, snaps))
    decreases |snaps|
  {
    if |snaps| > 0 {
      var step := SubsStep(sub, snaps[0]);
      SubsRunIsDedup(step.next, snaps[1..]);
      var rest := FieldValues(sub.field, snaps[1..]);
      if HasProperty(snaps[0], sub.field) {
        var x := Get(snaps[0], sub.field);
        assert FieldValues(sub.field, snaps) == [x] + rest;
        assert ([x] + rest)[1..] == rest;
        if rest != [] {
          assert ([x] + rest)[|[x] + rest| - 1] == rest[|rest| - 1];
        }
      }
    }
  }

  /** No two neighbouring values of a de-duplicated sequence are equal, and
      the first differs from `prev`. */
  lemma {:induction false} DedupNoRepeats(prev: Value, xs: seq<Value>)
    ensures var d := Dedup(prev, xs);
      (|d| > 0 ==> d[0] != prev) && forall i :: 0 <= i < |d| - 1 ==> d[i] != d[i + 1]
    decreases |xs|
  {
    if |xs| > 0 {
      DedupNoRepeats(if xs[0] == prev then prev else xs[0], xs[1..]);
      if xs[0] != prev {
        var d := Dedup(prev, xs);
        var t := Dedup(xs[0], xs[1..]);
        assert d == [xs[0]] + t;
        forall i | 0 <= i < |d| - 1
          ensures d[i] != d[i + 1]
        {
          if i > 0 {
            assert d[i] == t[i - 1] && d[i + 1] == t[i];
          }
        }
      }
    }
  }

  /** Every value `fn` receives is one of the field's values. */
  lemma {:induction false} DedupSubset(prev: Value, xs: seq<Value>)
    ensures forall x :: x in Dedup(prev, xs) ==> x in xs
    decreases |xs|
  {
    if |xs| > 0 {
      DedupSubset(if xs[0] == prev then prev else xs[0], xs[1..]);
    }
  }

  /** Consecutive calls of `fn` never repeat a value, and the first call's
      value differs from the remembered one. */
  lemma SubsNoRepeats(sub: Subscription, snaps: seq<Value>)
    ensures var f := SubsRun(sub, snaps).fired;
      (|f| > 0 ==> f[0] != sub.previous) && forall i :: 0 <= i < |f| - 1 ==> f[i] != f[i + 1]
    ensures forall x :: x in SubsRun(sub, snaps).fired ==> x in FieldValues(sub.field, snaps)
  {
    SubsRunIsDedup(sub, snaps);
    DedupNoRepeats(sub.previous, FieldValues(sub.field, snaps));
    DedupSubset(sub.previous, FieldValues(sub.field, snaps));
  }

  /** A snapshot without the field is invisible: it neither fires nor
      changes what is remembered, wherever it occurs. */
  lemma {:induction false} SubsIgnoresSnapshotsWithoutField(sub: Subscription, a: seq<Value>, nv: Value, b: seq<Value>)
    requires !HasProperty(nv, sub.field)
    ensures SubsRun(sub, a + [nv] + b) == SubsRun(sub, a + b)
    decreases |a|
  {
    if |a| == 0 {
      assert a + [nv] + b == [nv] + b;
      assert ([nv] + b)[1..] == b;
      assert a + b == b;
    } else {
      var step := SubsStep(sub, a[0]);
      SubsIgnoresSnapshotsWithoutField(step.next, a[1..], nv, b);
      assert (a + [nv] + b)[0] == a[0] && (a + [nv] + b)[1..] == a[1..] + [nv] + b;
      assert (a + b)[0] == a[0] && (a + b)[1..] == a[1..] + b;
    }
  }

  /** The same value twice in a row fires at most once. */
  lemma SubsRepeatedValueFiresOnce(sub: Subscription, nv: Value)
    requires HasProperty(nv, sub.field)
    ensures |SubsRun(sub, [nv, nv]).fired| == if Get(nv, sub.field) == sub.previous then 0 else 1
  {
    assert [nv, nv][1..] == [nv];
    var s1 := SubsStep(sub, nv);
    var s2 := SubsStep(s1.next, nv);
    assert s2.fired.None?;
    assert SubsRun(s1.next, [nv]).fired == [] by {
      assert [nv][1..] == [];
    }
  }
}
