/**
 * Resources the harness acquires and releases, and traces of those events.
 * A trace is well formed when nothing is acquired twice and nothing is
 * released that is not held; Held is what is still owned at the end, so a
 * non-empty Held on an exit path is a leak.
 */
module Resources {

  datatype Res =
    | PluginRecord    // the malloc'd struct nb_plugin
    | ModuleHandle    // the dlopen'd shared object
    | Storage         // the driver's open database (nb_db / ctor result)
    | KeyBuffer       // the key buffer of key_len bytes
    | ValueBuffer     // the value buffer of val_len bytes
    | KeyFile         // the key file's descriptor
    | KeyMap          // the key file's mapping
    | HistogramBlock  // the malloc'd histogram
    | SwapBuffer      // the one-record buffer of the shuffle

  datatype Event = Acquire(res: Res) | Release(res: Res)

  function Step(held: set<Res>, e: Event): set<Res> {
    match e
    case Acquire(r) => held + {r}
    case Release(r) => held - {r}
  }

  /** What is held after the trace, starting from held. */
  function HeldFrom(held: set<Res>, trace: seq<Event>): set<Res>
    decreases |trace|
  {
    if |trace| == 0 then held else HeldFrom(Step(held, trace[0]), trace[1..])
  }

  function Held(trace: seq<Event>): set<Res> {
    HeldFrom({}, trace)
  }

  /** Each event is legal in the state it happens in: no double
      acquisition, no release of what is not held. */
  predicate ProperFrom(held: set<Res>, trace: seq<Event>)
    decreases |trace|
  {
    |trace| == 0 ||
    ((match trace[0]
      case Acquire(r) => r !in held
      case Release(r) => r in held)
     && ProperFrom(Step(held, trace[0]), trace[1..]))
  }

  predicate Proper(trace: seq<Event>) {
    ProperFrom({}, trace)
  }

  /** Traces compose: running a + b is running a, then b. */
  lemma {:induction false} HeldFromAppend(held: set<Res>, a: seq<Event>, b: seq<Event>)
    ensures HeldFrom(held, a + b) == HeldFrom(HeldFrom(held, a), b)
    ensures ProperFrom(held, a + b) <==> ProperFrom(held, a) && ProperFrom(HeldFrom(held, a), b)
    decreases |a|
  {
    if |a| > 0 {
      assert (a + b)[0] == a[0];
      assert (a + b)[1..] == a[1..] + b;
      HeldFromAppend(Step(held, a[0]), a[1..], b);
    } else {
      assert a + b == b;
    }
  }

  /** The acquisitions of rs, in order. */
  function AcquireAll(rs: seq<Res>): (t: seq<Event>)
    ensures |t| == |rs| && forall i :: 0 <= i < |rs| ==> t[i] == Acquire(rs[i])
  {
    if |rs| == 0 then [] else [Acquire(rs[0])] + AcquireAll(rs[1..])
  }

  /** The releases of rs, last first: unwinding in reverse order. */
  function Unwind(rs: seq<Res>): (t: seq<Event>)
    ensures |t| == |rs| && forall i :: 0 <= i < |rs| ==> t[i] == Release(rs[|rs| - 1 - i])
  {
    if |rs| == 0 then [] else [Release(rs[|rs| - 1])] + Unwind(rs[..|rs| - 1])
  }

  function Elems(rs: seq<Res>): set<Res> {
    set r | r in rs
  }

  /** Acquiring distinct resources that are not yet held is legal and
      adds exactly them. */
  lemma {:induction false} AcquireAllHeld(held: set<Res>, rs: seq<Res>)
    requires forall i, j :: 0 <= i < j < |rs| ==> rs[i] != rs[j]
    requires forall i :: 0 <= i < |rs| ==> rs[i] !in held
    ensures ProperFrom(held, AcquireAll(rs))
    ensures HeldFrom(held, AcquireAll(rs)) == held + Elems(rs)
    decreases |rs|
  {
    if |rs| > 0 {
      var t := AcquireAll(rs);
      assert t[1..] == AcquireAll(rs[1..]);
      AcquireAllHeld(held + {rs[0]}, rs[1..]);
      assert Elems(rs) == {rs[0]} + Elems(rs[1..]) by {
        assert rs == [rs[0]] + rs[1..];
      }
    }
  }

  /** Unwinding distinct held resources in reverse is legal and releases
      exactly them. */
  lemma {:induction false} UnwindHeld(held: set<Res>, rs: seq<Res>)
    requires forall i, j :: 0 <= i < j < |rs| ==> rs[i] != rs[j]
    requires forall i :: 0 <= i < |rs| ==> rs[i] !in held
    ensures ProperFrom(held + Elems(rs), Unwind(rs))
    ensures HeldFrom(held + Elems(rs), Unwind(rs)) == held
    decreases |rs|
  {
    if |rs| > 0 {
      var last := rs[|rs| - 1];
      var init := rs[..|rs| - 1];
      UnwindHeld(held, init);
      LastOut(rs);
      var t := Unwind(rs);
      assert t[0] == Release(last) && t[1..] == Unwind(init);
      assert (held + Elems(rs)) - {last} == held + Elems(init) by {
        assert last !in held;
      }
    }
  }

  /** The last of distinct resources is not among the others. */
  lemma LastOut(rs: seq<Res>)
    requires |rs| > 0 && forall i, j :: 0 <= i < j < |rs| ==> rs[i] != rs[j]
    ensures Elems(rs) == Elems(rs[..|rs| - 1]) + {rs[|rs| - 1]}
    ensures rs[|rs| - 1] !in Elems(rs[..|rs| - 1])
  {
    assert rs == rs[..|rs| - 1] + [rs[|rs| - 1]];
  }

  /** A resource acquired and released at once leaves the rest as it was. */
  lemma Transient(held: set<Res>, r: Res)
    requires r !in held
    ensures ProperFrom(held, [Acquire(r), Release(r)])
    ensures HeldFrom(held, [Acquire(r), Release(r)]) == held
  {
    var t := [Acquire(r), Release(r)];
    assert t[1..] == [Release(r)] && t[1..][1..] == [];
    assert HeldFrom(held, t) == HeldFrom(held + {r}, [Release(r)]);
    assert HeldFrom(held + {r}, [Release(r)]) == HeldFrom(held + {r} - {r}, []);
    assert held + {r} - {r} == held;
  }

  /** The releases of rs, in the given order. */
  function ReleaseAll(rs: seq<Res>): (t: seq<Event>)
    ensures |t| == |rs| && forall i :: 0 <= i < |rs| ==> t[i] == Release(rs[i])
  {
    if |rs| == 0 then [] else [Release(rs[0])] + ReleaseAll(rs[1..])
  }

  /** Releasing distinct held resources, in any order, is legal and
      removes exactly them. */
  lemma {:induction false} ReleaseAllHeld(held: set<Res>, rs: seq<Res>)
    requires forall i, j :: 0 <= i < j < |rs| ==> rs[i] != rs[j]
    requires forall i :: 0 <= i < |rs| ==> rs[i] in held
    ensures ProperFrom(held, ReleaseAll(rs))
    ensures HeldFrom(held, ReleaseAll(rs)) == held - Elems(rs)
    decreases |rs|
  {
    if |rs| > 0 {
      var t := ReleaseAll(rs);
      assert t[1..] == ReleaseAll(rs[1..]);
      ReleaseAllHeld(held - {rs[0]}, rs[1..]);
      assert Elems(rs) == {rs[0]} + Elems(rs[1..]) by {
        assert rs == [rs[0]] + rs[1..];
      }
    }
  }

  /** Acquiring distinct resources and then releasing distinct ones among
      them is legal; what stays held is what was never released. */
  lemma Balanced(acq: seq<Res>, rel: seq<Res>)
    requires Distinct(acq) && Distinct(rel)
    requires forall i :: 0 <= i < |rel| ==> rel[i] in acq
    ensures Proper(AcquireAll(acq) + ReleaseAll(rel))
    ensures Held(AcquireAll(acq) + ReleaseAll(rel)) == Elems(acq) - Elems(rel)
  {
    var a := AcquireAll(acq);
    var r := ReleaseAll(rel);
    AcquireAllHeld({}, acq);
    assert HeldFrom({}, a) == Elems(acq);
    assert forall i :: 0 <= i < |rel| ==> rel[i] in Elems(acq);
    ReleaseAllHeld(Elems(acq), rel);
    HeldFromAppend({}, a, r);
  }

  /** A trace that never touches the resources of other runs as on its
      own and leaves them held. */
  lemma {:induction false} Frame(other: set<Res>, held: set<Res>, t: seq<Event>)
    requires other !! held
    requires forall i :: 0 <= i < |t| ==> t[i].res !in other
    ensures HeldFrom(other + held, t) == other + HeldFrom(held, t)
    ensures ProperFrom(other + held, t) <==> ProperFrom(held, t)
    decreases |t|
  {
    if |t| > 0 {
      var h' := Step(held, t[0]);
      assert Step(other + held, t[0]) == other + h';
      assert other !! h';
      Frame(other, h', t[1..]);
    }
  }

  predicate Distinct(rs: seq<Res>) {
    forall i, j :: 0 <= i < j < |rs| ==> rs[i] != rs[j]
  }

  /** Extending a well-formed trace by acquisitions of distinct resources
      not yet held. */
  lemma AcquireMore(t: seq<Event>, acq: seq<Res>)
    requires Proper(t) && Distinct(acq)
    requires forall i :: 0 <= i < |acq| ==> acq[i] !in Held(t)
    ensures Proper(t + AcquireAll(acq)) && Held(t + AcquireAll(acq)) == Held(t) + Elems(acq)
  {
    AcquireAllHeld(Held(t), acq);
    HeldFromAppend({}, t, AcquireAll(acq));
  }

  /** Extending a well-formed trace by releases of distinct held
      resources. */
  lemma ReleaseMore(t: seq<Event>, rel: seq<Res>)
    requires Proper(t) && Distinct(rel)
    requires forall i :: 0 <= i < |rel| ==> rel[i] in Held(t)
    ensures Proper(t + ReleaseAll(rel)) && Held(t + ReleaseAll(rel)) == Held(t) - Elems(rel)
  {
    ReleaseAllHeld(Held(t), rel);
    HeldFromAppend({}, t, ReleaseAll(rel));
  }

  /** Extending a well-formed trace by a trace that starts from part of
      what is held and touches nothing else that is held. */
  lemma Continue(t: seq<Event>, sub: set<Res>, u: seq<Event>)
    requires Proper(t) && sub <= Held(t) && ProperFrom(sub, u)
    requires forall i :: 0 <= i < |u| ==> u[i].res !in Held(t) - sub
    ensures Proper(t + u) && Held(t + u) == (Held(t) - sub) + HeldFrom(sub, u)
  {
    Frame(Held(t) - sub, sub, u);
    assert (Held(t) - sub) + sub == Held(t);
    HeldFromAppend({}, t, u);
  }

  /** Releasing, one by one, exactly the resources of before. */
  lemma ReleaseExactly(t: seq<Event>, rel: seq<Res>, before: set<Res>, extra: set<Res>)
    requires Proper(t) && Held(t) == before + extra && before !! extra
    requires Distinct(rel) && Elems(rel) == before
    ensures Proper(t + ReleaseAll(rel)) && Held(t + ReleaseAll(rel)) == extra
  {
    forall i | 0 <= i < |rel| ensures rel[i] in Held(t) {
      assert rel[i] in Elems(rel);
    }
    ReleaseMore(t, rel);
  }

  /** Acquiring one more resource that is not held. */
  lemma Acquiring(t: seq<Event>, held: set<Res>, r: Res)
    requires Proper(t) && Held(t) == held && r !in held
    ensures Proper(t + AcquireAll([r])) && Held(t + AcquireAll([r])) == held + {r}
  {
    AcquireMore(t, [r]);
    assert Elems([r]) == {r};
  }
}
