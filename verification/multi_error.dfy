/** `MultiError`: a list of errors reported together under one message,
    optionally bounded so that it hands everything back once the bound is
    reached. */
module MultiErrors {
  import opened Wrappers

  /** A `MultiError` as a value: its message, the errors in the order they
      were pushed and the optional bound. */
  datatype Report<E> = Report(msg: string, errors: seq<E>, maxErrors: Option<nat>)

  /** What every `push_error` that returns `Ok` leaves behind: a bounded
      collector holds fewer errors than its bound (or none at all, which
      is what a bound of zero forces). */
  predicate BelowBound<E>(m: Report<E>) {
    m.maxErrors.Some? && m.errors != [] ==> |m.errors| < m.maxErrors.value
  }

  /** The state after a push, and what `push_error` returned. */
  datatype PushResult<E> = PushResult(after: Report<E>, result: Outcome<Report<E>>)

  /** `push_error`: appends `e`; if that brings a bounded collector to its
      bound, every error collected so far is returned as a fresh unbounded
      report and the collector is emptied, keeping its message and bound. */
  function Push<E>(m: Report<E>, e: E): (p: PushResult<E>)
    ensures m.maxErrors.None? ==> p.result.Pass?
    ensures p.result.Fail? <==> m.maxErrors.Some? && |m.errors| + 1 >= m.maxErrors.value
    ensures p.result.Pass? ==> p.after == m.(errors := m.errors + [e])
    ensures p.result.Fail? ==>
              p.result.error == Report(m.msg, m.errors + [e], None) && p.after == m.(errors := [])
    ensures BelowBound(m) ==> BelowBound(p.after)
  {
    var grown := m.(errors := m.errors + [e]);
    if m.maxErrors.Some? && |grown.errors| >= m.maxErrors.value then
      PushResult(m.(errors := []), Fail(grown.(maxErrors := None)))
    else
      PushResult(grown, Pass)
  }

  /** Pushes `es` one after another: the final collector and, in order, the
      reports the pushes returned. */
  function PushAll<E>(m: Report<E>, es: seq<E>): (Report<E>, seq<Report<E>>)
    decreases |es|
  {
    if es == [] then (m, [])
    else
      var p := Push(m, es[0]);
      var rest := PushAll(p.after, es[1..]);
      (rest.0, (if p.result.Fail? then [p.result.error] else []) + rest.1)
  }

  /** All errors of a list of reports, in order. */
  function Flatten<E>(rs: seq<Report<E>>): seq<E>
  {
    if rs == [] then [] else rs[0].errors + Flatten(rs[1..])
  }

  lemma {:induction false} FlattenAppend<E>(a: seq<Report<E>>, b: seq<Report<E>>)
    ensures Flatten(a + b) == Flatten(a) + Flatten(b)
  {
    if a == [] {
      assert a + b == b;
    } else {
      assert (a + b)[0] == a[0] && (a + b)[1..] == a[1..] + b;
      FlattenAppend(a[1..], b);
    }
  }

  /** No error is lost or reordered: what the pushes handed back, followed by
      what is still held, is what was held before followed by `es`. */
  lemma {:induction false} PushAllKeepsEverything<E>(m: Report<E>, es: seq<E>)
    ensures Flatten(PushAll(m, es).1) + PushAll(m, es).0.errors == m.errors + es
    ensures PushAll(m, es).0.msg == m.msg && PushAll(m, es).0.maxErrors == m.maxErrors
    decreases |es|
  {
    if es != [] {
      var p := Push(m, es[0]);
      var rest := PushAll(p.after, es[1..]);
      var handed := if p.result.Fail? then [p.result.error] else [];
      assert PushAll(m, es) == (rest.0, handed + rest.1);
      PushAllKeepsEverything(p.after, es[1..]);
      FlattenAppend(handed, rest.1);
      var kept := Flatten(rest.1) + rest.0.errors;
      assert kept == p.after.errors + es[1..];
      assert es == [es[0]] + es[1..];
      if p.result.Fail? {
        assert Flatten(handed) == p.result.error.errors + Flatten([]);
        assert p.after.errors == [];
        assert Flatten(handed + rest.1) + rest.0.errors == (m.errors + [es[0]]) + kept;
      } else {
        assert handed + rest.1 == rest.1;
        assert p.after.errors == m.errors + [es[0]];
      }
    }
  }

  /** A bounded collector hands errors back in batches of exactly its bound
      (one at a time for a bound of zero), each unbounded and under the
      collector's message, and keeps fewer than its bound in between. */
  lemma {:induction false} PushAllBatches<E>(m: Report<E>, es: seq<E>)
    requires m.maxErrors.Some? && BelowBound(m)
    ensures var n := if m.maxErrors.value == 0 then 1 else m.maxErrors.value;
            forall r :: r in PushAll(m, es).1 ==>
              |r.errors| == n && r.maxErrors.None? && r.msg == m.msg
    ensures BelowBound(PushAll(m, es).0)
    decreases |es|
  {
    if es != [] {
      var p := Push(m, es[0]);
      PushAllKeepsEverything(m, es);
      PushAllBatches(p.after, es[1..]);
    }
  }

  /** `MultiError` itself, updated in place. */
  class MultiError<E> {
    var msg: string
    var errors: seq<E>
    var maxErrors: Option<nat>

    function Value(): Report<E>
      reads this
    {
      Report(msg, errors, maxErrors)
    }

    ghost predicate Valid()
      reads this
    {
      BelowBound(Value())
    }

    /** `with_max_errors`: no errors yet, bounded by `maxErrors`. */
    constructor WithMaxErrors(msg: string, maxErrors: nat)
      ensures Value() == Report(msg, [], Some(maxErrors))
      ensures Valid()
    {
      this.msg := msg;
      this.errors := [];
      this.maxErrors := Some(maxErrors);
    }

    /** `push_error`. */
    method PushError(e: E) returns (r: Outcome<Report<E>>)
      modifies this
      ensures PushResult(Value(), r) == Push(old(Value()), e)
      ensures old(Valid()) ==> Valid()
    {
      errors := errors + [e];
      if maxErrors.Some? && |errors| >= maxErrors.value {
        r := Fail(Report(msg, errors, None));
        errors := [];
        return;
      }
      r := Pass;
    }

    /** `clear`: drops the errors and nothing else. */
    method Clear()
      modifies this
      ensures Value() == old(Value()).(errors := [])
      ensures Valid()
    {
      errors := [];
    }
  }

  /** The error `from_vec` produces: the single error itself, or a
      `MultiError` of all of them. */
  datatype Collapsed<E> = Single(error: E) | Many(report: Report<E>)

  /** The errors a `from_vec` result carries. */
  function Reported<E>(r: Outcome<Collapsed<E>>): seq<E>
  {
    match r
    case Pass => []
    case Fail(Single(e)) => [e]
    case Fail(Many(m)) => m.errors
  }

  /** `from_vec`: no errors is success, one error is that error, two or more
      are one unbounded `MultiError` under `msg`. */
  function FromVec<E>(errors: seq<E>, msg: string): (r: Outcome<Collapsed<E>>)
    ensures r.Pass? <==> errors == []
    ensures |errors| == 1 ==> r == Fail(Single(errors[0]))
    ensures |errors| >= 2 ==> r.Fail? && r.error.Many?
                              && r.error.report.msg == msg && r.error.report.maxErrors.None?
    ensures Reported(r) == errors
  {
    if errors == [] then Pass
    else if |errors| == 1 then Fail(Single(errors[0]))
    else Fail(Many(Report(msg, errors, None)))
  }
}
