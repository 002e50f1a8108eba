/** Result and option types shared by all modules. */
module Wrappers {
  datatype Option<+T> = None | Some(value: T)

  /** The exception classes of include/except.h that the model distinguishes. */
  datatype Error =
    | InvalidMessage
    | IOException
    | ProtocolError
    | SemanticError(what: string)

  datatype Result<+T> = Ok(value: T) | Err(error: Error) {
    predicate IsFailure() {
      Err?
    }

    function PropagateFailure<U>(): Result<U>
      requires Err?
    {
      Err(error)
    }

    function Extract(): T
      requires Ok?
    {
      value
    }
  }

  /** f applied to each element in turn, up to the first failure. */
  function Traverse<T, U>(f: T -> Result<U>, ts: seq<T>): (r: Result<seq<U>>)
    ensures r.Ok? ==> |r.value| == |ts|
    ensures r.Ok? ==> forall k | 0 <= k < |ts| :: f(ts[k]) == Ok(r.value[k])
  {
    if ts == [] then Ok([])
    else
      var first :- f(ts[0]);
      var rest :- Traverse(f, ts[1..]);
      Ok([first] + rest)
  }

  lemma {:induction false} TraverseOk<T, U>(f: T -> Result<U>, ts: seq<T>, us: seq<U>)
    requires |us| == |ts| && forall k | 0 <= k < |ts| :: f(ts[k]) == Ok(us[k])
    ensures Traverse(f, ts) == Ok(us)
  {
    if ts != [] {
      TraverseOk(f, ts[1..], us[1..]);
      assert us == [us[0]] + us[1..];
    }
  }

  lemma {:induction false} TraverseAppend<T, U>(f: T -> Result<U>, a: seq<T>, b: seq<T>)
    ensures Traverse(f, a + b) ==
            if Traverse(f, a).Err? then Traverse(f, a)
            else if Traverse(f, b).Err? then Traverse(f, b)
            else Ok(Traverse(f, a).value + Traverse(f, b).value)
  {
    if a == [] {
      assert a + b == b;
      assert Traverse(f, b).Ok? ==> [] + Traverse(f, b).value == Traverse(f, b).value;
    } else {
      assert (a + b)[1..] == a[1..] + b;
      TraverseAppend(f, a[1..], b);
      if f(a[0]).Ok? && Traverse(f, a[1..]).Ok? && Traverse(f, b).Ok? {
        var x, y, z := f(a[0]).value, Traverse(f, a[1..]).value, Traverse(f, b).value;
        assert [x] + (y + z) == ([x] + y) + z;
      }
    }
  }

  /** A prefix that succeeds is extended by the next element, and a failure there is the failure of the whole. */
  lemma TraverseNext<T, U>(f: T -> Result<U>, ts: seq<T>, i: nat)
    requires i < |ts| && Traverse(f, ts[..i]).Ok?
    ensures f(ts[i]).Err? ==> Traverse(f, ts) == Err(f(ts[i]).error)
    ensures f(ts[i]).Ok? ==> Traverse(f, ts[..i + 1]) == Ok(Traverse(f, ts[..i]).value + [f(ts[i]).value])
  {
    var a, b := ts[..i], [ts[i]];
    assert ts[..i + 1] == a + b;
    assert ts == (a + b) + ts[i + 1..];
    if f(ts[i]).Ok? {
      TraverseOk(f, b, [f(ts[i]).value]);
    }
    TraverseAppend(f, a, b);
    if f(ts[i]).Err? {
      TraverseAppend(f, a + b, ts[i + 1..]);
    }
  }
}
