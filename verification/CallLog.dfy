/** Calls into a component that may fail: what was handed over, and where a caller that gives up
    at the first failure stopped. */
module CallLog {
  /** A callee that records its arguments; whether a call fails may depend on all the earlier ones. */
  class Callee<!T> {
    const fails: (seq<T>, T) -> bool
    var calls: seq<T>

    constructor (fails: (seq<T>, T) -> bool)
      ensures this.fails == fails && calls == []
    {
      this.fails := fails;
      calls := [];
    }

    method Call(arg: T) returns (err: bool)
      modifies this
      ensures calls == old(calls) + [arg]
      ensures err == fails(old(calls), arg)
    {
      err := fails(calls, arg);
      calls := calls + [arg];
    }
  }

  /** No element of `args` fails when they are passed in order after `before`. */
  ghost predicate AllAccepted<T>(fails: (seq<T>, T) -> bool, before: seq<T>, args: seq<T>) {
    forall i :: 0 <= i < |args| ==> !fails(before + args[..i], args[i])
  }

  /** The outcome of passing the first `count` elements of `args`: all of them and none failed, or
      a prefix of which exactly the last one failed. */
  ghost predicate PassedUntilFailure<T>(
    fails: (seq<T>, T) -> bool, before: seq<T>, args: seq<T>, count: int, err: bool)
  {
    if err then
      && 0 < count <= |args|
      && AllAccepted(fails, before, args[..count - 1])
      && fails(before + args[..count - 1], args[count - 1])
    else
      count == |args| && AllAccepted(fails, before, args)
  }

  lemma AcceptedNone<T>(fails: (seq<T>, T) -> bool, before: seq<T>)
    ensures AllAccepted(fails, before, [])
  {
  }

  /** Passing one more element moves it from the pending ones to the history. */
  lemma PassOne<T>(fails: (seq<T>, T) -> bool, before: seq<T>, args: seq<T>, count: nat)
    requires count < |args| && AllAccepted(fails, before, args[..count])
    ensures before + args[..count] + [args[count]] == before + args[..count + 1]
    ensures args[count..] != [] && args[count..][0] == args[count] && args[count..][1..] == args[count + 1..]
    ensures AllAccepted(fails, before, args[..count + 1]) <==> !fails(before + args[..count], args[count])
  {
    assert forall i :: 0 <= i <= count ==> args[..count + 1][..i] == args[..i];
    assert forall i :: 0 <= i < count ==> args[..count][..i] == args[..i];
  }
}
