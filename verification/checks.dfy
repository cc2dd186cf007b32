/** Chains of checks where the first failure wins: the shape of every submit
    handler on the site, which runs its checks in a fixed order and reports the
    message of the first one that fails. */
module Checks {
  import opened Wrappers

  /** The position of the first check that fails, if any does. */
  function FirstFailing<C>(checks: seq<C>, fails: C -> bool): (r: Option<nat>)
    ensures r.None? <==> forall k :: 0 <= k < |checks| ==> !fails(checks[k])
    ensures r.Some? ==>
      && r.value < |checks|
      && fails(checks[r.value])
      && forall k :: 0 <= k < r.value ==> !fails(checks[k])
  {
    if checks == [] then None
    else if fails(checks[0]) then Some(0)
    else
      match FirstFailing(checks[1..], fails)
      case None => None
      case Some(k) => Some(k + 1)
  }

  /** The message of the first failing check, or `None` when every check passes. */
  function FirstError<C>(checks: seq<C>, fails: C -> bool, message: C -> string): Option<string> {
    match FirstFailing(checks, fails)
    case None => None
    case Some(k) => Some(message(checks[k]))
  }

  /** One step of the chain: the first check decides if it fails, otherwise the
      rest of the chain does. */
  lemma FirstErrorCons<C>(c: C, rest: seq<C>, fails: C -> bool, message: C -> string)
    ensures FirstError([c] + rest, fails, message) ==
      if fails(c) then Some(message(c)) else FirstError(rest, fails, message)
  {
    assert ([c] + rest)[0] == c && ([c] + rest)[1..] == rest;
  }
}
