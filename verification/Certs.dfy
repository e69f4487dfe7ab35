/** The key pair a TLS client serves: reloaded once an interval has passed, the last good one kept meanwhile. */
module Certs {
  import opened Wrappers

  /** Identity of a loaded key pair. */
  type Certificate = nat

  /** One call of get: the clock before it, what loading would give, and the clock after loading. */
  datatype Call = Call(now: int, load: Result<Certificate, string>, after: int)

  /** The clock never runs backwards, within a call or between calls. */
  ghost predicate Monotone(calls: seq<Call>) {
    && (forall i | 0 <= i < |calls| :: calls[i].now <= calls[i].after)
    && (forall i, j | 0 <= i < j < |calls| :: calls[i].after <= calls[j].now)
  }

  /** The latest call that loaded a good key pair. */
  ghost function LastGood(interval: int, calls: seq<Call>): (r: Option<nat>)
    ensures r.Some? ==> r.value < |calls| && calls[r.value].load.Success?
    decreases |calls|, 0
  {
    if calls == [] then None
    else
      var n := |calls| - 1;
      if Attempts(interval, calls[..n], calls[n]) && calls[n].load.Success? then Some(n)
      else LastGood(interval, calls[..n])
  }

  /** Whether a call made after the calls `before` goes to the files. */
  ghost predicate Attempts(interval: int, before: seq<Call>, c: Call)
    decreases |before|, 1
  {
    match LastGood(interval, before)
    case None => true
    case Some(k) => c.now - before[k].after >= interval
  }

  ghost function Answer(interval: int, before: seq<Call>, c: Call): Result<Certificate, string> {
    match LastGood(interval, before + [c])
    case None => c.load
    case Some(k) => (before + [c])[k].load
  }

  class CertReloader {
    const interval: int
    var cert: Option<Certificate>
    var loadedAt: int
    ghost var calls: seq<Call>

    ghost predicate Valid()
      reads this
    {
      match LastGood(interval, calls)
      case None => cert.None?
      case Some(k) => cert == Some(calls[k].load.value) && loadedAt == calls[k].after
    }

    constructor (interval: int)
      ensures Valid() && this.interval == interval && calls == []
    {
      this.interval := interval;
      cert, loadedAt, calls := None, 0, [];
    }

    method Get(now: int, load: Result<Certificate, string>, after: int) returns (r: Result<Certificate, string>)
      requires Valid()
      modifies this
      ensures Valid()
      ensures calls == old(calls) + [Call(now, load, after)]
      ensures r == Answer(interval, old(calls), Call(now, load, after))
    {
      ghost var before := calls;
      calls := calls + [Call(now, load, after)];
      assert calls[..|before|] == before;
      if cert.Some? && now - loadedAt < interval {
        return Success(cert.value);
      }
      if load.Failure? {
        if cert.Some? {
          return Success(cert.value);
        }
        return Failure(load.error);
      }
      cert := Some(load.value);
      loadedAt := after;
      return Success(cert.value);
    }
  }

  // ----- every history of calls

  /** Call `i` went to the files and came back with a good key pair. */
  ghost predicate Good(interval: int, calls: seq<Call>, i: nat)
    requires i < |calls|
  {
    Attempts(interval, calls[..i], calls[i]) && calls[i].load.Success?
  }

  ghost function AnswerAt(interval: int, calls: seq<Call>, i: nat): Result<Certificate, string>
    requires i < |calls|
  {
    Answer(interval, calls[..i], calls[i])
  }

  lemma {:induction false} LastGoodIsLast(interval: int, calls: seq<Call>)
    ensures match LastGood(interval, calls)
            case None => forall i | 0 <= i < |calls| :: !Good(interval, calls, i)
            case Some(k) => Good(interval, calls, k) && forall i | k < i < |calls| :: !Good(interval, calls, i)
    decreases |calls|
  {
    if calls == [] {
    } else {
      var n := |calls| - 1;
      LastGoodIsLast(interval, calls[..n]);
      forall i | 0 <= i < n
        ensures Good(interval, calls, i) == Good(interval, calls[..n], i)
      {
        assert calls[..n][..i] == calls[..i];
      }
    }
  }

  lemma GoodInPrefix(interval: int, calls: seq<Call>, n: nat)
    requires n <= |calls|
    ensures forall i | 0 <= i < n :: Good(interval, calls[..n], i) == Good(interval, calls, i)
  {
    forall i | 0 <= i < n
      ensures Good(interval, calls[..n], i) == Good(interval, calls, i)
    {
      assert calls[..n][..i] == calls[..i];
    }
  }

  /** A successful answer is the key pair of the most recent good load. */
  lemma ServesMostRecent(interval: int, calls: seq<Call>, i: nat, k: nat)
    requires k <= i < |calls| && Good(interval, calls, k)
    requires forall j | k < j <= i :: !Good(interval, calls, j)
    ensures AnswerAt(interval, calls, i) == Success(calls[k].load.value)
  {
    var upTo := calls[..i] + [calls[i]];
    assert upTo == calls[..i + 1];
    GoodInPrefix(interval, calls, i + 1);
    LastGoodIsLast(interval, upTo);
  }

  /** get fails exactly while no load has ever been good, and then with the error of its own load. */
  lemma FailsOnlyBeforeFirstGood(interval: int, calls: seq<Call>, i: nat)
    requires i < |calls|
    ensures AnswerAt(interval, calls, i).Failure? <==> forall k | 0 <= k <= i :: !Good(interval, calls, k)
    ensures AnswerAt(interval, calls, i).Failure? ==> AnswerAt(interval, calls, i) == calls[i].load
  {
    var upTo := calls[..i] + [calls[i]];
    assert upTo == calls[..i + 1];
    GoodInPrefix(interval, calls, i + 1);
    LastGoodIsLast(interval, upTo);
    assert LastGood(interval, upTo).None? && calls[i].load.Success? ==> Good(interval, calls, i);
  }

  /** After one success, and so after a successful Build, get never fails. */
  lemma NeverFailsAgain(interval: int, calls: seq<Call>, i: nat, j: nat)
    requires i <= j < |calls| && AnswerAt(interval, calls, i).Success?
    ensures AnswerAt(interval, calls, j).Success?
  {
    FailsOnlyBeforeFirstGood(interval, calls, i);
    FailsOnlyBeforeFirstGood(interval, calls, j);
  }

  lemma LastGoodBefore(interval: int, calls: seq<Call>, i: nat)
    requires i < |calls|
    ensures match LastGood(interval, calls[..i])
            case None => forall k | 0 <= k < i :: !Good(interval, calls, k)
            case Some(k) => Good(interval, calls, k) && forall j | k < j < i :: !Good(interval, calls, j)
  {
    GoodInPrefix(interval, calls, i);
    LastGoodIsLast(interval, calls[..i]);
  }

  /** A call loads exactly when the interval has passed since every good load before it. */
  lemma LoadsIffIntervalPassed(interval: int, calls: seq<Call>, i: nat)
    requires i < |calls| && Monotone(calls)
    ensures Attempts(interval, calls[..i], calls[i]) <==>
            forall k | 0 <= k < i && Good(interval, calls, k) :: calls[i].now - calls[k].after >= interval
  {
    LastGoodBefore(interval, calls, i);
  }

  /** A failed reload does not postpone the next: until a load is good, every later call tries again. */
  lemma FailedReloadRetries(interval: int, calls: seq<Call>, i: nat, j: nat)
    requires i < j < |calls| && Monotone(calls)
    requires Attempts(interval, calls[..i], calls[i]) && calls[i].load.Failure?
    requires forall k | i < k < j :: !Good(interval, calls, k)
    ensures Attempts(interval, calls[..j], calls[j])
  {
    LoadsIffIntervalPassed(interval, calls, i);
    LoadsIffIntervalPassed(interval, calls, j);
  }

  // ----- building the client configuration

  /**
   The reloading branch of Build. `before` and `after` are the outcomes of the steps around it;
   the callback of the built configuration is get of the returned reloader.
   */
  method Build(interval: int, certFile: string, keyFile: string, before: Option<string>,
               now: int, load: Result<Certificate, string>, loadedAt: int, after: Option<string>)
    returns (r: Result<CertReloader, string>)
    requires interval > 0
    ensures r.Success? <==> before.None? && certFile != "" && keyFile != "" && load.Success? && after.None?
    ensures r.Success? ==> fresh(r.value) && r.value.Valid() && r.value.interval == interval
                           && r.value.calls == [Call(now, load, loadedAt)]
                           && AnswerAt(interval, r.value.calls, 0).Success?
  {
    if before.Some? {
      return Failure(before.value);
    }
    if certFile == "" || keyFile == "" {
      return Failure("reload_interval requires cert_file and key_file");
    }
    var reloader := new CertReloader(interval);
    var first := reloader.Get(now, load, loadedAt);
    assert reloader.calls[..0] == [];
    FailsOnlyBeforeFirstGood(interval, reloader.calls, 0);
    if first.Failure? {
      return Failure("load TLS cert: " + first.error);
    }
    if after.Some? {
      return Failure(after.value);
    }
    return Success(reloader);
  }
}
