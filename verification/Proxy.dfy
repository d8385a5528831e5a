/** Proxy.Update and the router's closer list in their own form. */
module ProxyObject {
  import opened Wrappers
  import opened RouterLifecycle
  import opened OwnershipProofs

  /** The client factory, and a record of the closes. */
  class ClientPool {
    var next: ClientId
    var closed: seq<ClientId>

    constructor ()
      ensures next == 0 && closed == []
    {
      next, closed := 0, [];
    }

    method Create() returns (c: ClientId)
      modifies this`next
      ensures c == old(next) && next == old(next) + 1
    {
      c, next := next, next + 1;
    }

    method Close(c: ClientId)
      modifies this`closed
      ensures closed == old(closed) + [c]
    {
      closed := closed + [c];
    }

    /** Deferred closes, last in, first out. */
    method CloseDeferred(deferred: seq<ClientId>)
      modifies this`closed
      ensures closed == old(closed) + Reversed(deferred)
    {
      var i := |deferred|;
      while i > 0
        invariant 0 <= i <= |deferred|
        invariant closed == old(closed) + Reversed(deferred[i..])
      {
        i := i - 1;
        assert deferred[i..][1..] == deferred[i + 1..];
        Close(deferred[i]);
      }
      assert deferred[0..] == deferred;
    }
  }

  class MuxRouter {
    var allCloser: seq<ClientId>
    var requests: int

    constructor ()
      ensures allCloser == [] && requests == 0
    {
      allCloser, requests := [], 0;
    }

    /** A route that cannot be built leaves the closer list alone. */
    method Handle(routeOk: bool, closer: ClientId) returns (ok: bool)
      modifies this`allCloser
      ensures ok == routeOk
      ensures allCloser == if routeOk then old(allCloser) + [closer] else old(allCloser)
    {
      if !routeOk { return false; }
      allCloser := allCloser + [closer];
      return true;
    }

    /** The two ends of ServeHTTP on the wait group. */
    method Enter()
      modifies this`requests
      ensures requests == old(requests) + 1
    {
      requests := requests + 1;
    }

    method Leave()
      modifies this`requests
      ensures requests == old(requests) - 1
    {
      requests := requests - 1;
    }

    /** The closers run in the order of registration, whether the wait timed out or not. */
    method CloseAll(pool: ClientPool)
      modifies pool`closed
      ensures pool.closed == old(pool.closed) + allCloser
    {
      for i := 0 to |allCloser|
        invariant pool.closed == old(pool.closed) + allCloser[..i]
      {
        pool.Close(allCloser[i]);
      }
    }
  }

  class Proxy {
    const pool: ClientPool
    var router: MuxRouter

    constructor ()
      ensures fresh(pool) && fresh(router) && pool.next == 0 && pool.closed == []
      ensures router.allCloser == [] && router.requests == 0
    {
      pool := new ClientPool();
      router := new MuxRouter();
    }

    /** A client whose chain cannot be built is closed before the call returns. */
    method BuildEndpoint(build: Build) returns (closer: Option<ClientId>)
      modifies pool
      ensures
        match build
        case FactoryFails => closer == None && pool.next == old(pool.next) && pool.closed == old(pool.closed)
        case ChainFails =>
          closer == None && pool.next == old(pool.next) + 1 && pool.closed == old(pool.closed) + [old(pool.next)]
        case _ => closer == Some(old(pool.next)) && pool.next == old(pool.next) + 1 && pool.closed == old(pool.closed)
    {
      if build == FactoryFails { return None; }
      var c := pool.Create();
      if build == ChainFails {
        pool.Close(c);
        return None;
      }
      return Some(c);
    }

    /** Builds a new router and swaps it in, or cleans up and keeps the old one. */
    method Update(builds: seq<Build>) returns (failed: bool, replaced: Option<MuxRouter>)
      modifies this`router, pool
      ensures failed == UpdateFails(builds)
      ensures pool.next == BuildAll(builds, old(pool.next)).next
      ensures pool.closed == old(pool.closed) + ClosedByUpdate(builds, old(pool.next))
      ensures failed ==> router == old(router) && replaced == None
      ensures !failed ==>
                && replaced == Some(old(router))
                && fresh(router) && router.requests == 0
                && router.allCloser == BuildAll(builds, old(pool.next)).registered
    {
      var built, deferred, successCount := BuildRouter(builds);
      BuildCounts(builds, old(pool.next));
      if successCount == 0 && |builds| > 0 {
        pool.CloseDeferred(deferred);
        return true, None;
      }
      replaced := Some(router);
      router := built;
      return false, replaced;
    }

    /** The loop over the endpoints; `deferred` are the closers that run if Update fails. */
    method BuildRouter(builds: seq<Build>) returns (built: MuxRouter, deferred: seq<ClientId>, successCount: nat)
      modifies pool
      ensures fresh(built) && built.requests == 0
      ensures
        var b := BuildAll(builds, old(pool.next));
        && built.allCloser == b.registered && successCount == |b.registered|
        && (b.registered == [] ==> deferred == b.unrouted)
        && pool.next == b.next && pool.closed == old(pool.closed) + b.closed
    {
      built := new MuxRouter();
      deferred, successCount := [], 0;
      ghost var b := BuildAll([], pool.next);
      assert builds[..0] == [];
      for i := 0 to |builds|
        invariant fresh(built) && built.requests == 0
        invariant b == BuildAll(builds[..i], old(pool.next))
        invariant built.allCloser == b.registered && successCount == |b.registered|
        invariant b.registered == [] ==> deferred == b.unrouted
        invariant pool.next == b.next && pool.closed == old(pool.closed) + b.closed
      {
        assert builds[..i + 1][..i] == builds[..i];
        b := BuildOne(b, builds[i]);
        var closer := BuildEndpoint(builds[i]);
        if closer.None? { continue; }
        deferred := deferred + [closer.value];
        var ok := built.Handle(builds[i] != RouteFails, closer.value);
        if !ok { continue; }
        successCount := successCount + 1;
      }
      assert builds[..|builds|] == builds;
    }
  }
}
