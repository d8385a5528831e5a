/**
 The serviceWatcher object of client/servicewatch.go: each method is one lock region, works on the
 fields in place, and is proved against the table function of `ServiceWatch` that the state
 machine uses for it.
 */
module ServiceWatcherObject {
  import opened Wrappers
  import opened ServiceWatch

  /** The calls made once the ids in `ids` have been visited. */
  ghost function CallsTo(
      registered: map<RegId, Applier>, ids: set<RegId>, services: Instances, o: Origin): set<Delivery>
    requires ids <= registered.Keys
  {
    set id | id in ids :: Delivery(registered[id], services, o)
  }

  lemma CallsToOneMore(registered: map<RegId, Applier>, ids: set<RegId>, id: RegId, services: Instances, o: Origin)
    requires ids <= registered.Keys && id in registered
    ensures CallsTo(registered, ids + {id}, services, o)
         == CallsTo(registered, ids, services, o) + {Delivery(registered[id], services, o)}
  {
  }

  /** One more call updates the view of one applier. */
  lemma ViewAfterOneMore(view: map<Applier, Instances>, calls: set<Delivery>, d: Delivery)
    ensures ViewAfter(view, calls + {d}, d.instances) == ViewAfter(view, calls, d.instances)[d.applier := d.instances]
  {
    var l := ViewAfter(view, calls + {d}, d.instances);
    var r := ViewAfter(view, calls, d.instances)[d.applier := d.instances];
    assert forall a :: a in l <==> a in r;
  }

  /** The record of calls and the views once the ids in `ids` have been visited. */
  ghost function Called(
      made: set<Delivery>, view: map<Applier, Instances>,
      registered: map<RegId, Applier>, ids: set<RegId>, services: Instances, o: Origin)
      : (set<Delivery>, map<Applier, Instances>)
    requires ids <= registered.Keys
  {
    var calls := CallsTo(registered, ids, services, o);
    (made + calls, ViewAfter(view, calls, services))
  }

  lemma CalledNone(
      made: set<Delivery>, view: map<Applier, Instances>,
      registered: map<RegId, Applier>, services: Instances, o: Origin)
    ensures Called(made, view, registered, {}, services, o) == (made, view)
  {
    assert CallsTo(registered, {}, services, o) == {};
    assert ViewAfter(view, {}, services) == view && made + {} == made;
  }

  lemma CalledOneMore(
      made: set<Delivery>, view: map<Applier, Instances>,
      registered: map<RegId, Applier>, ids: set<RegId>, id: RegId, services: Instances, o: Origin)
    requires ids <= registered.Keys && id in registered
    ensures
      var before := Called(made, view, registered, ids, services, o);
      Called(made, view, registered, ids + {id}, services, o) ==
        (before.0 + {Delivery(registered[id], services, o)}, before.1[registered[id] := services])
  {
    var calls, d := CallsTo(registered, ids, services, o), Delivery(registered[id], services, o);
    CallsToOneMore(registered, ids, id, services, o);
    ViewAfterOneMore(view, calls, d);
    assert made + (calls + {d}) == (made + calls) + {d};
  }

  lemma VisitedOneMore(all: set<RegId>, done: set<RegId>, id: RegId)
    ensures (all - done) - {id} == all - (done + {id})
  {
  }

  class ServiceWatcher {
    var statuses: seq<Status>
    var watcherStatus: map<Endpoint, StatusId>
    var appliers: map<Endpoint, map<RegId, Applier>>
    ghost var made: set<Delivery>                // every Callback called so far
    var view: map<Applier, Instances>            // the list each applier was called with last

    ghost function Contents(): Table
      reads this
    {
      Table(statuses, watcherStatus, appliers)
    }

    /** Entries of watcherStatus point to statuses that were created for them. */
    ghost predicate Valid()
      reads this
    {
      forall ep :: ep in watcherStatus ==>
        watcherStatus[ep] < |statuses| && statuses[watcherStatus[ep]].endpoint == ep
    }

    constructor ()
      ensures Valid() && Contents() == Init.t && made == Init.made && view == Init.view
    {
      statuses, watcherStatus, appliers, made, view := [], map[], map[], {}, map[];
    }

    /** The locked half of Add: what it reports decides whether the caller starts a loop or owes a callback. */
    method Add(ep: Endpoint, reg: Option<Registration>)
      returns (existed: bool, status: StatusId, cached: Instances)
      requires Valid()
      modifies this`statuses, this`watcherStatus, this`appliers
      ensures Valid() && Contents() == AddRegion(old(Contents()), ep, reg)
      ensures existed == (ep in old(watcherStatus))
      ensures ep in watcherStatus && status == watcherStatus[ep]
      ensures cached == old(Contents()).CachedFor(ep)
    {
      existed := ep in watcherStatus;
      if existed {
        status := watcherStatus[ep];
      } else {
        status := |statuses|;
        statuses := statuses + [Status(ep, None, false, [], 0)];
        watcherStatus := watcherStatus[ep := status];
      }
      cached := statuses[status].cache;
      if reg.Some? { Register(ep, reg.value); }
    }

    method Register(ep: Endpoint, reg: Registration)
      modifies this`appliers
      ensures appliers == old(appliers)[ep := old(Contents()).Registered(ep)[reg.id := reg.applier]]
    {
      if ep !in appliers {
        appliers := appliers[ep := map[]];
      }
      var registered: map<RegId, Applier> := appliers[ep];
      registered := registered[reg.id := reg.applier];
      appliers := appliers[ep := registered];
    }

    method SetWatcher(status: StatusId, watcher: Watcher) returns (ok: bool)
      requires Valid() && status < |statuses|
      modifies this`statuses
      ensures Valid() && Contents() == SetWatcherRegion(old(Contents()), status, watcher)
      ensures ok == old(Contents()).IsCurrent(status)
    {
      var ep := statuses[status].endpoint;
      if !(ep in watcherStatus && watcherStatus[ep] == status) {
        return false;
      }
      statuses := statuses[status := statuses[status].(watcher := Some(watcher))];
      ok := true;
    }

    method SetSelectedCache(status: StatusId, services: Instances) returns (ok: bool)
      requires Valid() && status < |statuses|
      modifies this`statuses
      ensures Valid() && Contents() == SetSelectedCacheRegion(old(Contents()), status, services)
      ensures ok == old(Contents()).IsCurrent(status)
    {
      var ep := statuses[status].endpoint;
      if !(ep in watcherStatus && watcherStatus[ep] == status) {
        return false;
      }
      statuses := statuses[status := statuses[status].(cache := services, write := statuses[status].write + 1)];
      ok := true;
    }

    method RemoveWatcher(status: StatusId)
      requires Valid() && status < |statuses|
      modifies this`watcherStatus
      ensures Valid() && Contents() == RemoveWatcherRegion(old(Contents()), status)
    {
      var ep := statuses[status].endpoint;
      if ep in watcherStatus && watcherStatus[ep] == status {
        watcherStatus := watcherStatus - {ep};
      }
    }

    /** doCallback: calls every registered applier once; `o` is the cache write that it answers. */
    method DoCallback(ep: Endpoint, services: Instances, ghost o: Origin)
      requires Valid()
      modifies this`made, this`view
      ensures made == old(made) + CallbackRegion(Contents(), ep, services, o)
      ensures view == ViewAfter(old(view), CallbackRegion(Contents(), ep, services, o), services)
    {
      var registered := if ep in appliers then appliers[ep] else map[];
      assert registered == Contents().Registered(ep);
      assert CallsTo(registered, registered.Keys, services, o) == CallbackRegion(Contents(), ep, services, o);
      CallEach(registered, services, o);
    }

    /** One applier.Callback. */
    method Call(applier: Applier, services: Instances, ghost o: Origin)
      modifies this`made, this`view
      ensures made == old(made) + {Delivery(applier, services, o)}
      ensures view == old(view)[applier := services]
    {
      made := made + {Delivery(applier, services, o)};
      view := view[applier := services];
    }

    /** The range loop of doCallback. */
    method CallEach(registered: map<RegId, Applier>, services: Instances, ghost o: Origin)
      modifies this`made, this`view
      ensures (made, view) == Called(old(made), old(view), registered, registered.Keys, services, o)
    {
      var todo := registered.Keys;
      ghost var all, done: set<RegId> := registered.Keys, {};
      CalledNone(made, view, registered, services, o);
      while todo != {}
        invariant done <= all && todo == all - done
        invariant (made, view) == Called(old(made), old(view), registered, done, services, o)
        decreases |todo|
      {
        var id :| id in todo;
        CalledOneMore(old(made), old(view), registered, done, id, services, o);
        VisitedOneMore(all, done, id);
        Call(registered[id], services, o);
        todo, done := todo - {id}, done + {id};
      }
      assert done == all;
    }

    /** First cleanup region of an endpoint. */
    method CollectCancelled(ep: Endpoint, cancelledAppliers: set<Applier>) returns (ids: set<RegId>)
      requires Valid()
      ensures ids == CollectRegion(Contents(), ep, cancelledAppliers)
    {
      ids := {};
      var registered := if ep in appliers then appliers[ep] else map[];
      var todo := registered.Keys;
      while todo != {}
        invariant todo <= registered.Keys
        invariant ids == set id | id in registered.Keys - todo && registered[id] in cancelledAppliers
        decreases |todo|
      {
        var id :| id in todo;
        if registered[id] in cancelledAppliers {
          ids := ids + {id};
        }
        todo := todo - {id};
      }
    }

    /** Second cleanup region of an endpoint. */
    method DeleteCollected(ep: Endpoint, ids: set<RegId>)
      requires Valid()
      modifies this`appliers
      ensures Valid() && Contents() == DeleteRegion(old(Contents()), ep, ids)
    {
      if ep in appliers {
        var todo := ids;
        var registered := appliers[ep];
        while todo != {}
          invariant todo <= ids
          invariant registered == old(appliers)[ep] - (ids - todo)
          decreases |todo|
        {
          var id :| id in todo;
          registered := registered - {id};
          todo := todo - {id};
        }
        assert ids - todo == ids;
        appliers := appliers[ep := registered];
      }
    }

    /** The locked half of stopWatcherIfUnused; the caller cancels the returned status after unlocking. */
    method StopIfUnused(ep: Endpoint) returns (target: Option<StatusId>)
      requires Valid()
      modifies this`appliers, this`watcherStatus
      ensures Valid() && Contents() == StopRegion(old(Contents()), ep)
      ensures target == StopTarget(old(Contents()), ep)
      ensures target.Some? ==> ep !in appliers && !Contents().IsCurrent(target.value)
    {
      if ep in appliers && |appliers[ep]| != 0 {
        return None;
      }
      target := if ep in watcherStatus then Some(watcherStatus[ep]) else None;
      appliers := appliers - {ep};
      watcherStatus := watcherStatus - {ep};
    }
  }
}
