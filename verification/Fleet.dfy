/** The scheduler's set of workers (Run in internal/pipeline/scheduler.go). */
module Fleet {

  datatype Instance = Instance(region: string, id: string)

  function SpecKey(i: Instance): string { i.region + "|" + i.id }

  /** Region names hold no bar, so a key tells any two instances apart. */
  lemma SpecKeyTellsApart(a: Instance, b: Instance)
    requires '|' !in a.region && '|' !in b.region
    ensures SpecKey(a) == SpecKey(b) <==> a.region == b.region && a.id == b.id
  {
    if SpecKey(a) == SpecKey(b) {
      BarBehind(a, b);
      BarBehind(b, a);
      var n := |a.region|;
      assert SpecKey(a)[..n] == a.region && SpecKey(b)[..n] == b.region;
      assert SpecKey(a)[n + 1..] == a.id && SpecKey(b)[n + 1..] == b.id;
    }
  }

  lemma BarBehind(a: Instance, b: Instance)
    requires SpecKey(a) == SpecKey(b) && '|' !in b.region
    ensures |b.region| <= |a.region|
  {
    assert SpecKey(a)[|a.region|] == '|';
  }

  /** Where a worker's goroutine stands: waiting for a slot, in worker.Run, or past
      it with the slot given back but its map entries not yet deleted. */
  datatype Stage = Waiting | Tailing | Ending

  datatype Worker = Worker(key: string, stage: Stage, cancelled: bool)

  /** The running map's keys are exactly the keys of the live goroutines, each
      entry cancels the goroutine of its own key, and both maps agree. */
  ghost predicate Tracks(running: map<string, int>, workers: map<string, int>, live: map<int, Worker>)
  {
    && workers == running
    && (forall k :: k in running ==> running[k] in live && live[running[k]].key == k)
    && (forall w :: w in live ==> live[w].key in running && running[live[w].key] == w)
  }

  /** So no key has two live goroutines. */
  lemma OneLiveWorkerPerKey(running: map<string, int>, workers: map<string, int>, live: map<int, Worker>)
    requires Tracks(running, workers, live)
    ensures forall a, b :: a in live && b in live && live[a].key == live[b].key ==> a == b
    ensures running.Keys == set w | w in live :: live[w].key
  {
  }

  /** Starting a worker keeps this exactly when its key was not running: the start
      function itself does not look. */
  lemma StartNeedsAbsence(running: map<string, int>, workers: map<string, int>, live: map<int, Worker>,
                          key: string, id: int)
    requires Tracks(running, workers, live) && id !in live
    ensures Tracks(running[key := id], workers[key := id], live[id := Worker(key, Waiting, false)])
            <==> key !in running
  {
    var live' := live[id := Worker(key, Waiting, false)];
    if key in running {
      var w := running[key];
      assert w in live' && live'[w].key == key && running[key := id][key] != w;
    }
  }

  function Holders(live: map<int, Worker>): set<int> { set w | w in live && live[w].stage == Tailing }

  predicate Distinct(keys: seq<string>) { forall i, j :: 0 <= i < j < |keys| ==> keys[i] != keys[j] }

  function Keys(instances: seq<Instance>): (r: seq<string>)
    ensures |r| == |instances| && forall i :: 0 <= i < |instances| ==> r[i] == SpecKey(instances[i])
  {
    seq(|instances|, i requires 0 <= i < |instances| => SpecKey(instances[i]))
  }

  /** What happened to a key: a worker began, none could be built, one deleted its entries. */
  datatype Moment = Began(key: string) | CouldNot(key: string) | Ended(key: string)

  /** Since moment number `since`, a worker of the key ended or could not be built. */
  ghost predicate Gone(log: seq<Moment>, since: nat, key: string)
  {
    exists i :: since <= i < |log| && (log[i] == Ended(key) || log[i] == CouldNot(key))
  }

  lemma GoneStays(log: seq<Moment>, log': seq<Moment>, since: nat)
    requires log <= log'
    ensures forall k :: Gone(log, since, k) ==> Gone(log', since, k)
  {
    forall k | Gone(log, since, k) ensures Gone(log', since, k) {
      var i :| since <= i < |log| && (log[i] == Ended(k) || log[i] == CouldNot(k));
      assert log'[i] == log[i];
    }
  }

  lemma GoneEarlier(log: seq<Moment>, since: nat, later: nat)
    requires since <= later
    ensures forall k :: Gone(log, later, k) ==> Gone(log, since, k)
  {
  }

  lemma GoneSince(log: seq<Moment>, since: nat, m: Moment)
    requires since <= |log| && (m.Ended? || m.CouldNot?)
    ensures Gone(log + [m], since, m.key)
  {
    assert (log + [m])[|log|] == m;
  }

  class Fleet {
    var running: map<string, int>
    var workers: map<string, int>
    var live: map<int, Worker>
    var next: int
    var held: nat
    const slots: nat
    /** What happened, in order; the refreshes acted on; when the last one began. */
    ghost var log: seq<Moment>
    ghost var refreshed: seq<Refresh>
    ghost var asOf: nat

    ghost predicate Valid()
      reads this
    {
      && Tracks(running, workers, live)
      && (forall w :: w in live ==> w < next)
      && held == |Holders(live)| && held <= slots && asOf <= |log|
    }

    constructor (slots: nat)
      ensures Valid() && this.slots == slots && live == map[] && next == 0
      ensures log == [] && refreshed == [] && asOf == 0
    {
      running, workers, live, next, held, log, refreshed, asOf := map[], map[], map[], 0, 0, [], [], 0;
      this.slots := slots;
    }

    /** start: false when the worker could not be built. */
    method Start(inst: Instance, builds: bool)
      requires Valid() && SpecKey(inst) !in running
      modifies `running, `workers, `live, `next, `log
      ensures Valid()
      ensures log == old(log) + [if builds then Began(SpecKey(inst)) else CouldNot(SpecKey(inst))]
      ensures !builds ==> running == old(running) && live == old(live) && next == old(next)
      ensures builds ==> next == old(next) + 1
      ensures builds ==> running == old(running)[SpecKey(inst) := old(next)]
      ensures builds ==> live == old(live)[old(next) := Worker(SpecKey(inst), Waiting, false)]
    {
      if !builds {
        log := log + [CouldNot(SpecKey(inst))];
        return;
      }
      StartNeedsAbsence(running, workers, live, SpecKey(inst), next);
      ghost var was := live;
      running := running[SpecKey(inst) := next];
      workers := workers[SpecKey(inst) := next];
      live := live[next := Worker(SpecKey(inst), Waiting, false)];
      next := next + 1;
      log := log + [Began(SpecKey(inst))];
      assert Holders(live) == Holders(was);
    }

    /** The goroutine takes a slot, if one is free. */
    method Acquire(w: int)
      requires Valid() && w in live && live[w].stage == Waiting && held < slots
      modifies `live, `held
      ensures Valid() && live == old(live)[w := old(live)[w].(stage := Tailing)] && held == old(held) + 1
    {
      ghost var was := live;
      live := live[w := live[w].(stage := Tailing)];
      held := held + 1;
      assert Holders(live) == Holders(was) + {w};
    }

    /** worker.Run returned: the slot goes back first. */
    method Release(w: int)
      requires Valid() && w in live && live[w].stage == Tailing
      modifies `live, `held
      ensures Valid() && live == old(live)[w := old(live)[w].(stage := Ending)] && held == old(held) - 1
    {
      ghost var was := live;
      assert w in Holders(was);
      live := live[w := live[w].(stage := Ending)];
      held := held - 1;
      assert Holders(live) == Holders(was) - {w};
    }

    /** The goroutine deletes its key from both maps. */
    method Leave(w: int)
      requires Valid() && w in live && live[w].stage == Ending
      modifies `running, `workers, `live, `log
      ensures Valid() && live == old(live) - {w} && running == old(running) - {old(live)[w].key}
      ensures log == old(log) + [Ended(old(live)[w].key)]
    {
      ghost var was := live;
      var key := live[w].key;
      running := running - {key};
      workers := workers - {key};
      live := live - {w};
      log := log + [Ended(key)];
      assert Holders(live) == Holders(was);
    }

    /** Any goroutines take any steps they can. */
    method Others()
      requires Valid()
      modifies `running, `workers, `live, `held, `log
      ensures Valid() && old(log) <= log
      ensures forall w :: w in live ==>
        w in old(live) && live[w].key == old(live)[w].key && live[w].cancelled == old(live)[w].cancelled
      ensures forall k :: k in old(running) ==> k in running || Gone(log, |old(log)|, k)
      ensures forall k :: k in running ==> k in old(running) && running[k] == old(running)[k]
    {
      hide Tracks, Holders, Gone;
      var more: bool := *;
      var budget: nat := *;
      while more && budget > 0
        invariant Valid() && old(log) <= log
        invariant forall w :: w in live ==>
          w in old(live) && live[w].key == old(live)[w].key && live[w].cancelled == old(live)[w].cancelled
        invariant forall k :: k in old(running) ==> k in running || Gone(log, |old(log)|, k)
        invariant forall k :: k in running ==> k in old(running) && running[k] == old(running)[k]
        decreases budget
      {
        var w: int := *;
        if w in live {
          if live[w].stage == Waiting && held < slots {
            Acquire(w);
          } else if live[w].stage == Tailing {
            Release(w);
          } else if live[w].stage == Ending {
            ghost var was, m := log, Ended(live[w].key);
            Leave(w);
            GoneStays(was, log, |old(log)|);
            GoneSince(was, |old(log)|, m);
          }
        }
        more, budget := *, budget - 1;
      }
    }

    /** The same, told from an earlier moment on. */
    method OthersSince(ghost since: nat)
      requires Valid() && since <= |log|
      modifies `running, `workers, `live, `held, `log
      ensures Valid() && old(log) <= log
      ensures forall w :: w in live ==>
        w in old(live) && live[w].key == old(live)[w].key && live[w].cancelled == old(live)[w].cancelled
      ensures forall k :: k in old(running) || Gone(old(log), since, k) ==> k in running || Gone(log, since, k)
      ensures forall k :: k in running ==> k in old(running) && running[k] == old(running)[k]
    {
      hide Tracks, Holders, Gone;
      ghost var was := log;
      Others();
      GoneStays(was, log, since);
      GoneEarlier(log, since, |was|);
    }

    /** Cancel every running worker whose instance left the desired set. */
    method CancelUnwanted(want: map<string, Instance>)
      requires Valid()
      modifies `live
      ensures Valid() && live.Keys == old(live).Keys
      ensures forall w :: w in live ==>
        live[w] == old(live)[w].(cancelled := old(live)[w].cancelled || old(live)[w].key !in want)
    {
      var todo := running.Keys;
      ghost var was := live;
      while todo != {}
        invariant todo <= running.Keys && live.Keys == was.Keys
        invariant forall w :: w in live ==>
          live[w] == was[w].(cancelled := was[w].cancelled || (was[w].key !in want && was[w].key !in todo))
        decreases |todo|
      {
        var key :| key in todo;
        if key !in want {
          live := live[running[key] := live[running[key]].(cancelled := true)];
        }
        todo := todo - {key};
      }
      forall w ensures w in live <==> w in was {
        assert w in live.Keys <==> w in was.Keys;
      }
      forall w | w in live ensures live[w].key == was[w].key && live[w].stage == was[w].stage {
      }
      assert Holders(live) == Holders(was);
    }

    /** Start the wanted that are not running; workers take steps meanwhile. */
    method StartMissing(want: map<string, Instance>)
      requires Valid() && forall k :: k in want ==> SpecKey(want[k]) == k
      modifies `running, `workers, `live, `next, `held, `log
      ensures Valid() && old(log) <= log
      ensures forall k :: k in want ==> k in running || Gone(log, |old(log)|, k)
      ensures forall w :: w in live && w in old(live) ==>
        live[w].key == old(live)[w].key && live[w].cancelled == old(live)[w].cancelled
      ensures forall w :: w in live && w !in old(live) ==>
        live[w].key in want && !live[w].cancelled
    {
      hide Tracks, Holders, Gone;
      var todo := want.Keys;
      while todo != {}
        invariant todo <= want.Keys && Valid() && old(log) <= log
        invariant old(next) <= next
        invariant forall k :: k in want && k !in todo ==> k in running || Gone(log, |old(log)|, k)
        invariant forall w :: w in live && w in old(live) ==>
          live[w].key == old(live)[w].key && live[w].cancelled == old(live)[w].cancelled
        invariant forall w :: w in live && w !in old(live) ==> live[w].key in want && !live[w].cancelled
        decreases |todo|
      {
        OthersSince(|old(log)|);
        var key :| key in todo;
        var alive := key in running;
        if !alive {
          OthersSince(|old(log)|);
          var builds: bool := *;
          ghost var was := log;
          Start(want[key], builds);
          GoneStays(was, log, |old(log)|);
          if !builds {
            GoneSince(was, |old(log)|, CouldNot(key));
          }
        }
        todo := todo - {key};
      }
    }

    /** Every wanted instance has a worker, unless one ended or could not be built since
        the last refresh began, and every live worker that is not wanted was cancelled. */
    ghost predicate Serves(desired: seq<Instance>)
      reads `running, `live, `log, `asOf
    {
      && (forall i :: 0 <= i < |desired| ==> SpecKey(desired[i]) in running || Gone(log, asOf, SpecKey(desired[i])))
      && (forall w :: w in live ==> live[w].key in Keys(desired) || live[w].cancelled)
    }

    /** One tick of the reconcile loop. Afterwards every live worker that is not
        wanted has been cancelled, a wanted one only if it had been before, nothing
        unwanted was started, and each wanted instance has a worker unless that
        worker ended meanwhile or could not be built. */
    method Reconcile(r: Refresh)
      requires Valid()
      modifies this
      ensures Valid() && old(log) <= log
      ensures refreshed == old(refreshed) + [r] && asOf == |old(log)|
      ensures !r.ok ==> live == old(live) && running == old(running)
      ensures r.ok ==> Serves(r.desired)
      ensures r.ok ==> forall w :: w in live && w in old(live) ==>
        live[w].key == old(live)[w].key &&
        (live[w].cancelled <==> old(live)[w].cancelled || live[w].key !in Keys(r.desired))
      ensures r.ok ==> forall w :: w in live && w !in old(live) ==> live[w].key in Keys(r.desired) && !live[w].cancelled
    {
      refreshed, asOf := refreshed + [r], |log|;
      if !r.ok {
        return;
      }
      var want := Wanted(r.desired);
      CancelUnwanted(want);
      StartMissing(want);
      assert forall i :: 0 <= i < |r.desired| ==> Keys(r.desired)[i] in want;
    }
  }

  method Wanted(desired: seq<Instance>) returns (want: map<string, Instance>)
    ensures forall k :: k in want <==> k in Keys(desired)
    ensures forall k :: k in want ==> SpecKey(want[k]) == k
  {
    want := map[];
    var i := 0;
    while i < |desired|
      invariant 0 <= i <= |desired|
      invariant forall k :: k in want <==> k in Keys(desired)[..i]
      invariant forall k :: k in want ==> SpecKey(want[k]) == k
    {
      want := want[SpecKey(desired[i]) := desired[i]];
      i := i + 1;
    }
    assert Keys(desired)[..|desired|] == Keys(desired);
  }

  /** What one tick of the refresh timer brings: the desired set, or an error. */
  datatype Refresh = Refresh(desired: seq<Instance>, ok: bool)

  /** Run: whatever the workers do between and during the refreshes, every key has
      at most one live worker and the running map is exactly the live ones. It gives
      up at once when a configured instance cannot be built; else each of them was
      started, every refresh was acted on, and the last one, if it brought a desired
      set, is served. */
  method Run(instances: seq<Instance>, slots: nat, refreshes: seq<Refresh>) returns (fleet: Fleet, started: bool)
    requires Distinct(Keys(instances))
    ensures fleet.Valid() && fleet.slots == slots
    ensures forall a, b :: a in fleet.live && b in fleet.live && fleet.live[a].key == fleet.live[b].key ==> a == b
    ensures |Holders(fleet.live)| <= slots
    ensures started ==> forall i :: 0 <= i < |instances| ==> Began(SpecKey(instances[i])) in fleet.log
    ensures !started ==> fleet.refreshed == []
    ensures !started ==> exists i :: 0 <= i < |instances| && CouldNot(SpecKey(instances[i])) in fleet.log
    ensures started ==> fleet.refreshed == refreshes
    ensures started && refreshes != [] && refreshes[|refreshes| - 1].ok ==>
      fleet.Serves(refreshes[|refreshes| - 1].desired)
  {
    fleet := new Fleet(slots);
    started := StartAll(fleet, instances);
    if started {
      RefreshAll(fleet, refreshes);
    }
    OneLiveWorkerPerKey(fleet.running, fleet.workers, fleet.live);
  }

  /** The configured instances are started, one after the other. */
  method StartAll(fleet: Fleet, instances: seq<Instance>) returns (started: bool)
    requires fleet.Valid() && Distinct(Keys(instances)) && fleet.running == map[]
    modifies fleet
    ensures fleet.Valid() && fleet.refreshed == old(fleet.refreshed)
    ensures started ==> forall i :: 0 <= i < |instances| ==> Began(SpecKey(instances[i])) in fleet.log
    ensures !started ==> exists i :: 0 <= i < |instances| && CouldNot(SpecKey(instances[i])) in fleet.log
  {
    hide Gone, SpecKey;
    var i := 0;
    while i < |instances|
      invariant 0 <= i <= |instances| && fleet.Valid() && fleet.refreshed == old(fleet.refreshed)
      invariant forall k :: k in fleet.running ==> k in Keys(instances)[..i]
      invariant forall j :: 0 <= j < i ==> Began(SpecKey(instances[j])) in fleet.log
    {
      fleet.Others();
      var builds: bool := *;
      fleet.Start(instances[i], builds);
      if !builds {
        return false;
      }
      i := i + 1;
    }
    return true;
  }

  /** The loop over the refresh timer's ticks. */
  method RefreshAll(fleet: Fleet, refreshes: seq<Refresh>)
    requires fleet.Valid() && fleet.refreshed == []
    modifies fleet
    ensures fleet.Valid() && old(fleet.log) <= fleet.log && fleet.refreshed == refreshes
    ensures refreshes != [] && refreshes[|refreshes| - 1].ok ==> fleet.Serves(refreshes[|refreshes| - 1].desired)
  {
    hide Gone, SpecKey;
    var i := 0;
    while i < |refreshes|
      invariant 0 <= i <= |refreshes| && fleet.Valid() && old(fleet.log) <= fleet.log
      invariant fleet.refreshed == refreshes[..i]
      invariant i > 0 && refreshes[i - 1].ok ==> fleet.Serves(refreshes[i - 1].desired)
    {
      fleet.Others();
      fleet.Reconcile(refreshes[i]);
      i := i + 1;
    }
    fleet.OthersSince(fleet.asOf);
  }
}
