/** The sink decorators and the fan-out over them (internal/sink/sink.go, retry.go,
    dlq.go and filter.go, assembled as in internal/sink/factory/factory.go). */
module SinkStack {

  datatype Record = Record(message: string, severity: string, timestamp: int)

  // ------------------------------------------------------------------- filters

  function Upper(s: string): string
  {
    if s == "" then ""
    else [if 'a' <= s[0] <= 'z' then (s[0] - 'a') + 'A' else s[0]] + Upper(s[1..])
  }

  function SeverityRank(severity: string): nat
  {
    var s := Upper(severity);
    if s in {"DEBUG5", "DEBUG4", "DEBUG3", "DEBUG2", "DEBUG1", "DEBUG"} then 10
    else if s in {"LOG", "INFO", "NOTICE", "NOTE", "SYSTEM"} then 20
    else if s in {"WARNING", "WARN"} then 30
    else if s == "ERROR" then 40
    else if s == "FATAL" then 50
    else if s == "PANIC" then 60
    else 0
  }

  /** Which records a sink receives. */
  datatype Filter =
    | All
    | MinSeverity(token: string)
    | Exactly(tokens: seq<string>)
    | Since(cutoff: int)
    | Grep(matches: string -> bool)

  predicate Keeps(f: Filter, r: Record)
  {
    match f
    case All => true
    case MinSeverity(token) => SeverityRank(r.severity) > 0 && SeverityRank(r.severity) >= SeverityRank(token)
    case Exactly(tokens) => exists i :: 0 <= i < |tokens| && Upper(tokens[i]) == Upper(r.severity)
    case Since(cutoff) => r.timestamp >= cutoff
    case Grep(matches) => matches(r.message)
  }

  /** The severities, in rising order. */
  const LEVELS: seq<set<string>> := [
    {"DEBUG5", "DEBUG4", "DEBUG3", "DEBUG2", "DEBUG1", "DEBUG"}, {"LOG", "INFO", "NOTICE", "NOTE", "SYSTEM"},
    {"WARNING", "WARN"}, {"ERROR"}, {"FATAL"}, {"PANIC"}]

  /** A sink for some severity and above gets the records of that level and of every
      higher one - of every level, if the token names none - and no record whose
      severity is none of these. */
  lemma AlertsByLevel(token: string, r: Record)
    ensures forall j :: 0 <= j < |LEVELS| && Upper(r.severity) in LEVELS[j] ==>
      (Keeps(MinSeverity(token), r) <==> forall i :: 0 <= i < |LEVELS| && Upper(token) in LEVELS[i] ==> i <= j)
    ensures (forall j :: 0 <= j < |LEVELS| ==> Upper(r.severity) !in LEVELS[j]) ==> !Keeps(MinSeverity(token), r)
  {
    hide Upper;
    assert LEVELS[0] == {"DEBUG5", "DEBUG4", "DEBUG3", "DEBUG2", "DEBUG1", "DEBUG"};
    assert LEVELS[1] == {"LOG", "INFO", "NOTICE", "NOTE", "SYSTEM"};
    assert LEVELS[2] == {"WARNING", "WARN"} && LEVELS[3] == {"ERROR"} && LEVELS[4] == {"FATAL"} && LEVELS[5] == {"PANIC"};
  }

  /** Upper looks at ASCII letters only, one by one. */
  lemma {:induction false} UpperAt(s: string, i: nat)
    requires i < |s|
    ensures |Upper(s)| == |s|
    ensures Upper(s)[i] == if 'a' <= s[i] <= 'z' then (s[i] as int - 32) as char else s[i]
  {
    if i > 0 {
      UpperAt(s[1..], i - 1);
    } else if |s| > 1 {
      UpperAt(s[1..], 0);
    }
  }

  function Kept(f: Filter, records: seq<Record>): (r: seq<Record>)
    ensures forall x :: x in r <==> x in records && Keeps(f, x)
  {
    if records == [] then []
    else
      var rest := Kept(f, records[1..]);
      assert records == [records[0]] + records[1..];
      if Keeps(f, records[0]) then [records[0]] + rest else rest
  }

  /** What a filter keeps of two batches is kept of both in one, in order. */
  lemma {:induction false} KeptConcat(f: Filter, a: seq<Record>, b: seq<Record>)
    ensures Kept(f, a + b) == Kept(f, a) + Kept(f, b)
  {
    hide Keeps;
    if a == [] {
      assert a + b == b;
    } else {
      assert (a + b)[1..] == a[1..] + b;
      KeptConcat(f, a[1..], b);
    }
  }

  // --------------------------------------------------------------------- stacks

  datatype Sink =
    | Leaf(name: string)
    | Retry(inner: Sink, maxAttempts: int)
    | DeadLetter(inner: Sink)
    | Filtered(inner: Sink, filter: Filter)
    | Fanout(sinks: seq<Sink>)

  function Name(s: Sink): string
  {
    match s
    case Leaf(name) => name
    case Retry(inner, _) => Name(inner)
    case DeadLetter(inner) => Name(inner)
    case Filtered(inner, _) => Name(inner)
    case Fanout(sinks) => JoinNames(sinks)
  }

  function JoinNames(sinks: seq<Sink>): string
  {
    if sinks == [] then "" else if |sinks| == 1 then Name(sinks[0]) else Name(sinks[0]) + "," + JoinNames(sinks[1..])
  }

  /** Names of a fan-out, in order. */
  lemma {:induction false} NamesInOrder(a: seq<Sink>, b: seq<Sink>)
    requires a != [] && b != []
    ensures Name(Fanout(a + b)) == Name(Fanout(a)) + "," + Name(Fanout(b)) && Name(Fanout([a[0]])) == Name(a[0])
    decreases |a|
  {
    assert (a + b)[1..] == a[1..] + b && (a + b)[0] == a[0];
    if |a| > 1 {
      NamesInOrder(a[1..], b);
      assert Name(Fanout(a + b)) == Name(a[0]) + "," + JoinNames(a[1..] + b);
    } else {
      assert a[1..] + b == b;
    }
  }

  function Attempts(maxAttempts: int): nat { if maxAttempts <= 0 then 10 else maxAttempts }

  /** A batch that a named destination took. */
  datatype Delivery = Delivery(name: string, records: seq<Record>)

  /** What a nil return promises of the batch: every destination it is meant for
      accepted it, or it is parked under that destination's name. */
  ghost predicate Taken(s: Sink, records: seq<Record>, accepted: seq<Delivery>, parked: seq<Delivery>)
  {
    match s
    case Leaf(name) => Delivery(name, records) in accepted
    case Retry(inner, _) => Taken(inner, records, accepted, parked)
    case DeadLetter(inner) => Taken(inner, records, accepted, parked) || Delivery(Name(inner), records) in parked
    case Filtered(inner, f) => Kept(f, records) == [] || Taken(inner, Kept(f, records), accepted, parked)
    case Fanout(sinks) => forall i :: 0 <= i < |sinks| ==> Taken(sinks[i], records, accepted, parked)
  }

  lemma {:induction false} TakenStays(s: Sink, records: seq<Record>, a: seq<Delivery>, p: seq<Delivery>,
                                      a': seq<Delivery>, p': seq<Delivery>)
    requires Taken(s, records, a, p)
    requires forall d :: d in a ==> d in a'
    requires forall d :: d in p ==> d in p'
    ensures Taken(s, records, a', p')
    decreases s
  {
    match s
    case Leaf(_) =>
    case Retry(inner, _) => TakenStays(inner, records, a, p, a', p');
    case DeadLetter(inner) =>
      if Taken(inner, records, a, p) {
        TakenStays(inner, records, a, p, a', p');
      }
    case Filtered(inner, f) =>
      if Kept(f, records) != [] {
        TakenStays(inner, Kept(f, records), a, p, a', p');
      }
    case Fanout(sinks) =>
      forall i | 0 <= i < |sinks| ensures Taken(sinks[i], records, a', p') {
        TakenStays(sinks[i], records, a, p, a', p');
      }
  }

  /** Whatever a Write returns, short of a cancellation it has tried every
      destination the batch is meant for. */
  ghost predicate Tried(s: Sink, records: seq<Record>, tries: seq<Delivery>)
  {
    match s
    case Leaf(name) => Delivery(name, records) in tries
    case Retry(inner, _) => Tried(inner, records, tries)
    case DeadLetter(inner) => Tried(inner, records, tries)
    case Filtered(inner, f) => Kept(f, records) == [] || Tried(inner, Kept(f, records), tries)
    case Fanout(sinks) => forall i :: 0 <= i < |sinks| ==> Tried(sinks[i], records, tries)
  }

  // ---------------------------------------------------------------- what is built

  datatype Config = Config(name: string, filter: Filter, maxAttempts: int)

  /** BuildAll: innermost retry, then dead letters, then the filter. */
  function Wrap(c: Config, dlq: bool): Sink
  {
    var retry := Retry(Leaf(c.name), c.maxAttempts);
    var parked := if dlq then DeadLetter(retry) else retry;
    if c.filter.All? then parked else Filtered(parked, c.filter)
  }

  function Wraps(cs: seq<Config>, dlq: bool): (r: seq<Sink>)
    ensures |r| == |cs| && forall i :: 0 <= i < |cs| ==> r[i] == Wrap(cs[i], dlq)
  {
    if cs == [] then [] else [Wrap(cs[0], dlq)] + Wraps(cs[1..], dlq)
  }

  function BuildAll(cs: seq<Config>, dlq: bool): Sink { Fanout(Wraps(cs, dlq)) }

  /** What is built for one configured sink: it gets what its filter keeps, nothing being
      written when that is nothing; each write is tried as often as configured, 10
      times if that is not said; and with a dead letter queue parking counts as taken. */
  lemma BuiltAsConfigured(c: Config, dlq: bool, records: seq<Record>, accepted: seq<Delivery>, parked: seq<Delivery>)
    ensures var d := Delivery(c.name, if c.filter.All? then records else Kept(c.filter, records));
      Taken(Wrap(c, dlq), records, accepted, parked) <==>
        (!c.filter.All? && d.records == []) || d in accepted || (dlq && d in parked)
    ensures MostWrites(Wrap(c, dlq)) == if c.maxAttempts <= 0 then 10 else c.maxAttempts
  {
    var leaf := Leaf(c.name);
    var retry := Retry(leaf, c.maxAttempts);
    var stack := if dlq then DeadLetter(retry) else retry;
    var b := if c.filter.All? then records else Kept(c.filter, records);
    assert Name(leaf) == Name(retry) == c.name && MostWrites(leaf) == 1;
    assert MostWrites(retry) == Attempts(c.maxAttempts) * 1 && MostWrites(stack) == MostWrites(retry);
    assert Taken(leaf, b, accepted, parked) <==> Delivery(c.name, b) in accepted;
    assert Taken(retry, b, accepted, parked) <==> Taken(leaf, b, accepted, parked);
    assert Taken(stack, b, accepted, parked) <==>
      Taken(retry, b, accepted, parked) || (dlq && Delivery(c.name, b) in parked);
  }

  /** Record r is in a batch that destination name took. */
  ghost predicate Reached(name: string, r: Record, ds: seq<Delivery>)
  {
    exists i :: 0 <= i < |ds| && ds[i].name == name && r in ds[i].records
  }

  /** So, once the pipeline's sink has returned nil, no record is dropped: each one
      a configured sink's filter lets through was accepted by that sink or, with
      a dead letter queue, is parked under its name. */
  lemma NilMeansNothingDropped(cs: seq<Config>, dlq: bool, records: seq<Record>,
                               accepted: seq<Delivery>, parked: seq<Delivery>, i: nat, r: Record)
    requires Taken(BuildAll(cs, dlq), records, accepted, parked)
    requires i < |cs| && r in records && Keeps(cs[i].filter, r)
    ensures Reached(cs[i].name, r, accepted) || (dlq && Reached(cs[i].name, r, parked))
  {
    var c := cs[i];
    assert Taken(Wraps(cs, dlq)[i], records, accepted, parked);
    var retry := Retry(Leaf(c.name), c.maxAttempts);
    var stack := if dlq then DeadLetter(retry) else retry;
    var batch := if c.filter.All? then records else Kept(c.filter, records);
    assert r in batch;
    assert Taken(stack, batch, accepted, parked);
    var d := Delivery(c.name, batch);
    if Taken(retry, batch, accepted, parked) {
      assert Taken(Leaf(c.name), batch, accepted, parked);
      var k :| 0 <= k < |accepted| && accepted[k] == d;
      assert accepted[k].name == c.name && r in accepted[k].records;
    } else {
      assert Name(retry) == c.name;
      var k :| 0 <= k < |parked| && parked[k] == d;
      assert parked[k].name == c.name && r in parked[k].records;
    }
  }

  // ---------------------------------------------------------------------- writing

  /** An error, by what its handlers ask of it; joined errors answer for both. */
  datatype Failure = Failure(permanent: bool, cancelled: bool)

  datatype Err = Nil | Error(f: Failure)

  function JoinErr(a: Err, b: Err): Err
  {
    match (a, b)
    case (Nil, _) => b
    case (_, Nil) => a
    case (Error(x), Error(y)) => Error(Failure(x.permanent || y.permanent, x.cancelled || y.cancelled))
  }

  /** Whether a stack has a dead letter queue in it. */
  predicate Parks(s: Sink)
  {
    match s
    case Leaf(_) => false
    case Retry(inner, _) => Parks(inner)
    case DeadLetter(_) => true
    case Filtered(inner, _) => Parks(inner)
    case Fanout(sinks) => exists i :: 0 <= i < |sinks| && Parks(sinks[i])
  }

  /** The most writes to destinations one Write can cause. */
  function MostWrites(s: Sink): nat
  {
    match s
    case Leaf(_) => 1
    case Retry(inner, n) => Attempts(n) * MostWrites(inner)
    case DeadLetter(inner) => MostWrites(inner)
    case Filtered(inner, _) => MostWrites(inner)
    case Fanout(sinks) => MostWritesAll(sinks)
  }

  function MostWritesAll(sinks: seq<Sink>): nat
  {
    if sinks == [] then 0 else MostWrites(sinks[0]) + MostWritesAll(sinks[1..])
  }

  class Destinations {
    var accepted: seq<Delivery>
    var parked: seq<Delivery>
    /** Every batch written to a destination, accepted or not. */
    var tries: seq<Delivery>

    // what went wrong: dead letters not stored, permanent errors of destinations,
    // errors for a context that was done, cancellations seen between attempts, and
    // any of these or any other error
    ghost var parkFaults: nat
    ghost var permanents: nat
    ghost var aborts: nat
    ghost var cancels: nat
    ghost var faults: nat

    constructor ()
      ensures accepted == parked == tries == [] && parkFaults == permanents == aborts == cancels == faults == 0
    {
      accepted, parked, tries, parkFaults, permanents, aborts, cancels, faults := [], [], [], 0, 0, 0, 0, 0;
    }

    twostate predicate Grew()
      reads this
    {
      && old(accepted) <= accepted && old(parked) <= parked && old(tries) <= tries
      && old(parkFaults) <= parkFaults && old(cancels) <= cancels && old(faults) <= faults
      && old(permanents) <= permanents && old(aborts) <= aborts
    }

    /** A destination's own Write: nil only after the batch is durably accepted. */
    method LeafWrite(name: string, records: seq<Record>) returns (err: Err)
      modifies this
      ensures Grew() && tries == old(tries) + [Delivery(name, records)]
      ensures parked == old(parked) && parkFaults == old(parkFaults) && cancels == old(cancels)
      ensures faults == old(faults) + if err.Error? then 1 else 0
      ensures err == Nil ==> Delivery(name, records) in accepted[|old(accepted)|..]
      ensures permanents == old(permanents) + if err.Error? && err.f.permanent then 1 else 0
      ensures aborts == old(aborts) + if err.Error? && err.f.cancelled then 1 else 0
    {
      tries := tries + [Delivery(name, records)];
      var ok, permanent, cancelled: bool := *, *, *;
      if ok {
        accepted := accepted + [Delivery(name, records)];
        return Nil;
      }
      faults := faults + 1;
      if permanent {
        permanents := permanents + 1;
      }
      if cancelled {
        aborts := aborts + 1;
      }
      return Error(Failure(permanent, cancelled));
    }

    /** DLQPut, and the marshalling before it. */
    method Park(name: string, records: seq<Record>) returns (ok: bool, cancelled: bool)
      modifies this
      ensures permanents == old(permanents) && aborts == old(aborts) + if !ok && cancelled then 1 else 0
      ensures Grew() && accepted == old(accepted) && tries == old(tries) && cancels == old(cancels)
      ensures ok ==> parked == old(parked) + [Delivery(name, records)] && parkFaults == old(parkFaults)
      ensures !ok ==> parked == old(parked) && parkFaults == old(parkFaults) + 1 && faults == old(faults) + 1
    {
      ok, cancelled := *, *;
      if ok {
        parked := parked + [Delivery(name, records)];
      } else {
        parkFaults, faults := parkFaults + 1, faults + 1;
        aborts := aborts + if cancelled then 1 else 0;
      }
    }

    /** The context is seen to be done. */
    ghost method Cancel()
      modifies `cancels, `faults, `aborts
      ensures cancels == old(cancels) + 1 && faults == old(faults) + 1 && aborts == old(aborts) + 1
    {
      cancels, faults, aborts := cancels + 1, faults + 1, aborts + 1;
    }
  }

  lemma {:induction false} AllKept(records: seq<Record>)
    ensures Kept(All, records) == records
  {
    if records != [] {
      AllKept(records[1..]);
    }
  }

  /** What each filter lets through. */
  ghost predicate Passing(f: Filter, records: seq<Record>, kept: seq<Record>)
  {
    && (f.All? ==> kept == records)
    && (f.Since? ==> forall x :: x in kept <==> x in records && x.timestamp >= f.cutoff)
    && (f.Exactly? ==> forall x :: x in kept <==> x in records && OneOf(f.tokens, x.severity))
    && (f.Grep? ==> forall x :: x in kept <==> x in records && f.matches(x.message))
  }

  /** Whatever the case. */
  ghost predicate OneOf(tokens: seq<string>, severity: string)
  {
    exists t :: t in tokens && Upper(t) == Upper(severity)
  }

  lemma KeptMeans(f: Filter, records: seq<Record>)
    ensures Passing(f, records, Kept(f, records))
  {
    hide Kept, Upper;
    if f.All? {
      AllKept(records);
    } else if f.Exactly? {
      forall x: Record ensures Keeps(f, x) <==> OneOf(f.tokens, x.severity) {
        if OneOf(f.tokens, x.severity) {
          var t :| t in f.tokens && Upper(t) == Upper(x.severity);
        }
      }
    }
  }

  /** The filters' loop. */
  method KeepLoop(f: Filter, records: seq<Record>) returns (kept: seq<Record>)
    ensures kept == Kept(f, records)
    ensures Passing(f, records, kept)
  {
    hide Kept, Keeps, Passing;
    KeptMeans(f, records);
    kept := [];
    var i := 0;
    assert records[0..] == records;
    while i < |records|
      invariant 0 <= i <= |records| && kept + Kept(f, records[i..]) == Kept(f, records)
    {
      KeptFrom(f, records, i);
      if Keeps(f, records[i]) {
        kept := kept + [records[i]];
      }
      i := i + 1;
    }
    KeptFrom(f, records, i);
  }

  lemma KeptFrom(f: Filter, records: seq<Record>, i: nat)
    requires i <= |records|
    ensures i < |records| ==>
      Kept(f, records[i..]) == (if Keeps(f, records[i]) then [records[i]] else []) + Kept(f, records[i + 1..])
    ensures i == |records| ==> Kept(f, records[i..]) == []
  {
  }

  /** An error is permanent, or for a context that is done, only if some error behind it
      was; and a permanent one is told of unless a batch was parked instead. */
  twostate predicate Told(w: Destinations, err: Err)
    reads w
  {
    && (err.Error? && err.f.permanent ==> w.permanents > old(w.permanents))
    && (err.Error? && err.f.cancelled ==> w.aborts > old(w.aborts))
    && (w.permanents > old(w.permanents) ==> |w.parked| > |old(w.parked)| || (err.Error? && err.f.permanent))
  }

  /** What a Write may be relied on for, between two states of the destinations. */
  twostate predicate Wrote(w: Destinations, s: Sink, records: seq<Record>, err: Err)
    reads w
  {
    && w.Grew()
    && |w.tries| <= |old(w.tries)| + MostWrites(s)
    && (err == Nil ==> Taken(s, records, w.accepted[|old(w.accepted)|..], w.parked[|old(w.parked)|..]))
    && (err.Error? ==> w.faults > old(w.faults))
    && Told(w, err)
    && (!Parks(s) ==> w.parked == old(w.parked))
    && (w.cancels == old(w.cancels) ==> Tried(s, records, w.tries[|old(w.tries)|..]))
  }

  /** Sink.Write: by kind of sink. */
  method Write(w: Destinations, s: Sink, records: seq<Record>) returns (err: Err)
    modifies w
    ensures Wrote(w, s, records, err)
    ensures s.Leaf? ==> |w.tries| == |old(w.tries)| + 1
    ensures s.Leaf? ==> w.permanents == old(w.permanents) + if err.Error? && err.f.permanent then 1 else 0
    ensures s.Leaf? ==> w.aborts == old(w.aborts) + if err.Error? && err.f.cancelled then 1 else 0
    ensures s.Retry? && s.inner.Leaf? && err.Error? && !err.f.permanent && !err.f.cancelled ==>
      |w.tries| == |old(w.tries)| + Attempts(s.maxAttempts)
    ensures s.DeadLetter? && err.Error? ==> err.f.cancelled || records == [] || w.parkFaults > old(w.parkFaults)
    decreases s, 1
  {
    match s
    case Leaf(name) => err := w.LeafWrite(name, records);
    case Retry(inner, n) => err := RetryWrite(w, inner, n, records);
    case DeadLetter(inner) => err := DeadLetterWrite(w, inner, records);
    case Filtered(inner, f) =>
      var kept := KeepLoop(f, records);
      if |kept| == 0 {
        return Nil;
      }
      err := Write(w, inner, kept);
    case Fanout(sinks) => err := FanoutWrite(w, sinks, records);
  }

  /** What holds of the inner sink's writes holds of the retries. */
  lemma OfRetry(inner: Sink, n: int, records: seq<Record>, a: seq<Delivery>, p: seq<Delivery>, t: seq<Delivery>)
    ensures var s := Retry(inner, n);
      && (Taken(s, records, a, p) <==> Taken(inner, records, a, p))
      && (Tried(s, records, t) <==> Tried(inner, records, t))
      && MostWrites(s) == Attempts(n) * MostWrites(inner) && (Parks(s) <==> Parks(inner))
  {
  }

  /** retryDecorator.Write: up to n attempts; a permanent error ends them. */
  method RetryWrite(w: Destinations, inner: Sink, n: int, records: seq<Record>) returns (err: Err)
    modifies w
    ensures Wrote(w, Retry(inner, n), records, err)
    ensures inner.Leaf? ==> w.permanents == old(w.permanents) + if err.Error? && err.f.permanent then 1 else 0
    ensures inner.Leaf? && err.Error? && !err.f.permanent && !err.f.cancelled ==>
      |w.tries| == |old(w.tries)| + Attempts(n)
    decreases inner, 2
  {
    hide Taken, Tried, MostWrites, Parks, Attempts;
    var most := Attempts(n);
    var attempt := 1;
    err := Nil;
    while attempt <= most
      invariant 1 <= attempt <= most + 1 && (attempt == 1 || err.Error?)
      invariant w.Grew() && |w.tries| <= |old(w.tries)| + (attempt - 1) * MostWrites(inner)
      invariant inner.Leaf? ==> |w.tries| == |old(w.tries)| + attempt - 1 && w.permanents == old(w.permanents)
      invariant attempt > 1 ==> w.faults > old(w.faults)
      invariant !Parks(inner) ==> w.parked == old(w.parked)
      invariant attempt > 1 && w.cancels == old(w.cancels) ==> Tried(inner, records, w.tries[|old(w.tries)|..])
      invariant attempt > 1 ==> !err.f.permanent
      invariant w.permanents > old(w.permanents) ==> |w.parked| > |old(w.parked)|
      invariant attempt > 1 && err.f.cancelled ==> w.aborts > old(w.aborts)
    {
      var cancelled: bool := *;
      if cancelled {
        MostSoFar(attempt - 1, most, MostWrites(inner));
        w.Cancel();
        OfRetry(inner, n, records, w.accepted[|old(w.accepted)|..], w.parked[|old(w.parked)|..], w.tries[|old(w.tries)|..]);
        return Error(Failure(false, true));
      }
      ghost var a, p, t := w.accepted, w.parked, w.tries;
      err := Write(w, inner, records);
      MostSoFar(attempt, most, MostWrites(inner));
      TriedLater(inner, records, old(w.tries), t, w.tries);
      OfRetry(inner, n, records, w.accepted[|old(w.accepted)|..], w.parked[|old(w.parked)|..], w.tries[|old(w.tries)|..]);
      if err == Nil {
        LaterIsSince(old(w.accepted), a, w.accepted);
        LaterIsSince(old(w.parked), p, w.parked);
        TakenStays(inner, records, w.accepted[|a|..], w.parked[|p|..],
                   w.accepted[|old(w.accepted)|..], w.parked[|old(w.parked)|..]);
        return;
      }
      if err.f.permanent {
        return;
      }
      attempt := attempt + 1;
    }
    OfRetry(inner, n, records, w.accepted[|old(w.accepted)|..], w.parked[|old(w.parked)|..], w.tries[|old(w.tries)|..]);
    SomeAttempt(n);
  }

  lemma SomeAttempt(n: int)
    ensures Attempts(n) > 0
  {
  }

  lemma MostSoFar(k: nat, most: nat, each: nat)
    requires k <= most
    ensures k * each <= most * each && (k > 0 ==> (k - 1) * each + each == k * each)
  {
  }

  lemma LaterIsSince<T>(before: seq<T>, middle: seq<T>, after: seq<T>)
    requires before <= middle <= after
    ensures forall x :: x in after[|middle|..] ==> x in after[|before|..]
    ensures forall x :: x in middle[|before|..] ==> x in after[|before|..]
  {
    assert after[|before|..] == middle[|before|..] + after[|middle|..];
  }

  lemma TriedLater(s: Sink, records: seq<Record>, before: seq<Delivery>, middle: seq<Delivery>, after: seq<Delivery>)
    requires before <= middle <= after
    ensures Tried(s, records, after[|middle|..]) || Tried(s, records, middle[|before|..]) ==>
      Tried(s, records, after[|before|..])
  {
  }

  /** dlqDecorator.Write: a batch the inner sink refuses for good is parked. */
  method DeadLetterWrite(w: Destinations, inner: Sink, records: seq<Record>) returns (err: Err)
    modifies w
    ensures Wrote(w, DeadLetter(inner), records, err)
    ensures err.Error? ==> err.f.cancelled || records == [] || w.parkFaults > old(w.parkFaults)
    ensures !Parks(inner) && w.parked != old(w.parked) ==>
      err == Nil && records != [] && w.parked == old(w.parked) + [Delivery(Name(inner), records)]
    ensures inner.Leaf? && w.aborts > old(w.aborts) ==> w.parked == old(w.parked) && err.Error? && err.f.cancelled
    decreases inner, 2
  {
    err := Write(w, inner, records);
    if err == Nil || err.f.cancelled || |records| == 0 {
      return;
    }
    ghost var p := w.parked;
    var parked, putCancelled := w.Park(Name(inner), records);
    if !parked {
      return JoinErr(err, Error(Failure(false, putCancelled)));
    }
    assert w.parked[|old(w.parked)|..] == p[|old(w.parked)|..] + [Delivery(Name(inner), records)];
    err := Nil;
  }

  /** Fanout.Write: every sink is written, whatever the others return. */
  method FanoutWrite(w: Destinations, sinks: seq<Sink>, records: seq<Record>) returns (err: Err)
    modifies w
    ensures Wrote(w, Fanout(sinks), records, err)
    ensures (forall i :: 0 <= i < |sinks| ==> sinks[i].Leaf?) ==>
      (w.aborts > old(w.aborts) <==> err.Error? && err.f.cancelled)
    decreases sinks, 0
  {
    err := Nil;
    var i := 0;
    while i < |sinks|
      invariant 0 <= i <= |sinks| && w.Grew()
      invariant |w.tries| + MostWritesAll(sinks[i..]) <= |old(w.tries)| + MostWritesAll(sinks)
      invariant err.Error? ==> w.faults > old(w.faults)
      invariant Told(w, err) && (!Parks(Fanout(sinks)) ==> w.parked == old(w.parked))
      invariant (forall j :: 0 <= j < i ==> sinks[j].Leaf?) ==>
        (w.aborts > old(w.aborts) <==> err.Error? && err.f.cancelled)
      invariant w.cancels == old(w.cancels) ==> forall j :: 0 <= j < i ==>
        Tried(sinks[j], records, w.tries[|old(w.tries)|..])
      invariant err == Nil ==> forall j :: 0 <= j < i ==>
        Taken(sinks[j], records, w.accepted[|old(w.accepted)|..], w.parked[|old(w.parked)|..])
    {
      ghost var a, p, t := w.accepted, w.parked, w.tries;
      var e := Write(w, sinks[i], records);
      forall j | 0 <= j <= i
        ensures Tried(sinks[j], records, w.tries[|t|..]) || Tried(sinks[j], records, t[|old(w.tries)|..]) ==>
          Tried(sinks[j], records, w.tries[|old(w.tries)|..])
      {
        TriedLater(sinks[j], records, old(w.tries), t, w.tries);
      }
      assert sinks[i..][0] == sinks[i] && sinks[i..][1..] == sinks[i + 1..];
      LaterIsSince(old(w.accepted), a, w.accepted);
      LaterIsSince(old(w.parked), p, w.parked);
      if e == Nil && err == Nil {
        forall j | 0 <= j <= i
          ensures Taken(sinks[j], records, w.accepted[|old(w.accepted)|..], w.parked[|old(w.parked)|..])
        {
          if j < i {
            TakenStays(sinks[j], records, a[|old(w.accepted)|..], p[|old(w.parked)|..],
                       w.accepted[|old(w.accepted)|..], w.parked[|old(w.parked)|..]);
          } else {
            TakenStays(sinks[j], records, w.accepted[|a|..], w.parked[|p|..],
                       w.accepted[|old(w.accepted)|..], w.parked[|old(w.parked)|..]);
          }
        }
      }
      err := JoinErr(err, e);
      i := i + 1;
    }
  }
}
