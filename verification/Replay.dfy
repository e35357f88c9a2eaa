/** Replaying dead letters page by page while deleting them (Run in
    internal/replay/replay.go; the table as in internal/state/sqlite/store.go). */
module Replay {
  import opened Wrappers

  /** A parked batch. decodes: its payload unmarshals. */
  datatype Row = Row(id: int, sink: string, payload: string, decodes: bool)

  const DEFAULT_PAGE: int := 100

  /** Row identifiers are assigned upwards from 1. */
  ghost predicate Table(rows: seq<Row>)
  {
    && (forall i :: 0 <= i < |rows| ==> rows[i].id > 0)
    && (forall i, j :: 0 <= i < j < |rows| ==> rows[i].id < rows[j].id)
  }

  predicate Matches(r: Row, filter: string, after: int) { r.id > after && (filter == "" || r.sink == filter) }

  /** SELECT ... WHERE id > after AND (filter = '' OR sink_name = filter) ORDER BY id. */
  function Select(rows: seq<Row>, filter: string, after: int): seq<Row>
  {
    if rows == [] then []
    else if Matches(rows[0], filter, after) then [rows[0]] + Select(rows[1..], filter, after)
    else Select(rows[1..], filter, after)
  }

  /** DELETE ... WHERE id IN ids. */
  function Minus(rows: seq<Row>, ids: set<int>): seq<Row>
  {
    if rows == [] then []
    else if rows[0].id in ids then Minus(rows[1..], ids)
    else [rows[0]] + Minus(rows[1..], ids)
  }

  function Take<T>(s: seq<T>, n: int): seq<T> { if 0 <= n < |s| then s[..n] else s }

  lemma Since<T>(s: seq<T>, n: nat, x: T)
    requires n <= |s|
    ensures (s + [x])[n..] == s[n..] + [x]
  {
  }

  lemma EmptyEnd<T>(s: seq<T>)
    ensures s[|s|..] == []
  {
  }

  lemma TakeSome<T>(s: seq<T>, n: int)
    requires n > 0
    ensures Take(s, n) <= s && (Take(s, n) == [] ==> s == [])
  {
  }

  lemma {:induction false} MinusNothing(rows: seq<Row>)
    ensures Minus(rows, {}) == rows
  {
    if rows != [] {
      MinusNothing(rows[1..]);
    }
  }

  lemma {:induction false} MinusMore(rows: seq<Row>, ids: set<int>, id: int)
    ensures Minus(Minus(rows, ids), {id}) == Minus(rows, ids + {id})
  {
    if rows != [] {
      MinusMore(rows[1..], ids, id);
      if rows[0].id !in ids {
        var m := Minus(rows, ids);
        assert m[0] == rows[0] && m[1..] == Minus(rows[1..], ids);
      }
    }
  }

  lemma TableCons(x: Row, rows: seq<Row>)
    requires Table(rows) && x.id > 0 && forall r :: r in rows ==> x.id < r.id
    ensures Table([x] + rows)
  {
  }

  lemma TableTail(rows: seq<Row>)
    requires Table(rows) && rows != []
    ensures Table(rows[1..]) && rows[0].id > 0 && forall r :: r in rows[1..] ==> rows[0].id < r.id
  {
  }

  lemma {:induction false} MinusIsTable(rows: seq<Row>, ids: set<int>)
    requires Table(rows)
    ensures Table(Minus(rows, ids))
    ensures forall r :: r in Minus(rows, ids) ==> r in rows
  {
    if rows != [] {
      TableTail(rows);
      MinusIsTable(rows[1..], ids);
      TableCons(rows[0], Minus(rows[1..], ids));
      assert rows == [rows[0]] + rows[1..];
    }
  }

  /** Deleting at or before the cursor does not change what comes after it. */
  lemma {:induction false} SelectAfterDelete(rows: seq<Row>, filter: string, after: int, id: int)
    requires id <= after
    ensures Select(Minus(rows, {id}), filter, after) == Select(rows, filter, after)
  {
    if rows != [] {
      SelectAfterDelete(rows[1..], filter, after, id);
      if rows[0].id != id {
        var m := Minus(rows, {id});
        assert m[0] == rows[0] && m[1..] == Minus(rows[1..], {id});
      }
    }
  }

  lemma {:induction false} SelectedMatch(rows: seq<Row>, filter: string, after: int)
    requires Table(rows)
    ensures Table(Select(rows, filter, after))
    ensures forall r :: r in Select(rows, filter, after) ==> r in rows && Matches(r, filter, after)
  {
    hide Matches;
    if rows != [] {
      TableTail(rows);
      SelectedMatch(rows[1..], filter, after);
      TableCons(rows[0], Select(rows[1..], filter, after));
      assert rows == [rows[0]] + rows[1..];
    }
  }

  /** What is selected: the rows behind the cursor that are parked for the sink asked
      for, or all of them when none is. */
  lemma {:induction false} SelectedExactly(rows: seq<Row>, filter: string, after: int)
    ensures forall r :: r in Select(rows, filter, after) <==>
      r in rows && r.id > after && (filter == "" || r.sink == filter)
  {
    if rows != [] {
      SelectedExactly(rows[1..], filter, after);
      assert rows == [rows[0]] + rows[1..];
    }
  }

  /** Moving the cursor to the first row selected leaves the others. */
  lemma {:induction false} SelectNext(rows: seq<Row>, filter: string, after: int)
    requires Table(rows) && Select(rows, filter, after) != []
    ensures Select(rows, filter, Select(rows, filter, after)[0].id) == Select(rows, filter, after)[1..]
  {
    var tail := rows[1..];
    TableTail(rows);
    if Matches(rows[0], filter, after) {
      SelectAll(tail, filter, after, rows[0].id);
      assert Select(rows, filter, after)[1..] == Select(tail, filter, after);
    } else {
      var first := Select(tail, filter, after)[0];
      SelectNext(tail, filter, after);
      SelectedMatch(tail, filter, after);
      assert first in tail;
    }
  }

  lemma {:induction false} SelectAll(rows: seq<Row>, filter: string, after: int, id: int)
    requires after < id && forall i :: 0 <= i < |rows| ==> rows[i].id > id
    ensures Select(rows, filter, id) == Select(rows, filter, after)
  {
    if rows != [] {
      SelectAll(rows[1..], filter, after, id);
    }
  }

  // ---------------------------------------------------------------------- Run

  datatype Result = Result(replayed: nat, failed: nat, skipped: nat)

  function Ids(rows: seq<Row>): set<int> { set r | r in rows :: r.id }

  function Count(r: Result): nat { r.replayed + r.failed + r.skipped }

  /** How many of the rows name a sink that is not configured. */
  function Unknown(rows: seq<Row>, configured: set<string>): nat
  {
    if rows == [] then 0
    else Unknown(rows[..|rows| - 1], configured) + if rows[|rows| - 1].sink in configured then 0 else 1
  }

  /** How many of the rows of configured sinks do not decode. */
  function Undecodable(rows: seq<Row>, configured: set<string>): nat
  {
    if rows == [] then 0
    else
      var r := rows[|rows| - 1];
      Undecodable(rows[..|rows| - 1], configured) + if r.sink in configured && !r.decodes then 1 else 0
  }

  /** The rows of configured sinks that decode. */
  function Due(rows: seq<Row>, configured: set<string>): seq<Row>
  {
    if rows == [] then []
    else
      var r := rows[|rows| - 1];
      Due(rows[..|rows| - 1], configured) + if r.sink in configured && r.decodes then [r] else []
  }

  /** Every visited row that is due was written: replayed, or refused. */
  ghost predicate Written(acked: seq<Row>, visited: seq<Row>, configured: set<string>, dryRun: bool, failed: nat, refused: nat)
  {
    && failed == Undecodable(visited, configured) + refused
    && (dryRun ==> refused == 0)
    && (!dryRun ==> |acked| + refused == |Due(visited, configured)| && (refused == 0 ==> acked == Due(visited, configured)))
  }

  /** Only decodable rows of configured sinks, from among those visited, were acknowledged. */
  ghost predicate Acceptable(acked: seq<Row>, visited: seq<Row>, configured: set<string>)
  {
    forall r :: r in acked ==> r in visited && r.sink in configured && r.decodes
  }

  /** After k of the rows in `all`: the table is the old one minus what was
      acknowledged, the cursor selects the rest, and the counters add up. */
  ghost predicate Progress(rows0: seq<Row>, rows: seq<Row>, filter: string, configured: set<string>, dryRun: bool,
                           all: seq<Row>, k: nat, after: int, acked: seq<Row>, res: Result, refused: nat)
  {
    && k <= |all| && Table(rows)
    && Select(rows, filter, after) == all[k..]
    && rows == Minus(rows0, Ids(acked))
    && Acceptable(acked, all[..k], configured)
    && Count(res) == k && res.skipped == Unknown(all[..k], configured)
    && (if dryRun then acked == [] else res.replayed == |acked|)
    && Written(acked, all[..k], configured, dryRun, res.failed, refused)
  }

  datatype Fate = Replayed | Left | Skipped | Stop

  function Tally(res: Result, f: Fate): Result
  {
    match f
    case Replayed => res.(replayed := res.replayed + 1)
    case Left => res.(failed := res.failed + 1)
    case Skipped => res.(skipped := res.skipped + 1)
    case Stop => res
  }

  lemma ProgressStart(rows: seq<Row>, filter: string, configured: set<string>, dryRun: bool)
    requires Table(rows)
    ensures Progress(rows, rows, filter, configured, dryRun, Select(rows, filter, 0), 0, 0, [], Result(0, 0, 0), 0)
  {
  }

  lemma ProgressStep(rows0: seq<Row>, rows: seq<Row>, filter: string, configured: set<string>, dryRun: bool,
                     all: seq<Row>, k: nat, after: int, acked: seq<Row>, res: Result, refused: nat, f: Fate)
    requires Progress(rows0, rows, filter, configured, dryRun, all, k, after, acked, res, refused)
    requires k < |all| && f != Stop && (f == Skipped <==> all[k].sink !in configured)
    requires f == Replayed ==> all[k].decodes
    requires dryRun ==> (f == Left ==> !all[k].decodes)
    ensures var gone := f == Replayed && !dryRun;
      Progress(rows0, if gone then Minus(rows, {all[k].id}) else rows, filter, configured, dryRun, all, k + 1, all[k].id,
               if gone then acked + [all[k]] else acked, Tally(res, f),
               refused + if f == Left && all[k].decodes then 1 else 0)
  {
    hide Table, Matches, Select, Minus, Unknown, Acceptable, Ids, Written;
    var it := all[k];
    assert all[k..][0] == it && all[k..][1..] == all[k + 1..];
    Visited(all, k, acked, configured);
    OneRowMore(all, k, acked, configured, dryRun, res.failed, refused);
    SelectNext(rows, filter, after);
    if f == Replayed && !dryRun {
      SelectAfterDelete(rows, filter, it.id, it.id);
      MinusMore(rows0, Ids(acked), it.id);
      MinusIsTable(rows, {it.id});
      IdsMore(acked, it);
    }
  }

  lemma OneRowMore(all: seq<Row>, k: nat, acked: seq<Row>, configured: set<string>, dryRun: bool, failed: nat, refused: nat)
    requires k < |all| && Written(acked, all[..k], configured, dryRun, failed, refused)
    ensures var it, v := all[k], all[..k + 1];
      && (it.sink !in configured ==> Written(acked, v, configured, dryRun, failed, refused))
      && (it.sink in configured && !it.decodes ==> Written(acked, v, configured, dryRun, failed + 1, refused))
      && (it.sink in configured && it.decodes && dryRun ==> Written(acked, v, configured, dryRun, failed, refused))
      && (it.sink in configured && it.decodes && !dryRun ==>
            && Written(acked, v, configured, dryRun, failed + 1, refused + 1)
            && Written(acked + [it], v, configured, dryRun, failed, refused))
  {
    assert all[..k + 1][..k] == all[..k];
  }

  lemma IdsMore(acked: seq<Row>, it: Row)
    ensures Ids(acked + [it]) == Ids(acked) + {it.id}
  {
  }

  lemma Visited(all: seq<Row>, k: nat, acked: seq<Row>, configured: set<string>)
    requires k < |all| && Acceptable(acked, all[..k], configured)
    ensures Acceptable(acked, all[..k + 1], configured)
    ensures all[k].sink in configured && all[k].decodes ==>
      Acceptable(acked + [all[k]], all[..k + 1], configured)
    ensures Unknown(all[..k + 1], configured)
         == Unknown(all[..k], configured) + if all[k].sink in configured then 0 else 1
  {
    var v := all[..k + 1];
    assert v == all[..k] + [all[k]];
    assert v[..|v| - 1] == all[..k];
  }

  /** How a run ends: nothing lost, and after an abort at most one acknowledged row
      still parked. */
  ghost predicate Settled(rows0: seq<Row>, rows: seq<Row>, acked: seq<Row>, visited: seq<Row>,
                          configured: set<string>, finished: bool)
  {
    && Acceptable(acked, visited, configured)
    && (rows == Minus(rows0, Ids(acked))
      || (!finished && acked != [] && rows == Minus(rows0, Ids(acked[..|acked| - 1]))))
  }

  lemma {:induction false} InMinus(rows: seq<Row>, ids: set<int>, r: Row)
    ensures r in Minus(rows, ids) <==> r in rows && r.id !in ids
  {
    if rows != [] {
      InMinus(rows[1..], ids, r);
      assert rows == [rows[0]] + rows[1..];
    }
  }

  /** The loop's invariant gives what is promised at the end. */
  lemma ProgressSettled(rows0: seq<Row>, rows: seq<Row>, filter: string, configured: set<string>, dryRun: bool,
                        all: seq<Row>, k: nat, after: int, acked: seq<Row>, res: Result, refused: nat)
    requires Progress(rows0, rows, filter, configured, dryRun, all, k, after, acked, res, refused)
    ensures Settled(rows0, rows, acked, all[..k], configured, true)
    ensures Settled(rows0, rows, acked, all[..k], configured, false)
    ensures Count(res) == k && res.skipped == Unknown(all[..k], configured)
    ensures Select(rows, filter, after) == all[k..]
    ensures !dryRun ==> res.replayed == |acked|
    ensures Written(acked, all[..k], configured, dryRun, res.failed, refused)
    ensures dryRun ==> acked == [] && rows == rows0
  {
    if dryRun {
      MinusNothing(rows0);
      assert Ids([]) == {};
    }
  }

  /** An item that stops the run was at worst acknowledged without being deleted. */
  lemma StopSettles(rows0: seq<Row>, rows: seq<Row>, filter: string, configured: set<string>, dryRun: bool,
                    all: seq<Row>, k: nat, after: int, acked: seq<Row>, res: Result, refused: nat,
                    rows': seq<Row>, acked': seq<Row>)
    requires Progress(rows0, rows, filter, configured, dryRun, all, k, after, acked, res, refused) && k < |all|
    requires if acked' == acked then rows' == rows else
      && !dryRun && all[k].sink in configured && all[k].decodes && acked' == acked + [all[k]]
      && (rows' == rows || rows' == Minus(rows, {all[k].id}))
    ensures Settled(rows0, rows', acked', all[..k + 1], configured, false)
    ensures dryRun ==> acked' == []
  {
    hide Select, Table, Minus, Unknown, Acceptable, Ids;
    var it := all[k];
    Visited(all, k, acked, configured);
    if acked' != acked {
      assert acked'[..|acked'| - 1] == acked;
      MinusMore(rows0, Ids(acked), it.id);
      IdsMore(acked, it);
    }
  }

  /** Conservation: every row parked before is still parked or was acknowledged. */
  lemma NothingLost(rows0: seq<Row>, rows: seq<Row>, acked: seq<Row>, visited: seq<Row>,
                    configured: set<string>, finished: bool, r: Row)
    requires Table(rows0) && Settled(rows0, rows, acked, visited, configured, finished)
    requires forall v :: v in visited ==> v in rows0
    requires r in rows0
    ensures r in rows || r in acked
    ensures finished ==> (r in rows <==> r !in acked)
  {
    var gone := if rows == Minus(rows0, Ids(acked)) then acked else acked[..|acked| - 1];
    InMinus(rows0, Ids(gone), r);
    if r.id in Ids(gone) {
      var x :| x in gone && x.id == r.id;
      assert x in acked && x in rows0;
    }
  }

  class Replayer {
    var rows: seq<Row>
    const configured: set<string>

    /** The rows whose write a sink acknowledged, in order. A write that failed may
        have reached its destination as well; its row stays parked and goes out again. */
    var acknowledged: seq<Row>
    ghost var faults: nat

    /** How many writes a sink did not acknowledge. */
    ghost var refused: nat

    constructor (rows: seq<Row>, configured: set<string>)
      requires Table(rows)
      ensures this.rows == rows && this.configured == configured && acknowledged == []
      ensures faults == refused == 0
    {
      this.rows, this.configured, acknowledged, faults, refused := rows, configured, [], 0, 0;
    }

    method List(filter: string, after: int, limit: int) returns (ok: bool, items: seq<Row>)
      modifies `faults
      ensures faults == old(faults) + if ok then 0 else 1
      ensures ok ==> items == Take(Select(rows, filter, after), if limit <= 0 then DEFAULT_PAGE else limit)
    {
      ok := *;
      faults := faults + if ok then 0 else 1;
      items := Take(Select(rows, filter, after), if limit <= 0 then DEFAULT_PAGE else limit);
    }

    method Delete(id: int) returns (ok: bool)
      modifies `rows, `faults
      ensures faults == old(faults) + if ok then 0 else 1
      ensures rows == Minus(old(rows), {id}) || (!ok && rows == old(rows))
    {
      ok := *;
      faults := faults + if ok then 0 else 1;
      var gone: bool := *;
      if ok || gone {
        rows := Minus(rows, {id});
      }
    }

    /** Write through the row's sink; a failure leaves the row where it is. */
    method Write(row: Row) returns (ok: bool)
      modifies `acknowledged, `refused
      ensures acknowledged == if ok then old(acknowledged) + [row] else old(acknowledged)
      ensures refused == old(refused) + if ok then 0 else 1
    {
      ok := *;
      if ok {
        acknowledged := acknowledged + [row];
      } else {
        refused := refused + 1;
      }
    }

    /** One item. Only a batch its sink acknowledged is deleted. */
    method One(it: Row, dryRun: bool) returns (f: Fate)
      modifies this
      ensures faults >= old(faults) && (f == Stop <==> faults > old(faults))
      ensures f != Stop ==> (f == Skipped <==> it.sink !in configured)
      ensures f == Replayed ==> it.decodes
      ensures refused == old(refused) + if f == Left && it.decodes then 1 else 0
      ensures f != Stop && it.sink in configured && dryRun ==> f == if it.decodes then Replayed else Left
      ensures f == Left || f == Skipped || dryRun ==> rows == old(rows) && acknowledged == old(acknowledged)
      ensures f == Replayed && !dryRun ==> rows == Minus(old(rows), {it.id}) && acknowledged == old(acknowledged) + [it]
      ensures f == Stop && acknowledged == old(acknowledged) ==> rows == old(rows)
      ensures f == Stop && acknowledged != old(acknowledged) ==> !dryRun && it.sink in configured && it.decodes
      ensures f == Stop && acknowledged != old(acknowledged) ==> acknowledged == old(acknowledged) + [it]
      ensures f == Stop && acknowledged != old(acknowledged) ==> rows == old(rows) || rows == Minus(old(rows), {it.id})
    {
      if it.sink !in configured {
        return Skipped;
      }
      var built: bool := *; // building the sink may fail
      if !built {
        faults := faults + 1;
        return Stop;
      }
      if !it.decodes {
        return Left;
      }
      if dryRun {
        return Replayed;
      }
      var acked := Write(it);
      if !acked {
        return Left;
      }
      var deleted := Delete(it.id);
      return if deleted then Replayed else Stop;
    }

    /** The items of one page. */
    method Page(items: seq<Row>, limit: int, dryRun: bool, afterIn: int, processedIn: nat, resIn: Result,
                ghost rows0: seq<Row>, ghost before: nat, ghost no: nat, ghost filter: string, ghost all: seq<Row>)
      returns (end: PageEnd, after: int, processed: nat, res: Result)
      requires before <= |acknowledged| && no <= refused && processedIn <= |all| && (0 < limit ==> processedIn <= limit)
      requires Progress(rows0, rows, filter, configured, dryRun, all, processedIn, afterIn, acknowledged[before..], resIn,
                        refused - no)
      requires items <= all[processedIn..]
      modifies this
      ensures old(acknowledged) <= acknowledged && faults >= old(faults) && (end == Broken <==> faults > old(faults))
      ensures old(refused) <= refused
      ensures processed <= |all| && (0 < limit ==> processed <= limit)
      ensures end == NextPage ==> processed == processedIn + |items|
      ensures end == AllDone ==> 0 < processed == limit < |all|
      ensures end != Broken ==>
        Progress(rows0, rows, filter, configured, dryRun, all, processed, after, acknowledged[before..], res, refused - no)
      ensures end == Broken ==>
        Settled(rows0, rows, acknowledged[before..], all[..processed], configured, false)
      ensures end == Broken && dryRun ==> acknowledged[before..] == []
    {
      hide Select, Minus, Table, Unknown, Progress, Settled;
      after, processed, res := afterIn, processedIn, resIn;
      var j := 0;
      while j < |items|
        invariant 0 <= j <= |items| && processed == processedIn + j
        invariant faults == old(faults) && old(acknowledged) <= acknowledged && old(refused) <= refused
        invariant Progress(rows0, rows, filter, configured, dryRun, all, processed, after, acknowledged[before..], res,
                           refused - no)
        invariant 0 < limit ==> processed <= limit
      {
        var it := items[j];
        assert it == all[processedIn..][j] == all[processed];
        if limit > 0 && processed >= limit {
          return AllDone, after, processed, res;
        }
        ghost var was, table, refusals := acknowledged[before..], rows, refused - no;
        Since(acknowledged, before, it);
        var f := One(it, dryRun);
        if f == Stop {
          StopSettles(rows0, table, filter, configured, dryRun, all, processed, after, was, res, refusals, rows,
                      acknowledged[before..]);
          return Broken, after, processed + 1, res;
        }
        ProgressStep(rows0, table, filter, configured, dryRun, all, processed, after, was, res, refusals, f);
        after := it.id;
        res := Tally(res, f);
        processed := processed + 1;
        j := j + 1;
      }
      end := NextPage;
    }

    /** One turn of the outer loop: fetch a page after the cursor and work through it. */
    method NextPageAfter(filter: string, limit: int, dryRun: bool, page: int, afterIn: int, processedIn: nat,
                         resIn: Result, ghost rows0: seq<Row>, ghost before: nat, ghost no: nat)
      returns (end: PageEnd, after: int, processed: nat, res: Result)
      requires page > 0 && before <= |acknowledged| && no <= refused && (0 < limit ==> processedIn <= limit)
      requires Progress(rows0, rows, filter, configured, dryRun, Select(rows0, filter, 0), processedIn, afterIn,
                        acknowledged[before..], resIn, refused - no)
      modifies this
      ensures old(acknowledged) <= acknowledged && faults >= old(faults) && (end == Broken <==> faults > old(faults))
      ensures old(refused) <= refused
      ensures 0 < limit ==> processed <= limit
      ensures end == NextPage ==> processedIn < processed <= |Select(rows0, filter, 0)|
      ensures end == NextPage ==> Progress(rows0, rows, filter, configured, dryRun, Select(rows0, filter, 0), processed,
                                           after, acknowledged[before..], res, refused - no)
      ensures end == Broken ==>
        RunOk(rows0, rows, filter, configured, limit, dryRun, acknowledged[before..], Failed, res, processed, refused - no)
      ensures end == AllDone ==>
        RunOk(rows0, rows, filter, configured, limit, dryRun, acknowledged[before..], Done, res, processed, refused - no)
    {
      hide Select, Minus, Table, Progress, Take, RunOk, Settled;
      ghost var all := Select(rows0, filter, 0);
      ProgressEnds(rows0, rows, filter, configured, dryRun, limit, processedIn, afterIn, acknowledged[before..], resIn, refused - no);
      after, processed, res := afterIn, processedIn, resIn;
      var ok, items := List(filter, afterIn, page);
      if !ok {
        return Broken, after, processed, res;
      }
      TakeSome(all[processedIn..], page);
      if |items| == 0 {
        return AllDone, after, processed, res;
      }
      end, after, processed, res := Page(items, limit, dryRun, afterIn, processedIn, resIn, rows0, before, no, filter, all);
      if end == Broken {
        BrokenEnds(rows0, rows, filter, configured, limit, dryRun, acknowledged[before..], res, processed, refused - no);
      } else if end == AllDone {
        ProgressEnds(rows0, rows, filter, configured, dryRun, limit, processed, after, acknowledged[before..], res, refused - no);
      }
    }

    /** Run. `visited` is the number of rows it got to. */
    method Run(filter: string, limit: int, dryRun: bool, pageSize: int)
      returns (o: Outcome, res: Result, ghost visited: nat)
      requires Table(rows)
      modifies this
      ensures old(acknowledged) <= acknowledged && old(refused) <= refused
      ensures o == Done <==> faults == old(faults)
      ensures RunOk(old(rows), rows, filter, configured, limit, dryRun, acknowledged[|old(acknowledged)|..], o, res, visited,
                    refused - old(refused))
    {
      hide Select, Minus, Table, Progress, RunOk, Settled;
      var page := if pageSize <= 0 then DEFAULT_PAGE else pageSize;
      res := Result(0, 0, 0);
      var afterID, processed: nat := 0, 0;
      ghost var rows0, before, no := rows, |acknowledged|, refused;
      ProgressStart(rows, filter, configured, dryRun);
      assert acknowledged[before..] == [] by { EmptyEnd(acknowledged); }
      while true
        invariant faults == old(faults) && old(acknowledged) <= acknowledged && no <= refused && processed <= |Select(rows0, filter, 0)|
        invariant Progress(rows0, rows, filter, configured, dryRun, Select(rows0, filter, 0), processed, afterID,
                           acknowledged[before..], res, refused - no)
        invariant 0 < limit ==> processed <= limit
        decreases |Select(rows0, filter, 0)| - processed
      {
        var cancelled: bool := *;
        if cancelled {
          ProgressEnds(rows0, rows, filter, configured, dryRun, limit, processed, afterID, acknowledged[before..], res,
                       refused - no);
          faults := faults + 1;
          return Failed, res, processed;
        }
        var end;
        end, afterID, processed, res := NextPageAfter(filter, limit, dryRun, page, afterID, processed, res, rows0, before, no);
        if end != NextPage {
          return if end == Broken then Failed else Done, res, processed;
        }
      }
    }
  }

  /** AllDone: the limit was reached, or no row is left. */
  datatype PageEnd = NextPage | AllDone | Broken

  /** What a run promises. It visits the rows the filter selects, in order of id,
      up to the limit; the table is then the old one minus exactly the acked
      rows; every visited row was counted once. */
  ghost predicate RunOk(rows0: seq<Row>, rows: seq<Row>, filter: string, configured: set<string>, limit: int,
                        dryRun: bool, acked: seq<Row>, o: Outcome, res: Result, visited: nat, refused: nat)
  {
    var all := Select(rows0, filter, 0);
    && visited <= |all|
    && Settled(rows0, rows, acked, all[..visited], configured, o.Done?)
    && (dryRun ==> acked == [] && rows == rows0)
    && (o.Done? ==>
        && visited == (if 0 < limit < |all| then limit else |all|)
        && Count(res) == visited
        && res.skipped == Unknown(all[..visited], configured)
        && (!dryRun ==> res.replayed == |acked|)
        && Written(acked, all[..visited], configured, dryRun, res.failed, refused))
  }

  lemma ProgressEnds(rows0: seq<Row>, rows: seq<Row>, filter: string, configured: set<string>, dryRun: bool,
                     limit: int, k: nat, after: int, acked: seq<Row>, res: Result, refused: nat)
    requires Progress(rows0, rows, filter, configured, dryRun, Select(rows0, filter, 0), k, after, acked, res, refused)
    requires 0 < limit ==> k <= limit
    ensures k <= |Select(rows0, filter, 0)| && Select(rows, filter, after) == Select(rows0, filter, 0)[k..]
    ensures RunOk(rows0, rows, filter, configured, limit, dryRun, acked, Failed, res, k, refused)
    ensures k == |Select(rows0, filter, 0)| || 0 < limit == k ==>
      RunOk(rows0, rows, filter, configured, limit, dryRun, acked, Done, res, k, refused)
  {
    hide Select, Settled, Acceptable, Ids, Minus, Unknown, Table, Written;
    ProgressSettled(rows0, rows, filter, configured, dryRun, Select(rows0, filter, 0), k, after, acked, res, refused);
  }

  lemma BrokenEnds(rows0: seq<Row>, rows: seq<Row>, filter: string, configured: set<string>, limit: int,
                   dryRun: bool, acked: seq<Row>, res: Result, visited: nat, refused: nat)
    requires visited <= |Select(rows0, filter, 0)| && (dryRun ==> acked == [])
    requires Settled(rows0, rows, acked, Select(rows0, filter, 0)[..visited], configured, false)
    ensures RunOk(rows0, rows, filter, configured, limit, dryRun, acked, Failed, res, visited, refused)
  {
    hide Select;
    MinusNothing(rows0);
    assert Ids([]) == {};
  }
}
