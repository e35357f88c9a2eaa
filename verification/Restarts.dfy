/** Which files still have to be re-verified after a database restart, and from where
    (NotifyRestart, pendingRestart, markRestartHandled, recordMark, markBefore and
    their uses in drainFile in internal/pipeline/worker.go), while drains and notices
    interleave. */
module Restarts {
  import opened Markers
  import opened Wrappers

  // times are nanoseconds; 0 is Go's zero time
  const RESTART_MARGIN: int := 60000000000
  const RESTART_DEDUP_WINDOW: int := 90000000000
  const NOTES_KEPT: nat := 32
  const MARKS_KEPT: nat := 256

  datatype Note = Note(gen: nat, at: nat)

  /** A checkpoint of a file: when it was set, and its marker. */
  datatype Mark = Mark(t: nat, marker: string)

  datatype Book = Book(gen: nat, notes: seq<Note>, handled: map<string, nat>, marks: map<string, seq<Mark>>)

  function Keep<T>(s: seq<T>, n: nat): seq<T> { if |s| > n then s[|s| - n..] else s }

  /** A notice within the window of a kept one is the same restart. */
  predicate Known(notes: seq<Note>, at: nat)
  {
    exists i :: 0 <= i < |notes| && -RESTART_DEDUP_WINDOW < at - notes[i].at < RESTART_DEDUP_WINDOW
  }

  /** NotifyRestart. */
  function Notify(b: Book, at: nat): Book
  {
    if Known(b.notes, at) then b
    else b.(gen := b.gen + 1, notes := Keep(b.notes + [Note(b.gen + 1, at)], NOTES_KEPT))
  }

  function Handled(b: Book, file: string): nat { if file in b.handled then b.handled[file] else 0 }

  /** The earliest time among the notes not handled yet; the zero time gives way
      to any other. */
  function Earliest(notes: seq<Note>, handled: nat, at: nat): nat
    decreases |notes|
  {
    if notes == [] then at
    else
      var r := notes[0];
      Earliest(notes[1..], handled, if r.gen > handled && (at == 0 || r.at < at) then r.at else at)
  }

  /** markRestartHandled. */
  function MarkHandled(b: Book, file: string, gen: nat): Book
  {
    if gen > Handled(b, file) then b.(handled := b.handled[file := gen]) else b
  }

  function MarksIn(b: Book, file: string): seq<Mark> { if file in b.marks then b.marks[file] else [] }

  /** recordMark. */
  function AddMark(b: Book, file: string, now: nat, marker: string): Book
  {
    b.(marks := b.marks[file := Keep(MarksIn(b, file) + [Mark(now, marker)], MARKS_KEPT)])
  }

  /** The newest of some marks that was set at or before t; -1 when there is none. */
  function Newest(m: seq<Mark>, t: int): (i: int)
    ensures -1 <= i < |m|
    ensures i >= 0 ==> m[i].t <= t
    ensures forall j :: i < j < |m| ==> m[j].t > t
  {
    if m == [] then -1 else if m[|m| - 1].t <= t then |m| - 1 else Newest(m[..|m| - 1], t)
  }

  /** markBefore: the newest mark set at or before t, or else the oldest there is. */
  function MarkAt(m: seq<Mark>, t: int): (i: int)
    requires m != []
    ensures 0 <= i < |m|
  {
    if Newest(m, t) < 0 then 0 else Newest(m, t)
  }

  /** The mark a re-read goes back to; -1 for the checkpoint itself. */
  function PickMark(m: seq<Mark>, t: int, prev: string): (i: int)
    ensures -1 <= i < |m|
  {
    if m != [] && SameHourFile(m[MarkAt(m, t)].marker, prev) then MarkAt(m, t) else -1
  }

  function From(m: seq<Mark>, i: int, prev: string): string
    requires -1 <= i < |m|
  {
    if i < 0 then prev else m[i].marker
  }

  /** Not written since the margin before the restart. */
  predicate IdleBefore(at: nat, lastWritten: nat) { 0 < lastWritten && lastWritten < at - RESTART_MARGIN }

  /** Generation g is handled for the file, and nothing handled before no longer is. */
  predicate Covered(was: map<string, nat>, handled: map<string, nat>, file: string, g: nat)
  {
    && (g > 0 ==> file in handled && handled[file] >= g)
    && (forall f :: f in was ==> f in handled && handled[f] >= was[f])
    && (forall f :: f in handled && f != file ==> f in was && handled[f] == was[f])
  }

  // ---------------------------------------------------------- the worker's state

  class RestartBook {
    var gen: nat
    var notes: seq<Note>
    var handled: map<string, nat>
    var marks: map<string, seq<Mark>>

    function Contents(): Book reads this { Book(gen, notes, handled, marks) }

    constructor ()
      ensures Contents() == Book(0, [], map[], map[])
    {
      gen, notes, handled, marks := 0, [], map[], map[];
    }

    method NotifyRestart(at: nat)
      modifies `gen, `notes
      ensures Contents() == Notify(old(Contents()), at)
      ensures gen > old(gen) <==>
        forall i :: 0 <= i < |old(notes)| ==> at - old(notes)[i].at >= 90000000000 || old(notes)[i].at - at >= 90000000000
      ensures gen > old(gen) ==> gen == old(gen) + 1 && notes != [] && notes[|notes| - 1] == Note(gen, at)
    {
      var i := 0;
      while i < |notes|
        invariant 0 <= i <= |notes|
        invariant forall j :: 0 <= j < i ==> !(-RESTART_DEDUP_WINDOW < at - notes[j].at < RESTART_DEDUP_WINDOW)
      {
        var d := at - notes[i].at;
        if d < RESTART_DEDUP_WINDOW && d > -RESTART_DEDUP_WINDOW {
          return;
        }
        i := i + 1;
      }
      gen := gen + 1;
      notes := notes + [Note(gen, at)];
      if |notes| > NOTES_KEPT {
        notes := notes[|notes| - NOTES_KEPT..];
      }
    }

    /** pendingRestart after the generation was loaded; other threads may have
        recorded more restarts since. */
    method PendingRestart(file: string, loaded: nat) returns (pending: bool, at: nat, g: nat)
      ensures pending <==> Handled(Contents(), file) < loaded
      ensures pending ==> at == Earliest(notes, Handled(Contents(), file), 0) && g == loaded
    {
      var done := if file in handled then handled[file] else 0;
      if done >= loaded {
        return false, 0, 0;
      }
      at := 0;
      var i := 0;
      assert notes[0..] == notes;
      while i < |notes|
        invariant 0 <= i <= |notes|
        invariant Earliest(notes[i..], done, at) == Earliest(notes, done, 0)
      {
        assert notes[i..][0] == notes[i] && notes[i..][1..] == notes[i + 1..];
        if notes[i].gen > done && (at == 0 || notes[i].at < at) {
          at := notes[i].at;
        }
        i := i + 1;
      }
      return true, at, loaded;
    }

    method MarkRestartHandled(file: string, g: nat)
      modifies `handled
      ensures Contents() == MarkHandled(old(Contents()), file, g)
      ensures Covered(old(handled), handled, file, g)
    {
      if g > (if file in handled then handled[file] else 0) {
        handled := handled[file := g];
      }
    }

    method RecordMark(file: string, now: nat, marker: string)
      modifies `marks
      ensures Contents() == AddMark(old(Contents()), file, now, marker)
    {
      var m := MarksIn(Contents(), file) + [Mark(now, marker)];
      if |m| > MARKS_KEPT {
        m := m[|m| - MARKS_KEPT..];
      }
      marks := marks[file := m];
    }

    method MarkBefore(file: string, t: int) returns (found: bool, marker: string)
      ensures found <==> MarksIn(Contents(), file) != []
      ensures found ==> marker == MarksIn(Contents(), file)[MarkAt(MarksIn(Contents(), file), t)].marker
    {
      var m := MarksIn(Contents(), file);
      var i := |m| - 1;
      while i >= 0
        invariant -1 <= i < |m|
        invariant forall j :: i < j < |m| ==> m[j].t > t
      {
        if m[i].t <= t {
          assert Newest(m, t) == i;
          return true, m[i].marker;
        }
        i := i - 1;
      }
      if |m| > 0 {
        assert Newest(m, t) == -1;
        return true, m[0].marker;
      }
      return false, "";
    }

    /** What drainFile does about restarts, and about a file that shrank, before it
        reads: from which marker it then reads, and whether it has to commit the
        restart. `loaded` is the generation at its first step. */
    method Reverify(file: string, loaded: nat, prev: string, prevSize: int, lastWritten: nat, size: int)
      returns (again: bool, restarted: bool, start: string, dropFirst: bool)
      modifies `handled
      ensures var b := old(Contents());
        var pending := Handled(b, file) < loaded;
        var at := Earliest(b.notes, Handled(b, file), 0);
        var m, hour := MarksIn(b, file), ParseHourMarker(prev);
        && (restarted <==> pending && (lastWritten == 0 || at <= lastWritten + 60000000000)) // a minute, in nanoseconds
        && Contents() == (if pending && !restarted then MarkHandled(b, file, loaded) else b)
        && (if pending && !restarted then Covered(b.handled, handled, file, loaded) else handled == b.handled)
        && (again <==> (restarted || (size < prevSize && (hour.None? || hour.value.off > size))))
        && (!again ==> start == prev && !dropFirst)
        && (restarted ==>
              (start, dropFirst) == RewindMarker(From(m, PickMark(m, at - RESTART_MARGIN, prev), prev), size))
        && (again && !restarted ==> (start, dropFirst) == RewindMarker(prev, size))
    {
      hide RewindMarker, SameHourFile, ParseHourMarker, Earliest, Newest, MarkAt;
      var shrank := size < prevSize && !MarkerStillValid(prev, size);
      var at, g;
      restarted, at, g := PendingRestart(file, loaded);
      if restarted && lastWritten > 0 && lastWritten < at - RESTART_MARGIN {
        MarkRestartHandled(file, g);
        restarted := false;
      }
      again, start, dropFirst := shrank || restarted, prev, false;
      if again {
        var from := prev;
        if restarted {
          var found, m := MarkBefore(file, at - RESTART_MARGIN);
          if found && SameHourFile(m, prev) {
            from := m;
          }
        }
        var r := RewindMarker(from, size);
        start, dropFirst := r.0, r.1;
      }
    }

    /** What flush does once a checkpoint is in place. */
    method Checkpointed(file: string, now: nat, marker: string, restarted: bool, g: nat)
      modifies `marks, `handled
      ensures var b := AddMark(old(Contents()), file, now, marker);
        Contents() == if restarted then MarkHandled(b, file, g) else b
      ensures if restarted then Covered(old(handled), handled, file, g) else handled == old(handled)
      ensures file in marks && marks[file] != [] && marks[file][|marks[file]| - 1] == Mark(now, marker)
    {
      RecordMark(file, now, marker);
      if restarted {
        MarkRestartHandled(file, g);
      }
    }
  }

  // ------------------------------------------- drains and notices, interleaved

  /** What a drain saw of the restarts: it loaded generation `gen` at step `begun`,
      and looked at the restarts after number `after`, of which the first `dropped`
      were no longer noted; `at` is the time it took for theirs. */
  datatype Sight = Sight(gen: nat, at: nat, begun: nat, after: nat, dropped: nat)

  /** How a drain went back: `prev` was the checkpoint (`noted` if a drain had set it
      and been told so), `from` the marker it went back from - number `mark` of the
      `seen` checkpoints noted so far, or prev - and `start` where it then read on. */
  datatype Rewind = Rewind(sight: Sight, prev: string, noted: bool, size: int, seen: nat, mark: int, from: string,
                           start: string)

  /** What the store holds for a file, and whether it is the newest noted checkpoint. */
  datatype Stored = Stored(marker: string, noted: bool)

  /** Where the drain of a file stands with respect to restarts. */
  datatype Phase = Loaded(gen: nat, begun: nat) | Looked(sight: Sight) | Rewound(rewind: Rewind) | Plain

  /** Why a restart was taken as handled for a file. */
  datatype Reason = IdleSinceBefore(lastWritten: nat) | ReadAgain(rewind: Rewind, durable: string)

  datatype Clearance = Clearance(file: string, sight: Sight, reason: Reason)

  /** The worker, the store, the drains in progress (at most one a file), and what
      happened: every restart recorded and the step it was recorded at, every
      checkpoint noted for a file, and every clearance. */
  datatype System = System(book: Book, stored: map<string, Stored>, drains: map<string, Phase>, step: nat, now: nat,
                           all: seq<Note>, recordedAt: seq<nat>, marked: map<string, seq<Mark>>, cleared: seq<Clearance>)

  datatype Event =
    | Notice(at: nat)                                                    // an RDS event or a start banner
    | Open(file: string)                                                 // a drain of a new file begins
    | Load(file: string)                                                 // one of a tracked file
    | LookUp(file: string)                                               // it takes the lock and looks
    | Decide(file: string, lastWritten: nat, size: int)                  // idle, or to be read again
    | Set(file: string, marker: string, now: nat)                        // a checkpoint is in place
    | Store(file: string, marker: string)                                // one is, but not noted: an earlier
                                                                         // process's, the planner's, a failed write's
    | End(file: string)                                                  // successfully or not

  /** A drain only goes on from where it started. */
  predicate GoesOn(start: string, marker: string)
  {
    var a, b := OffsetMarker(start), OffsetMarker(marker);
    a.Some? && b.Some? && a.value.prefix == b.value.prefix ==> a.value.off <= b.value.off
  }

  predicate Enabled(s: System, e: Event)
  {
    match e
    case Notice(at) => at > 0
    case Open(f) => f !in s.drains
    case Load(f) => f !in s.drains && f in s.stored
    case LookUp(f) => f in s.drains && s.drains[f].Loaded?
    case Decide(f, _, size) => f in s.drains && s.drains[f].Looked? && size <= INT64_MAX
    case Set(f, marker, now) =>
      && f in s.drains && s.now <= now
      && (s.drains[f].Plain? || (s.drains[f].Rewound? && GoesOn(s.drains[f].rewind.start, marker)))
    case Store(f, _) => f in s.drains ==> s.drains[f].Plain? || s.drains[f].Rewound?
    case End(f) => f in s.drains
  }

  function Clear(s: System, f: string, sight: Sight, reason: Reason): System
  {
    s.(book := MarkHandled(s.book, f, sight.gen), drains := s.drains[f := Plain],
       cleared := s.cleared + [Clearance(f, sight, reason)])
  }

  /** How many of the first restarts are no longer noted. */
  function Dropped(s: System): nat { if |s.all| > NOTES_KEPT then |s.all| - NOTES_KEPT else 0 }

  function History(s: System, f: string): seq<Mark> { if f in s.marked then s.marked[f] else [] }

  /** The checkpoint a drain of the file starts with. */
  function Prev(s: System, f: string): Stored
  {
    if f in s.stored then s.stored[f] else Stored(MARKER_BEGINNING, false)
  }

  function WentBack(s: System, f: string, sight: Sight, size: int): Rewind
  {
    var m, h, prev := MarksIn(s.book, f), History(s, f), Prev(s, f).marker;
    var i := PickMark(m, sight.at - RESTART_MARGIN, prev);
    var from := From(m, i, prev);
    Rewind(sight, prev, Prev(s, f).noted, size, |h|, if i < 0 then -1 else |h| - |m| + i, from, RewindMarker(from, size).0)
  }

  function Next(s0: System, e: Event): System
    requires Enabled(s0, e)
  {
    var s := s0.(step := s0.step + 1);
    match e
    case Notice(at) =>
      var b := Notify(s.book, at);
      if b.gen == s.book.gen then s
      else s.(book := b, all := s.all + [Note(b.gen, at)], recordedAt := s.recordedAt + [s0.step])
    case Open(f) => s.(drains := s.drains[f := Plain])
    case Load(f) => s.(drains := s.drains[f := Loaded(s.book.gen, s0.step)])
    case LookUp(f) =>
      var p := s.drains[f];
      if Handled(s.book, f) >= p.gen then s.(drains := s.drains[f := Plain])
      else
        var at := Earliest(s.book.notes, Handled(s.book, f), 0);
        s.(drains := s.drains[f := Looked(Sight(p.gen, at, p.begun, Handled(s.book, f), Dropped(s)))])
    case Decide(f, lastWritten, size) =>
      var sight := s.drains[f].sight;
      if IdleBefore(sight.at, lastWritten) then Clear(s, f, sight, IdleSinceBefore(lastWritten))
      else s.(drains := s.drains[f := Rewound(WentBack(s, f, sight, size))])
    case Set(f, marker, now) =>
      var t := s.(book := AddMark(s.book, f, now, marker), now := now, stored := s.stored[f := Stored(marker, true)],
                  marked := s.marked[f := History(s, f) + [Mark(now, marker)]]);
      if s.drains[f].Rewound? then Clear(t, f, s.drains[f].rewind.sight, ReadAgain(s.drains[f].rewind, marker)) else t
    case Store(f, marker) => s.(stored := s.stored[f := Stored(marker, false)])
    case End(f) => s.(drains := s.drains - {f})
  }

  function Start(): System { System(Book(0, [], map[], map[]), map[], map[], 0, 0, [], [], map[], []) }

  ghost predicate Run(ss: seq<System>, es: seq<Event>)
  {
    && |ss| == |es| + 1 && ss[0] == Start()
    && forall i :: 0 <= i < |es| ==> Enabled(ss[i], es[i]) && ss[i + 1] == Next(ss[i], es[i])
  }

  // ------------------------------------------------------------- what a run keeps

  predicate Apart(a: nat, b: nat) { a - b >= RESTART_DEDUP_WINDOW || b - a >= RESTART_DEDUP_WINDOW }

  /** The kept notes are the newest ones; generations count up from 1; kept
      restarts are at least the window apart. */
  ghost predicate NotesOk(s: System)
  {
    && s.book.gen == |s.all| == |s.recordedAt|
    && s.book.notes == Keep(s.all, NOTES_KEPT)
    && (forall i :: 0 <= i < |s.all| ==> s.all[i].gen == i + 1 && s.all[i].at > 0 && s.recordedAt[i] < s.step)
    && (forall i, j :: 0 <= i < j < |s.book.notes| ==> Apart(s.book.notes[i].at, s.book.notes[j].at))
    && (forall i :: 1 <= i < |s.all| ==> Apart(s.all[i - 1].at, s.all[i].at))
  }

  /** The kept marks of a file are the newest of all its checkpoints, in the order of
      their times, and the store holds the newest unless one that is not noted is there. */
  ghost predicate MarksOk(s: System)
  {
    && (forall f: string :: MarksIn(s.book, f) == Keep(History(s, f), MARKS_KEPT))
    && (forall f: string :: InOrder(History(s, f), s.now))
    && (forall f: string :: Prev(s, f).noted ==> NewestMark(History(s, f), Prev(s, f).marker))
  }

  predicate NewestMark(h: seq<Mark>, marker: string) { h != [] && h[|h| - 1].marker == marker }

  predicate InOrder(h: seq<Mark>, now: nat)
  {
    && (forall i :: 0 <= i < |h| ==> h[i].t <= now)
    && (forall i, j :: 0 <= i < j < |h| ==> h[i].t <= h[j].t)
  }

  /** A drain that loaded generation gen began after restarts 1..gen were recorded
      and before any later one was. */
  ghost predicate BegunAfter(s: System, gen: nat, begun: nat)
  {
    && gen <= |s.recordedAt|
    && forall i :: 0 <= i < |s.recordedAt| ==> (i < gen <==> s.recordedAt[i] < begun)
  }

  predicate Precedes(at: nat, n: Note) { 0 < at <= n.at }

  /** The time a drain takes is that of some restart it looked at, and of none of
      those still noted an earlier one. */
  ghost predicate AtIsEarliest(s: System, d: Sight)
  {
    && (forall i :: d.after <= i < |s.all| && d.dropped <= i < d.gen ==> Precedes(d.at, s.all[i]))
    && (exists i :: d.after <= i < |s.all| && d.dropped <= i && s.all[i].at == d.at)
  }

  ghost predicate SightOk(s: System, d: Sight)
  {
    d.begun < s.step && BegunAfter(s, d.gen, d.begun) && d.after < d.gen <= |s.all| && AtIsEarliest(s, d)
  }

  /** The oldest of n checkpoints still kept. */
  function OldestKept(n: nat): nat { if n > MARKS_KEPT then n - MARKS_KEPT else 0 }

  /** Where a rewind starts: from the checkpoint that was in place the margin before
      the restart - number i - exactly when that one is still kept and is in the hour
      file of the checkpoint now; if it is not kept, from the oldest that is, which
      was set later; if the mark is in another hour or there is none, from the
      checkpoint now. */
  ghost predicate RewindOk(s: System, f: string, r: Rewind)
  {
    && r.seen <= |History(s, f)| && r.mark < r.seen && r.size <= INT64_MAX
    && r.start == RewindMarker(r.from, r.size).0
    && (r.noted ==> NewestMark(History(s, f)[..r.seen], r.prev))
    && var h := History(s, f)[..r.seen];
       var i := Newest(h, r.sight.at - RESTART_MARGIN);
       var o := OldestKept(r.seen);
       && (i >= 0 ==> (r.mark == i <==> r.seen - i <= MARKS_KEPT && SameHourFile(h[i].marker, r.prev)))
       && (r.mark < 0 ==> r.from == r.prev && (h == [] || !SameHourFile(h[if i < o then o else i].marker, r.prev)))
       && (r.mark >= 0 ==> r.from == h[r.mark].marker && (r.mark == i || (r.mark == o && i < o)))
  }

  ghost predicate DrainOk(s: System, f: string, d: Phase)
  {
    match d
    case Loaded(gen, begun) => begun < s.step && BegunAfter(s, gen, begun)
    case Looked(sight) => SightOk(s, sight) && sight.after == Handled(s.book, f)
    case Rewound(r) => SightOk(s, r.sight) && r.sight.after == Handled(s.book, f) && RewindOk(s, f, r)
    case Plain => true
  }

  ghost predicate DrainsOk(s: System)
  {
    forall f :: f in s.drains ==> DrainOk(s, f, s.drains[f])
  }

  ghost predicate ReasonOk(s: System, c: Clearance)
  {
    match c.reason
    case IdleSinceBefore(w) => IdleBefore(c.sight.at, w)
    case ReadAgain(r, durable) => r.sight == c.sight && RewindOk(s, c.file, r) && GoesOn(r.start, durable)
  }

  /** Clearance c is one for restart g of the file. */
  predicate ClearsFor(c: Clearance, f: string, g: nat) { c.file == f && c.sight.after < g <= c.sight.gen }

  ghost predicate ClearedFor(s: System, f: string, g: nat)
  {
    exists k :: 0 <= k < |s.cleared| && ClearsFor(s.cleared[k], f, g)
  }

  ghost predicate ClearancesOk(s: System)
  {
    && (forall k :: 0 <= k < |s.cleared| ==> SightOk(s, s.cleared[k].sight) && ReasonOk(s, s.cleared[k]))
    && (forall f: string, g: nat :: 1 <= g <= Handled(s.book, f) ==> ClearedFor(s, f, g))
  }

  ghost predicate Inv(s: System) { NotesOk(s) && MarksOk(s) && DrainsOk(s) && ClearancesOk(s) }

  predicate Dated(notes: seq<Note>) { forall i :: 0 <= i < |notes| ==> notes[i].at > 0 }

  /** The earliest time really is no later than that of any note still to be handled. */
  lemma {:induction false} EarliestIsEarliest(notes: seq<Note>, handled: nat, at: nat, i: nat)
    requires Dated(notes) && i < |notes| && notes[i].gen > handled
    ensures 0 < Earliest(notes, handled, at) <= notes[i].at
    decreases |notes|
  {
    var r := notes[0];
    var at' := if r.gen > handled && (at == 0 || r.at < at) then r.at else at;
    if i > 0 {
      EarliestIsEarliest(notes[1..], handled, at', i - 1);
    } else {
      EarliestFrom(notes[1..], handled, at');
    }
  }

  lemma {:induction false} EarliestFrom(notes: seq<Note>, handled: nat, at: nat)
    requires Dated(notes) && at > 0
    ensures 0 < Earliest(notes, handled, at) <= at
    decreases |notes|
  {
    if notes != [] {
      var r := notes[0];
      EarliestFrom(notes[1..], handled, if r.gen > handled && (at == 0 || r.at < at) then r.at else at);
    }
  }

  lemma {:induction false} EarliestIsSome(notes: seq<Note>, handled: nat, at: nat) returns (i: int)
    requires Dated(notes)
    ensures var e := Earliest(notes, handled, at);
      if i < 0 then e == at else i < |notes| && notes[i].gen > handled && notes[i].at == e
    decreases |notes|
  {
    i := -1;
    if notes != [] {
      var r := notes[0];
      var at' := if r.gen > handled && (at == 0 || r.at < at) then r.at else at;
      var j := EarliestIsSome(notes[1..], handled, at');
      i := if j >= 0 then j + 1 else if at' != at then 0 else -1;
    }
  }

  lemma NotesStep(s: System, e: Event)
    requires NotesOk(s) && Enabled(s, e)
    ensures NotesOk(Next(s, e))
  {
    hide Next, Keep;
    if e.Notice? {
      NoticeStep(s, e.at);
    } else {
      QuietStep(s, e);
    }
  }

  lemma QuietStep(s: System, e: Event)
    requires Enabled(s, e) && !e.Notice?
    ensures var t := Next(s, e);
      && t.book.gen == s.book.gen && t.book.notes == s.book.notes && t.all == s.all && t.recordedAt == s.recordedAt
      && t.step == s.step + 1
  {
    hide MarksIn, WentBack, History, GoesOn;
  }

  lemma NoticeStep(s: System, at: nat)
    requires NotesOk(s) && at > 0
    ensures NotesOk(Next(s, Notice(at)))
  {
    hide Known, Apart, Keep;
    if !Known(s.book.notes, at) {
      var n := Note(s.book.gen + 1, at);
      KeepMore(s.all, n, NOTES_KEPT);
      NoticeApart(s.book.notes, n);
      if s.all != [] {
        LastIsKept(s.all);
      }
    }
  }

  lemma LastIsKept(all: seq<Note>)
    requires all != []
    ensures var ns := Keep(all, NOTES_KEPT); ns != [] && ns[|ns| - 1] == all[|all| - 1]
  {
  }

  lemma NoticeApart(notes: seq<Note>, n: Note)
    requires !Known(notes, n.at)
    requires forall i, j :: 0 <= i < j < |notes| ==> Apart(notes[i].at, notes[j].at)
    ensures var ns := Keep(notes + [n], NOTES_KEPT); forall i, j :: 0 <= i < j < |ns| ==> Apart(ns[i].at, ns[j].at)
    ensures forall i :: 0 <= i < |notes| ==> Apart(notes[i].at, n.at)
  {
    var m := notes + [n];
    assert forall i :: 0 <= i < |notes| ==> Apart(notes[i].at, n.at);
    forall i, j | 0 <= i < j < |m| ensures Apart(m[i].at, m[j].at) {
    }
  }

  lemma MarksStep(s: System, e: Event)
    requires MarksOk(s) && Enabled(s, e)
    ensures MarksOk(Next(s, e))
  {
    hide Next, Enabled, InOrder, Keep, NewestMark, History, MarksIn, Prev;
    var t := Next(s, e);
    forall f: string
      ensures MarksIn(t.book, f) == Keep(History(t, f), MARKS_KEPT) && InOrder(History(t, f), t.now)
      ensures Prev(t, f).noted ==> NewestMark(History(t, f), Prev(t, f).marker)
    {
      if e.Set? && e.file == f {
        SetNotes(s, f, e.marker, e.now);
        KeepMore(History(s, f), Mark(e.now, e.marker), MARKS_KEPT);
        OrderGoesOn(History(s, f), s.now, Mark(e.now, e.marker));
      } else {
        MarksUntouched(s, e, f);
        OrderLater(History(s, f), s.now, t.now);
      }
    }
  }

  lemma SetNotes(s: System, f: string, marker: string, now: nat)
    requires Enabled(s, Set(f, marker, now))
    ensures var t, m := Next(s, Set(f, marker, now)), Mark(now, marker);
      && MarksIn(t.book, f) == Keep(MarksIn(s.book, f) + [m], MARKS_KEPT)
      && History(t, f) == History(s, f) + [m] && NewestMark(History(t, f), Prev(t, f).marker)
      && Prev(t, f) == Stored(marker, true)
      && s.now <= t.now == now
  {
    hide GoesOn, Keep;
  }

  lemma MarksUntouched(s: System, e: Event, f: string)
    requires Enabled(s, e) && !(e.Set? && e.file == f)
    ensures var t := Next(s, e);
      && MarksIn(t.book, f) == MarksIn(s.book, f) && History(t, f) == History(s, f) && s.now <= t.now
      && (Prev(t, f) == Prev(s, f) || !Prev(t, f).noted)
  {
    hide WentBack, GoesOn, Keep, Known, Earliest;
  }

  lemma KeepMore<T>(s: seq<T>, x: T, n: nat)
    ensures Keep(Keep(s, n) + [x], n) == Keep(s + [x], n)
  {
  }

  lemma OrderGoesOn(h: seq<Mark>, now: nat, m: Mark)
    requires InOrder(h, now) && now <= m.t
    ensures InOrder(h + [m], m.t)
  {
  }

  lemma OrderLater(h: seq<Mark>, now: nat, later: nat)
    requires InOrder(h, now) && now <= later
    ensures InOrder(h, later)
  {
  }

  /** Nothing a step adds changes what was established about the past. */
  lemma PastStays(s: System, e: Event)
    requires NotesOk(s) && Enabled(s, e)
    ensures var t := Next(s, e);
      && s.all <= t.all && s.recordedAt <= t.recordedAt && s.cleared <= t.cleared && s.step < t.step
      && |t.recordedAt| == |t.all|
      && (|t.all| > |s.all| ==> |t.all| == |s.all| + 1 && t.recordedAt[|s.all|] == s.step)
  {
    hide MarksIn, AddMark, WentBack, History, GoesOn, Known, Keep;
  }

  lemma HistoryStays(s: System, e: Event, f: string)
    requires Enabled(s, e)
    ensures History(s, f) <= History(Next(s, e), f)
  {
    hide MarksIn, AddMark, WentBack, GoesOn, Known, Keep;
  }

  lemma RewindStays(s: System, e: Event, f: string, r: Rewind)
    requires Enabled(s, e) && RewindOk(s, f, r)
    ensures RewindOk(Next(s, e), f, r)
  {
    hide Next, Enabled, Newest, SameHourFile, RewindMarker, History;
    HistoryStays(s, e, f);
    assert History(Next(s, e), f)[..r.seen] == History(s, f)[..r.seen];
  }

  lemma BegunStays(s: System, e: Event, gen: nat, begun: nat)
    requires NotesOk(s) && Enabled(s, e) && BegunAfter(s, gen, begun) && begun <= s.step
    ensures BegunAfter(Next(s, e), gen, begun)
  {
    hide Next;
    PastStays(s, e);
  }

  lemma SightStays(s: System, e: Event, d: Sight)
    requires NotesOk(s) && Enabled(s, e) && SightOk(s, d)
    ensures SightOk(Next(s, e), d)
  {
    hide Next, Enabled, NotesOk, BegunAfter;
    PastStays(s, e);
    BegunStays(s, e, d.gen, d.begun);
    var i :| d.after <= i < |s.all| && d.dropped <= i && s.all[i].at == d.at;
    assert Next(s, e).all[i].at == d.at;
  }

  /** What a drain that looks takes for the time of the restarts. */
  lemma LookIsEarliest(s: System, f: string)
    requires NotesOk(s) && Enabled(s, LookUp(f)) && s.drains[f].gen <= |s.all| && Handled(s.book, f) < s.drains[f].gen
    ensures AtIsEarliest(s, Next(s, LookUp(f)).drains[f].sight)
  {
    hide Known, Apart, Earliest, MarksIn, WentBack, GoesOn, Keep, Precedes;
    var h, ns := Handled(s.book, f), s.book.notes;
    var d := Next(s, LookUp(f)).drains[f].sight;
    assert d.at == Earliest(ns, h, 0) && d.after == h && d.dropped == Dropped(s);
    KeptNotes(s.all, ns);
    var i := EarliestOfAll(s.all, ns, h);
    assert s.all[i].at == d.at;
  }

  lemma KeptNotes(all: seq<Note>, ns: seq<Note>)
    requires ns == Keep(all, NOTES_KEPT)
    ensures |all| - |ns| == if |all| > NOTES_KEPT then |all| - NOTES_KEPT else 0
  {
  }

  /** The earliest of the kept notes after number h, among all of them. */
  lemma EarliestOfAll(all: seq<Note>, ns: seq<Note>, h: nat) returns (i: int)
    requires ns == Keep(all, NOTES_KEPT) && Dated(all) && h < |all| && forall i :: 0 <= i < |all| ==> all[i].gen == i + 1
    ensures h <= i < |all| && |all| - |ns| <= i && all[i].at == Earliest(ns, h, 0)
    ensures forall i :: h <= i < |all| && |all| - |ns| <= i ==> Precedes(Earliest(ns, h, 0), all[i])
  {
    hide Earliest;
    var k := |all| - |ns|;
    assert ns == all[k..];
    assert forall i :: k <= i < |all| ==> all[i] == ns[i - k];
    forall i | h <= i < |all| && k <= i ensures Precedes(Earliest(ns, h, 0), all[i]) {
      EarliestIsEarliest(ns, h, 0, i - k);
    }
    var j := EarliestIsSome(ns, h, 0);
    assert Precedes(Earliest(ns, h, 0), all[|all| - 1]);
    i := k + j;
  }

  lemma KeptAreLast(h: seq<Mark>, m: seq<Mark>)
    requires m == Keep(h, MARKS_KEPT)
    ensures |m| <= |h| && (m == [] <==> h == []) && |h| - |m| == OldestKept(|h|)
    ensures forall k :: 0 <= k < |m| ==> m[k] == h[|h| - |m| + k]
  {
    assert m == h[|h| - |m|..];
  }

  lemma NewestIs(m: seq<Mark>, t: int, i: int)
    requires -1 <= i < |m| && (i >= 0 ==> m[i].t <= t) && forall j :: i < j < |m| ==> m[j].t > t
    ensures Newest(m, t) == i
  {
    hide Newest;
    var k := Newest(m, t);
  }

  /** The newest of the kept marks, among all of them. */
  lemma NewestKept(h: seq<Mark>, m: seq<Mark>, t: int)
    requires m == Keep(h, MARKS_KEPT)
    ensures var d, i := |h| - |m|, Newest(h, t);
      d == OldestKept(|h|) && Newest(m, t) == if i < d then -1 else i - d
  {
    hide Newest, Keep, OldestKept;
    KeptAreLast(h, m);
    var d, i := |h| - |m|, Newest(h, t);
    var j := if i < d then -1 else i - d;
    forall k | j < k < |m| ensures m[k].t > t {
      assert m[k] == h[d + k];
    }
    if j >= 0 {
      assert m[j] == h[i];
    }
    NewestIs(m, t, j);
  }

  /** The mark that is picked from the kept ones, among all of them. */
  lemma PickedMark(h: seq<Mark>, m: seq<Mark>, t: int, prev: string)
    requires m == Keep(h, MARKS_KEPT)
    ensures var k, i, o := PickMark(m, t, prev), Newest(h, t), OldestKept(|h|);
      && |h| - |m| == o && (m == [] <==> h == [])
      && (i >= 0 ==> ((k >= 0 && o + k == i) <==> |h| - i <= MARKS_KEPT && SameHourFile(h[i].marker, prev)))
      && (k < 0 ==> h == [] || !SameHourFile(h[if i < o then o else i].marker, prev))
      && (k >= 0 ==> m[k] == h[o + k] && (o + k == i || (k == 0 && i < o)))
  {
    hide SameHourFile, Newest, Keep;
    NewestKept(h, m, t);
    KeptAreLast(h, m);
    var i, o := Newest(h, t), |h| - |m|;
    if m != [] {
      var k := MarkAt(m, t);
      assert k == if i < o then 0 else i - o;
      assert m[k] == h[o + k];
    }
  }

  /** A rewind starts where it should. */
  lemma WentBackOk(s: System, f: string, sight: Sight, size: int)
    requires MarksOk(s) && size <= INT64_MAX
    ensures RewindOk(s, f, WentBack(s, f, sight, size))
  {
    hide SameHourFile, RewindMarker, Newest, PickMark, Keep, InOrder, History, MarksIn, OldestKept;
    var h, m := History(s, f), MarksIn(s.book, f);
    assert h[..|h|] == h;
    PickedMark(h, m, sight.at - RESTART_MARGIN, Prev(s, f).marker);
  }

  lemma HandledStep(s: System, e: Event, f: string)
    requires NotesOk(s) && Enabled(s, e)
    requires !(e.Decide? && e.file == f) && !(e.Set? && e.file == f && s.drains[f].Rewound?)
    ensures Handled(Next(s, e).book, f) == Handled(s.book, f)
  {
    hide MarksIn, WentBack, History, GoesOn, Known, Keep;
  }

  lemma DrainsStep(s: System, e: Event)
    requires NotesOk(s) && MarksOk(s) && DrainsOk(s) && Enabled(s, e)
    ensures DrainsOk(Next(s, e))
  {
    hide NotesOk, MarksOk, RewindOk, SightOk, BegunAfter, AtIsEarliest, Next, Enabled;
    var t := Next(s, e);
    forall f | f in t.drains ensures DrainOk(t, f, t.drains[f]) {
      DrainStep(s, e, f);
    }
  }

  lemma DrainStep(s: System, e: Event, f: string)
    requires NotesOk(s) && MarksOk(s) && DrainsOk(s) && Enabled(s, e) && f in Next(s, e).drains
    ensures DrainOk(Next(s, e), f, Next(s, e).drains[f])
  {
    hide NotesOk, MarksOk, RewindOk, BegunAfter, AtIsEarliest, GoesOn, Known, Keep, Newest, SameHourFile, RewindMarker,
         PickMark, From;
    if e.Decide? && e.file == f {
      var sight := s.drains[f].sight;
      SightStays(s, e, sight);
      WentBackOk(s, f, sight, e.size);
      if !IdleBefore(sight.at, e.lastWritten) {
        RewindStays(s, e, f, WentBack(s, f, sight, e.size));
      }
    } else if e.LookUp? && e.file == f {
      var p := s.drains[f];
      BegunStays(s, e, p.gen, p.begun);
      if Handled(s.book, f) < p.gen {
        GenBounded(s, p.gen, p.begun);
        LookIsEarliest(s, f);
        SightStays(s, e, Next(s, e).drains[f].sight);
      }
    } else if e.Load? && e.file == f {
      LoadBegins(s);
      BegunStays(s, e, s.book.gen, s.step);
    } else if !(e.Set? && e.file == f && s.drains[f].Rewound?) && !(e.Open? && e.file == f) {
      assert Next(s, e).drains[f] == s.drains[f];
      HandledStep(s, e, f);
      match s.drains[f]
      case Loaded(gen, begun) => BegunStays(s, e, gen, begun);
      case Looked(sight) => SightStays(s, e, sight);
      case Rewound(r) =>
        SightStays(s, e, r.sight);
        RewindStays(s, e, f, r);
      case Plain =>
    }
  }

  lemma GenBounded(s: System, gen: nat, begun: nat)
    requires NotesOk(s) && BegunAfter(s, gen, begun)
    ensures gen <= |s.all|
  {
  }

  lemma LoadBegins(s: System)
    requires NotesOk(s)
    ensures BegunAfter(s, s.book.gen, s.step)
  {
  }

  lemma ClearancesStep(s: System, e: Event)
    requires Inv(s) && Enabled(s, e)
    ensures ClearancesOk(Next(s, e))
  {
    hide NotesOk, MarksOk, RewindOk, SightOk, WentBack, Known, Keep, GoesOn;
    var t := Next(s, e);
    PastStays(s, e);
    forall k | 0 <= k < |t.cleared| ensures SightOk(t, t.cleared[k].sight) && ReasonOk(t, t.cleared[k]) {
      var c := t.cleared[k];
      if k < |s.cleared| {
        assert c == s.cleared[k];
      } else {
        assert DrainOk(s, c.file, s.drains[c.file]);
      }
      SightStays(s, e, c.sight);
      if c.reason.ReadAgain? {
        RewindStays(s, e, c.file, c.reason.rewind);
      }
    }
    forall f: string, g: nat | 1 <= g <= Handled(t.book, f) ensures ClearedFor(t, f, g) {
      if g <= Handled(s.book, f) {
        assert ClearedFor(s, f, g);
        var k :| 0 <= k < |s.cleared| && ClearsFor(s.cleared[k], f, g);
        assert t.cleared[k] == s.cleared[k];
      } else {
        assert DrainOk(s, f, s.drains[f]);
        assert ClearsFor(t.cleared[|s.cleared|], f, g);
      }
    }
  }

  lemma {:induction false} RunInv(ss: seq<System>, es: seq<Event>, i: nat)
    requires Run(ss, es) && i < |ss|
    ensures Inv(ss[i])
  {
    hide NotesOk, MarksOk, DrainsOk, ClearancesOk, Next, Enabled;
    if i > 0 {
      RunInv(ss, es, i - 1);
      NotesStep(ss[i - 1], es[i - 1]);
      MarksStep(ss[i - 1], es[i - 1]);
      DrainsStep(ss[i - 1], es[i - 1]);
      ClearancesStep(ss[i - 1], es[i - 1]);
    } else {
      StartInv();
    }
  }

  lemma StartInv()
    ensures Inv(Start())
  {
  }

  // ------------------------------------------------------------------- over runs

  /** A drain of the file that settles restart g. It began after g was recorded. It
      found the file not written since the margin before g, or it made durable a
      checkpoint read on to from a marker it had gone back to - the checkpoint that
      was in place the margin before some restart no later than g, as RewindOk has
      it. Only if more than NOTES_KEPT restarts had been recorded from g on may g
      not have been among those it looked at. */
  ghost predicate Settles(s: System, c: Clearance, f: string, g: nat)
    requires 1 <= g <= |s.all| && |s.recordedAt| == |s.all|
  {
    && c.file == f
    && s.recordedAt[g - 1] < c.sight.begun
    && ReasonOk(s, c)
    && (c.sight.dropped < g ==> Precedes(c.sight.at, s.all[g - 1]))
    && (c.sight.dropped < g && c.reason.IdleSinceBefore? ==>
          0 < c.reason.lastWritten && c.reason.lastWritten + 60000000000 < s.all[g - 1].at)
  }

  /** In every run, at every point, every restart recorded so far is still pending
      for a file, or was settled by a drain begun after it was recorded: one
      recorded in the middle of a drain is never cleared by that drain. */
  lemma RestartNeverLost(ss: seq<System>, es: seq<Event>, n: nat, f: string, g: nat)
    requires Run(ss, es) && n < |ss| && 1 <= g <= ss[n].book.gen
    ensures var s := ss[n];
      && |s.all| == |s.recordedAt| == s.book.gen
      && (Handled(s.book, f) < g || exists k :: 0 <= k < |s.cleared| && Settles(s, s.cleared[k], f, g))
  {
    hide Run, MarksOk, DrainsOk, RewindOk, GoesOn;
    RunInv(ss, es, n);
    var s := ss[n];
    if Handled(s.book, f) >= g {
      assert ClearedFor(s, f, g);
      var k :| 0 <= k < |s.cleared| && ClearsFor(s.cleared[k], f, g);
      assert SightOk(s, s.cleared[k].sight) && ReasonOk(s, s.cleared[k]);
      assert s.recordedAt[g - 1] < s.cleared[k].sight.begun;
      assert Settles(s, s.cleared[k], f, g);
    }
  }

  /** The checkpoint a re-read went back to was in place no later than the one that
      was in place the margin before restart g; and if the file's checkpoints did not
      go back in between, the re-read started REWIND_BYTES before that one, or at
      the beginning of the file. */
  lemma ReadAgainFromBefore(s: System, c: Clearance, f: string, g: nat)
    requires 1 <= g <= |s.all| && |s.recordedAt| == |s.all| && Settles(s, c, f, g) && c.reason.ReadAgain?
    requires c.sight.dropped < g
    ensures var r := c.reason.rewind;
      && r.seen <= |History(s, f)| && r.mark < r.seen
      && var h := History(s, f)[..r.seen];
         var i, j := Newest(h, r.sight.at - RESTART_MARGIN), Newest(h, s.all[g - 1].at - RESTART_MARGIN);
         && i <= j
         && (i >= 0 && r.mark == i && NotBack(h[i].marker, h[j].marker) ==> StartsBefore(r.start, h[j].marker))
  {
    hide Newest;
    var r := c.reason.rewind;
    var h := History(s, f)[..r.seen];
    var i, j := Newest(h, r.sight.at - RESTART_MARGIN), Newest(h, s.all[g - 1].at - RESTART_MARGIN);
    if i >= 0 {
      assert h[i].t <= s.all[g - 1].at - RESTART_MARGIN;
    }
    RewindStaysInFile(r.from, r.size);
  }

  /** A drain that starts with a noted checkpoint goes back from a checkpoint the file
      had; from that very one when it was already in place the margin before the restarts. */
  lemma RewindFromCheckpoint(s: System, f: string, r: Rewind)
    requires RewindOk(s, f, r) && r.noted
    ensures r.seen <= |History(s, f)|
    ensures var h := History(s, f)[..r.seen];
      && (exists k :: 0 <= k < |h| && h[k].marker == r.from)
      && (Newest(h, r.sight.at - RESTART_MARGIN) == |h| - 1 ==> r.from == r.prev && r.mark == |h| - 1)
  {
    hide Newest, RewindMarker, OldestKept;
    var h := History(s, f)[..r.seen];
    assert h[if r.mark < 0 then |h| - 1 else r.mark].marker == r.from;
    SameFile(r.prev);
  }

  lemma SameFile(marker: string)
    ensures SameHourFile(marker, marker)
  {
  }

  /** Two offsets in one file, the second not before the first. */
  predicate NotBack(a: string, b: string)
  {
    var x, y := OffsetMarker(a), OffsetMarker(b);
    x.Some? && y.Some? && x.value.prefix == y.value.prefix && x.value.off <= y.value.off
  }

  predicate StartsBefore(start: string, marker: string)
  {
    var x, y := OffsetMarker(start), OffsetMarker(marker);
    start == MARKER_BEGINNING
    || (x.Some? && y.Some? && x.value.prefix == y.value.prefix && x.value.off <= y.value.off - REWIND_BYTES)
  }

  /** Restarts are told of in the order of their times. */
  predicate Rising(all: seq<Note>) { forall i, j :: 0 <= i < j < |all| ==> all[i].at < all[j].at }

  /** Which restarts a drain that looks accounts for: with restarts told of in order,
      the time it takes is no later than that of restart g exactly when g is still noted. */
  lemma CountedWhileNoted(ss: seq<System>, es: seq<Event>, n: nat, f: string, g: nat)
    requires Run(ss, es) && n < |ss| && Rising(ss[n].all)
    requires f in ss[n].drains && ss[n].drains[f].Looked?
    requires ss[n].drains[f].sight.after < g <= ss[n].drains[f].sight.gen
    ensures g <= |ss[n].all|
    ensures var d := ss[n].drains[f].sight; d.at <= ss[n].all[g - 1].at <==> d.dropped < g
  {
    hide Run, MarksOk, ClearancesOk, NotesOk, BegunAfter;
    RunInv(ss, es, n);
    var s := ss[n];
    assert DrainOk(s, f, s.drains[f]);
    var d := s.drains[f].sight;
    var i :| d.after <= i < |s.all| && d.dropped <= i && s.all[i].at == d.at;
    if d.dropped < g {
      assert Precedes(d.at, s.all[g - 1]);
    } else {
      assert g - 1 < i;
    }
  }

  /** So the idle test is right about restart g - whenever it says the file was not
      written since the margin before, it was not since the margin before g -
      exactly when g is still noted. */
  lemma IdleTestRightWhileNoted(ss: seq<System>, es: seq<Event>, n: nat, f: string, g: nat)
    requires Run(ss, es) && n < |ss| && Rising(ss[n].all)
    requires f in ss[n].drains && ss[n].drains[f].Looked?
    requires ss[n].drains[f].sight.after < g <= ss[n].drains[f].sight.gen
    ensures g <= |ss[n].all|
    ensures var d := ss[n].drains[f].sight;
      (forall w: nat :: IdleBefore(d.at, w) ==> IdleBefore(ss[n].all[g - 1].at, w)) <==> d.dropped < g
  {
    hide Run, MarksOk, ClearancesOk, BegunAfter;
    CountedWhileNoted(ss, es, n, f, g);
    RunInv(ss, es, n);
    var s := ss[n];
    assert DrainOk(s, f, s.drains[f]);
    var d := s.drains[f].sight;
    if d.dropped >= g {
      var i :| d.after <= i < |s.all| && d.dropped <= i && s.all[i].at == d.at;
      assert Apart(s.all[g - 1].at, s.all[g].at);
      assert s.all[g].at <= s.all[i].at;
      var w := d.at - RESTART_MARGIN - 1;
      assert IdleBefore(d.at, w) && !IdleBefore(s.all[g - 1].at, w);
    }
  }

  // ------------------------------- why only the newest restarts can be held to it

  /** A worker that was told of n restarts, one every window. */
  function Noticed(n: nat): System
  {
    if n == 0 then Start() else Next(Noticed(n - 1), Notice(n * RESTART_DEDUP_WINDOW))
  }

  lemma {:induction false} NoticedIs(n: nat)
    ensures var s := Noticed(n);
      && s.book.gen == |s.all| == n && s.book.handled == map[] && s.drains == map[] && s.cleared == []
      && s.book.notes == Keep(s.all, NOTES_KEPT)
      && forall i :: 0 <= i < n ==> s.all[i] == Note(i + 1, (i + 1) * RESTART_DEDUP_WINDOW)
  {
    hide Keep, Known;
    if n > 0 {
      NoticedIs(n - 1);
      var s := Noticed(n - 1);
      KeepMore(s.all, Note(n, n * RESTART_DEDUP_WINDOW), NOTES_KEPT);
      NotYetKnown(s.all, n);
    } else {
      KeepNone();
    }
  }

  lemma KeepNone()
    ensures Keep<Note>([], NOTES_KEPT) == []
  {
  }

  lemma NotYetKnown(all: seq<Note>, n: nat)
    requires forall i :: 0 <= i < |all| ==> all[i].at + RESTART_DEDUP_WINDOW <= n * RESTART_DEDUP_WINDOW
    ensures !Known(Keep(all, NOTES_KEPT), n * RESTART_DEDUP_WINDOW)
  {
  }

  lemma {:induction false} EarliestNotBefore(notes: seq<Note>, handled: nat, at: nat, low: nat)
    requires (at == 0 || low <= at) && forall i :: 0 <= i < |notes| ==> low <= notes[i].at
    ensures var e := Earliest(notes, handled, at); e == 0 || low <= e
    decreases |notes|
  {
    if notes != [] {
      var r := notes[0];
      EarliestNotBefore(notes[1..], handled, if r.gen > handled && (at == 0 || r.at < at) then r.at else at, low);
    }
  }

  /** Once NOTES_KEPT later restarts are recorded, the oldest is no longer noted,
      and a drain can clear it for a file that was written after it. */
  lemma DroppedRestartCanBeMissed(f: string) returns (ss: seq<System>, es: seq<Event>)
    ensures Run(ss, es)
    ensures var s := ss[|ss| - 1];
      && |s.all| == NOTES_KEPT + 1 && Handled(s.book, f) >= 1
      && |s.cleared| == 1 && s.cleared[0].file == f && s.cleared[0].reason.IdleSinceBefore?
      && s.cleared[0].reason.lastWritten > s.all[0].at
  {
    hide Noticed, Earliest, Keep, WentBack;
    var n, w := NOTES_KEPT + 1, RESTART_DEDUP_WINDOW + 1;
    NoticedIs(n);
    OldestDropped(n);
    ss, es := NoticedRun(n);
    ss, es := Extended(ss, es, Store(f, MARKER_BEGINNING)), es + [Store(f, MARKER_BEGINNING)];
    ss, es := Extended(ss, es, Load(f)), es + [Load(f)];
    ss, es := Extended(ss, es, LookUp(f)), es + [LookUp(f)];
    var decide := Decide(f, w, 0);
    ss, es := Extended(ss, es, decide), es + [decide];
  }

  function Extended(ss: seq<System>, es: seq<Event>, e: Event): (r: seq<System>)
    requires Run(ss, es) && Enabled(ss[|ss| - 1], e)
    ensures Run(r, es + [e]) && r[|r| - 1] == Next(ss[|ss| - 1], e)
  {
    ss + [Next(ss[|ss| - 1], e)]
  }

  lemma {:induction false} NoticedRun(n: nat) returns (ss: seq<System>, es: seq<Event>)
    ensures Run(ss, es) && ss[|ss| - 1] == Noticed(n)
  {
    hide Next;
    if n == 0 {
      ss, es := [Start()], [];
    } else {
      ss, es := NoticedRun(n - 1);
      var e := Notice(n * RESTART_DEDUP_WINDOW);
      ss, es := Extended(ss, es, e), es + [e];
    }
  }

  lemma OldestDropped(n: nat)
    requires n == NOTES_KEPT + 1
    ensures 2 * RESTART_DEDUP_WINDOW <= Earliest(Noticed(n).book.notes, 0, 0)
  {
    NoticedIs(n);
    hide Noticed, Earliest;
    var notes := Noticed(n).book.notes;
    assert forall i :: 0 <= i < |notes| ==> notes[i] == Noticed(n).all[i + 1];
    EarliestNotBefore(notes, 0, 0, 2 * RESTART_DEDUP_WINDOW);
    EarliestIsEarliest(notes, 0, 0, 0);
  }

  /** Restarts kept in mind are pairwise at least the window apart, with
      generations rising by one. */
  lemma NotesApart(ss: seq<System>, es: seq<Event>, n: nat, i: nat, j: nat)
    requires Run(ss, es) && n < |ss| && i < j < |ss[n].book.notes|
    ensures var ns := ss[n].book.notes;
      Apart(ns[i].at, ns[j].at) && ns[j].gen == ns[i].gen + (j - i) && ns[|ns| - 1].gen == ss[n].book.gen
  {
    RunInv(ss, es, n);
  }
}
