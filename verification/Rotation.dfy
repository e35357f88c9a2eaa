/** Planning reads across hourly rotation (planRotation in
    internal/pipeline/worker.go), for one base file and its rotated hours. */
module Rotation {
  import opened Markers
  import opened Wrappers

  datatype HourFile = HourFile(name: string, id: HourID, size: nat)

  datatype Write = Write(file: string, marker: string)

  type Store = map<string, string>

  function Apply(s: Store, ws: seq<Write>): Store
    decreases |ws|
  {
    if ws == [] then s else Apply(s[ws[0].file := ws[0].marker], ws[1..])
  }

  /** A listing: hours in order, every file under its own name. */
  ghost predicate Listing(base: string, rotated: seq<HourFile>)
  {
    && (forall i, j :: 0 <= i < j < |rotated| ==> Compare(rotated[i].id, rotated[j].id) < 0)
    && (forall i, j :: 0 <= i < j < |rotated| ==> rotated[i].name != rotated[j].name)
    && (forall i :: 0 <= i < |rotated| ==> rotated[i].name != base)
  }

  /** What the base file's checkpoint says about the rotated hours. */
  datatype BaseView = BaseView(found: bool, marker: string, hour: Option<HourMarker>, rotatedOut: bool, gap: bool)

  predicate HasHour(rotated: seq<HourFile>, id: HourID)
  {
    exists i :: 0 <= i < |rotated| && rotated[i].id == id
  }

  function View(base: string, rotated: seq<HourFile>, s: Store): BaseView
    requires rotated != []
  {
    var found := base in s;
    var marker := if found then s[base] else "";
    var hour := if found then ParseHourMarker(marker) else None;
    var rotatedOut := hour.Some? && HasHour(rotated, hour.value.id);
    var gap := hour.Some? && !rotatedOut && Compare(hour.value.id, rotated[|rotated| - 1].id) < 0;
    BaseView(found, marker, hour, rotatedOut, gap)
  }

  /** The checkpoint an untracked rotated hour is given, if any. */
  function Seed(v: BaseView, id: HourID, backfill: bool): Option<string>
  {
    if !v.found then (if backfill then Some(MARKER_BEGINNING) else None)
    else if v.hour.None? then None
    else if id == v.hour.value.id then Some(v.marker)
    else if Compare(id, v.hour.value.id) > 0 then
      if !v.rotatedOut && !v.gap then None else Some(MARKER_BEGINNING)
    else None
  }

  function Seeds(v: BaseView, rotated: seq<HourFile>, s: Store, backfill: bool): seq<Write>
  {
    if rotated == [] then []
    else
      var r := rotated[0];
      var rest := Seeds(v, rotated[1..], s, backfill);
      if r.name !in s && Seed(v, r.id, backfill).Some? then
        [Write(r.name, Seed(v, r.id, backfill).value)] + rest
      else rest
  }

  function Reset(base: string, v: BaseView): seq<Write>
  {
    if v.rotatedOut || v.gap then [Write(base, MARKER_BEGINNING)] else []
  }

  /** The checkpoint writes of one planning pass, in order. */
  function Plan(base: string, rotated: seq<HourFile>, s: Store, backfill: bool): seq<Write>
    requires rotated != []
  {
    var v := View(base, rotated, s);
    Seeds(v, rotated, s, backfill) + Reset(base, v)
  }

  /** The rotated files to drain this poll. */
  function Drainable(v: BaseView, rotated: seq<HourFile>, s: Store, backfill: bool): seq<HourFile>
  {
    if rotated == [] then []
    else
      (if Drains(v, rotated[0], s, backfill) then [rotated[0]] else []) + Drainable(v, rotated[1..], s, backfill)
  }

  /** A tracked hour until its (final) size is reached, an untracked one when it
      is seeded. */
  predicate Drains(v: BaseView, r: HourFile, s: Store, backfill: bool)
  {
    if r.name in s then
      var m := ParseHourMarker(s[r.name]); m.None? || m.value.off < r.size
    else Seed(v, r.id, backfill).Some?
  }

  /** Two stores agree about the hours from number i on. */
  ghost predicate SameFrom(rotated: seq<HourFile>, i: nat, s: Store, t: Store)
  {
    forall k :: i <= k < |rotated| ==>
      (rotated[k].name in s <==> rotated[k].name in t) &&
      (rotated[k].name in s ==> s[rotated[k].name] == t[rotated[k].name])
  }

  // ----------------------------------------------------------------- coverage

  /** The first byte a cursor on a rotated file's own name reads: RDS ignores the
      marker's hour there and honours its offset. */
  function CursorAt(marker: string): int
  {
    var m := ParseHourMarker(marker); if m.Some? then m.value.off else 0
  }

  /** Byte o of rotated hour r is still to be read: by the file's own checkpoint
      if it has one, else by where the base checkpoint stands. */
  predicate Unread(v: BaseView, s: Store, r: HourFile, o: nat)
    requires v.hour.Some?
  {
    if r.name in s then CursorAt(s[r.name]) <= o
    else Compare(r.id, v.hour.value.id) > 0 || (r.id == v.hour.value.id && v.hour.value.off <= o)
  }

  /** Where reading of the live file has to go on, `live` being its hour. */
  function LiveFrom(v: BaseView, live: HourID): int
    requires v.hour.Some?
  {
    if v.hour.value.id == live then v.hour.value.off else 0
  }

  lemma {:induction false} ApplyConcat(s: Store, a: seq<Write>, b: seq<Write>)
    ensures Apply(s, a + b) == Apply(Apply(s, a), b)
    decreases |a|
  {
    if a == [] {
      assert a + b == b;
    } else {
      assert (a + b)[1..] == a[1..] + b;
      ApplyConcat(s[a[0].file := a[0].marker], a[1..], b);
    }
  }

  lemma {:induction false} ApplyElsewhere(s: Store, ws: seq<Write>, n: string)
    requires forall k :: 0 <= k < |ws| ==> ws[k].file != n
    ensures n in Apply(s, ws) <==> n in s
    ensures n in s ==> Apply(s, ws)[n] == s[n]
    decreases |ws|
  {
    if ws != [] {
      ApplyElsewhere(s[ws[0].file := ws[0].marker], ws[1..], n);
    }
  }

  /** A tracked hour is never re-seeded, and nothing but the listed hours is. */
  lemma {:induction false} SeedsLeaveAlone(v: BaseView, rotated: seq<HourFile>, s: Store, backfill: bool, n: string)
    requires n in s || forall j :: 0 <= j < |rotated| ==> rotated[j].name != n
    ensures forall k :: 0 <= k < |Seeds(v, rotated, s, backfill)| ==> Seeds(v, rotated, s, backfill)[k].file != n
    decreases |rotated|
  {
    if rotated != [] {
      SeedsLeaveAlone(v, rotated[1..], s, backfill, n);
    }
  }

  predicate DistinctNames(rotated: seq<HourFile>)
  {
    forall i, j :: 0 <= i < j < |rotated| ==> rotated[i].name != rotated[j].name
  }

  /** The seeding writes, applied, give each listed hour its own or its seed. */
  lemma {:induction false} SeedsAreWritten(v: BaseView, rotated: seq<HourFile>, s: Store, backfill: bool, s0: Store, i: nat)
    requires i < |rotated| && DistinctNames(rotated)
    requires var n := rotated[i].name; (n in s <==> n in s0) && (n in s ==> s[n] == s0[n])
    ensures var r := rotated[i]; var t := Apply(s0, Seeds(v, rotated, s, backfill));
      var seed := Seed(v, r.id, backfill);
      && (r.name in t <==> r.name in s || seed.Some?)
      && (r.name in s ==> t[r.name] == s[r.name])
      && (r.name !in s && seed.Some? ==> t[r.name] == seed.value)
    decreases |rotated|
  {
    var r, tail := rotated[0], rotated[1..];
    var writes := r.name !in s && Seed(v, r.id, backfill).Some?;
    var s1 := if writes then s0[r.name := Seed(v, r.id, backfill).value] else s0;
    assert Apply(s0, Seeds(v, rotated, s, backfill)) == Apply(s1, Seeds(v, tail, s, backfill)) by {
      var ws := Seeds(v, rotated, s, backfill);
      if writes {
        assert ws[1..] == Seeds(v, tail, s, backfill);
      }
    }
    assert DistinctNames(tail);
    if i == 0 {
      SeedsLeaveAlone(v, tail, s, backfill, r.name);
      ApplyElsewhere(s1, Seeds(v, tail, s, backfill), r.name);
    } else {
      SeedsAreWritten(v, tail, s, backfill, s1, i - 1);
    }
  }

  /** After planning, the cursors on the rotated files read exactly what was
      unread, and the base file's cursor addresses none of them. */
  lemma PlanCoversRotated(base: string, rotated: seq<HourFile>, s: Store, backfill: bool, i: nat, o: nat)
    requires Listing(base, rotated) && i < |rotated| && o < rotated[i].size
    requires View(base, rotated, s).hour.Some?
    ensures var t := Apply(s, Plan(base, rotated, s, backfill));
      var r := rotated[i];
      && (r.name in t && CursorAt(t[r.name]) <= o <==> Unread(View(base, rotated, s), s, r, o))
      && base in t
      && (ParseHourMarker(t[base]).Some? ==> !HasHour(rotated, ParseHourMarker(t[base]).value.id))
  {
    hide Compare;
    var v := View(base, rotated, s);
    var r := rotated[i];
    var seeds := Seeds(v, rotated, s, backfill);
    ApplyConcat(s, seeds, Reset(base, v));
    SeedsAreWritten(v, rotated, s, backfill, s, i);
    SeedsLeaveAlone(v, rotated, s, backfill, base);
    ApplyElsewhere(s, seeds, base);
    ApplyElsewhere(Apply(s, seeds), Reset(base, v), r.name);
    BeginningIsNoHour();
    NewestHour(rotated, i);
    CompareTotalOrder(r.id, v.hour.value.id, rotated[|rotated| - 1].id);
    CompareTotalOrder(v.hour.value.id, r.id, rotated[|rotated| - 1].id);
    CompareTotalOrder(r.id, rotated[|rotated| - 1].id, v.hour.value.id);
    if r.name !in s && r.id == v.hour.value.id {
      assert v.rotatedOut;
    }
  }

  lemma NewestHour(rotated: seq<HourFile>, i: nat)
    requires forall i, j :: 0 <= i < j < |rotated| ==> Compare(rotated[i].id, rotated[j].id) < 0
    requires i < |rotated|
    ensures i == |rotated| - 1 || Compare(rotated[i].id, rotated[|rotated| - 1].id) < 0
  {
  }

  /** The live file goes on where it should exactly when the hour the base
      checkpoint names is the live one, or some rotated hour is as new as it, or
      nothing of it had been read; and then a gap is reported exactly when that
      hour's file is gone. */
  lemma PlanCoversLive(base: string, rotated: seq<HourFile>, s: Store, backfill: bool, live: HourID)
    requires Listing(base, rotated) && rotated != [] && Compare(rotated[|rotated| - 1].id, live) < 0
    requires View(base, rotated, s).hour.Some?
    ensures var t := Apply(s, Plan(base, rotated, s, backfill));
      var v := View(base, rotated, s);
      var bid := v.hour.value.id;
      var known := bid == live || Compare(bid, rotated[|rotated| - 1].id) <= 0;
      && base in t
      && (CursorAt(t[base]) == LiveFrom(v, live) <==> known || v.hour.value.off == 0)
      && (known ==> (v.gap <==> bid != live && !HasHour(rotated, bid)))
  {
    hide Compare;
    var v := View(base, rotated, s);
    var bid, newest := v.hour.value.id, rotated[|rotated| - 1].id;
    var seeds := Seeds(v, rotated, s, backfill);
    ApplyConcat(s, seeds, Reset(base, v));
    SeedsLeaveAlone(v, rotated, s, backfill, base);
    ApplyElsewhere(s, seeds, base);
    BeginningIsNoHour();
    CompareTotalOrder(bid, newest, live);
    CompareTotalOrder(newest, live, bid);
    CompareTotalOrder(bid, live, newest);
    if v.rotatedOut {
      var i :| 0 <= i < |rotated| && rotated[i].id == bid;
      NewestHour(rotated, i);
    } else {
      assert rotated[|rotated| - 1].id != bid;
    }
  }

  /** The hours a file was written in so far, oldest first, the last one live. */
  ghost predicate HoursSoFar(hours: seq<HourID>)
  {
    hours != [] && forall i, j :: 0 <= i < j < |hours| ==> Compare(hours[i], hours[j]) < 0
  }

  /** The rotated hours still there when the first k were purged. */
  predicate Retained(rotated: seq<HourFile>, hours: seq<HourID>, k: nat)
  {
    && |rotated| + k + 1 == |hours|
    && forall i :: 0 <= i < |rotated| ==> rotated[i].id == hours[k + i]
  }

  /** With a listing of every hour not purged, oldest first, and a base checkpoint
      in any hour there was, the live file goes on where it should, and a gap is
      reported exactly when the checkpoint's hour was purged. */
  lemma PlanGoesOnLive(base: string, rotated: seq<HourFile>, s: Store, backfill: bool,
                       hours: seq<HourID>, k: nat, n: nat)
    requires Listing(base, rotated) && rotated != []
    requires HoursSoFar(hours) && Retained(rotated, hours, k)
    requires View(base, rotated, s).hour.Some? && n < |hours| && View(base, rotated, s).hour.value.id == hours[n]
    ensures var t := Apply(s, Plan(base, rotated, s, backfill));
      var v := View(base, rotated, s);
      && base in t
      && CursorAt(t[base]) == LiveFrom(v, hours[|hours| - 1])
      && (v.gap <==> n < k)
  {
    hide Compare, Plan, View, LiveFrom, CursorAt;
    var newest, live, bid := rotated[|rotated| - 1].id, hours[|hours| - 1], hours[n];
    assert newest == hours[|hours| - 2];
    PlanCoversLive(base, rotated, s, backfill, live);
    HourPlaces(hours, n, |hours| - 2);
    HourPlaces(hours, n, |hours| - 1);
    if k <= n < |hours| - 1 {
      assert rotated[n - k].id == bid;
    }
    forall i | 0 <= i < |rotated| ensures rotated[i].id == bid <==> k + i == n {
      HourPlaces(hours, n, k + i);
    }
  }

  /** Hours are told apart by their place, and ordered by it. */
  lemma HourPlaces(hours: seq<HourID>, i: nat, j: nat)
    requires HoursSoFar(hours) && i < |hours| && j < |hours|
    ensures hours[i] == hours[j] <==> i == j
    ensures Compare(hours[i], hours[j]) <= 0 <==> i <= j
  {
    hide Compare;
    CompareTotalOrder(hours[i], hours[j], hours[j]);
    CompareTotalOrder(hours[j], hours[i], hours[i]);
  }

  lemma ListingDistinct(base: string, rotated: seq<HourFile>)
    requires Listing(base, rotated)
    ensures DistinctNames(rotated)
  {
  }

  // -------------------------------------------------------------- restartability

  lemma {:induction false} SameSeeds(v: BaseView, rotated: seq<HourFile>, s: Store, s': Store, backfill: bool)
    requires forall i :: 0 <= i < |rotated| ==> (rotated[i].name in s <==> rotated[i].name in s')
    ensures Seeds(v, rotated, s, backfill) == Seeds(v, rotated, s', backfill)
    decreases |rotated|
  {
    if rotated != [] {
      SameSeeds(v, rotated[1..], s, s', backfill);
    }
  }

  /** Seeding that stopped after j writes has exactly the others left to do. */
  lemma {:induction false} SeedsResume(v: BaseView, rotated: seq<HourFile>, s: Store, backfill: bool, j: nat)
    requires DistinctNames(rotated) && j <= |Seeds(v, rotated, s, backfill)|
    ensures var ws := Seeds(v, rotated, s, backfill);
      Seeds(v, rotated, Apply(s, ws[..j]), backfill) == ws[j..]
    decreases |rotated|
  {
    hide Seed, Seeds, Apply, DistinctNames;
    SeedsCons(v, rotated, s, backfill);
    var ws := Seeds(v, rotated, s, backfill);
    SeedsCons(v, rotated, Apply(s, ws[..j]), backfill);
    ApplyCons(s, ws[..j]);
    if rotated != [] && j > 0 {
      var r, tail := rotated[0], rotated[1..];
      var rest := Seeds(v, tail, s, backfill);
      DistinctTail(rotated);
      SeedsLeaveAlone(v, tail, s, backfill, r.name);
      if r.name !in s && Seed(v, r.id, backfill).Some? {
        var s' := s[r.name := Seed(v, r.id, backfill).value];
        SeededSame(v, tail, s, r.name, Seed(v, r.id, backfill).value, backfill);
        SeedsResume(v, tail, s', backfill, j - 1);
        BehindFirst(ws, rest, j);
        ApplyElsewhere(s', rest[..j - 1], r.name);
      } else {
        assert ws == rest;
        SeedsResume(v, tail, s, backfill, j);
        ApplyElsewhere(s, rest[..j], r.name);
      }
    }
  }

  lemma BehindFirst(ws: seq<Write>, rest: seq<Write>, j: nat)
    requires ws != [] && ws[1..] == rest && 0 < j <= |ws|
    ensures ws[..j] != [] && ws[..j][0] == ws[0] && ws[..j][1..] == rest[..j - 1] && ws[j..] == rest[j - 1..]
  {
    assert ws == [ws[0]] + rest;
  }

  lemma DistinctTail(rotated: seq<HourFile>)
    requires DistinctNames(rotated) && rotated != []
    ensures DistinctNames(rotated[1..])
    ensures forall i :: 0 <= i < |rotated[1..]| ==> rotated[1..][i].name != rotated[0].name
  {
  }

  lemma SeededSame(v: BaseView, rotated: seq<HourFile>, s: Store, n: string, m: string, backfill: bool)
    requires forall i :: 0 <= i < |rotated| ==> rotated[i].name != n
    ensures Seeds(v, rotated, s, backfill) == Seeds(v, rotated, s[n := m], backfill)
  {
    SameSeeds(v, rotated, s, s[n := m], backfill);
  }

  lemma SeedsCons(v: BaseView, rotated: seq<HourFile>, s: Store, backfill: bool)
    ensures rotated == [] ==> Seeds(v, rotated, s, backfill) == []
    ensures rotated != [] ==>
      var r := rotated[0]; var seed := Seed(v, r.id, backfill);
      Seeds(v, rotated, s, backfill)
        == (if r.name !in s && seed.Some? then [Write(r.name, seed.value)] else []) + Seeds(v, rotated[1..], s, backfill)
  {
    hide Seed;
  }

  lemma ApplyCons(s: Store, ws: seq<Write>)
    ensures Apply(s, ws) == if ws == [] then s else Apply(s[ws[0].file := ws[0].marker], ws[1..])
  {
  }

  lemma {:induction false} NoSeeds(v: BaseView, rotated: seq<HourFile>, s: Store, backfill: bool)
    requires v.found && v.hour.None?
    ensures Seeds(v, rotated, s, backfill) == []
    decreases |rotated|
  {
    if rotated != [] {
      NoSeeds(v, rotated[1..], s, backfill);
    }
  }

  /** A pass cut off after any of its writes, then run again on the same listing,
      ends where an uninterrupted pass does. */
  lemma PlanRestarts(base: string, rotated: seq<HourFile>, s: Store, backfill: bool, j: nat)
    requires Listing(base, rotated) && rotated != [] && j <= |Plan(base, rotated, s, backfill)|
    ensures var ws := Plan(base, rotated, s, backfill);
      var s1 := Apply(s, ws[..j]);
      Apply(s1, Plan(base, rotated, s1, backfill)) == Apply(s, ws)
  {
    hide Seeds, View, Compare;
    if j <= |Seeds(View(base, rotated, s), rotated, s, backfill)| {
      RestartSeeding(base, rotated, s, backfill, j);
    } else {
      RestartDone(base, rotated, s, backfill, j);
    }
  }

  lemma RestartSeeding(base: string, rotated: seq<HourFile>, s: Store, backfill: bool, j: nat)
    requires Listing(base, rotated) && rotated != []
    requires j <= |Seeds(View(base, rotated, s), rotated, s, backfill)|
    ensures var ws := Plan(base, rotated, s, backfill);
      var s1 := Apply(s, ws[..j]);
      Apply(s1, Plan(base, rotated, s1, backfill)) == Apply(s, ws)
  {
    hide Seeds, Apply, Reset, Compare;
    var v := View(base, rotated, s);
    var seeds, reset := Seeds(v, rotated, s, backfill), Reset(base, v);
    var ws := seeds + reset;
    assert ws[..j] == seeds[..j];
    var s1 := Apply(s, seeds[..j]);
    SeedsLeaveAlone(v, rotated, s, backfill, base);
    ApplyElsewhere(s, seeds[..j], base);
    assert View(base, rotated, s1) == v;
    SeedsResume(v, rotated, s, backfill, j);
    assert ws == seeds[..j] + (seeds[j..] + reset);
    ApplyConcat(s, seeds[..j], seeds[j..] + reset);
  }

  lemma RestartDone(base: string, rotated: seq<HourFile>, s: Store, backfill: bool, j: nat)
    requires Listing(base, rotated) && rotated != []
    requires |Seeds(View(base, rotated, s), rotated, s, backfill)| < j <= |Plan(base, rotated, s, backfill)|
    ensures var ws := Plan(base, rotated, s, backfill);
      var s1 := Apply(s, ws[..j]);
      Apply(s1, Plan(base, rotated, s1, backfill)) == Apply(s, ws)
  {
    hide Seeds, Compare, ParseHourMarker;
    var v := View(base, rotated, s);
    var seeds, reset := Seeds(v, rotated, s, backfill), Reset(base, v);
    assert (seeds + reset)[..j] == seeds + reset;
    ApplyConcat(s, seeds, reset);
    var s1 := Apply(s, seeds + reset);
    BeginningIsNoHour();
    NoSeeds(View(base, rotated, s1), rotated, s1, backfill);
  }

  lemma ApplyOne(s: Store, ws: seq<Write>, k: nat)
    requires k < |ws|
    ensures Apply(s, ws[..k + 1]) == Apply(s, ws[..k])[ws[k].file := ws[k].marker]
  {
    assert ws[..k + 1] == ws[..k] + [ws[k]];
    ApplyConcat(s, ws[..k], [ws[k]]);
  }

  // ------------------------------------------------------------ what is drained

  lemma {:induction false} DrainableIs(v: BaseView, rotated: seq<HourFile>, s: Store, backfill: bool)
    ensures var d := Drainable(v, rotated, s, backfill);
      forall r :: r in d <==> r in rotated && Drains(v, r, s, backfill)
    decreases |rotated|
  {
    hide Drains;
    if rotated != [] {
      DrainableIs(v, rotated[1..], s, backfill);
      assert rotated == [rotated[0]] + rotated[1..];
    }
  }

  ghost predicate InOrder(d: seq<HourFile>) { forall i, j :: 0 <= i < j < |d| ==> Compare(d[i].id, d[j].id) < 0 }

  lemma {:induction false} DrainableInOrder(v: BaseView, rotated: seq<HourFile>, s: Store, backfill: bool)
    requires InOrder(rotated)
    ensures InOrder(Drainable(v, rotated, s, backfill))
    decreases |rotated|
  {
    hide Drains, Compare;
    if rotated != [] {
      var r, d := rotated[0], Drainable(v, rotated[1..], s, backfill);
      DrainableInOrder(v, rotated[1..], s, backfill);
      DrainableIs(v, rotated[1..], s, backfill);
      forall i | 0 <= i < |d| ensures Compare(r.id, d[i].id) < 0 {
        assert d[i] in d;
        var k :| 0 <= k < |rotated[1..]| && rotated[1..][k] == d[i];
        assert rotated[k + 1] == d[i];
      }
    }
  }

  /** The files a finished pass drains, `s` and `t` being the store before and
      after it: in the order of their hours, without repeats, an hour that had a checkpoint
      exactly when that is no hour marker or its offset is short of the file's size,
      and one that had none exactly when it has been given one. So none with a byte
      its cursor has yet to read is left out, and none is drained for ever. */
  ghost predicate DrainsWhatIsLeft(rotated: seq<HourFile>, s: Store, t: Store, drain: seq<HourFile>)
  {
    && InOrder(drain) && (forall r :: r in drain ==> r in rotated)
    && (forall r :: r in rotated ==> DrainsFile(r, s, t, r in drain))
  }

  predicate DrainsFile(r: HourFile, s: Store, t: Store, drained: bool)
  {
    && (r.name in t && CursorAt(t[r.name]) < r.size && 0 < r.size ==> drained)
    && (r.name !in s ==> (drained <==> r.name in t))
    && (r.name in s ==>
          var m := ParseHourMarker(s[r.name]); drained <==> m.None? || m.value.off < r.size)
  }

  lemma PassDrains(base: string, rotated: seq<HourFile>, s: Store, backfill: bool)
    requires Listing(base, rotated) && rotated != []
    ensures DrainsWhatIsLeft(rotated, s, Apply(s, Plan(base, rotated, s, backfill)),
                             Drainable(View(base, rotated, s), rotated, s, backfill))
  {
    hide Seed, Compare, ParseHourMarker, View, Apply, Seeds, DrainsFile, Drains;
    var v := View(base, rotated, s);
    var t, d := Apply(s, Plan(base, rotated, s, backfill)), Drainable(v, rotated, s, backfill);
    DrainableIs(v, rotated, s, backfill);
    DrainableInOrder(v, rotated, s, backfill);
    forall r | r in rotated ensures DrainsFile(r, s, t, r in d) {
      PassDrainsFile(base, rotated, s, backfill, r);
    }
  }

  lemma PassDrainsFile(base: string, rotated: seq<HourFile>, s: Store, backfill: bool, r: HourFile)
    requires Listing(base, rotated) && r in rotated
    ensures DrainsFile(r, s, Apply(s, Plan(base, rotated, s, backfill)),
                       Drains(View(base, rotated, s), r, s, backfill))
  {
    hide Seed, Compare, ParseHourMarker, View, Apply, Seeds;
    var v := View(base, rotated, s);
    ListingDistinct(base, rotated);
    var i :| 0 <= i < |rotated| && rotated[i] == r;
    ApplyConcat(s, Seeds(v, rotated, s, backfill), Reset(base, v));
    SeedsAreWritten(v, rotated, s, backfill, s, i);
    ApplyElsewhere(Apply(s, Seeds(v, rotated, s, backfill)), Reset(base, v), r.name);
  }

  /** Without an hour to go by, the base file's checkpoint is left alone; hours are
      seeded, from their beginning, only when there is no such checkpoint and the
      file is to be read from its beginning. */
  lemma PlanWithoutHour(base: string, rotated: seq<HourFile>, s: Store, backfill: bool, i: nat)
    requires Listing(base, rotated) && i < |rotated|
    requires base in s ==> ParseHourMarker(s[base]).None?
    ensures var t := Apply(s, Plan(base, rotated, s, backfill));
      var n := rotated[i].name;
      && (n in t <==> n in s || (base !in s && backfill))
      && (n in t ==> if n in s then t[n] == s[n] else CursorAt(t[n]) == 0)
      && (base in t <==> base in s) && (base in s ==> t[base] == s[base])
  {
    hide Compare, ParseHourMarker;
    var v := View(base, rotated, s);
    var seeds := Seeds(v, rotated, s, backfill);
    ListingDistinct(base, rotated);
    ApplyConcat(s, seeds, Reset(base, v));
    SeedsAreWritten(v, rotated, s, backfill, s, i);
    SeedsLeaveAlone(v, rotated, s, backfill, base);
    ApplyElsewhere(s, seeds, base);
    BeginningIsNoHour();
  }

  /** A pass after its first i hours: `written` of its writes done. */
  ghost predicate Halfway(base: string, v: BaseView, rotated: seq<HourFile>, s: Store, backfill: bool,
                          i: nat, written: nat, store: Store, drain: seq<HourFile>)
  {
    var ws := Seeds(v, rotated, s, backfill) + Reset(base, v);
    && i <= |rotated| && written <= |ws|
    && store == Apply(s, ws[..written])
    && ws[written..] == Seeds(v, rotated[i..], s, backfill) + Reset(base, v)
    && SameFrom(rotated, i, s, store)
    && drain + Drainable(v, rotated[i..], s, backfill) == Drainable(v, rotated, s, backfill)
  }

  lemma HalfwayStart(base: string, v: BaseView, rotated: seq<HourFile>, s: Store, backfill: bool)
    ensures Halfway(base, v, rotated, s, backfill, 0, 0, s, [])
  {
    assert rotated[0..] == rotated;
  }

  lemma HalfwayStep(base: string, v: BaseView, rotated: seq<HourFile>, s: Store, backfill: bool,
                    i: nat, written: nat, store: Store, drain: seq<HourFile>)
    requires Halfway(base, v, rotated, s, backfill, i, written, store, drain)
    requires i < |rotated| && DistinctNames(rotated)
    ensures var r := rotated[i];
      var drain' := if Drains(v, r, store, backfill) then drain + [r] else drain;
      if r.name !in store && Seed(v, r.id, backfill).Some? then
        var store' := store[r.name := Seed(v, r.id, backfill).value];
        var ws := Seeds(v, rotated, s, backfill) + Reset(base, v);
        && Halfway(base, v, rotated, s, backfill, i + 1, written + 1, store', drain')
        && written < |ws| && store' == Apply(s, ws[..written + 1])
      else Halfway(base, v, rotated, s, backfill, i + 1, written, store, drain')
  {
    hide Seed, Reset, Apply, Seeds, Drainable, Drains;
    var r := rotated[i];
    var ws := Seeds(v, rotated, s, backfill) + Reset(base, v);
    SeedsHead(v, rotated, s, backfill, i);
    DrainableHead(v, rotated, s, store, backfill, i);
    if r.name !in store && Seed(v, r.id, backfill).Some? {
      var w := Write(r.name, Seed(v, r.id, backfill).value);
      var rest := Seeds(v, rotated[i + 1..], s, backfill) + Reset(base, v);
      assert ws[written..] == [w] + rest;
      TailOf(ws, written, w, rest);
      ApplyOne(s, ws, written);
    } else {
      assert [] + Seeds(v, rotated[i + 1..], s, backfill) == Seeds(v, rotated[i + 1..], s, backfill);
    }
    var rest := Drainable(v, rotated[i + 1..], s, backfill);
    assert (drain + [r]) + rest == drain + ([r] + rest);
    assert drain + ([] + rest) == drain + rest;
  }

  lemma TailOf(ws: seq<Write>, k: nat, w: Write, rest: seq<Write>)
    requires k <= |ws| && ws[k..] == [w] + rest
    ensures k < |ws| && ws[k] == w && ws[k + 1..] == rest
  {
    assert ws[k] == ws[k..][0] && ws[k + 1..] == ws[k..][1..];
  }

  lemma SeedsHead(v: BaseView, rotated: seq<HourFile>, s: Store, backfill: bool, i: nat)
    requires i < |rotated|
    ensures var r := rotated[i]; var seed := Seed(v, r.id, backfill);
      Seeds(v, rotated[i..], s, backfill)
        == (if r.name !in s && seed.Some? then [Write(r.name, seed.value)] else []) + Seeds(v, rotated[i + 1..], s, backfill)
  {
  }

  lemma DrainableHead(v: BaseView, rotated: seq<HourFile>, s: Store, store: Store, backfill: bool, i: nat)
    requires i < |rotated| && SameFrom(rotated, i, s, store)
    ensures Drainable(v, rotated[i..], s, backfill)
      == (if Drains(v, rotated[i], store, backfill) then [rotated[i]] else []) + Drainable(v, rotated[i + 1..], s, backfill)
  {
  }

  lemma HalfwayEnd(base: string, v: BaseView, rotated: seq<HourFile>, s: Store, backfill: bool,
                   written: nat, store: Store, drain: seq<HourFile>)
    requires Halfway(base, v, rotated, s, backfill, |rotated|, written, store, drain)
    ensures var ws := Seeds(v, rotated, s, backfill) + Reset(base, v);
      && drain == Drainable(v, rotated, s, backfill)
      && if v.rotatedOut || v.gap then
           written + 1 == |ws| && store[base := MARKER_BEGINNING] == Apply(s, ws)
         else written == |ws|
  {
    hide Seed, Apply;
    assert rotated[|rotated|..] == [];
    var ws := Seeds(v, rotated, s, backfill) + Reset(base, v);
    if v.rotatedOut || v.gap {
      assert ws[written..][0] == Write(base, MARKER_BEGINNING);
      ApplyOne(s, ws, written);
      assert ws[..written + 1] == ws;
    }
  }

  lemma HalfwayStore(base: string, v: BaseView, rotated: seq<HourFile>, s: Store, backfill: bool,
                     i: nat, written: nat, store: Store, drain: seq<HourFile>)
    requires Halfway(base, v, rotated, s, backfill, i, written, store, drain)
    ensures var ws := Seeds(v, rotated, s, backfill) + Reset(base, v);
      written <= |ws| && store == Apply(s, ws[..written])
  {
  }

  // ---------------------------------------------------------------- the planner

  class Planner {
    var store: map<string, string>
    var gaps: nat
    ghost var faults: nat

    constructor (store: map<string, string>)
      ensures this.store == store && gaps == 0 && faults == 0
    {
      this.store, gaps, faults := store, 0, 0;
    }

    /** store.Set. After an error the checkpoint may or may not be in place. */
    method Set(file: string, marker: string) returns (ok: bool)
      modifies `store, `faults
      ensures faults == old(faults) + if ok then 0 else 1
      ensures store == old(store)[file := marker] || (!ok && store == old(store))
    {
      ok := *;
      faults := faults + if ok then 0 else 1;
      var persisted: bool := *;
      if ok || persisted {
        store := store[file := marker];
      }
    }

    /** One rotated hour: whether to drain it, seeding its checkpoint if it has none. */
    method PlanHour(v: BaseView, r: HourFile, backfill: bool) returns (ok: bool, drain: bool, ghost wrote: bool)
      modifies `store, `faults
      ensures faults == old(faults) + if ok then 0 else 1
      ensures store == if wrote then old(store)[r.name := Seed(v, r.id, backfill).GetOr("")] else old(store)
      ensures ok ==> wrote == (r.name !in old(store) && Seed(v, r.id, backfill).Some?)
      ensures wrote ==> r.name !in old(store) && Seed(v, r.id, backfill).Some?
      ensures !ok ==> r.name !in old(store) && Seed(v, r.id, backfill).Some?
      ensures ok ==> drain == Drains(v, r, old(store), backfill)
    {
      hide Seed;
      ok, drain, wrote := true, false, false;
      if r.name in store {
        var m := ParseHourMarker(store[r.name]);
        drain := m.None? || m.value.off < r.size;
        return;
      }
      var seed := Seed(v, r.id, backfill);
      if seed.None? {
        return;
      }
      ghost var before := store;
      ok := Set(r.name, seed.value);
      wrote := ok || store != before;
      drain := ok;
    }

    /** planRotation for one base file. A failed write ends the pass with some
        prefix of its writes done. */
    method PlanBase(base: string, rotated: seq<HourFile>, backfill: bool)
      returns (ok: bool, drain: seq<HourFile>, ghost written: nat)
      requires Listing(base, rotated) && rotated != []
      modifies this
      ensures ok <==> faults == old(faults)
      ensures faults >= old(faults)
      ensures written <= |Plan(base, rotated, old(store), backfill)|
      ensures store == Apply(old(store), Plan(base, rotated, old(store), backfill)[..written])
      ensures ok ==> written == |Plan(base, rotated, old(store), backfill)|
      ensures ok ==> drain == Drainable(View(base, rotated, old(store)), rotated, old(store), backfill)
      ensures ok ==> DrainsWhatIsLeft(rotated, old(store), store, drain)
      ensures gaps == old(gaps) + if View(base, rotated, old(store)).gap then 1 else 0
    {
      hide Halfway, Seed, View, Drains, Drainable, Seeds, Apply, Reset, Listing, DistinctNames, DrainsWhatIsLeft;
      ghost var s := store;
      var v := View(base, rotated, store);
      ghost var ws := Plan(base, rotated, s, backfill);
      if v.gap {
        gaps := gaps + 1;
      }
      ok, drain, written := true, [], 0;
      var i := 0;
      HalfwayStart(base, v, rotated, s, backfill);
      ListingDistinct(base, rotated);
      while i < |rotated|
        invariant 0 <= i <= |rotated|
        invariant ok && faults == old(faults) && gaps == old(gaps) + if v.gap then 1 else 0
        invariant Halfway(base, v, rotated, s, backfill, i, written, store, drain)
      {
        HalfwayStore(base, v, rotated, s, backfill, i, written, store, drain);
        HalfwayStep(base, v, rotated, s, backfill, i, written, store, drain);
        var drains;
        ghost var wrote;
        ok, drains, wrote := PlanHour(v, rotated[i], backfill);
        if wrote {
          written := written + 1;
        }
        if !ok {
          return;
        }
        if drains {
          drain := drain + [rotated[i]];
        }
        i := i + 1;
      }
      HalfwayStore(base, v, rotated, s, backfill, i, written, store, drain);
      HalfwayEnd(base, v, rotated, s, backfill, written, store, drain);
      PassDrains(base, rotated, s, backfill);
      assert ws[..|ws|] == ws;
      if v.rotatedOut || v.gap {
        ghost var before := store;
        ok := Set(base, MARKER_BEGINNING);
        if ok || store != before {
          written := written + 1;
        }
      }
    }
  }
}
