/** Reading a large backlog in waves of byte ranges (parallelDrain in
    internal/pipeline/worker.go), against parsing the same text in one go. */
module ParallelDrain {
  import opened Text
  import opened Records
  import opened RangeRead
  import opened Wrappers

  const PARALLEL_SEGMENT: nat := 2097152

  /** What one sequential parse of a text ships. */
  function RecordsOf(p: Parser, text: string): seq<string> { Parse(p, Lines(text)).recs }

  lemma RecordsAreGroups(p: Parser, text: string)
    ensures RecordsOf(p, text) == Messages(Groups(p, [], Lines(text)))
  {
    ParseGroups(p, Lines(text));
  }

  // --------------------------------------------------------------- the hold-back

  /** The held-back record as it stands at the end of the text. */
  function Tail(recs: seq<string>): string
    requires recs != []
  {
    Last(recs) + [NL]
  }

  lemma {:induction false} PrependToFirst(x: string, ls: seq<string>)
    requires ls != []
    ensures x + Join(ls) == Join([x + ls[0]] + ls[1..])
  {
  }

  lemma LinesTerminated(t: string)
    ensures Lines(t + [NL]) == Lines(t)
  {
    SplitConcat(t, "");
    assert t + [NL] + "" == t + [NL];
    DropBlankConcat(Split(t), [""]);
  }

  /** Lines that end a text, with something of their own line before them. */
  lemma LinesOfCutText(x: string, ls: seq<string>)
    requires ls != [] && NL !in x && forall l :: l in ls ==> IsLine(l)
    ensures Lines(x + (Join(ls) + [NL])) == [x + ls[0]] + ls[1..]
  {
    hide Lines, Join;
    var ms := [x + ls[0]] + ls[1..];
    PrependToFirst(x, ls);
    forall m | m in ms ensures IsLine(m) {
      if m == x + ls[0] {
        assert IsLine(ls[0]);
      }
    }
    LinesJoin(ms);
    assert x + (Join(ls) + [NL]) == Join(ms) + [NL];
    LinesTerminated(Join(ms));
  }

  lemma SameTail(lines: seq<string>, r: nat, a: seq<string>, x: string)
    requires r < |lines|
    requires lines == a + ([x + lines[r]] + lines[r + 1..])
    ensures x == "" && a == lines[..r]
  {
    assert |lines| == |a| + 1 + (|lines| - r - 1);
    assert lines[|a|] == x + lines[r];
    assert |x + lines[r]| == |x| + |lines[r]|;
  }

  /** If a text ends with its last record, that record begins at a line start,
      and the text before it has exactly the lines of the other records. */
  lemma HoldBackAtLineStart(p: Parser, text: string)
    requires RecordsOf(p, text) != [] && HasSuffix(text, Tail(RecordsOf(p, text)))
    ensures var tail := Tail(RecordsOf(p, text));
      var pre := text[..|text| - |tail|];
      var lines := Lines(text);
      && lines != []
      && LastStart(p, lines) < |lines|
      && Aligned(pre)
      && Lines(pre) == lines[..LastStart(p, lines)]
      && Lines(tail) == lines[LastStart(p, lines)..]
  {
    hide Lines, Join, Groups, Parse, LastStart;
    var lines, tail := Lines(text), Tail(RecordsOf(p, text));
    RecordsAreGroups(p, text);
    NoLinesNoRecords(p, text);
    LastRecord(p, lines);
    LinesAreLines(text);
    var r := LastStart(p, lines);
    assert tail == Join(lines[r..]) + [NL];
    var pre := text[..|text| - |tail|];
    var c := AfterLastNL(pre);
    var a, x := pre[..c], pre[c..];
    CutTextLines(text, a, x, lines[r..]);
    assert [x + lines[r..][0]] + lines[r..][1..] == [x + lines[r]] + lines[r + 1..];
    SameTail(lines, r, Lines(a), x);
    assert pre == a;
    LinesOfCutText("", lines[r..]);
    assert "" + (Join(lines[r..]) + [NL]) == tail && [lines[r]] + lines[r..][1..] == lines[r..];
  }

  lemma NoLinesNoRecords(p: Parser, text: string)
    ensures Lines(text) == [] ==> RecordsOf(p, text) == []
  {
  }

  lemma CutTextLines(text: string, a: string, x: string, ls: seq<string>)
    requires Aligned(a) && NL !in x && ls != [] && forall l :: l in ls ==> IsLine(l)
    requires |a| + |x| + |Join(ls)| + 1 == |text|
    requires a + x == text[..|a| + |x|] && text[|a| + |x|..] == Join(ls) + [NL]
    ensures Lines(text) == Lines(a) + ([x + ls[0]] + ls[1..])
  {
    hide Lines, Join;
    assert text == a + (x + (Join(ls) + [NL]));
    LinesConcat(a, x + (Join(ls) + [NL]));
    LinesOfCutText(x, ls);
  }

  /** A wave's text, all but its last record shipped: whatever follows, parsing
      may go on from the held-back record as if the whole had been parsed at once. */
  lemma WaveRefines(p: Parser, text: string, more: string)
    requires RecordsOf(p, text) != [] && HasSuffix(text, Tail(RecordsOf(p, text))) && Aligned(text)
    ensures RecordsOf(p, text + more)
         == Front(RecordsOf(p, text)) + RecordsOf(p, Tail(RecordsOf(p, text)) + more)
  {
    hide Parse, Groups, Join, Lines;
    var lines, tail := Lines(text), Tail(RecordsOf(p, text));
    HoldBackAtLineStart(p, text);
    var r := LastStart(p, lines);
    LinesConcat(text, more);
    LinesConcat(tail, more);
    ResumeAtLastRecord(p, lines, Lines(more));
    LastRecord(p, lines);
    RecordsAreGroups(p, text);
    RecordsAreGroups(p, text + more);
    RecordsAreGroups(p, tail + more);
    MessagesConcat(Groups(p, [], lines[..r]), [lines[r..]]);
    MessagesConcat(Groups(p, [], lines[..r]), Groups(p, [], lines[r..] + Lines(more)));
  }

  // ------------------------------------------------------ shipping the end of file

  /** The next line would have been appended to the last record. */
  predicate Continues(p: Parser, recs: seq<string>, more: seq<string>)
  {
    recs != [] && OpensWithContinuation(p, more) && |Last(recs)| + 1 + |more[0]| <= MAX_RECORD_BYTES
  }

  lemma {:induction false} FirstGroupGrows(p: Parser, h: seq<string>, rest: seq<string>)
    requires h != []
    ensures Groups(p, [h], rest) != [] && |Join(h)| <= |Join(Groups(p, [h], rest)[0])|
    decreases |rest|
  {
    if rest != [] {
      var x := rest[0];
      if p.Starts(x) || |Join(h)| + 1 + |x| > MAX_RECORD_BYTES {
        assert AddToGroups(p, [h], x) == [h] + [[x]];
        GroupsKeep(p, [h], [x], rest[1..]);
      } else {
        assert AddToGroups(p, [h], x) == [h + [x]];
        JoinConcat(h, [x]);
        FirstGroupGrows(p, h + [x], rest[1..]);
      }
    }
  }

  /** A line that begins a record of its own begins one for good. */
  lemma GroupsApart(p: Parser, gs: seq<seq<string>>, m: seq<string>)
    requires m != [] && gs != []
    requires p.Starts(m[0]) || |Join(Last(gs))| + 1 + |m[0]| > MAX_RECORD_BYTES
    ensures Groups(p, gs, m) == gs + Groups(p, [], m)
  {
    hide Join;
    assert AddToGroups(p, gs, m[0]) == gs + [[m[0]]];
    GroupsKeep(p, gs, [m[0]], m[1..]);
    assert AddToGroups(p, [], m[0]) == [[m[0]]];
  }

  /** A line that is appended to the last record makes that record longer. */
  lemma GroupsTogether(p: Parser, gs: seq<seq<string>>, m: seq<string>)
    requires m != [] && gs != [] && Last(gs) != []
    requires !p.Starts(m[0]) && |Join(Last(gs))| + 1 + |m[0]| <= MAX_RECORD_BYTES
    ensures |Groups(p, gs, m)| >= |gs| && |Join(Groups(p, gs, m)[|gs| - 1])| > |Join(Last(gs))|
  {
    hide Join;
    var h := Last(gs) + [m[0]];
    assert AddToGroups(p, gs, m[0]) == Front(gs) + [h];
    GroupsKeep(p, Front(gs), h, m[1..]);
    FirstGroupGrows(p, h, m[1..]);
    JoinConcat(Last(gs), [m[0]]);
    assert Groups(p, gs, m)[|gs| - 1] == Groups(p, [h], m[1..])[0];
  }

  /** Shipping every record of a text loses nothing against parsing it together
      with what follows if and only if what follows does not continue its last
      record. */
  lemma EndOfFileRefines(p: Parser, text: string, more: string)
    requires Aligned(text)
    ensures RecordsOf(p, text + more) == RecordsOf(p, text) + RecordsOf(p, more)
       <==> !Continues(p, RecordsOf(p, text), Lines(more))
  {
    hide Join, Lines, Parse, RecordsOf, Groups, Messages, Continues;
    var l, m := Lines(text), Lines(more);
    LinesConcat(text, more);
    RecordsAreGroups(p, text);
    RecordsAreGroups(p, more);
    RecordsAreGroups(p, text + more);
    GroupsConcat(p, [], l, m);
    ParseGroups(p, l);
    MoreGroups(p, Groups(p, [], l), m);
  }

  lemma NoMoreGroups(p: Parser, gs: seq<seq<string>>)
    ensures Groups(p, gs, []) == gs
  {
  }

  /** At any size: a file that ends with A when the last wave reads it, and goes on
      with b, does not come out as one parse would have it. */
  lemma LastWaveCanSplit(pre: string)
    requires Aligned(pre)
    ensures var t := pre + "A\n";
      RecordsOf(OnlyA(), t + "b\n") != RecordsOf(OnlyA(), t) + RecordsOf(OnlyA(), "b\n")
  {
    hide Join, Lines, Groups, AddToGroups, RecordsOf;
    var p, t := OnlyA(), pre + "A\n";
    LineAlone("A");
    LineAlone("b");
    assert "A" + [NL] == "A\n" && "b" + [NL] == "b\n";
    LinesConcat(pre, "A\n");
    RecordsAreGroups(p, t);
    EndsWithA(Lines(pre));
    EndOfFileRefines(p, t, "b\n");
  }

  lemma EndsWithA(lines: seq<string>)
    ensures var gs := Groups(OnlyA(), [], lines + ["A"]); gs != [] && Join(Last(gs)) == "A"
  {
    hide Groups;
    GroupsSnoc(OnlyA(), lines, "A");
  }

  lemma MoreGroups(p: Parser, gs: seq<seq<string>>, m: seq<string>)
    requires forall i :: 0 <= i < |gs| ==> gs[i] != []
    ensures Messages(Groups(p, gs, m)) == Messages(gs) + Messages(Groups(p, [], m))
       <==> !Continues(p, Messages(gs), m)
  {
    hide Join, Messages, Groups;
    MessagesConcat(gs, Groups(p, [], m));
    if gs == [] || m == [] {
      NoMoreGroups(p, gs);
      NoMoreGroups(p, []);
      assert gs + Groups(p, [], m) == Groups(p, gs, m);
    } else if Continues(p, Messages(gs), m) {
      GroupsTogether(p, gs, m);
      assert (Messages(gs) + Messages(Groups(p, [], m)))[|gs| - 1] == Join(Last(gs));
    } else {
      GroupsApart(p, gs, m);
    }
  }

  // ------------------------------------------------------------------ the waves

  /** Sequential reading of `full` from byte `from`, with the file E bytes long,
      gives what was shipped and then what it gives from byte `to`. */
  ghost predicate SameAsSequential(p: Parser, full: string, from: nat, to: nat, shipped: seq<string>, E: nat)
    requires from <= to <= E <= |full|
  {
    RecordsOf(p, full[from..E]) == shipped + RecordsOf(p, full[to..E])
  }

  /** That holds of every later size of the file. After a wave that shipped up to
      the end of the file (newest holds its records) it holds exactly when the
      lines added since do not continue the last of them. */
  ghost predicate Refines(p: Parser, full: string, size: nat, from: nat, to: nat,
                          shipped: seq<string>, newest: seq<string>)
  {
    && from <= to <= size <= |full|
    && IsLineStart(full, to)
    && forall E: nat :: size <= E <= |full| ==>
        (SameAsSequential(p, full, from, to, shipped, E) <==> !Continues(p, newest, Lines(full[to..E])))
  }

  lemma RefinesNothing(p: Parser, full: string, size: nat, off: nat)
    requires off <= size <= |full| && IsLineStart(full, off)
    ensures Refines(p, full, size, off, off, [], [])
  {
  }

  lemma RefinesToLineStart(p: Parser, full: string, size: nat, from: nat, to: nat,
                           shipped: seq<string>, newest: seq<string>)
    requires Refines(p, full, size, from, to, shipped, newest)
    ensures from <= to <= size <= |full| && IsLineStart(full, to)
  {
  }

  lemma RefinesLater(p: Parser, full: string, size: nat, size': nat, from: nat, to: nat,
                     shipped: seq<string>, newest: seq<string>)
    requires Refines(p, full, size, from, to, shipped, newest) && size <= size' <= |full|
    ensures Refines(p, full, size', from, to, shipped, newest)
  {
  }

  /** A wave may have read further than the ones before it. */
  lemma RefinesReach(p: Parser, full: string, floor: nat, from: nat, off: nat, shipped: seq<string>, run: WaveRun)
    requires Refines(p, full, floor, from, off, shipped, []) && IsLineStart(full, floor) && IsLineStart(full, off)
    requires run.w.WaveText? ==>
      off + |run.w.text| == run.w.end <= |full| && run.w.text == full[off..run.w.end] && Aligned(run.w.text)
    ensures Refines(p, full, Reach(floor, run), from, off, shipped, []) && IsLineStart(full, Reach(floor, run))
  {
    hide Refines;
    if run.w.WaveText? && run.w.end > floor {
      RefinesLater(p, full, floor, run.w.end, from, off, shipped, []);
      WaveLineStart(full, off, run.w.text, run.w.text);
    }
  }

  /** A wave that holds its last record back. */
  lemma RefinesWave(p: Parser, full: string, size: nat, from: nat, off: nat, shipped: seq<string>, text: string)
    requires Refines(p, full, size, from, off, shipped, [])
    requires off + |text| <= size && text == full[off..off + |text|] && Aligned(text)
    requires RecordsOf(p, text) != [] && HasSuffix(text, Tail(RecordsOf(p, text)))
    ensures Refines(p, full, size, from, off + |text| - |Tail(RecordsOf(p, text))|,
                    shipped + Front(RecordsOf(p, text)), [])
  {
    hide RecordsOf, Lines, LastStart;
    var recs, tail := RecordsOf(p, text), Tail(RecordsOf(p, text));
    HoldBackAtLineStart(p, text);
    var to := off + |text| - |tail|;
    var pre := text[..|text| - |tail|];
    assert text == pre + tail;
    WaveLineStart(full, off, text, pre);
    forall E: nat | size <= E <= |full| ensures SameAsSequential(p, full, from, to, shipped + Front(recs), E) {
      assert SameAsSequential(p, full, from, off, shipped, E) by {
        assert !Continues(p, [], Lines(full[off..E]));
      }
      SequentialAfterWave(p, full, off, text, E);
      assert shipped + (Front(recs) + RecordsOf(p, full[to..E])) == (shipped + Front(recs)) + RecordsOf(p, full[to..E]);
    }
  }

  lemma SequentialAfterWave(p: Parser, full: string, off: nat, text: string, E: nat)
    requires off + |text| <= E <= |full| && text == full[off..off + |text|] && Aligned(text)
    requires RecordsOf(p, text) != [] && HasSuffix(text, Tail(RecordsOf(p, text)))
    ensures var to := off + |text| - |Tail(RecordsOf(p, text))|;
      RecordsOf(p, full[off..E]) == Front(RecordsOf(p, text)) + RecordsOf(p, full[to..E])
  {
    hide RecordsOf;
    var more, tail := full[off + |text|..E], Tail(RecordsOf(p, text));
    WaveRefines(p, text, more);
    assert full[off..E] == text + more;
    assert full[off + |text| - |tail|..E] == tail + more;
  }

  lemma WaveLineStart(full: string, off: nat, text: string, pre: string)
    requires off + |text| <= |full| && text == full[off..off + |text|]
    requires IsLineStart(full, off) && pre <= text && Aligned(pre)
    ensures IsLineStart(full, off + |pre|)
  {
  }

  /** The last wave ships every record it has. */
  lemma RefinesLastWave(p: Parser, full: string, size: nat, from: nat, off: nat, shipped: seq<string>, text: string)
    requires Refines(p, full, size, from, off, shipped, [])
    requires off + |text| <= size && text == full[off..off + |text|] && Aligned(text)
    ensures Refines(p, full, size, from, off + |text|, shipped + RecordsOf(p, text), RecordsOf(p, text))
  {
    hide RecordsOf, Lines;
    var recs, to := RecordsOf(p, text), off + |text|;
    WaveLineStart(full, off, text, text);
    forall E: nat | size <= E <= |full|
      ensures SameAsSequential(p, full, from, to, shipped + recs, E) <==> !Continues(p, recs, Lines(full[to..E]))
    {
      var more := full[to..E];
      EndOfFileRefines(p, text, more);
      assert full[off..E] == text + more;
      assert SameAsSequential(p, full, from, off, shipped, E) by {
        assert !Continues(p, [], Lines(full[off..E]));
      }
      SamePrefix(shipped, RecordsOf(p, text + more), recs + RecordsOf(p, more));
      assert shipped + (recs + RecordsOf(p, more)) == (shipped + recs) + RecordsOf(p, more);
    }
  }

  /** Either kind of wave. */
  lemma WaveDone(p: Parser, full: string, size: nat, from: nat, off: nat, shipped: seq<string>, text: string, last: bool)
    requires Refines(p, full, size, from, off, shipped, [])
    requires off + |text| <= size && text == full[off..off + |text|] && Aligned(text)
    requires !last ==> RecordsOf(p, text) != [] && HasSuffix(text, Tail(RecordsOf(p, text)))
    ensures last ==>
      Refines(p, full, size, from, off + |text|, shipped + RecordsOf(p, text), RecordsOf(p, text))
    ensures !last ==>
      Refines(p, full, size, from, off + |text| - |Tail(RecordsOf(p, text))|,
              shipped + Front(RecordsOf(p, text)), [])
    ensures !last ==> IsLineStart(full, off + |text| - |Tail(RecordsOf(p, text))|)
  {
    hide RecordsOf;
    if last {
      RefinesLastWave(p, full, size, from, off, shipped, text);
    } else {
      RefinesWave(p, full, size, from, off, shipped, text);
    }
  }

  lemma SamePrefix<T>(a: seq<T>, b: seq<T>, c: seq<T>)
    ensures a + b == a + c <==> b == c
  {
    if a + b == a + c {
      assert (a + b)[|a|..] == b && (a + c)[|a|..] == c;
    }
  }

  datatype Slot = Idle | Answer(result: RangeResult)
  datatype Wave = WaveError | WaveFallback | WaveText(text: string, end: int)
  datatype Turn = Advanced | Stopped | Broken

  /** One wave: what its reads gave, with the sizes the file had when they were
      made, what that tiled to, and what became of it. `loose` was written without
      its checkpoint. */
  datatype WaveRun = WaveRun(off: nat, last: bool, slots: seq<Slot>, sizes: seq<nat>, w: Wave,
                             turn: Turn, next: nat, shipped: seq<string>, loose: seq<string>)

  /** Whether a wave's text can be shipped: not one giant record, and a last
      record that is the end of the text as it stands. */
  predicate CanShip(p: Parser, text: string, last: bool)
  {
    last || (|RecordsOf(p, text)| >= 2 && HasSuffix(text, Tail(RecordsOf(p, text))))
  }

  /** Where the wave that holds `text` and ends at `end` is checkpointed. */
  function ShipsTo(p: Parser, text: string, end: int, last: bool): int
    requires CanShip(p, text, last)
  {
    if last then end else end - |Tail(RecordsOf(p, text))|
  }

  /** What a range read can be relied on for, whenever it was made. */
  ghost predicate SlotOk(full: string, size: nat, s: Slot)
  {
    s.Answer? && s.result.Range? ==>
      var r := s.result.piece;
      0 <= r.end && (r.text != "" ==> r.end <= size && SliceEndingAt(full, r.text, r.end))
  }

  /** The tiling check: the first bad answer, or the text of all of them. */
  function TileOf(slots: seq<Slot>, text: string, at: int): Wave
  {
    if slots == [] then WaveText(text, at)
    else match slots[0]
      case Idle => TileOf(slots[1..], text, at)
      case Answer(RangeError) => WaveError
      case Answer(RangeUnsupported) => WaveFallback
      case Answer(Range(piece)) =>
        if piece.end - |piece.text| != at then WaveFallback
        else TileOf(slots[1..], text + piece.text, piece.end)
  }

  lemma PieceFollows(full: string, size: nat, off: nat, text: string, at: int, piece: Piece)
    requires at == off + |text| <= size <= |full| && text == full[off..at] && Aligned(text)
    requires SlotOk(full, size, Answer(Range(piece))) && piece.end - |piece.text| == at
    ensures 0 <= piece.end <= size && text + piece.text == full[off..piece.end] && Aligned(text + piece.text)
  {
  }

  /** Where slot k's range ends; -1 reads to the current end of file. */
  function SegmentEnd(off: nat, fileSize: nat, n: nat, last: bool, k: nat): int
  {
    var end := off + k * PARALLEL_SEGMENT + PARALLEL_SEGMENT;
    if last && (k == n - 1 || end >= fileSize) then -1 else end
  }

  /** What slot k of a wave of n holds, read with the file `seen` bytes long. */
  ghost predicate SlotIs(full: string, off: nat, fileSize: nat, n: nat, last: bool, k: nat, s: Slot, seen: nat)
  {
    var start := off + k * PARALLEL_SEGMENT;
    if start >= fileSize then s == Idle
    else
      s.Answer? && fileSize <= seen <= |full| &&
      (s.result.Range? ==>
        s.result.piece == RangeOf(full[..seen], start, SegmentEnd(off, fileSize, n, last, k)))
  }

  ghost predicate SlotsAre(full: string, off: nat, fileSize: nat, n: nat, last: bool, slots: seq<Slot>, sizes: seq<nat>)
  {
    |slots| == |sizes| && forall k :: 0 <= k < |slots| ==> SlotIs(full, off, fileSize, n, last, k, slots[k], sizes[k])
  }

  /** A line starts at or after each cut between two active slots, in the file as
      both of them saw it. */
  ghost predicate CutsInLines(full: string, off: nat, fileSize: nat, sizes: seq<nat>)
  {
    forall k :: 1 <= k < |sizes| && off + k * PARALLEL_SEGMENT < fileSize ==> CutInLines(full, off, k, sizes)
  }

  ghost predicate CutInLines(full: string, off: nat, k: nat, sizes: seq<nat>)
    requires 1 <= k < |sizes|
  {
    && sizes[k - 1] <= |full| && sizes[k] <= |full|
    && FirstStart(full[..sizes[k - 1]], off + k * PARALLEL_SEGMENT).Some?
    && FirstStart(full[..sizes[k]], off + k * PARALLEL_SEGMENT).Some?
  }

  /** Every read that was made gave a range. */
  ghost predicate Answered(slots: seq<Slot>)
  {
    forall k :: 0 <= k < |slots| && slots[k].Answer? ==> slots[k].result.Range?
  }

  lemma {:induction false} IdleTiles(slots: seq<Slot>, text: string, at: int)
    requires forall k :: 0 <= k < |slots| ==> slots[k] == Idle
    ensures TileOf(slots, text, at) == WaveText(text, at)
  {
    if slots != [] {
      IdleTiles(slots[1..], text, at);
    }
  }

  lemma SegmentsRise(off: nat, k: nat, j: nat)
    requires k <= j
    ensures off + k * PARALLEL_SEGMENT <= off + j * PARALLEL_SEGMENT
    ensures k < j ==> off + k * PARALLEL_SEGMENT + PARALLEL_SEGMENT <= off + j * PARALLEL_SEGMENT
  {
  }

  /** From slot k on, the ranges tile. */
  lemma {:induction false} TilesFrom(full: string, off: nat, fileSize: nat, n: nat, last: bool, slots: seq<Slot>,
                                     sizes: seq<nat>, k: nat, text: string)
    requires SlotsAre(full, off, fileSize, n, last, slots, sizes) && CutsInLines(full, off, fileSize, sizes)
    requires |slots| == n && k < n && off + k * PARALLEL_SEGMENT < fileSize
    requires Answered(slots)
    ensures var r := slots[k].result.piece; TileOf(slots[k..], text, r.end - |r.text|).WaveText?
    decreases n - k
  {
    hide FirstStart, RangeOf, CutInLines;
    assert SlotIs(full, off, fileSize, n, last, k, slots[k], sizes[k]);
    var r := slots[k].result.piece;
    assert slots[k..][1..] == slots[k + 1..];
    var rest := slots[k + 1..];
    if k + 1 < n && off + (k + 1) * PARALLEL_SEGMENT < fileSize {
      assert SlotIs(full, off, fileSize, n, last, k + 1, slots[k + 1], sizes[k + 1]);
      TilesFrom(full, off, fileSize, n, last, slots, sizes, k + 1, text + r.text);
      CutTiles(full, off, fileSize, n, last, slots, sizes, k);
    } else {
      forall j | 0 <= j < |rest| ensures rest[j] == Idle {
        assert SlotIs(full, off, fileSize, n, last, k + 1 + j, slots[k + 1 + j], sizes[k + 1 + j]);
        SegmentsRise(off, k + 1, k + 1 + j);
      }
      IdleTiles(rest, text + r.text, r.end);
    }
  }

  lemma CutTiles(full: string, off: nat, fileSize: nat, n: nat, last: bool, slots: seq<Slot>, sizes: seq<nat>, k: nat)
    requires SlotsAre(full, off, fileSize, n, last, slots, sizes) && CutsInLines(full, off, fileSize, sizes)
    requires |slots| == n && k + 1 < n && off + (k + 1) * PARALLEL_SEGMENT < fileSize
    requires slots[k].Answer? && slots[k].result.Range? && slots[k + 1].Answer? && slots[k + 1].result.Range?
    ensures var x, y := slots[k].result.piece, slots[k + 1].result.piece; y.end - |y.text| == x.end
  {
    hide FirstStart, RangeOf;
    assert SlotIs(full, off, fileSize, n, last, k, slots[k], sizes[k]);
    assert SlotIs(full, off, fileSize, n, last, k + 1, slots[k + 1], sizes[k + 1]);
    assert CutInLines(full, off, k + 1, sizes);
    var a, b, c := off + k * PARALLEL_SEGMENT, off + (k + 1) * PARALLEL_SEGMENT, SegmentEnd(off, fileSize, n, last, k + 1);
    assert SegmentEnd(off, fileSize, n, last, k) == b;
    RangesTileAcrossGrowth(full, sizes[k], sizes[k + 1], a, b, c);
  }

  /** A wave whose reads all succeeded passes the tiling check, however the file
      grew meanwhile, when a line starts past each cut. */
  lemma GoodWaveTiles(full: string, off: nat, fileSize: nat, n: nat, last: bool, slots: seq<Slot>, sizes: seq<nat>)
    requires SlotsAre(full, off, fileSize, n, last, slots, sizes) && CutsInLines(full, off, fileSize, sizes)
    requires |slots| == n > 0 && off < fileSize && IsLineStart(full, off)
    requires Answered(slots)
    ensures TileOf(slots, "", off).WaveText?
  {
    assert SlotIs(full, off, fileSize, n, last, 0, slots[0], sizes[0]);
    assert IsLineStart(full[..sizes[0]], off);
    assert FirstStart(full[..sizes[0]], off) == Some(off);
    RangeBounds(full[..sizes[0]], off, SegmentEnd(off, fileSize, n, last, 0));
    TilesFrom(full, off, fileSize, n, last, slots, sizes, 0, "");
    assert slots[0..] == slots;
  }

  lemma {:induction false} NoError(slots: seq<Slot>, text: string, at: int)
    requires Answered(slots)
    ensures !TileOf(slots, text, at).WaveError?
    decreases |slots|
  {
    if slots != [] && slots[0].Idle? {
      NoError(slots[1..], text, at);
    } else if slots != [] {
      NoError(slots[1..], text + slots[0].result.piece.text, slots[0].result.piece.end);
    }
  }

  // ------------------------------------------------------------ the end of the file

  lemma {:induction false} TileEnd(slots: seq<Slot>, text: string, at: int, k: nat)
    requires k < |slots| && slots[k].Answer? && forall j :: k < j < |slots| ==> slots[j] == Idle
    requires TileOf(slots, text, at).WaveText?
    ensures slots[k].result.Range? && TileOf(slots, text, at).end == slots[k].result.piece.end
    decreases k
  {
    if k == 0 {
      var piece := slots[0].result.piece;
      IdleTiles(slots[1..], text + piece.text, piece.end);
    } else if slots[0].Idle? {
      TileEnd(slots[1..], text, at, k - 1);
    } else {
      var piece := slots[0].result.piece;
      TileEnd(slots[1..], text + piece.text, piece.end, k - 1);
    }
  }

  lemma {:induction false} LastActive(off: nat, fileSize: nat, n: nat) returns (k: nat)
    requires n > 0 && off < fileSize
    ensures k < n && off + k * PARALLEL_SEGMENT < fileSize
    ensures k == n - 1 || off + (k + 1) * PARALLEL_SEGMENT >= fileSize
    decreases n
  {
    if off + (n - 1) * PARALLEL_SEGMENT < fileSize {
      k := n - 1;
    } else {
      k := LastActive(off, fileSize, n - 1);
    }
  }

  lemma OpenRangeReachesEnd(t: string, start: nat)
    ensures RangeOf(t, start, -1).end >= AfterLastNL(t)
  {
    LastStartIsLast(t);
  }

  /** The text ends no earlier than the last whole line the file had when slot k read it. */
  ghost predicate EndsAtEof(full: string, fileSize: nat, slots: seq<Slot>, sizes: seq<nat>, end: int)
  {
    |slots| == |sizes| && exists k :: 0 <= k < |slots| && SeesEof(full, fileSize, slots[k], sizes[k], end)
  }

  ghost predicate SeesEof(full: string, fileSize: nat, slot: Slot, size: nat, end: int)
  {
    slot.Answer? && fileSize <= size <= |full| && end >= AfterLastNL(full[..size])
  }

  /** The last wave reads to the end of the file as it then is. */
  lemma LastWaveEnds(full: string, off: nat, fileSize: nat, n: nat, slots: seq<Slot>, sizes: seq<nat>)
    requires SlotsAre(full, off, fileSize, n, true, slots, sizes) && |slots| == n > 0 && off < fileSize
    requires TileOf(slots, "", off).WaveText?
    ensures EndsAtEof(full, fileSize, slots, sizes, TileOf(slots, "", off).end)
  {
    hide RangeOf, AfterLastNL, TileOf;
    var k := LastActive(off, fileSize, n);
    assert SlotIs(full, off, fileSize, n, true, k, slots[k], sizes[k]);
    forall j | k < j < |slots| ensures slots[j] == Idle {
      assert SlotIs(full, off, fileSize, n, true, j, slots[j], sizes[j]);
      SegmentsRise(off, k + 1, j);
    }
    TileEnd(slots, "", off, k);
    OpenRangeReachesEnd(full[..sizes[k]], off + k * PARALLEL_SEGMENT);
    assert SegmentEnd(off, fileSize, n, true, k) == -1;
    assert SeesEof(full, fileSize, slots[k], sizes[k], TileOf(slots, "", off).end);
  }

  /** The records a wave ships, and whether it cannot be used. */
  function WaveRecs(p: Parser, text: string, last: bool): seq<string>
    requires CanShip(p, text, last)
  {
    if last then RecordsOf(p, text) else Front(RecordsOf(p, text))
  }

  predicate Unshippable(p: Parser, run: WaveRun)
  {
    || run.w.WaveFallback?
    || (run.w.WaveText? && (CanShip(p, run.w.text, run.last) ==> ShipsTo(p, run.w.text, run.w.end, run.last) <= run.off))
  }

  /** The wave's records were shipped and its checkpoint is in place. */
  predicate Took(p: Parser, run: WaveRun)
  {
    && run.w.WaveText? && CanShip(p, run.w.text, run.last)
    && run.off < run.next == ShipsTo(p, run.w.text, run.w.end, run.last)
    && run.shipped == WaveRecs(p, run.w.text, run.last) && run.loose == []
  }

  /** What a wave read: ranges of the file, what they tile to, and for the last wave
      the end of the file. */
  ghost predicate WaveRead(full: string, n: nat, fileSize: nat, off: nat, last: bool, slots: seq<Slot>, sizes: seq<nat>, w: Wave)
  {
    && off < fileSize && |slots| == n
    && SlotsAre(full, off, fileSize, n, last, slots, sizes)
    && w == TileOf(slots, "", off)
    && (w.WaveText? ==> off + |w.text| == w.end <= |full| && w.text == full[off..w.end] && Aligned(w.text))
    && (last && n > 0 && w.WaveText? ==> EndsAtEof(full, fileSize, slots, sizes, w.end))
  }

  /** A wave that did what it had to: it read its ranges of the file, the tiling
      check decided over them, it stopped exactly when what they tiled to cannot be
      shipped, and otherwise shipped exactly the records of that text. */
  ghost predicate WaveRunOk(p: Parser, full: string, n: nat, fileSize: nat, run: WaveRun)
  {
    && WaveRead(full, n, fileSize, run.off, run.last, run.slots, run.sizes, run.w)
    && (run.turn == Stopped <==> Unshippable(p, run))
    && (run.turn == Advanced ==> Took(p, run))
    && (!Took(p, run) ==> run.next == run.off && run.shipped == [])
    && (run.loose != [] ==>
          run.turn == Broken && run.w.WaveText? && CanShip(p, run.w.text, run.last)
          && run.loose == WaveRecs(p, run.w.text, run.last))
  }

  /** Its reads were made while the file had these sizes. */
  ghost predicate SizesWithin(run: WaveRun, lo: nat, hi: nat)
  {
    && |run.sizes| == |run.slots|
    && forall k :: 0 <= k < |run.sizes| && run.slots[k].Answer? ==> lo <= run.sizes[k] <= hi
  }

  /** The records of a wave that read to the end of the file. */
  function NewestOf(run: WaveRun): seq<string> { if run.last then run.shipped else [] }

  function Newest(runs: seq<WaveRun>): seq<string> { if runs == [] then [] else NewestOf(Last(runs)) }

  /** How far the waves of a drain from `from` have read: whole lines up to there. */
  function ReadTo(runs: seq<WaveRun>, from: nat): nat
  {
    if runs == [] then from else Reach(ReadTo(Front(runs), from), Last(runs))
  }

  function Reach(floor: nat, run: WaveRun): nat
  {
    if run.w.WaveText? && run.w.end > floor then run.w.end else floor
  }

  function LooseOf(runs: seq<WaveRun>): seq<string> { if runs == [] then [] else Last(runs).loose }

  function AllShipped(runs: seq<WaveRun>): seq<string>
  {
    if runs == [] then [] else AllShipped(Front(runs)) + Last(runs).shipped
  }

  /** All waves so far went through, and none read to the end of the file. */
  predicate GoesOn(runs: seq<WaveRun>)
  {
    runs == [] || (Last(runs).turn == Advanced && !Last(runs).last && Last(runs).loose == [])
  }

  /** The waves of one drain, from one checkpoint to another. */
  ghost predicate Chain(p: Parser, full: string, n: nat, fileSize: nat, runs: seq<WaveRun>, from: nat, to: nat)
  {
    if runs == [] then from == to
    else
      var r := Last(runs);
      && Chain(p, full, n, fileSize, Front(runs), from, r.off) && GoesOn(Front(runs))
      && WaveRunOk(p, full, n, fileSize, r) && r.next == to
      && fileSize - r.off >= n * PARALLEL_SEGMENT / 2
      && r.last == (r.off + n * PARALLEL_SEGMENT >= fileSize)
  }

  /** Why a drain that did not fail ended: the rest is small, the last wave read to
      the end of the file, or it could not be used. */
  predicate Finished(n: nat, fileSize: nat, runs: seq<WaveRun>, to: nat)
  {
    if GoesOn(runs) then fileSize - to < n * PARALLEL_SEGMENT / 2
    else Last(runs).turn == Stopped || (Last(runs).turn == Advanced && Last(runs).last)
  }

  lemma RunParts(p: Parser, full: string, n: nat, fileSize: nat, run: WaveRun)
    requires WaveRunOk(p, full, n, fileSize, run)
    ensures run.turn == Advanced ==> run.off < run.next && run.loose == []
    ensures run.turn == Stopped ==> run.loose == []
  {
  }

  /** One wave more. */
  lemma ChainMore(p: Parser, full: string, n: nat, fileSize: nat, runs: seq<WaveRun>, from: nat, to: nat, run: WaveRun)
    requires Chain(p, full, n, fileSize, runs, from, to) && GoesOn(runs)
    requires WaveRunOk(p, full, n, fileSize, run) && run.off == to
    requires fileSize - to >= n * PARALLEL_SEGMENT / 2 && run.last == (to + n * PARALLEL_SEGMENT >= fileSize)
    ensures var rs := runs + [run];
      && Chain(p, full, n, fileSize, rs, from, run.next)
      && AllShipped(rs) == AllShipped(runs) + run.shipped && LooseOf(rs) == run.loose && Newest(rs) == NewestOf(run)
      && ReadTo(rs, from) == Reach(ReadTo(runs, from), run)
      && (run.turn == Advanced ==> run.off < run.next && run.loose == [])
      && (run.turn == Stopped ==> run.loose == [])
      && (run.turn == Advanced && !run.last ==> GoesOn(rs) && NewestOf(run) == [])
      && (run.turn == Stopped || (run.turn == Advanced && run.last) ==> Finished(n, fileSize, rs, run.next))
  {
    hide Took, Unshippable;
    assert Front(runs + [run]) == runs;
    RunParts(p, full, n, fileSize, run);
  }

  ghost predicate AllWithin(runs: seq<WaveRun>, lo: nat, hi: nat)
  {
    forall i :: 0 <= i < |runs| ==> SizesWithin(runs[i], lo, hi)
  }

  /** No read of any wave failed or was unusable. */
  ghost predicate AllAnswered(runs: seq<WaveRun>) { forall i :: 0 <= i < |runs| ==> Answered(runs[i].slots) }

  lemma WithinMore(runs: seq<WaveRun>, run: WaveRun, lo: nat, mid: nat, hi: nat)
    requires AllWithin(runs, lo, mid) && SizesWithin(run, mid, hi) && lo <= mid <= hi
    ensures AllWithin(runs + [run], lo, hi)
  {
    forall i | 0 <= i < |runs| ensures SizesWithin(runs[i], lo, hi) {
      assert SizesWithin(runs[i], lo, mid);
    }
  }

  lemma AnsweredMore(runs: seq<WaveRun>, run: WaveRun)
    ensures AllAnswered(runs) && Answered(run.slots) ==> AllAnswered(runs + [run])
  {
  }

  lemma NoWavesYet(p: Parser, full: string, size: nat, n: nat, fileSize: nat, from: nat)
    ensures AllWithin([], size, size) && AllAnswered([]) && AllShipped([]) == Newest([]) == LooseOf([]) == []
    ensures Chain(p, full, n, fileSize, [], from, from) && ReadTo([], from) == from
    ensures from <= |full| && IsLineStart(full, from) ==> Refines(p, full, from, from, from, [], [])
  {
    if from <= |full| && IsLineStart(full, from) {
      RefinesNothing(p, full, from, from);
    }
  }

  /** What a drain shipped from the end of the file is the last it shipped. */
  lemma NewestIsLastShipped(runs: seq<WaveRun>)
    requires Newest(runs) != []
    ensures AllShipped(runs) != [] && Last(AllShipped(runs)) == Last(Newest(runs))
    ensures Last(runs).last
  {
    var a, b := AllShipped(Front(runs)), Newest(runs);
    assert (a + b)[|a + b| - 1] == b[|b| - 1];
  }

  /** A wave that got a range from every read, with a line starting past each cut,
      ships what it read unless that is one giant record or does not end as its last
      record does. */
  lemma GoodWaveAdvances(p: Parser, full: string, n: nat, fileSize: nat, run: WaveRun)
    requires WaveRunOk(p, full, n, fileSize, run) && n > 0 && IsLineStart(full, run.off)
    requires Answered(run.slots) && CutsInLines(full, run.off, fileSize, run.sizes)
    ensures run.w.WaveText? && run.w.text == full[run.off..run.w.end]
    ensures var recs := RecordsOf(p, run.w.text);
      run.turn == Stopped <==>
        if run.last then run.w.end <= run.off
        else |recs| < 2 || !HasSuffix(run.w.text, Last(recs) + [NL]) || run.w.end - |Last(recs) + [NL]| <= run.off
  {
    hide SlotsAre, CutsInLines, Answered, TileOf, RecordsOf, HasSuffix;
    GoodWaveTiles(full, run.off, fileSize, n, run.last, run.slots, run.sizes);
  }

  lemma WholeLinesGrow(full: string, a: nat, b: nat)
    requires a <= b <= |full|
    ensures AfterLastNL(full[..a]) <= AfterLastNL(full[..b])
  {
    LastStartIsLast(full[..a]);
    LastStartIsLast(full[..b]);
    assert IsLineStart(full[..b], AfterLastNL(full[..a]));
  }

  /** A drain whose last wave went through has read every whole line the file had when
      the drain began, and its newest records are those before that end. */
  lemma LastWaveLeavesNothing(p: Parser, full: string, n: nat, fileSize: nat, runs: seq<WaveRun>, from: nat, to: nat,
                              lo: nat, hi: nat)
    requires Chain(p, full, n, fileSize, runs, from, to) && AllWithin(runs, lo, hi) && lo <= |full| && n > 0
    requires runs != [] && Last(runs).last && Last(runs).turn == Advanced
    ensures to >= AfterLastNL(full[..lo]) && Newest(runs) == RecordsOf(p, Last(runs).w.text)
  {
    hide SlotsAre, TileOf, RecordsOf, Aligned, AfterLastNL;
    var r := Last(runs);
    assert SizesWithin(runs[|runs| - 1], lo, hi);
    var k :| 0 <= k < |r.slots| && SeesEof(full, fileSize, r.slots[k], r.sizes[k], r.w.end);
    WholeLinesGrow(full, lo, r.sizes[k]);
  }

  // ------------------------------------------------------------- lines of the waves

  /** What a wave ships holds the lines from its offset to its checkpoint. */
  lemma WaveKeepsLines(p: Parser, full: string, n: nat, fileSize: nat, run: WaveRun)
    requires WaveRunOk(p, full, n, fileSize, run) && Took(p, run)
    ensures run.off < run.next <= |full| && Aligned(full[run.off..run.next])
    ensures LinesOf(run.shipped) == Lines(full[run.off..run.next])
  {
    hide RecordsOf, Lines, LastStart, SlotsAre, TileOf;
    var text := run.w.text;
    ParseKeepsLines(p, text);
    assert LinesOf(RecordsOf(p, text)) == Lines(text) by {
      RecordsAre(p, text);
    }
    if !run.last {
      var recs, tail := RecordsOf(p, text), Tail(RecordsOf(p, text));
      var pre := text[..|text| - |tail|];
      HoldBackAtLineStart(p, text);
      LinesConcat(pre, tail);
      assert text == pre + tail && recs == Front(recs) + [Last(recs)];
      LinesOfConcatenated(Front(recs), [Last(recs)]);
      LinesTerminated(Last(recs));
      assert LinesOf([Last(recs)]) == Lines(tail);
      SliceOfSlice(full, run.off, text, 0, |pre|);
      assert text[0..|pre|] == pre && full[run.off + 0..run.off + |pre|] == full[run.off..run.next];
    }
  }

  lemma RecordsAre(p: Parser, text: string)
    ensures RecordsOf(p, text) == Parse(p, Lines(text)).recs
  {
  }

  /** At any size of entry: what the waves shipped holds exactly the lines between
      the checkpoint they began at and the one they left. */
  lemma {:induction false} ChainKeepsLines(p: Parser, full: string, n: nat, fileSize: nat, runs: seq<WaveRun>, from: nat, to: nat)
    requires Chain(p, full, n, fileSize, runs, from, to) && from <= |full|
    ensures from <= to <= |full| && Aligned(full[from..to])
    ensures LinesOf(AllShipped(runs)) == Lines(full[from..to])
    decreases |runs|
  {
    hide Lines, WaveRunOk, Took;
    if runs == [] {
      assert Lines("") == [] by { NoTextNoLines(); }
      assert full[from..to] == "";
    } else {
      var r := Last(runs);
      ChainKeepsLines(p, full, n, fileSize, Front(runs), from, r.off);
      LinesOfConcatenated(AllShipped(Front(runs)), r.shipped);
      if Took(p, r) {
        WaveKeepsLines(p, full, n, fileSize, r);
        var a, b := full[from..r.off], full[r.off..to];
        assert full[from..to] == a + b;
        LinesConcat(a, b);
      } else {
        NotTaken(p, full, n, fileSize, r);
        assert AllShipped(Front(runs)) + [] == AllShipped(Front(runs));
      }
    }
  }

  lemma NoTextNoLines()
    ensures Lines("") == []
  {
  }

  lemma NotTaken(p: Parser, full: string, n: nat, fileSize: nat, run: WaveRun)
    requires WaveRunOk(p, full, n, fileSize, run) && !Took(p, run)
    ensures run.next == run.off && run.shipped == []
  {
  }

  lemma EndedSmall(n: nat, fileSize: nat, runs: seq<WaveRun>, to: nat)
    requires GoesOn(runs) && fileSize - to < n * PARALLEL_SEGMENT / 2
    ensures Finished(n, fileSize, runs, to) && LooseOf(runs) == []
  {
  }

  lemma NothingNewest(runs: seq<WaveRun>)
    requires GoesOn(runs)
    ensures Newest(runs) == [] && LooseOf(runs) == []
  {
  }

  class ParallelReader {
    const p: Parser
    const server: LogServer
    const parallelReads: nat

    // durable: the checkpoint, when it is an offset marker, and what the sink accepted
    var marker: Option<nat>
    var delivered: seq<string>

    /** How many sink and checkpoint writes failed. */
    ghost var faults: nat

    constructor (p: Parser, server: LogServer, parallelReads: nat, marker: Option<nat>)
      ensures this.p == p && this.server == server && this.parallelReads == parallelReads
      ensures this.marker == marker && delivered == []
    {
      this.p, this.server, this.parallelReads, this.marker, delivered := p, server, parallelReads, marker, [];
      faults := 0;
    }

    /** One wave of range reads, and the check that they tile. The reads run
        concurrently; as each depends only on the file's growth, any order of
        them is this one on a server that grows differently. */
    method ReadWave(off: nat, fileSize: nat, last: bool)
      returns (w: Wave, ghost slots: seq<Slot>, ghost sizes: seq<nat>)
      requires server.Valid() && off < fileSize <= server.size && IsLineStart(server.full, off)
      modifies server
      ensures server.Valid() && old(server.size) <= server.size
      ensures WaveRead(server.full, parallelReads, fileSize, off, last, slots, sizes, w)
      ensures w.WaveText? ==> w.end <= server.size
      ensures |sizes| == |slots|
      ensures forall k :: 0 <= k < |slots| && slots[k].Answer? ==> old(server.size) <= sizes[k] <= server.size
      ensures server.faults >= old(server.faults)
      ensures server.faults == old(server.faults) ==> Answered(slots) && !w.WaveError?
    {
      hide RangeOf, SliceEndingAt, TileOf, EndsAtEof;
      var got: seq<Slot> := [];
      sizes := [];
      var i := 0;
      var launching := true;
      while i < parallelReads
        invariant 0 <= i == |got| <= parallelReads
        invariant server.Valid() && old(server.size) <= server.size
        invariant forall k :: 0 <= k < i ==> SlotOk(server.full, server.size, got[k])
        invariant SlotsAre(server.full, off, fileSize, parallelReads, last, got, sizes)
        invariant forall k :: 0 <= k < i && got[k].Answer? ==> old(server.size) <= sizes[k] <= server.size
        invariant !launching ==> off + i * PARALLEL_SEGMENT >= fileSize || i == parallelReads
        invariant server.faults >= old(server.faults)
        invariant server.faults == old(server.faults) ==> Answered(got)
      {
        var start := off + i * PARALLEL_SEGMENT;
        var slot := Idle;
        ghost var size := 0;
        if launching && start < fileSize {
          var end := start + PARALLEL_SEGMENT;
          if last && (i == parallelReads - 1 || end >= fileSize) {
            end := -1; // open-ended: as far as the file goes by then
          }
          var r, seen := ReadRange(server, start, end, i == 0);
          if r.Range? {
            RangeIsSlice(server.full, seen, start, end);
          }
          slot := Answer(r);
          size := seen;
          launching := end >= 0;
        }
        assert SlotIs(server.full, off, fileSize, parallelReads, last, i, slot, size);
        got := got + [slot];
        sizes := sizes + [size];
        i := i + 1;
      }
      w := Tile(got, off);
      slots := got;
      if last && parallelReads > 0 && w.WaveText? {
        LastWaveEnds(server.full, off, fileSize, parallelReads, slots, sizes);
      }
      if Answered(got) {
        NoError(got, "", off);
      }
    }

    /** The tiling check: no range may begin elsewhere than where the one before it ended. */
    method Tile(slots: seq<Slot>, off: nat) returns (w: Wave)
      requires server.Valid() && off <= server.size
      requires forall k :: 0 <= k < |slots| ==> SlotOk(server.full, server.size, slots[k])
      ensures w.WaveText? ==>
        && off + |w.text| == w.end <= server.size
        && w.text == server.full[off..w.end]
        && Aligned(w.text)
      ensures w == TileOf(slots, "", off)
    {
      hide SliceEndingAt, HasSuffix;
      var text, at := "", off;
      var i := 0;
      assert slots[0..] == slots;
      while i < |slots|
        invariant 0 <= i <= |slots|
        invariant at == off + |text| <= server.size && text == server.full[off..at] && Aligned(text)
        invariant TileOf(slots[i..], text, at) == TileOf(slots, "", off)
      {
        assert slots[i..][1..] == slots[i + 1..];
        if slots[i].Answer? {
          match slots[i].result
          case RangeUnsupported => return WaveFallback;
          case RangeError => return WaveError;
          case Range(piece) =>
            assert SlotOk(server.full, server.size, slots[i]);
            if piece.end - |piece.text| != at {
              return WaveFallback;
            }
            PieceFollows(server.full, server.size, off, text, at, piece);
            text := text + piece.text;
            at := piece.end;
        }
        i := i + 1;
      }
      return WaveText(text, at);
    }

    /** sink.Write; an empty batch is never written. */
    method SinkWrite(recs: seq<string>) returns (ok: bool)
      requires recs != []
      modifies `delivered, `faults
      ensures faults == old(faults) + if ok then 0 else 1
      ensures delivered == old(delivered) + recs || (!ok && delivered == old(delivered))
    {
      ok := *;
      var accepted: bool := *;
      if ok || accepted {
        delivered := delivered + recs;
      }
      faults := faults + if ok then 0 else 1;
    }

    /** sink.Write and store.Set of one wave. After an error either may have
        taken effect all the same. */
    method Ship(recs: seq<string>, next: nat) returns (ok: bool)
      modifies `delivered, `marker, `faults
      ensures faults == old(faults) + if ok then 0 else 1
      ensures ok ==> delivered == old(delivered) + recs && marker == Some(next)
      ensures delivered == old(delivered) || delivered == old(delivered) + recs
      ensures marker == old(marker) || (marker == Some(next) && delivered == old(delivered) + recs)
    {
      if |recs| > 0 {
        ok := SinkWrite(recs);
        if !ok {
          return;
        }
      }
      ok := *;
      faults := faults + if ok then 0 else 1;
      var persisted: bool := *;
      if ok || persisted {
        marker := Some(next);
      }
    }

    /** A wave's records, without the last unless this is the last wave, and
        where they end. Not usable: one giant record, or a last record that is
        not the end of the text as it stands. */
    method HoldBack(text: string, end: nat, last: bool) returns (usable: bool, recs: seq<string>, waveEnd: int)
      ensures usable == CanShip(p, text, last) && (usable ==> waveEnd == ShipsTo(p, text, end, last))
      ensures usable && last ==> recs == RecordsOf(p, text) && waveEnd == end
      ensures usable && !last ==>
        var all := RecordsOf(p, text);
        all != [] && HasSuffix(text, Tail(all)) && recs == Front(all) && waveEnd == end - |Tail(all)|
    {
      var leading;
      recs, leading := ParseRecords(p, text);
      waveEnd := end;
      if !last {
        if |recs| < 2 {
          return false, recs, waveEnd;
        }
        var tail := Last(recs) + [NL];
        if !HasSuffix(text, tail) {
          return false, recs, waveEnd;
        }
        waveEnd := waveEnd - |tail|;
        recs := Front(recs);
      }
      usable := true;
    }

    lemma WaveSlice(full: string, n: nat, fileSize: nat, off: nat, last: bool, slots: seq<Slot>, sizes: seq<nat>, w: Wave)
      requires WaveRead(full, n, fileSize, off, last, slots, sizes, w)
      ensures w.WaveText? ==> off + |w.text| == w.end <= |full| && w.text == full[off..w.end] && Aligned(w.text)
    {
    }

    /** One turn of the loop: read a wave, ship it, checkpoint it. */
    method ShipWave(off: nat, fileSize: nat, last: bool, ghost from: nat, ghost floor: nat, ghost committed: seq<string>)
      returns (r: Turn, next: nat, ghost run: WaveRun)
      requires server.Valid() && off < fileSize <= server.size && marker == Some(off)
      requires floor <= server.size && IsLineStart(server.full, floor)
      requires Refines(p, server.full, floor, from, off, committed, [])
      modifies this, server
      ensures server.Valid() && old(server.size) <= server.size
      ensures run.off == off && run.last == last && run.turn == r && run.next == next
      ensures WaveRunOk(p, server.full, parallelReads, fileSize, run)
      ensures SizesWithin(run, old(server.size), server.size)
      ensures delivered == old(delivered) + run.shipped + run.loose && marker == Some(next)
      ensures Reach(floor, run) <= server.size && IsLineStart(server.full, Reach(floor, run))
      ensures Refines(p, server.full, Reach(floor, run), from, next, committed + run.shipped, NewestOf(run))
      ensures faults >= old(faults) && server.faults >= old(server.faults)
      ensures r == Broken <==> run.w.WaveError? || faults > old(faults)
      ensures server.faults == old(server.faults) ==> Answered(run.slots) && !run.w.WaveError?
    {
      hide Refines, RecordsOf, HasSuffix, Tail, IsLineStart, Aligned, Answered, WaveRead;
      assert committed + [] == committed;
      RefinesToLineStart(p, server.full, floor, from, off, committed, []);
      var w;
      ghost var slots, sizes;
      w, slots, sizes := ReadWave(off, fileSize, last);
      r, next := Stopped, off;
      run := WaveRun(off, last, slots, sizes, w, Stopped, off, [], []);
      WaveSlice(server.full, parallelReads, fileSize, off, last, slots, sizes, w);
      RefinesReach(p, server.full, floor, from, off, committed, run);
      if w.WaveError? {
        r, run := Broken, run.(turn := Broken);
        return;
      }
      if w.WaveFallback? {
        return;
      }
      r, next, run := ShipText(w.text, w.end, fileSize, from, Reach(floor, run), committed, run, off, last);
    }

    /** The part of it behind the tiling check, `read` being what was read. */
    method ShipText(text: string, end: nat, ghost fileSize: nat, ghost from: nat, ghost floor: nat,
                    ghost committed: seq<string>, ghost read: WaveRun, off: nat, last: bool)
      returns (r: Turn, next: nat, ghost run: WaveRun)
      requires server.Valid() && off == read.off && last == read.last && marker == Some(off) && read.w == WaveText(text, end) && end <= floor
      requires WaveRead(server.full, parallelReads, fileSize, read.off, read.last, read.slots, read.sizes, read.w)
      requires Refines(p, server.full, floor, from, read.off, committed, [])
      modifies this
      ensures run == read.(turn := r, next := next, shipped := run.shipped, loose := run.loose)
      ensures WaveRunOk(p, server.full, parallelReads, fileSize, run)
      ensures delivered == old(delivered) + run.shipped + run.loose && marker == Some(next)
      ensures Refines(p, server.full, floor, from, next, committed + run.shipped, NewestOf(run))
      ensures faults >= old(faults) && (r == Broken <==> faults > old(faults))
    {
      hide Refines, RecordsOf, HasSuffix, Tail, IsLineStart, Aligned, WaveRead;
      WaveSlice(server.full, parallelReads, fileSize, off, last, read.slots, read.sizes, read.w);
      assert committed + [] == committed;
      r, next, run := Stopped, off, read.(turn := Stopped, next := off, shipped := [], loose := []);
      var usable, recs, waveEnd := HoldBack(text, end, last);
      if !usable || waveEnd <= off {
        return;
      }
      WaveDone(p, server.full, floor, from, off, committed, text, last);
      var ok;
      ghost var shipped, loose;
      ok, next, shipped, loose := Commit(off, recs, waveEnd);
      r := if ok then Advanced else Broken;
      run := run.(turn := r, next := next, shipped := shipped, loose := loose);
    }

    /** Ship a wave's records; `next` is the checkpoint that is then in place. */
    method Commit(off: nat, recs: seq<string>, waveEnd: nat)
      returns (ok: bool, next: nat, ghost shipped: seq<string>, ghost loose: seq<string>)
      requires marker == Some(off) && off < waveEnd
      modifies `delivered, `marker, `faults
      ensures faults == old(faults) + if ok then 0 else 1
      ensures delivered == old(delivered) + shipped + loose
      ensures marker == Some(next) && (ok ==> next == waveEnd)
      ensures (next == waveEnd && shipped == recs && loose == []) || (next == off && shipped == [])
      ensures loose == [] || loose == recs
    {
      ok := Ship(recs, waveEnd);
      if marker == Some(waveEnd) {
        next, shipped, loose := waveEnd, recs, [];
      } else {
        next, shipped, loose := off, [], if delivered == old(delivered) then [] else recs;
      }
    }

    /** What holds of a drain whose waves so far are `runs`: what was shipped up to the
        checkpoint is what they shipped, each did what it had to on what it read,
        and a sequential read from the checkpoint gives the rest. */
    ghost predicate Underway(fileSize: nat, from: nat, size: nat, before: seq<string>, runs: seq<WaveRun>)
      reads this, server
    {
      && server.Valid() && size <= server.size && fileSize <= server.size && marker.Some?
      && delivered == before + AllShipped(runs) + LooseOf(runs)
      && Chain(p, server.full, parallelReads, fileSize, runs, from, marker.value)
      && Refines(p, server.full, ReadTo(runs, from), from, marker.value, AllShipped(runs), Newest(runs))
      && ReadTo(runs, from) <= server.size && IsLineStart(server.full, ReadTo(runs, from))
      && AllWithin(runs, size, server.size)
    }

    /** The next wave of a drain. */
    method NextWave(fileSize: nat, ghost from: nat, ghost size: nat, ghost before: seq<string>, ghost runs: seq<WaveRun>)
      returns (turn: Turn, last: bool, ghost runs': seq<WaveRun>)
      requires Underway(fileSize, from, size, before, runs) && GoesOn(runs) && parallelReads > 1
      requires fileSize - marker.value >= parallelReads * PARALLEL_SEGMENT / 2
      modifies this, server
      ensures Underway(fileSize, from, size, before, runs')
      ensures turn == Advanced && !last ==> GoesOn(runs') && old(marker).value < marker.value
      ensures turn == Stopped || (turn == Advanced && last) ==>
        Finished(parallelReads, fileSize, runs', marker.value) && LooseOf(runs') == []
      ensures faults >= old(faults) && server.faults >= old(server.faults)
      ensures turn == Broken ==> faults > old(faults) || server.faults > old(server.faults)
      ensures faults > old(faults) ==> turn == Broken
      ensures server.faults == old(server.faults) && AllAnswered(runs) ==> AllAnswered(runs')
    {
      hide Refines, WaveRunOk, SizesWithin, Answered, AllShipped, Chain, Newest, NewestOf, Finished, AllWithin, AllAnswered,
           ReadTo, Reach;
      NothingNewest(runs);
      var off := marker.value;
      last := off + parallelReads * PARALLEL_SEGMENT >= fileSize;
      var next;
      ghost var run;
      ghost var size' := server.size;
      turn, next, run := ShipWave(off, fileSize, last, from, ReadTo(runs, from), AllShipped(runs));
      runs' := runs + [run];
      WithinMore(runs, run, size, size', server.size);
      ChainMore(p, server.full, parallelReads, fileSize, runs, from, off, run);
      AnsweredMore(runs, run);
    }

    lemma NothingLeft(fileSize: nat, from: nat, size: nat, before: seq<string>, runs: seq<WaveRun>)
      requires Underway(fileSize, from, size, before, runs) && parallelReads > 0
      ensures runs != [] && Last(runs).last && Last(runs).turn == Advanced ==>
        marker.value >= AfterLastNL(server.full[..size]) && Newest(runs) == RecordsOf(p, Last(runs).w.text)
    {
      hide Chain, Refines, AllWithin, AfterLastNL, RecordsOf, Newest, AllShipped, ReadTo;
      if runs != [] && Last(runs).last && Last(runs).turn == Advanced {
        LastWaveLeavesNothing(p, server.full, parallelReads, fileSize, runs, from, marker.value, size, server.size);
      }
    }

    /** parallelDrain, with fileSize the size the listing gave. `runs` are its waves, in
        order. It only ends before the backlog is small when a wave read to the end
        of the file, could not be used or failed, or when it was cut off. */
    method Drain(fileSize: nat) returns (r: Outcome, ghost runs: seq<WaveRun>)
      requires server.Valid() && fileSize <= server.size && parallelReads > 1
      requires marker.Some? ==> marker.value <= server.size && IsLineStart(server.full, marker.value)
      modifies this, server
      ensures server.Valid() && old(server.size) <= server.size
      ensures old(marker).None? ==> r == Done && runs == [] && marker.None? && delivered == old(delivered)
      ensures old(marker).Some? ==> Underway(fileSize, old(marker).value, old(server.size), old(delivered), runs)
      ensures old(marker).Some? && r == Done ==>
        Finished(parallelReads, fileSize, runs, marker.value) && LooseOf(runs) == []
      ensures old(marker).Some? && runs != [] && Last(runs).last && Last(runs).turn == Advanced ==>
        marker.value >= AfterLastNL(server.full[..old(server.size)]) && Newest(runs) == RecordsOf(p, Last(runs).w.text)
      ensures faults > old(faults) ==> r == Failed
      ensures r == Failed ==> faults > old(faults) || server.faults > old(server.faults)
      ensures server.faults == old(server.faults) ==> AllAnswered(runs)
    {
      hide Chain, Finished, AllAnswered, AllWithin, Refines, ReadTo, AfterLastNL, RecordsOf, Newest;
      runs := [];
      ghost var from, size, before := marker.GetOr(0), server.size, delivered;
      NoWavesYet(p, server.full, server.size, parallelReads, fileSize, from);
      if marker.None? {
        return Done, [];
      }
      assert delivered == before + AllShipped([]) + LooseOf([]);
      while fileSize - marker.value >= parallelReads * PARALLEL_SEGMENT / 2
        invariant Underway(fileSize, from, size, before, runs) && GoesOn(runs)
        invariant faults == old(faults) && server.faults >= old(server.faults)
        invariant server.faults == old(server.faults) ==> AllAnswered(runs)
        decreases fileSize - marker.value
      {
        var cancelled: bool := *;
        if cancelled {
          faults := faults + 1;
          return Failed, runs;
        }
        var turn, last;
        turn, last, runs := NextWave(fileSize, from, size, before, runs);
        NothingLeft(fileSize, from, size, before, runs);
        if turn == Broken {
          return Failed, runs;
        }
        if turn == Stopped || last {
          return Done, runs;
        }
      }
      EndedSmall(parallelReads, fileSize, runs, marker.value);
      return Done, runs;
    }
  }
}
