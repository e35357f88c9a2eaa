/** Byte-range reads of a growing log file (ReadRange and cutRange in
    internal/source/rds/fetcher.go). */
module RangeRead {
  import opened Text
  import opened Wrappers

  /** strings.IndexByte(t[from:], '\n') + from, when there is one. */
  function IndexNL(t: string, from: nat): (r: Option<nat>)
    requires from <= |t|
    ensures r.Some? ==> from <= r.value < |t| && t[r.value] == NL
    ensures forall j :: from <= j < (if r.Some? then r.value else |t|) ==> t[j] != NL
    decreases |t| - from
  {
    if from == |t| then None else if t[from] == NL then Some(from) else IndexNL(t, from + 1)
  }

  predicate IsLineStart(t: string, k: int) { k == 0 || (0 < k <= |t| && t[k - 1] == NL) }

  /** The first line start at or after k. */
  function FirstStart(t: string, k: nat): (r: Option<nat>)
    ensures r.Some? ==> k <= r.value <= |t| && IsLineStart(t, r.value)
    ensures forall j :: k <= j < (if r.Some? then r.value else |t| + 1) ==> !IsLineStart(t, j)
    decreases |t| - k
  {
    if IsLineStart(t, k) then Some(k) else if k >= |t| then None else FirstStart(t, k + 1)
  }

  /** The lines of t that start in [start, end), or from start on when end < 0:
      their text and where it ends. An incomplete last line is left out. */
  datatype Piece = Piece(text: string, end: int)

  function RangeEnd(t: string, end: int): (r: nat)
    ensures r <= |t|
  {
    if end >= 0 && FirstStart(t, end).Some? then FirstStart(t, end).value else AfterLastNL(t)
  }

  function RangeOf(t: string, start: nat, end: int): Piece
  {
    var s, e := FirstStart(t, start), RangeEnd(t, end);
    if s.None? then Piece("", start - 1)
    else if e < s.value then Piece("", s.value)
    else Piece(t[s.value..e], e)
  }

  // -------------------------------------------------- what the pieces are worth

  lemma LineStartsArePrefixStable(t: string, n: nat, k: nat)
    requires n <= |t|
    ensures FirstStart(t[..n], k).Some? ==> FirstStart(t, k) == FirstStart(t[..n], k)
  {
    if FirstStart(t[..n], k).Some? {
      var r := FirstStart(t[..n], k).value;
      assert forall j :: k <= j <= r ==> (IsLineStart(t, j) <==> IsLineStart(t[..n], j));
    }
  }

  lemma LastStartIsLast(t: string)
    ensures IsLineStart(t, AfterLastNL(t))
    ensures forall j :: IsLineStart(t, j) ==> j <= AfterLastNL(t)
  {
  }

  /** A range owns a complete line exactly when the line starts inside it. */
  lemma RangeOwnsItsLines(t: string, start: nat, end: int, k: int)
    requires 0 <= end ==> start < end
    requires IsLineStart(t, k) && k < AfterLastNL(t)
    ensures var r := RangeOf(t, start, end);
      (start <= k && (end < 0 || k < end)) <==> (r.end - |r.text| <= k < r.end)
  {
  }

  /** Where a range begins and ends, when a line starts past it. */
  lemma RangeBounds(t: string, a: nat, b: int)
    requires FirstStart(t, a).Some?
    ensures var x := RangeOf(t, a, b); x.end - |x.text| == FirstStart(t, a).value
    ensures a < b && FirstStart(t, b).Some? ==> RangeOf(t, a, b).end == FirstStart(t, b).value
  {
  }

  /** Adjacent ranges of one text tile - the second begins exactly where the first
      ended - if and only if a line starts at or after the cut, or the incomplete
      last line starts one byte before it. */
  lemma AdjacentRangesTile(t: string, a: nat, b: nat, c: int)
    requires a < b && (0 <= c ==> b < c)
    ensures var x, y := RangeOf(t, a, b), RangeOf(t, b, c);
      y.end - |y.text| == x.end <==> FirstStart(t, b).Some? || AfterLastNL(t) == b - 1
  {
    LastStartIsLast(t);
    if FirstStart(t, b).Some? {
      var m := FirstStart(t, b).value;
      assert FirstStart(t, a).Some? by {
        assert IsLineStart(t, m) && a <= m <= |t|;
      }
      RangeBounds(t, a, b);
      RangeBounds(t, b, c);
    } else if FirstStart(t, a).Some? {
      assert FirstStart(t, a).value <= AfterLastNL(t) < b;
    } else {
      assert !IsLineStart(t, b - 1);
    }
  }

  /** A file that is one incomplete line: no line starts past the cut, and the second
      range begins one byte past where the first ended. */
  lemma LongLastLineDoesNotTile()
    ensures var x, y := RangeOf("abc", 0, 2), RangeOf("abc", 2, -1);
      x == Piece("", 0) && y == Piece("", 1) && y.end - |y.text| != x.end
  {
    assert !IsLineStart("abc", 2) && !IsLineStart("abc", 3);
    assert FirstStart("abc", 3) == None && FirstStart("abc", 2) == None && FirstStart("abc", 0) == Some(0);
    assert AfterLastNL("abc") == 0;
  }

  /** Ranges read at different times tile too, if a line then started at or after
      the cut in both versions of the file. */
  lemma RangesTileAcrossGrowth(t: string, n: nat, n': nat, a: nat, b: nat, c: int)
    requires n <= |t| && n' <= |t| && a < b && (0 <= c ==> b < c)
    requires FirstStart(t[..n], b).Some? && FirstStart(t[..n'], b).Some?
    ensures var x, y := RangeOf(t[..n], a, b), RangeOf(t[..n'], b, c); y.end - |y.text| == x.end
  {
    LineStartsArePrefixStable(t, n, b);
    LineStartsArePrefixStable(t, n', b);
    var m := FirstStart(t[..n], b).value;
    assert FirstStart(t[..n], a).Some? by {
      assert IsLineStart(t[..n], m) && a <= m <= n;
    }
    RangeBounds(t[..n], a, b);
    RangeBounds(t[..n'], b, c);
  }

  /** A line longer than a range makes that range empty. */
  lemma LongLineEmptiesRange(t: string, a: nat, b: nat)
    requires a < b <= |t| && forall j :: a <= j < b ==> !IsLineStart(t, j)
    ensures RangeOf(t, a, b).text == ""
  {
  }

  /** `text` is a slice of t that ends at byte `end` and holds whole lines. */
  predicate SliceEndingAt(t: string, text: string, end: int)
  {
    |text| <= end <= |t| && text == t[end - |text|..end] && (text != "" ==> text[|text| - 1] == NL)
  }

  /** A non-empty range is such a slice of every later version of the file. */
  lemma RangeIsSlice(t: string, n: nat, start: nat, end: int)
    requires n <= |t|
    ensures var r := RangeOf(t[..n], start, end);
      0 <= r.end && (r.text != "" ==> r.end <= n && SliceEndingAt(t, r.text, r.end))
  {
    hide FirstStart, AfterLastNL;
    var u := t[..n];
    var s, e := FirstStart(u, start), RangeEnd(u, end);
    assert IsLineStart(u, 0);
    if s.Some? && s.value < e {
      assert IsLineStart(u, e);
      PrefixSlice(t, n, s.value, e);
      assert u[s.value..e][e - s.value - 1] == u[e - 1];
    }
  }

  lemma PrefixSlice(t: string, n: nat, a: nat, b: nat)
    requires a <= b <= n <= |t|
    ensures t[..n][a..b] == t[a..b]
  {
    var x, y := t[..n][a..b], t[a..b];
    assert forall k :: 0 <= k < b - a ==> x[k] == y[k];
  }

  // ------------------------------------------------------------- the server

  /** One download. next is the byte offset of the reply's marker, if it has one. */
  datatype Reply = Error | Portion(data: string, next: Option<nat>, pending: bool, truncated: bool)

  /** A log file as RDS serves it: any non-empty part of what follows the
      marker, while the file grows towards `full`. */
  class LogServer {
    const full: string
    var size: nat

    /** How many replies were errors or could not be used. */
    ghost var faults: nat

    ghost predicate Valid() reads this { size <= |full| }

    constructor (full: string, size: nat)
      requires size <= |full|
      ensures Valid() && this.full == full && this.size == size
    {
      this.full, this.size, faults := full, size, 0;
    }

    /** pullRaw at a byte offset. Replies may fail, be truncated, or carry a
        marker that is no offset or not where the data ends - but for an empty
        last one, whose marker may be any; any other reply is an honest part of
        the file. */
    method PullRaw(pos: nat) returns (r: Reply)
      requires Valid()
      modifies this
      ensures Valid() && old(size) <= size
      ensures r.Portion? && Straight(r, pos) ==> Honest(full[..size], pos, r)
      ensures faults == old(faults) + if r.Portion? && Straight(r, pos) then 0 else 1
    {
      var more: nat :| size + more <= |full|;
      size := size + more;
      var kind := *;
      if kind == 0 {
        r := Error;
      } else if kind == 1 {
        var data, next, pending, truncated := *, *, *, *;
        r := Portion(data, next, pending, truncated);
        if Straight(r, pos) {
          r := Error;
        }
      } else if pos >= size {
        var next := *;
        r := Portion("", next, false, false);
      } else {
        var n: nat :| 0 < n <= size - pos;
        r := Portion(full[pos..pos + n], Some(pos + n), pos + n < size, false);
        SliceOfSlice(full, 0, full[..size], pos, pos + n);
      }
      faults := faults + if r.Portion? && Straight(r, pos) then 0 else 1;
    }
  }

  /** The guard behind ErrRangeUnsupported. */
  predicate Unusable(r: Reply, pos: nat)
    requires r.Portion?
  {
    r.truncated || r.next.None? || (r.next.value != pos + |r.data| && (r.pending || |r.data| > 0))
  }

  /** A reply that can be placed: whole, with an offset for a marker, which is where
      its data ends unless it is the empty end of the file. */
  predicate Straight(r: Reply, pos: nat)
    requires r.Portion?
  {
    !r.truncated && r.next.Some? && (r.next.value == pos + |r.data| || (!r.pending && r.data == ""))
  }

  predicate Honest(t: string, pos: nat, r: Reply)
    requires r.Portion?
  {
    if pos >= |t| then r.data == "" && !r.pending
    else 0 < |r.data| <= |t| - pos && r.data == t[pos..pos + |r.data|] && r.pending == (pos + |r.data| < |t|)
  }

  // ---------------------------------------------------------------- ReadRange

  datatype RangeResult = RangeError | RangeUnsupported | Range(piece: Piece)

  /** cutRange. */
  function CutRange(text: string, bufStart: nat, lineStart: bool, endIdx: nat): Piece
    requires endIdx <= |text|
  {
    if lineStart then Piece(text[..endIdx], bufStart + endIdx)
    else
      var i := IndexNL(text, 0);
      if i.None? then Piece("", bufStart + endIdx)
      else if endIdx < i.value + 1 then Piece("", bufStart + i.value + 1)
      else Piece(text[i.value + 1..endIdx], bufStart + endIdx)
  }

  /** What was downloaded from position b on. */
  predicate Buffered(t: string, b: nat, buf: string) { b + |buf| <= |t| && buf == t[b..b + |buf|] }

  /** A newline in the buffer shows where the next line starts. */
  lemma BufferStart(t: string, b: nat, buf: string, k: nat, from: nat)
    requires Buffered(t, b, buf)
    requires from <= |buf| && k == b + from + 1
    ensures IndexNL(buf, from).Some? ==> FirstStart(t, k) == Some(b + IndexNL(buf, from).value + 1)
    ensures IndexNL(buf, from).None? && b + |buf| == |t| ==> FirstStart(t, k) == None
  {
    assert forall j :: 0 <= j < |buf| ==> buf[j] == t[b + j];
    var i := IndexNL(buf, from);
    if i.Some? {
      var r := b + i.value + 1;
      assert IsLineStart(t, r);
      forall j | k <= j < r ensures !IsLineStart(t, j) {
        assert buf[j - 1 - b] == t[j - 1];
      }
    } else if b + |buf| == |t| {
      forall j | k <= j <= |t| ensures !IsLineStart(t, j) {
        assert buf[j - 1 - b] == t[j - 1];
      }
    }
  }

  /** The buffer's last complete line is the file's, when it reaches that far. */
  lemma BufferEnd(t: string, b: nat, buf: string)
    requires b <= |t| && buf == t[b..]
    ensures AfterLastNL(buf) > 0 || IsLineStart(t, b) ==> AfterLastNL(t) == b + AfterLastNL(buf)
  {
  }

  lemma NothingYet(t: string, b: nat)
    requires b <= |t|
    ensures Buffered(t, b, "")
  {
  }

  lemma WholeBuffer(t: string, b: nat, buf: string)
    requires b <= |t| && buf == t[b..]
    ensures Buffered(t, b, buf)
  {
    assert t[b..b + |buf|] == t[b..];
  }

  /** Where a range read starts buffering. */
  function BufferAt(start: nat, lineStart: bool): int { if lineStart then start else start - 1 }

  lemma IndexFromStart(t: string, from: nat)
    requires from <= |t|
    ensures IndexNL(t, from).Some? ==> IndexNL(t, 0).Some?
  {
  }

  lemma SliceOfSlice(t: string, b: nat, buf: string, i: nat, j: nat)
    requires Buffered(t, b, buf) && i <= j <= |buf|
    ensures b + |buf| <= |t| && buf[i..j] == t[b + i..b + j]
  {
    var x, y := buf[i..j], t[b + i..b + j];
    assert forall k :: 0 <= k < j - i ==> x[k] == y[k];
  }

  /** What the cut should leave, given the first line start of the range. */
  function CutAt(t: string, s: Option<nat>, e: nat): Piece
    requires e <= |t|
  {
    if s.None? then Piece("", e) else if s.value <= e then Piece(t[s.value..e], e) else Piece("", s.value)
  }

  /** The cut finds the first line start of the range. */
  lemma CutStart(t: string, start: nat, lineStart: bool, buf: string, endIdx: nat)
    requires var b := BufferAt(start, lineStart);
      && 0 <= b && (lineStart ==> IsLineStart(t, start)) && Buffered(t, b, buf) && b + |buf| <= |t|
      && endIdx <= |buf| && (IndexNL(buf, 0).Some? || b + |buf| == |t|)
    ensures var b := BufferAt(start, lineStart);
      CutRange(buf, b, lineStart, endIdx) == CutAt(t, FirstStart(t, start), b + endIdx)
  {
    hide Buffered, CutRange, CutAt, IndexNL, FirstStart, IsLineStart;
    if lineStart {
      CutStartHere(t, start, buf, endIdx);
    } else {
      CutStartEarly(t, start - 1, buf, endIdx);
    }
  }

  lemma CutStartHere(t: string, start: nat, buf: string, endIdx: nat)
    requires IsLineStart(t, start) && Buffered(t, start, buf) && start + |buf| <= |t| && endIdx <= |buf|
    ensures CutRange(buf, start, true, endIdx) == CutAt(t, FirstStart(t, start), start + endIdx)
  {
    hide Buffered, IndexNL;
    SliceOfSlice(t, start, buf, 0, endIdx);
    assert t[start + 0..start + endIdx] == t[start..start + endIdx] && buf[0..endIdx] == buf[..endIdx];
  }

  lemma CutStartEarly(t: string, b: nat, buf: string, endIdx: nat)
    requires Buffered(t, b, buf) && b + |buf| <= |t| && endIdx <= |buf|
    requires IndexNL(buf, 0).Some? || b + |buf| == |t|
    ensures CutRange(buf, b, false, endIdx) == CutAt(t, FirstStart(t, b + 1), b + endIdx)
  {
    hide Buffered, IndexNL, FirstStart, IsLineStart, CutRange, CutAt;
    BufferStart(t, b, buf, b + 1, 0);
    var i := IndexNL(buf, 0);
    if i.Some? && i.value + 1 <= endIdx {
      SliceOfSlice(t, b, buf, i.value + 1, endIdx);
      CutLines(t, b, buf, endIdx, i.value);
    } else {
      CutNothing(t, b, buf, endIdx, FirstStart(t, b + 1));
    }
  }

  lemma CutLines(t: string, b: nat, buf: string, endIdx: nat, i: nat)
    requires IndexNL(buf, 0) == Some(i) && i + 1 <= endIdx <= |buf| && b + endIdx <= |t|
    requires buf[i + 1..endIdx] == t[b + (i + 1)..b + endIdx]
    ensures CutRange(buf, b, false, endIdx) == CutAt(t, Some(b + i + 1), b + endIdx)
  {
    hide IndexNL;
  }

  lemma CutNothing(t: string, b: nat, buf: string, endIdx: nat, s: Option<nat>)
    requires endIdx <= |buf| && b + endIdx <= |t|
    requires IndexNL(buf, 0).Some? ==> endIdx < IndexNL(buf, 0).value + 1 && s == Some(b + IndexNL(buf, 0).value + 1)
    requires IndexNL(buf, 0).None? ==> s == None
    ensures CutRange(buf, b, false, endIdx) == CutAt(t, s, b + endIdx)
  {
    hide IndexNL;
  }

  /** Cutting what was downloaded so far, once the line that reaches past `end` is complete. */
  lemma CutClosed(t: string, start: nat, end: nat, lineStart: bool, buf: string, from: nat)
    requires var b := BufferAt(start, lineStart);
      && 0 <= b && start < end && (lineStart ==> IsLineStart(t, start))
      && Buffered(t, b, buf) && b + |buf| <= |t|
      && from == end - 1 - b < |buf|
      && IndexNL(buf, from).Some?
    ensures CutRange(buf, BufferAt(start, lineStart), lineStart, IndexNL(buf, from).value + 1) == RangeOf(t, start, end)
  {
    hide Buffered, IndexNL, FirstStart, CutRange;
    var b: nat := BufferAt(start, lineStart);
    BufferStart(t, b, buf, end, from);
    IndexFromStart(buf, from);
    CutStart(t, start, lineStart, buf, IndexNL(buf, from).value + 1);
    assert FirstStart(t, start).Some? by {
      assert IsLineStart(t, FirstStart(t, end).value);
    }
  }

  /** Cutting at the end of the file, when no such line is. */
  lemma CutAtEof(t: string, start: nat, end: int, lineStart: bool, buf: string)
    requires var b := BufferAt(start, lineStart);
      && 0 <= b <= |t| && (0 <= end ==> start < end) && (lineStart ==> IsLineStart(t, start))
      && buf == t[b..]
      && (0 <= end && end - 1 - b < |buf| ==> IndexNL(buf, end - 1 - b).None?)
    ensures CutRange(buf, BufferAt(start, lineStart), lineStart, AfterLastNL(buf)) == RangeOf(t, start, end)
  {
    hide Buffered, IndexNL, FirstStart, CutRange;
    var b: nat := BufferAt(start, lineStart);
    WholeBuffer(t, b, buf);
    CutStart(t, start, lineStart, buf, AfterLastNL(buf));
    BufferEnd(t, b, buf);
    if 0 <= end {
      if end - 1 - b <= |buf| {
        BufferStart(t, b, buf, end, end - 1 - b);
      }
      assert FirstStart(t, end).None?;
    }
    if !lineStart {
      BufferStart(t, b, buf, start, 0);
      if IndexNL(buf, 0).None? {
        assert AfterLastNL(buf) == 0;
      }
    }
    LastStartIsLast(t);
  }

  lemma AppendData(full: string, seen: nat, b: nat, buf: string, pos: nat, raw: Reply)
    requires raw.Portion? && !Unusable(raw, pos) && seen <= |full| && Honest(full[..seen], pos, raw)
    requires pos == b + |buf| <= seen && Buffered(full, b, buf)
    ensures pos + |raw.data| <= seen
    ensures Buffered(full, b, buf + raw.data) && Buffered(full[..seen], b, buf + raw.data)
    ensures !raw.pending || |raw.data| == 0 ==> buf + raw.data == full[..seen][b..]
  {
    var pos' := pos + |raw.data|;
    PrefixSlice(full, seen, pos, pos');
    PrefixSlice(full, seen, b, pos');
    assert raw.data == full[pos..pos'];
    SlicesJoin(full, b, pos, pos');
    assert !raw.pending || |raw.data| == 0 ==> pos' == seen;
  }

  lemma SlicesJoin(t: string, a: nat, b: nat, c: nat)
    requires a <= b <= c <= |t|
    ensures t[a..b] + t[b..c] == t[a..c]
  {
  }

  /** ReadRange, from a known line start or from one byte early. `seen` is the
      size the file had at the last download. */
  method ReadRange(server: LogServer, start: nat, end: int, lineStart: bool)
    returns (r: RangeResult, ghost seen: nat)
    requires server.Valid() && start <= server.size
    requires 0 <= end ==> start < end
    requires if lineStart then IsLineStart(server.full, start) else start > 0
    modifies server
    ensures server.Valid() && old(server.size) <= seen <= server.size
    ensures r.Range? ==> r.piece == RangeOf(server.full[..seen], start, end)
    ensures server.faults >= old(server.faults) && (r.Range? <==> server.faults == old(server.faults))
  {
    hide Buffered, IndexNL, FirstStart, CutRange, RangeOf, AfterLastNL, Honest;
    var pos := if lineStart then start else start - 1;
    var bufStart := pos;
    var buf := "";
    NothingYet(server.full, bufStart);
    seen := server.size;
    while true
      invariant server.Valid() && old(server.size) <= seen <= server.size
      invariant pos == bufStart + |buf| <= server.size && server.faults == old(server.faults)
      invariant Buffered(server.full, bufStart, buf)
      decreases |server.full| - pos
    {
      var raw := server.PullRaw(pos);
      seen := server.size;
      if raw.Error? {
        return RangeError, seen;
      }
      if Unusable(raw, pos) {
        return RangeUnsupported, seen;
      }
      ghost var t := server.full[..seen];
      AppendData(server.full, seen, bufStart, buf, pos, raw);
      buf := buf + raw.data;
      pos := pos + |raw.data|;
      if end >= 0 {
        var from := if end - 1 - bufStart > 0 then end - 1 - bufStart else 0;
        if from < |buf| {
          var i := IndexNL(buf, from);
          if i.Some? {
            CutClosed(t, start, end, lineStart, buf, from);
            return Range(CutRange(buf, bufStart, lineStart, i.value + 1)), seen;
          }
        }
      }
      if !raw.pending || |raw.data| == 0 {
        CutAtEof(t, start, end, lineStart, buf);
        return Range(CutRange(buf, bufStart, lineStart, AfterLastNL(buf))), seen;
      }
    }
  }
}
