/** A fixed log served in chunks of whole lines, and the places in it where
    entries and chunks begin. Positions count non-blank lines. */
module LogLayout {
  import opened Text
  import opened Records

  predicate AlignedChunks(log: seq<string>) { forall i :: 0 <= i < |log| ==> Aligned(log[i]) }

  /** The lines of the first i chunks. */
  function LinesTo(log: seq<string>, i: nat): seq<string>
    requires i <= |log|
  {
    if i == 0 then [] else LinesTo(log, i - 1) + Lines(log[i - 1])
  }

  function AllLines(log: seq<string>): seq<string> { LinesTo(log, |log|) }

  /** The position at which chunk i begins. */
  function Off(log: seq<string>, i: nat): nat requires i <= |log| { |LinesTo(log, i)| }

  lemma {:induction false} LinesToPrefix(log: seq<string>, i: nat, j: nat)
    requires i <= j <= |log|
    ensures LinesTo(log, i) <= LinesTo(log, j)
    ensures Off(log, i) <= Off(log, j)
  {
    if i < j {
      LinesToPrefix(log, i, j - 1);
    }
  }

  /** Chunk i holds the lines from its own position to the next chunk's. */
  lemma ChunkLines(log: seq<string>, i: nat)
    requires i < |log|
    ensures Off(log, i) <= Off(log, i + 1) <= |AllLines(log)|
    ensures AllLines(log)[Off(log, i)..Off(log, i + 1)] == Lines(log[i])
  {
    LinesToPrefix(log, i + 1, |log|);
    assert LinesTo(log, i + 1)[Off(log, i)..] == Lines(log[i]);
    assert AllLines(log)[..Off(log, i + 1)] == LinesTo(log, i + 1);
  }

  /** The chunk at a marker; past the end there is nothing. */
  function ChunkAt(log: seq<string>, cur: nat): string { if cur < |log| then log[cur] else "" }

  function NextMarker(log: seq<string>, cur: nat): nat { if cur < |log| then cur + 1 else cur }

  /** The text of a log in one piece. */
  function Concat(log: seq<string>): string { Flatten(log) }

  /** Where the chunks are cut does not matter to the lines. */
  lemma {:induction false} LinesOfConcat(log: seq<string>)
    requires AlignedChunks(log)
    ensures Lines(Concat(log)) == AllLines(log)
    decreases |log|
  {
    if log != [] {
      var a, c := Front(log), Last(log);
      FlattenLast(log);
      LinesOfConcat(a);
      AlignedConcat(a);
      LinesConcat(Concat(a), c);
      LinesToFront(log, |a|);
    }
  }

  lemma {:induction false} LinesToFront(log: seq<string>, i: nat)
    requires i < |log|
    ensures LinesTo(Front(log), i) == LinesTo(log, i)
  {
    if i > 0 {
      LinesToFront(log, i - 1);
    }
  }

  lemma {:induction false} AlignedConcat(log: seq<string>)
    requires AlignedChunks(log)
    ensures Aligned(Concat(log))
  {
    if log != [] {
      AlignedConcat(log[1..]);
    }
  }

  // ------------------------------------------------------------ entry starts

  /** A position between entries. */
  predicate Boundary(p: Parser, l: seq<string>, k: nat)
  {
    k == 0 || k == |l| || (k < |l| && p.Starts(l[k]))
  }

  /** The number of entries that begin before position k. */
  function EntriesBefore(p: Parser, l: seq<string>, k: nat): nat
    requires k <= |l|
  {
    |Entries(p, l[..k])|
  }

  lemma BoundarySplit(p: Parser, l: seq<string>, a: nat, k: nat, b: nat)
    requires a <= k <= b <= |l| && Boundary(p, l, k)
    ensures Entries(p, l[a..b]) == Entries(p, l[a..k]) + Entries(p, l[k..b])
  {
    assert l[a..b] == l[a..k] + l[k..b];
    EntriesSplit(p, l[a..k], l[k..b]);
  }

  /** What lies between two boundaries is a run of whole entries. */
  lemma WholeEntries(p: Parser, l: seq<string>, a: nat, b: nat)
    requires a <= b <= |l| && Boundary(p, l, a) && Boundary(p, l, b)
    ensures EntriesBefore(p, l, a) <= EntriesBefore(p, l, b) <= |EntryMessages(p, l)|
    ensures EntryMessages(p, l[a..b]) == EntryMessages(p, l)[EntriesBefore(p, l, a)..EntriesBefore(p, l, b)]
  {
    hide Entries, Boundary;
    BoundarySplit(p, l, 0, b, |l|);
    BoundarySplit(p, l, 0, a, b);
    assert l[0..|l|] == l && l[0..b] == l[..b] && l[0..a] == l[..a];
    var es := Entries(p, l);
    assert es[EntriesBefore(p, l, a)..EntriesBefore(p, l, b)] == Entries(p, l[a..b]);
  }

  /** The last entry of some lines: where it begins, and that it is one. */
  lemma {:induction false} LastEntry(p: Parser, l: seq<string>)
    requires l != []
    ensures var es := Entries(p, l);
      var k := |l| - |Last(es)|;
      && 0 <= k < |l|
      && (k == 0 || p.Starts(l[k]))
      && Entries(p, l[..k]) == Front(es)
      && Entries(p, l[k..]) == [Last(es)]
    decreases |l|
  {
    hide Entries;
    var a, x := Front(l), Last(l);
    assert l == a + [x];
    EntriesSingle(p, x);
    if a == [] || p.Starts(x) {
      EntriesSplit(p, a, [x]);
      assert l[..|a|] == a && l[|a|..] == [x];
    } else {
      LastEntry(p, a);
      var ea := Entries(p, a);
      var k := |a| - |Last(ea)|;
      EntriesMerge(p, a, [x]);
      EntriesMerge(p, a[k..], [x]);
      assert l[..k] == a[..k] && l[k..] == a[k..] + [x];
    }
  }

  /** The entries hold every line, in order. */
  lemma {:induction false} EntriesHoldAll(p: Parser, l: seq<string>)
    ensures Flatten(Entries(p, l)) == l
    decreases |l|
  {
    if l != [] {
      EntriesHoldAll(p, l[1..]);
      var es := Entries(p, l[1..]);
      assert l == [l[0]] + l[1..];
      EntriesUnfold(p, l[0], l[1..]);
      assert Flatten([[l[0]]] + es) == [l[0]] + Flatten(es);
      if es != [] {
        assert Flatten([[l[0]] + es[0]] + es[1..]) == ([l[0]] + es[0]) + Flatten(es[1..]);
      }
    }
  }

  /** Lines none of which but the first may start an entry are one entry. */
  lemma {:induction false} OneEntry(p: Parser, l: seq<string>)
    requires l != [] && forall i :: 1 <= i < |l| ==> !p.Starts(l[i])
    ensures |Entries(p, l)| == 1
    decreases |l|
  {
    assert l == [l[0]] + l[1..];
    EntriesUnfold(p, l[0], l[1..]);
    if |l| > 1 {
      OneEntry(p, l[1..]);
    }
  }

  /** The first position at or after k where an entry starts. */
  function FirstStart(p: Parser, l: seq<string>, k: nat): (r: nat)
    requires k <= |l|
    ensures k <= r <= |l| && Boundary(p, l, r)
    ensures forall i :: k <= i < r ==> !p.Starts(l[i])
    decreases |l| - k
  {
    if k == |l| || p.Starts(l[k]) then k else FirstStart(p, l, k + 1)
  }

  /** Chunk i opens with the tail of an entry that began in an earlier chunk. */
  predicate OpensMidEntry(p: Parser, log: seq<string>, i: nat)
    requires i <= |log|
  {
    i < |log| && Off(log, i) > 0 && OpensWithContinuation(p, Lines(log[i]))
  }
}
