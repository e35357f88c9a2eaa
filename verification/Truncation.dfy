/** Recovery from responses that RDS cuts at its size cap (pullRaw, isTruncated,
    stripTruncationNotice and completeLines in internal/source/rds/fetcher.go). */
module Truncation {
  import opened Text

  function Notice(): string { "[Your log message was truncated]" }

  /** All that matters about the notice. */
  lemma NoticeShape()
    ensures NL !in Notice() && Notice() != "" && Notice()[|Notice()| - 1] != NL
  {
  }

  /** What RDS puts after a cut line. */
  function CutMark(): string { [NL] + " " + Notice() + [NL] }

  const MAX_LINES_PER_CALL: nat := 10000

  // -------------------------------------------------------------- string tools

  /** strings.TrimRight(t, "\n"). */
  function TrimRight(t: string): string
  {
    if t != "" && t[|t| - 1] == NL then TrimRight(t[..|t| - 1]) else t
  }

  function TrimSuffixNL(t: string): string
  {
    if t != "" && t[|t| - 1] == NL then t[..|t| - 1] else t
  }

  function CountNL(t: string): nat
  {
    if t == "" then 0 else CountNL(t[1..]) + if t[0] == NL then 1 else 0
  }

  predicate IsTruncated(data: string) { HasSuffix(TrimRight(data), Notice()) }

  function StripTruncationNotice(data: string): string
  {
    var body := TrimRight(data); body[..AfterLastNL(body)]
  }

  function CompleteLines(data: string): nat { CountNL(TrimSuffixNL(StripTruncationNotice(data))) }

  // -------------------------------------------------------------- the server

  /** A file as its lines, without their newlines. */
  function TextOf(ls: seq<string>): string
  {
    if ls == [] then "" else ls[0] + [NL] + TextOf(ls[1..])
  }

  datatype Response = Response(data: string, next: nat)

  /** The response to a request for `limit` lines from line `start` on, `used`
      bytes being taken: the line that crosses the cap is cut, the notice is
      added, and the marker skips the rest of that line. */
  function Respond(lines: seq<string>, cap: nat, start: nat, limit: nat, used: nat): Response
    requires start <= |lines| && used <= cap
    decreases limit
  {
    if limit == 0 || start == |lines| then Response("", start)
    else
      var line := lines[start] + [NL];
      if used + |line| > cap then
        Response(line[..cap - used] + CutMark(), start + 1)
      else
        var rest := Respond(lines, cap, start + 1, limit - 1, used + |line|);
        Response(line + rest.data, rest.next)
  }

  /** The log line holds no newline and does not look like the notice. */
  predicate Ordinary(l: string) { NL !in l && !HasSuffix(l, Notice()) }

  predicate OrdinaryLines(ls: seq<string>) { forall i :: 0 <= i < |ls| ==> Ordinary(ls[i]) }

  // ------------------------------------------------- what the client makes of it

  lemma {:induction false} TextConcat(a: seq<string>, b: seq<string>)
    ensures TextOf(a + b) == TextOf(a) + TextOf(b)
  {
    if a == [] {
      assert a + b == b;
    } else {
      assert (a + b)[1..] == a[1..] + b;
      TextConcat(a[1..], b);
    }
  }

  lemma {:induction false} CountConcat(a: string, b: string)
    ensures CountNL(a + b) == CountNL(a) + CountNL(b)
  {
    if a == "" {
      assert a + b == b;
    } else {
      assert (a + b)[1..] == a[1..] + b;
      CountConcat(a[1..], b);
    }
  }

  lemma {:induction false} CountNone(l: string)
    requires NL !in l
    ensures CountNL(l) == 0
  {
    if l != "" {
      CountNone(l[1..]);
    }
  }

  lemma {:induction false} CountText(ls: seq<string>)
    requires OrdinaryLines(ls)
    ensures CountNL(TextOf(ls)) == |ls|
  {
    if ls != [] {
      CountText(ls[1..]);
      CountNone(ls[0]);
      CountConcat(ls[0], [NL]);
      CountConcat(ls[0] + [NL], TextOf(ls[1..]));
    }
  }

  lemma TrimRightEnd(t: string)
    ensures t != "" && t[|t| - 1] != NL ==> TrimRight(t) == t
    ensures TrimRight(t + [NL]) == TrimRight(t)
  {
    assert (t + [NL])[..|t|] == t;
  }

  lemma {:induction false} TextEnds(ls: seq<string>)
    ensures Aligned(TextOf(ls))
  {
    if ls != [] {
      TextEnds(ls[1..]);
    }
  }

  /** The notice holds no newline, so it can only end a text whose last line it ends. */
  lemma NoticeWithinLine(t: string, l: string)
    requires Aligned(t) && HasSuffix(t + l, Notice())
    ensures HasSuffix(l, Notice())
  {
    hide Notice;
    NoticeShape();
    var u, n := t + l, |Notice()|;
    assert forall i :: |u| - n <= i < |u| ==> u[i] == Notice()[i - (|u| - n)] != NL;
    assert t != "" ==> u[|t| - 1] == NL;
    assert |l| >= n;
    assert u[|u| - n..] == l[|l| - n..];
  }

  /** Text that ends with an ordinary line does not look truncated. */
  lemma OrdinaryEnd(t: string, l: string)
    requires Aligned(t) && Ordinary(l) && l != ""
    ensures !IsTruncated(t + l + [NL])
  {
    hide Notice;
    var u := t + l;
    assert u[|u| - 1] == l[|l| - 1];
    TrimRightEnd(u);
    if HasSuffix(u, Notice()) {
      NoticeWithinLine(t, l);
    }
  }

  /** Whole lines never look truncated. */
  lemma {:induction false} WholeLinesNotTruncated(ls: seq<string>)
    requires OrdinaryLines(ls)
    ensures !IsTruncated(TextOf(ls))
    decreases |ls|
  {
    hide Notice, AfterLastNL;
    if ls == [] {
      NoticeShape();
    } else {
      var a, l := ls[..|ls| - 1], ls[|ls| - 1];
      assert ls == a + [l];
      TextConcat(a, [l]);
      TextEnds(a);
      assert TextOf([l]) == l + [NL];
      assert TextOf(ls) == TextOf(a) + l + [NL];
      if l == "" {
        assert TextOf(a) + l == TextOf(a);
        TrimRightEnd(TextOf(a));
        WholeLinesNotTruncated(a);
      } else {
        OrdinaryEnd(TextOf(a), l);
      }
    }
  }

  lemma LastNewline(t: string, x: string)
    requires t != "" && t[|t| - 1] == NL && NL !in x
    ensures AfterLastNL(t + x) == |t|
  {
    var u, r := t + x, AfterLastNL(t + x);
    assert u[|t| - 1] == NL;
    assert forall i :: |t| <= i < |u| ==> u[i] == x[i - |t|] != NL;
  }

  /** The notice is found, and taken off together with its line. */
  lemma MarkedText(u: string)
    ensures IsTruncated(u + CutMark()) && StripTruncationNotice(u + CutMark()) == u + [NL]
  {
    hide Notice;
    NoticeShape();
    var t, n := u + [NL], " " + Notice();
    var body := t + n;
    assert u + CutMark() == body + [NL];
    assert body[|body| - 1] == Notice()[|Notice()| - 1];
    TrimRightEnd(body);
    assert body[|body| - |Notice()|..] == Notice();
    LastNewline(t, n);
    assert body[..|t|] == t;
  }

  lemma ConcatAssociative(a: string, b: string, c: string)
    ensures a + (b + c) == (a + b) + c
  {
  }

  lemma TrimSuffixOne(u: string)
    ensures TrimSuffixNL(u + [NL]) == u
  {
    assert (u + [NL])[..|u|] == u;
  }

  lemma CountCut(whole: seq<string>, cut: string)
    requires OrdinaryLines(whole) && NL !in cut
    ensures CountNL(TextOf(whole) + cut) == |whole|
  {
    CountConcat(TextOf(whole), cut);
    CountText(whole);
    CountNone(cut);
  }

  /** A cut response is recognised, and its whole lines are counted right. */
  lemma CutResponse(whole: seq<string>, cut: string)
    requires OrdinaryLines(whole) && NL !in cut
    ensures var data := TextOf(whole) + (cut + CutMark());
      && IsTruncated(data)
      && StripTruncationNotice(data) == TextOf(whole) + cut + [NL]
      && CompleteLines(data) == |whole|
  {
    hide IsTruncated, StripTruncationNotice, TextOf, CountNL, CutMark, OrdinaryLines, TrimSuffixNL;
    var u := TextOf(whole) + cut;
    ConcatAssociative(TextOf(whole), cut, CutMark());
    MarkedText(u);
    TrimSuffixOne(u);
    CountCut(whole, cut);
  }

  /** The number of whole lines in a response. */
  function Whole(lines: seq<string>, cap: nat, start: nat, limit: nat, used: nat): (w: nat)
    requires start <= |lines| && used <= cap
    ensures w <= limit && start + w <= |lines|
    decreases limit
  {
    if limit == 0 || start == |lines| || used + |lines[start]| + 1 > cap then 0
    else 1 + Whole(lines, cap, start + 1, limit - 1, used + |lines[start]| + 1)
  }

  /** A response is whole lines, followed by a cut one when the cap was hit. */
  lemma {:induction false} ResponseShape(lines: seq<string>, cap: nat, start: nat, limit: nat, used: nat)
    requires start <= |lines| && used <= cap
    ensures var w := Whole(lines, cap, start, limit, used);
      var whole := TextOf(lines[start..start + w]);
      var left := cap - used - |whole|;
      && 0 <= left
      && if w == limit || start + w == |lines| then
           Respond(lines, cap, start, limit, used) == Response(whole, start + w)
         else
           && left <= |lines[start + w]|
           && Respond(lines, cap, start, limit, used)
              == Response(whole + (lines[start + w][..left] + CutMark()), start + w + 1)
    decreases limit
  {
    hide CutMark;
    var w := Whole(lines, cap, start, limit, used);
    if w > 0 {
      var line := lines[start] + [NL];
      ResponseShape(lines, cap, start + 1, limit - 1, used + |line|);
      assert lines[start..start + w] == [lines[start]] + lines[start + 1..start + w];
    } else {
      assert lines[start..start] == [];
      if limit > 0 && start < |lines| {
        assert (lines[start] + [NL])[..cap - used] == lines[start][..cap - used];
      }
    }
  }

  /** Asking for no more than arrived whole gets exactly that. */
  lemma {:induction false} WholeAgain(lines: seq<string>, cap: nat, start: nat, limit: nat, used: nat, m: nat)
    requires start <= |lines| && used <= cap && m <= Whole(lines, cap, start, limit, used)
    ensures Whole(lines, cap, start, m, used) == m
    decreases limit
  {
    if m > 0 {
      WholeAgain(lines, cap, start + 1, limit - 1, used + |lines[start]| + 1, m - 1);
    }
  }

  /** What the client can tell from a response. */
  lemma ResponseRead(lines: seq<string>, cap: nat, start: nat, limit: nat)
    requires start <= |lines| && OrdinaryLines(lines)
    ensures var w := Whole(lines, cap, start, limit, 0);
      var r := Respond(lines, cap, start, limit, 0);
      var cut := w < limit && start + w < |lines|;
      && IsTruncated(r.data) == cut
      && r.next == start + w + (if cut then 1 else 0)
      && (!cut ==> r.data == TextOf(lines[start..start + w]) && |r.data| <= cap)
      && (cut ==> CompleteLines(r.data) == w)
      && (cut && w == 0 ==> cap <= |lines[start]| && StripTruncationNotice(r.data) == lines[start][..cap] + [NL])
  {
    hide IsTruncated, StripTruncationNotice, TextOf, CompleteLines, Respond, CutMark, Ordinary;
    var w := Whole(lines, cap, start, limit, 0);
    var whole := lines[start..start + w];
    ResponseShape(lines, cap, start, limit, 0);
    if w < limit && start + w < |lines| {
      var left := cap - |TextOf(whole)|;
      LinePart(lines[start + w], left);
      CutResponse(whole, lines[start + w][..left]);
      if w == 0 {
        TextOfNone(whole);
      }
    } else {
      WholeLinesNotTruncated(whole);
    }
  }

  lemma TextOfNone(whole: seq<string>)
    requires whole == []
    ensures TextOf(whole) == "" && forall x: string :: TextOf(whole) + x == x
  {
  }

  /** Any part of a line is free of newlines. */
  lemma LinePart(l: string, n: nat)
    requires n <= |l| && Ordinary(l)
    ensures NL !in l[..n]
  {
  }

  // ------------------------------------------------------------------- pullRaw

  datatype Pulled = PullError | Pulled(data: string, next: nat, pending: bool, truncated: nat)

  class PortionServer {
    const lines: seq<string>
    const cap: nat
    var downloads: nat
    var faults: nat

    constructor (lines: seq<string>, cap: nat)
      ensures this.lines == lines && this.cap == cap && downloads == faults == 0
    {
      this.lines, this.cap, downloads, faults := lines, cap, 0, 0;
    }

    /** DownloadDBLogFilePortion. Without NumberOfLines, and within it, the
        server limits the response to some number of lines of its own choice. */
    method Download(start: nat, numberOfLines: nat) returns (ok: bool, r: Response, ghost limit: nat)
      requires start <= |lines|
      modifies this
      ensures downloads == old(downloads) + 1
      ensures faults == old(faults) + if ok then 0 else 1
      ensures 0 < limit && (numberOfLines > 0 ==> limit <= numberOfLines)
      ensures r == Respond(lines, cap, start, limit, 0)
    {
      downloads := downloads + 1;
      ok := *;
      faults := faults + if ok then 0 else 1;
      var own: nat :| own > 0;
      var asked := if numberOfLines > 0 && numberOfLines < own then numberOfLines else own;
      limit := asked;
      r := Respond(lines, cap, start, asked, 0);
    }

    /** pullRaw: one download, and one more limited to the whole lines when the
        first was cut. Nothing is lost but the excess of a line over the cap. */
    method PullRaw(start: nat) returns (r: Pulled)
      requires start <= |lines| && OrdinaryLines(lines)
      modifies this
      ensures downloads <= old(downloads) + 2
      ensures faults >= old(faults) && (r.PullError? <==> faults > old(faults))
      ensures r.Pulled? ==>
        && start <= r.next <= |lines|
        && r.pending == (r.next < |lines|)
        && (start < |lines| ==> start < r.next)
        && r.truncated <= 1
        && (r.truncated == 0 ==> r.data == TextOf(lines[start..r.next]) && |r.data| <= cap)
        && (r.truncated == 1 ==> r.next == start + 1)
        && (r.truncated == 1 ==> cap <= |lines[start]| && r.data == lines[start][..cap] + [NL])
    {
      hide IsTruncated, StripTruncationNotice, TextOf, CompleteLines, Respond, Ordinary;
      var numberOfLines := 0;
      var attempt := 0;
      var ok, resp;
      ghost var limit, whole := 0, 0;
      while true
        invariant 0 <= attempt <= 1 && downloads == old(downloads) + attempt && faults == old(faults)
        invariant numberOfLines == 0 <==> attempt == 0
        invariant 0 <= numberOfLines <= whole
        invariant attempt == 1 ==> forall m: nat :: m <= whole ==> Whole(lines, cap, start, m, 0) == m
        decreases 1 - attempt
      {
        ok, resp, limit := Download(start, numberOfLines);
        if !ok {
          return PullError;
        }
        ghost var w := Whole(lines, cap, start, limit, 0);
        ResponseRead(lines, cap, start, limit);
        if !IsTruncated(resp.data) || attempt == 4 {
          break;
        }
        var n := CompleteLines(resp.data);
        if n == 0 {
          break; // the first line alone exceeds the cap: unrecoverable
        }
        forall m: nat | m <= w ensures Whole(lines, cap, start, m, 0) == m {
          WholeAgain(lines, cap, start, limit, 0, m);
        }
        whole := w;
        numberOfLines := if n < MAX_LINES_PER_CALL then n else MAX_LINES_PER_CALL;
        attempt := attempt + 1;
      }
      var data, truncated := resp.data, 0;
      if IsTruncated(data) {
        data := StripTruncationNotice(data);
        truncated := 1;
      }
      r := Pulled(data, resp.next, resp.next < |lines|, truncated);
    }

    /** Paging through the file: every line comes out once, in order, clipped to the cap. */
    method PullAll() returns (ok: bool, text: string)
      requires OrdinaryLines(lines)
      modifies this
      ensures ok ==> text == TextOf(Clipped(lines, cap))
      ensures ok ==> (text == TextOf(lines) <==> forall i :: 0 <= i < |lines| ==> |lines[i]| <= cap)
      ensures ok <==> faults == old(faults)
    {
      hide TextOf, Clipped, OrdinaryLines;
      var marker := 0;
      text := "";
      ClippedPart(lines, cap, 0, 0);
      while true
        invariant 0 <= marker <= |lines| && faults == old(faults)
        invariant text == TextOf(Clipped(lines[..marker], cap))
        decreases |lines| - marker
      {
        var r := PullRaw(marker);
        if r.PullError? {
          return false, text;
        }
        PortionIsClipped(lines, cap, marker, r);
        ClippedPart(lines, cap, marker, r.next);
        text := text + r.data;
        marker := r.next;
        if !r.pending {
          assert lines[..marker] == lines;
          ClippedExactly(lines, cap);
          return true, text;
        }
      }
    }
  }

  // --------------------------------------------------------- lines over the cap

  function Clip(l: string, cap: nat): string { if |l| > cap then l[..cap] else l }

  function Clipped(ls: seq<string>, cap: nat): (r: seq<string>)
    ensures |r| == |ls| && forall i :: 0 <= i < |ls| ==> r[i] == Clip(ls[i], cap)
  {
    seq(|ls|, i requires 0 <= i < |ls| => Clip(ls[i], cap))
  }

  lemma ClippedPart(lines: seq<string>, cap: nat, a: nat, b: nat)
    requires a <= b <= |lines|
    ensures TextOf(Clipped(lines[..b], cap)) == TextOf(Clipped(lines[..a], cap)) + TextOf(Clipped(lines[a..b], cap))
    ensures TextOf(Clipped(lines[..0], cap)) == ""
  {
    hide Clip;
    TextConcat(Clipped(lines[..a], cap), Clipped(lines[a..b], cap));
    assert Clipped(lines[..b], cap) == Clipped(lines[..a], cap) + Clipped(lines[a..b], cap);
  }

  lemma {:induction false} ShortTextShortLines(ls: seq<string>, cap: nat)
    requires |TextOf(ls)| <= cap
    ensures Clipped(ls, cap) == ls
    decreases |ls|
  {
    if ls != [] {
      ShortTextShortLines(ls[1..], cap);
      assert Clipped(ls[1..], cap) == Clipped(ls, cap)[1..];
      assert Clipped(ls, cap) == [Clip(ls[0], cap)] + Clipped(ls, cap)[1..];
    }
  }

  /** What one pull gives is its lines, clipped. */
  lemma PortionIsClipped(lines: seq<string>, cap: nat, start: nat, r: Pulled)
    requires r.Pulled? && start <= r.next <= |lines| && r.truncated <= 1
    requires r.truncated == 0 ==> r.data == TextOf(lines[start..r.next]) && |r.data| <= cap
    requires r.truncated == 1 ==> r.next == start + 1 && cap <= |lines[start]| && r.data == lines[start][..cap] + [NL]
    ensures r.data == TextOf(Clipped(lines[start..r.next], cap))
  {
    if r.truncated == 0 {
      ShortTextShortLines(lines[start..r.next], cap);
    } else {
      var l := lines[start][..cap];
      assert lines[start..r.next] == [lines[start]];
      assert Clip(lines[start], cap) == l;
      assert Clipped([lines[start]], cap) == [l];
      assert TextOf([l]) == l + [NL] + TextOf([]);
    }
  }

  /** Clipping loses nothing if and only if no line is longer than the cap. */
  lemma {:induction false} ClippedExactly(ls: seq<string>, cap: nat)
    ensures |TextOf(Clipped(ls, cap))| <= |TextOf(ls)|
    ensures TextOf(Clipped(ls, cap)) == TextOf(ls) <==> forall i :: 0 <= i < |ls| ==> |ls[i]| <= cap
    ensures |TextOf(Clipped(ls, cap))| == |TextOf(ls)| ==> TextOf(Clipped(ls, cap)) == TextOf(ls)
    decreases |ls|
  {
    if ls != [] {
      var c, tail := Clipped(ls, cap), ls[1..];
      ClippedExactly(tail, cap);
      assert c[1..] == Clipped(tail, cap);
      assert ls == [ls[0]] + tail;
      if |ls[0]| <= cap {
        assert TextOf(c) == ls[0] + [NL] + TextOf(c[1..]);
        if TextOf(c) == TextOf(ls) {
          assert |TextOf(c[1..])| == |TextOf(tail)|;
        }
        assert forall i :: 1 <= i < |ls| ==> ls[i] == tail[i - 1];
        assert forall i :: 0 <= i < |tail| ==> tail[i] == ls[i + 1];
      } else {
        assert |TextOf(c)| < |TextOf(ls)|;
      }
    } else {
      assert Clipped(ls, cap) == ls;
    }
  }
}
