/** Grouping log lines into records (internal/source/rds/fetcher.go).
    A record is represented by its message. */
module Records {
  import opened Text

  /** No record grows beyond this by appending continuation lines. */
  const MAX_RECORD_BYTES: nat := 1048576

  /** The engine's line parser, reduced to the one question grouping asks:
      does this line carry a timestamp, a severity or an audit payload? */
  datatype Parser = NoParser | Grouping(starts: string -> bool) {
    predicate Starts(line: string) { NoParser? || starts(line) }
    predicate GroupsMultiline() { Grouping? }
  }

  datatype Parsed = Parsed(recs: seq<string>, leading: bool)

  function Last<T>(s: seq<T>): T requires s != [] { s[|s| - 1] }
  function Front<T>(s: seq<T>): seq<T> requires s != [] { s[..|s| - 1] }

  /** One turn of the parser's loop, for a line that is not blank. */
  function AddLine(p: Parser, acc: Parsed, line: string): Parsed
  {
    if p.Starts(line) then Parsed(acc.recs + [line], acc.leading)
    else if acc.recs == [] then Parsed([line], true)
    else if |Last(acc.recs)| + 1 + |line| <= MAX_RECORD_BYTES then
      Parsed(Front(acc.recs) + [Last(acc.recs) + [NL] + line], acc.leading)
    else Parsed(acc.recs + [line], acc.leading)
  }

  function AddLines(p: Parser, acc: Parsed, lines: seq<string>): Parsed
    decreases |lines|
  {
    if lines == [] then acc else AddLines(p, AddLine(p, acc, lines[0]), lines[1..])
  }

  /** What parseRecords computes, as a function of the text's lines. */
  function Parse(p: Parser, lines: seq<string>): Parsed { AddLines(p, Parsed([], false), lines) }

  lemma AddLinesUnfold(p: Parser, acc: Parsed, x: string, l: seq<string>)
    ensures AddLines(p, acc, [x] + l) == AddLines(p, AddLine(p, acc, x), l)
  {
    assert ([x] + l)[1..] == l;
  }

  /** parseRecords. */
  method ParseRecords(p: Parser, data: string) returns (out: seq<string>, leading: bool)
    ensures Parsed(out, leading) == Parse(p, Lines(data))
  {
    out, leading := [], false;
    if data == "" {
      return;
    }
    var lines := Split(data);
    var i := 0;
    assert lines[i..] == lines;
    while i < |lines|
      invariant 0 <= i <= |lines|
      invariant AddLines(p, Parsed(out, leading), DropBlank(lines[i..])) == Parse(p, Lines(data))
    {
      var line := lines[i];
      ghost var rest, next := DropBlank(lines[i + 1..]), AddLine(p, Parsed(out, leading), line);
      assert lines[i..][1..] == lines[i + 1..];
      i := i + 1;
      if line == "" {
        continue;
      }
      AddLinesUnfold(p, Parsed(out, leading), line, rest);
      if !p.Starts(line) {
        if out == [] {
          leading := true;
        } else if |Last(out)| + 1 + |line| <= MAX_RECORD_BYTES {
          out := Front(out) + [Last(out) + [NL] + line];
          continue;
        }
      }
      out := out + [line];
      assert Parsed(out, leading) == next;
    }
    assert lines[i..] == [];
  }

  /** JoinContinuation: None when the joined record would exceed the cap. */
  datatype Joined = Joined(message: string) | TooLong

  function JoinContinuation(prev: string, next: string): Joined
  {
    if |prev| + 1 + |next| > MAX_RECORD_BYTES then TooLong else Joined(prev + [NL] + next)
  }

  // ---------------------------------------------------------------- entries

  /** The log's own entries, read off from the right: a line belongs to the
      entry of the line before it exactly when it does not start one. */
  function Entries(p: Parser, lines: seq<string>): (es: seq<seq<string>>)
    ensures (es == []) == (lines == [])
    ensures forall i :: 0 <= i < |es| ==> es[i] != []
    decreases |lines|
  {
    if lines == [] then []
    else Prepend(lines[0], |lines| == 1 || p.Starts(lines[1]), Entries(p, lines[1..]))
  }

  /** Put a line in front: alone when the next line starts an entry. */
  function Prepend(x: string, alone: bool, es: seq<seq<string>>): (r: seq<seq<string>>)
    requires es == [] ==> alone
    requires forall i :: 0 <= i < |es| ==> es[i] != []
    ensures r != [] && forall i :: 0 <= i < |r| ==> r[i] != []
  {
    if alone then [[x]] + es else [[x] + es[0]] + es[1..]
  }

  /** Two lists of entries, the last of one and the first of the other being one entry. */
  function Merge(ea: seq<seq<string>>, eb: seq<seq<string>>): seq<seq<string>>
    requires ea != [] && eb != []
  {
    Front(ea) + [Last(ea) + eb[0]] + eb[1..]
  }

  function Messages(gs: seq<seq<string>>): (r: seq<string>)
    ensures |r| == |gs| && forall i :: 0 <= i < |gs| ==> r[i] == Join(gs[i])
  {
    seq(|gs|, i requires 0 <= i < |gs| => Join(gs[i]))
  }

  function EntryMessages(p: Parser, lines: seq<string>): seq<string> { Messages(Entries(p, lines)) }

  /** A single line is one record at any size; lines are only ever appended up
      to the cap. */
  predicate Fits(g: seq<string>) { |g| <= 1 || |Join(g)| <= MAX_RECORD_BYTES }

  ghost predicate AllFit(es: seq<seq<string>>) { forall i :: 0 <= i < |es| ==> Fits(es[i]) }

  /** No entry of several lines exceeds the cap. */
  ghost predicate WithinCap(p: Parser, lines: seq<string>)
  {
    AllFit(Entries(p, lines))
  }

  predicate OpensWithContinuation(p: Parser, lines: seq<string>) { lines != [] && !p.Starts(lines[0]) }

  lemma MessagesConcat(a: seq<seq<string>>, b: seq<seq<string>>)
    ensures Messages(a + b) == Messages(a) + Messages(b)
  {
  }

  lemma EntriesUnfold(p: Parser, x: string, l: seq<string>)
    ensures l == [] ==> Entries(p, [x] + l) == [[x]]
    ensures l != [] ==> Entries(p, [x] + l) == Prepend(x, p.Starts(l[0]), Entries(p, l))
  {
    assert ([x] + l)[1..] == l;
  }

  lemma PrependConcat(x: string, alone: bool, ea: seq<seq<string>>, eb: seq<seq<string>>)
    requires ea != []
    requires forall i :: 0 <= i < |ea| ==> ea[i] != []
    requires forall i :: 0 <= i < |eb| ==> eb[i] != []
    ensures Prepend(x, alone, ea + eb) == Prepend(x, alone, ea) + eb
  {
    assert (ea + eb)[1..] == ea[1..] + eb;
  }

  lemma PrependMerge(x: string, alone: bool, ea: seq<seq<string>>, eb: seq<seq<string>>)
    requires ea != [] && eb != []
    requires forall i :: 0 <= i < |ea| ==> ea[i] != []
    requires forall i :: 0 <= i < |eb| ==> eb[i] != []
    ensures Prepend(x, alone, Merge(ea, eb)) == Merge(Prepend(x, alone, ea), eb)
  {
    var m, q := Merge(ea, eb), Prepend(x, alone, ea);
    if alone {
      assert Front(q) == [[x]] + Front(ea);
      assert Last(q) == Last(ea);
    } else if |ea| == 1 {
      assert m == [ea[0] + eb[0]] + eb[1..];
      assert [x] + (ea[0] + eb[0]) == ([x] + ea[0]) + eb[0];
    } else {
      assert Last(q) == Last(ea);
      assert Front(q) == [[x] + ea[0]] + Front(ea)[1..];
      assert m[1..] == Front(ea)[1..] + [Last(ea) + eb[0]] + eb[1..];
    }
  }

  lemma MergeMessages(ea: seq<seq<string>>, eb: seq<seq<string>>)
    requires ea != [] && eb != [] && Last(ea) != [] && eb[0] != []
    ensures Messages(Merge(ea, eb))
         == Front(Messages(ea)) + [Last(Messages(ea)) + [NL] + Messages(eb)[0]] + Messages(eb)[1..]
  {
    JoinConcat(Last(ea), eb[0]);
  }

  /** A cut before a line that starts an entry cuts the entries. */
  lemma {:induction false} EntriesSplit(p: Parser, a: seq<string>, b: seq<string>)
    requires a == [] || !OpensWithContinuation(p, b)
    ensures Entries(p, a + b) == Entries(p, a) + Entries(p, b)
    decreases |a|
  {
    if a == [] {
      assert a + b == b;
    } else {
      var x, a' := a[0], a[1..];
      assert a == [x] + a' && a + b == [x] + (a' + b);
      EntriesUnfold(p, x, a');
      EntriesUnfold(p, x, a' + b);
      if a' != [] {
        EntriesSplit(p, a', b);
        PrependConcat(x, p.Starts(a'[0]), Entries(p, a'), Entries(p, b));
      } else {
        assert a' + b == b;
      }
    }
  }

  /** Any other cut goes through exactly one entry. */
  lemma {:induction false} EntriesMerge(p: Parser, a: seq<string>, b: seq<string>)
    requires a != [] && OpensWithContinuation(p, b)
    ensures Entries(p, a + b) == Merge(Entries(p, a), Entries(p, b))
    decreases |a|
  {
    var x, a' := a[0], a[1..];
    assert a == [x] + a' && a + b == [x] + (a' + b);
    EntriesUnfold(p, x, a');
    EntriesUnfold(p, x, a' + b);
    if a' != [] {
      EntriesMerge(p, a', b);
      PrependMerge(x, p.Starts(a'[0]), Entries(p, a'), Entries(p, b));
    } else {
      assert a' + b == b;
    }
  }

  lemma MergeParts(ea: seq<seq<string>>, eb: seq<seq<string>>)
    requires ea != [] && eb != []
    requires forall i :: 0 <= i < |ea| ==> ea[i] != []
    requires forall i :: 0 <= i < |eb| ==> eb[i] != []
    ensures var m := Merge(ea, eb);
      && |m| == |ea| + |eb| - 1
      && (forall i :: 0 <= i < |ea| - 1 ==> ea[i] == m[i])
      && (forall i :: 1 <= i < |eb| ==> eb[i] == m[|ea| - 1 + i])
      && m[|ea| - 1] == Last(ea) + eb[0]
      && Join(m[|ea| - 1]) == Join(Last(ea)) + [NL] + Join(eb[0])
  {
    JoinConcat(Last(ea), eb[0]);
  }

  lemma AllFitMerge(ea: seq<seq<string>>, eb: seq<seq<string>>)
    requires ea != [] && eb != [] && AllFit(Merge(ea, eb))
    requires forall i :: 0 <= i < |ea| ==> ea[i] != []
    requires forall i :: 0 <= i < |eb| ==> eb[i] != []
    ensures AllFit(ea) && AllFit(eb)
  {
    hide Merge, Join;
    MergeParts(ea, eb);
    var m := Merge(ea, eb);
    forall i | 0 <= i < |ea| ensures Fits(ea[i]) {
      assert Fits(m[i]);
    }
    forall i | 0 <= i < |eb| ensures Fits(eb[i]) {
      assert Fits(m[|ea| - 1 + i]);
    }
  }

  lemma AllFitConcat(ea: seq<seq<string>>, eb: seq<seq<string>>)
    ensures AllFit(ea + eb) <==> AllFit(ea) && AllFit(eb)
  {
    hide Join, Fits;
    if AllFit(ea + eb) {
      forall i | 0 <= i < |eb| ensures Fits(eb[i]) {
        assert (ea + eb)[|ea| + i] == eb[i];
      }
      assert forall i :: 0 <= i < |ea| ==> (ea + eb)[i] == ea[i];
    }
  }

  /** Parts of a log whose entries fit the cap have parts of entries that fit it. */
  lemma WithinCapParts(p: Parser, a: seq<string>, b: seq<string>)
    requires WithinCap(p, a + b)
    ensures WithinCap(p, a) && WithinCap(p, b)
  {
    hide AllFit;
    if a != [] && OpensWithContinuation(p, b) {
      EntriesMerge(p, a, b);
      AllFitMerge(Entries(p, a), Entries(p, b));
    } else {
      EntriesSplit(p, a, b);
      AllFitConcat(Entries(p, a), Entries(p, b));
    }
  }

  lemma {:induction false} AddLinesConcat(p: Parser, acc: Parsed, a: seq<string>, b: seq<string>)
    ensures AddLines(p, acc, a + b) == AddLines(p, AddLines(p, acc, a), b)
    decreases |a|
  {
    if a == [] {
      assert a + b == b;
    } else {
      assert (a + b)[1..] == a[1..] + b;
      AddLinesConcat(p, AddLine(p, acc, a[0]), a[1..], b);
    }
  }

  lemma EntriesSingle(p: Parser, x: string)
    ensures Entries(p, [x]) == [[x]]
  {
  }

  // ------------------------------------------------- grouping without a cap hypothesis

  function AddToGroups(p: Parser, gs: seq<seq<string>>, line: string): seq<seq<string>>
  {
    if gs == [] || p.Starts(line) || |Join(Last(gs))| + 1 + |line| > MAX_RECORD_BYTES then gs + [[line]]
    else Front(gs) + [Last(gs) + [line]]
  }

  /** The lines of each record the parser makes, over-long entries split. */
  function Groups(p: Parser, gs: seq<seq<string>>, lines: seq<string>): seq<seq<string>>
    decreases |lines|
  {
    if lines == [] then gs else Groups(p, AddToGroups(p, gs, lines[0]), lines[1..])
  }

  function Flatten<T>(gs: seq<seq<T>>): seq<T> { if gs == [] then [] else gs[0] + Flatten(gs[1..]) }

  lemma {:induction false} FlattenConcat<T>(a: seq<seq<T>>, b: seq<seq<T>>)
    ensures Flatten(a + b) == Flatten(a) + Flatten(b)
  {
    if a == [] {
      assert a + b == b;
    } else {
      assert (a + b)[1..] == a[1..] + b;
      FlattenConcat(a[1..], b);
    }
  }

  lemma FlattenLast<T>(gs: seq<seq<T>>)
    requires gs != []
    ensures Flatten(gs) == Flatten(Front(gs)) + Last(gs)
  {
    assert gs == Front(gs) + [Last(gs)];
    FlattenConcat(Front(gs), [Last(gs)]);
  }

  lemma {:induction false} GroupsConcat(p: Parser, gs: seq<seq<string>>, a: seq<string>, b: seq<string>)
    ensures Groups(p, gs, a + b) == Groups(p, Groups(p, gs, a), b)
    decreases |a|
  {
    if a == [] {
      assert a + b == b;
    } else {
      assert (a + b)[1..] == a[1..] + b;
      GroupsConcat(p, AddToGroups(p, gs, a[0]), a[1..], b);
    }
  }

  /** Every record is the newline-joined run of consecutive lines, and no line
      is dropped, repeated or moved, whatever the sizes. */
  lemma {:induction false} ParseGroups(p: Parser, lines: seq<string>)
    ensures Parse(p, lines).recs == Messages(Groups(p, [], lines))
    ensures Flatten(Groups(p, [], lines)) == lines
    ensures forall i :: 0 <= i < |Groups(p, [], lines)| ==> Groups(p, [], lines)[i] != []
    decreases |lines|
  {
    if lines != [] {
      var a, x := Front(lines), Last(lines);
      assert lines == a + [x];
      ParseGroups(p, a);
      AddLinesConcat(p, Parsed([], false), a, [x]);
      GroupsConcat(p, [], a, [x]);
      var gs := Groups(p, [], a);
      var hs := AddToGroups(p, gs, x);
      assert Groups(p, [], lines) == hs;
      assert AddLine(p, Parse(p, a), x) == Parse(p, lines);
      AddLineGroups(p, Parse(p, a), gs, x);
    }
  }

  lemma OneMessage(g: seq<string>)
    ensures Messages([g]) == [Join(g)] && (|g| == 1 ==> Join(g) == g[0])
  {
  }

  lemma AddLineGroups(p: Parser, acc: Parsed, gs: seq<seq<string>>, x: string)
    requires acc.recs == Messages(gs)
    requires forall i :: 0 <= i < |gs| ==> gs[i] != []
    ensures var hs := AddToGroups(p, gs, x);
      && AddLine(p, acc, x).recs == Messages(hs)
      && Flatten(hs) == Flatten(gs) + [x]
      && forall i :: 0 <= i < |hs| ==> hs[i] != []
  {
    hide Join, Messages;
    var hs := AddToGroups(p, gs, x);
    if gs == [] || p.Starts(x) || |Join(Last(gs))| + 1 + |x| > MAX_RECORD_BYTES {
      FlattenConcat(gs, [[x]]);
      MessagesConcat(gs, [[x]]);
      OneMessage([x]);
    } else {
      FlattenLast(gs);
      FlattenConcat(Front(gs), [Last(gs) + [x]]);
      MessagesConcat(Front(gs), [Last(gs) + [x]]);
      JoinConcat(Last(gs), [x]);
      OneMessage(Last(gs) + [x]);
      OneMessage([x]);
      assert Front(acc.recs) == Messages(Front(gs));
    }
  }

  lemma AddToLast(p: Parser, done: seq<seq<string>>, g: seq<string>, x: string)
    ensures AddToGroups(p, done + [g], x)
         == if p.Starts(x) || |Join(g)| + 1 + |x| > MAX_RECORD_BYTES then done + [g] + [[x]] else done + [g + [x]]
  {
    hide Join;
    var gs := done + [g];
    assert Last(gs) == g && Front(gs) == done;
  }

  /** Only the newest group can still change. */
  lemma {:induction false} GroupsKeep(p: Parser, done: seq<seq<string>>, g: seq<string>, lines: seq<string>)
    ensures Groups(p, done + [g], lines) == done + Groups(p, [g], lines)
    decreases |lines|
  {
    hide AddToGroups, Join;
    if lines != [] {
      var x := lines[0];
      AddToLast(p, done, g, x);
      AddToLast(p, [], g, x);
      assert [] + [g] == [g];
      if p.Starts(x) || |Join(g)| + 1 + |x| > MAX_RECORD_BYTES {
        GroupsKeep(p, done + [g], [x], lines[1..]);
        GroupsKeep(p, [g], [x], lines[1..]);
        assert [] + [g] + [[x]] == [g] + [[x]];
      } else {
        assert [] + [g + [x]] == [g + [x]];
        GroupsKeep(p, done, g + [x], lines[1..]);
      }
    }
  }

  lemma GroupsSnoc(p: Parser, a: seq<string>, x: string)
    ensures Groups(p, [], a + [x]) == AddToGroups(p, Groups(p, [], a), x)
    ensures Groups(p, [], []) == []
  {
    GroupsConcat(p, [], a, [x]);
  }

  // ------------------------------------------------------ when records are entries

  lemma GroupsFitStep(p: Parser, gs: seq<seq<string>>, x: string)
    requires AllFit(gs) && forall i :: 0 <= i < |gs| ==> gs[i] != []
    ensures AllFit(AddToGroups(p, gs, x))
  {
    if gs != [] {
      JoinConcat(Last(gs), [x]);
    }
  }

  lemma {:induction false} GroupsFit(p: Parser, lines: seq<string>)
    ensures AllFit(Groups(p, [], lines))
    decreases |lines|
  {
    hide AddToGroups, Groups;
    GroupsSnoc(p, [], "");
    if lines != [] {
      var a, x := Front(lines), Last(lines);
      assert lines == a + [x];
      GroupsFit(p, a);
      ParseGroups(p, a);
      GroupsSnoc(p, a, x);
      GroupsFitStep(p, Groups(p, [], a), x);
    }
  }

  lemma {:induction false} CappedGroupsAreEntries(p: Parser, lines: seq<string>)
    requires WithinCap(p, lines)
    ensures Groups(p, [], lines) == Entries(p, lines)
    decreases |lines|
  {
    hide Groups, Entries;
    GroupsSnoc(p, [], "");
    if lines != [] {
      var a, x := Front(lines), Last(lines);
      assert lines == a + [x];
      WithinCapParts(p, a, [x]);
      CappedGroupsAreEntries(p, a);
      GroupsSnoc(p, a, x);
      EntriesSingle(p, x);
      if a == [] || p.Starts(x) {
        EntriesSplit(p, a, [x]);
      } else {
        EntriesMerge(p, a, [x]);
        var ea := Entries(p, a);
        MergeParts(ea, [[x]]);
        assert Fits(Entries(p, lines)[|ea| - 1]);
        assert Entries(p, lines) == Front(ea) + [Last(ea) + [x]];
      }
    }
  }

  /** The parser's records are the log's entries if and only if no entry of
      several lines exceeds the cap. */
  lemma GroupsAreEntries(p: Parser, lines: seq<string>)
    ensures Groups(p, [], lines) == Entries(p, lines) <==> WithinCap(p, lines)
  {
    if WithinCap(p, lines) {
      CappedGroupsAreEntries(p, lines);
    } else {
      GroupsFit(p, lines);
    }
  }

  lemma {:induction false} LeadingKept(p: Parser, acc: Parsed, lines: seq<string>)
    requires acc.recs != []
    ensures AddLines(p, acc, lines).leading == acc.leading
    decreases |lines|
  {
    if lines != [] {
      LeadingKept(p, AddLine(p, acc, lines[0]), lines[1..]);
    }
  }

  /** Within the cap, the parser finds exactly the entries, and at any size its flag
      says exactly whether the text opens with a continuation. */
  lemma ParseFindsEntries(p: Parser, lines: seq<string>)
    ensures WithinCap(p, lines) ==> Parse(p, lines).recs == EntryMessages(p, lines)
    ensures Parse(p, lines).leading == OpensWithContinuation(p, lines)
  {
    GroupsAreEntries(p, lines);
    ParseGroups(p, lines);
    if lines != [] {
      LeadingKept(p, AddLine(p, Parsed([], false), lines[0]), lines[1..]);
    }
  }

  lemma ParseNothing(p: Parser)
    ensures Parse(p, []) == Parsed([], false)
  {
  }

  // -------------------------------------------- records and entries, as messages

  /** A message no parser or rejoin makes is one of several lines over the cap. */
  predicate Capped(m: string) { |m| <= MAX_RECORD_BYTES || NL !in m }

  predicate AllCapped(recs: seq<string>) { forall i :: 0 <= i < |recs| ==> Capped(recs[i]) }

  lemma CappedJoin(g: seq<string>)
    requires g != [] && forall i :: 0 <= i < |g| ==> IsLine(g[i])
    ensures Capped(Join(g)) <==> Fits(g)
  {
    if |g| > 1 {
      assert Join(g)[|g[0]|] == NL;
    }
  }

  /** Messages tell it as well: entries are within the cap exactly when none of
      their messages is one that is never made. */
  lemma WithinCapMessages(p: Parser, lines: seq<string>)
    requires forall i :: 0 <= i < |lines| ==> IsLine(lines[i])
    ensures WithinCap(p, lines) <==> AllCapped(EntryMessages(p, lines))
  {
    hide Entries, Join;
    var es := Entries(p, lines);
    EntriesAreLines(p, lines);
    forall i | 0 <= i < |es| ensures Capped(Messages(es)[i]) <==> Fits(es[i]) {
      CappedJoin(es[i]);
    }
  }

  lemma {:induction false} EntriesAreLines(p: Parser, lines: seq<string>)
    requires forall i :: 0 <= i < |lines| ==> IsLine(lines[i])
    ensures forall i, j ::
      0 <= i < |Entries(p, lines)| && 0 <= j < |Entries(p, lines)[i]| ==> IsLine(Entries(p, lines)[i][j])
    decreases |lines|
  {
    if lines != [] {
      EntriesAreLines(p, lines[1..]);
    }
  }

  lemma {:induction false} ParseIsCapped(p: Parser, lines: seq<string>)
    requires forall i :: 0 <= i < |lines| ==> IsLine(lines[i])
    ensures AllCapped(Parse(p, lines).recs)
  {
    hide Groups, Join;
    var gs := Groups(p, [], lines);
    ParseGroups(p, lines);
    GroupsFit(p, lines);
    forall i | 0 <= i < |gs| ensures Capped(Messages(gs)[i]) {
      forall j | 0 <= j < |gs[i]| ensures IsLine(gs[i][j]) {
        InFlatten(gs, gs[i], gs[i][j]);
      }
      CappedJoin(gs[i]);
    }
  }

  lemma {:induction false} InFlatten<T>(gs: seq<seq<T>>, g: seq<T>, x: T)
    requires g in gs && x in g
    ensures x in Flatten(gs)
  {
    if gs[0] != g {
      InFlatten(gs[1..], g, x);
    }
  }

  /** A parser for which only the line A starts a record. */
  function OnlyA(): Parser { Grouping((l: string) => l == "A") }

  /** An entry of two lines over the cap: the parser makes two records of it. */
  lemma OverCapEntrySplits()
    ensures var p, big := OnlyA(), seq(MAX_RECORD_BYTES, _ => 'b');
      && EntryMessages(p, ["A", big]) == ["A" + [NL] + big]
      && Parse(p, ["A", big]).recs == ["A", big]
  {
    var p, big := OnlyA(), seq(MAX_RECORD_BYTES, _ => 'b');
    var lines := ["A", big];
    assert big != "A";
    assert lines[1..] == [big];
    EntriesSingle(p, big);
    assert Entries(p, lines) == [["A"] + [big]];
    assert Join(["A", big]) == "A" + [NL] + big by { assert ["A", big][1..] == [big]; }
    AddLinesUnfold(p, Parsed([], false), "A", [big]);
    AddLinesUnfold(p, Parsed(["A"], false), big, []);
    assert ["A"] + [big] == lines && [big] + [] == [big];
    assert [] + ["A"] == ["A"];
  }

  // ---------------------------------------------- rejoining at a chunk boundary

  /** What a reader holding `pending` has after rejoining a chunk's leading
      continuation record, when the join fits. */
  function Rejoin(pending: seq<string>, chunk: Parsed): seq<string>
  {
    if chunk.leading && chunk.recs != [] && pending != [] then
      match JoinContinuation(Last(pending), chunk.recs[0])
      case Joined(m) => Front(pending) + [m] + chunk.recs[1..]
      case TooLong => pending + chunk.recs
    else pending + chunk.recs
  }

  /** An entry cut in two by a chunk boundary fits the cap when rejoined. */
  lemma JoinFits(p: Parser, a: seq<string>, b: seq<string>)
    requires WithinCap(p, a + b) && a != [] && OpensWithContinuation(p, b)
    ensures JoinContinuation(Last(EntryMessages(p, a)), EntryMessages(p, b)[0]).Joined?
  {
    var ea, eb := Entries(p, a), Entries(p, b);
    EntriesMerge(p, a, b);
    MergeParts(ea, eb);
    assert Fits(Entries(p, a + b)[|ea| - 1]);
  }

  /** Rejoining undoes the damage a chunk boundary does to an entry. */
  lemma RejoinFindsEntries(p: Parser, a: seq<string>, b: seq<string>)
    requires WithinCap(p, a + b)
    ensures Rejoin(EntryMessages(p, a), Parse(p, b)) == EntryMessages(p, a + b)
  {
    WithinCapParts(p, a, b);
    ParseFindsEntries(p, b);
    var ea, eb := Entries(p, a), Entries(p, b);
    if a != [] && OpensWithContinuation(p, b) {
      EntriesMerge(p, a, b);
      JoinFits(p, a, b);
      MergeMessages(ea, eb);
    } else {
      EntriesSplit(p, a, b);
      MessagesConcat(ea, eb);
    }
  }

  /** Rejoining makes no message that parsing does not. */
  lemma RejoinIsCapped(pending: seq<string>, chunk: Parsed)
    requires AllCapped(pending) && AllCapped(chunk.recs)
    ensures AllCapped(Rejoin(pending, chunk))
  {
  }

  /** The line at which the last record of `lines` begins. */
  function LastStart(p: Parser, lines: seq<string>): nat
    requires lines != []
    decreases |lines|
  {
    var a, x := Front(lines), Last(lines);
    var gs := Groups(p, [], a);
    if gs == [] || p.Starts(x) || |Join(Last(gs))| + 1 + |x| > MAX_RECORD_BYTES then |a|
    else LastStart(p, a)
  }

  /** A line that the last group takes in leaves the groups before it alone. */
  lemma LastGroupGrows(p: Parser, a: seq<string>, r: nat, x: string)
    requires r < |a| && !p.Starts(x) && |Join(a[r..])| + 1 + |x| <= MAX_RECORD_BYTES
    requires Groups(p, [], a) == Groups(p, [], a[..r]) + [a[r..]]
    requires Groups(p, [], a[r..]) == [a[r..]]
    ensures Groups(p, [], a + [x]) == Groups(p, [], a[..r]) + [a[r..] + [x]]
    ensures Groups(p, [], a[r..] + [x]) == [a[r..] + [x]]
  {
    hide Join, Groups;
    var gs := Groups(p, [], a);
    GroupsSnoc(p, a, x);
    GroupsSnoc(p, a[r..], x);
    assert Front(gs) == Groups(p, [], a[..r]);
    assert AddToGroups(p, gs, x) == Groups(p, [], a[..r]) + [a[r..] + [x]];
    assert AddToGroups(p, [a[r..]], x) == [a[r..] + [x]];
  }

  /** The last record is made of the lines from there on, alone or not. */
  lemma {:induction false} LastRecord(p: Parser, lines: seq<string>)
    requires lines != []
    ensures var r := LastStart(p, lines);
      && r < |lines|
      && Groups(p, [], lines) == Groups(p, [], lines[..r]) + [lines[r..]]
      && Groups(p, [], lines[r..]) == [lines[r..]]
    decreases |lines|
  {
    hide Join, Groups;
    var a, x := Front(lines), Last(lines);
    var gs := Groups(p, [], a);
    assert lines == a + [x];
    GroupsSnoc(p, a, x);
    if gs == [] || p.Starts(x) || |Join(Last(gs))| + 1 + |x| > MAX_RECORD_BYTES {
      GroupsSnoc(p, [], x);
      assert [] + [x] == [x] && lines[..|a|] == a && lines[|a|..] == [x];
    } else {
      assert a != [];
      LastRecord(p, a);
      var r := LastStart(p, a);
      assert Last(gs) == a[r..];
      LastGroupGrows(p, a, r, x);
      assert lines[..r] == a[..r] && lines[r..] == a[r..] + [x];
    }
  }

  /** Parsing may be resumed, from nothing, at the line where the last record
      begins: what follows cannot change the records before it, and the last
      record comes out the same however it goes on. */
  lemma ResumeAtLastRecord(p: Parser, lines: seq<string>, more: seq<string>)
    requires lines != []
    ensures LastStart(p, lines) < |lines|
    ensures Groups(p, [], lines + more)
         == Groups(p, [], lines[..LastStart(p, lines)]) + Groups(p, [], lines[LastStart(p, lines)..] + more)
  {
    LastRecord(p, lines);
    var r := LastStart(p, lines);
    GroupsConcat(p, [], lines, more);
    GroupsKeep(p, Groups(p, [], lines[..r]), lines[r..], more);
    GroupsConcat(p, [], lines[r..], more);
  }

  // ------------------------------------------------- the lines records hold

  /** The non-blank lines of some records, in order. */
  function LinesOf(recs: seq<string>): seq<string>
  {
    if recs == [] then [] else Lines(recs[0]) + LinesOf(recs[1..])
  }

  lemma {:induction false} LinesOfConcatenated(a: seq<string>, b: seq<string>)
    ensures LinesOf(a + b) == LinesOf(a) + LinesOf(b)
  {
    if a == [] {
      assert a + b == b;
    } else {
      assert (a + b)[1..] == a[1..] + b;
      LinesOfConcatenated(a[1..], b);
    }
  }

  lemma LinesOfJoined(a: string, b: string)
    ensures Lines(a + [NL] + b) == Lines(a) + Lines(b)
  {
    SplitConcat(a, b);
    DropBlankConcat(Split(a), Split(b));
  }

  lemma {:induction false} LinesOfMessages(gs: seq<seq<string>>)
    requires forall i, j :: 0 <= i < |gs| && 0 <= j < |gs[i]| ==> IsLine(gs[i][j])
    ensures LinesOf(Messages(gs)) == Flatten(gs)
  {
    if gs != [] {
      assert forall j :: 0 <= j < |gs[0]| ==> IsLine(gs[0][j]);
      LinesJoin(gs[0]);
      LinesOfMessages(gs[1..]);
      assert Messages(gs)[1..] == Messages(gs[1..]);
    }
  }

  /** Parsing a text keeps each of its non-blank lines, once, in order. */
  lemma ParseKeepsLines(p: Parser, text: string)
    ensures LinesOf(Parse(p, Lines(text)).recs) == Lines(text)
  {
    var gs := Groups(p, [], Lines(text));
    ParseGroups(p, Lines(text));
    LinesAreLines(text);
    forall i, j | 0 <= i < |gs| && 0 <= j < |gs[i]| ensures IsLine(gs[i][j]) {
      InFlatten(gs, gs[i], gs[i][j]);
    }
    LinesOfMessages(gs);
  }

  lemma RejoinKeepsLines(pending: seq<string>, chunk: Parsed)
    ensures LinesOf(Rejoin(pending, chunk)) == LinesOf(pending) + LinesOf(chunk.recs)
  {
    hide Lines, Split;
    var recs := chunk.recs;
    LinesOfConcatenated(pending, recs);
    if Rejoin(pending, chunk) != pending + recs {
      var done, m, rest := Front(pending), Last(pending) + [NL] + recs[0], recs[1..];
      LinesOfConcatenated(done, [Last(pending)]);
      LinesOfConcatenated(done, [m]);
      LinesOfConcatenated(done + [m], rest);
      LinesOfJoined(Last(pending), recs[0]);
      assert pending == done + [Last(pending)];
      assert LinesOf([m]) == Lines(m) && LinesOf([Last(pending)]) == Lines(Last(pending));
    }
  }
}
