/** Log text as a sequence of bytes, and its division into lines.
    A `char` stands for one byte of the file. */
module Text {

  const NL: char := '\n'

  /** strings.Split(s, "\n"): the pieces between newlines, never empty. */
  function Split(s: string): (r: seq<string>)
    ensures |r| >= 1
  {
    if s == "" then [""] else PutFirst(s[0], Split(s[1..]))
  }

  /** The pieces of c followed by a text with pieces r. */
  function PutFirst(c: char, r: seq<string>): (r': seq<string>)
    requires |r| >= 1
    ensures |r'| >= 1
  {
    if c == NL then [""] + r else [[c] + r[0]] + r[1..]
  }

  function DropBlank(ls: seq<string>): (r: seq<string>)
    ensures forall l :: l in r ==> l in ls && l != ""
  {
    if ls == [] then []
    else if ls[0] == "" then DropBlank(ls[1..])
    else [ls[0]] + DropBlank(ls[1..])
  }

  /** The lines the record parser looks at: blank ones are skipped. */
  function Lines(s: string): seq<string> { DropBlank(Split(s)) }

  /** Text that consists of whole lines only. */
  predicate Aligned(s: string) { s == "" || s[|s| - 1] == NL }

  /** strings.LastIndexByte(t, '\n') + 1: where the last complete line ends. */
  function AfterLastNL(t: string): (r: nat)
    ensures r <= |t| && forall j :: r <= j < |t| ==> t[j] != NL
    ensures r > 0 ==> t[r - 1] == NL
  {
    if t == "" then 0 else if t[|t| - 1] == NL then |t| else AfterLastNL(t[..|t| - 1])
  }

  predicate HasSuffix(t: string, s: string) { |s| <= |t| && t[|t| - |s|..] == s }

  /** Lines joined by newlines: the message of an entry made of these lines. */
  function Join(ls: seq<string>): string
  {
    if ls == [] then ""
    else if |ls| == 1 then ls[0]
    else ls[0] + [NL] + Join(ls[1..])
  }

  predicate IsLine(l: string) { l != "" && NL !in l }

  lemma PutFirstConcat(c: char, x: seq<string>, y: seq<string>)
    requires |x| >= 1
    ensures PutFirst(c, x + y) == PutFirst(c, x) + y
  {
  }

  lemma NewlineFirst(y: seq<string>)
    requires |y| >= 1
    ensures PutFirst(NL, y) == [""] + y
  {
  }

  lemma {:induction false} SplitConcat(a: string, b: string)
    ensures Split(a + [NL] + b) == Split(a) + Split(b)
  {
    hide PutFirst;
    var t := a + [NL] + b;
    if a == "" {
      NewlineFirst(Split(b));
      assert t[1..] == b;
    } else {
      assert t[0] == a[0] && t[1..] == a[1..] + [NL] + b;
      SplitConcat(a[1..], b);
      PutFirstConcat(a[0], Split(a[1..]), Split(b));
    }
  }

  lemma {:induction false} DropBlankConcat(a: seq<string>, b: seq<string>)
    ensures DropBlank(a + b) == DropBlank(a) + DropBlank(b)
  {
    if a == [] {
      assert a + b == b;
    } else {
      assert (a + b)[1..] == a[1..] + b;
      DropBlankConcat(a[1..], b);
    }
  }

  /** Cutting text after a newline cuts its list of lines. */
  lemma LinesConcat(a: string, b: string)
    requires Aligned(a)
    ensures Lines(a + b) == Lines(a) + Lines(b)
  {
    if a == "" {
      assert a + b == b;
    } else {
      var c := a[..|a| - 1];
      assert a == c + [NL] + "";
      assert a + b == c + [NL] + b;
      SplitConcat(c, b);
      SplitConcat(c, "");
      DropBlankConcat(Split(c), Split(b));
      DropBlankConcat(Split(c), [""]);
    }
  }

  lemma {:induction false} SplitPieces(s: string)
    ensures forall l :: l in Split(s) ==> NL !in l
  {
    if s != "" {
      SplitPieces(s[1..]);
    }
  }

  lemma LinesAreLines(s: string)
    ensures forall l :: l in Lines(s) ==> IsLine(l)
  {
    SplitPieces(s);
  }

  lemma {:induction false} SplitLine(l: string)
    requires NL !in l
    ensures Split(l) == [l]
  {
    if l != "" {
      SplitLine(l[1..]);
      assert l == [l[0]] + l[1..];
    }
  }

  /** Splitting undoes joining. */
  lemma LineAlone(l: string)
    requires IsLine(l)
    ensures Lines(l + [NL]) == [l]
  {
    SplitLine(l);
    SplitConcat(l, "");
    assert l + [NL] + "" == l + [NL];
    DropBlankConcat([l], [""]);
  }

  lemma {:induction false} SplitJoin(ls: seq<string>)
    requires ls != [] && forall l :: l in ls ==> NL !in l
    ensures Split(Join(ls)) == ls
  {
    SplitLine(ls[0]);
    if |ls| > 1 {
      SplitJoin(ls[1..]);
      SplitConcat(ls[0], Join(ls[1..]));
      assert ls == [ls[0]] + ls[1..];
    } else {
      assert ls == [ls[0]];
    }
  }

  lemma {:induction false} DropBlankKeeps(ls: seq<string>)
    requires "" !in ls
    ensures DropBlank(ls) == ls
  {
    if ls != [] {
      DropBlankKeeps(ls[1..]);
    }
  }

  lemma LinesJoin(ls: seq<string>)
    requires forall l :: l in ls ==> IsLine(l)
    ensures Lines(Join(ls)) == ls
  {
    if ls != [] {
      SplitJoin(ls);
      DropBlankKeeps(ls);
    }
  }

  lemma {:induction false} JoinConcat(a: seq<string>, b: seq<string>)
    requires a != [] && b != []
    ensures Join(a + b) == Join(a) + [NL] + Join(b)
  {
    if |a| == 1 {
      assert (a + b)[1..] == b;
    } else {
      assert (a + b)[1..] == a[1..] + b;
      JoinConcat(a[1..], b);
    }
  }
}
