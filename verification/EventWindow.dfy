/** Watching RDS events for restarts with overlapping windows (watchRestarts in
    internal/pipeline/scheduler.go, PollRestartEvents in internal/source/rds/events.go). */
module EventWindow {
  import opened Records
  import opened Wrappers

  const RESTART_LOOKBACK: int := 300000000000 // five minutes, in nanoseconds

  /** An event of an instance: when it happened, when DescribeEvents first lists it,
      and what it says. */
  datatype Event = Event(instance: string, at: int, visible: int, categories: seq<string>, message: string)

  /** What two sightings are told apart by. */
  datatype Key = Key(instance: string, at: int)

  function KeyOf(e: Event): Key { Key(e.instance, e.at) }

  function LowerChar(c: char): char { if 'A' <= c <= 'Z' then c - 'A' + 'a' else c }

  function ToLower(s: string): (r: string)
    ensures |r| == |s|
    ensures forall i :: 0 <= i < |s| ==> r[i] as int == s[i] as int + if 65 <= s[i] as int <= 90 then 32 else 0
  {
    seq(|s|, i requires 0 <= i < |s| => LowerChar(s[i]))
  }

  predicate Contains(s: string, part: string)
  {
    exists i :: 0 <= i <= |s| && part <= s[i..]
  }

  predicate SaysRestart(category: string, msg: string)
  {
    || category == "failover"
    || (category == "availability" && (Contains(msg, "restart") || Contains(msg, "reboot") || Contains(msg, "shutdown")))
  }

  /** A reboot or a failover, by the event's own words in any case. */
  predicate IsRestart(e: Event)
  {
    exists i :: 0 <= i < |e.categories| && SaysRestart(ToLower(e.categories[i]), ToLower(e.message))
  }

  lemma LowerConcat(a: string, b: string)
    ensures ToLower(a + b) == ToLower(a) + ToLower(b)
  {
  }

  function Lowered(words: seq<string>): (r: seq<string>)
    ensures |r| == |words| && forall i :: 0 <= i < |r| ==> r[i] == ToLower(words[i])
  {
    if words == [] then [] else [ToLower(words[0])] + Lowered(words[1..])
  }

  /** The words, in any case and anywhere in the message. */
  lemma RestartSpoken(e: Event, i: nat, pre: string, word: string, post: string)
    requires i < |e.categories| && ToLower(e.categories[i]) == "availability" && e.message == pre + word + post
    requires ToLower(word) in ["restart", "reboot", "shutdown"]
    ensures IsRestart(e)
  {
    LowerConcat(pre + word, post);
    LowerConcat(pre, word);
    var msg, w := ToLower(e.message), ToLower(word);
    assert msg[|pre|..] == w + ToLower(post);
    assert Contains(msg, w);
    assert SaysRestart(ToLower(e.categories[i]), msg);
  }

  method IsRestartEvent(e: Event) returns (r: bool)
    ensures r <==> IsRestart(e)
    ensures var msg := ToLower(e.message);
      var speaks := Contains(msg, "restart") || Contains(msg, "reboot") || Contains(msg, "shutdown");
      var said := Lowered(e.categories);
      r <==> "failover" in said || ("availability" in said && speaks)
  {
    hide ToLower, Contains;
    var msg := ToLower(e.message);
    ghost var said := Lowered(e.categories);
    for i := 0 to |e.categories|
      invariant forall j :: 0 <= j < i ==> !SaysRestart(said[j], msg)
    {
      var c := ToLower(e.categories[i]);
      assert said[i] == c;
      if c == "failover" {
        return true;
      } else if c == "availability" {
        if Contains(msg, "restart") || Contains(msg, "reboot") || Contains(msg, "shutdown") {
          return true;
        }
      }
    }
    return false;
  }

  /** What DescribeEvents lists, of any kind, and what a poll is after. */
  predicate Listed(e: Event, since: int, until: int) { since <= e.at <= until && e.visible <= until }

  predicate InWindow(e: Event, since: int, until: int) { Listed(e, since, until) && IsRestart(e) }

  function RestartsOf(es: seq<Event>): (r: seq<Event>)
    ensures forall e :: e in r <==> e in es && IsRestart(e)
  {
    if es == [] then [] else RestartsOf(Front(es)) + (if IsRestart(Last(es)) then [Last(es)] else [])
  }

  lemma {:induction false} RestartsConcat(a: seq<Event>, b: seq<Event>)
    ensures RestartsOf(a + b) == RestartsOf(a) + RestartsOf(b)
  {
    hide IsRestart;
    if b == [] {
      assert a + b == a;
    } else {
      assert Front(a + b) == a + Front(b) && Last(a + b) == Last(b);
      RestartsConcat(a, Front(b));
    }
  }

  lemma OnePageMore(pages: seq<seq<Event>>, k: nat)
    requires k < |pages|
    ensures RestartsOf(Flatten(pages[..k + 1])) == RestartsOf(Flatten(pages[..k])) + RestartsOf(pages[k])
  {
    hide RestartsOf;
    FlattenLast(pages[..k + 1]);
    assert Front(pages[..k + 1]) == pages[..k];
    RestartsConcat(Flatten(pages[..k]), pages[k]);
  }

  /** The restart events of one page, appended. */
  method AddPage(before: seq<Event>, page: seq<Event>) returns (out: seq<Event>)
    ensures out == before + RestartsOf(page)
  {
    hide IsRestart;
    out := before;
    for i := 0 to |page|
      invariant out == before + RestartsOf(page[..i])
    {
      var restart := IsRestartEvent(page[i]);
      assert Front(page[..i + 1]) == page[..i];
      if restart {
        out := out + [page[i]];
      }
    }
    assert page[..|page|] == page;
  }

  /** PollRestartEvents over the pages of one listing: each response names the next
      page but the last. Any request that fails (the one for page `failsAt`) fails
      the whole poll. */
  method PollRestartEvents(pages: seq<seq<Event>>, failsAt: Option<nat>) returns (ok: bool, out: seq<Event>)
    requires pages != []
    ensures ok <==> failsAt.None? || failsAt.value >= |pages|
    ensures out == if ok then RestartsOf(Flatten(pages)) else []
  {
    hide RestartsOf, Flatten;
    out := [];
    var marker: Option<nat> := None;
    NothingListed(pages);
    while true
      invariant marker.GetOr(0) < |pages|
      invariant failsAt.Some? ==> marker.GetOr(0) <= failsAt.value
      invariant out == RestartsOf(Flatten(pages[..marker.GetOr(0)]))
      decreases |pages| - marker.GetOr(0)
    {
      var k := marker.GetOr(0);
      if failsAt == Some(k) {
        return false, [];
      }
      OnePageMore(pages, k);
      out := AddPage(out, pages[k]);
      if k + 1 == |pages| {
        assert pages[..|pages|] == pages;
        return true, out;
      }
      marker := Some(k + 1);
    }
  }

  lemma NothingListed(pages: seq<seq<Event>>)
    ensures RestartsOf(Flatten(pages[..0])) == []
  {
    assert pages[..0] == [];
  }

  /** What a successful poll returns: the restart events of the window listed by then,
      in any order. */
  ghost predicate Answers(world: set<Event>, since: int, until: int, reply: seq<Event>)
  {
    && (forall i :: 0 <= i < |reply| ==> reply[i] in world && InWindow(reply[i], since, until))
    && (forall e :: e in world && InWindow(e, since, until) ==> e in reply)
  }

  /** The events a watcher can be held to: listed within the lookback of their
      time, by the last successful poll, and either after the watch started or,
      once a poll has succeeded, not before its first window. */
  predicate Due(e: Event, start: int, polled: bool, last: int)
  {
    && IsRestart(e)
    && e.at <= e.visible <= e.at + RESTART_LOOKBACK
    && e.visible <= last
    && (start < e.visible || (polled && start - RESTART_LOOKBACK <= e.at))
  }

  /** Each key was handed on at most once, and is remembered while it can still
      come up in a window that begins at `since`; nothing is from after `now`. */
  ghost predicate Remembers(seen: map<Key, int>, since: int, now: int, handed: seq<Key>)
  {
    && (forall k :: k in seen ==> k in handed && k.at <= seen[k] <= now)
    && (forall k :: k in handed ==> k in seen || k.at < since)
    && (forall i, j :: 0 <= i < j < |handed| ==> handed[i] != handed[j])
  }

  /** Forgetting what is over twice the lookback old is safe for later windows. */
  lemma ForgettingIsSafe(seen: map<Key, int>, since: int, now: int, handed: seq<Key>, kept: map<Key, int>)
    requires Remembers(seen, since, now, handed)
    requires kept == map k | k in seen && now - seen[k] <= 2 * RESTART_LOOKBACK :: seen[k]
    requires since <= now - RESTART_LOOKBACK
    ensures Remembers(kept, now - RESTART_LOOKBACK, now, handed)
  {
  }

  class Watcher {
    ghost const world: set<Event>
    ghost const start: int
    var seen: map<Key, int>
    var since: int
    /** Every key the worker lookup was called for, in order. */
    var handed: seq<Key>
    /** The time of the last successful poll, and whether there was one. */
    ghost var last: int
    ghost var polled: bool

    /** Never twice, and nothing due missed. */
    ghost predicate Valid()
      reads this
    {
      && start <= last && since == last - RESTART_LOOKBACK
      && Remembers(seen, since, last, handed)
      && (forall e :: e in world && Due(e, start, polled, last) ==> KeyOf(e) in handed)
      && (!polled ==> last == start)
    }

    constructor (ghost world: set<Event>, now: int)
      ensures Valid() && this.world == world && start == last == now && handed == []
    {
      this.world, start := world, now;
      seen, since, handed, last, polled := map[], now - RESTART_LOOKBACK, [], now, false;
    }

    /** The events of one successful poll, one by one. */
    method HandOn(now: int, reply: seq<Event>)
      requires Remembers(seen, since, now, handed)
      requires forall i :: 0 <= i < |reply| ==> InWindow(reply[i], since, now)
      modifies `seen, `handed
      ensures Remembers(seen, since, now, handed)
      ensures old(handed) <= handed
      ensures forall i :: 0 <= i < |reply| ==> KeyOf(reply[i]) in handed
      ensures forall k :: k in handed ==> k in old(handed) || exists i :: 0 <= i < |reply| && KeyOf(reply[i]) == k
    {
      var i := 0;
      while i < |reply|
        invariant 0 <= i <= |reply|
        invariant Remembers(seen, since, now, handed)
        invariant old(handed) <= handed
        invariant forall j :: 0 <= j < i ==> KeyOf(reply[j]) in handed
        invariant forall k :: k in handed ==> k in old(handed) || exists j :: 0 <= j < i && KeyOf(reply[j]) == k
      {
        var k := KeyOf(reply[i]);
        if k !in seen {
          seen := seen[k := now];
          handed := handed + [k];
        }
        i := i + 1;
      }
    }

    /** Drop what was handed on more than twice the lookback ago. */
    method Forget(now: int)
      modifies `seen
      ensures seen == map k | k in old(seen) && now - old(seen)[k] <= 2 * RESTART_LOOKBACK :: old(seen)[k]
    {
      var todo := seen.Keys;
      while todo != {}
        invariant todo <= old(seen).Keys
        invariant seen == map k | k in old(seen) && (k in todo || now - old(seen)[k] <= 2 * RESTART_LOOKBACK) :: old(seen)[k]
        decreases |todo|
      {
        var k :| k in todo;
        if now - seen[k] > 2 * RESTART_LOOKBACK {
          seen := seen - {k};
        }
        todo := todo - {k};
      }
    }

    /** One tick: a poll that failed changes nothing; one that succeeded hands on
        exactly the keys of its window that were not handed on before. */
    method Tick(now: int, ok: bool, reply: seq<Event>)
      requires Valid() && last <= now
      requires ok ==> Answers(world, since, now, reply)
      modifies this
      ensures Valid() && old(handed) <= handed
      ensures !ok ==> seen == old(seen) && since == old(since) && handed == old(handed) && last == old(last)
      ensures ok ==> last == now && polled
      ensures ok ==> forall k :: k in seen ==> now <= seen[k] + 600000000000 // ten minutes, in nanoseconds
      ensures ok ==> forall k :: k in handed <==>
        k in old(handed) || exists e :: e in world && InWindow(e, old(since), now) && KeyOf(e) == k
    {
      if !ok {
        return;
      }
      HandOn(now, reply);
      Forget(now);
      since := now - RESTART_LOOKBACK;
      last, polled := now, true;
    }
  }

  /** A poll, and the page whose request fails, if any. */
  datatype Poll = Poll(now: int, failsAt: Option<nat>)

  /** The server's pages: all events of the window that are listed, in any order and
      cut into pages anywhere. */
  ghost predicate PagesOf(world: set<Event>, since: int, until: int, pages: seq<seq<Event>>)
  {
    && pages != []
    && forall e :: e in Flatten(pages) <==> e in world && Listed(e, since, until)
  }

  lemma FlattenSnoc(pages: seq<seq<Event>>, e: Event)
    requires pages != []
    ensures Flatten(pages + [[e]]) == Flatten(Front(pages) + [Last(pages) + [e]]) == Flatten(pages) + [e]
  {
    FlattenLast(pages);
    FlattenConcat(pages, [[e]]);
    FlattenConcat(Front(pages), [Last(pages) + [e]]);
    assert Flatten([[e]]) == [e] && Flatten([Last(pages) + [e]]) == Last(pages) + [e];
  }

  method DescribeEvents(world: set<Event>, since: int, until: int) returns (pages: seq<seq<Event>>)
    ensures PagesOf(world, since, until, pages)
  {
    pages := [[]];
    var todo := world;
    while todo != {}
      invariant todo <= world && pages != []
      invariant forall e :: e in Flatten(pages) <==> e in world - todo && Listed(e, since, until)
      decreases |todo|
    {
      var e :| e in todo;
      var newPage: bool := *;
      if Listed(e, since, until) {
        ghost var was := pages;
        pages := if newPage then pages + [[e]] else Front(pages) + [Last(pages) + [e]];
        FlattenSnoc(was, e);
      }
      todo := todo - {e};
    }
  }

  lemma PagesAnswer(world: set<Event>, since: int, until: int, pages: seq<seq<Event>>)
    requires PagesOf(world, since, until, pages)
    ensures Answers(world, since, until, RestartsOf(Flatten(pages)))
  {
    hide IsRestart, Flatten;
    var r := RestartsOf(Flatten(pages));
    assert forall i :: 0 <= i < |r| ==> r[i] in r;
  }

  /** Any sequence of polls on a clock that does not run backwards: every key is
      handed to worker lookup at most once, and that of an event listed within
      five minutes, by the last successful poll, exactly once. */
  method Watch(world: set<Event>, start: int, polls: seq<Poll>) returns (handed: seq<Key>, ghost last: int)
    requires forall i :: 0 <= i < |polls| ==> start <= polls[i].now
    requires forall i, j :: 0 <= i < j < |polls| ==> polls[i].now <= polls[j].now
    ensures forall i, j :: 0 <= i < j < |handed| ==> handed[i] != handed[j]
    ensures forall e :: e in world && start < e.visible && Due(e, start, true, last) ==>
      exists k :: k in handed && k.instance == e.instance && k.at == e.at
    ensures forall i :: 0 <= i < |polls| && polls[i].failsAt.None? ==> polls[i].now <= last
  {
    var w := new Watcher(world, start);
    var i := 0;
    while i < |polls|
      invariant 0 <= i <= |polls| && w.Valid() && w.world == world && w.start == start
      invariant i < |polls| ==> w.last <= polls[i].now
      invariant forall j :: 0 <= j < i && polls[j].failsAt.None? ==> polls[j].now <= w.last
    {
      var pages := DescribeEvents(world, w.since, polls[i].now);
      var ok, reply := PollRestartEvents(pages, polls[i].failsAt);
      PagesAnswer(world, w.since, polls[i].now, pages);
      w.Tick(polls[i].now, ok, reply);
      i := i + 1;
    }
    handed, last := w.handed, w.last;
    forall e | e in world && start < e.visible && Due(e, start, true, last)
      ensures exists k :: k in handed && k.instance == e.instance && k.at == e.at
    {
      assert KeyOf(e) in handed;
    }
  }
}
