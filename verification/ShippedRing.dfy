/** Recognising re-read records after a restart (shippedRing, rememberShipped and
    dropAlreadyShipped in internal/pipeline/worker.go). */
module ShippedRing {

  const RING_BYTES: nat := 2097152
  const RING_MAX_KEYS: nat := 50000

  /** A shipped record: the hash of its message, and the bytes it took. */
  datatype Key = Key(h: int, n: nat)

  function KeyOf(hash: string -> int, message: string): Key { Key(hash(message), |message| + 1) }

  function Keys(hash: string -> int, recs: seq<string>): (r: seq<Key>)
    ensures |r| == |recs| && forall i :: 0 <= i < |recs| ==> r[i] == KeyOf(hash, recs[i])
    ensures recs == [] ==> r == []
  {
    if recs == [] then [] else [KeyOf(hash, recs[0])] + Keys(hash, recs[1..])
  }

  function Hashes(keys: seq<Key>): multiset<int>
  {
    if keys == [] then multiset{} else multiset{keys[0].h} + Hashes(keys[1..])
  }

  function Bytes(keys: seq<Key>): nat { if keys == [] then 0 else keys[0].n + Bytes(keys[1..]) }

  lemma {:induction false} Sums(a: seq<Key>, b: seq<Key>)
    ensures Hashes(a + b) == Hashes(a) + Hashes(b) && Bytes(a + b) == Bytes(a) + Bytes(b)
  {
    if a == [] {
      assert a + b == b;
    } else {
      assert (a + b)[1..] == a[1..] + b;
      Sums(a[1..], b);
    }
  }

  /** The text that records were shipped as, one line after the other. */
  function ShippedText(recs: seq<string>): string
  {
    if recs == [] then "" else recs[0] + ['\n'] + ShippedText(recs[1..])
  }

  /** The bytes a ring counts are those of the text. */
  lemma {:induction false} BytesAreText(hash: string -> int, recs: seq<string>)
    ensures Bytes(Keys(hash, recs)) == |ShippedText(recs)|
  {
    if recs != [] {
      BytesAreText(hash, recs[1..]);
      assert Keys(hash, recs)[1..] == Keys(hash, recs[1..]);
    }
  }

  // ------------------------------------------------------------------ the ring

  /** The count map says what the multiset says. */
  ghost predicate Counts(counts: map<int, int>, hs: multiset<int>)
  {
    (forall h :: h in counts ==> counts[h] == hs[h]) && (forall h :: h in hs <==> h in counts)
  }

  function Increment(counts: map<int, int>, h: int): map<int, int>
  {
    counts[h := (if h in counts then counts[h] else 0) + 1]
  }

  function Decrement(counts: map<int, int>, h: int): map<int, int>
    requires h in counts
  {
    if counts[h] - 1 <= 0 then counts - {h} else counts[h := counts[h] - 1]
  }

  lemma IncrementCounts(counts: map<int, int>, keys: seq<Key>, k: Key)
    requires Counts(counts, Hashes(keys))
    ensures Counts(Increment(counts, k.h), Hashes(keys + [k])) && Bytes(keys + [k]) == Bytes(keys) + k.n
  {
    Sums(keys, [k]);
  }

  lemma DecrementCounts(counts: map<int, int>, keys: seq<Key>)
    requires keys != [] && Counts(counts, Hashes(keys))
    ensures keys[0].h in counts
    ensures Counts(Decrement(counts, keys[0].h), Hashes(keys[1..])) && Bytes(keys[1..]) == Bytes(keys) - keys[0].n
  {
    assert keys[0].h in Hashes(keys);
  }

  predicate Positive(keys: seq<Key>) { forall i :: 0 <= i < |keys| ==> keys[i].n > 0 }

  predicate IsRecentEnd(keys: seq<Key>, history: seq<Key>)
  {
    |keys| <= |history| && keys == history[|history| - |keys|..]
  }

  /** How much is kept: everything, or the promised amount of text or of keys. */
  predicate KeepsEnough(keys: seq<Key>, bytes: int, history: seq<Key>)
  {
    keys == history || bytes >= RING_BYTES || |keys| >= RING_MAX_KEYS
  }

  // ------------------------------------------------------------------ dropping

  datatype Filtered = Filtered(kept: seq<string>, used: multiset<int>)

  /** A record is left out as long as the ring holds more of its key than were left out so far. */
  function Filter(hash: string -> int, recs: seq<string>, ring: multiset<int>, used: multiset<int>): Filtered
    decreases |recs|
  {
    if recs == [] then Filtered([], used)
    else
      var h := hash(recs[0]);
      if used[h] < ring[h] then Filter(hash, recs[1..], ring, used + multiset{h})
      else
        var r := Filter(hash, recs[1..], ring, used);
        Filtered([recs[0]] + r.kept, r.used)
  }

  lemma FilterOf(hash: string -> int, recs: seq<string>, ring: multiset<int>, used: multiset<int>)
    ensures recs == [] ==> Filter(hash, recs, ring, used) == Filtered([], used)
    ensures recs != [] ==>
      var h := hash(recs[0]);
      var r := Filter(hash, recs[1..], ring, if used[h] < ring[h] then used + multiset{h} else used);
      Filter(hash, recs, ring, used) == Filtered((if used[h] < ring[h] then [] else [recs[0]]) + r.kept, r.used)
  {
  }

  predicate IsSubsequence(a: seq<string>, b: seq<string>)
    decreases |b|
  {
    a == [] || (b != [] && (IsSubsequence(a, b[1..]) || (a[0] == b[0] && IsSubsequence(a[1..], b[1..]))))
  }

  /** Where a re-read is cut into chunks does not matter. */
  lemma {:induction false} FilterConcat(hash: string -> int, a: seq<string>, b: seq<string>, ring: multiset<int>, used: multiset<int>)
    ensures var x := Filter(hash, a, ring, used); var y := Filter(hash, b, ring, x.used);
      Filter(hash, a + b, ring, used) == Filtered(x.kept + y.kept, y.used)
    decreases |a|
  {
    if a == [] {
      assert a + b == b;
    } else {
      var h := hash(a[0]);
      assert (a + b)[1..] == a[1..] + b;
      FilterConcat(hash, a[1..], b, ring, if used[h] < ring[h] then used + multiset{h} else used);
    }
  }

  lemma AbsorbOne(h: int, rest: multiset<int>, ring: multiset<int>, used: multiset<int>)
    requires used <= ring && used[h] < ring[h]
    ensures used + multiset{h} <= ring
    ensures (multiset{h} + rest) - (ring - used) == rest - (ring - (used + multiset{h}))
  {
  }

  lemma KeepOne(h: int, rest: multiset<int>, ring: multiset<int>, used: multiset<int>)
    requires used <= ring && used[h] >= ring[h]
    ensures (multiset{h} + rest) - (ring - used) == multiset{h} + (rest - (ring - used))
  {
  }

  lemma HashesOfKeys(hash: string -> int, recs: seq<string>)
    requires recs != []
    ensures Hashes(Keys(hash, recs)) == multiset{hash(recs[0])} + Hashes(Keys(hash, recs[1..]))
  {
  }

  /** What is kept, counted, is the re-read data less what the ring still covers. */
  lemma {:induction false} FilterIsDifference(hash: string -> int, recs: seq<string>, ring: multiset<int>, used: multiset<int>)
    requires used <= ring
    ensures var r := Filter(hash, recs, ring, used);
      && Hashes(Keys(hash, r.kept)) == Hashes(Keys(hash, recs)) - (ring - used)
      && used <= r.used <= ring
    decreases |recs|
  {
    hide Hashes, Keys;
    if recs == [] {
      HashesOfNone(hash);
    } else {
      var h, rest := hash(recs[0]), Hashes(Keys(hash, recs[1..]));
      HashesOfKeys(hash, recs);
      if used[h] < ring[h] {
        AbsorbOne(h, rest, ring, used);
        FilterIsDifference(hash, recs[1..], ring, used + multiset{h});
      } else {
        KeepOne(h, rest, ring, used);
        FilterIsDifference(hash, recs[1..], ring, used);
        var k := Filter(hash, recs[1..], ring, used).kept;
        HashesOfKeys(hash, [recs[0]] + k);
        assert ([recs[0]] + k)[1..] == k;
      }
    }
  }

  lemma HashesOfNone(hash: string -> int)
    ensures Hashes(Keys(hash, [])) == multiset{}
  {
  }

  /** The records kept are in their order. */
  lemma {:induction false} FilterKeepsOrder(hash: string -> int, recs: seq<string>, ring: multiset<int>, used: multiset<int>)
    ensures IsSubsequence(Filter(hash, recs, ring, used).kept, recs)
    decreases |recs|
  {
    if recs != [] {
      var h := hash(recs[0]);
      if used[h] < ring[h] {
        FilterKeepsOrder(hash, recs[1..], ring, used + multiset{h});
      } else {
        FilterKeepsOrder(hash, recs[1..], ring, used);
        var k := Filter(hash, recs[1..], ring, used).kept;
        assert ([recs[0]] + k)[1..] == k;
      }
    }
  }

  lemma {:induction false} HashCount(keys: seq<Key>)
    ensures |Hashes(keys)| == |keys|
  {
    if keys != [] {
      HashCount(keys[1..]);
    }
  }

  /** Nothing re-read is lost: with all the ring remembers delivered before, each
      key is in the end delivered at least as often as it was re-read. */
  lemma DedupeLosesNothing(hash: string -> int, recs: seq<string>, ring: multiset<int>, shipped: multiset<int>)
    requires ring <= shipped
    ensures Hashes(Keys(hash, recs)) <= shipped + Hashes(Keys(hash, Filter(hash, recs, ring, multiset{}).kept))
  {
    FilterIsDifference(hash, recs, ring, multiset{});
    assert ring - multiset{} == ring;
  }

  lemma {:induction false} RecentEndsNest(a: seq<Key>, b: seq<Key>, history: seq<Key>)
    requires IsRecentEnd(a, history) && IsRecentEnd(b, history) && |a| <= |b|
    ensures Hashes(a) <= Hashes(b) && Bytes(a) <= Bytes(b)
    ensures |a| < |b| && (Positive(history)) ==> Bytes(a) < Bytes(b)
  {
    var x := b[..|b| - |a|];
    assert b == x + a;
    Sums(x, a);
    if |a| < |b| && Positive(history) {
      assert x[0] == history[|history| - |b|];
    }
  }

  /** The ring covers every rewind: records re-read from the recent end of what was
      shipped, up to two mebibytes of text and 50,000 records, are all recognised. */
  lemma RewindIsCovered(hash: string -> int, keys: seq<Key>, history: seq<Key>, recs: seq<string>)
    requires IsRecentEnd(keys, history) && KeepsEnough(keys, Bytes(keys), history)
    requires Positive(history)
    requires IsRecentEnd(Keys(hash, recs), history)
    requires |ShippedText(recs)| <= 2097152 && |recs| <= 50000
    ensures Filter(hash, recs, Hashes(keys), multiset{}).kept == []
  {
    BytesAreText(hash, recs);
    hide Hashes, Bytes, IsRecentEnd, Positive, Keys, Filter, ShippedText;
    var a := Keys(hash, recs);
    assert |keys| >= |a| by {
      if |keys| < |a| {
        RecentEndsNest(keys, a, history);
        EndIsLonger(a, keys, history);
      }
    }
    RecentEndsNest(a, keys, history);
    var ring := Hashes(keys);
    FilterIsDifference(hash, recs, ring, multiset{});
    assert ring - multiset{} == ring && Hashes(a) - ring == multiset{};
    HashCount(Keys(hash, Filter(hash, recs, ring, multiset{}).kept));
  }

  lemma EndIsLonger(a: seq<Key>, keys: seq<Key>, history: seq<Key>)
    requires IsRecentEnd(a, history)
    ensures |a| <= |history|
  {
  }

  lemma RecentEndGrows(keys: seq<Key>, bytes: int, history: seq<Key>, k: Key)
    requires IsRecentEnd(keys, history) && KeepsEnough(keys, bytes, history) && Positive(history) && k.n > 0
    ensures IsRecentEnd(keys + [k], history + [k]) && KeepsEnough(keys + [k], bytes + k.n, history + [k])
    ensures Positive(history + [k])
  {
  }

  lemma DropFromRecentEnd(keys: seq<Key>, history: seq<Key>, n: nat)
    requires IsRecentEnd(keys, history) && n <= |keys|
    ensures IsRecentEnd(keys[n..], history)
  {
  }

  lemma KeysSnoc(hash: string -> int, recs: seq<string>, i: nat)
    requires i < |recs|
    ensures Keys(hash, recs[..i + 1]) == Keys(hash, recs[..i]) + [KeyOf(hash, recs[i])]
  {
  }

  class Ring {
    const hash: string -> int
    var keys: seq<Key>
    var bytes: int
    var counts: map<int, int>

    /** The keys of everything ever remembered, in order. */
    ghost var history: seq<Key>

    ghost predicate Valid()
      reads this
    {
      && Represents(keys) && Positive(history)
      && IsRecentEnd(keys, history) && KeepsEnough(keys, bytes, history) && |keys| <= RING_MAX_KEYS
      && (keys != [] ==> bytes - keys[0].n < RING_BYTES)
    }

    ghost predicate Represents(ks: seq<Key>)
      reads this
    {
      bytes == Bytes(ks) && Counts(counts, Hashes(ks))
    }

    constructor (hash: string -> int)
      ensures Valid() && this.hash == hash && history == []
    {
      this.hash, keys, bytes, counts, history := hash, [], 0, map[], [];
    }

    /** The first loop of rememberShipped. */
    method Append(recs: seq<string>)
      requires Valid()
      modifies this
      ensures Represents(keys) && Positive(history) && IsRecentEnd(keys, history)
      ensures KeepsEnough(keys, bytes, history)
      ensures history == old(history) + Keys(hash, recs)
    {
      hide Counts, Hashes, Bytes, Increment, Positive, IsRecentEnd, KeepsEnough, Keys;
      var i := 0;
      assert recs[..0] == [] && Keys(hash, []) == [];
      while i < |recs|
        invariant 0 <= i <= |recs|
        invariant Represents(keys) && Positive(history) && IsRecentEnd(keys, history)
        invariant KeepsEnough(keys, bytes, history)
        invariant history == old(history) + Keys(hash, recs[..i])
      {
        var k := KeyOf(hash, recs[i]);
        KeysSnoc(hash, recs, i);
        IncrementCounts(counts, keys, k);
        RecentEndGrows(keys, bytes, history, k);
        keys := keys + [k];
        history := history + [k];
        bytes := bytes + k.n;
        counts := Increment(counts, k.h);
        i := i + 1;
      }
      assert recs[..i] == recs;
    }

    /** rememberShipped: remember acknowledged records, then forget the oldest
        while enough would be left, or while there are too many. */
    method Remember(recs: seq<string>)
      requires Valid()
      modifies this
      ensures Valid() && history == old(history) + Keys(hash, recs)
    {
      hide Counts, Hashes, Bytes, Positive, IsRecentEnd, KeepsEnough, Keys;
      Append(recs);
      var drop := Forget();
      if drop > 0 {
        DropFromRecentEnd(keys, history, drop);
        keys := keys[drop..];
      } else {
        assert keys[0..] == keys;
      }
    }

    /** The second loop: how many of the oldest keys to drop. */
    method Forget() returns (drop: nat)
      requires Represents(keys) && KeepsEnough(keys, bytes, history)
      modifies `bytes, `counts
      ensures drop <= |keys| && Represents(keys[drop..])
      ensures KeepsEnough(keys[drop..], bytes, history) && |keys[drop..]| <= RING_MAX_KEYS
      ensures drop < |keys| ==> bytes - keys[drop].n < RING_BYTES
    {
      hide Counts, Hashes, Bytes, Decrement;
      drop := 0;
      assert keys[0..] == keys;
      while drop < |keys| && (bytes - keys[drop].n >= RING_BYTES || |keys| - drop > RING_MAX_KEYS)
        invariant 0 <= drop <= |keys|
        invariant Represents(keys[drop..])
        invariant KeepsEnough(keys[drop..], bytes, history)
      {
        assert keys[drop..][1..] == keys[drop + 1..];
        DecrementCounts(counts, keys[drop..]);
        bytes := bytes - keys[drop].n;
        counts := Decrement(counts, keys[drop].h);
        drop := drop + 1;
      }
    }

    /** dropAlreadyShipped, `consumed` being what the drain has dropped so far. */
    method DropAlreadyShipped(recs: seq<string>, consumedIn: map<int, int>, ghost used: multiset<int>)
      returns (kept: seq<string>, consumed: map<int, int>)
      requires Valid() && Counts(consumedIn, used)
      ensures kept == Filter(hash, recs, Hashes(keys), used).kept
      ensures Counts(consumed, Filter(hash, recs, Hashes(keys), used).used)
    {
      hide Hashes, Filter;
      kept, consumed := [], consumedIn;
      ghost var u, ring := used, Hashes(keys);
      var i := 0;
      assert recs[0..] == recs;
      FilterOf(hash, recs, ring, used);
      while i < |recs|
        invariant 0 <= i <= |recs|
        invariant Counts(consumed, u)
        invariant kept + Filter(hash, recs[i..], ring, u).kept == Filter(hash, recs, ring, used).kept
        invariant Filter(hash, recs[i..], ring, u).used == Filter(hash, recs, ring, used).used
      {
        assert recs[i..][0] == recs[i] && recs[i..][1..] == recs[i + 1..];
        FilterOf(hash, recs[i..], ring, u);
        var h := hash(recs[i]);
        var c, s := if h in consumed then consumed[h] else 0, if h in counts then counts[h] else 0;
        assert c == u[h] && s == ring[h];
        if c < s {
          consumed := Increment(consumed, h);
          u := u + multiset{h};
        } else {
          kept := kept + [recs[i]];
        }
        i := i + 1;
      }
      FilterOf(hash, recs[i..], ring, u);
    }
  }
}
