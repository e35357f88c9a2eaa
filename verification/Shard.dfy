/** Splitting a fleet over processes by rendezvous hashing (internal/shard/shard.go). */
module Shard {

  // ---------------------------------------------------------------------- mix

  function Xor30(x: bv64): bv64 { x ^ (x >> 30) }
  function Xor27(x: bv64): bv64 { x ^ (x >> 27) }
  function Xor31(x: bv64): bv64 { x ^ (x >> 31) }
  function Times1(x: bv64): bv64 { x * 0xbf58476d1ce4e5b9 }
  function Times2(x: bv64): bv64 { x * 0x94d049bb133111eb }

  /** mix, the splitmix64 finalizer. */
  function MixOf(x: bv64): bv64 { Xor31(Times2(Xor27(Times1(Xor30(x))))) }

  method Mix(x0: bv64) returns (x: bv64)
    ensures x == MixOf(x0)
  {
    hide Xor30, Xor27, Xor31, Times1, Times2;
    x := x0;
    x := Xor30(x);
    x := Times1(x);
    x := Xor27(x);
    x := Times2(x);
    return Xor31(x);
  }

  function Back30(y: bv64): bv64 { y ^ (y >> 30) ^ (y >> 60) }
  function Back27(y: bv64): bv64 { y ^ (y >> 27) ^ (y >> 54) }
  function Back31(y: bv64): bv64 { y ^ (y >> 31) ^ (y >> 62) }
  function Over1(y: bv64): bv64 { y * 0x96de1b173f119089 }
  function Over2(y: bv64): bv64 { y * 0x319642b2d24d8ec3 }

  /** The steps of mix, undone in reverse order. */
  function Unmix(y: bv64): bv64 { Back30(Over1(Back27(Over2(Back31(y))))) }

  lemma Undo30(x: bv64)
    ensures Back30(Xor30(x)) == x
  {
    hide Back30;
    Plain30(x);
  }

  lemma Plain30(x: bv64)
    ensures Back30(x ^ (x >> 30)) == x
  {
  }

  lemma Undo27(x: bv64)
    ensures Back27(Xor27(x)) == x
  {
    hide Back27;
    Plain27(x);
  }

  lemma Plain27(x: bv64)
    ensures Back27(x ^ (x >> 27)) == x
  {
  }

  lemma Undo31(x: bv64)
    ensures Back31(Xor31(x)) == x
  {
    hide Back31;
    Plain31(x);
  }

  lemma Plain31(x: bv64)
    ensures Back31(x ^ (x >> 31)) == x
  {
  }

  lemma UndoTimes1(x: bv64)
    ensures Over1(Times1(x)) == x
  {
    hide Over1;
    PlainTimes1(x);
  }

  lemma PlainTimes1(x: bv64)
    ensures Over1(x * 0xbf58476d1ce4e5b9) == x
  {
  }

  lemma UndoTimes2(x: bv64)
    ensures Over2(Times2(x)) == x
  {
    hide Over2;
    PlainTimes2(x);
  }

  lemma PlainTimes2(x: bv64)
    ensures Over2(x * 0x94d049bb133111eb) == x
  {
  }

  lemma MixUndone(x: bv64)
    ensures Unmix(MixOf(x)) == x
  {
    hide Xor30, Xor27, Xor31, Times1, Times2, Back30, Back27, Back31, Over1, Over2;
    var a := Xor30(x);
    var b := Times1(a);
    var c := Xor27(b);
    var d := Times2(c);
    Undo31(d);
    UndoTimes2(c);
    Undo27(b);
    UndoTimes1(a);
    Undo30(x);
  }

  /** mix loses nothing: distinct 64-bit words have distinct images. */
  lemma MixIsInjective(x: bv64, y: bv64)
    requires MixOf(x) == MixOf(y)
    ensures x == y
  {
    hide MixOf, Unmix;
    MixUndone(x);
    MixUndone(y);
  }

  // ---------------------------------------------------------------- ownership

  datatype Shard = Shard(index: int, count: int)

  /** The weight of shard j for a key, a 64-bit word taken as a number; sum stands
      for the FNV-1a hash of the key, a zero byte and j in decimal. */
  function Weight(sum: (string, int) -> bv64, key: string, j: int): nat { MixOf(sum(key, j)) as nat }

  /** Shard j of 1..n wins the key: none weighs more, and none before it as much. */
  ghost predicate Wins(sum: (string, int) -> bv64, key: string, n: int, j: int)
  {
    && 1 <= j <= n
    && (forall i :: 1 <= i <= n ==> Weight(sum, key, i) <= Weight(sum, key, j))
    && (forall i :: 1 <= i < j ==> Weight(sum, key, i) < Weight(sum, key, j))
  }

  /** Winning among one shard more. */
  lemma WinsNext(sum: (string, int) -> bv64, key: string, n: int, w: int)
    requires n >= 1 && Wins(sum, key, n, w)
    ensures Wins(sum, key, n + 1, if Weight(sum, key, n + 1) > Weight(sum, key, w) then n + 1 else w)
  {
    hide Weight;
  }

  lemma OneWinner(sum: (string, int) -> bv64, key: string, n: int, a: int, b: int)
    requires Wins(sum, key, n, a)
    ensures Wins(sum, key, n, b) <==> a == b
  {
    hide Weight;
    if Wins(sum, key, n, b) {
      var x, y := Weight(sum, key, a), Weight(sum, key, b);
      assert x <= y && y <= x;
    }
  }

  /** Owns. */
  method Owns(s: Shard, sum: (string, int) -> bv64, key: string) returns (owns: bool)
    ensures s.count <= 1 ==> owns
    ensures s.count > 1 ==> (owns <==> Wins(sum, key, s.count, s.index))
  {
    hide MixOf, Wins;
    if s.count <= 1 {
      return true;
    }
    var best: nat, owner := 0, 0;
    var j := 1;
    while j <= s.count
      invariant 1 <= j <= s.count + 1
      invariant j > 1 ==> Wins(sum, key, j - 1, owner) && best == Weight(sum, key, owner)
    {
      var x := Mix(sum(key, j));
      var v := x as nat;
      if j == 1 {
        WinsAlone(sum, key);
      } else {
        WinsNext(sum, key, j - 1, owner);
      }
      if j == 1 || v > best {
        best, owner := v, j;
      }
      j := j + 1;
    }
    OneWinner(sum, key, s.count, owner, s.index);
    return owner == s.index;
  }

  lemma WinsAlone(sum: (string, int) -> bv64, key: string)
    ensures Wins(sum, key, 1, 1)
  {
    hide Weight;
  }

  /** What Owns decides, as a property of shard i of n. */
  ghost predicate OwnsKey(sum: (string, int) -> bv64, key: string, n: int, i: int)
  {
    n <= 1 || Wins(sum, key, n, i)
  }

  ghost predicate OnlyOwner(sum: (string, int) -> bv64, key: string, n: int, i: int)
  {
    OwnsKey(sum, key, n, i) && forall j :: 1 <= j <= n && OwnsKey(sum, key, n, j) ==> j == i
  }

  lemma {:induction false} SomeWinner(sum: (string, int) -> bv64, key: string, n: int) returns (w: int)
    requires n >= 1
    ensures Wins(sum, key, n, w)
    decreases n
  {
    hide Wins, Weight;
    if n == 1 {
      WinsAlone(sum, key);
      w := 1;
    } else {
      var v := SomeWinner(sum, key, n - 1);
      WinsNext(sum, key, n - 1, v);
      w := if Weight(sum, key, n) > Weight(sum, key, v) then n else v;
    }
  }

  /** Every key has exactly one owner among the shards 1..n. */
  lemma ExactlyOneOwner(sum: (string, int) -> bv64, key: string, n: int)
    requires n >= 1
    ensures exists i :: 1 <= i <= n && OnlyOwner(sum, key, n, i)
  {
    var w := SomeWinner(sum, key, n);
    forall j | 1 <= j <= n && OwnsKey(sum, key, n, j) ensures j == w {
      if n > 1 {
        OneWinner(sum, key, n, w, j);
      }
    }
    assert OnlyOwner(sum, key, n, w);
  }

  lemma MixOfZero()
    ensures MixOf(0) == 0
  {
  }

  /** One shard's word is 1 and the others' are 0: it wins. */
  lemma OneWins(sum: (string, int) -> bv64, key: string, n: int, i: int)
    requires 1 <= i <= n && forall s :: 1 <= s <= n ==> sum(key, s) == if s == i then 1 else 0
    ensures Wins(sum, key, n, i)
  {
    hide MixOf;
    MixOfZero();
    if MixOf(1) == 0 {
      MixIsInjective(0, 1);
    }
    assert forall s :: 1 <= s <= n ==> Weight(sum, key, s) == if s == i then MixOf(1) as nat else 0;
  }

  /** The key and the shard's number both count: any two keys can have any two owners. */
  lemma AnyOwners(k1: string, k2: string, n: int, i: int, j: int) returns (sum: (string, int) -> bv64)
    requires k1 != k2 && n > 1 && 1 <= i <= n && 1 <= j <= n
    ensures OnlyOwner(sum, k1, n, i) && OnlyOwner(sum, k2, n, j)
  {
    hide MixOf, Wins, Weight, OnlyOwner;
    sum := (k, s) => if (k == k1 && s == i) || (k == k2 && s == j) then 1 else 0;
    OneWins(sum, k1, n, i);
    OneWins(sum, k2, n, j);
    OneWinnerOnly(sum, k1, n, i);
    OneWinnerOnly(sum, k2, n, j);
  }

  lemma OneWinnerOnly(sum: (string, int) -> bv64, key: string, n: int, i: int)
    requires n > 1 && Wins(sum, key, n, i)
    ensures OnlyOwner(sum, key, n, i)
  {
    forall j | 1 <= j <= n && OwnsKey(sum, key, n, j) ensures j == i {
      OneWinner(sum, key, n, i, j);
    }
  }

  /** Growing the fleet by one process moves a key only to the new one. */
  lemma GrowthMovesToNew(sum: (string, int) -> bv64, key: string, n: int, i: int)
    requires n >= 1 && 1 <= i <= n && OwnsKey(sum, key, n + 1, i)
    ensures OwnsKey(sum, key, n, i)
  {
    hide Weight;
  }
}
