/** The set of lines seen so far: an open-addressing hash table with linear probing. */
module SeenSet {
  import opened Arithmetic

  const TWO63: nat := 0x8000_0000_0000_0000

  // ---------------------------------------------------------------- masks

  /** Bitwise conjunction of two numbers. */
  function And(x: nat, y: nat): (r: nat)
    decreases x
  {
    if x == 0 then 0 else (x % 2) * (y % 2) + 2 * And(x / 2, y / 2)
  }

  /** Masking with a power of two less one is the remainder. */
  lemma {:induction false} MaskIsRemainder(x: nat, k: nat)
    ensures And(x, Pow2(k) - 1) == x % Pow2(k)
    decreases x
  {
    hide And, Pow2;
    Pow2Of(k);
    if k == 0 {
      AndZero(x);
    } else if x == 0 {
      AndStep(0, Pow2(k) - 1);
    } else {
      var p := Pow2(k - 1);
      MaskIsRemainder(x / 2, k - 1);
      MaskHalf(p);
      AndStep(x, 2 * p - 1);
      RemainderOfDouble(x, p);
    }
  }

  lemma Pow2Of(k: nat)
    ensures Pow2(k) == if k == 0 then 1 else 2 * Pow2(k - 1)
  {
  }

  lemma AndStep(x: nat, y: nat)
    ensures And(x, y) == if x == 0 then 0 else (x % 2) * (y % 2) + 2 * And(x / 2, y / 2)
  {
  }

  lemma MaskHalf(p: nat)
    requires p > 0
    ensures (2 * p - 1) / 2 == p - 1 && (2 * p - 1) % 2 == 1
  {
  }

  lemma {:induction false} AndZero(x: nat)
    ensures And(x, 0) == 0
  {
    if x == 0 {
    } else {
      AndZero(x / 2);
    }
  }

  lemma RemainderOfDouble(x: nat, p: nat)
    requires p > 0
    ensures x % (2 * p) == x % 2 + 2 * ((x / 2) % p)
  {
    var half := x / 2;
    var r := x % 2 + 2 * (half % p);
    assert x == 2 * (p * (half / p) + half % p) + x % 2;
    assert x == (half / p) * (2 * p) + r;
    QuotientAndRemainder(half / p, 2 * p, r);
  }

  /** The least power of two that is at least `x`; below 2^63 the doubling cannot overflow. */
  method NextPow2(x: nat) returns (p: nat, ghost k: nat)
    requires x <= TWO63
    ensures p == Pow2(k) && x <= p <= TWO63
    ensures forall j: nat :: Pow2(j) >= x ==> Pow2(j) >= p
  {
    p, k := 1, 0;
    Pow2Of63();
    while p < x
      invariant p == Pow2(k) && p <= TWO63
      invariant k == 0 || Pow2(k - 1) < x
      decreases x - p
    {
      NoOvershoot(k);
      p := 2 * p;
      k := k + 1;
    }
    forall j: nat | Pow2(j) >= x ensures Pow2(j) >= p {
      if j < k - 1 {
        Pow2Grows(j, k - 1);
      } else if k < j {
        Pow2Grows(k, j);
      }
    }
  }

  lemma Pow2Of63()
    ensures Pow2(63) == TWO63
  {
    hide Pow2;
    Pow2Of7();
    Pow2Triple(7, 0x80);
    Pow2Triple(21, 0x20_0000);
  }

  lemma Pow2Of7()
    ensures Pow2(7) == 0x80
  {
  }

  lemma Pow2Triple(k: nat, p: nat)
    requires Pow2(k) == p
    ensures Pow2(3 * k) == p * p * p
  {
    hide Pow2;
    Pow2Sum(k, k);
    Pow2Sum(2 * k, k);
  }

  lemma NoOvershoot(k: nat)
    requires Pow2(k) < TWO63
    ensures 2 * Pow2(k) <= TWO63
  {
    Pow2Of63();
    if k >= 63 {
      if k > 63 {
        Pow2Grows(63, k);
      }
    } else {
      Pow2Grows(k, 63);
    }
  }

  // ---------------------------------------------------------------- probe paths

  /** Slot `j` is visited on the way from slot `from` to slot `to`, `to` itself excluded, wrapping at the end. */
  predicate OnPath(from: nat, j: nat, to: nat) {
    if from <= to then from <= j < to else j >= from || j < to
  }

  function NextSlot(i: nat, cap: nat): nat {
    if i + 1 == cap then 0 else i + 1
  }

  /** `(i + 1) & (cap - 1)` */
  lemma MaskedIncrement(i: nat, k: nat)
    requires i < Pow2(k)
    ensures And(i + 1, Pow2(k) - 1) == NextSlot(i, Pow2(k))
  {
    MaskIsRemainder(i + 1, k);
    if i + 1 < Pow2(k) {
      QuotientAndRemainder(0, Pow2(k), i + 1);
    } else {
      QuotientAndRemainder(1, Pow2(k), 0);
    }
  }

  /** The slots in use. */
  function UsedSlots(used: seq<bool>): set<nat> {
    set i | 0 <= i < |used| && used[i]
  }

  lemma {:induction false} FullSize(used: seq<bool>)
    requires forall i :: 0 <= i < |used| ==> used[i]
    ensures |UsedSlots(used)| == |used|
  {
    if used == [] {
    } else {
      var n := |used| - 1;
      FullSize(used[..n]);
      assert UsedSlots(used) == UsedSlots(used[..n]) + {n};
    }
  }

  lemma SomeSlotFree(used: seq<bool>)
    requires |UsedSlots(used)| < |used|
    ensures exists e :: 0 <= e < |used| && !used[e]
  {
    if forall e :: 0 <= e < |used| ==> used[e] {
      FullSize(used);
    }
  }

  lemma UseSlot(used: seq<bool>, i: nat)
    requires i < |used| && !used[i]
    ensures |UsedSlots(used[i := true])| == |UsedSlots(used)| + 1
  {
    assert UsedSlots(used[i := true]) == UsedSlots(used) + {i};
  }

  // ---------------------------------------------------------------- the table

  /** The slot where the search for a key starts. */
  function Home(hash: nat -> nat, cap: nat, key: nat): (i: nat)
    requires cap > 0
    ensures i < cap
  {
    hash(key) % cap
  }

  /** No free slot lies between a key's home and the slot the key is in. */
  ghost predicate NoGaps(hash: nat -> nat, keys: seq<nat>, used: seq<bool>)
    requires |keys| == |used| > 0
  {
    forall i, j :: 0 <= i < |used| && 0 <= j < |used| && used[i] && OnPath(Home(hash, |used|, keys[i]), j, i)
        ==> used[j]
  }

  ghost predicate NoDuplicates(keys: seq<nat>, used: seq<bool>)
    requires |keys| == |used|
  {
    forall i, j :: 0 <= i < j < |used| && used[i] && used[j] ==> keys[i] != keys[j]
  }

  function KeysOf(keys: seq<nat>, used: seq<bool>): set<nat>
    requires |keys| == |used|
  {
    set i | 0 <= i < |used| && used[i] :: keys[i]
  }

  ghost predicate TableOk(hash: nat -> nat, keys: seq<nat>, used: seq<bool>) {
    |keys| == |used| > 0 && NoGaps(hash, keys, used) && NoDuplicates(keys, used)
  }

  /** Nothing from the home of `key` up to slot `i` is free or holds `key`. */
  ghost predicate Probed(hash: nat -> nat, keys: seq<nat>, used: seq<bool>, key: nat, i: nat)
    requires |keys| == |used| > 0
  {
    i < |used| && forall j :: 0 <= j < |used| && OnPath(Home(hash, |used|, key), j, i) ==> used[j] && keys[j] != key
  }

  lemma OneIsOnTheWayToTheOther(from: nat, i: nat, j: nat)
    ensures i == j || OnPath(from, i, j) || OnPath(from, j, i)
  {
  }

  /** A search that reaches a free slot has shown that the key is absent. */
  lemma FreeSlotMeansAbsent(hash: nat -> nat, keys: seq<nat>, used: seq<bool>, key: nat, i: nat)
    requires TableOk(hash, keys, used) && Probed(hash, keys, used, key, i) && !used[i]
    ensures key !in KeysOf(keys, used)
  {
    if key in KeysOf(keys, used) {
      var j :| 0 <= j < |used| && used[j] && keys[j] == key;
      OneIsOnTheWayToTheOther(Home(hash, |used|, key), i, j);
    }
  }

  lemma ProbeStep(hash: nat -> nat, keys: seq<nat>, used: seq<bool>, key: nat, i: nat, free: nat)
    requires |keys| == |used| > 0 && Probed(hash, keys, used, key, i) && used[i] && keys[i] != key
    requires free < |used| && !used[free]
    ensures Probed(hash, keys, used, key, NextSlot(i, |used|))
  {
    var home, next := Home(hash, |used|, key), NextSlot(i, |used|);
    forall j | 0 <= j < |used| && OnPath(home, j, next) ensures used[j] && keys[j] != key {
      assert !OnPath(home, free, i);
      assert j == i || OnPath(home, j, i);
    }
  }

  /** How many steps the search at slot `i` is from slot `free`. */
  function StepsTo(free: nat, i: nat, cap: nat): nat
    requires i < cap
  {
    if i <= free then free - i else free + cap - i
  }

  /** The masked hash is a valid start of the search. */
  lemma ProbeFirst(hash: nat -> nat, keys: seq<nat>, used: seq<bool>, key: nat, bits: nat)
    requires |keys| == |used| == Pow2(bits)
    ensures And(hash(key), |used| - 1) < |used|
    ensures Probed(hash, keys, used, key, And(hash(key), |used| - 1))
  {
    MaskIsRemainder(hash(key), bits);
  }

  /** The masked increment goes to the next slot of the path, which is closer to a free slot. */
  lemma ProbeNext(hash: nat -> nat, keys: seq<nat>, used: seq<bool>, key: nat, i: nat, free: nat, bits: nat)
    requires |keys| == |used| == Pow2(bits)
    requires Probed(hash, keys, used, key, i) && used[i] && keys[i] != key
    requires free < |used| && !used[free]
    ensures And(i + 1, |used| - 1) < |used|
    ensures Probed(hash, keys, used, key, And(i + 1, |used| - 1))
    ensures StepsTo(free, And(i + 1, |used| - 1), |used|) < StepsTo(free, i, |used|)
  {
    hide And, Probed;
    ProbeStep(hash, keys, used, key, i, free);
    MaskedIncrement(i, bits);
  }

  /** Putting the key in that free slot keeps the table searchable. */
  lemma InsertKeeps(hash: nat -> nat, keys: seq<nat>, used: seq<bool>, key: nat, i: nat)
    requires TableOk(hash, keys, used) && Probed(hash, keys, used, key, i) && !used[i]
    ensures TableOk(hash, keys[i := key], used[i := true])
    ensures KeysOf(keys[i := key], used[i := true]) == KeysOf(keys, used) + {key}
  {
    FreeSlotMeansAbsent(hash, keys, used, key, i);
    var keys', used' := keys[i := key], used[i := true];
    forall x | x in KeysOf(keys, used) ensures x in KeysOf(keys', used') {
      var j :| 0 <= j < |used| && used[j] && keys[j] == x;
      assert used'[j] && keys'[j] == x;
    }
    assert used'[i] && keys'[i] == key;
  }

  lemma UsedKeyPresent(keys: seq<nat>, used: seq<bool>, i: nat)
    requires |keys| == |used| && i < |used| && used[i]
    ensures keys[i] in KeysOf(keys, used)
  {
  }

  class Table {
    const hash: nat -> nat
    const keys: array<nat>
    const used: array<bool>
    const cap: nat
    ghost const bits: nat
    var len: nat

    ghost predicate Valid()
      reads this, keys, used
    {
      && cap == keys.Length == used.Length == Pow2(bits)
      && TableOk(hash, keys[..], used[..])
      && len == |UsedSlots(used[..])|
      && len == |Contents()|
    }

    /** The keys in the table. */
    ghost function Contents(): set<nat>
      reads this, keys, used
    {
      if keys.Length == used.Length then KeysOf(keys[..], used[..]) else {}
    }

    /** `new_seenset` */
    constructor (hash: nat -> nat, expectedItems: nat)
      requires expectedItems < 0x1_0000_0000
      ensures Valid() && fresh(keys) && fresh(used)
      ensures this.hash == hash && Contents() == {} && cap >= 2 * expectedItems + 16
    {
      var size, k := NextPow2(2 * expectedItems + 16);
      this.hash := hash;
      cap := size;
      bits := k;
      len := 0;
      keys := new nat[size](_ => 0);
      used := new bool[size](_ => false);
      new;
      assert UsedSlots(used[..]) == {};
    }

    /** `seenset_insert_if_new` */
    method InsertIfNew(key: nat) returns (isNew: bool)
      requires Valid() && len < cap
      modifies this`len, keys, used
      ensures Valid()
      ensures isNew <==> key !in old(Contents())
      ensures Contents() == old(Contents()) + {key}
      ensures len == old(len) + if isNew then 1 else 0
    {
      hide Pow2, And, TableOk, Probed, Home, KeysOf, NextSlot, StepsTo, UsedSlots;
      ghost var ks, us := keys[..], used[..];
      var mask := cap - 1;
      var i: nat := And(hash(key), mask);
      ProbeFirst(hash, ks, us, key, bits);
      SomeSlotFree(us);
      ghost var free :| 0 <= free < cap && !us[free];
      while used[i]
        invariant keys[..] == ks && used[..] == us && len == old(len)
        invariant i < cap && Probed(hash, ks, us, key, i)
        decreases StepsTo(free, i, cap)
      {
        if keys[i] == key {
          UsedKeyPresent(ks, us, i);
          assert Contents() == old(Contents()) + {key};
          return false;
        }
        ProbeNext(hash, ks, us, key, i, free, bits);
        i := And(i + 1, mask);
      }
      Put(i, key);
      isNew := true;
    }

    /** The end of the insertion: the key goes into the free slot its search found. */
    method Put(i: nat, key: nat)
      requires Valid() && i < cap && !used[i]
      requires Probed(hash, keys[..], used[..], key, i)
      modifies this`len, keys, used
      ensures Valid() && key !in old(Contents())
      ensures Contents() == old(Contents()) + {key}
      ensures len == old(len) + 1
    {
      hide Pow2, TableOk, Probed, KeysOf, UsedSlots;
      ghost var ks, us := keys[..], used[..];
      FreeSlotMeansAbsent(hash, ks, us, key, i);
      InsertKeeps(hash, ks, us, key, i);
      UseSlot(us, i);
      used[i] := true;
      keys[i] := key;
      assert keys[..] == ks[i := key] && used[..] == us[i := true];
      len := len + 1;
    }
  }
}
