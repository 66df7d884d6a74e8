/**
 bench/hash_join.c: the grouped open-addressed table, against a plain map of what it accepted,
 and the Bloom-filtered join over it.
 */
module HashJoin {
  import opened Words

  const CAP := 256
  const GROUP := 16

  // ----- where a key may be

  function Size(parts: bool): nat { if parts then 64 else 256 }

  function Base(key: nat, parts: bool): nat { if parts then Quotient(key, Pow2(62)) % 4 * 64 else 0 }

  function Start(key: nat, parts: bool): nat { if parts then key % 64 - key % 16 else key % 256 - key % 16 }

  /** The j-th place the probe looks. */
  function Spot(key: nat, parts: bool, j: nat): (i: nat)
    ensures Base(key, parts) <= i < Base(key, parts) + Size(parts) <= CAP
  {
    hide Quotient, Pow2;
    Base(key, parts) + (Start(key, parts) + j) % Size(parts)
  }

  function Fp7(key: nat): (f: nat)
    ensures 1 <= f <= 128
  {
    Quotient(key, Pow2(57)) % 128 + 1
  }

  /** Together they are the whole partition. */
  lemma SpotOf(key: nat, parts: bool, i: nat) returns (j: nat)
    requires Base(key, parts) <= i < Base(key, parts) + Size(parts)
    ensures j < Size(parts) && Spot(key, parts, j) == i
  {
    hide Quotient, Pow2, Base;
    var s, o := Start(key, parts), i - Base(key, parts);
    j := if o >= s then o - s else o + Size(parts) - s;
    if o < s {
      DivUnique(s + j, Size(parts), 1, o);
    } else {
      SmallMod(o, Size(parts));
    }
  }

  // ----- the table and its map

  /** The first j places of the key's path hold other keys. */
  ghost predicate Passed(c: seq<nat>, k: seq<nat>, key: nat, parts: bool, j: nat)
    requires |c| == |k| == CAP
  {
    forall x | 0 <= x < j :: Other(c, k, key, Spot(key, parts, x))
  }

  ghost predicate Other(c: seq<nat>, k: seq<nat>, key: nat, i: nat)
    requires |c| == |k| == CAP
  {
    i < CAP && c[i] != 0 && k[i] != key
  }

  ghost predicate Reached(c: seq<nat>, k: seq<nat>, parts: bool, i: nat, j: nat)
    requires |c| == |k| == CAP
  {
    i < CAP && j < Size(parts) && Spot(k[i], parts, j) == i && Passed(c, k, k[i], parts, j)
  }

  /** An occupied slot holds a key of the map with its value, where the key's probe finds it. */
  ghost predicate Held(c: seq<nat>, k: seq<nat>, v: seq<nat>, m: map<nat, nat>, parts: bool, i: nat)
    requires |c| == |k| == |v| == CAP
  {
    && i < CAP && k[i] in m && v[i] == m[k[i]] && c[i] == Fp7(k[i]) && exists j: nat :: Reached(c, k, parts, i, j)
  }

  ghost predicate Stored(c: seq<nat>, k: seq<nat>, key: nat, i: nat)
    requires |c| == |k| == CAP
  {
    i < CAP && c[i] != 0 && k[i] == key
  }

  ghost predicate Table(c: seq<nat>, k: seq<nat>, v: seq<nat>, m: map<nat, nat>, parts: bool) {
    && |c| == |k| == |v| == CAP
    && (forall i: nat | i < CAP && c[i] != 0 :: Held(c, k, v, m, parts, i))
    && (forall key | key in m :: exists i: nat :: Stored(c, k, key, i))
  }

  /** A key's probe meets its slot before any empty one. */
  lemma FoundAt(c: seq<nat>, k: seq<nat>, v: seq<nat>, m: map<nat, nat>, parts: bool, key: nat) returns (i: nat, j: nat)
    requires Table(c, k, v, m, parts) && key in m
    ensures i < CAP && c[i] == Fp7(key) && k[i] == key && v[i] == m[key] && Reached(c, k, parts, i, j)
  {
    hide Spot, Fp7;
    i :| Stored(c, k, key, i);
    assert Held(c, k, v, m, parts, i);
    j :| Reached(c, k, parts, i, j);
  }

  /** At an empty place, or past the whole partition, the key is not in the map. */
  lemma NotThere(c: seq<nat>, k: seq<nat>, v: seq<nat>, m: map<nat, nat>, parts: bool, key: nat, j: nat)
    requires Table(c, k, v, m, parts) && Passed(c, k, key, parts, j) && j <= Size(parts)
    requires j == Size(parts) || c[Spot(key, parts, j)] == 0
    ensures key !in m
  {
    if key in m {
      hide Spot, Fp7, Table;
      Lengths(c, k, v, m, parts);
      var i, x := FoundAt(c, k, v, m, parts, key);
    }
  }

  lemma Lengths(c: seq<nat>, k: seq<nat>, v: seq<nat>, m: map<nat, nat>, parts: bool)
    requires Table(c, k, v, m, parts)
    ensures |c| == |k| == |v| == CAP
  {
  }

  /** Writing the key at the first empty place of its path. */
  lemma PutNew(c: seq<nat>, k: seq<nat>, v: seq<nat>, m: map<nat, nat>, parts: bool, key: nat, val: nat, j: nat)
    requires Table(c, k, v, m, parts) && Passed(c, k, key, parts, j) && j < Size(parts) && c[Spot(key, parts, j)] == 0
    ensures key !in m
    ensures var i := Spot(key, parts, j); Table(c[i := Fp7(key)], k[i := key], v[i := val], m[key := val], parts)
  {
    hide Spot, Fp7;
    NotThere(c, k, v, m, parts, key, j);
    var i := Spot(key, parts, j);
    var c', k', v', m' := c[i := Fp7(key)], k[i := key], v[i := val], m[key := val];
    forall x: nat | x < CAP && c'[x] != 0
      ensures Held(c', k', v', m', parts, x)
    {
      if x == i {
        forall y | 0 <= y < j
          ensures Other(c', k', key, Spot(key, parts, y))
        {
          assert Other(c, k, key, Spot(key, parts, y));
        }
        assert Reached(c', k', parts, i, j);
      } else {
        assert Held(c, k, v, m, parts, x);
        var y :| Reached(c, k, parts, x, y);
        PassedStays(c, k, c', k', k[x], parts, y, i);
        assert Reached(c', k', parts, x, y);
      }
    }
    forall x | x in m'
      ensures exists y: nat :: Stored(c', k', x, y)
    {
      if x == key {
        assert Stored(c', k', x, i);
      } else {
        var y :| Stored(c, k, x, y);
        assert Stored(c', k', x, y);
      }
    }
  }

  /** Filling an empty place leaves other keys' paths as they were. */
  lemma PassedStays(c: seq<nat>, k: seq<nat>, c': seq<nat>, k': seq<nat>, x: nat, parts: bool, y: nat, i: nat)
    requires |c| == |k| == |c'| == |k'| == CAP && i < CAP && c[i] == 0 && Passed(c, k, x, parts, y)
    requires forall z: nat | z < CAP && z != i :: c'[z] == c[z] && k'[z] == k[z]
    ensures Passed(c', k', x, parts, y)
  {
    hide Spot;
    forall z | 0 <= z < y
      ensures Other(c', k', x, Spot(x, parts, z))
    {
      assert Other(c, k, x, Spot(x, parts, z));
    }
  }

  /** Writing a new value where the key is. */
  lemma PutAgain(c: seq<nat>, k: seq<nat>, v: seq<nat>, m: map<nat, nat>, parts: bool, key: nat, val: nat, i: nat)
    requires Table(c, k, v, m, parts) && Stored(c, k, key, i)
    ensures key in m && v[i] == m[key] && c[i] == Fp7(key) && Table(c, k, v[i := val], m[key := val], parts)
  {
    hide Spot, Fp7;
    var v', m' := v[i := val], m[key := val];
    assert Held(c, k, v, m, parts, i);
    forall x: nat | x < CAP && c[x] != 0
      ensures Held(c, k, v', m', parts, x)
    {
      assert Held(c, k, v, m, parts, x);
      if k[x] == key {
        OneSlot(c, k, v, m, parts, i, x);
      }
    }
  }

  /** No key is in two slots. */
  lemma OneSlot(c: seq<nat>, k: seq<nat>, v: seq<nat>, m: map<nat, nat>, parts: bool, x: nat, y: nat)
    requires |c| == |k| == |v| == CAP && x < CAP && y < CAP && k[x] == k[y]
    requires Held(c, k, v, m, parts, x) && Held(c, k, v, m, parts, y)
    ensures x == y
  {
    hide Spot, Fp7;
    var i: nat :| Reached(c, k, parts, x, i);
    var j: nat :| Reached(c, k, parts, y, j);
  }

  // ----- the C expressions

  function PartOf(key: nat): nat { And(Shr(key, 62), 3) }

  function GroupOf(key: nat, parts: bool): nat { if parts then And(And(key, 63), 48) else And(And(key, 255), 240) }

  function NextGroup(group: nat, parts: bool): nat { if parts then And(group + GROUP, 63) else And(group + GROUP, 255) }

  function Index(part: nat, x: nat, parts: bool): nat { if parts then Or(part * 64, And(x, 63)) else And(x, 255) }

  function Print(key: nat): nat { And(Shr(key, 57), 0x7f) + 1 }

  lemma SmallPowers()
    ensures Pow2(2) == 4 && Pow2(4) == 16 && Pow2(6) == 64 && Pow2(7) == 128 && Pow2(8) == 256 && Pow2(12) == 4096
  {
    assert Pow2(4) == 16;
    Pow2Add(4, 2);
    Pow2Add(4, 3);
    Pow2Add(4, 4);
    Pow2Add(8, 4);
  }

  lemma Low(x: nat)
    ensures And(x, 3) == x % 4 && And(x, 63) == x % 64 && And(x, 0x7f) == x % 128 && And(x, 255) == x % 256 && And(x, 4095) == x % 4096
  {
    hide And, Pow2;
    SmallPowers();
    AndLowMask(x, 2);
    AndLowMask(x, 6);
    AndLowMask(x, 7);
    AndLowMask(x, 8);
    AndLowMask(x, 12);
  }

  lemma PrintIs(key: nat)
    ensures Print(key) == Fp7(key)
  {
    hide And, Pow2, Quotient;
    Low(Shr(key, 57));
  }

  lemma GroupIs(key: nat, parts: bool)
    ensures GroupOf(key, parts) == Start(key, parts) < Size(parts) && Start(key, parts) % 16 == 0
  {
    hide And, Pow2;
    SmallPowers();
    Low(key);
    if parts {
      AndHighMask(key % 64, 2, 4);
      Sixteens(key, 4);
    } else {
      AndHighMask(key % 256, 4, 4);
      Sixteens(key, 16);
    }
  }

  lemma Sixteens(key: nat, n: nat)
    requires n == 4 || n == 16
    ensures key % (16 * n) % 16 == key % 16 && (key % (16 * n) - key % 16) % 16 == 0
  {
    DivDiv(key, 16, n);
    var q := key / 16 % n;
    DivUnique(key % (16 * n), 16, q, key % 16);
    DivUnique(16 * q, 16, q, 0);
  }

  lemma IndexIs(key: nat, parts: bool, x: nat)
    ensures Index(PartOf(key), x, parts) == Base(key, parts) + x % Size(parts)
  {
    hide And, Or, Pow2, Quotient;
    Low(x);
    Low(Shr(key, 62));
    if parts {
      SmallPowers();
      OrDisjoint(x % 64, PartOf(key), 6);
    }
  }

  /** Round r, lane: the place 16 r + lane of the path. */
  lemma LaneIs(key: nat, parts: bool, r: nat, lane: nat, group: nat)
    requires group == (Start(key, parts) + 16 * r) % Size(parts) && lane < 16
    ensures Index(PartOf(key), group + lane, parts) == Spot(key, parts, 16 * r + lane)
    ensures NextGroup(group, parts) == (Start(key, parts) + 16 * (r + 1)) % Size(parts)
  {
    hide And, Or, Pow2, Quotient, Start, Index, Base;
    IndexIs(key, parts, group + lane);
    Low(group + GROUP);
    var s := Start(key, parts);
    if parts {
      ModAdd64(s + 16 * r, lane);
      ModAdd64(s + 16 * r, 16);
    } else {
      ModAdd256(s + 16 * r, lane);
      ModAdd256(s + 16 * r, 16);
    }
  }

  lemma ModAdd64(x: nat, y: nat)
    ensures (x % 64 + y) % 64 == (x + y) % 64
  {
  }

  lemma ModAdd256(x: nat, y: nat)
    ensures (x % 256 + y) % 256 == (x + y) % 256
  {
  }

  // ----- the functions

  /** grouped_probe: found, and the value, exactly as the map has it. */
  method Probe(ctrl: array<nat>, keys: array<nat>, vals: array<nat>, probeKey: nat, parts: bool, ghost m: map<nat, nat>)
    returns (found: bool, val: nat)
    requires Table(ctrl[..], keys[..], vals[..], m, parts)
    ensures found <==> probeKey in m
    ensures found ==> val == m[probeKey]
  {
    hide Print, PartOf, GroupOf, NextGroup, Index, Start, Spot, Fp7, Table;
    ghost var c, k, v := ctrl[..], keys[..], vals[..];
    Lengths(c, k, v, m, parts);
    var fp, part, group := Print(probeKey), PartOf(probeKey), GroupOf(probeKey, parts);
    PrintIs(probeKey);
    GroupIs(probeKey, parts);
    found, val := false, 0;
    var r, rounds := 0, if parts then 4 else 16;
    SmallMod(group, Size(parts));
    while r < rounds
      invariant 0 <= r <= rounds && group == (Start(probeKey, parts) + 16 * r) % Size(parts)
      invariant Passed(c, k, probeKey, parts, 16 * r)
    {
      var lane := 0;
      while lane < GROUP
        invariant 0 <= lane <= GROUP && Passed(c, k, probeKey, parts, 16 * r + lane)
      {
        LaneIs(probeKey, parts, r, lane, group);
        var idx := Index(part, group + lane, parts);
        if ctrl[idx] == 0 {
          NotThere(c, k, v, m, parts, probeKey, 16 * r + lane);
          return;
        }
        if ctrl[idx] == fp && keys[idx] == probeKey {
          assert Stored(c, k, probeKey, idx);
          PutAgain(c, k, v, m, parts, probeKey, vals[idx], idx);
          return true, vals[idx];
        }
        PassOne(c, k, v, m, parts, probeKey, 16 * r + lane, idx);
        lane := lane + 1;
      }
      LaneIs(probeKey, parts, r, 0, group);
      group := NextGroup(group, parts);
      r := r + 1;
    }
    NotThere(c, k, v, m, parts, probeKey, Size(parts));
  }

  /** An occupied place whose print or key differs holds another key. */
  lemma PassOne(c: seq<nat>, k: seq<nat>, v: seq<nat>, m: map<nat, nat>, parts: bool, key: nat, j: nat, idx: nat)
    requires Table(c, k, v, m, parts) && Passed(c, k, key, parts, j) && idx == Spot(key, parts, j)
    requires c[idx] != 0 && !(c[idx] == Fp7(key) && k[idx] == key)
    ensures Passed(c, k, key, parts, j + 1)
  {
    hide Spot, Fp7;
    assert Held(c, k, v, m, parts, idx);
  }

  /** The partition is full of other keys. */
  ghost predicate FullOfOthers(c: seq<nat>, k: seq<nat>, key: nat, parts: bool)
    requires |c| == |k| == CAP
  {
    forall i: nat | Base(key, parts) <= i < Base(key, parts) + Size(parts) :: Other(c, k, key, i)
  }

  lemma PassedAll(c: seq<nat>, k: seq<nat>, key: nat, parts: bool)
    requires |c| == |k| == CAP && Passed(c, k, key, parts, Size(parts))
    ensures FullOfOthers(c, k, key, parts)
  {
    hide Spot, Base;
    forall i: nat | Base(key, parts) <= i < Base(key, parts) + Size(parts)
      ensures Other(c, k, key, i)
    {
      var j := SpotOf(key, parts, i);
    }
  }

  lemma NotFull(c: seq<nat>, k: seq<nat>, key: nat, parts: bool, i: nat)
    requires |c| == |k| == CAP && Base(key, parts) <= i < Base(key, parts) + Size(parts) && i < CAP && (c[i] == 0 || k[i] == key)
    ensures !FullOfOthers(c, k, key, parts)
  {
    hide Base;
    assert !Other(c, k, key, i);
  }

  /** grouped_insert: the map gains the key, unless its partition is full of other keys. */
  method Insert(ctrl: array<nat>, keys: array<nat>, vals: array<nat>, key: nat, val: nat, parts: bool, ghost m: map<nat, nat>)
    returns (ghost accepted: bool)
    requires Table(ctrl[..], keys[..], vals[..], m, parts) && ctrl != keys && keys != vals && ctrl != vals
    modifies ctrl, keys, vals
    ensures Table(ctrl[..], keys[..], vals[..], if accepted then m[key := val] else m, parts)
    ensures ctrl.Length == keys.Length == vals.Length == CAP
    ensures accepted <==> !FullOfOthers(old(ctrl[..]), old(keys[..]), key, parts)
    ensures !accepted ==> ctrl[..] == old(ctrl[..]) && keys[..] == old(keys[..]) && vals[..] == old(vals[..]) && key !in m
  {
    hide Print, PartOf, GroupOf, NextGroup, Index, Start, Spot, Fp7, Table, Base, FullOfOthers, Passed;
    ghost var c, k, v := ctrl[..], keys[..], vals[..];
    Lengths(c, k, v, m, parts);
    var fp, part, group := Print(key), PartOf(key), GroupOf(key, parts);
    PrintIs(key);
    GroupIs(key, parts);
    accepted := true;
    var r, rounds := 0, if parts then 4 else 16;
    SmallMod(group, Size(parts));
    NonePassed(c, k, key, parts);
    while r < rounds
      invariant 0 <= r <= rounds && group == (Start(key, parts) + 16 * r) % Size(parts)
      invariant Passed(c, k, key, parts, 16 * r)
      invariant ctrl[..] == c && keys[..] == k && vals[..] == v && accepted
    {
      var lane := 0;
      while lane < GROUP
        invariant 0 <= lane <= GROUP && Passed(c, k, key, parts, 16 * r + lane)
        invariant ctrl[..] == c && keys[..] == k && vals[..] == v && accepted
      {
        LaneIs(key, parts, r, lane, group);
        var idx := Index(part, group + lane, parts);
        if ctrl[idx] == 0 {
          PutNew(c, k, v, m, parts, key, val, 16 * r + lane);
          NotFull(c, k, key, parts, idx);
          ctrl[idx], keys[idx], vals[idx] := fp, key, val;
          assert ctrl[..] == c[idx := fp] && keys[..] == k[idx := key] && vals[..] == v[idx := val];
          return;
        }
        if ctrl[idx] == fp && keys[idx] == key {
          assert Stored(c, k, key, idx);
          PutAgain(c, k, v, m, parts, key, val, idx);
          NotFull(c, k, key, parts, idx);
          vals[idx] := val;
          assert vals[..] == v[idx := val];
          return;
        }
        PassOne(c, k, v, m, parts, key, 16 * r + lane, idx);
        lane := lane + 1;
      }
      LaneIs(key, parts, r, 0, group);
      group := NextGroup(group, parts);
      r := r + 1;
    }
    PassedAll(c, k, key, parts);
    NotThere(c, k, v, m, parts, key, Size(parts));
    accepted := false;
    var wrote := Fallback(ctrl, keys, vals, key, val, fp, part, parts);
  }

  lemma NonePassed(c: seq<nat>, k: seq<nat>, key: nat, parts: bool)
    requires |c| == |k| == CAP
    ensures Passed(c, k, key, parts, 0)
  {
  }

  /** The loop after the rounds writes only where a slot of the partition is free or the key's own. */
  method Fallback(ctrl: array<nat>, keys: array<nat>, vals: array<nat>, key: nat, val: nat, fp: nat, part: nat, parts: bool)
    returns (wrote: bool)
    requires ctrl.Length == keys.Length == vals.Length == CAP && ctrl != keys && keys != vals && ctrl != vals
    requires part == PartOf(key)
    modifies ctrl, keys, vals
    ensures wrote ==> !FullOfOthers(old(ctrl[..]), old(keys[..]), key, parts)
    ensures !wrote ==> ctrl[..] == old(ctrl[..]) && keys[..] == old(keys[..]) && vals[..] == old(vals[..])
  {
    hide PartOf, Index, Base, FullOfOthers;
    IndexIs(key, parts, key);
    var idx := Index(part, key, parts);
    BaseFits(key, parts);
    wrote := false;
    var i, limit := 0, if parts then 64 else 256;
    while i < limit
      invariant 0 <= i <= limit && Base(key, parts) <= idx < Base(key, parts) + Size(parts)
      invariant ctrl[..] == old(ctrl[..]) && keys[..] == old(keys[..]) && vals[..] == old(vals[..]) && !wrote
    {
      if ctrl[idx] == 0 || (ctrl[idx] == fp && keys[idx] == key) {
        NotFull(ctrl[..], keys[..], key, parts, idx);
        ctrl[idx], keys[idx], vals[idx] := fp, key, val;
        return true;
      }
      IndexIs(key, parts, idx + 1);
      idx := Index(part, idx + 1, parts);
      i := i + 1;
    }
  }

  lemma BaseFits(key: nat, parts: bool)
    ensures Base(key, parts) + Size(parts) <= CAP
  {
  }

  // ----- when a partition is full

  function Occupied(c: seq<nat>, lo: nat, n: nat): nat
    requires lo + n <= |c|
  {
    if n == 0 then 0 else Occupied(c, lo, n - 1) + (if c[lo + n - 1] != 0 then 1 else 0)
  }

  ghost function KeysOf(c: seq<nat>, k: seq<nat>, lo: nat, n: nat): set<nat>
    requires lo + n <= |c| == |k|
  {
    set i | lo <= i < lo + n && c[i] != 0 :: k[i]
  }

  /** The keys of the map that belong to a partition. */
  ghost function KeysIn(m: map<nat, nat>, base: nat, parts: bool): set<nat> { set key | key in m && Base(key, parts) == base }

  lemma KeysStep(c: seq<nat>, k: seq<nat>, lo: nat, n: nat)
    requires lo + n < |c| == |k|
    ensures KeysOf(c, k, lo, n + 1) == KeysOf(c, k, lo, n) + if c[lo + n] != 0 then {k[lo + n]} else {}
  {
  }

  lemma NewKey(c: seq<nat>, k: seq<nat>, v: seq<nat>, m: map<nat, nat>, parts: bool, lo: nat, n: nat)
    requires Table(c, k, v, m, parts) && lo + n < CAP && c[lo + n] != 0
    ensures k[lo + n] !in KeysOf(c, k, lo, n)
  {
    hide Held;
    if k[lo + n] in KeysOf(c, k, lo, n) {
      var x: nat :| lo <= x < lo + n && c[x] != 0 && k[x] == k[lo + n];
      OneSlot(c, k, v, m, parts, x, lo + n);
    }
  }

  lemma {:induction false} CountKeys(c: seq<nat>, k: seq<nat>, v: seq<nat>, m: map<nat, nat>, parts: bool, lo: nat, n: nat)
    requires |c| == |k| == CAP && Table(c, k, v, m, parts) && lo + n <= CAP
    ensures |KeysOf(c, k, lo, n)| == Occupied(c, lo, n)
  {
    hide Table, KeysOf;
    Lengths(c, k, v, m, parts);
    if n == 0 {
      NoKeys(c, k, lo);
    } else {
      CountKeys(c, k, v, m, parts, lo, n - 1);
      KeysStep(c, k, lo, n - 1);
      if c[lo + n - 1] != 0 {
        NewKey(c, k, v, m, parts, lo, n - 1);
      }
    }
  }

  lemma NoKeys(c: seq<nat>, k: seq<nat>, lo: nat)
    requires lo <= |c| == |k|
    ensures KeysOf(c, k, lo, 0) == {}
  {
  }

  lemma {:induction false} OccupiedAll(c: seq<nat>, lo: nat, n: nat)
    requires lo + n <= |c|
    ensures Occupied(c, lo, n) <= n
    ensures Occupied(c, lo, n) == n <==> forall i | lo <= i < lo + n :: c[i] != 0
  {
    if n > 0 {
      OccupiedAll(c, lo, n - 1);
    }
  }

  lemma SameBase(key: nat, parts: bool, other: nat, i: nat)
    requires Base(key, parts) <= i < Base(key, parts) + Size(parts) && Base(other, parts) <= i < Base(other, parts) + Size(parts)
    ensures Base(key, parts) == Base(other, parts)
  {
    hide Quotient, Pow2;
  }

  /** An insert is refused exactly when its key is new and its partition already holds 64 keys (256 unpartitioned). */
  lemma FullExactly(c: seq<nat>, k: seq<nat>, v: seq<nat>, m: map<nat, nat>, parts: bool, key: nat)
    requires Table(c, k, v, m, parts)
    ensures FullOfOthers(c, k, key, parts) <==> key !in m && |KeysIn(m, Base(key, parts), parts)| == Size(parts)
  {
    hide Held, Spot, Base, Fp7;
    var base := Base(key, parts);
    BaseFits(key, parts);
    CountKeys(c, k, v, m, parts, base, Size(parts));
    OccupiedAll(c, base, Size(parts));
    assert KeysOf(c, k, base, Size(parts)) == KeysIn(m, base, parts) by {
      PartitionKeys(c, k, v, m, parts, key);
    }
    if key in m {
      var i: nat :| Stored(c, k, key, i);
      SlotBase(c, k, v, m, parts, i);
      NotFull(c, k, key, parts, i);
    } else if FullOfOthers(c, k, key, parts) {
      forall i | base <= i < base + Size(parts)
        ensures c[i] != 0
      {
        assert Other(c, k, key, i);
      }
    } else {
      var i: nat :| base <= i < base + Size(parts) && !Other(c, k, key, i);
      if c[i] != 0 {
        assert Held(c, k, v, m, parts, i);
        HeldIn(c, k, v, m, parts, i);
      }
    }
  }

  lemma HeldIn(c: seq<nat>, k: seq<nat>, v: seq<nat>, m: map<nat, nat>, parts: bool, i: nat)
    requires |c| == |k| == |v| == CAP && Held(c, k, v, m, parts, i)
    ensures k[i] in m
  {
  }

  /** A slot lies in its key's partition. */
  lemma SlotBase(c: seq<nat>, k: seq<nat>, v: seq<nat>, m: map<nat, nat>, parts: bool, i: nat)
    requires Table(c, k, v, m, parts) && i < CAP && c[i] != 0
    ensures Base(k[i], parts) <= i < Base(k[i], parts) + Size(parts) && k[i] in m
  {
    hide Spot, Base, Fp7;
    assert Held(c, k, v, m, parts, i);
    var j: nat :| Reached(c, k, parts, i, j);
    assert Spot(k[i], parts, j) == i;
  }

  lemma PartitionKeys(c: seq<nat>, k: seq<nat>, v: seq<nat>, m: map<nat, nat>, parts: bool, key: nat)
    requires Table(c, k, v, m, parts) && Base(key, parts) + Size(parts) <= CAP
    ensures KeysOf(c, k, Base(key, parts), Size(parts)) == KeysIn(m, Base(key, parts), parts)
  {
    hide Held, Base, Spot;
    var base := Base(key, parts);
    forall x
      ensures x in KeysOf(c, k, base, Size(parts)) <==> x in KeysIn(m, base, parts)
    {
      if x in KeysOf(c, k, base, Size(parts)) {
        var i: nat :| base <= i < base + Size(parts) && c[i] != 0 && k[i] == x;
        SlotBase(c, k, v, m, parts, i);
        SameBase(key, parts, x, i);
      }
      if x in KeysIn(m, base, parts) {
        var i: nat :| Stored(c, k, x, i);
        SlotBase(c, k, v, m, parts, i);
      }
    }
  }

  // ----- the Bloom filter

  /** The bit of lane, of four that a key sets: 12 bits of it, from bit 13 * lane. */
  function BitOf(h: nat, lane: nat): nat { And(Shr(h, lane * 13), 4095) }

  /** Bit b of the filter. */
  ghost predicate IsSet(bloom: seq<nat>, b: nat) { b / 64 < |bloom| && Bit(bloom[b / 64], b % 64) == 1 }

  lemma {:induction false} BitHalf(x: nat, i: nat)
    ensures Bit(x, i + 1) == Bit(x / 2, i)
  {
    DivDiv(x, 2, Pow2(i));
  }

  /** Or with one bit sets that bit and leaves the others. */
  lemma {:induction false} OrBit(x: nat, b: nat, i: nat)
    ensures Bit(Or(x, Pow2(b)), i) == if i == b then 1 else Bit(x, i)
    decreases b
  {
    hide Or, Bit;
    OrStep(x, Pow2(b));
    BitZero(x);
    BitZero(Or(x, Pow2(b)));
    if b == 0 {
      assert Pow2(0) == 1;
      OrZero(x / 2);
      if i > 0 {
        BitHalf(x, i - 1);
        BitHalf(Or(x, 1), i - 1);
      }
    } else {
      assert Pow2(b) == 2 * Pow2(b - 1);
      if i > 0 {
        OrBit(x / 2, b - 1, i - 1);
        BitHalf(x, i - 1);
        BitHalf(Or(x, Pow2(b)), i - 1);
      }
    }
  }

  lemma BitZero(x: nat)
    ensures Bit(x, 0) == x % 2
  {
    assert Pow2(0) == 1;
  }

  ghost predicate AllSet(bloom: seq<nat>, h: nat) { forall lane | 0 <= lane < 4 :: IsSet(bloom, BitOf(h, lane)) }

  lemma BitOfFits(h: nat, lane: nat)
    ensures BitOf(h, lane) < 4096
  {
    hide And;
    Low(Shr(h, lane * 13));
  }

  /** bloom_add: the key's four bits are set and none is cleared. */
  method BloomAdd(bloom: array<nat>, h: nat)
    requires bloom.Length == 64
    modifies bloom
    ensures AllSet(bloom[..], h)
    ensures forall b | IsSet(old(bloom[..]), b) :: IsSet(bloom[..], b)
  {
    hide And, Or, Bit, Pow2, Shr, BitOf;
    var lane := 0;
    while lane < 4
      invariant 0 <= lane <= 4
      invariant forall l | 0 <= l < lane :: IsSet(bloom[..], BitOf(h, l))
      invariant forall b | IsSet(old(bloom[..]), b) :: IsSet(bloom[..], b)
    {
      var bitIdx := BitOf(h, lane);
      BitOfFits(h, lane);
      var word, bit := bitIdx / 64, bitIdx % 64;
      ghost var before := bloom[..];
      bloom[word] := Or(bloom[word], Pow2(bit));
      assert bloom[..] == before[word := Or(before[word], Pow2(bit))];
      forall b: nat | IsSet(before, b) || b == bitIdx
        ensures IsSet(bloom[..], b)
      {
        OrBit(before[word], bit, b % 64);
      }
      lane := lane + 1;
    }
  }

  /** bloom_maybe: all four bits are set. */
  method BloomMaybe(bloom: array<nat>, h: nat) returns (r: bool)
    requires bloom.Length == 64
    ensures r <==> AllSet(bloom[..], h)
  {
    hide And, Bit, Pow2, BitOf;
    var lane := 0;
    while lane < 4
      invariant 0 <= lane <= 4 && forall l | 0 <= l < lane :: IsSet(bloom[..], BitOf(h, l))
    {
      var bitIdx := BitOf(h, lane);
      BitOfFits(h, lane);
      if Bit(bloom[bitIdx / 64], bitIdx % 64) == 0 {
        assert !IsSet(bloom[..], BitOf(h, lane));
        return false;
      }
      lane := lane + 1;
    }
    return true;
  }

  // ----- the join

  /** What the queries find in the map, exclusive-ored together. */
  function XorOfLookups(m: map<nat, nat>, queries: seq<nat>): nat {
    if queries == [] then 0
    else
      var q := queries[|queries| - 1];
      var x := XorOfLookups(m, queries[..|queries| - 1]);
      if q in m then Xor(x, m[q]) else x
  }

  function XorAll(sum: nat, vs: seq<nat>): nat {
    if vs == [] then sum else Xor(XorAll(sum, vs[..|vs| - 1]), vs[|vs| - 1])
  }

  /** The rows accepted so far: every key in the map is in the filter. */
  ghost predicate Built(ctrl: seq<nat>, keys: seq<nat>, vals: seq<nat>, bloom: seq<nat>, m: map<nat, nat>, parts: bool) {
    && Table(ctrl, keys, vals, m, parts) && |bloom| == 64 && forall key | key in m :: AllSet(bloom, key)
  }

  /** A row of the build: into the filter, then into the table. */
  method BuildRow(ctrl: array<nat>, keys: array<nat>, vals: array<nat>, bloom: array<nat>, key: nat, val: nat, parts: bool,
                  ghost m: map<nat, nat>) returns (ghost m': map<nat, nat>)
    requires Built(ctrl[..], keys[..], vals[..], bloom[..], m, parts)
    requires ctrl != keys && keys != vals && ctrl != vals && bloom != ctrl && bloom != keys && bloom != vals
    modifies ctrl, keys, vals, bloom
    ensures Built(ctrl[..], keys[..], vals[..], bloom[..], m', parts)
    ensures ctrl.Length == keys.Length == CAP
    ensures m' == if FullOfOthers(old(ctrl[..]), old(keys[..]), key, parts) then m else m[key := val]
  {
    hide Table, IsSet, FullOfOthers;
    ghost var before := bloom[..];
    assert ctrl.Length == CAP && keys.Length == CAP by {
      Lengths(ctrl[..], keys[..], vals[..], m, parts);
    }
    BloomAdd(bloom, key);
    ghost var accepted := Insert(ctrl, keys, vals, key, val, parts, m);
    m' := if accepted then m[key := val] else m;
    forall x | x in m'
      ensures AllSet(bloom[..], x)
    {
      if x != key {
        assert AllSet(before, x);
      }
    }
  }

  /** Add the buffered values into the sum. */
  method Flush(sum: nat, compact: array<nat>, len: nat) returns (s: nat)
    requires len <= compact.Length
    ensures s == XorAll(sum, compact[..len])
  {
    s := sum;
    for j := 0 to len
      invariant s == XorAll(sum, compact[..j])
    {
      assert compact[..j + 1][..j] == compact[..j];
      s := Xor(s, compact[j]);
    }
  }

  /** The probe loop: filtered by Bloom, compacted 64 at a time, the sum is that of plain map lookups. */
  method Join(ctrl: array<nat>, keys: array<nat>, vals: array<nat>, bloom: array<nat>, queries: seq<nat>, parts: bool,
              ghost m: map<nat, nat>) returns (sum: nat)
    requires Built(ctrl[..], keys[..], vals[..], bloom[..], m, parts)
    ensures sum == XorOfLookups(m, queries)
  {
    hide Table, AllSet, Xor;
    var compact := new nat[64](_ => 0);
    sum := 0;
    var len := 0;
    for i := 0 to |queries|
      invariant 0 <= len < 64 && XorAll(sum, compact[..len]) == XorOfLookups(m, queries[..i])
      invariant Built(ctrl[..], keys[..], vals[..], bloom[..], m, parts)
    {
      assert queries[..i + 1][..i] == queries[..i];
      var q := queries[i];
      var maybe := BloomMaybe(bloom, q);
      if maybe {
        var found, v := Probe(ctrl, keys, vals, q, parts, m);
        if found {
          ghost var was := compact[..len];
          compact[len] := v;
          len := len + 1;
          assert compact[..len] == was + [v];
          assert (was + [v])[..|was|] == was;
          if len == 64 {
            sum := Flush(sum, compact, 64);
            len := 0;
            assert compact[..0] == [];
          }
        }
      }
    }
    assert queries[..|queries|] == queries;
    sum := Flush(sum, compact, len);
  }

  // ----- the whole benchmark

  /** A row is taken unless its key is new and its partition already holds as many keys as it has slots. */
  ghost function Take(m: map<nat, nat>, row: (nat, nat), parts: bool): map<nat, nat> {
    if row.0 !in m && |KeysIn(m, Base(row.0, parts), parts)| == Size(parts) then m else m[row.0 := row.1]
  }

  ghost function TakeAll(rows: seq<(nat, nat)>, parts: bool): map<nat, nat> {
    if rows == [] then map[] else Take(TakeAll(rows[..|rows| - 1], parts), rows[|rows| - 1], parts)
  }

  lemma EmptyBuilt(parts: bool)
    ensures Built(seq(CAP, _ => 0), seq(CAP, _ => 0), seq(CAP, _ => 0), seq(64, _ => 0), map[], parts)
  {
    hide Held, AllSet;
  }

  /** main: the rows are built, then every query goes through the filter and the table. */
  method BuildAndJoin(rows: seq<(nat, nat)>, queries: seq<nat>, parts: bool) returns (sum: nat)
    ensures sum == XorOfLookups(TakeAll(rows, parts), queries)
  {
    var ctrl, keys, vals := new nat[CAP](_ => 0), new nat[CAP](_ => 0), new nat[CAP](_ => 0);
    var bloom := new nat[64](_ => 0);
    ghost var m: map<nat, nat> := map[];
    EmptyBuilt(parts);
    assert ctrl[..] == keys[..] == vals[..] == seq(CAP, _ => 0) && bloom[..] == seq(64, _ => 0);
    hide Built, FullOfOthers, KeysIn;
    for i := 0 to |rows|
      invariant Built(ctrl[..], keys[..], vals[..], bloom[..], m, parts) && m == TakeAll(rows[..i], parts)
    {
      assert rows[..i + 1][..i] == rows[..i];
      BuiltTable(ctrl[..], keys[..], vals[..], bloom[..], m, parts);
      FullExactly(ctrl[..], keys[..], vals[..], m, parts, rows[i].0);
      m := BuildRow(ctrl, keys, vals, bloom, rows[i].0, rows[i].1, parts, m);
    }
    assert rows[..|rows|] == rows;
    sum := Join(ctrl, keys, vals, bloom, queries, parts, m);
  }

  lemma BuiltTable(c: seq<nat>, k: seq<nat>, v: seq<nat>, bloom: seq<nat>, m: map<nat, nat>, parts: bool)
    requires Built(c, k, v, bloom, m, parts)
    ensures Table(c, k, v, m, parts) && |c| == |k| == CAP
  {
  }
}
