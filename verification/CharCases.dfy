/** The generator of the special case tables (cpp/scripts/char_cases.cpp): a search for a modulus without
    collisions, and a hash table filled in place. */
module CharCases {
  import opened Sequences

  newtype uint16 = x: int | 0 <= x < 0x1_0000

  function Key(prime: uint16): uint16 -> uint16 {
    codepoint => if prime == 0 then 0 else codepoint % prime
  }

  /** No two positions of the list get the same key. */
  ghost predicate CollisionFree(codepoints: seq<uint16>, prime: uint16)
    requires prime != 0
  {
    Distinct(Map(Key(prime), codepoints))
  }

  /** The set that the inner loop fills. */
  method CountKeys(codepoints: seq<uint16>, prime: uint16) returns (size: nat)
    requires prime != 0
    ensures size == |Elements(Map(Key(prime), codepoints))|
  {
    var keys: set<uint16> := {};
    for i := 0 to |codepoints|
      invariant keys == Elements(Map(Key(prime), codepoints[..i]))
    {
      assert codepoints[..i + 1] == codepoints[..i] + [codepoints[i]];
      MapConcat(Key(prime), codepoints[..i], [codepoints[i]]);
      assert Map(Key(prime), [codepoints[i]]) == [codepoints[i] % prime];
      keys := keys + {codepoints[i] % prime};
    }
    assert codepoints[..|codepoints|] == codepoints;
    size := |keys|;
  }

  /** `find_collision_proof_prime`: the first modulus of the list without a collision, or 0 if there is
      none. */
  method FindCollisionProofPrime(codepoints: seq<uint16>, primes: seq<uint16>) returns (prime: uint16)
    requires 0 !in primes
    ensures prime == 0 <==> forall p :: p in primes ==> !CollisionFree(codepoints, p)
    ensures prime != 0 ==> exists k :: && 0 <= k < |primes| && primes[k] == prime && CollisionFree(codepoints, prime)
                                       && forall j :: 0 <= j < k ==> !CollisionFree(codepoints, primes[j])
  {
    for k := 0 to |primes|
      invariant forall j :: 0 <= j < k ==> !CollisionFree(codepoints, primes[j])
    {
      assert primes[k] in primes;
      var size := CountKeys(codepoints, primes[k]);
      DistinctSize(Map(Key(primes[k]), codepoints));
      if size == |codepoints| {
        return primes[k];
      }
    }
    return 0;
  }

  /** A table without collisions has a slot per code point, so no position overflows 16 bits. */
  lemma FitsTable(codepoints: seq<uint16>, prime: uint16)
    requires prime != 0 && CollisionFree(codepoints, prime)
    ensures |codepoints| <= prime as int
  {
    var keys := Map(Key(prime), codepoints);
    DistinctSize(keys);
    forall x | x in Elements(keys) ensures x as int < prime as int {
    }
    Pigeonhole(Elements(keys), map x | x in Elements(keys) :: x as nat, prime as nat);
  }

  /** Whether a slot is used, and for which position. */
  datatype Slot = Slot(used: bool, second: uint16)

  /** Every code point's slot holds its position, and the other slots are unused. */
  ghost predicate Indexes(slots: seq<Slot>, codepoints: seq<uint16>, prime: uint16)
    requires prime != 0
  {
    && |slots| == prime as int
    && (forall i :: 0 <= i < |codepoints| ==>
          slots[(codepoints[i] % prime) as int].used && slots[(codepoints[i] % prime) as int].second as int == i)
    && forall s :: 0 <= s < |slots| && slots[s].used ==>
         exists i :: 0 <= i < |codepoints| && (codepoints[i] % prime) as int == s
  }

  /** Fills the table in place, with a running index that is narrowed to 16 bits when it is stored. */
  method FillTable(codepoints: seq<uint16>, prime: uint16, hashIndices: array<Slot>)
    requires prime != 0 && CollisionFree(codepoints, prime) && hashIndices.Length == prime as int
    requires forall s :: 0 <= s < hashIndices.Length ==> hashIndices[s] == Slot(false, 0)
    modifies hashIndices
    ensures Indexes(hashIndices[..], codepoints, prime)
  {
    FitsTable(codepoints, prime);
    for index := 0 to |codepoints|
      invariant Indexes(hashIndices[..], codepoints[..index], prime)
    {
      var codepoint := codepoints[index];
      ghost var before := hashIndices[..];
      hashIndices[codepoint % prime] := Slot(true, (index % 0x1_0000) as uint16);
      assert hashIndices[..] == before[(codepoint % prime) as int := Slot(true, index as uint16)];
      FillStep(before, codepoints, prime, index);
    }
    assert codepoints[..|codepoints|] == codepoints;
  }

  lemma FillStep(before: seq<Slot>, codepoints: seq<uint16>, prime: uint16, index: nat)
    requires prime != 0 && CollisionFree(codepoints, prime) && index < |codepoints| && index < 0x1_0000
    requires Indexes(before, codepoints[..index], prime)
    ensures Indexes(before[(codepoints[index] % prime) as int := Slot(true, index as uint16)],
                    codepoints[..index + 1], prime)
  {
    var after := before[(codepoints[index] % prime) as int := Slot(true, index as uint16)];
    var upto := codepoints[..index + 1];
    forall i | 0 <= i < |upto|
      ensures after[(upto[i] % prime) as int].used && after[(upto[i] % prime) as int].second as int == i
    {
      if i < index {
        assert codepoints[..index][i] == upto[i];
      }
    }
    forall s | 0 <= s < |after| && after[s].used
      ensures exists i :: 0 <= i < |upto| && (upto[i] % prime) as int == s
    {
      if s == (codepoints[index] % prime) as int {
        assert upto[index] == codepoints[index];
      } else {
        var i :| 0 <= i < index && (codepoints[..index][i] % prime) as int == s;
        assert upto[i] == codepoints[i];
      }
    }
  }

  /** The emitted rows: a mapping for every used slot, an empty row for the others. */
  method EmitRows<T>(hashIndices: array<Slot>, mappings: seq<T>) returns (rows: seq<Option<T>>)
    requires forall s :: 0 <= s < hashIndices.Length && hashIndices[s].used ==>
        hashIndices[s].second as int < |mappings|
    ensures |rows| == hashIndices.Length
    ensures forall s :: 0 <= s < |rows| ==>
              rows[s] == if hashIndices[s].used then Some(mappings[hashIndices[s].second]) else None
  {
    rows := [];
    for s := 0 to hashIndices.Length
      invariant |rows| == s
      invariant forall k :: 0 <= k < s ==>
                  rows[k] == if hashIndices[k].used then Some(mappings[hashIndices[k].second]) else None
    {
      var entry := hashIndices[s];
      rows := rows + [if entry.used then Some(mappings[entry.second]) else None];
    }
  }

  /** The linear table: the mapping of a code point. */
  function LinearLookup<T>(codepoints: seq<uint16>, mappings: seq<T>, codepoint: uint16): Option<T>
    requires |codepoints| == |mappings|
  {
    if codepoints == [] then None
    else if codepoints[0] == codepoint then Some(mappings[0])
    else LinearLookup(codepoints[1..], mappings[1..], codepoint)
  }

  lemma {:induction false} LinearAt<T>(codepoints: seq<uint16>, mappings: seq<T>, i: nat)
    requires |codepoints| == |mappings| && i < |codepoints|
    requires forall k :: 0 <= k < i ==> codepoints[k] != codepoints[i]
    ensures LinearLookup(codepoints, mappings, codepoints[i]) == Some(mappings[i])
  {
    if i > 0 {
      LinearAt(codepoints[1..], mappings[1..], i - 1);
    }
  }

  /** The hashed table answers like the linear one for every code point of the list, and its other rows
      are empty. */
  ghost predicate Agrees<T(!new)>(rows: seq<Option<T>>, prime: uint16, codepoints: seq<uint16>, mappings: seq<T>)
    requires |codepoints| == |mappings| && prime != 0
  {
    && |rows| == prime as int
    && (forall c :: c in codepoints ==> rows[(c % prime) as int] == LinearLookup(codepoints, mappings, c))
    && forall s :: 0 <= s < |rows| && rows[s].Some? ==> exists c :: c in codepoints && (c % prime) as int == s
  }

  lemma RowsAgree<T(!new)>(slots: seq<Slot>, rows: seq<Option<T>>, prime: uint16, codepoints: seq<uint16>,
      mappings: seq<T>)
    requires |codepoints| == |mappings| && prime != 0 && CollisionFree(codepoints, prime)
    requires Indexes(slots, codepoints, prime) && |rows| == |slots|
    requires forall s :: 0 <= s < |slots| && slots[s].used ==> slots[s].second as int < |mappings|
    requires forall s :: 0 <= s < |rows| ==> rows[s] == if slots[s].used then Some(mappings[slots[s].second]) else None
    ensures Agrees(rows, prime, codepoints, mappings)
  {
    forall c | c in codepoints ensures rows[(c % prime) as int] == LinearLookup(codepoints, mappings, c) {
      var i :| 0 <= i < |codepoints| && codepoints[i] == c;
      forall k | 0 <= k < i ensures codepoints[k] != codepoints[i] {
      }
      LinearAt(codepoints, mappings, i);
    }
    forall s | 0 <= s < |rows| && rows[s].Some? ensures exists c :: c in codepoints && (c % prime) as int == s {
      var i :| 0 <= i < |codepoints| && (codepoints[i] % prime) as int == s;
      assert codepoints[i] in codepoints;
    }
  }

  /** `generate_special_mapping_hash_table`: it fails exactly when every modulus has a collision;
      otherwise the emitted table agrees with the linear one. */
  method GenerateSpecialMappingHashTable<T(!new)>(codepoints: seq<uint16>, mappings: seq<T>, primes: seq<uint16>)
    returns (ok: bool, prime: uint16, rows: seq<Option<T>>)
    requires |codepoints| == |mappings| && 0 !in primes
    ensures ok <==> exists p :: p in primes && CollisionFree(codepoints, p)
    ensures ok ==> prime != 0 && prime in primes && CollisionFree(codepoints, prime)
    ensures ok ==> Agrees(rows, prime, codepoints, mappings)
  {
    prime := FindCollisionProofPrime(codepoints, primes);
    if prime == 0 {
      return false, 0, [];
    }
    var hashIndices := new Slot[prime](_ => Slot(false, 0));
    FillTable(codepoints, prime, hashIndices);
    rows := EmitRows(hashIndices, mappings);
    RowsAgree(hashIndices[..], rows, prime, codepoints, mappings);
    ok := true;
  }
}
