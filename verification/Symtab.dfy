/** The symbol table with its two hash indexes, by name and by value, and the newest-first search
    each of them should amount to. */
module Symtab {
  import opened Words

  const BUCKETS := 1009

  /** A C string: characters are signed and not zero. */
  type Char = c: int | -128 <= c < 128 && c != 0 witness 1
  type Name = seq<Char>

  datatype Symbol = Symbol(name: Name, value: nat, kind: nat)

  function CharAt(s: Name, i: nat): int { if i < |s| then s[i] else 0 }

  /** sym_hash_name: the first three characters in 32-bit unsigned arithmetic. */
  function HashName(s: Name): (h: nat)
    ensures h < BUCKETS
  {
    var h0 := CharAt(s, 0) % 32;
    var h1 := if CharAt(s, 0) != 0 then U32(h0 * 2048 + 544 * CharAt(s, 1)) else h0;
    var h2 := if CharAt(s, 0) != 0 && CharAt(s, 1) != 0 then U32(h1 * 32 + 17 * CharAt(s, 2)) else h1;
    h2 % BUCKETS
  }

  function HashValue(v: nat): (h: nat)
    ensures h < BUCKETS
  {
    v % BUCKETS
  }

  // ----- newest-first search, symbols listed oldest first -----

  /** The newest symbol of that name, -1 if there is none. */
  function NewestName(syms: seq<Symbol>, name: Name): (i: int)
    ensures -1 <= i < |syms|
    ensures i >= 0 ==> syms[i].name == name
    ensures forall j :: i < j < |syms| ==> syms[j].name != name
  {
    if syms == [] then -1
    else if syms[|syms| - 1].name == name then |syms| - 1
    else NewestName(syms[..|syms| - 1], name)
  }

  function NewestValue(syms: seq<Symbol>, v: nat): (i: int)
    ensures -1 <= i < |syms|
    ensures i >= 0 ==> syms[i].value == v
    ensures forall j :: i < j < |syms| ==> syms[j].value != v
  {
    if syms == [] then -1
    else if syms[|syms| - 1].value == v then |syms| - 1
    else NewestValue(syms[..|syms| - 1], v)
  }

  /** sym_find: a wanted kind that the newest symbol of the name does not have means "not found". */
  function Find(syms: seq<Symbol>, name: Name, kind: nat): (i: int)
    ensures -1 <= i < |syms|
  {
    var i := NewestName(syms, name);
    if i >= 0 && kind != 0 && syms[i].kind != kind then -1 else i
  }

  /** What is found: the newest symbol of the name, and only if its kind is the one wanted, if any is. */
  lemma FindMeans(syms: seq<Symbol>, name: Name, kind: nat, i: nat)
    requires i < |syms|
    ensures Find(syms, name, kind) == i <==>
              && syms[i].name == name && (kind == 0 || syms[i].kind == kind)
              && forall j :: i < j < |syms| ==> syms[j].name != name
  {
    if syms[i].name == name && forall j :: i < j < |syms| ==> syms[j].name != name {
      UniqueNewest(syms, name, i);
    }
  }

  function Add(syms: seq<Symbol>, name: Name, value: nat, kind: nat): seq<Symbol> {
    syms + [Symbol(name, value, kind)]
  }

  function Set(syms: seq<Symbol>, name: Name, value: nat, kind: nat): seq<Symbol> {
    var i := Find(syms, name, kind);
    if i >= 0 then syms[i := syms[i].(value := value)] else Add(syms, name, value, kind)
  }

  /** A value set under a name is found there, and no other name is affected. */
  lemma SetThenFind(syms: seq<Symbol>, name: Name, value: nat, kind: nat, other: Name)
    ensures var t := Set(syms, name, value, kind);
            && Find(t, name, kind) >= 0 && t[Find(t, name, kind)].value == value
            && (other != name ==>
                  NewestName(t, other) == NewestName(syms, other)
                  && (NewestName(t, other) >= 0 ==> t[NewestName(t, other)] == syms[NewestName(syms, other)]))
  {
    var t := Set(syms, name, value, kind);
    var i := Find(syms, name, kind);
    if i >= 0 {
      UniqueNewest(t, name, i);
    } else {
      UniqueNewest(t, name, |syms|);
    }
    if other != name {
      UniqueNewest(t, other, NewestName(syms, other));
    }
  }

  lemma UniqueNewest(syms: seq<Symbol>, name: Name, i: int)
    requires -1 <= i < |syms| && (i >= 0 ==> syms[i].name == name)
    requires forall j :: i < j < |syms| ==> syms[j].name != name
    ensures NewestName(syms, name) == i
  {
  }

  // ----- hash chains -----

  /** Indices of the keys equal to `h`, newest first: the chain of a bucket. */
  function Chain(keys: seq<nat>, h: nat): (c: seq<nat>)
    ensures forall i: nat :: i in c <==> i < |keys| && keys[i] == h
  {
    if keys == [] then []
    else
      var n := |keys| - 1;
      if keys[n] == h then [n] + Chain(keys[..n], h) else Chain(keys[..n], h)
  }

  /** Descending order: a chain lists newer symbols before older ones. */
  lemma {:induction false} ChainDescends(keys: seq<nat>, h: nat)
    ensures forall i, j :: 0 <= i < j < |Chain(keys, h)| ==> Chain(keys, h)[i] > Chain(keys, h)[j]
  {
    if keys != [] {
      var n := |keys| - 1;
      ChainDescends(keys[..n], h);
      forall j | 0 <= j < |Chain(keys[..n], h)| ensures Chain(keys[..n], h)[j] < n {
        assert Chain(keys[..n], h)[j] in Chain(keys[..n], h);
      }
    }
  }

  function NameKeys(syms: seq<Symbol>): (k: seq<nat>)
    ensures |k| == |syms| && forall i :: 0 <= i < |k| ==> k[i] == HashName(syms[i].name)
  {
    seq(|syms|, i requires 0 <= i < |syms| => HashName(syms[i].name))
  }

  /** What scanning the bucket of a value finds: the newest symbol that was added to this bucket and
      has the value now. */
  predicate ScanFinds(syms: seq<Symbol>, homes: seq<nat>, v: nat, i: int)
    requires |homes| == |syms|
  {
    && -1 <= i < |syms|
    && (i >= 0 ==> homes[i] == HashValue(v) && syms[i].value == v)
    && forall j :: i < j < |syms| ==> !(homes[j] == HashValue(v) && syms[j].value == v)
  }

  /** Lookup by value is right exactly when the newest symbol with that value, if there is one, was
      added with a value of the same hash: sym_set does not move symbols between buckets. */
  lemma LookupRightIff(syms: seq<Symbol>, homes: seq<nat>, v: nat, i: int)
    requires |homes| == |syms| && ScanFinds(syms, homes, v, i)
    ensures var n := NewestValue(syms, v); i == n <==> (n >= 0 ==> homes[n] == HashValue(v))
  {
  }

  // ----- the table -----

  class SymbolTable {
    var syms: seq<Symbol>
    const byName: array<seq<nat>>
    const byValue: array<seq<nat>>
    ghost var homes: seq<nat>  // bucket of each symbol in the value index, fixed when it is added

    constructor ()
      ensures Valid() && syms == [] && homes == [] && fresh(byName) && fresh(byValue)
    {
      syms, homes := [], [];
      byName := new seq<nat>[BUCKETS](_ => []);
      byValue := new seq<nat>[BUCKETS](_ => []);
    }

    ghost predicate Valid()
      reads this, byName, byValue
    {
      && byName.Length == BUCKETS && byValue.Length == BUCKETS && byName != byValue && |homes| == |syms|
      && (forall h :: 0 <= h < BUCKETS ==> byName[h] == Chain(NameKeys(syms), h))
      && (forall h :: 0 <= h < BUCKETS ==> byValue[h] == Chain(homes, h))
    }

    /** sym_find1: walk the name chain, newest symbol first. */
    method FindSymbol(name: Name, kind: nat) returns (i: int)
      requires Valid()
      ensures i == Find(syms, name, kind)
    {
      var hash := HashName(name);
      var chain := byName[hash];
      ChainDescends(NameKeys(syms), hash);
      var k := 0;
      while k < |chain|
        invariant k <= |chain|
        invariant forall m :: 0 <= m < k ==> chain[m] < |syms| && syms[chain[m]].name != name
      {
        assert chain[k] in chain;
        if syms[chain[k]].name == name {
          forall j | chain[k] < j < |syms| ensures syms[j].name != name {
            assert NameKeys(syms)[j] == hash ==> j in chain;
          }
          UniqueNewest(syms, name, chain[k]);
          return if kind != 0 && syms[chain[k]].kind != kind then -1 else chain[k];
        }
        k := k + 1;
      }
      forall j | 0 <= j < |syms| ensures syms[j].name != name {
        assert NameKeys(syms)[j] == hash ==> j in chain;
      }
      UniqueNewest(syms, name, -1);
      return -1;
    }

    /** sym_lookup: walk the value chain. */
    method LookupValue(v: nat) returns (i: int)
      requires Valid()
      ensures ScanFinds(syms, homes, v, i)
    {
      var hash := HashValue(v);
      var chain := byValue[hash];
      ChainDescends(homes, hash);
      var k := 0;
      while k < |chain|
        invariant k <= |chain|
        invariant forall m :: 0 <= m < k ==> chain[m] < |syms| && syms[chain[m]].value != v
      {
        assert chain[k] in chain;
        if syms[chain[k]].value == v {
          forall j | chain[k] < j < |syms| ensures !(homes[j] == hash && syms[j].value == v) {
            assert homes[j] == hash ==> j in chain;
          }
          return chain[k];
        }
        k := k + 1;
      }
      forall j | 0 <= j < |syms| ensures !(homes[j] == hash && syms[j].value == v) {
        assert homes[j] == hash ==> j in chain;
      }
      return -1;
    }

    /** sym_add: the new symbol goes to the head of both its chains. */
    method AddSymbol(name: Name, value: nat, kind: nat)
      requires Valid()
      modifies this, byName, byValue
      ensures Valid() && syms == Add(old(syms), name, value, kind)
      ensures homes == old(homes) + [HashValue(value)]
    {
      var n := |syms|;
      var h := HashName(name);
      var g := HashValue(value);
      ghost var keys := NameKeys(syms);
      byName[h] := [n] + byName[h];
      byValue[g] := [n] + byValue[g];
      syms := syms + [Symbol(name, value, kind)];
      ChainGrows(keys, h);
      ChainGrows(homes, g);
      homes := homes + [g];
      assert NameKeys(syms) == keys + [h];
    }

    /** sym_set: overwrite in place, or add.  The value chains are not touched. */
    method SetSymbol(name: Name, value: nat, kind: nat)
      requires Valid()
      modifies this, byName, byValue
      ensures Valid() && syms == Set(old(syms), name, value, kind)
      ensures homes == if Find(old(syms), name, kind) >= 0 then old(homes) else old(homes) + [HashValue(value)]
    {
      var i := FindSymbol(name, kind);
      if i >= 0 {
        ghost var keys := NameKeys(syms);
        syms := syms[i := syms[i].(value := value)];
        assert NameKeys(syms) == keys;
      } else {
        AddSymbol(name, value, kind);
      }
    }

    /** A table built by sym_add alone: every symbol still lies in the bucket of its value. */
    ghost predicate AddOnly()
      reads this
    {
      |homes| == |syms| && forall i :: 0 <= i < |syms| ==> homes[i] == HashValue(syms[i].value)
    }

    /** On such a table lookup by value finds the newest symbol with that value. */
    method LookupNewest(v: nat) returns (i: int)
      requires Valid() && AddOnly()
      ensures i == NewestValue(syms, v)
    {
      i := LookupValue(v);
      LookupRightIff(syms, homes, v, i);
    }
  }

  lemma ChainGrows(keys: seq<nat>, h: nat)
    ensures forall g :: Chain(keys + [h], g) == if g == h then [|keys|] + Chain(keys, g) else Chain(keys, g)
  {
    forall g ensures Chain(keys + [h], g) == if g == h then [|keys|] + Chain(keys, g) else Chain(keys, g) {
      assert (keys + [h])[..|keys|] == keys;
    }
  }

  /** One symbol moved from value 1 to value 2: the table no longer finds it by value. */
  lemma MovedSymbolLost(name: Name)
    ensures var syms := Set([Symbol(name, 1, 0)], name, 2, 0);
            syms == [Symbol(name, 2, 0)] && ScanFinds(syms, [HashValue(1)], 2, -1) && NewestValue(syms, 2) == 0
  {
    var one := [Symbol(name, 1, 0)];
    UniqueNewest(one, name, 0);
  }
}
