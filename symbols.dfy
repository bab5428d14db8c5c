/**
 * Symbols, the values stored under them, the error taxonomy shared by the
 * schema and the translators, and insertion-ordered entry lists used for
 * symbol maps and string maps.
 */
module Symbols {

  /** A symbol is identified by its name alone: two symbols with the same name are equal. */
  datatype Symbol = Symbol(name: string)

  /** The runtime value stored under a symbol; the declared Java type becomes a tag. */
  datatype Value = StrVal(str: string) | IntVal(num: int)

  /** The failure kinds a caller can observe. */
  datatype Error =
    | Bug(overlap: set<Symbol>)
    | InvalidSymbols(missing: set<Symbol>, unexpected: set<Symbol>)
    | NotContained(symbol: Symbol)
    | ParseError(raw: string)
    | NotImplemented
    | TypeMismatch(value: Value)

  /** An insertion-ordered map, as a list of key/value entries. */
  type Entries<K, V> = seq<(K, V)>

  /** A symbol map: symbols with their values, in insertion order. */
  type SymbolMap = Entries<Symbol, Value>

  /** A plain string-keyed map, such as form fields or query parameters. */
  type StringMap = Entries<string, string>

  /** The elements of a sequence, with order and duplicates forgotten. */
  function Elements<T>(xs: seq<T>): (s: set<T>)
    ensures forall i :: 0 <= i < |xs| ==> xs[i] in s
    ensures forall x :: x in s ==> exists i :: 0 <= i < |xs| && xs[i] == x
  {
    set x | x in xs
  }

  /** The keys present in an entry list. */
  function KeysOf<K, V>(e: Entries<K, V>): (ks: set<K>)
    ensures forall i :: 0 <= i < |e| ==> e[i].0 in ks
    ensures forall k :: k in ks ==> exists i :: 0 <= i < |e| && e[i].0 == k
  {
    set i | 0 <= i < |e| :: e[i].0
  }

  /** The mapping an entry list denotes (a later entry for a key replaces an earlier one). */
  function AsMap<K, V>(e: Entries<K, V>): (m: map<K, V>)
    ensures m.Keys == KeysOf(e)
  {
    if e == [] then map[]
    else
      assert KeysOf(e) == {e[0].0} + KeysOf(e[1..]) by {
        forall k | k in KeysOf(e) ensures k in {e[0].0} + KeysOf(e[1..]) {
          var i :| 0 <= i < |e| && e[i].0 == k;
          if i > 0 { assert e[1..][i - 1] == e[i]; }
        }
      }
      map[e[0].0 := e[0].1] + AsMap(e[1..])
  }

  /** In an entry list, the value of the last entry for a key is the one the map holds. */
  lemma {:induction false} AsMapLookup<K, V>(e: Entries<K, V>, i: nat)
    requires i < |e|
    requires forall j :: i < j < |e| ==> e[j].0 != e[i].0
    ensures e[i].0 in AsMap(e) && AsMap(e)[e[i].0] == e[i].1
  {
    if i > 0 {
      assert forall j :: i - 1 < j < |e| - 1 ==> e[1..][j] == e[j + 1];
      AsMapLookup(e[1..], i - 1);
    } else {
      assert e[0].0 !in KeysOf(e[1..]);
    }
  }
}
