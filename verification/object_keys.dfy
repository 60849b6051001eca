/**
 * The order in which `Object.entries` lists the own string keys of a plain
 * object (ECMA-262, section 10.1.11.1, OrdinaryOwnPropertyKeys): first every
 * key that is an array index, in ascending numeric order, then every other
 * key in the order it was added.
 */
module ObjectKeys {

  predicate IsDigit(c: char)
  {
    '0' <= c <= '9'
  }

  /** The number a string of decimal digits spells. */
  function DigitsValue(s: string): nat
    requires forall i :: 0 <= i < |s| ==> IsDigit(s[i])
  {
    if |s| == 0 then 0
    else
      assert IsDigit(s[|s| - 1]);
      DigitsValue(s[..|s| - 1]) * 10 + (s[|s| - 1] as int - '0' as int)
  }

  /**
   * An array index: the canonical decimal form of an integer below 2^32 - 1
   * (no sign, no leading zero except for "0" itself).
   */
  predicate IsArrayIndex(s: string)
  {
    && |s| > 0
    && (forall i :: 0 <= i < |s| ==> IsDigit(s[i]))
    && (s[0] != '0' || |s| == 1)
    && DigitsValue(s) < 0xFFFF_FFFF
  }

  function IndexValue(s: string): nat
    requires IsArrayIndex(s)
  {
    DigitsValue(s)
  }

  /** Array-index keys are in ascending numeric order. */
  ghost predicate Ascending(s: seq<string>)
  {
    && (forall i :: 0 <= i < |s| ==> IsArrayIndex(s[i]))
    && (forall i, j :: 0 <= i < j < |s| ==> IndexValue(s[i]) <= IndexValue(s[j]))
  }

  /** The array-index keys of `keys`, in the order they occur. */
  function IndexKeys(keys: seq<string>): (r: seq<string>)
    ensures forall i :: 0 <= i < |r| ==> IsArrayIndex(r[i])
  {
    if keys == [] then []
    else if IsArrayIndex(keys[0]) then [keys[0]] + IndexKeys(keys[1..])
    else IndexKeys(keys[1..])
  }

  /** The other keys of `keys`, in the order they occur. */
  function OtherKeys(keys: seq<string>): (r: seq<string>)
  {
    if keys == [] then []
    else if IsArrayIndex(keys[0]) then OtherKeys(keys[1..])
    else [keys[0]] + OtherKeys(keys[1..])
  }

  /** Inserts the array index k into an ascending sequence of array indices. */
  function Insert(k: string, sorted: seq<string>): (r: seq<string>)
    requires IsArrayIndex(k) && Ascending(sorted)
    ensures Ascending(r)
    ensures multiset(r) == multiset(sorted) + multiset{k}
  {
    if sorted == [] || IndexValue(k) <= IndexValue(sorted[0]) then
      assert Ascending([k] + sorted) by { AscendingCons(k, sorted); }
      [k] + sorted
    else
      var rest := Insert(k, sorted[1..]);
      InsertStep(k, sorted, rest);
      [sorted[0]] + rest
  }

  lemma InsertStep(k: string, sorted: seq<string>, rest: seq<string>)
    requires IsArrayIndex(k) && Ascending(sorted) && sorted != []
    requires IndexValue(sorted[0]) < IndexValue(k)
    requires Ascending(rest) && multiset(rest) == multiset(sorted[1..]) + multiset{k}
    ensures Ascending([sorted[0]] + rest)
    ensures multiset([sorted[0]] + rest) == multiset(sorted) + multiset{k}
  {
    assert sorted == [sorted[0]] + sorted[1..];
    forall x | x in rest ensures IsArrayIndex(x) && IndexValue(sorted[0]) <= IndexValue(x) {
      assert x in multiset(rest);
      if x != k {
        assert x in sorted[1..] by { assert x in multiset(sorted[1..]); }
      }
    }
    AscendingCons(sorted[0], rest);
  }

  lemma AscendingCons(k: string, s: seq<string>)
    requires IsArrayIndex(k) && Ascending(s)
    requires forall x :: x in s ==> IsArrayIndex(x) && IndexValue(k) <= IndexValue(x)
    ensures Ascending([k] + s)
  {
  }

  /** Array indices sorted into ascending numeric order (insertion sort). */
  function SortIndices(keys: seq<string>): (r: seq<string>)
    requires forall i :: 0 <= i < |keys| ==> IsArrayIndex(keys[i])
    ensures Ascending(r)
    ensures multiset(r) == multiset(keys)
  {
    if keys == [] then []
    else
      assert keys == [keys[0]] + keys[1..];
      Insert(keys[0], SortIndices(keys[1..]))
  }

  /** The keys of an object in the order `Object.entries` lists them, given the order they were added in. */
  function EntriesOrder(keys: seq<string>): seq<string>
  {
    SortIndices(IndexKeys(keys)) + OtherKeys(keys)
  }

  /** `Object.entries` lists every key exactly as often as it was added: a permutation. */
  lemma {:induction false} EntriesOrderIsPermutation(keys: seq<string>)
    ensures multiset(EntriesOrder(keys)) == multiset(keys)
    ensures forall k :: k in EntriesOrder(keys) <==> k in keys
  {
    SplitKeys(keys);
    assert forall k :: k in EntriesOrder(keys) <==> k in multiset(EntriesOrder(keys));
  }

  lemma {:induction false} SplitKeys(keys: seq<string>)
    ensures multiset(IndexKeys(keys)) + multiset(OtherKeys(keys)) == multiset(keys)
  {
    if keys != [] {
      SplitKeys(keys[1..]);
      assert keys == [keys[0]] + keys[1..];
    }
  }

  /** With no array-index keys, `Object.entries` lists keys in the order they were added. */
  lemma {:induction false} EntriesOrderWithoutIndices(keys: seq<string>)
    requires forall i :: 0 <= i < |keys| ==> !IsArrayIndex(keys[i])
    ensures EntriesOrder(keys) == keys
  {
    NoIndexKeys(keys);
  }

  lemma {:induction false} NoIndexKeys(keys: seq<string>)
    requires forall i :: 0 <= i < |keys| ==> !IsArrayIndex(keys[i])
    ensures IndexKeys(keys) == [] && OtherKeys(keys) == keys
  {
    if keys != [] {
      assert !IsArrayIndex(keys[0]);
      NoIndexKeys(keys[1..]);
    }
  }

  /** Array-index keys come first, ascending; the other keys follow in the order they were added. */
  lemma EntriesOrderShape(keys: seq<string>)
    ensures var e := EntriesOrder(keys); var n := |IndexKeys(keys)|;
      && n <= |e|
      && Ascending(e[..n])
      && e[n..] == OtherKeys(keys)
      && (forall i :: n <= i < |e| ==> !IsArrayIndex(e[i]))
  {
    var e := EntriesOrder(keys);
    var s := SortIndices(IndexKeys(keys));
    assert |s| == |IndexKeys(keys)| by { assert |multiset(s)| == |multiset(IndexKeys(keys))|; }
    assert e[..|s|] == s;
    assert e[|s|..] == OtherKeys(keys);
    OtherKeysAreNotIndices(keys);
  }

  lemma {:induction false} OtherKeysAreNotIndices(keys: seq<string>)
    ensures forall i :: 0 <= i < |OtherKeys(keys)| ==> !IsArrayIndex(OtherKeys(keys)[i])
  {
    if keys != [] {
      OtherKeysAreNotIndices(keys[1..]);
    }
  }
}
