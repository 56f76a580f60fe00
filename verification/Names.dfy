// Lists of part names, as manifests declare them.
module Names {

  /** The first occurrences of a list. */
  function FirstOccurrences(s: seq<string>): (r: seq<string>)
    ensures forall x :: x in r <==> x in s
    ensures forall i, j :: 0 <= i < j < |r| ==> r[i] != r[j]
  {
    if s == [] then []
    else
      var n := |s| - 1;
      var r := FirstOccurrences(s[..n]);
      assert forall x :: x in s <==> x in s[..n] || x == s[n];
      if s[n] in r then r else r + [s[n]]
  }

  /** A name's first index in a list it is in. */
  function FirstIndex(s: seq<string>, x: string): (r: nat)
    requires x in s
    ensures r < |s| && s[r] == x && forall j :: 0 <= j < r ==> s[j] != x
  {
    if s[0] == x then 0 else FirstIndex(s[1..], x) + 1
  }

  lemma FirstIndexPrefix(s: seq<string>, n: nat, x: string)
    requires n <= |s| && x in s[..n]
    ensures x in s && FirstIndex(s, x) == FirstIndex(s[..n], x)
  {
    assert s[FirstIndex(s[..n], x)] == x;
  }

  /** De-duplication keeps the order in which the names first occur. */
  lemma {:induction false} OccurrenceOrder(s: seq<string>, i: nat, j: nat)
    requires i < j < |FirstOccurrences(s)|
    ensures FirstIndex(s, FirstOccurrences(s)[i]) < FirstIndex(s, FirstOccurrences(s)[j])
    decreases |s|
  {
    var n := |s| - 1;
    var r := FirstOccurrences(s[..n]);
    var x, y := FirstOccurrences(s)[i], FirstOccurrences(s)[j];
    assert x == r[i];
    FirstIndexPrefix(s, n, x);
    if j < |r| {
      OccurrenceOrder(s[..n], i, j);
      FirstIndexPrefix(s, n, y);
    } else {
      assert forall k :: 0 <= k < n ==> s[k] in s[..n];
    }
  }

  method Deduplicate(required: seq<string>) returns (inventory: seq<string>)
    ensures inventory == FirstOccurrences(required)
  {
    inventory := [];
    for i := 0 to |required|
      invariant inventory == FirstOccurrences(required[..i])
    {
      assert required[..i + 1][..i] == required[..i];
      if required[i] !in inventory {
        inventory := inventory + [required[i]];
      }
    }
    assert required[..|required|] == required;
  }

  lemma EmptyInventory(required: seq<string>)
    ensures FirstOccurrences(required) == [] <==> required == []
  {
    if required != [] {
      assert required[0] in FirstOccurrences(required);
    }
  }
}
