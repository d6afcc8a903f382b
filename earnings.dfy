/** Post-processing of the earnings-calendar response: the symbols of a
    successful response, without those containing '.', deduplicated in
    first-occurrence order; every failure reads as the empty list. */
module Earnings {

  /** The decoded body of a response: not a table with a `symbol` column
      (decoding or column lookup raises), or the `symbol` column. */
  datatype Body = Malformed | Symbols(symbols: seq<string>)

  /** The outcome of the calendar request: the request itself raised, or a
      response arrived with a status code and a body. */
  datatype Fetch = Raised | Responded(status: int, body: Body)

  const StatusOk := 200

  predicate HasDot(s: string)
  {
    '.' in s
  }

  predicate NoDuplicates(s: seq<string>)
  {
    forall i, j | 0 <= i < j < |s| :: s[i] != s[j]
  }

  /** The boolean mask `~symbol.str.contains('\.')` applied to the column. */
  function WithoutDotted(s: seq<string>): (r: seq<string>)
    ensures forall t :: t in r <==> t in s && !HasDot(t)
  {
    if s == [] then []
    else
      var rest := WithoutDotted(s[..|s| - 1]);
      assert s == s[..|s| - 1] + [s[|s| - 1]];
      if HasDot(s[|s| - 1]) then rest else rest + [s[|s| - 1]]
  }

  /** `unique()`: the distinct values, in order of first occurrence. */
  function Unique(s: seq<string>): (r: seq<string>)
    ensures forall t :: t in r <==> t in s
    ensures NoDuplicates(r)
  {
    if s == [] then []
    else
      var rest := Unique(s[..|s| - 1]);
      assert s == s[..|s| - 1] + [s[|s| - 1]];
      if s[|s| - 1] in rest then rest else rest + [s[|s| - 1]]
  }

  /** The ticker list built from a non-empty `symbol` column. */
  function Normalise(s: seq<string>): (r: seq<string>)
    ensures forall i | 0 <= i < |r| :: !HasDot(r[i])
    ensures NoDuplicates(r)
    ensures forall t :: t in r <==> t in s && !HasDot(t)
  {
    Unique(WithoutDotted(s))
  }

  /** Whether `f` is a successful response whose symbol column is non-empty. */
  predicate Usable(f: Fetch)
  {
    f.Responded? && f.status == StatusOk && f.body.Symbols? && f.body.symbols != []
  }

  /** `get_earnings_tickers` after the request: a non-200 status, an empty
      table or any exception yield `[]`; otherwise the normalised symbols. */
  function EarningsTickers(f: Fetch): (r: seq<string>)
    ensures !Usable(f) ==> r == []
    ensures Usable(f) ==> forall t :: t in r <==> t in f.body.symbols && !HasDot(t)
    ensures forall i | 0 <= i < |r| :: !HasDot(r[i])
    ensures NoDuplicates(r)
  {
    match f
    case Raised => []
    case Responded(status, body) =>
      if status != StatusOk then []
      else match body
        case Malformed => []
        case Symbols(s) => if s == [] then [] else Normalise(s)
  }

  /** The position of the first occurrence of `x` in `s`. */
  function FirstIndex(s: seq<string>, x: string): (i: nat)
    requires x in s
    ensures i < |s| && s[i] == x && x !in s[..i]
  {
    if s[0] == x then 0
    else
      assert x in s[1..];
      var k := FirstIndex(s[1..], x);
      assert s[..k + 1] == [s[0]] + s[1..][..k];
      1 + k
  }

  lemma FirstIndexOfPrefix(s: seq<string>, n: nat, x: string)
    requires n <= |s| && x in s[..n]
    ensures x in s && FirstIndex(s, x) == FirstIndex(s[..n], x)
  {
  }

  /** The normalised list keeps the order in which symbols first occur in the column. */
  lemma {:induction false} NormaliseKeepsFirstOccurrenceOrder(s: seq<string>)
    ensures forall i, j | 0 <= i < j < |Normalise(s)| ::
      FirstIndex(s, Normalise(s)[i]) < FirstIndex(s, Normalise(s)[j])
  {
    if s != [] {
      var p := s[..|s| - 1];
      var x := s[|s| - 1];
      NormaliseKeepsFirstOccurrenceOrder(p);
      assert WithoutDotted(s) == if HasDot(x) then WithoutDotted(p) else WithoutDotted(p) + [x];
      var q := WithoutDotted(p);
      if !HasDot(x) {
        assert (q + [x])[..|q + [x]| - 1] == q;
      }
      var r := Normalise(s);
      var r' := Normalise(p);
      assert r == r' || (r == r' + [x] && x !in r' && !HasDot(x));
      forall k | 0 <= k < |r'|
        ensures r'[k] in s && FirstIndex(s, r'[k]) == FirstIndex(p, r'[k])
      {
        FirstIndexOfPrefix(s, |s| - 1, r'[k]);
      }
      if r != r' {
        assert x !in p;
        assert FirstIndex(s, x) == |s| - 1;
      }
    }
  }

  /** `Unique` changes nothing in a list that has no duplicates. */
  lemma {:induction false} UniqueOfDistinct(s: seq<string>)
    requires NoDuplicates(s)
    ensures Unique(s) == s
  {
    if s != [] {
      var p := s[..|s| - 1];
      assert NoDuplicates(p);
      UniqueOfDistinct(p);
      assert s[|s| - 1] !in p;
      assert s == p + [s[|s| - 1]];
    }
  }

  /** `WithoutDotted` changes nothing in a list without dotted symbols. */
  lemma {:induction false} WithoutDottedOfUndotted(s: seq<string>)
    requires forall i | 0 <= i < |s| :: !HasDot(s[i])
    ensures WithoutDotted(s) == s
  {
    if s != [] {
      WithoutDottedOfUndotted(s[..|s| - 1]);
      assert s == s[..|s| - 1] + [s[|s| - 1]];
    }
  }

  /** Normalising an already normalised ticker list gives it back. */
  lemma NormaliseIdempotent(s: seq<string>)
    ensures Normalise(Normalise(s)) == Normalise(s)
  {
    var r := Normalise(s);
    WithoutDottedOfUndotted(r);
    UniqueOfDistinct(r);
  }
}
