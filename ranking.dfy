/** `sort_values(by='YoY(%)', ascending=False).head(10)`: the candidates by
    growth, largest first, cut to the first ten. The sort promises no order
    among equal growths, so neither does this model. */
module Ranking {
  import opened Screening

  const ShortlistSize: nat := 10

  ghost predicate SortedByYoyDesc(s: seq<Candidate>)
  {
    forall i, j | 0 <= i < j < |s| :: s[i].yoyPct >= s[j].yoyPct
  }

  /** Insert `c` into a list sorted by growth, largest first, before the
      first element whose growth does not exceed its own. */
  function Insert(c: Candidate, s: seq<Candidate>): (r: seq<Candidate>)
    ensures multiset(r) == multiset(s) + multiset{c}
  {
    if s == [] then [c]
    else if c.yoyPct >= s[0].yoyPct then [c] + s
    else
      assert s == [s[0]] + s[1..];
      [s[0]] + Insert(c, s[1..])
  }

  /** Prepending an element at least as large as every element keeps a list sorted. */
  lemma ConsSorted(x: Candidate, s: seq<Candidate>)
    requires SortedByYoyDesc(s)
    requires forall y | y in s :: y.yoyPct <= x.yoyPct
    ensures SortedByYoyDesc([x] + s)
  {
  }

  lemma {:induction false} InsertSorted(c: Candidate, s: seq<Candidate>)
    requires SortedByYoyDesc(s)
    ensures SortedByYoyDesc(Insert(c, s))
  {
    if s == [] {
    } else if c.yoyPct >= s[0].yoyPct {
      forall y | y in s ensures y.yoyPct <= c.yoyPct {
        var j :| 0 <= j < |s| && s[j] == y;
        assert s[0].yoyPct >= s[j].yoyPct;
      }
      ConsSorted(c, s);
    } else {
      var tail := s[1..];
      assert SortedByYoyDesc(tail) by {
        forall i, j | 0 <= i < j < |tail| ensures tail[i].yoyPct >= tail[j].yoyPct {
          assert tail[i] == s[i + 1] && tail[j] == s[j + 1];
        }
      }
      InsertSorted(c, tail);
      var rest := Insert(c, tail);
      forall y | y in rest ensures y.yoyPct <= s[0].yoyPct {
        assert y in multiset(rest);
        assert y == c || y in multiset(tail);
        if y != c {
          var j :| 0 <= j < |tail| && tail[j] == y;
          assert s[0].yoyPct >= s[j + 1].yoyPct;
        }
      }
      ConsSorted(s[0], rest);
    }
  }

  /** The candidates by growth, largest first. */
  function SortByYoy(s: seq<Candidate>): (r: seq<Candidate>)
    ensures multiset(r) == multiset(s)
  {
    if s == [] then []
    else
      assert s == [s[0]] + s[1..];
      Insert(s[0], SortByYoy(s[1..]))
  }

  lemma {:induction false} SortByYoySorted(s: seq<Candidate>)
    ensures SortedByYoyDesc(SortByYoy(s))
  {
    if s != [] {
      SortByYoySorted(s[1..]);
      InsertSorted(s[0], SortByYoy(s[1..]));
    }
  }

  function Min(a: nat, b: nat): nat
  {
    if a <= b then a else b
  }

  /** The shortlist: the sorted candidates cut to the first ten. */
  function Shortlist(candidates: seq<Candidate>): seq<Candidate>
  {
    var sorted := SortByYoy(candidates);
    sorted[..Min(ShortlistSize, |sorted|)]
  }

  lemma MultisetSplit(s: seq<Candidate>, k: nat)
    requires k <= |s|
    ensures multiset(s) == multiset(s[..k]) + multiset(s[k..])
  {
    assert s == s[..k] + s[k..];
  }

  lemma PrefixSorted(s: seq<Candidate>, k: nat)
    requires k <= |s| && SortedByYoyDesc(s)
    ensures SortedByYoyDesc(s[..k])
  {
  }

  /** In a sorted list, nothing after position `k` is larger than anything before it. */
  lemma PrefixDominates(s: seq<Candidate>, k: nat)
    requires k <= |s| && SortedByYoyDesc(s)
    ensures forall c, x | c in multiset(s[k..]) && x in s[..k] :: c.yoyPct <= x.yoyPct
  {
  }

  /** The shortlist is sorted by growth, largest first, has length
      `min(10, |candidates|)`, is drawn from the candidates, and no candidate
      left out has a larger growth than any candidate kept. */
  lemma ShortlistIsTopByYoy(candidates: seq<Candidate>)
    ensures SortedByYoyDesc(Shortlist(candidates))
    ensures |Shortlist(candidates)| == Min(ShortlistSize, |candidates|)
    ensures multiset(Shortlist(candidates)) <= multiset(candidates)
    ensures forall c, x | c in multiset(candidates) - multiset(Shortlist(candidates)) && x in Shortlist(candidates) ::
      c.yoyPct <= x.yoyPct
  {
    var sorted := SortByYoy(candidates);
    SortByYoySorted(candidates);
    assert |sorted| == |candidates| by {
      assert |multiset(sorted)| == |multiset(candidates)|;
    }
    var k := Min(ShortlistSize, |sorted|);
    PrefixSorted(sorted, k);
    MultisetSplit(sorted, k);
    PrefixDominates(sorted, k);
  }

  /** Every shortlisted record is one of the candidates. */
  lemma ShortlistFromCandidates(candidates: seq<Candidate>)
    ensures forall x | x in Shortlist(candidates) :: x in candidates
  {
    var r := Shortlist(candidates);
    ShortlistIsTopByYoy(candidates);
    forall x | x in r ensures x in candidates {
      assert x in multiset(r);
    }
  }
}
