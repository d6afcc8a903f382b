/** `filter_us_ep_candidates`: for each ticker, three threshold tests on its
    metadata in a fixed order; a ticker passing all three becomes a record. */
module Screening {
  import opened Types

  /** The growth floor; a growth exactly at the floor passes. */
  const MinGrowth: real := 0.39
  /** The default ceilings `max_cap` and `max_vol`; a value exactly at a ceiling passes. */
  const DefaultMaxCap: real := 10000000000.0
  const DefaultMaxVol: real := 1500000.0

  /** The keys of a ticker's metadata dictionary that the screen reads. */
  datatype Info = Info(
    revenueGrowth: Field<real>,
    marketCap: Field<real>,
    averageVolume: Field<real>,
    shortName: Field<string>)

  /** A ticker's metadata lookup: it raised, or it gave a dictionary. */
  datatype Lookup = Failed | Fetched(info: Info)

  /** One row of the candidate table. `name` is `None` when the metadata
      holds a null short name. The numbers are the scaled values before
      rounding for display: growth in percent, market cap in billions,
      average volume in thousands. */
  datatype Candidate = Candidate(ticker: string, name: Option<string>, yoyPct: real, capB: real, volK: real)

  /** The metadata snapshot read during one run; a ticker without an entry
      is one whose lookup raised. */
  type Snapshot = map<string, Lookup>

  function LookupOf(snapshot: Snapshot, ticker: string): Lookup
  {
    if ticker in snapshot then snapshot[ticker] else Failed
  }

  /** The three tests, stated as conditions that must all hold. */
  predicate Qualifies(info: Info, maxCap: real, maxVol: real)
  {
    && info.revenueGrowth.Present? && info.revenueGrowth.value >= MinGrowth
    && info.marketCap.Present? && info.marketCap.value <= maxCap
    && info.averageVolume.Present? && info.averageVolume.value <= maxVol
  }

  /** The record built for a ticker that passed. */
  function Record(ticker: string, info: Info): Candidate
    requires info.revenueGrowth.Present? && info.marketCap.Present? && info.averageVolume.Present?
  {
    Candidate(ticker, GetOr(info.shortName, ticker),
              info.revenueGrowth.value * 100.0,
              info.marketCap.value / 1000000000.0,
              info.averageVolume.value / 1000.0)
  }

  /** One iteration of the loop: the tests in source order, each skipping
      the ticker when its value is missing or on the failing side. */
  function Screen(ticker: string, lookup: Lookup, maxCap: real, maxVol: real): (r: Option<Candidate>)
    ensures r.Some? <==> lookup.Fetched? && Qualifies(lookup.info, maxCap, maxVol)
    ensures r.Some? ==> r.value.ticker == ticker
    ensures r.Some? && lookup.info.shortName.Missing? ==> r.value.name == Some(ticker)
    ensures r.Some? && lookup.info.shortName.Null? ==> r.value.name == None
    ensures r.Some? && lookup.info.shortName.Present? ==> r.value.name == Some(lookup.info.shortName.value)
    ensures r.Some? ==> r.value.yoyPct >= MinGrowth * 100.0
    ensures r.Some? ==> r.value.capB * 1000000000.0 <= maxCap
    ensures r.Some? ==> r.value.volK * 1000.0 <= maxVol
  {
    match lookup
    case Failed => None
    case Fetched(info) =>
      var revGrowth := Get(info.revenueGrowth);
      if revGrowth.None? || revGrowth.value < MinGrowth then None
      else
        var marketCap := Get(info.marketCap);
        if marketCap.None? || marketCap.value > maxCap then None
        else
          var vol := Get(info.averageVolume);
          if vol.None? || vol.value > maxVol then None
          else Some(Record(ticker, info))
  }

  /** The records the loop has appended after visiting `tickers`, in order. */
  function Accepted(tickers: seq<string>, snapshot: Snapshot, maxCap: real, maxVol: real): seq<Candidate>
  {
    if tickers == [] then []
    else
      var t := tickers[|tickers| - 1];
      var rest := Accepted(tickers[..|tickers| - 1], snapshot, maxCap, maxVol);
      match Screen(t, LookupOf(snapshot, t), maxCap, maxVol)
      case None => rest
      case Some(c) => rest + [c]
  }

  /** The number of tickers among `tickers` whose lookup raised. */
  function FailedLookups(tickers: seq<string>, snapshot: Snapshot): nat
  {
    if tickers == [] then 0
    else
      FailedLookups(tickers[..|tickers| - 1], snapshot)
        + (if LookupOf(snapshot, tickers[|tickers| - 1]).Failed? then 1 else 0)
  }

  /** The loop itself. `epList` is the accumulated table; `pauses` counts the
      throttling delays, which a ticker skipped by a failed test does not
      reach (its `continue` jumps over the delay). */
  method FilterCandidates(tickers: seq<string>, snapshot: Snapshot, maxCap: real, maxVol: real)
    returns (epList: seq<Candidate>, pauses: nat)
    ensures epList == Accepted(tickers, snapshot, maxCap, maxVol)
    ensures pauses == |epList| + FailedLookups(tickers, snapshot)
  {
    epList := [];
    pauses := 0;
    for i := 0 to |tickers|
      invariant epList == Accepted(tickers[..i], snapshot, maxCap, maxVol)
      invariant pauses == |epList| + FailedLookups(tickers[..i], snapshot)
    {
      var ticker := tickers[i];
      assert tickers[..i + 1][..i] == tickers[..i];
      var lookup := LookupOf(snapshot, ticker);
      if lookup.Fetched? {
        var info := lookup.info;
        var revGrowth := Get(info.revenueGrowth);
        if revGrowth.None? || revGrowth.value < MinGrowth {
          continue;
        }
        var marketCap := Get(info.marketCap);
        if marketCap.None? || marketCap.value > maxCap {
          continue;
        }
        var vol := Get(info.averageVolume);
        if vol.None? || vol.value > maxVol {
          continue;
        }
        epList := epList + [Record(ticker, info)];
      }
      pauses := pauses + 1;
    }
    assert tickers[..|tickers|] == tickers;
  }

  /** The table of a concatenation is the concatenation of the tables: each
      ticker is decided on its own metadata, in iteration order. */
  lemma {:induction false} AcceptedAppend(a: seq<string>, b: seq<string>, snapshot: Snapshot, maxCap: real, maxVol: real)
    ensures Accepted(a + b, snapshot, maxCap, maxVol)
         == Accepted(a, snapshot, maxCap, maxVol) + Accepted(b, snapshot, maxCap, maxVol)
  {
    if b != [] {
      var b' := b[..|b| - 1];
      assert (a + b)[..|a + b| - 1] == a + b';
      AcceptedAppend(a, b', snapshot, maxCap, maxVol);
    } else {
      assert a + b == a;
    }
  }

  /** A ticker that fails a test or whose lookup raised is dropped, and only
      it: the records of the tickers around it are unaffected. */
  lemma ExclusionIsIsolated(a: seq<string>, t: string, b: seq<string>, snapshot: Snapshot, maxCap: real, maxVol: real)
    requires !(LookupOf(snapshot, t).Fetched? && Qualifies(LookupOf(snapshot, t).info, maxCap, maxVol))
    ensures Accepted(a + [t] + b, snapshot, maxCap, maxVol)
         == Accepted(a, snapshot, maxCap, maxVol) + Accepted(b, snapshot, maxCap, maxVol)
  {
    AcceptedAppend(a + [t], b, snapshot, maxCap, maxVol);
    AcceptedAppend(a, [t], snapshot, maxCap, maxVol);
    assert [t][..0] == [];
  }

  /** A ticker contributes a record exactly when its lookup succeeded and all
      three tests pass; every record comes from a ticker of the input. */
  lemma {:induction false} AcceptedExactlyQualifying(tickers: seq<string>, snapshot: Snapshot, maxCap: real, maxVol: real, t: string)
    ensures (exists c :: c in Accepted(tickers, snapshot, maxCap, maxVol) && c.ticker == t)
        <==> t in tickers && LookupOf(snapshot, t).Fetched? && Qualifies(LookupOf(snapshot, t).info, maxCap, maxVol)
  {
    if tickers != [] {
      var p := tickers[..|tickers| - 1];
      var x := tickers[|tickers| - 1];
      assert tickers == p + [x];
      AcceptedExactlyQualifying(p, snapshot, maxCap, maxVol, t);
      var r := Screen(x, LookupOf(snapshot, x), maxCap, maxVol);
      if x == t && r.Some? {
        assert r.value in Accepted(tickers, snapshot, maxCap, maxVol);
      }
    }
  }

  /** Every record meets the thresholds, in its scaled units. */
  lemma {:induction false} AcceptedMeetThresholds(tickers: seq<string>, snapshot: Snapshot, maxCap: real, maxVol: real)
    ensures forall c | c in Accepted(tickers, snapshot, maxCap, maxVol) ::
      c.yoyPct >= 39.0 && c.capB * 1000000000.0 <= maxCap && c.volK * 1000.0 <= maxVol
  {
    if tickers != [] {
      AcceptedMeetThresholds(tickers[..|tickers| - 1], snapshot, maxCap, maxVol);
    }
  }

  /** The boundaries are inclusive: growth exactly 0.39, a cap exactly at the
      ceiling and a volume exactly at the ceiling together pass. */
  lemma BoundariesPass(ticker: string, name: Field<string>)
    ensures Screen(ticker, Fetched(Info(Present(0.39), Present(DefaultMaxCap), Present(DefaultMaxVol), name)),
                   DefaultMaxCap, DefaultMaxVol).Some?
  {
  }

  /** Just past any one boundary, the ticker is skipped. */
  lemma JustPastBoundariesFail(ticker: string, name: Field<string>)
    ensures Screen(ticker, Fetched(Info(Present(0.3899), Present(DefaultMaxCap), Present(DefaultMaxVol), name)),
                   DefaultMaxCap, DefaultMaxVol).None?
    ensures Screen(ticker, Fetched(Info(Present(0.39), Present(DefaultMaxCap + 1.0), Present(DefaultMaxVol), name)),
                   DefaultMaxCap, DefaultMaxVol).None?
    ensures Screen(ticker, Fetched(Info(Present(0.39), Present(DefaultMaxCap), Present(DefaultMaxVol + 1.0), name)),
                   DefaultMaxCap, DefaultMaxVol).None?
  {
  }
}
