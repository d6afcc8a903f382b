/** The top-level run: acquire tickers, screen them, rank the candidates,
    and post either the ranked prompt or the "no qualifying tickers" notice. */
module Scanner {
  import opened Types
  import opened Earnings
  import opened Screening
  import opened Ranking
  import opened Discord

  /** How a rounded number is shown: growth (one decimal), market cap in
      billions (two decimals), average volume in thousands (one decimal). */
  datatype Formats = Formats(pct: real -> string, billions: real -> string, thousands: real -> string)

  /** The fixed message texts, with the day already filled in: the prompt
      text before and after the ranked list, and the complete notice sent
      when no ticker qualifies. */
  datatype Template = Template(rankedHead: string, rankedTail: string, noQualifying: string)

  /** An f-string shows a null name as "None". */
  function NameText(name: Option<string>): string
  {
    match name
    case None => "None"
    case Some(s) => s
  }

  /** One line of the ranked list. */
  function Row(c: Candidate, formats: Formats): (r: string)
    ensures |r| > 0 && r[|r| - 1] == '\n'
    ensures |r| > 3 + |c.ticker| && r[..3 + |c.ticker|] == "- $" + c.ticker
  {
    var r := "- $" + c.ticker + " " + NameText(c.name)
      + " | YoY: " + formats.pct(c.yoyPct)
      + "% | 市值: $" + formats.billions(c.capB)
      + "B | 均量: " + formats.thousands(c.volK) + "K\n";
    assert r[..3 + |c.ticker|] == "- $" + c.ticker;
    r
  }

  /** The ranked list text: one row per shortlisted record, in order. */
  function Lines(shortlist: seq<Candidate>, formats: Formats): string
  {
    if shortlist == [] then ""
    else Lines(shortlist[..|shortlist| - 1], formats) + Row(shortlist[|shortlist| - 1], formats)
  }

  /** The list text of two lists in sequence is the two texts in sequence. */
  lemma {:induction false} LinesAppend(a: seq<Candidate>, b: seq<Candidate>, formats: Formats)
    ensures Lines(a + b, formats) == Lines(a, formats) + Lines(b, formats)
  {
    if b == [] {
      assert a + b == a;
    } else {
      var b' := b[..|b| - 1];
      var last := b[|b| - 1];
      assert (a + b)[..|a + b| - 1] == a + b';
      assert (a + b)[|a + b| - 1] == last;
      var row := Row(last, formats);
      calc {
        Lines(a + b, formats);
        Lines(a + b', formats) + row;
        { LinesAppend(a, b', formats); }
        (Lines(a, formats) + Lines(b', formats)) + row;
        Lines(a, formats) + (Lines(b', formats) + row);
        Lines(a, formats) + Lines(b, formats);
      }
    }
  }

  /** Every shortlisted record has its own row, and the rows follow the shortlist's order. */
  lemma {:induction false} LinesHoldRows(shortlist: seq<Candidate>, formats: Formats, i: nat)
    requires i < |shortlist|
    ensures Lines(shortlist, formats)
         == Lines(shortlist[..i], formats) + Row(shortlist[i], formats) + Lines(shortlist[i + 1..], formats)
  {
    assert shortlist == shortlist[..i] + [shortlist[i]] + shortlist[i + 1..];
    LinesAppend(shortlist[..i] + [shortlist[i]], shortlist[i + 1..], formats);
    LinesAppend(shortlist[..i], [shortlist[i]], formats);
    assert [shortlist[i]][..0] == [];
  }

  /** The `stock_list_str += ...` loop over the shortlist. */
  method BuildStockList(shortlist: seq<Candidate>, formats: Formats) returns (text: string)
    ensures text == Lines(shortlist, formats)
  {
    text := "";
    for i := 0 to |shortlist|
      invariant text == Lines(shortlist[..i], formats)
    {
      assert shortlist[..i + 1][..i] == shortlist[..i];
      text := text + Row(shortlist[i], formats);
    }
    assert shortlist[..|shortlist|] == shortlist;
  }

  /** The ranked-list message before clipping. */
  function RankedMessage(template: Template, stockList: string): string
  {
    template.rankedHead + stockList + "\n" + template.rankedTail
  }

  /** What one run did. `lookups` counts metadata lookups, `pauses` the
      throttling delays, and `posted` the body sent to the webhook. */
  datatype Outcome =
    | MissingKey
    | NoEarnings
    | NoQualifying(lookups: nat, pauses: nat, posted: Option<string>)
    | Ranked(lookups: nat, pauses: nat, shortlist: seq<Candidate>, posted: Option<string>)

  /** The run as a function of its inputs, with the default thresholds. */
  function Scan(fmpKey: Option<string>, fetch: Fetch, snapshot: Snapshot, webhookUrl: Option<string>,
                template: Template, formats: Formats): Outcome
  {
    if fmpKey.None? || fmpKey.value == "" then MissingKey
    else Report(EarningsTickers(fetch), snapshot, webhookUrl, template, formats)
  }

  /** The part of the run after acquisition. */
  function Report(tickers: seq<string>, snapshot: Snapshot, webhookUrl: Option<string>,
                  template: Template, formats: Formats): Outcome
  {
    if tickers == [] then NoEarnings
    else
      var candidates := Accepted(tickers, snapshot, DefaultMaxCap, DefaultMaxVol);
      Notify(|tickers|, |candidates| + FailedLookups(tickers, snapshot), candidates, webhookUrl, template, formats)
  }

  /** The message choice once the candidates are known. */
  function Notify(lookups: nat, pauses: nat, candidates: seq<Candidate>, webhookUrl: Option<string>,
                  template: Template, formats: Formats): Outcome
  {
    if candidates == [] then
      NoQualifying(lookups, pauses, Delivered(webhookUrl, template.noQualifying))
    else
      var shortlist := Shortlist(candidates);
      Ranked(lookups, pauses, shortlist, Delivered(webhookUrl, RankedMessage(template, Lines(shortlist, formats))))
  }

  /** The `__main__` block, with the request outcome, the metadata snapshot,
      the environment settings and the message texts as inputs. */
  method RunScan(fmpKey: Option<string>, fetch: Fetch, snapshot: Snapshot, webhookUrl: Option<string>,
                 template: Template, formats: Formats) returns (outcome: Outcome)
    ensures outcome == Scan(fmpKey, fetch, snapshot, webhookUrl, template, formats)
  {
    if fmpKey.None? || fmpKey.value == "" {
      return MissingKey;
    }
    var tickers := EarningsTickers(fetch);
    if tickers != [] {
      var epList, pauses := FilterCandidates(tickers, snapshot, DefaultMaxCap, DefaultMaxVol);
      outcome := SendReport(|tickers|, pauses, epList, webhookUrl, template, formats);
    } else {
      outcome := NoEarnings;
    }
  }

  /** Ranks the candidates and posts the ranked list, or posts the notice. */
  method SendReport(lookups: nat, pauses: nat, epList: seq<Candidate>, webhookUrl: Option<string>,
                    template: Template, formats: Formats) returns (outcome: Outcome)
    ensures outcome == Notify(lookups, pauses, epList, webhookUrl, template, formats)
  {
    if epList != [] {
      var shortlist := Shortlist(epList);
      var stockList := BuildStockList(shortlist, formats);
      var posted := SendToDiscord(webhookUrl, RankedMessage(template, stockList));
      outcome := Ranked(lookups, pauses, shortlist, posted);
    } else {
      var posted := SendToDiscord(webhookUrl, template.noQualifying);
      outcome := NoQualifying(lookups, pauses, posted);
    }
  }

  /** A missing key, or an acquisition that yields no tickers, means no
      metadata lookup, no delay and nothing posted. */
  lemma NoTickersNoWork(fmpKey: Option<string>, fetch: Fetch, snapshot: Snapshot, webhookUrl: Option<string>,
                        template: Template, formats: Formats)
    ensures fmpKey.None? || fmpKey.value == "" ==> Scan(fmpKey, fetch, snapshot, webhookUrl, template, formats) == MissingKey
    ensures fmpKey.Some? && fmpKey.value != "" && EarningsTickers(fetch) == [] ==>
      Scan(fmpKey, fetch, snapshot, webhookUrl, template, formats) == NoEarnings
  {
  }

  /** With tickers, every one is looked up once; the notice is sent exactly
      when none qualifies, and the ranked list exactly when some does. */
  lemma NoticeExactlyWhenNoneQualifies(fmpKey: Option<string>, fetch: Fetch, snapshot: Snapshot,
                                       webhookUrl: Option<string>, template: Template, formats: Formats)
    requires fmpKey.Some? && fmpKey.value != ""
    requires EarningsTickers(fetch) != []
    ensures var o := Scan(fmpKey, fetch, snapshot, webhookUrl, template, formats);
      && (o.NoQualifying? || o.Ranked?)
      && o.lookups == |EarningsTickers(fetch)|
      && (o.NoQualifying? <==> forall t | t in EarningsTickers(fetch) ::
            !(LookupOf(snapshot, t).Fetched? && Qualifies(LookupOf(snapshot, t).info, DefaultMaxCap, DefaultMaxVol)))
      && (o.NoQualifying? ==> o.posted == Delivered(webhookUrl, template.noQualifying))
  {
    var tickers := EarningsTickers(fetch);
    var candidates := Accepted(tickers, snapshot, DefaultMaxCap, DefaultMaxVol);
    forall t ensures (exists c :: c in candidates && c.ticker == t)
        <==> t in tickers && LookupOf(snapshot, t).Fetched? && Qualifies(LookupOf(snapshot, t).info, DefaultMaxCap, DefaultMaxVol)
    {
      AcceptedExactlyQualifying(tickers, snapshot, DefaultMaxCap, DefaultMaxVol, t);
    }
    if candidates != [] {
      var c := candidates[0];
      assert exists d :: d in candidates && d.ticker == c.ticker;
      assert c.ticker in tickers && LookupOf(snapshot, c.ticker).Fetched?
        && Qualifies(LookupOf(snapshot, c.ticker).info, DefaultMaxCap, DefaultMaxVol);
    }
  }

  /** A ranked outcome posts at most ten records, sorted by growth, each a
      qualifying ticker from the calendar: a symbol without '.' that meets
      every threshold. */
  lemma RankedShortlistQualifies(fmpKey: Option<string>, fetch: Fetch, snapshot: Snapshot,
                                 webhookUrl: Option<string>, template: Template, formats: Formats)
    ensures var o := Scan(fmpKey, fetch, snapshot, webhookUrl, template, formats);
      o.Ranked? ==>
        && 0 < |o.shortlist| <= ShortlistSize
        && SortedByYoyDesc(o.shortlist)
        && forall c | c in o.shortlist ::
             && c.ticker in EarningsTickers(fetch) && !HasDot(c.ticker)
             && c.yoyPct >= 39.0 && c.capB <= 10.0 && c.volK <= 1500.0
  {
    var o := Scan(fmpKey, fetch, snapshot, webhookUrl, template, formats);
    if o.Ranked? {
      var tickers := EarningsTickers(fetch);
      var candidates := Accepted(tickers, snapshot, DefaultMaxCap, DefaultMaxVol);
      ShortlistIsTopByYoy(candidates);
      ShortlistFromCandidates(candidates);
      AcceptedMeetThresholds(tickers, snapshot, DefaultMaxCap, DefaultMaxVol);
      forall c | c in o.shortlist ensures c.ticker in tickers && !HasDot(c.ticker) {
        AcceptedExactlyQualifying(tickers, snapshot, DefaultMaxCap, DefaultMaxVol, c.ticker);
        var i :| 0 <= i < |tickers| && tickers[i] == c.ticker;
      }
    }
  }
}
