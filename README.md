# NTRT pre-market scanner (U.S.), modelled in Dafny

The scanner is one script, `main.py`. It runs once a day and does five things:

1. It asks an earnings calendar for the symbols that reported in the last two days.
2. It looks up each symbol's metadata and keeps those with revenue growth of at least 39 %, a market cap of at most 10 billion and an average volume of at most 1.5 million shares.
3. It ranks the survivors by growth and keeps the top ten.
4. It posts a prompt built from that list to a Discord webhook.
5. If nothing qualifies, it posts a short notice instead.

This project models the deterministic logic between the network calls and proves properties about it. The modules are:

- `Types` (`types.dfy`): `Option` and `Field`. A `Field` is a dictionary key that is missing, present with a null value, or present with a value.
- `Earnings` (`earnings.dfy`): post-processing of the calendar response in `get_earnings_tickers`. The request outcome is an input value of type `Fetch`. It is either `Raised`, or `Responded` with a status code and a `Body`. A `Body` is either `Malformed` or the `symbol` column.
- `Screening` (`screening.dfy`): the per-ticker loop of `filter_us_ep_candidates`, as a method with a loop over the tickers. The metadata comes from a `Snapshot`, which maps each ticker to one lookup result. A ticker with no entry is one whose lookup raised. The method is proved equal to the specification function `Accepted`. The lemmas about `Accepted` state which tickers are kept, that the table follows iteration order, and that one ticker's exclusion does not affect the others.
- `Ranking` (`ranking.dfy`): `sort_values(by='YoY(%)', ascending=False).head(10)`, modelled as a function.
- `Discord` (`discord.dfy`): the truncation and skip logic of `send_to_discord`.
- `Scanner` (`scanner.dfy`): the `__main__` block. This covers the missing-key exit, the three outcomes, and the `stock_list_str += …` loop. `Scan` is the whole run as a function, and `RunScan` is the method proved equal to it.

Where the code's own comments and texts and its behaviour differ, the model follows the behaviour:

- **Inclusive thresholds.** The code skips a ticker only when growth is `< 0.39`, the cap is `> max_cap` or the volume is `> max_vol` (main.py:49, 54, 59). So growth exactly 0.39, a cap equal to the ceiling and a volume equal to the ceiling all pass. The docstring at main.py:38 and the notice at main.py:131 describe the tests as strict: "YoY > 39%", "< 10B" and "< 1.5M".
- **Throttling delay.** The comment at main.py:72 presents the delay as a guard against the metadata provider blocking the lookups. But a ticker that fails a test reaches `continue` inside the `try` block (main.py:50, 55, 60), which jumps over `time.sleep(0.2)` at main.py:73. So only accepted tickers and tickers whose lookup raised are followed by a delay. `FilterCandidates` counts these delays as `pauses`.

Two further modelling choices:

- **No tie order.** `sort_values` at main.py:104 uses pandas' default sort, which is quicksort and not stable. The model therefore proves nothing about the order of equal growths.
- **One calendar source, as a list.** `main.py` queries one calendar provider (main.py:15-19), and every failure gives the empty list. The ticker list is in first-occurrence order (pandas `unique`, main.py:30), not a set.

## Model

| member | source | states |
|---|---|---|
| `Earnings.WithoutDotted` | main.py:28-29 | a symbol is in the result exactly when it is in the column and contains no '.' |
| `Earnings.Unique` | main.py:30 | the result has the same members as the column and no duplicates |
| `Earnings.Normalise` | main.py:28-30 | no returned ticker contains '.'; no duplicates; every symbol of the column without '.' appears, and nothing else |
| `Earnings.EarningsTickers` | main.py:17-35 | a raised request, a non-200 status, a malformed body or an empty table gives `[]`; otherwise the result is the normalised column (no '.', no duplicates, every undotted symbol present) |
| `Earnings.NormaliseKeepsFirstOccurrenceOrder` | main.py:29-30 | tickers appear in the order of their first occurrence in the calendar column |
| `Earnings.NormaliseIdempotent` | main.py:28-30 | normalising an already normalised list returns it unchanged |
| `Screening.Screen` | main.py:47-68 | a ticker yields a record exactly when its lookup succeeded, growth is present and >= 0.39, cap is present and <= max_cap, and volume is present and <= max_vol; the record's Name is shortName when present, the ticker when the key is absent, and null when the value is null; the scaled values respect the thresholds |
| `Screening.FilterCandidates` | main.py:37-75 | the loop's table equals `Accepted` (the accepted records in iteration order); the delays equal the number of accepted tickers plus the number of failed lookups |
| `Screening.AcceptedAppend` | main.py:42-71 | the table of a concatenation of ticker lists is the concatenation of their tables, so the output follows input order |
| `Screening.ExclusionIsIsolated` | main.py:42-71 | a ticker that fails a test or whose lookup raised is removed, and the records of the tickers before and after it are unchanged |
| `Screening.AcceptedExactlyQualifying` | main.py:48-60 | some record carries ticker t exactly when t is in the input, its lookup succeeded and all three inclusive tests hold |
| `Screening.AcceptedMeetThresholds` | main.py:48-67 | every record has growth >= 39 %, cap in billions times 1e9 <= max_cap, and volume in thousands times 1000 <= max_vol |
| `Screening.BoundariesPass` | main.py:49-59 | growth exactly 0.39, cap exactly 10e9 and volume exactly 1.5e6 together pass |
| `Screening.JustPastBoundariesFail` | main.py:49-59 | growth 0.3899, cap one above the ceiling or volume one above the ceiling is skipped |
| `Ranking.InsertSorted` | main.py:104 | inserting into a list sorted by growth, largest first, keeps it sorted |
| `Ranking.SortByYoy` | main.py:104 | the sorted list is a permutation of the candidates |
| `Ranking.SortByYoySorted` | main.py:104 | the sorted list is non-increasing in growth |
| `Ranking.ShortlistIsTopByYoy` | main.py:104 | the shortlist is non-increasing in growth, has length min(10, n), is a sub-multiset of the candidates, and no candidate left out has a larger growth than any candidate kept |
| `Ranking.ShortlistFromCandidates` | main.py:104 | every shortlisted record is one of the candidates |
| `Discord.Clip` | main.py:83-84 | content of at most 1950 characters is unchanged; longer content becomes its first 1950 characters followed by the fixed marker, at most 1963 characters in all |
| `Discord.SendToDiscord` | main.py:77-86 | an unset or empty webhook setting posts nothing; otherwise the clipped content is posted |
| `Scanner.Row` | main.py:108 | each row starts with "- $" and the ticker, and ends with a newline |
| `Scanner.LinesAppend` | main.py:106-108 | the list text of two lists in sequence is their texts in sequence |
| `Scanner.LinesHoldRows` | main.py:106-108 | each shortlisted record's row sits in the list text between the rows before it and the rows after it |
| `Scanner.BuildStockList` | main.py:106-108 | the `+=` loop builds exactly `Lines` of the shortlist |
| `Scanner.SendReport` | main.py:102-131 | with candidates it ranks them, builds the list and posts the ranked message; without candidates it posts the notice |
| `Scanner.RunScan` | main.py:88-133 | the `__main__` block gives exactly the outcome `Scan` describes |
| `Scanner.NoTickersNoWork` | main.py:89-99 | a missing key ends the run before anything else; whenever acquisition yields no tickers (a failed or empty response, or one whose symbols all contain '.'), the run ends in the no-earnings outcome, with no lookups, no delays and nothing posted |
| `Scanner.NoticeExactlyWhenNoneQualifies` | main.py:99-131 | with tickers, each is looked up once; the "no qualifying" notice is chosen exactly when no ticker qualifies, and it is posted through the webhook logic |
| `Scanner.RankedShortlistQualifies` | main.py:97-104 | a ranked outcome has 1 to 10 records in non-increasing growth order; each comes from a calendar symbol without '.' and meets every default threshold |

## Left out

- The HTTP requests to the calendar provider and to Discord are not modelled. The calendar outcome is the input `Fetch`, and the Discord POST is represented by the body it would send.
- The `yfinance` metadata lookup is not modelled. Its results are the input `Snapshot`.
- `time.sleep(0.2)` is not modelled as a delay. Only the number of times it runs is modelled, as `pauses`.
- The date window and day string computed from the clock are not modelled. The day is already part of the `Template` texts.
- Environment variables are inputs (`fmpKey`, `webhookUrl`). `exit()` is modelled as the `MissingKey` outcome. Console logging is not modelled.
- `Screening.FilterCandidates`: records hold the scaled values before `round(…, 1)` and `round(…, 2)`. Rounding is floating-point display formatting. It is monotone, so sortedness by the unrounded growth implies sortedness by the rounded growth, but ties created by rounding are not modelled.
- `Ranking.ShortlistIsTopByYoy`: states no order among records of equal growth. The source's quicksort promises none.
- Metadata values are exact reals. Floating point is not modelled, including NaN: a NaN growth or cap would pass the `<` and `>` tests in the source.
- The literal prompt text and the "no qualifying" notice are not modelled. They are the `Template` input, and the number formatting used in a row is the `Formats` input.
- pandas mechanics are not modelled beyond their effect. A calendar body whose rows lack `symbol` in some places, or that holds non-string symbols, is folded into `Malformed`, which gives `[]`, like a body that fails to decode.
- An exception raised by the Discord POST is not modelled. The source does not catch it, but nothing follows the POST in the run.
- A fallback chain over several calendar providers is not modelled, because `main.py` queries a single provider.
