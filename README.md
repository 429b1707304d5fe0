# Daily report import, modelled in Dafny

`scripts/import-report.mjs` turns one day's plain-text trading report into a
content page. It:

- checks the `--date YYYYMMDD` argument;
- fills the report address template;
- reads the report's metrics, its four marked sections and the asset and
  operation rows inside them;
- picks the last thirty points of the NAV history for the chart;
- renders the two Markdown tables.

This project models that pipeline as Dafny functions, the script's loops as
methods proved against those functions, and the promises of the format as
lemmas:

- **round trips** – a written trade parses back to itself; a position line
  gives back each of its figures; a table row splits back into its cells;
- **first-occurrence and leftmost-match semantics** for marker lookup and
  every regular expression;
- **last-write-wins** metrics;
- **blank-line termination** of blocks, and the basis block as the exception;
- **the NAV window** – sorted, stable, bounded by the report date and drawn
  from the feed.

## Modules

| Module | What it models |
|---|---|
| `Maybe` | An optional value: `?.[1]`, `?? default`, and a match that failed. |
| `Text` | The JavaScript string primitives the script uses. See the list below. |
| `Scan` | The regular expressions as deterministic matchers on suffixes. See below. |
| `Metrics` | The header scan that fills the metrics map (lines 42-54), as the method `ExtractMetrics` proved against the function `Metrics`. |
| `Sections` | The four marker lookups, `collectBlock` and the basis loop (lines 63-93). |
| `Rows` | `parseAssetLine` and `parseOperationLine` (lines 95-136), with the text a report writes for a position or a trade. |
| `Render` | The rows of the asset and operation tables (lines 297-319). |
| `History` | The filtering, stable date sort and thirty-point window of the NAV feed (lines 147-159). |
| `Dates` | The argument check, the slug, the address template, the chart id and the title date (lines 4-5, 19-29, 39-40, 186). |
| `Report` | One run of the import, composing the above (the method `Import`). |

`Text` covers:

- `trim`, with JavaScript's white-space set;
- `split` on one character, and `join`;
- `indexOf` and string `replace`;
- the `\r\n` normalisation, and the split into lines.

`Scan` matches each regular expression at one position of a suffix, and
searches for the leftmost position. A character class followed by `+` is
matched greedily, and the model does not backtrack. For these patterns the
greedy run is the one the regex engine keeps, because each `+` run is followed
either by the end of the pattern or by a character outside its class.

In three places the model follows the code where a reader might expect
otherwise:

- A metric value is re-joined from pieces that were each trimmed, so the
  spaces around inner colons are dropped (line 47).
- The side of a trade is kept as the literal `买入` or `卖出`, not normalised.
- A `- key: value` line yields that pair only if no later header line
  assigns the same key.

## Model

| member | source | states |
|---|---|---|
| Text.Trim | scripts/import-report.mjs:45 | The result has no white space at either end, is never longer, is empty exactly when the line is all white space, and leaves a trimmed line unchanged. |
| Text.TrimCut | scripts/import-report.mjs:45 | The trimmed text is a slice of the line with only white space before and after it. |
| Text.TrimOf | scripts/import-report.mjs:47 | Trimming white space followed by a trimmed text gives that text. |
| Text.TrimIdempotent | scripts/import-report.mjs:45 | Trimming twice is trimming once. |
| Text.TrimAll | scripts/import-report.mjs:47 | `map(trim)`: one trimmed piece per piece, in order. |
| Text.Split | scripts/import-report.mjs:47 | At least one piece; no piece holds the separator; joining the pieces with it gives the text back; two or more pieces exactly when the separator occurs. |
| Text.Join | scripts/import-report.mjs:37 | `join`: the first piece opens the joined text. |
| Text.SplitOfJoin | scripts/import-report.mjs:37 | Splitting undoes joining when no piece holds the separator. |
| Text.SplitAfterFirst | scripts/import-report.mjs:47 | The first piece is everything before the first separator; the rest are the pieces of what follows it. |
| Text.SplitHead | scripts/import-report.mjs:108 | `split(sep)[0]` is the text before the first separator, or the whole text when there is none. |
| Text.Find | scripts/import-report.mjs:28 | The first position where the pattern occurs, or -1 exactly when it occurs nowhere. |
| Text.FindAfter | scripts/import-report.mjs:28 | A pattern whose first character is absent from the prefix is first found right after the prefix. |
| Text.FindAbsent | scripts/import-report.mjs:28 | A pattern whose first character does not occur is not found. |
| Text.ReplaceFirstOf | scripts/import-report.mjs:28 | `replace` with a string pattern and a replacement without `$` swaps only the first occurrence and keeps the text around it. |
| Text.ReplaceFirst | scripts/import-report.mjs:28 | `replace` with a string pattern and a replacement without `$`: unchanged when the pattern is absent; otherwise the text before the first occurrence, the replacement, then the text after that occurrence. |
| Text.SplitSecond | scripts/import-report.mjs:86 | `split(sep)[1]` is absent exactly when the separator does not occur; when present it holds no separator. |
| Text.SplitSecondOf | scripts/import-report.mjs:86 | `split(sep)[1]` is the text between the first and the second separator (or the whole remainder when there is no second one), for any text before and between them that is clear of the separator: holding no occurrence of it, nor one that runs on into the separator that follows. |
| Text.FindBefore | scripts/import-report.mjs:86 | A pattern is first found right after a prefix that is clear of it, whether the prefix lacks its first character or that character opens the pattern only and the prefix holds no occurrence. |
| Text.Without | scripts/import-report.mjs:186 | `replace(/-/g, '')` leaves no such character. |
| Text.NormalizeNewlines | scripts/import-report.mjs:37 | Never longer; only carriage returns are removed; a text without carriage returns is unchanged. |
| Text.NormalizeCrLf | scripts/import-report.mjs:37 | A `\r\n` after carriage-return-free text becomes `\n`, and the rest is normalised. |
| Text.NormalizeLoneCr | scripts/import-report.mjs:37 | A carriage return not followed by `\n` is kept, and the rest is normalised. |
| Text.Lines | scripts/import-report.mjs:37 | At least one line; no line holds a line break; joining the lines with breaks gives the normalised text. |
| Scan.Many1 | scripts/import-report.mjs:97 | `k+` matches exactly when the text starts with a character of `k`; the run is non-empty, made of `k` and not followed by `k`. |
| Scan.Many1Of | scripts/import-report.mjs:97 | A maximal run placed at the start is matched exactly: same token, same rest. |
| Scan.RunEnds | scripts/import-report.mjs:97 | Two maximal runs of a class from the same place end at the same place (a greedy run is unique). |
| Scan.Lit | scripts/import-report.mjs:120 | A literal matches exactly when the text starts with it, and the rest is what follows it. |
| Scan.LitOf | scripts/import-report.mjs:120 | A literal followed by any text is matched and removed. |
| Scan.Skip | scripts/import-report.mjs:120 | `\s+` matches exactly when the text starts with white space; what it removes is a non-empty run of white space, and what is left does not start with white space. |
| Scan.SkipOf | scripts/import-report.mjs:120 | A run of white space before a non-space is skipped exactly. |
| Scan.FieldHere | scripts/import-report.mjs:109-114 | A match at the start begins with the pattern's literal lead, and its capture has the shape of the capture group. |
| Scan.FieldHereWritten | scripts/import-report.mjs:109-114 | A match at the start is the lead, a gap of white space when the pattern has `\s+`, the capture, the closing text, then any text. |
| Scan.FieldFrom | scripts/import-report.mjs:109-114 | The leftmost position at or after `k` where the pattern matches, or -1 exactly when it matches nowhere there. |
| Scan.FirstField | scripts/import-report.mjs:109-114 | `match(re)?.[1]`: absent exactly when the pattern matches nowhere; otherwise the capture at the leftmost match. |
| Scan.NoMatchAt | scripts/import-report.mjs:109-114 | No match starts at a character other than the lead's first character. |
| Scan.MatchesShift | scripts/import-report.mjs:109-114 | Whether the pattern matches after a prefix depends only on the text after it. |
| Scan.MatchesAfter | scripts/import-report.mjs:109-114 | Behind a prefix in which no match can start, the matches are exactly those of the rest, shifted. |
| Scan.FirstFieldPast | scripts/import-report.mjs:109-114 | Such a prefix does not change the leftmost match. |
| Scan.FirstFieldSkip | scripts/import-report.mjs:109-114 | Nor does a prefix without the lead's first character. |
| Scan.FirstFieldHere | scripts/import-report.mjs:109-114 | A match at the very start is the leftmost match. |
| Scan.PlainFieldOf | scripts/import-report.mjs:109-111 | `lead=([^\s]+)` reads back the maximal run written after its lead. |
| Scan.GapFieldOf | scripts/import-report.mjs:112 | `浮盈\s+([-\d.]+)` reads back the run written after the lead and a space. |
| Scan.ClosedFieldOf | scripts/import-report.mjs:113 | `\(([-\d.]+%)\)` reads back the run with its percent sign. |
| Metrics.BlankFrom | scripts/import-report.mjs:44-53 | The first line at or after `k` that trims to empty, or the end of the text. |
| Metrics.HeaderEnd | scripts/import-report.mjs:44-53 | Where the scan stops: no line before it is blank, and the line there, if any, is blank. |
| Metrics.Pieces | scripts/import-report.mjs:47-48 | A metric line always splits into at least two pieces. |
| Metrics.Entry | scripts/import-report.mjs:45-50 | A line yields a pair exactly when its trim is a metric line, and the key is trimmed and holds no colon. |
| Metrics.Record | scripts/import-report.mjs:49 | Every key in the map is assigned by some entry. |
| Metrics.Metrics | scripts/import-report.mjs:42-54 | Every metric key is trimmed and holds no colon. |
| Metrics.HeaderEntries | scripts/import-report.mjs:44-50 | Within the header, an entry assigns a key exactly when its line defines it. |
| Metrics.ExtractMetrics | scripts/import-report.mjs:42-54 | The loop's map equals the last-write-wins record of the header's entries. |
| Metrics.RecordStep | scripts/import-report.mjs:49 | One more line either records its pair over the previous map or leaves the map unchanged. |
| Metrics.RecordKeys | scripts/import-report.mjs:49 | A key is recorded exactly when some entry assigns it. |
| Metrics.RecordLastWins | scripts/import-report.mjs:49 | The recorded value is that of the last entry assigning the key. |
| Metrics.MetricsKeys | scripts/import-report.mjs:42-54 | A key is a metric exactly when some metric line before the first blank line defines it. |
| Metrics.MetricsLastWins | scripts/import-report.mjs:42-54 | Of several header lines defining a key, the last one's value is kept. |
| Metrics.MetricsIgnoreTail | scripts/import-report.mjs:51-53 | Nothing after the first blank line affects the metrics. |
| Metrics.SplitOfEntry | scripts/import-report.mjs:47 | `key: v1:v2` splits at colons into the key, the first part with its leading space, then the other parts. |
| Metrics.PiecesOf | scripts/import-report.mjs:47 | The trimmed pieces of `- key: v1:v2` are the key and the value parts. |
| Metrics.EntryOf | scripts/import-report.mjs:45-49 | A `- key: value` line records exactly that key and value. |
| Metrics.MetricOfLine | scripts/import-report.mjs:42-54 | A `- key: value` line before the first blank line, and not overridden later, puts that pair in the map. |
| Sections.FindIndex | scripts/import-report.mjs:63 | The first line whose trimmed text starts with the label, or -1 exactly when none does. |
| Sections.AssetsEnd | scripts/import-report.mjs:80 | The assets block ends at the operations marker whenever that marker is present, otherwise at the fields marker; -1 exactly when both are missing. |
| Sections.OperationsEnd | scripts/import-report.mjs:81 | The operations block ends at the fields marker whenever that marker is present, otherwise at the basis marker; -1 exactly when both are missing. |
| Sections.StopFrom | scripts/import-report.mjs:72-74 | The first index at the limit or at a blank line; every line before it is not blank. |
| Sections.Span | scripts/import-report.mjs:69-78 | The lines strictly after the start and below the limit, up to the first blank line; nothing when the start is -1. |
| Sections.Block | scripts/import-report.mjs:69-78 | The span's lines, trimmed, none of them empty. |
| Sections.CollectBlock | scripts/import-report.mjs:69-78 | The block loop gives exactly `Block`. |
| Sections.SpanAt | scripts/import-report.mjs:72-74 | Below the limit, the span goes on exactly while lines are not blank. |
| Sections.SpanExit | scripts/import-report.mjs:72-74 | The loop exits exactly at the span's end. |
| Sections.BlankEndsBlock | scripts/import-report.mjs:74 | A blank line before the end marker cuts the block there, and what follows is lost. |
| Sections.BlockBetweenMarkers | scripts/import-report.mjs:72 | Without blank lines, a block is every line between its two markers. |
| Sections.BlockBeforeEnd | scripts/import-report.mjs:72 | A non-empty block ends before its end marker. |
| Sections.AssetsBeforeNext | scripts/import-report.mjs:80 | A non-empty assets block ends above the operations marker when that marker is present, and above the fields marker when only the fields marker is. |
| Sections.OperationsBeforeNext | scripts/import-report.mjs:81 | A non-empty operations block ends above the fields marker when that marker is present, and above the basis marker when only the basis marker is. |
| Sections.FieldsBeforeBasis | scripts/import-report.mjs:82 | The fields block stays above the basis marker. |
| Sections.InlineBasis | scripts/import-report.mjs:86-87 | At most one inline line, never empty; none when the separator is absent. |
| Sections.InlineSegment | scripts/import-report.mjs:86 | For any marker line `pre口径：mid` followed by nothing or by another `口径：…`, where neither `pre` nor `mid` holds `口径：` (a lone `口`, as in `统计口径为`, is allowed), the inline basis is `mid` trimmed. |
| Sections.Inline | scripts/import-report.mjs:86 | `split('口径：')[1]?.trim()`: absent exactly when the separator does not occur; otherwise trimmed. |
| Sections.NonBlank | scripts/import-report.mjs:88-92 | The trimmed non-blank lines, none of them empty, never more than the lines. |
| Sections.NonBlankAppend | scripts/import-report.mjs:88-92 | The non-blank lines of two stretches are those of the first, then those of the second. |
| Sections.NonBlankStep | scripts/import-report.mjs:89-91 | One more line is appended trimmed, unless it is blank. |
| Sections.BlankSkipped | scripts/import-report.mjs:90 | A blank line in the basis text neither appears nor stops the collection. |
| Sections.BlankDropped | scripts/import-report.mjs:90 | A trailing blank line contributes nothing. |
| Sections.NonBlankMembers | scripts/import-report.mjs:88-92 | A text is among the non-blank lines exactly when it is the non-empty trim of some line. |
| Sections.NonBlankFrom | scripts/import-report.mjs:88-92 | Every collected text is the non-empty trim of some line. |
| Sections.NonBlankHas | scripts/import-report.mjs:88-92 | The trim of every non-blank line is collected. |
| Sections.Basis | scripts/import-report.mjs:84-93 | No basis block without the marker. |
| Sections.CollectNonBlank | scripts/import-report.mjs:88-92 | The basis loop gives exactly the non-blank trimmed lines after the marker. |
| Sections.CollectBasis | scripts/import-report.mjs:84-93 | The basis code gives exactly `Basis`: the inline segment, then the loop's lines. |
| Sections.BasisLines | scripts/import-report.mjs:88-92 | Every basis line is non-empty, and every non-blank line after the marker is in the block, whatever blank lines come between. |
| Sections.SplitSections | scripts/import-report.mjs:63-93 | The four blocks the script collects equal `SectionsOf`. |
| Sections.SectionsOf | scripts/import-report.mjs:63-93 | No line of any of the four sections is empty. |
| Rows.Capture | scripts/import-report.mjs:109-114 | `match(re)?.[1] ?? '-'`: the capture of the leftmost match, or the sentinel when there is no match; the capture has the group's shape. |
| Rows.Symbol | scripts/import-report.mjs:108 | `split(' ')[0]` holds no space and is the whole line or its prefix before a space. |
| Rows.ParseAssetLine | scripts/import-report.mjs:95-116 | An aggregate line has the fixed symbol, sentinels and the `total=` capture as its value; any other line has its first word as the symbol and the leftmost capture or sentinel of each pattern. |
| Rows.EarnLine | scripts/import-report.mjs:96-107 | The aggregate line `Simple Earn USDT total=<n>` parses to `<n>` as its value and the sentinel everywhere else. |
| Rows.EarnExample | scripts/import-report.mjs:96-107 | The concrete line `Simple Earn USDT total=1,234.50` has value `1,234.50`. |
| Rows.PositionLine | scripts/import-report.mjs:108-115 | A position line written with a ticker and six figures parses back to exactly those seven fields, the rate with its `%`. |
| Rows.NotEarn | scripts/import-report.mjs:96 | A line starting with a ticker is not taken for the aggregate line. |
| Rows.SymbolOf | scripts/import-report.mjs:108 | The symbol of such a line is its ticker. |
| Rows.SizeAt | scripts/import-report.mjs:109 | `size=` reads back the size of a position line. |
| Rows.AvgAt | scripts/import-report.mjs:110 | `avg=` reads back the average price. |
| Rows.PriceAt | scripts/import-report.mjs:111 | `price=` reads back the price. |
| Rows.ValueAt | scripts/import-report.mjs:114 | `value=` reads back the value, which is written before the profit. |
| Rows.PnlAt | scripts/import-report.mjs:112 | `浮盈\s+` reads back the profit. |
| Rows.RateAt | scripts/import-report.mjs:113 | The parenthesised rate is read back with its percent sign. |
| Rows.FigureHere | scripts/import-report.mjs:109-114 | A `key=` figure followed by the next tagged piece is the leftmost capture. |
| Rows.PnlHere | scripts/import-report.mjs:112 | The profit piece gives back the profit. |
| Rows.RateHere | scripts/import-report.mjs:113 | The rate piece gives back the rate with `%`. |
| Rows.TaggedSkip | scripts/import-report.mjs:109-114 | A tagged figure that cannot start a match is passed over by the search. |
| Rows.TaggedHere | scripts/import-report.mjs:109-111 | A figure tagged with its own lead is found. |
| Rows.GapTaggedHere | scripts/import-report.mjs:112 | A figure after a lead and white space is found. |
| Rows.ClosedTaggedHere | scripts/import-report.mjs:113 | A figure with its suffix and closing parenthesis is found, suffix included. |
| Rows.Side | scripts/import-report.mjs:120 | `(买入\|卖出)` matches exactly when the text starts with one of the two words, and takes that word. |
| Rows.Profit | scripts/import-report.mjs:120 | The optional `利润` tail, when matched, is white space, `利润`, white space and a run of digits, dots and minus signs, followed by text that does not continue that run. |
| Rows.Stamp | scripts/import-report.mjs:120 | A matched stamp is a date, white space and a clock, read as one `YYYY-MM-DD HH:MM` time. |
| Rows.Quantities | scripts/import-report.mjs:120 | A match is `<size>@<price>`, white space, `成交额`, white space and `<amount>`, each figure a run of digits and dots, followed by text that does not continue the amount. |
| Rows.MatchTrade | scripts/import-report.mjs:119-123 | A recognised trade is well formed, its line starts with `-` and white space, and the line is that trade written with some white-space spacing, followed by text that extends neither the amount nor the profit. |
| Rows.Deal | scripts/import-report.mjs:120 | The part after the time stamp yields a well-formed trade with that time, and is that trade written with some spacing, followed by text that does not extend it. |
| Rows.ParseOperationLine | scripts/import-report.mjs:118-136 | A trade exactly when the pattern matches, and then well formed and written in the line with some spacing; otherwise the raw text, with a leading `- ` removed and nothing else changed. |
| Rows.TradeFields | scripts/import-report.mjs:126-135 | A trade whose fields have the captured shapes, with the sentinel as the missing profit, is well formed. |
| Rows.DealBuilt | scripts/import-report.mjs:120 | What the matchers take apart after the time stamp is a well-formed trade written with some spacing. |
| Rows.TradeBuilt | scripts/import-report.mjs:119-122 | What the matchers take apart from the start of a line is the trade written with some spacing. |
| Rows.SideOf | scripts/import-report.mjs:120 | A written side is read back. |
| Rows.StampOf | scripts/import-report.mjs:120 | A written time stamp, with any white space between date and clock, is read back. |
| Rows.ProfitOf | scripts/import-report.mjs:120 | A written profit clause, with any white space, is read back up to text that does not continue the profit. |
| Rows.QuantitiesOf | scripts/import-report.mjs:120 | Written quantities, with any white space, are read back up to text that does not continue the amount. |
| Rows.DealOf | scripts/import-report.mjs:120 | The text after the time stamp, with any spacing and any tail that does not extend the trade, parses back to the trade. |
| Rows.AfterFillOf | scripts/import-report.mjs:120 | The text after the amount does not continue it, and the optional profit clause read from it is the trade's profit, or the sentinel when none is written. |
| Rows.TradeLineRead | scripts/import-report.mjs:118-136 | A trade written with any white-space spacing and followed by text that does not extend it is matched and parsed back to itself. |
| Rows.TradeRoundTrip | scripts/import-report.mjs:118-136 | A well-formed trade written with single spaces as `- <time> <symbol> <side> <size>@<price> 成交额 <amount> [利润 <profit>]` parses back to itself. |
| Rows.WideTradeWithNote | scripts/import-report.mjs:120 | `- 2024-01-01  09:30 BTC 买入 1@2 成交额 3 备注` is a trade with the sentinel profit: the pattern is not anchored at the end and the time is rebuilt with one space. |
| Rows.RawNonEmpty | scripts/import-report.mjs:124 | A trimmed, non-empty line that is not a trade keeps some text. |
| Render.Padded | scripts/import-report.mjs:304 | Each cell between bars is the cell padded with one space on each side. |
| Render.TableRow | scripts/import-report.mjs:304 | A row opens with `| ` and closes with ` |`. |
| Render.RowReadBack | scripts/import-report.mjs:304 | Splitting a row at its bars and trimming gives back its trimmed, bar-free cells. |
| Render.AssetCells | scripts/import-report.mjs:304 | Seven columns. |
| Render.AssetRowReadBack | scripts/import-report.mjs:304 | An asset row splits back into the symbol and the six figures, in order. |
| Render.AssetRows | scripts/import-report.mjs:301-306 | One row per asset, in order. |
| Render.OperationRows | scripts/import-report.mjs:312-319 | One row per operation, in order. |
| Render.OperationRowReadBack | scripts/import-report.mjs:313-318 | A trade row splits back into the seven trade fields; a row of non-empty raw text splits back into that text and six `-`. |
| Render.RowCells | scripts/import-report.mjs:304 | Splitting a row at its bars gives an empty piece, the padded cells, and an empty piece, when no cell holds a bar. |
| Render.PaddedTrim | scripts/import-report.mjs:304 | A padded trimmed cell, trimmed, is the cell. |
| Render.RowLineFree | scripts/import-report.mjs:304 | A row has no line break when no cell has one. |
| Render.TableLines | scripts/import-report.mjs:306 | Rows without line breaks, joined by them, split back into the rows. |
| Render.AssetTable | scripts/import-report.mjs:301-306 | With at least one asset and no line break in any cell, the table splits back into one row per asset; with no asset the table is the empty text. |
| Render.OperationTable | scripts/import-report.mjs:312-319 | With at least one operation and no line break in any cell, the table splits back into one row per operation; with no operation the table is the empty text. |
| History.Kept | scripts/import-report.mjs:149-155 | The kept points are no more than the entries, none is later than the report date, and each is an entry of the feed. |
| History.KeptComplete | scripts/import-report.mjs:149-155 | Every entry with a usable date and NAV, not later than the report, is kept. |
| History.KeptWithoutReport | scripts/import-report.mjs:148-155 | An unusable report date keeps no point. |
| History.KeptAppend | scripts/import-report.mjs:149-155 | Filtering a feed in two parts filters each part and keeps them in order. |
| History.KeptSnoc | scripts/import-report.mjs:149-155 | One more feed entry adds its point at the end exactly when it has a date and a NAV and is not later than the report. |
| History.OnDay | scripts/import-report.mjs:156 | The points of one day, taken from the input. |
| History.Insert | scripts/import-report.mjs:156 | One point inserted: one longer, the same points plus it. |
| History.SortByDate | scripts/import-report.mjs:156 | The sort is a permutation. |
| History.InsertSorted | scripts/import-report.mjs:156 | Insertion keeps the points in date order. |
| History.SortSorted | scripts/import-report.mjs:156 | The sort orders the points by date. |
| History.InsertOnDay | scripts/import-report.mjs:156 | Insertion puts a point before the later points of its own day, so same-day points keep their order. |
| History.SortStable | scripts/import-report.mjs:156 | The sort is stable: the points of any one day keep their feed order. |
| History.Window | scripts/import-report.mjs:158-159 | `slice(-30)`: the last thirty points, or all when there are fewer. |
| History.WindowLatest | scripts/import-report.mjs:159 | The window of sorted points is sorted, and no point left out is later than one in it. |
| History.NavWindowProperties | scripts/import-report.mjs:149-159 | The chart's points are sorted, at most thirty, dated no later than the report and taken from the feed. |
| History.WindowFromFeed | scripts/import-report.mjs:149-159 | Every point of the window passed the filters and comes from an entry of the feed. |
| History.NavWindow | scripts/import-report.mjs:149-159 | The chart draws at most thirty points, sorted by date. |
| Dates.CheckDateArg | scripts/import-report.mjs:19-23 | The date is accepted exactly when it is present and is eight ASCII digits. |
| Dates.SlugDate | scripts/import-report.mjs:29 | The slug has the `YYYY-MM-DD` shape. |
| Dates.SlugRoundTrip | scripts/import-report.mjs:29 | Removing the slug's dashes gives the argument back. |
| Dates.ChartIdOf | scripts/import-report.mjs:186 | The chart id is `nav-` followed by the argument. |
| Dates.ChartId | scripts/import-report.mjs:186 | The chart id starts with `nav-` and has no dash after it. |
| Dates.ReportUrlOf | scripts/import-report.mjs:28 | A template `pre{YYYYMMDD}post` whose `pre` holds no placeholder becomes `pre`, the argument, `post`: only the first placeholder is replaced. |
| Dates.ReportUrlFixed | scripts/import-report.mjs:28 | A template with no `{` at all, so without the placeholder, is used unchanged. |
| Dates.ReportUrl | scripts/import-report.mjs:28 | Unchanged when the template has no placeholder; otherwise the text before the first placeholder, the argument (eight digits, so no `$`), then the text after it. |
| Dates.DefaultUrl | scripts/import-report.mjs:4-5 | The default address ends in `report_<argument>.txt`. |
| Dates.HeaderLine | scripts/import-report.mjs:39 | `find(...) ?? ''`: the first line starting with the marker, or empty exactly when no line starts with it. |
| Dates.FirstDate | scripts/import-report.mjs:40 | The leftmost `YYYY-MM-DD` in the text, absent exactly when there is none. |
| Dates.TitleDate | scripts/import-report.mjs:40 | The title is the first date of the header line (the first marked line) when it has one, and the slug otherwise; it has the date shape whenever the slug does, and a title other than the slug comes from the first marked line. |
| Dates.TitleWithoutHeader | scripts/import-report.mjs:39-40 | A report without a header line is titled with the slug. |
| Dates.FirstDateAfter | scripts/import-report.mjs:40 | The first date after a digit-free prefix is the one taken. |
| Dates.TitleFromHeader | scripts/import-report.mjs:39-40 | When line `i` is the first marked line and reads `【每日收益快照】<digit-free text><date>…`, the title is that date. |
| Report.ParseAssets | scripts/import-report.mjs:138 | One asset row per asset line, each its parse. |
| Report.ParseOperations | scripts/import-report.mjs:139 | One operation per operation line: no line is dropped. |
| Report.ShownOfLine | scripts/import-report.mjs:218 | `metrics.get(key) ?? '-'` on a key that a header line defines, and no later header line redefines, shows that line's value. |
| Report.ShownMissing | scripts/import-report.mjs:218 | The same lookup on a key that no header line defines shows `-`. |
| Report.BlockLinesTrimmed | scripts/import-report.mjs:73-75 | Block lines are trimmed and never empty. |
| Report.OperationsHaveText | scripts/import-report.mjs:314 | No operation from a block is an empty raw line, so no row shows `undefined`. |
| Report.Import | scripts/import-report.mjs:19-159 | Refused exactly when the argument is refused. Otherwise the page holds the slug, address, chart id, title, metrics, sections, parsed rows, tables and NAV window, each as specified above. |

## Left out

- Fetching the report and the NAV feed, and the failure on a non-OK
  response (lines 31-35, 142-146). The report text and the feed entries are
  parameters of `Import`.
- Reading the JSON feed and its `entries` array (lines 146-147). The entries
  arrive already read.
- Parsing of `argv` and the environment (lines 9-17, 25-27). The date
  argument and the template are parameters.
- The history address and the output directory. Nothing is fetched from or
  written to them.
- Date parsing with `new Date(...)` and `Number(...)` (lines 148-155). A feed
  date or a NAV that is missing or unreadable is `None`, and dates are day
  numbers.
- The report day: the day number that `new Date` gives for the slug is a
  parameter of `Import`, `None` when that is an Invalid Date. Calendar
  arithmetic, including the roll-over of a day such as `2024-02-30`, is not
  modelled.
- The presence filter and the NaN filter of the feed (lines 150 and 155).
  They are folded into one filter over those options.
- Chart geometry: the scaling, `toFixed`, `Math.min`/`Math.max` and the path
  strings (lines 160-197). They are floating-point formatting.
- The `Intl.NumberFormat` tick labels (lines 191-192). They depend on the
  runtime's locale data.
- `JSON.stringify` of the raw text (line 140).
- The MDX template beyond the two tables and the metric lookups (lines
  199-325). It is fixed markup.
- Writing the file and logging (lines 327-330). Both are I/O.
- Render.RowCells: a `|` inside a cell is not escaped by the script. The
  lemma therefore requires that no cell holds one, and says nothing about
  rows where a cell does.
- Text.ReplaceFirst: the replacement is inserted literally. JavaScript's
  `$$`, `$&`, `` $` `` and `$'` patterns are not modelled; the one call, on
  line 28, replaces with the eight-digit argument, which holds no `$`.
- Scan: regular-expression backtracking is not modelled. The matchers are
  greedy and deterministic, which agrees with the engine for these patterns
  only.
- Report.ShownOfLine: stated for one key. The twelve lookups that the
  template makes (lines 218-293) are not listed one by one.
