/**
 * The per-line parsers of the two report tables.  An asset line becomes an
 * aggregate row (the interest-bearing balance) or a position row; an
 * operation line becomes a trade or a raw fallback.  Neither parser fails:
 * a field it cannot find is the sentinel `-`, and a line that is not a
 * trade is kept as text.
 */
module Rows {
  import opened Maybe
  import opened Text
  import opened Scan

  /** What a field the parser could not find reads as. */
  const Sentinel := "-"
  const EarnPrefix := "Simple Earn"
  const EarnSymbol := "Simple Earn USDT"

  datatype AssetRow = AssetRow(symbol: string, size: string, avg: string, price: string, pnl: string, pnlRate: string, value: string)

  /** `/total=([0-9.,]+)/` */
  const TotalField := Field("total=", false, DigitDotComma, "", "")
  /** `/size=([^\s]+)/` */
  const SizeField := Field("size=", false, NonSpace, "", "")
  /** `/avg=([^\s]+)/` */
  const AvgField := Field("avg=", false, NonSpace, "", "")
  /** `/price=([^\s]+)/` */
  const PriceField := Field("price=", false, NonSpace, "", "")
  /** `/浮盈\s+([-\d.]+)/` */
  const PnlField := Field("浮盈", true, DigitDotMinus, "", "")
  /** `/\(([-\d.]+%)\)/` */
  const PnlRateField := Field("(", false, DigitDotMinus, "%", ")")
  /** `/value=([^\s]+)/` */
  const ValueField := Field("value=", false, NonSpace, "", "")

  /** `v` is what `line.match(re)?.[1] ?? '-'` gives: the capture of the leftmost match, or the sentinel. */
  ghost predicate Captures(line: string, f: Field, v: string) {
    if exists i: nat :: LeftmostAt(line, f, i)
    then exists i: nat :: LeftmostAt(line, f, i) && FieldHere(line[i..], f) == Some(v)
    else v == Sentinel
  }

  /** One field of a line, defaulting to the sentinel. */
  function Capture(line: string, f: Field): (v: string)
    ensures Captures(line, f, v)
    ensures v == Sentinel || Shaped(v, f)
  {
    FirstField(line, f).GetOr(Sentinel)
  }

  /** `line.split(' ')[0]`: the text before the first space, or the whole line. */
  function Symbol(line: string): (sym: string)
    ensures ' ' !in sym
    ensures sym == line || StartsWith(line, sym + " ")
  {
    var parts := Split(line, ' ');
    if |parts| >= 2 then
      assert line == parts[0] + " " + Join(parts[1..], " ");
      assert (parts[0] + " " + Join(parts[1..], " "))[..|parts[0]| + 1] == parts[0] + " ";
      parts[0]
    else
      parts[0]
  }

  /** `parseAssetLine`. */
  function ParseAssetLine(line: string): (row: AssetRow)
    ensures StartsWith(line, EarnPrefix) ==>
              && row.symbol == EarnSymbol
              && row.size == Sentinel && row.avg == Sentinel && row.price == Sentinel
              && row.pnl == Sentinel && row.pnlRate == Sentinel
              && Captures(line, TotalField, row.value)
    ensures !StartsWith(line, EarnPrefix) ==>
              && ' ' !in row.symbol && (row.symbol == line || StartsWith(line, row.symbol + " "))
              && Captures(line, SizeField, row.size) && Captures(line, AvgField, row.avg)
              && Captures(line, PriceField, row.price) && Captures(line, PnlField, row.pnl)
              && Captures(line, PnlRateField, row.pnlRate) && Captures(line, ValueField, row.value)
  {
    if StartsWith(line, EarnPrefix) then
      AssetRow(EarnSymbol, Sentinel, Sentinel, Sentinel, Sentinel, Sentinel, Capture(line, TotalField))
    else
      AssetRow(Symbol(line), Capture(line, SizeField), Capture(line, AvgField), Capture(line, PriceField),
               Capture(line, PnlField), Capture(line, PnlRateField), Capture(line, ValueField))
  }

  /** The aggregate line of the report: the balance after `total=` is its value, everything else the sentinel. */
  lemma EarnLine(total: string, rest: string)
    requires total != [] && AllIn(total, DigitDotComma)
    requires rest == [] || !InClass(rest[0], DigitDotComma)
    ensures ParseAssetLine(EarnSymbol + Tagged("total=", total, rest))
            == AssetRow(EarnSymbol, Sentinel, Sentinel, Sentinel, Sentinel, Sentinel, total)
  {
    var line := EarnSymbol + Tagged("total=", total, rest);
    assert line[..|EarnPrefix|] == EarnPrefix;
    assert 't' !in EarnSymbol;
    FirstFieldSkip(EarnSymbol, Tagged("total=", total, rest), TotalField);
    TaggedHere(TotalField, total, rest);
  }

  /** The example of the report format: `Simple Earn USDT total=1,234.50`. */
  lemma EarnExample()
    ensures ParseAssetLine("Simple Earn USDT total=1,234.50")
            == AssetRow("Simple Earn USDT", "-", "-", "-", "-", "-", "1,234.50")
  {
    EarnLine("1,234.50", "");
    EarnExampleText();
  }

  lemma EarnExampleText()
    ensures EarnSymbol + Tagged("total=", "1,234.50", "") == "Simple Earn USDT total=1,234.50"
  {
  }

  /** Upper-case ASCII letters and digits: a ticker. */
  predicate IsTicker(s: string) {
    s != [] && forall i :: 0 <= i < |s| ==> ('A' <= s[i] <= 'Z') || IsDigit(s[i])
  }

  /** Digits, dots and minus signs: a plain decimal. */
  predicate IsNumber(s: string) {
    s != [] && AllIn(s, DigitDotMinus)
  }

  /** ` <lead><tok>` followed by `rest`. */
  function Tagged(lead: string, tok: string, rest: string): string {
    " " + (lead + (tok + rest))
  }

  /** The position line of a holding as the report writes it: `SYM size=… avg=… price=… value=… 浮盈 … (…%)`. */
  function PositionText(sym: string, size: string, avg: string, price: string, value: string, pnl: string, rate: string): string
  {
    sym + Tagged("size=", size, Tagged("avg=", avg, Tagged("price=", price, Tagged("value=", value,
      Tagged("浮盈", " " + pnl, Tagged("(", rate + "%", ")"))))))
  }

  /** A tagged piece in whose lead no match can start, and whose figure lacks the first character of the lead, is passed over by the search. */
  lemma TaggedSkip(lead: string, tok: string, rest: string, f: Field)
    requires f.lead != [] && f.lead[0] != ' ' && NoStartIn(lead, f) && f.lead[0] !in tok
    ensures FirstField(Tagged(lead, tok, rest), f) == FirstField(rest, f)
  {
    FirstFieldSkip(tok, rest, f);
    FirstFieldPast(lead, tok + rest, f);
    FirstFieldSkip(" ", lead + (tok + rest), f);
  }

  /** A field tagged with its own lead is found, with the run after the lead as its capture. */
  lemma TaggedHere(f: Field, tok: string, rest: string)
    requires f.lead != [] && f.lead[0] != ' ' && !f.gap && f.suffix == "" && f.close == ""
    requires tok != [] && AllIn(tok, f.body)
    requires rest == [] || !InClass(rest[0], f.body)
    ensures FirstField(Tagged(f.lead, tok, rest), f) == Some(tok)
  {
    FirstFieldSkip(" ", f.lead + (tok + rest), f);
    PlainFieldOf(f, tok, rest);
    FirstFieldHere(f.lead + (tok + rest), f);
  }

  /** A field whose lead is followed by white space is found past one space. */
  lemma GapTaggedHere(f: Field, tok: string, rest: string)
    requires f.lead != [] && f.lead[0] != ' ' && f.gap && f.suffix == "" && f.close == ""
    requires tok != [] && AllIn(tok, f.body) && !IsSpace(tok[0])
    requires rest == [] || !InClass(rest[0], f.body)
    ensures FirstField(Tagged(f.lead, " " + tok, rest), f) == Some(tok)
  {
    var t := f.lead + ((" " + tok) + rest);
    FirstFieldSkip(" ", t, f);
    Regroup(" ", tok, rest);
    GapFieldOf(f, tok, rest);
    FirstFieldHere(t, f);
  }

  /** A field with a suffix, closed at the end of the line, is found with its suffix. */
  lemma ClosedTaggedHere(f: Field, tok: string)
    requires f.lead != [] && f.lead[0] != ' ' && !f.gap
    requires tok != [] && AllIn(tok, f.body) && !IsSpace(tok[0])
    requires f.suffix != [] && !InClass(f.suffix[0], f.body)
    ensures FirstField(Tagged(f.lead, tok + f.suffix, f.close), f) == Some(tok + f.suffix)
  {
    var t := f.lead + ((tok + f.suffix) + f.close);
    FirstFieldSkip(" ", t, f);
    Regroup(tok, f.suffix, f.close);
    ClosedFieldOf(f, tok);
    FirstFieldHere(t, f);
  }

  /** A tagged piece starts with its space. */
  lemma TaggedStart(lead: string, tok: string, rest: string)
    ensures Tagged(lead, tok, rest) != [] && Tagged(lead, tok, rest)[0] == ' '
  {
  }

  /** A ticker without the first character of a lead, and one tagged figure, are passed over by its search. */
  lemma Behind1(sym: string, l1: string, t1: string, rest: string, f: Field)
    requires f.lead != [] && f.lead[0] != ' ' && f.lead[0] !in sym
    requires NoStartIn(l1, f) && f.lead[0] !in t1
    ensures FirstField(sym + Tagged(l1, t1, rest), f) == FirstField(rest, f)
  {
    FirstFieldSkip(sym, Tagged(l1, t1, rest), f);
    TaggedSkip(l1, t1, rest, f);
  }

  /** The same past two tagged figures. */
  lemma Behind2(sym: string, l1: string, t1: string, l2: string, t2: string, rest: string, f: Field)
    requires f.lead != [] && f.lead[0] != ' ' && f.lead[0] !in sym
    requires NoStartIn(l1, f) && f.lead[0] !in t1 && NoStartIn(l2, f) && f.lead[0] !in t2
    ensures FirstField(sym + Tagged(l1, t1, Tagged(l2, t2, rest)), f) == FirstField(rest, f)
  {
    Behind1(sym, l1, t1, Tagged(l2, t2, rest), f);
    TaggedSkip(l2, t2, rest, f);
  }

  /** The same past three tagged figures. */
  lemma Behind3(sym: string, l1: string, t1: string, l2: string, t2: string, l3: string, t3: string, rest: string, f: Field)
    requires f.lead != [] && f.lead[0] != ' ' && f.lead[0] !in sym
    requires NoStartIn(l1, f) && f.lead[0] !in t1 && NoStartIn(l2, f) && f.lead[0] !in t2
    requires NoStartIn(l3, f) && f.lead[0] !in t3
    ensures FirstField(sym + Tagged(l1, t1, Tagged(l2, t2, Tagged(l3, t3, rest))), f) == FirstField(rest, f)
  {
    Behind1(sym, l1, t1, Tagged(l2, t2, Tagged(l3, t3, rest)), f);
    TaggedSkip(l2, t2, Tagged(l3, t3, rest), f);
    TaggedSkip(l3, t3, rest, f);
  }

  /** The same past four tagged figures. */
  lemma Behind4(sym: string, l1: string, t1: string, l2: string, t2: string, l3: string, t3: string,
                l4: string, t4: string, rest: string, f: Field)
    requires f.lead != [] && f.lead[0] != ' ' && f.lead[0] !in sym
    requires NoStartIn(l1, f) && f.lead[0] !in t1 && NoStartIn(l2, f) && f.lead[0] !in t2
    requires NoStartIn(l3, f) && f.lead[0] !in t3 && NoStartIn(l4, f) && f.lead[0] !in t4
    ensures FirstField(sym + Tagged(l1, t1, Tagged(l2, t2, Tagged(l3, t3, Tagged(l4, t4, rest)))), f)
            == FirstField(rest, f)
  {
    Behind3(sym, l1, t1, l2, t2, l3, t3, Tagged(l4, t4, rest), f);
    TaggedSkip(l4, t4, rest, f);
  }

  /** The same past five tagged figures. */
  lemma Behind5(sym: string, l1: string, t1: string, l2: string, t2: string, l3: string, t3: string,
                l4: string, t4: string, l5: string, t5: string, rest: string, f: Field)
    requires f.lead != [] && f.lead[0] != ' ' && f.lead[0] !in sym
    requires NoStartIn(l1, f) && f.lead[0] !in t1 && NoStartIn(l2, f) && f.lead[0] !in t2
    requires NoStartIn(l3, f) && f.lead[0] !in t3 && NoStartIn(l4, f) && f.lead[0] !in t4
    requires NoStartIn(l5, f) && f.lead[0] !in t5
    ensures FirstField(sym + Tagged(l1, t1, Tagged(l2, t2, Tagged(l3, t3, Tagged(l4, t4, Tagged(l5, t5, rest))))), f)
            == FirstField(rest, f)
  {
    Behind4(sym, l1, t1, l2, t2, l3, t3, l4, t4, Tagged(l5, t5, rest), f);
    TaggedSkip(l5, t5, rest, f);
  }

  /** A position line gives back its ticker and each of its six figures. */
  lemma PositionLine(sym: string, size: string, avg: string, price: string, value: string, pnl: string, rate: string)
    requires IsTicker(sym)
    requires IsNumber(size) && IsNumber(avg) && IsNumber(price) && IsNumber(value) && IsNumber(pnl) && IsNumber(rate)
    ensures ParseAssetLine(PositionText(sym, size, avg, price, value, pnl, rate))
            == AssetRow(sym, size, avg, price, pnl, rate + "%", value)
  {
    var line := PositionText(sym, size, avg, price, value, pnl, rate);
    TickerPrefix(sym, "size=" + (size + Tagged("avg=", avg, Tagged("price=", price, Tagged("value=", value,
      Tagged("浮盈", " " + pnl, Tagged("(", rate + "%", ")")))))));
    NotEarn(sym, line);
    SymbolOf(sym, line);
    SizeAt(sym, size, avg, price, value, pnl, rate);
    AvgAt(sym, size, avg, price, value, pnl, rate);
    PriceAt(sym, size, avg, price, value, pnl, rate);
    ValueAt(sym, size, avg, price, value, pnl, rate);
    PnlAt(sym, size, avg, price, value, pnl, rate);
    RateAt(sym, size, avg, price, value, pnl, rate);
  }

  lemma TickerPrefix(sym: string, x: string)
    ensures StartsWith(sym + (" " + x), sym + " ")
  {
    Regroup(sym, " ", x);
  }

  /** A line that starts with a ticker is not the aggregate line. */
  lemma NotEarn(sym: string, line: string)
    requires IsTicker(sym) && StartsWith(line, sym + " ")
    ensures !StartsWith(line, EarnPrefix)
  {
    if |line| >= |EarnPrefix| {
      assert line[1] == (sym + " ")[1];
    }
  }

  /** The symbol of a line that starts with a ticker and a space is that ticker. */
  lemma SymbolOf(sym: string, line: string)
    requires IsTicker(sym) && StartsWith(line, sym + " ")
    ensures Symbol(line) == sym
  {
    var tail := line[|sym| + 1..];
    assert ' ' !in sym;
    assert line == sym + [' '] + tail;
    SplitHead(sym, ' ', tail);
  }

  lemma SizeAt(sym: string, size: string, avg: string, price: string, value: string, pnl: string, rate: string)
    requires IsTicker(sym) && IsNumber(size)
    ensures Capture(PositionText(sym, size, avg, price, value, pnl, rate), SizeField) == size
  {
    var r3 := Tagged("price=", price, Tagged("value=", value, Tagged("浮盈", " " + pnl, Tagged("(", rate + "%", ")"))));
    FirstFieldSkip(sym, Tagged("size=", size, Tagged("avg=", avg, r3)), SizeField);
    FigureHere(SizeField, size, "avg=", avg, r3);
  }

  lemma AvgAt(sym: string, size: string, avg: string, price: string, value: string, pnl: string, rate: string)
    requires IsTicker(sym) && IsNumber(size) && IsNumber(avg)
    ensures Capture(PositionText(sym, size, avg, price, value, pnl, rate), AvgField) == avg
  {
    var r4 := Tagged("value=", value, Tagged("浮盈", " " + pnl, Tagged("(", rate + "%", ")")));
    Behind1(sym, "size=", size, Tagged("avg=", avg, Tagged("price=", price, r4)), AvgField);
    FigureHere(AvgField, avg, "price=", price, r4);
  }

  lemma PriceAt(sym: string, size: string, avg: string, price: string, value: string, pnl: string, rate: string)
    requires IsTicker(sym) && IsNumber(size) && IsNumber(avg) && IsNumber(price)
    ensures Capture(PositionText(sym, size, avg, price, value, pnl, rate), PriceField) == price
  {
    var r5 := Tagged("浮盈", " " + pnl, Tagged("(", rate + "%", ")"));
    Behind2(sym, "size=", size, "avg=", avg, Tagged("price=", price, Tagged("value=", value, r5)), PriceField);
    FigureHere(PriceField, price, "value=", value, r5);
  }

  lemma ValueAt(sym: string, size: string, avg: string, price: string, value: string, pnl: string, rate: string)
    requires IsTicker(sym) && IsNumber(size) && IsNumber(avg) && IsNumber(price) && IsNumber(value)
    ensures Capture(PositionText(sym, size, avg, price, value, pnl, rate), ValueField) == value
  {
    var r6 := Tagged("(", rate + "%", ")");
    Behind3(sym, "size=", size, "avg=", avg, "price=", price, Tagged("value=", value, Tagged("浮盈", " " + pnl, r6)), ValueField);
    FigureHere(ValueField, value, "浮盈", " " + pnl, r6);
  }

  lemma PnlAt(sym: string, size: string, avg: string, price: string, value: string, pnl: string, rate: string)
    requires IsTicker(sym) && IsNumber(size) && IsNumber(avg) && IsNumber(price) && IsNumber(value) && IsNumber(pnl)
    ensures Capture(PositionText(sym, size, avg, price, value, pnl, rate), PnlField) == pnl
  {
    Behind4(sym, "size=", size, "avg=", avg, "price=", price, "value=", value,
            Tagged("浮盈", " " + pnl, Tagged("(", rate + "%", ")")), PnlField);
    PnlHere(pnl, rate);
  }

  /** A `key=` figure of a position line, followed by the next tagged piece, gives back the figure. */
  lemma FigureHere(f: Field, tok: string, l: string, t: string, r: string)
    requires f == SizeField || f == AvgField || f == PriceField || f == ValueField
    requires IsNumber(tok)
    ensures FirstField(Tagged(f.lead, tok, Tagged(l, t, r)), f) == Some(tok)
  {
    TaggedStart(l, t, r);
    TaggedHere(f, tok, Tagged(l, t, r));
  }

  /** The profit piece of a position line gives back the profit. */
  lemma PnlHere(pnl: string, rate: string)
    requires IsNumber(pnl)
    ensures FirstField(Tagged("浮盈", " " + pnl, Tagged("(", rate + "%", ")")), PnlField) == Some(pnl)
  {
    TaggedStart("(", rate + "%", ")");
    assert !IsSpace(pnl[0]) by {
      assert InClass(pnl[0], DigitDotMinus);
    }
    GapTaggedHere(PnlField, pnl, Tagged("(", rate + "%", ")"));
  }

  lemma RateAt(sym: string, size: string, avg: string, price: string, value: string, pnl: string, rate: string)
    requires IsTicker(sym) && IsNumber(size) && IsNumber(avg) && IsNumber(price) && IsNumber(value) && IsNumber(pnl)
    requires IsNumber(rate)
    ensures Capture(PositionText(sym, size, avg, price, value, pnl, rate), PnlRateField) == rate + "%"
  {
    Behind5(sym, "size=", size, "avg=", avg, "price=", price, "value=", value, "浮盈", " " + pnl,
            Tagged("(", rate + "%", ")"), PnlRateField);
    RateHere(rate);
  }

  /** The rate piece of a position line gives back the rate with its percent sign. */
  lemma RateHere(rate: string)
    requires IsNumber(rate)
    ensures FirstField(Tagged("(", rate + "%", ")"), PnlRateField) == Some(rate + "%")
  {
    assert !IsSpace(rate[0]) by {
      assert InClass(rate[0], DigitDotMinus);
    }
    ClosedTaggedHere(PnlRateField, rate);
  }

  // ---------------------------------------------------------------- operations

  const Buy := "买入"
  const Sell := "卖出"
  const AmountLabel := "成交额"
  const ProfitLabel := "利润"

  /** A trade the operation pattern recognised, or the line kept as text. */
  datatype Operation =
    | Trade(time: string, symbol: string, side: string, size: string, price: string, amount: string, profit: string)
    | Raw(raw: string)

  /** `YYYY-MM-DD HH:MM`. */
  predicate IsTime(t: string) {
    |t| == 16 && IsIsoDate(t[..10]) && t[10] == ' ' && IsClock(t[11..])
  }

  predicate IsRun(s: string, k: CharClass) {
    s != [] && AllIn(s, k)
  }

  /** The shape every field of a recognised trade has. */
  predicate WellFormed(op: Operation) {
    && op.Trade?
    && IsTime(op.time)
    && IsRun(op.symbol, NonSpace)
    && (op.side == Buy || op.side == Sell)
    && IsRun(op.size, DigitDot) && IsRun(op.price, DigitDot) && IsRun(op.amount, DigitDot)
    && IsRun(op.profit, DigitDotMinus)
  }

  /** `(买入|卖出)` at the start of `s`. */
  function Side(s: string): (r: Option<Cut>)
    ensures r.Some? <==> StartsWith(s, Buy) || StartsWith(s, Sell)
    ensures r.Some? ==> (r.value.token == Buy || r.value.token == Sell) && r.value.token + r.value.rest == s
  {
    match Lit(s, Buy)
    case Some(rest) => Some(Cut(Buy, rest))
    case None =>
      var rest :- Lit(s, Sell);
      Some(Cut(Sell, rest))
  }

  /**
   * The white space a report line puts between the parts of a trade, each a
   * run that `\s+` consumes, and whether the line writes the profit clause.
   */
  datatype Spacing = Spacing(
    dash: string,    // after `-`
    stamp: string,   // between the date and the clock
    time: string,    // after the clock
    symbol: string,  // after the symbol
    side: string,    // after the side
    price: string,   // between the price and `成交额`
    amount: string,  // between `成交额` and the amount
    shown: bool,     // the `利润` clause is written
    profit: string,  // before `利润`
    figure: string)  // between `利润` and the profit figure

  /** Every gap of `sp` is white space, and a trade written without its profit clause has the sentinel profit. */
  predicate Layout(op: Operation, sp: Spacing) {
    && op.Trade?
    && IsGap(sp.dash) && IsGap(sp.stamp) && IsGap(sp.time) && IsGap(sp.symbol) && IsGap(sp.side)
    && IsGap(sp.price) && IsGap(sp.amount) && IsGap(sp.profit) && IsGap(sp.figure)
    && (sp.shown || op.profit == Sentinel)
  }

  /**
   * What may follow a trade on its line without being read into it: after a
   * profit, anything but a profit character; after the amount, anything but
   * an amount character or a profit clause.
   */
  predicate Ends(sp: Spacing, tail: string) {
    if sp.shown then tail == [] || !InClass(tail[0], DigitDotMinus)
    else (tail == [] || !InClass(tail[0], DigitDot)) && Profit(tail).None?
  }

  /** `<gap>利润<gap><profit>`, then `tail`. */
  function ProfitLine(g1: string, g2: string, profit: string, tail: string): string {
    g1 + (ProfitLabel + (g2 + (profit + tail)))
  }

  /** `<size>@<price><gap>成交额<gap><amount>`, then `rest`. */
  function FillLine(size: string, price: string, amount: string, g1: string, g2: string, rest: string): string {
    size + ("@" + (price + (g1 + (AmountLabel + (g2 + (amount + rest))))))
  }

  /** The date of `time`, a gap and its clock, then `rest`. */
  function StampLine(time: string, gap: string, rest: string): string
    requires |time| == 16
  {
    time[..10] + (gap + (time[11..] + rest))
  }

  /** What a line puts after the amount of `op`: its profit clause if it writes one, then `tail`. */
  function AfterFill(op: Operation, sp: Spacing, tail: string): string
    requires op.Trade?
  {
    if sp.shown then ProfitLine(sp.profit, sp.figure, op.profit, tail) else tail
  }

  /** The part of a trade line after its time stamp, spaced by `sp`, then `tail`. */
  function DealLine(op: Operation, sp: Spacing, tail: string): string
    requires op.Trade?
  {
    op.symbol + (sp.symbol + (op.side + (sp.side +
      FillLine(op.size, op.price, op.amount, sp.price, sp.amount, AfterFill(op, sp, tail)))))
  }

  /** A line of the operations block that writes the trade `op`, spaced by `sp`, then `tail`. */
  function TradeLine(op: Operation, sp: Spacing, tail: string): string
    requires op.Trade? && |op.time| == 16
  {
    "-" + (sp.dash + StampLine(op.time, sp.stamp, sp.time + DealLine(op, sp, tail)))
  }

  /** The optional tail `(?:\s+利润\s+([0-9.\-]+))?`: its capture when it is there. */
  function Profit(s: string): (r: Option<string>)
    ensures r.Some? ==> IsRun(r.value, DigitDotMinus)
    ensures r.Some? ==> exists g1, g2, t :: IsGap(g1) && IsGap(g2) && (t == [] || !InClass(t[0], DigitDotMinus))
                                           && s == ProfitLine(g1, g2, r.value, t)
  {
    var s1 :- Skip(s);
    var s2 :- Lit(s1, ProfitLabel);
    var s3 :- Skip(s2);
    var p :- Many1(s3, DigitDotMinus);
    var g1 := s[..|s| - |s1|];
    var g2 := s2[..|s2| - |s3|];
    assert IsGap(g1) && IsGap(g2) && s == ProfitLine(g1, g2, p.token, p.rest);
    Some(p.token)
  }

  /** `(\d{4}-\d{2}-\d{2})\s+(\d{2}:\d{2})`: the date and the clock, joined by one space whatever the gap. */
  function Stamp(s: string): (r: Option<Cut>)
    ensures r.Some? ==> IsTime(r.value.token)
    ensures r.Some? ==> exists g :: IsGap(g) && s == StampLine(r.value.token, g, r.value.rest)
  {
    var date :- IsoDate(s);
    var s1 :- Skip(date.rest);
    var clock :- Clock(s1);
    var time := date.token + " " + clock.token;
    assert time[..10] == date.token && time[11..] == clock.token;
    var g := date.rest[..|date.rest| - |s1|];
    assert IsGap(g) && s == StampLine(time, g, clock.rest);
    Some(Cut(time, clock.rest))
  }

  /** The quantities of a trade and the text after them. */
  datatype Fill = Fill(size: string, price: string, amount: string, rest: string)

  /** `([0-9.]+)@([0-9.]+)\s+成交额\s+([0-9.]+)`. */
  function Quantities(s: string): (r: Option<Fill>)
    ensures r.Some? ==> IsRun(r.value.size, DigitDot) && IsRun(r.value.price, DigitDot) && IsRun(r.value.amount, DigitDot)
    ensures r.Some? ==> r.value.rest == [] || !InClass(r.value.rest[0], DigitDot)
    ensures r.Some? ==> exists g1, g2 :: IsGap(g1) && IsGap(g2)
                          && s == FillLine(r.value.size, r.value.price, r.value.amount, g1, g2, r.value.rest)
  {
    var size :- Many1(s, DigitDot);
    var s1 :- Lit(size.rest, "@");
    var price :- Many1(s1, DigitDot);
    var s2 :- Skip(price.rest);
    var s3 :- Lit(s2, AmountLabel);
    var s4 :- Skip(s3);
    var amount :- Many1(s4, DigitDot);
    var g1 := price.rest[..|price.rest| - |s2|];
    var g2 := s3[..|s3| - |s4|];
    assert IsGap(g1) && IsGap(g2) && s == FillLine(size.token, price.token, amount.token, g1, g2, amount.rest);
    Some(Fill(size.token, price.token, amount.token, amount.rest))
  }

  /**
   * The operation pattern, anchored at the start of the line and not at its
   * end; a missing profit is the sentinel.  A line it accepts is the trade
   * written with some spacing and followed by text that does not extend it.
   */
  function MatchTrade(line: string): (r: Option<Operation>)
    ensures r.Some? ==> WellFormed(r.value)
    ensures r.Some? ==> |line| >= 2 && line[0] == '-' && IsSpace(line[1])
    ensures r.Some? ==> exists sp, tail :: Layout(r.value, sp) && Ends(sp, tail) && line == TradeLine(r.value, sp, tail)
  {
    var s0 :- Lit(line, "-");
    var s1 :- Skip(s0);
    var time :- Stamp(s1);
    var s2 :- Skip(time.rest);
    var op :- Deal(s2, time.token);
    TradeBuilt(line, s0, s1, time, s2, op);
    Some(op)
  }

  /** What the matchers of `MatchTrade` found is the trade written in `line` with some spacing. */
  lemma TradeBuilt(line: string, s0: string, s1: string, time: Cut, s2: string, op: Operation)
    requires Lit(line, "-") == Some(s0) && Skip(s0) == Some(s1) && Stamp(s1) == Some(time)
    requires Skip(time.rest) == Some(s2) && Deal(s2, time.token) == Some(op)
    ensures exists sp, tail :: Layout(op, sp) && Ends(sp, tail) && line == TradeLine(op, sp, tail)
  {
    var sp, tail :| Layout(op, sp) && Ends(sp, tail) && s2 == DealLine(op, sp, tail);
    var gs :| IsGap(gs) && s1 == StampLine(time.token, gs, time.rest);
    var sp' := sp.(dash := s0[..|s0| - |s1|], stamp := gs, time := time.rest[..|time.rest| - |s2|]);
    assert DealLine(op, sp', tail) == DealLine(op, sp, tail);
    assert Layout(op, sp') && Ends(sp', tail);
    assert line == TradeLine(op, sp', tail);
  }

  /** `(\S+)\s+(买入|卖出)\s+` and the quantities, after the time stamp `time`. */
  function Deal(s: string, time: string): (r: Option<Operation>)
    requires IsTime(time)
    ensures r.Some? ==> WellFormed(r.value) && r.value.time == time
    ensures r.Some? ==> exists sp, tail :: Layout(r.value, sp) && Ends(sp, tail) && s == DealLine(r.value, sp, tail)
  {
    var sym :- Many1(s, NonSpace);
    var s1 :- Skip(sym.rest);
    var side :- Side(s1);
    var s2 :- Skip(side.rest);
    var fill :- Quantities(s2);
    var op := Trade(time, sym.token, side.token, fill.size, fill.price, fill.amount, Profit(fill.rest).GetOr(Sentinel));
    DealBuilt(s, op, sym, s1, side, s2, fill);
    Some(op)
  }

  /** What the matchers of `Deal` found makes a recognised trade, written in `s` with some spacing. */
  lemma DealBuilt(s: string, op: Operation, sym: Cut, s1: string, side: Cut, s2: string, fill: Fill)
    requires op.Trade? && IsTime(op.time)
    requires Many1(s, NonSpace) == Some(sym) && Skip(sym.rest) == Some(s1) && Side(s1) == Some(side)
    requires Skip(side.rest) == Some(s2) && Quantities(s2) == Some(fill)
    requires op == Trade(op.time, sym.token, side.token, fill.size, fill.price, fill.amount, Profit(fill.rest).GetOr(Sentinel))
    ensures WellFormed(op)
    ensures exists sp, tail :: Layout(op, sp) && Ends(sp, tail) && s == DealLine(op, sp, tail)
  {
    TradeFields(op);
    var gs := sym.rest[..|sym.rest| - |s1|];
    var gd := side.rest[..|side.rest| - |s2|];
    assert s == op.symbol + (gs + (op.side + (gd + s2)));
    DealSpaced(s, op, gs, gd, s2, fill.rest);
  }

  /** A trade whose fields have their shapes, the profit possibly the sentinel, is recognisable. */
  lemma TradeFields(op: Operation)
    requires op.Trade? && IsTime(op.time) && IsRun(op.symbol, NonSpace) && (op.side == Buy || op.side == Sell)
    requires IsRun(op.size, DigitDot) && IsRun(op.price, DigitDot) && IsRun(op.amount, DigitDot)
    requires op.profit == Sentinel || IsRun(op.profit, DigitDotMinus)
    ensures WellFormed(op)
  {
    assert IsRun(Sentinel, DigitDotMinus) by { assert Sentinel[0] == '-'; }
  }

  /** The text that `Deal` took apart is the trade it returns, spaced by what it skipped. */
  lemma DealSpaced(s: string, op: Operation, gs: string, gd: string, s2: string, rest: string)
    requires op.Trade? && IsGap(gs) && IsGap(gd)
    requires s == op.symbol + (gs + (op.side + (gd + s2)))
    requires exists gp, ga :: IsGap(gp) && IsGap(ga) && s2 == FillLine(op.size, op.price, op.amount, gp, ga, rest)
    requires rest == [] || !InClass(rest[0], DigitDot)
    requires op.profit == Profit(rest).GetOr(Sentinel)
    ensures exists sp, tail :: Layout(op, sp) && Ends(sp, tail) && s == DealLine(op, sp, tail)
  {
    var gp, ga :| IsGap(gp) && IsGap(ga) && s2 == FillLine(op.size, op.price, op.amount, gp, ga, rest);
    var sp, tail;
    if Profit(rest).Some? {
      var g1, g2, t :| IsGap(g1) && IsGap(g2) && (t == [] || !InClass(t[0], DigitDotMinus))
                       && rest == ProfitLine(g1, g2, op.profit, t);
      sp, tail := Spacing(" ", " ", " ", gs, gd, gp, ga, true, g1, g2), t;
    } else {
      sp, tail := Spacing(" ", " ", " ", gs, gd, gp, ga, false, " ", " "), rest;
    }
    assert AfterFill(op, sp, tail) == rest;
    assert FillLine(op.size, op.price, op.amount, sp.price, sp.amount, AfterFill(op, sp, tail)) == s2;
    assert s == DealLine(op, sp, tail);
    assert Layout(op, sp) && Ends(sp, tail);
  }

  /** `parseOperationLine`: a trade, or the line without a leading `- `. */
  function ParseOperationLine(line: string): (op: Operation)
    ensures op.Trade? <==> MatchTrade(line).Some?
    ensures op.Trade? ==> WellFormed(op)
    ensures op.Trade? ==> exists sp, tail :: Layout(op, sp) && Ends(sp, tail) && line == TradeLine(op, sp, tail)
    ensures op.Raw? && StartsWith(line, "- ") ==> line == "- " + op.raw
    ensures op.Raw? && !StartsWith(line, "- ") ==> op.raw == line
  {
    match MatchTrade(line)
    case Some(trade) => trade
    case None => Raw(if StartsWith(line, "- ") then line[2..] else line)
  }

  /** A written profit clause is read back, up to a text that does not continue the profit. */
  lemma ProfitOf(g1: string, g2: string, profit: string, tail: string)
    requires IsGap(g1) && IsGap(g2) && IsRun(profit, DigitDotMinus)
    requires tail == [] || !InClass(tail[0], DigitDotMinus)
    ensures Profit(ProfitLine(g1, g2, profit, tail)) == Some(profit)
  {
    var r2 := g2 + (profit + tail);
    assert (ProfitLabel + r2)[0] == ProfitLabel[0];
    SkipOf(g1, ProfitLabel + r2);
    LitOf(ProfitLabel, r2);
    assert (profit + tail)[0] == profit[0];
    SkipOf(g2, profit + tail);
    Many1Of(profit, tail, DigitDotMinus);
  }

  /** The side at the head of the text after it. */
  lemma SideOf(side: string, rest: string)
    requires side == Buy || side == Sell
    ensures Side(side + rest) == Some(Cut(side, rest))
    ensures side != [] && !IsSpace(side[0])
  {
    LitOf(side, rest);
    if side == Sell {
      assert (side + rest)[0] != Buy[0];
    }
  }

  /** A written time stamp is read back, whatever the gap between its date and its clock. */
  lemma StampOf(time: string, gap: string, rest: string)
    requires IsTime(time) && IsGap(gap)
    ensures Stamp(StampLine(time, gap, rest)) == Some(Cut(time, rest))
  {
    var date, clock := time[..10], time[11..];
    var r := StampLine(time, gap, rest);
    assert time == date + " " + clock;
    assert r[..10] == date && r[10..] == gap + (clock + rest);
    assert (clock + rest)[0] == clock[0];
    SkipOf(gap, clock + rest);
    assert (clock + rest)[..5] == clock && (clock + rest)[5..] == rest;
  }

  /** Written quantities are read back, up to a text that does not continue the amount. */
  lemma QuantitiesOf(size: string, price: string, amount: string, g1: string, g2: string, rest: string)
    requires IsRun(size, DigitDot) && IsRun(price, DigitDot) && IsRun(amount, DigitDot)
    requires IsGap(g1) && IsGap(g2)
    requires rest == [] || !InClass(rest[0], DigitDot)
    ensures Quantities(FillLine(size, price, amount, g1, g2, rest)) == Some(Fill(size, price, amount, rest))
  {
    var r3 := amount + rest;
    var r2 := AmountLabel + (g2 + r3);
    var r1 := price + (g1 + r2);
    Many1Of(size, "@" + r1, DigitDot);
    LitOf("@", r1);
    assert (g1 + r2)[0] == g1[0];
    Many1Of(price, g1 + r2, DigitDot);
    assert r2[0] == AmountLabel[0];
    SkipOf(g1, r2);
    LitOf(AmountLabel, g2 + r3);
    assert r3[0] == amount[0];
    SkipOf(g2, r3);
    Many1Of(amount, rest, DigitDot);
  }

  /** What follows the amount neither continues it nor hides the profit it writes. */
  lemma AfterFillOf(op: Operation, sp: Spacing, tail: string)
    requires WellFormed(op) && Layout(op, sp) && Ends(sp, tail)
    ensures var rest := AfterFill(op, sp, tail);
            && (rest == [] || !InClass(rest[0], DigitDot))
            && Profit(rest).GetOr(Sentinel) == op.profit
  {
    if sp.shown {
      var rest := ProfitLine(sp.profit, sp.figure, op.profit, tail);
      assert AfterFill(op, sp, tail) == rest;
      assert !InClass(rest[0], DigitDot) by { assert rest[0] == sp.profit[0] && IsSpace(sp.profit[0]); }
      ProfitOf(sp.profit, sp.figure, op.profit, tail);
    } else {
      assert AfterFill(op, sp, tail) == tail;
    }
  }

  /** The part of a trade line after its time stamp is read back. */
  lemma DealOf(op: Operation, sp: Spacing, tail: string)
    requires WellFormed(op) && Layout(op, sp) && Ends(sp, tail)
    ensures Deal(DealLine(op, sp, tail), op.time) == Some(op)
  {
    var rest := AfterFill(op, sp, tail);
    var r4 := FillLine(op.size, op.price, op.amount, sp.price, sp.amount, rest);
    var r3 := op.side + (sp.side + r4);
    assert (sp.symbol + r3)[0] == sp.symbol[0];
    Many1Of(op.symbol, sp.symbol + r3, NonSpace);
    assert r3[0] == op.side[0];
    SideOf(op.side, sp.side + r4);
    SkipOf(sp.symbol, r3);
    assert r4[0] == op.size[0];
    SkipOf(sp.side, r4);
    AfterFillOf(op, sp, tail);
    QuantitiesOf(op.size, op.price, op.amount, sp.price, sp.amount, rest);
  }

  /**
   * A line that writes a recognised trade, with any white space between its
   * parts and any text after it that does not extend it, is read back as
   * that trade.
   */
  lemma TradeLineRead(op: Operation, sp: Spacing, tail: string)
    requires WellFormed(op) && Layout(op, sp) && Ends(sp, tail)
    ensures MatchTrade(TradeLine(op, sp, tail)) == Some(op)
    ensures ParseOperationLine(TradeLine(op, sp, tail)) == op
  {
    var r2 := DealLine(op, sp, tail);
    var r1 := StampLine(op.time, sp.stamp, sp.time + r2);
    LitOf("-", sp.dash + r1);
    assert r1[0] == op.time[0];
    SkipOf(sp.dash, r1);
    StampOf(op.time, sp.stamp, sp.time + r2);
    assert r2[0] == op.symbol[0];
    SkipOf(sp.time, r2);
    DealOf(op, sp, tail);
  }

  /** The spacing the report itself uses: one space everywhere, the profit clause written unless the profit is the sentinel. */
  function Single(op: Operation): (sp: Spacing)
    requires op.Trade?
    ensures Layout(op, sp)
  {
    Spacing(" ", " ", " ", " ", " ", " ", " ", op.profit != Sentinel, " ", " ")
  }

  /** The text of a trade as the report writes it. */
  function TradeText(op: Operation): string
    requires WellFormed(op)
  {
    TradeLine(op, Single(op), "")
  }

  /** Writing a recognised trade out and parsing it again gives the same trade. */
  lemma TradeRoundTrip(op: Operation)
    requires WellFormed(op)
    ensures ParseOperationLine(TradeText(op)) == op
  {
    assert Skip("").None?;
    TradeLineRead(op, Single(op), "");
  }

  /**
   * A line with two spaces between date and clock, no profit clause and a
   * trailing note is a trade with the sentinel profit: the pattern is not
   * anchored at the end.
   */
  lemma WideTradeWithNote()
    ensures ParseOperationLine("- 2024-01-01  09:30 BTC 买入 1@2 成交额 3 备注")
         == Trade("2024-01-01 09:30", "BTC", Buy, "1", "2", "3", Sentinel)
  {
    var date, clock := "2024-01-01", "09:30";
    var op := Trade(date + " " + clock, "BTC", Buy, "1", "2", "3", Sentinel);
    assert date + " " + clock == "2024-01-01 09:30";
    var sp := Spacing(" ", "  ", " ", " ", " ", " ", " ", false, " ", " ");
    WideTradeShape(date, clock, op, sp);
    WideTradeLine(date, clock, op, sp);
    TradeLineRead(op, sp, " 备注");
  }

  /** A time written as a date, one space and a clock. */
  lemma TimeOf(date: string, clock: string)
    requires IsIsoDate(date) && IsClock(clock)
    ensures var t := date + " " + clock; IsTime(t) && t[..10] == date && t[11..] == clock
  {
    var t := date + " " + clock;
    assert t[..10] == date && t[11..] == clock;
  }

  /** The trade is recognisable, the spacing is white space, and a note after the amount starts no profit clause. */
  lemma WideTradeShape(date: string, clock: string, op: Operation, sp: Spacing)
    requires date == "2024-01-01" && clock == "09:30"
    requires op == Trade(date + " " + clock, "BTC", Buy, "1", "2", "3", Sentinel)
    requires sp == Spacing(" ", "  ", " ", " ", " ", " ", " ", false, " ", " ")
    ensures WellFormed(op) && Layout(op, sp) && Ends(sp, " 备注")
  {
    WideFields(date, clock, op);
    assert IsGap(" ") && IsGap("  ");
    NoteEnds();
  }

  lemma WideFields(date: string, clock: string, op: Operation)
    requires date == "2024-01-01" && clock == "09:30"
    requires op == Trade(date + " " + clock, "BTC", Buy, "1", "2", "3", Sentinel)
    ensures WellFormed(op)
  {
    TimeOf(date, clock);
    assert IsRun(op.profit, DigitDotMinus) by { assert Sentinel[0] == '-'; }
    assert IsRun("BTC", NonSpace) && IsRun("1", DigitDot);
  }

  /** A note after the amount is not a profit clause. */
  lemma NoteEnds()
    ensures !InClass(" 备注"[0], DigitDot) && Profit(" 备注").None?
  {
    assert " 备注" == " " + "备注";
    SkipOf(" ", "备注");
    assert Lit("备注", ProfitLabel).None? by { assert "备注"[0] != ProfitLabel[0]; }
  }

  lemma WideTradeLine(date: string, clock: string, op: Operation, sp: Spacing)
    requires date == "2024-01-01" && clock == "09:30"
    requires op == Trade(date + " " + clock, "BTC", Buy, "1", "2", "3", Sentinel)
    requires sp == Spacing(" ", "  ", " ", " ", " ", " ", " ", false, " ", " ")
    ensures TradeLine(op, sp, " 备注") == "- 2024-01-01  09:30 BTC 买入 1@2 成交额 3 备注"
  {
    TimeOf(date, clock);
    var deal := WideDeal(op, sp);
    assert TradeLine(op, sp, " 备注") == "- " + (date + ("  " + (clock + (" " + deal))));
    WideJoin(date, clock, deal);
  }

  lemma WideJoin(date: string, clock: string, deal: string)
    requires date == "2024-01-01" && clock == "09:30" && deal == "BTC 买入 1@2 成交额 3 备注"
    ensures "- " + (date + ("  " + (clock + (" " + deal)))) == "- 2024-01-01  09:30 BTC 买入 1@2 成交额 3 备注"
  {
  }

  lemma WideDeal(op: Operation, sp: Spacing) returns (deal: string)
    requires op.Trade? && op.symbol == "BTC" && op.side == Buy && op.size == "1" && op.price == "2" && op.amount == "3"
    requires sp == Spacing(" ", "  ", " ", " ", " ", " ", " ", false, " ", " ")
    ensures deal == "BTC 买入 1@2 成交额 3 备注" && DealLine(op, sp, " 备注") == deal
  {
    deal := "BTC 买入 1@2 成交额 3 备注";
    var fill := WideFill();
    assert DealLine(op, sp, " 备注") == "BTC" + (" " + (Buy + (" " + fill)));
  }

  lemma WideFill() returns (fill: string)
    ensures fill == "1@2 成交额 3 备注" && FillLine("1", "2", "3", " ", " ", " 备注") == fill
  {
    fill := "1@2 成交额 3 备注";
  }

  /** A block line (trimmed, not empty) that is not a trade keeps some text. */
  lemma RawNonEmpty(line: string)
    requires line != "" && Trimmed(line)
    ensures ParseOperationLine(line).Raw? ==> ParseOperationLine(line).raw != ""
  {
    if StartsWith(line, "- ") {
      assert line[1] == ' ';
    }
  }
}
