/** From the lines of an archive file to fills: the three schemas and `parse_fills`. */
module Parsing {
  import opened Wrappers
  import opened Hours
  import opened Calendar
  import opened Fills

  datatype Schema = ByBlock | NodeFills | NodeTrades

  const BY_BLOCK_FROM: int := 1_753_574_400_000     // 2025-07-27T00:00:00Z
  const NODE_FILLS_FROM: int := 1_748_131_200_000   // 2025-05-25T00:00:00Z
  const NODE_TRADES_FROM: int := 1_742_601_600_000  // 2025-03-22T00:00:00Z

  lemma CutoverDates()
    ensures BY_BLOCK_FROM == DayNumber(Date(2025, 7, 27)) * 86_400_000
    ensures NODE_FILLS_FROM == DayNumber(Date(2025, 5, 25)) * 86_400_000
    ensures NODE_TRADES_FROM == DayNumber(Date(2025, 3, 22)) * 86_400_000
  {
  }

  /** Which format the archive has on which day, both for the folder and for the reader. */
  lemma FormatOfDay(d: Date, date: int)
    requires ValidDate(d) && DayNumber(d) == date / 86_400_000
    ensures DataPath(date) == LineSchema(date)
    ensures DataPath(date) == ByBlock <==> DayNumber(d) >= DayNumber(Date(2025, 7, 27))
    ensures DataPath(date) == NodeFills <==>
            DayNumber(Date(2025, 5, 25)) <= DayNumber(d) < DayNumber(Date(2025, 7, 27))
    ensures DataPath(date) == NodeTrades <==> DayNumber(d) < DayNumber(Date(2025, 5, 25))
  {
    CutoverDates();
  }

  /** `determine_data_path`: the folder that holds the file of `date`. */
  function DataPath(date: int): Schema {
    if date >= BY_BLOCK_FROM then ByBlock
    else if date >= NODE_FILLS_FROM then NodeFills
    else if date >= NODE_TRADES_FROM then NodeTrades
    else NodeTrades
  }

  /** The schema by which `parse_fills` reads the lines of `date`. */
  function LineSchema(date: int): Schema {
    if date >= BY_BLOCK_FROM then ByBlock
    else if date >= NODE_FILLS_FROM then NodeFills
    else NodeTrades
  }

  /** The reader always fits the folder, whatever instant of the hour is asked for. */
  lemma SchemaMatchesPath(date: int, other: int)
    requires HourOf(date) == HourOf(other)
    ensures LineSchema(date) == DataPath(date) == DataPath(other)
  {
  }

  /** One user's side of a fill; a number or instant that does not parse is None. */
  datatype Event = Event(
    user: string, coin: string, side: string, px: Option<int>, sz: Option<int>,
    time: Option<int>, fee: Option<int>, closedPnl: Option<int>)

  datatype SideInfo = SideInfo(user: string, side: string, fee: Option<int>)

  datatype Line =
    | Blank
    | BlockLine(block: int, events: seq<Event>)
    | FillLine(event: Event)
    | TradeLine(coin: string, px: Option<int>, sz: Option<int>, time: Option<int>, sides: seq<SideInfo>)
    | Malformed

  function ToUpper(s: string): string {
    seq(|s|, i requires 0 <= i < |s| => if 'a' <= s[i] <= 'z' then (s[i] as int - 32) as char else s[i])
  }

  function ParseSide(s: string): Option<Side> {
    var u := ToUpper(s);
    if u == "BUY" || u == "B" then Some(Buy)
    else if u == "SELL" || u == "S" || u == "A" then Some(Sell)
    else None
  }

  /** Side, price, size and instant must parse; fee and PnL fall back to None. */
  function ParseEvent(e: Event, block: Option<int>): Result<Fill> {
    match (ParseSide(e.side), e.px, e.sz, e.time)
    case (Some(side), Some(px), Some(sz), Some(time)) =>
      Ok(Fill(e.user, e.coin, side, px, sz, e.fee, e.closedPnl, time, block, None))
    case _ => Err(Fatal)
  }

  function TradeEvent(line: Line, s: SideInfo): Event
    requires line.TradeLine?
  {
    Event(s.user, line.coin, s.side, line.px, line.sz, line.time, s.fee, None)
  }

  /** The events of a line, with the block they are in; None if the line does not fit the schema. */
  function EventsOf(schema: Schema, line: Line): Option<(seq<Event>, Option<int>)> {
    match (schema, line)
    case (_, Blank) => Some(([], None))
    case (ByBlock, BlockLine(block, events)) => Some((events, Some(block)))
    case (NodeFills, FillLine(event)) => Some(([event], None))
    case (NodeTrades, TradeLine(_, _, _, _, sides)) =>
      Some((seq(|sides|, i requires 0 <= i < |sides| => TradeEvent(line, sides[i])), None))
    case _ => None
  }

  /** Block files drop the events that do not parse; the older files fail as a whole. */
  function FillsOf(schema: Schema, events: seq<Event>, block: Option<int>): Result<seq<Fill>> {
    if events == [] then Ok([]) else
      var n := |events| - 1;
      match FillsOf(schema, events[..n], block)
      case Err(e) => Err(e)
      case Ok(fills) =>
        match ParseEvent(events[n], block)
        case Ok(fill) => Ok(fills + [fill])
        case Err(e) => if schema == ByBlock then Ok(fills) else Err(e)
  }

  function ParseLines(schema: Schema, lines: seq<Line>): Result<seq<Fill>> {
    if lines == [] then Ok([]) else
      var n := |lines| - 1;
      match ParseLines(schema, lines[..n])
      case Err(e) => Err(e)
      case Ok(fills) =>
        match EventsOf(schema, lines[n])
        case None => Err(Fatal)
        case Some((events, block)) =>
          match FillsOf(schema, events, block)
          case Err(e) => Err(e)
          case Ok(more) => Ok(fills + more)
  }

  /** `parse_fills`, line by line and event by event. */
  method ParseFills(lines: seq<Line>, date: int) returns (r: Result<seq<Fill>>)
    ensures r == ParseLines(LineSchema(date), lines)
  {
    var schema := LineSchema(date);
    var fills: seq<Fill> := [];
    for i := 0 to |lines|
      invariant ParseLines(schema, lines[..i]) == Ok(fills)
    {
      assert lines[..i + 1][..i] == lines[..i];
      ghost var before := fills;
      match EventsOf(schema, lines[i]) {
        case None =>
          ParseLinesFails(schema, lines, i + 1);
          return Err(Fatal);
        case Some((events, block)) =>
          for j := 0 to |events|
            invariant FillsOf(schema, events[..j], block).Ok?
            invariant fills == before + FillsOf(schema, events[..j], block).value
          {
            assert events[..j + 1][..j] == events[..j];
            match ParseEvent(events[j], block) {
              case Ok(fill) => fills := fills + [fill];
              case Err(e) =>
                if schema != ByBlock {
                  FillsOfFails(schema, events, block, j + 1);
                  ParseLinesFails(schema, lines, i + 1);
                  return Err(e);
                }
            }
          }
          assert events[..|events|] == events;
      }
    }
    assert lines[..|lines|] == lines;
    return Ok(fills);
  }

  lemma {:induction false} ParseLinesFails(schema: Schema, lines: seq<Line>, k: nat)
    requires k <= |lines| && ParseLines(schema, lines[..k]).Err?
    ensures ParseLines(schema, lines) == ParseLines(schema, lines[..k])
    decreases |lines|
  {
    if k == |lines| {
      assert lines[..k] == lines;
    } else {
      assert lines[..|lines| - 1][..k] == lines[..k];
      ParseLinesFails(schema, lines[..|lines| - 1], k);
    }
  }

  lemma {:induction false} FillsOfFails(schema: Schema, events: seq<Event>, block: Option<int>, k: nat)
    requires k <= |events| && FillsOf(schema, events[..k], block).Err?
    ensures FillsOf(schema, events, block) == FillsOf(schema, events[..k], block)
    decreases |events|
  {
    if k == |events| {
      assert events[..k] == events;
    } else {
      assert events[..|events| - 1][..k] == events[..k];
      FillsOfFails(schema, events[..|events| - 1], block, k);
    }
  }

  /** Data that cannot be read are a validation error, which is not tried again. */
  lemma {:induction false} ReadErrorsAreFatal(schema: Schema, lines: seq<Line>)
    ensures ParseLines(schema, lines).Err? ==> ParseLines(schema, lines) == Err(Fatal)
    decreases |lines|
  {
    if lines != [] {
      var n := |lines| - 1;
      ReadErrorsAreFatal(schema, lines[..n]);
      var e := EventsOf(schema, lines[n]);
      if e.Some? {
        EventErrorsAreFatal(schema, e.value.0, e.value.1);
      }
    }
  }

  lemma {:induction false} EventErrorsAreFatal(schema: Schema, events: seq<Event>, block: Option<int>)
    ensures FillsOf(schema, events, block).Err? ==> FillsOf(schema, events, block) == Err(Fatal)
    decreases |events|
  {
    if events != [] {
      EventErrorsAreFatal(schema, events[..|events| - 1], block);
    }
  }

  /** A fill that a line holds and that parses. */
  ghost predicate Holds(schema: Schema, line: Line, f: Fill) {
    var e := EventsOf(schema, line);
    e.Some? && exists event :: event in e.value.0 && ParseEvent(event, e.value.1) == Ok(f)
  }

  /** A line of the right shape, whose events all parse unless it comes from a block file. */
  ghost predicate Readable(schema: Schema, line: Line) {
    var e := EventsOf(schema, line);
    e.Some? && (schema == ByBlock || forall event :: event in e.value.0 ==> ParseEvent(event, e.value.1).Ok?)
  }

  lemma {:induction false} FillsOfExact(schema: Schema, events: seq<Event>, block: Option<int>, f: Fill)
    ensures FillsOf(schema, events, block).Ok? <==>
            schema == ByBlock || forall e :: e in events ==> ParseEvent(e, block).Ok?
    ensures FillsOf(schema, events, block).Ok? ==>
              (f in FillsOf(schema, events, block).value <==>
               exists e :: e in events && ParseEvent(e, block) == Ok(f))
    decreases |events|
  {
    if events != [] {
      var n := |events| - 1;
      FillsOfExact(schema, events[..n], block, f);
      assert events == events[..n] + [events[n]];
    }
  }

  /**
   What a file yields: a block file fails only on a line of another shape, an older file also on an event
   that does not parse; otherwise the result holds every fill of every line that parses, and no other.
   */
  lemma {:induction false} ParseLinesExact(schema: Schema, lines: seq<Line>, f: Fill)
    ensures ParseLines(schema, lines).Ok? <==> forall l :: l in lines ==> Readable(schema, l)
    ensures ParseLines(schema, lines).Ok? ==>
              (f in ParseLines(schema, lines).value <==> exists l :: l in lines && Holds(schema, l, f))
    decreases |lines|
  {
    if lines != [] {
      var n := |lines| - 1;
      ParseLinesExact(schema, lines[..n], f);
      assert lines == lines[..n] + [lines[n]];
      LineExact(schema, lines[n], f);
    }
  }

  lemma LineExact(schema: Schema, line: Line, f: Fill)
    ensures Readable(schema, line) <==>
            var e := EventsOf(schema, line); e.Some? && FillsOf(schema, e.value.0, e.value.1).Ok?
    ensures Readable(schema, line) ==>
              var e := EventsOf(schema, line).value;
              (f in FillsOf(schema, e.0, e.1).value <==> Holds(schema, line, f))
  {
    var e := EventsOf(schema, line);
    if e.Some? {
      FillsOfExact(schema, e.value.0, e.value.1, f);
    }
  }

  // ------------------------------------------------------ reading what was written

  /** The text is `word`, with any of its letters in lower case. */
  predicate InAnyCase(text: string, word: string) {
    |text| == |word| && forall i :: 0 <= i < |word| ==> text[i] == word[i] || text[i] as int == word[i] as int + 32
  }

  /** The accepted spellings of a side; `A` stands for ask. */
  predicate Spells(text: string, side: Side) {
    match side
    case Buy => InAnyCase(text, "BUY") || InAnyCase(text, "B")
    case Sell => InAnyCase(text, "SELL") || InAnyCase(text, "S") || InAnyCase(text, "A")
  }

  lemma UpperIs(text: string, word: string)
    requires forall i :: 0 <= i < |word| ==> 'A' <= word[i] <= 'Z'
    ensures ToUpper(text) == word <==> InAnyCase(text, word)
  {
    if ToUpper(text) == word {
      forall i | 0 <= i < |word| ensures text[i] == word[i] || text[i] as int == word[i] as int + 32 {
        assert ToUpper(text)[i] == word[i];
      }
    }
    if InAnyCase(text, word) {
      forall i | 0 <= i < |word| ensures ToUpper(text)[i] == word[i] {
      }
    }
  }

  lemma ParseSideExact(text: string, side: Side)
    ensures ParseSide(text) == Some(side) <==> Spells(text, side)
  {
    UpperIs(text, "BUY");
    UpperIs(text, "B");
    UpperIs(text, "SELL");
    UpperIs(text, "S");
    UpperIs(text, "A");
  }

  /** The event, field by field, is what an archive file says about the fill; fee and PnL may be missing. */
  predicate Tells(e: Event, f: Fill) {
    && e.user == f.user && e.coin == f.coin && Spells(e.side, f.side)
    && e.px == Some(f.price) && e.sz == Some(f.size) && e.time == Some(f.timestamp)
    && e.fee == f.fee && e.closedPnl == f.closedPnl
  }

  /** An event is read as a fill exactly if it tells that fill. */
  lemma ParseEventExact(e: Event, block: Option<int>, f: Fill)
    ensures ParseEvent(e, block) == Ok(f) <==> Tells(e, f) && f.block == block && f.sourceId == None
  {
    ParseSideExact(e.side, Buy);
    ParseSideExact(e.side, Sell);
  }

  /** No fill can be told from the event: its side is none, or its price, size or time is unreadable. */
  ghost predicate TellsNothing(e: Event) {
    e.px == None || e.sz == None || e.time == None || forall side :: !Spells(e.side, side)
  }

  lemma ParseEventFails(e: Event, block: Option<int>)
    ensures ParseEvent(e, block).Err? <==> TellsNothing(e)
  {
    ParseSideExact(e.side, Buy);
    ParseSideExact(e.side, Sell);
  }

  /** The events tell the fills one by one, in order; in a block there may be others that tell nothing. */
  ghost predicate AllTold(events: seq<Event>, block: Option<int>, fills: seq<Fill>)
    decreases |events|
  {
    if events == [] then fills == []
    else
      var n, m := |events| - 1, |fills| - 1;
      || (fills != [] && Tells(events[n], fills[m]) && fills[m].block == block && fills[m].sourceId == None
          && AllTold(events[..n], block, fills[..m]))
      || (block.Some? && TellsNothing(events[n]) && AllTold(events[..n], block, fills))
  }

  /** One user's side of a trade line tells the fill, which has no PnL. */
  predicate TradeTells(line: Line, s: SideInfo, f: Fill)
    requires line.TradeLine?
  {
    && s.user == f.user && line.coin == f.coin && Spells(s.side, f.side)
    && line.px == Some(f.price) && line.sz == Some(f.size) && line.time == Some(f.timestamp)
    && s.fee == f.fee && f.closedPnl == None && f.block == None && f.sourceId == None
  }

  /** What a line of each format holds: a block of events under its number, one event, or the sides of one trade. */
  ghost predicate Written(schema: Schema, line: Line, fills: seq<Fill>) {
    match line
    case Blank => fills == []
    case BlockLine(block, events) => schema == ByBlock && AllTold(events, Some(block), fills)
    case FillLine(event) => schema == NodeFills && AllTold([event], None, fills)
    case TradeLine(_, _, _, _, sides) =>
      schema == NodeTrades && |sides| == |fills|
      && forall k :: 0 <= k < |sides| ==> TradeTells(line, sides[k], fills[k])
    case Malformed => false
  }

  lemma {:induction false} AllToldExact(schema: Schema, events: seq<Event>, block: Option<int>, fills: seq<Fill>)
    requires schema == ByBlock <==> block.Some?
    ensures FillsOf(schema, events, block) == Ok(fills) <==> AllTold(events, block, fills)
    decreases |events|
  {
    if events != [] {
      var n := |events| - 1;
      ParseEventFails(events[n], block);
      AllToldExact(schema, events[..n], block, fills);
      if fills != [] {
        var m := |fills| - 1;
        ParseEventExact(events[n], block, fills[m]);
        AllToldExact(schema, events[..n], block, fills[..m]);
        assert fills == fills[..m] + [fills[m]];
      }
    }
  }

  lemma TradeEventTells(line: Line, s: SideInfo, f: Fill)
    requires line.TradeLine?
    ensures TradeTells(line, s, f) <==> Tells(TradeEvent(line, s), f) && f.block == None && f.sourceId == None
  {
  }

  /** Without a block the events tell the fills one for one. */
  lemma {:induction false} ToldOneByOne(events: seq<Event>, fills: seq<Fill>)
    ensures AllTold(events, None, fills) <==>
            |events| == |fills| && forall k :: 0 <= k < |events| ==>
              Tells(events[k], fills[k]) && fills[k].block == None && fills[k].sourceId == None
    decreases |events|
  {
    if events != [] && fills != [] {
      ToldOneByOne(events[..|events| - 1], fills[..|fills| - 1]);
    }
  }

  lemma TradeLineTells(line: Line, fills: seq<Fill>)
    requires line.TradeLine?
    ensures Written(NodeTrades, line, fills) <==> AllTold(EventsOf(NodeTrades, line).value.0, None, fills)
  {
    var events := EventsOf(NodeTrades, line).value.0;
    ToldOneByOne(events, fills);
    forall k | 0 <= k < |line.sides| && |line.sides| == |fills|
      ensures TradeTells(line, line.sides[k], fills[k]) <==>
              Tells(events[k], fills[k]) && fills[k].block == None && fills[k].sourceId == None
    {
      TradeEventTells(line, line.sides[k], fills[k]);
    }
  }

  /** A line is read as fills exactly if they are written in it. */
  lemma LineRoundTrip(schema: Schema, line: Line, fills: seq<Fill>)
    ensures (var e := EventsOf(schema, line); e.Some? && FillsOf(schema, e.value.0, e.value.1) == Ok(fills)) <==>
            Written(schema, line, fills)
  {
    match line {
      case BlockLine(block, events) => AllToldExact(ByBlock, events, Some(block), fills);
      case FillLine(event) => AllToldExact(NodeFills, [event], None, fills);
      case TradeLine(_, _, _, _, _) =>
        AllToldExact(NodeTrades, EventsOf(NodeTrades, line).value.0, None, fills);
        TradeLineTells(line, fills);
      case Blank =>
      case Malformed =>
    }
  }

  function Joined(parts: seq<seq<Fill>>): seq<Fill> {
    if parts == [] then [] else Joined(parts[..|parts| - 1]) + parts[|parts| - 1]
  }

  /**
   Reading a file gives exactly the fills that are written in it, in their order and field by field: prices, sizes,
   sides in every spelling, times, fees, PnL and block numbers.
   */
  lemma {:induction false} FileRoundTrip(schema: Schema, lines: seq<Line>, parts: seq<seq<Fill>>)
    requires |parts| == |lines| && forall i :: 0 <= i < |lines| ==> Written(schema, lines[i], parts[i])
    ensures ParseLines(schema, lines) == Ok(Joined(parts))
    decreases |lines|
  {
    if lines != [] {
      var n := |lines| - 1;
      FileRoundTrip(schema, lines[..n], parts[..n]);
      LineRoundTrip(schema, lines[n], parts[n]);
    }
  }

  /** A file is read at all only if fills are written in each of its lines. */
  lemma {:induction false} ReadIsWritten(schema: Schema, lines: seq<Line>) returns (parts: seq<seq<Fill>>)
    requires ParseLines(schema, lines).Ok?
    ensures |parts| == |lines| && forall i :: 0 <= i < |lines| ==> Written(schema, lines[i], parts[i])
    decreases |lines|
  {
    parts := [];
    if lines != [] {
      var n := |lines| - 1;
      parts := ReadIsWritten(schema, lines[..n]);
      var e := EventsOf(schema, lines[n]).value;
      var fills := FillsOf(schema, e.0, e.1).value;
      LineRoundTrip(schema, lines[n], fills);
      parts := parts + [fills];
    }
  }
}
