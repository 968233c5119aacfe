/** What the Anthropic stream translator emits for a whole upstream body: first line by line as the
    code works, then as a fold over the events of the body, and the two agree. */
module AnthropicEvents {
  import opened Wrappers
  import opened TextLines

  datatype Tokens = Tokens(input: int, output: int, cacheCreate: int, cacheRead: int)

  datatype Message = Message(id: string, model: string, usage: Option<Tokens>)

  /** A decoded event. `Other` stands for every payload without effect: broken JSON, other types,
      deltas that are not text. */
  datatype Event =
    | Start(message: Option<Message>)
    | Text(text: string)
    | Delta(usage: Option<Tokens>, stopReason: string)
    | Stop
    | Other

  datatype Chunk =
    | Role(id: string, model: string)
    | Content(id: string, model: string, text: string)
    | Finish(id: string, model: string, reason: string)
    | Usage(id: string, model: string, tokens: Tokens)
    | Done

  /** What the model leaves to others: byte trimming, JSON decoding, JSON encoding. */
  datatype Codec = Codec(trim: string -> string, decode: string -> Event, encode: Chunk -> string)

  /** The fields that chunks are made of. */
  datatype Meta = Meta(id: string, model: string, tokens: Tokens, sentRole: bool, finish: string)

  function Fresh(model: string): Meta {
    Meta("", model, Tokens(0, 0, 0, 0), false, "")
  }

  function FinishReason(stop: string): string {
    if stop == "end_turn" then "stop" else if stop == "max_tokens" then "length" else stop
  }

  function Max(a: int, b: int): int {
    if a > b then a else b
  }

  /** The new fields and the chunks for one event other than `Stop`. */
  function OnEvent(m: Meta, ev: Event): (Meta, seq<Chunk>) {
    match ev
    case Start(message) =>
      var n := match message
        case None => m
        case Some(msg) =>
          m.(id := msg.id,
             model := if msg.model != "" then msg.model else m.model,
             tokens := match msg.usage
               case None => m.tokens
               case Some(u) => u.(output := m.tokens.output));
      if n.sentRole then (n, []) else (n.(sentRole := true), [Role(n.id, n.model)])
    case Text(text) =>
      if text == "" then (m, []) else (m, [Content(m.id, m.model, text)])
    case Delta(usage, stop) =>
      var n := match usage
        case None => m
        case Some(u) =>
          m.(tokens := Tokens(m.tokens.input, u.output, Max(u.cacheCreate, m.tokens.cacheCreate),
                              Max(u.cacheRead, m.tokens.cacheRead)));
      if stop == "" then (n, [])
      else (n.(finish := FinishReason(stop)), [Finish(n.id, n.model, FinishReason(stop))])
    case Stop => (m, Ending(m))
    case Other => (m, [])
  }

  function Ending(m: Meta): seq<Chunk> {
    [Usage(m.id, m.model, m.tokens), Done]
  }

  // Lines to events

  /** A line without its trailing carriage returns and newlines. */
  function TrimRight(s: string): string {
    if s != "" && (s[|s| - 1] == '\r' || s[|s| - 1] == '\n') then TrimRight(s[..|s| - 1]) else s
  }

  const DATA := "data:"

  const EVENT := "event:"

  predicate IsData(line: string) {
    DATA <= TrimRight(line)
  }

  predicate IsBlank(line: string) {
    TrimRight(line) == ""
  }

  function DataOf(c: Codec, line: string): string
    requires IsData(line)
  {
    c.trim(TrimRight(line)[|DATA|..])
  }

  function Join(data: seq<string>): string {
    if data == [] then ""
    else if |data| == 1 then data[0]
    else data[0] + "\n" + Join(data[1..])
  }

  /** The event that the collected data lines stand for. */
  function Parse(c: Codec, data: seq<string>): Event {
    var payload := Join(data);
    if payload == "" then Other else c.decode(payload)
  }

  /** Every chunk the code emits from these fields and collected data lines, when `ls` are the
      lines still to come and then the stream ends. */
  function Translate(c: Codec, m: Meta, data: seq<string>, ls: seq<string>): seq<Chunk>
    decreases |ls|
  {
    if ls == [] || IsBlank(ls[0]) then
      var ev := Parse(c, data);
      var (n, out) := OnEvent(m, ev);
      if ev.Stop? then out
      else if ls == [] then out + Ending(n)
      else out + Translate(c, n, [], ls[1..])
    else if IsData(ls[0]) then Translate(c, m, data + [DataOf(c, ls[0])], ls[1..])
    else Translate(c, m, data, ls[1..])
  }

  /** What one line does: the new fields and data lines, the chunks emitted, whether they end the stream. */
  datatype Turn = Turn(fields: Meta, data: seq<string>, chunks: seq<Chunk>, stopped: bool)

  function OnData(c: Codec, m: Meta, data: seq<string>): Turn {
    var ev := Parse(c, data);
    Turn(OnEvent(m, ev).0, [], OnEvent(m, ev).1, ev.Stop?)
  }

  function OnLine(c: Codec, m: Meta, data: seq<string>, line: string): Turn {
    if IsBlank(line) then OnData(c, m, data)
    else Turn(m, if IsData(line) then data + [DataOf(c, line)] else data, [], false)
  }

  /** What the end of the body does. */
  function OnEnd(c: Codec, m: Meta, data: seq<string>): seq<Chunk> {
    var turn := OnData(c, m, data);
    turn.chunks + if turn.stopped then [] else Ending(turn.fields)
  }

  lemma LineFirst(c: Codec, m: Meta, data: seq<string>, line: string, rest: seq<string>)
    ensures var turn := OnLine(c, m, data, line);
            Translate(c, m, data, [line] + rest)
            == turn.chunks + if turn.stopped then [] else Translate(c, turn.fields, turn.data, rest)
  {
    assert ([line] + rest)[1..] == rest;
  }

  /** The last piece of the body, which has no newline, followed by the end. */
  lemma LineLast(c: Codec, m: Meta, data: seq<string>, line: string)
    requires '\n' !in line
    ensures var turn := OnLine(c, m, data, line);
            Translate(c, m, data, Lines(line))
            == turn.chunks + if turn.stopped then [] else OnEnd(c, turn.fields, turn.data)
  {
    if line != "" {
      LineFirst(c, m, data, line, []);
      assert [line] + [] == Lines(line);
    } else {
      assert Lines(line) == [];
    }
  }

  // The independent reading: blocks of lines between blank lines, one event a block

  function Blocks(ls: seq<string>): (bs: seq<seq<string>>)
    ensures |bs| > 0
  {
    if ls == [] then [[]]
    else
      var rest := Blocks(ls[1..]);
      if IsBlank(ls[0]) then [[]] + rest else [[ls[0]] + rest[0]] + rest[1..]
  }

  /** The data values of a block, in order. */
  function Data(c: Codec, block: seq<string>): seq<string> {
    if block == [] then []
    else if IsData(block[0]) then [DataOf(c, block[0])] + Data(c, block[1..])
    else Data(c, block[1..])
  }

  function Events(c: Codec, blocks: seq<seq<string>>): seq<Event> {
    if blocks == [] then [] else [Parse(c, Data(c, blocks[0]))] + Events(c, blocks[1..])
  }

  /** The events before the first `Stop`. */
  function UntilStop(evs: seq<Event>): seq<Event> {
    if evs == [] || evs[0].Stop? then [] else [evs[0]] + UntilStop(evs[1..])
  }

  /** The fields after some events. */
  function Run(m: Meta, evs: seq<Event>): Meta
    decreases |evs|
  {
    if evs == [] then m else Run(OnEvent(m, evs[0]).0, evs[1..])
  }

  /** The chunks of some events. */
  function Emit(m: Meta, evs: seq<Event>): seq<Chunk>
    decreases |evs|
  {
    if evs == [] then [] else OnEvent(m, evs[0]).1 + Emit(OnEvent(m, evs[0]).0, evs[1..])
  }

  /** The line-by-line translation is the fold over the events up to the first `Stop`, and then the
      usage chunk and the end mark. */
  lemma {:induction false} TranslateIsEmit(c: Codec, m: Meta, data: seq<string>, ls: seq<string>)
    ensures var bs := Blocks(ls);
            var evs := UntilStop([Parse(c, data + Data(c, bs[0]))] + Events(c, bs[1..]));
            Translate(c, m, data, ls) == Emit(m, evs) + Ending(Run(m, evs))
    decreases |ls|
  {
    var bs := Blocks(ls);
    if ls == [] || IsBlank(ls[0]) {
      assert data + Data(c, bs[0]) == data;
      var ev := Parse(c, data);
      var n := OnEvent(m, ev).0;
      if ls != [] {
        TranslateIsEmit(c, n, [], ls[1..]);
        BlocksAsEvents(c, ls[1..]);
        assert bs[1..] == Blocks(ls[1..]);
      }
      EmitFirst(m, ev, Events(c, bs[1..]));
    } else {
      var rest := Blocks(ls[1..]);
      assert bs[1..] == rest[1..];
      assert bs[0] == [ls[0]] + rest[0];
      DataFirst(c, ls[0], rest[0]);
      if IsData(ls[0]) {
        TranslateIsEmit(c, m, data + [DataOf(c, ls[0])], ls[1..]);
        assert data + [DataOf(c, ls[0])] + Data(c, rest[0]) == data + Data(c, bs[0]);
      } else {
        TranslateIsEmit(c, m, data, ls[1..]);
      }
    }
  }

  lemma DataFirst(c: Codec, line: string, rest: seq<string>)
    ensures Data(c, [line] + rest) == if IsData(line) then [DataOf(c, line)] + Data(c, rest) else Data(c, rest)
  {
    assert ([line] + rest)[1..] == rest;
  }

  lemma BlocksAsEvents(c: Codec, ls: seq<string>)
    ensures var bs := Blocks(ls);
            [Parse(c, [] + Data(c, bs[0]))] + Events(c, bs[1..]) == Events(c, bs)
  {
    assert [] + Data(c, Blocks(ls)[0]) == Data(c, Blocks(ls)[0]);
  }

  lemma EmitFirst(m: Meta, ev: Event, evs: seq<Event>)
    ensures var u := UntilStop([ev] + evs);
            var v := UntilStop(evs);
            var n := OnEvent(m, ev).0;
            Emit(m, u) + Ending(Run(m, u))
            == if ev.Stop? then OnEvent(m, ev).1 else OnEvent(m, ev).1 + (Emit(n, v) + Ending(Run(n, v)))
  {
    assert ([ev] + evs)[1..] == evs;
    if !ev.Stop? {
      assert ([ev] + UntilStop(evs))[1..] == UntilStop(evs);
    }
  }
}
