/** What a translated stream says about the upstream body it came from. */
module AnthropicLaws {
  import opened TextLines
  import opened AnthropicEvents

  /** The chunks for a whole body. */
  function Output(c: Codec, model: string, body: string): seq<Chunk> {
    Translate(c, Fresh(model), [], Lines(body))
  }

  /** The events of a whole body up to the first stop, read block by block. */
  function BodyEvents(c: Codec, body: string): seq<Event> {
    UntilStop(Events(c, Blocks(Lines(body))))
  }

  lemma OutputIsEmit(c: Codec, model: string, body: string)
    ensures var evs := BodyEvents(c, body);
            var m := Fresh(model);
            Output(c, model, body) == Emit(m, evs) + Ending(Run(m, evs))
  {
    TranslateIsEmit(c, Fresh(model), [], Lines(body));
    BlocksAsEvents(c, Lines(body));
  }

  /** What the content chunks add up to. */
  function ContentOf(chunks: seq<Chunk>): string
    decreases |chunks|
  {
    if chunks == [] then ""
    else (if chunks[0].Content? then chunks[0].text else "") + ContentOf(chunks[1..])
  }

  /** What the text events add up to. */
  function TextOf(evs: seq<Event>): string
    decreases |evs|
  {
    if evs == [] then "" else (if evs[0].Text? then evs[0].text else "") + TextOf(evs[1..])
  }

  lemma {:induction false} ContentOfConcat(a: seq<Chunk>, b: seq<Chunk>)
    ensures ContentOf(a + b) == ContentOf(a) + ContentOf(b)
    decreases |a|
  {
    if a == [] {
      assert a + b == b;
    } else {
      assert (a + b)[1..] == a[1..] + b;
      ContentOfConcat(a[1..], b);
    }
  }

  lemma {:induction false} EmitKeepsText(m: Meta, evs: seq<Event>)
    requires forall e | e in evs :: !e.Stop?
    ensures ContentOf(Emit(m, evs)) == TextOf(evs)
    decreases |evs|
  {
    if evs != [] {
      var (n, out) := OnEvent(m, evs[0]);
      EmitKeepsText(n, evs[1..]);
      ContentOfConcat(out, Emit(n, evs[1..]));
      assert ContentOf(out) == if evs[0].Text? then evs[0].text else "";
    }
  }

  lemma {:induction false} UntilStopHasNone(evs: seq<Event>)
    ensures forall e | e in UntilStop(evs) :: !e.Stop?
  {
    if evs != [] && !evs[0].Stop? {
      UntilStopHasNone(evs[1..]);
    }
  }

  /** The content of the translated stream is the text of the upstream events up to the first stop. */
  lemma ContentIsText(c: Codec, model: string, body: string)
    ensures ContentOf(Output(c, model, body)) == TextOf(BodyEvents(c, body))
  {
    var m, evs := Fresh(model), BodyEvents(c, body);
    OutputIsEmit(c, model, body);
    UntilStopHasNone(Events(c, Blocks(Lines(body))));
    EmitKeepsText(m, evs);
    ContentOfConcat(Emit(m, evs), Ending(Run(m, evs)));
    EndingIsSilent(Run(m, evs));
    assert ContentOf(Emit(m, evs)) + "" == ContentOf(Emit(m, evs));
  }

  /** How many chunks announce the assistant's role. */
  function Roles(chunks: seq<Chunk>): nat
    decreases |chunks|
  {
    if chunks == [] then 0 else (if chunks[0].Role? then 1 else 0) + Roles(chunks[1..])
  }

  lemma EndingIsSilent(m: Meta)
    ensures ContentOf(Ending(m)) == "" && Roles(Ending(m)) == 0
  {
    assert Ending(m)[1..] == [Done];
    assert [Done][1..] == [];
    assert ContentOf([Done]) == "" && Roles([Done]) == 0;
  }

  lemma {:induction false} RolesConcat(a: seq<Chunk>, b: seq<Chunk>)
    ensures Roles(a + b) == Roles(a) + Roles(b)
    decreases |a|
  {
    if a == [] {
      assert a + b == b;
    } else {
      assert (a + b)[1..] == a[1..] + b;
      RolesConcat(a[1..], b);
    }
  }

  lemma {:induction false} EmitRoles(m: Meta, evs: seq<Event>)
    requires forall e | e in evs :: !e.Stop?
    ensures Roles(Emit(m, evs)) == if !m.sentRole && (exists e | e in evs :: e.Start?) then 1 else 0
    decreases |evs|
  {
    if evs != [] {
      var (n, out) := OnEvent(m, evs[0]);
      EmitRoles(n, evs[1..]);
      RolesConcat(out, Emit(n, evs[1..]));
      assert evs == [evs[0]] + evs[1..];
    }
  }

  /** The role is announced once, whatever the number of start events before the stop. */
  lemma RoleOnce(c: Codec, model: string, body: string)
    ensures Roles(Output(c, model, body)) == if exists e | e in BodyEvents(c, body) :: e.Start? then 1 else 0
  {
    var m, evs := Fresh(model), BodyEvents(c, body);
    OutputIsEmit(c, model, body);
    UntilStopHasNone(Events(c, Blocks(Lines(body))));
    EmitRoles(m, evs);
    RolesConcat(Emit(m, evs), Ending(Run(m, evs)));
    EndingIsSilent(Run(m, evs));
  }

  // The end of the stream

  lemma {:induction false} EmitEndsNothing(m: Meta, evs: seq<Event>)
    requires forall e | e in evs :: !e.Stop?
    ensures forall ch | ch in Emit(m, evs) :: !ch.Done? && !ch.Usage?
    decreases |evs|
  {
    if evs != [] {
      EmitEndsNothing(OnEvent(m, evs[0]).0, evs[1..]);
    }
  }

  /** The output tokens reported last, 0 when there were none. */
  function LastOutput(evs: seq<Event>): int
    decreases |evs|
  {
    if evs == [] then 0
    else
      var e := evs[|evs| - 1];
      if e.Delta? && e.usage.Some? then e.usage.value.output else LastOutput(evs[..|evs| - 1])
  }

  /** The input tokens of the last start event with usage, 0 when there was none. */
  function LastInput(evs: seq<Event>): int
    decreases |evs|
  {
    if evs == [] then 0
    else
      var e := evs[|evs| - 1];
      if e.Start? && e.message.Some? && e.message.value.usage.Some? then e.message.value.usage.value.input
      else LastInput(evs[..|evs| - 1])
  }

  lemma {:induction false} RunLast(m: Meta, evs: seq<Event>)
    requires evs != []
    ensures Run(m, evs) == OnEvent(Run(m, evs[..|evs| - 1]), evs[|evs| - 1]).0
    decreases |evs|
  {
    if |evs| > 1 {
      RunLast(OnEvent(m, evs[0]).0, evs[1..]);
      assert evs[1..][..|evs| - 2] == evs[..|evs| - 1][1..];
    }
  }

  lemma {:induction false} RunTokens(model: string, evs: seq<Event>)
    ensures Run(Fresh(model), evs).tokens.output == LastOutput(evs)
    ensures Run(Fresh(model), evs).tokens.input == LastInput(evs)
    decreases |evs|
  {
    if evs != [] {
      RunLast(Fresh(model), evs);
      RunTokens(model, evs[..|evs| - 1]);
    }
  }

  /** Every translated stream ends with one usage chunk and one end mark, and has neither before,
      whether the upstream stopped properly or broke off; the usage chunk carries the last counts
      reported before the first stop. */
  lemma EndsOnce(c: Codec, model: string, body: string)
    ensures var out := Output(c, model, body);
            var evs := BodyEvents(c, body);
            |out| >= 2 && out[|out| - 1] == Done && out[|out| - 2].Usage?
            && out[|out| - 2].tokens.output == LastOutput(evs)
            && out[|out| - 2].tokens.input == LastInput(evs)
            && forall k | 0 <= k < |out| - 2 :: !out[k].Done? && !out[k].Usage?
  {
    var m, evs := Fresh(model), BodyEvents(c, body);
    OutputIsEmit(c, model, body);
    UntilStopHasNone(Events(c, Blocks(Lines(body))));
    EmitEndsNothing(m, evs);
    RunTokens(model, evs);
    var out := Output(c, model, body);
    forall k | 0 <= k < |out| - 2 ensures !out[k].Done? && !out[k].Usage? {
      assert out[k] == Emit(m, evs)[k];
      assert out[k] in Emit(m, evs);
    }
  }
}
