/** The Anthropic stream translator as the object the gateway reads from. */
module AnthropicStream {
  import opened Wrappers
  import opened TextLines
  import opened AnthropicEvents
  import opened AnthropicLaws

  function Concat(chunks: seq<string>): string
    decreases |chunks|
  {
    if chunks == [] then "" else chunks[0] + Concat(chunks[1..])
  }

  /** The upstream body behind a line reader: bytes read ahead, and the reads still to come. */
  class Source {
    var buffer: string
    var chunks: seq<string>

    constructor (chunks: seq<string>)
      ensures this.chunks == chunks && buffer == ""
    {
      buffer, this.chunks := "", chunks;
    }

    ghost function Rest(): string
      reads this
    {
      buffer + Concat(chunks)
    }

    /** `bufio.Reader.ReadBytes('\n')`: a line with its newline, or what is left and the end. */
    method ReadLine() returns (line: string, end: bool)
      modifies this
      ensures old(Rest()) == line + (if end then "" else "\n") + Rest() && '\n' !in line
      ensures end ==> Rest() == ""
    {
      while '\n' !in buffer && chunks != []
        invariant Rest() == old(Rest())
        decreases |chunks|
      {
        assert buffer + Concat(chunks) == buffer + chunks[0] + Concat(chunks[1..]);
        buffer, chunks := buffer + chunks[0], chunks[1..];
      }
      if '\n' in buffer {
        var i := Newline(buffer);
        line, end := buffer[..i], false;
        assert buffer == line + "\n" + buffer[i + 1..];
        buffer := buffer[i + 1..];
        assert old(Rest()) == line + "\n" + buffer + Concat(chunks);
      } else {
        line, end := buffer, true;
        buffer := "";
      }
    }
  }

  function Wire(c: Codec, chunk: Chunk): string {
    if chunk.Done? then "data: [DONE]\n\n" else "data: " + c.encode(chunk) + "\n\n"
  }

  function Bytes(c: Codec, chunks: seq<Chunk>): string
    decreases |chunks|
  {
    if chunks == [] then "" else Wire(c, chunks[0]) + Bytes(c, chunks[1..])
  }

  lemma {:induction false} BytesConcat(c: Codec, a: seq<Chunk>, b: seq<Chunk>)
    ensures Bytes(c, a + b) == Bytes(c, a) + Bytes(c, b)
    decreases |a|
  {
    if a == [] {
      assert a + b == b;
    } else {
      assert (a + b)[1..] == a[1..] + b;
      BytesConcat(c, a[1..], b);
      assert Wire(c, a[0]) + Bytes(c, a[1..]) + Bytes(c, b) == Wire(c, a[0]) + (Bytes(c, a[1..]) + Bytes(c, b));
    }
  }

  lemma EndBytes(c: Codec, m: Meta, data: seq<string>)
    ensures var turn := OnData(c, m, data);
            Bytes(c, OnEnd(c, m, data))
            == if turn.stopped then Bytes(c, turn.chunks) else Bytes(c, turn.chunks) + Bytes(c, Ending(turn.fields))
  {
    var turn := OnData(c, m, data);
    BytesConcat(c, turn.chunks, Ending(turn.fields));
    assert turn.chunks + [] == turn.chunks;
  }

  lemma LineBytes(c: Codec, m: Meta, data: seq<string>, line: string, rest: string)
    requires '\n' !in line
    ensures var turn := OnLine(c, m, data, line);
            Bytes(c, Translate(c, m, data, Lines(line + ['\n'] + rest)))
            == if turn.stopped then Bytes(c, turn.chunks)
               else Bytes(c, turn.chunks) + Bytes(c, Translate(c, turn.fields, turn.data, Lines(rest)))
  {
    var turn := OnLine(c, m, data, line);
    FirstLine(line, rest);
    LineFirst(c, m, data, line, Lines(rest));
    BytesConcat(c, turn.chunks, Translate(c, turn.fields, turn.data, Lines(rest)));
    assert turn.chunks + [] == turn.chunks;
  }

  lemma LastBytes(c: Codec, m: Meta, data: seq<string>, line: string)
    requires '\n' !in line
    ensures var turn := OnLine(c, m, data, line);
            Bytes(c, Translate(c, m, data, Lines(line)))
            == if turn.stopped then Bytes(c, turn.chunks)
               else Bytes(c, turn.chunks) + Bytes(c, OnEnd(c, turn.fields, turn.data))
  {
    var turn := OnLine(c, m, data, line);
    LineLast(c, m, data, line);
    BytesConcat(c, turn.chunks, OnEnd(c, turn.fields, turn.data));
    assert turn.chunks + [] == turn.chunks;
  }

  lemma Regroup(a: string, b: string, c: string)
    ensures a + (b + c) == a + b + c
  {
  }

  lemma Nothing(a: string)
    ensures "" + a == a && a + "" == a
  {
  }

  class Translator {
    const codec: Codec
    const source: Source
    var out: string
    var id: string
    var model: string
    var input: int
    var output: int
    var cacheCreate: int
    var cacheRead: int
    var sentRole: bool
    var finish: string
    var done: bool
    var data: seq<string>

    constructor (codec: Codec, source: Source, model: string)
      ensures this.codec == codec && this.source == source
      ensures Fields() == Fresh(model) && out == "" && !done && data == []
    {
      this.codec, this.source := codec, source;
      out, id, this.model, input, output, cacheCreate, cacheRead := "", "", model, 0, 0, 0, 0;
      sentRole, finish, done, data := false, "", false, [];
    }

    function Fields(): Meta
      reads this
    {
      Meta(id, model, Tokens(input, output, cacheCreate, cacheRead), sentRole, finish)
    }

    /** What is still to be translated. */
    ghost function Later(): string
      reads this, source
    {
      if done then "" else Bytes(codec, Translate(codec, Fields(), data, Lines(source.Rest())))
    }

    /** Everything the client can still read. */
    ghost function Future(): string
      reads this, source
    {
      out + Later()
    }

    method EmitChunk(chunk: Chunk)
      modifies this`out
      ensures out == old(out) + Bytes(codec, [chunk])
    {
      out := out + Wire(codec, chunk);
    }

    method EmitUsageAndDone()
      modifies this`out, this`done
      ensures out == old(out) + Bytes(codec, Ending(Fields())) && done
    {
      var usage := Usage(id, model, Tokens(input, output, cacheCreate, cacheRead));
      BytesConcat(codec, [usage], [Done]);
      assert Ending(Fields()) == [usage] + [Done];
      out := out + Wire(codec, usage);
      out := out + Wire(codec, Done);
      done := true;
    }

    method OnStart(message: Option<Message>)
      modifies this`id, this`model, this`input, this`cacheCreate, this`cacheRead, this`sentRole, this`out
      ensures var (m, chunks) := OnEvent(old(Fields()), Start(message));
              Fields() == m && out == old(out) + Bytes(codec, chunks)
    {
      if message.Some? {
        id := message.value.id;
        if message.value.model != "" {
          model := message.value.model;
        }
        if message.value.usage.Some? {
          var u := message.value.usage.value;
          input, cacheCreate, cacheRead := u.input, u.cacheCreate, u.cacheRead;
        }
      }
      if !sentRole {
        sentRole := true;
        EmitChunk(Role(id, model));
      }
    }

    method OnDelta(usage: Option<Tokens>, stop: string)
      modifies this`output, this`cacheCreate, this`cacheRead, this`finish, this`out
      ensures var (m, chunks) := OnEvent(old(Fields()), Delta(usage, stop));
              Fields() == m && out == old(out) + Bytes(codec, chunks)
    {
      if usage.Some? {
        output := usage.value.output;
        if usage.value.cacheCreate > cacheCreate {
          cacheCreate := usage.value.cacheCreate;
        }
        if usage.value.cacheRead > cacheRead {
          cacheRead := usage.value.cacheRead;
        }
      }
      if stop != "" {
        finish := FinishReason(stop);
        EmitChunk(Finish(id, model, finish));
      }
    }

    /** `dispatch`: one event from the collected data lines. */
    method Dispatch()
      modifies this
      ensures Turned(OnData(codec, old(Fields()), old(data)), old(out), old(done))
    {
      var payload := Join(data);
      data := [];
      if payload == "" {
        return;
      }
      var ev := codec.decode(payload);
      match ev {
        case Start(message) => OnStart(message);
        case Text(text) =>
          if text != "" {
            EmitChunk(Content(id, model, text));
          }
        case Delta(usage, stop) => OnDelta(usage, stop);
        case Stop => EmitUsageAndDone();
        case Other =>
      }
    }

    /** The translator did `turn` from output `before` and end mark `ended`. */
    ghost predicate Turned(turn: Turn, before: string, ended: bool)
      reads this
    {
      Fields() == turn.fields && data == turn.data && done == (ended || turn.stopped)
      && out == before + Bytes(codec, turn.chunks)
    }

    /** The switch of `Read` on one line. */
    method Take(line: string)
      requires !done
      modifies this
      ensures Turned(OnLine(codec, old(Fields()), old(data), line), old(out), false)
    {
      var trimmed := TrimRight(line);
      if EVENT <= trimmed {
        assert trimmed[0] == 'e';
      } else if DATA <= trimmed {
        data := data + [codec.trim(trimmed[|DATA|..])];
      } else if trimmed == "" {
        Dispatch();
      }
    }

    /** The end of the body in `Read`: a last event and the ending. */
    method End()
      requires done ==> data == []
      modifies this
      ensures done
      ensures old(done) ==> out == old(out)
      ensures !old(done) ==> out == old(out) + Bytes(codec, OnEnd(codec, old(Fields()), old(data)))
    {
      ghost var before := out;
      ghost var turn := OnData(codec, Fields(), data);
      EndBytes(codec, Fields(), data);
      Dispatch();
      assert turn.stopped ==> old(data) != [];
      assert out == before + Bytes(codec, turn.chunks);
      if !done {
        EmitUsageAndDone();
        Regroup(before, Bytes(codec, turn.chunks), Bytes(codec, Ending(turn.fields)));
      }
      Nothing(before);
    }

    /** A line that ended with a newline. */
    method NextLine(line: string)
      requires out == "" && !done && '\n' !in line
      modifies this
      ensures Future() == Bytes(codec, Translate(codec, old(Fields()), old(data), Lines(line + ['\n'] + source.Rest())))
    {
      LineBytes(codec, Fields(), data, line, source.Rest());
      ghost var turn := OnLine(codec, Fields(), data, line);
      Take(line);
      Nothing(Bytes(codec, turn.chunks));
      assert out == Bytes(codec, turn.chunks);
    }

    /** What comes before the end of the body, and the end. */
    method LastLine(line: string)
      requires out == "" && !done && '\n' !in line
      modifies this
      ensures done && Future() == Bytes(codec, Translate(codec, old(Fields()), old(data), Lines(line)))
    {
      LastBytes(codec, Fields(), data, line);
      ghost var turn := OnLine(codec, Fields(), data, line);
      Take(line);
      Nothing(Bytes(codec, turn.chunks));
      assert out == Bytes(codec, turn.chunks);
      End();
      Nothing(out);
    }

    /** One turn of the loop of `Read`. */
    method Advance()
      requires out == "" && !done
      modifies this, source
      ensures Future() == old(Future())
      ensures done || |source.Rest()| < old(|source.Rest()|)
    {
      assert Future() == Later();
      ghost var rest := source.Rest();
      var line, end := source.ReadLine();
      if end {
        assert rest == line;
        LastLine(line);
      } else {
        assert rest == line + ['\n'] + source.Rest();
        NextLine(line);
      }
    }

    /** `Read`: whatever the size asked for and however the upstream bytes arrive, what the client
        gets is the front of what was still to come; it reports the end only when nothing is left. */
    method Read(size: nat) returns (bytes: string, eof: bool)
      modifies this, source
      ensures old(Future()) == bytes + Future()
      ensures |bytes| <= size && (bytes == "" ==> eof || size == 0)
      ensures eof ==> bytes == "" && Future() == ""
    {
      while out == "" && !done
        invariant Future() == old(Future())
        decreases !done, |source.Rest()|
      {
        Advance();
      }
      if out == "" {
        return "", true;
      }
      bytes := Drain(size);
      eof := false;
    }

    /** `bytes.Buffer.Read` on a buffer that is not empty. */
    method Drain(size: nat) returns (bytes: string)
      requires out != ""
      modifies this`out
      ensures old(out) == bytes + out && |bytes| <= size && (bytes == "" ==> size == 0)
      ensures Later() == old(Later()) && old(Future()) == bytes + Future()
    {
      var n := if |out| < size then |out| else size;
      bytes := out[..n];
      ghost var before := out;
      out := out[n..];
      assert before == bytes + out;
      assert Later() == old(Later());
      Regroup(bytes, out, Later());
    }
  }

  /** How many reads ask for something. */
  function Positive(sizes: seq<nat>): nat {
    if sizes == [] then 0 else Positive(sizes[..|sizes| - 1]) + (if sizes[|sizes| - 1] > 0 then 1 else 0)
  }

  /** A client that reads with the given sizes from a new translator. */
  method ReadAll(t: Translator, sizes: seq<nat>) returns (got: string, eof: bool)
    modifies t, t.source
    ensures old(t.Future()) == got + t.Future() && (eof ==> t.Future() == "")
    ensures !eof ==> |got| >= Positive(sizes)
  {
    got, eof := "", false;
    var i := 0;
    while i < |sizes| && !eof
      invariant i <= |sizes| && old(t.Future()) == got + t.Future()
      invariant eof ==> t.Future() == ""
      invariant !eof ==> |got| >= Positive(sizes[..i])
      decreases |sizes| - i
    {
      assert sizes[..i + 1][..i] == sizes[..i];
      var bytes;
      bytes, eof := t.Read(sizes[i]);
      Regroup(got, bytes, t.Future());
      got, i := got + bytes, i + 1;
    }
    assert !eof ==> sizes[..i] == sizes;
  }

  /** The client gets the front of the translated body, and the whole of it once the end is
      reported: nothing depends on the sizes or on how `chunks` cut the body. As many reads that ask
      for something as the body has bytes get the whole of it. */
  method Stream(codec: Codec, model: string, chunks: seq<string>, sizes: seq<nat>)
    returns (got: string, eof: bool)
    ensures got <= Bytes(codec, Output(codec, model, Concat(chunks)))
    ensures eof || Positive(sizes) >= |Bytes(codec, Output(codec, model, Concat(chunks)))|
            ==> got == Bytes(codec, Output(codec, model, Concat(chunks)))
  {
    var source := new Source(chunks);
    var t := new Translator(codec, source, model);
    assert source.Rest() == Concat(chunks);
    Nothing(Bytes(codec, Output(codec, model, Concat(chunks))));
    assert t.Future() == Bytes(codec, Output(codec, model, Concat(chunks)));
    got, eof := ReadAll(t, sizes);
    assert got + "" == got;
  }
}
