/** Relaying a stream while feeding its lines to a tracker. */
module LineRelay {
  import opened TextLines

  /** One read from the upstream body: some bytes, and whether the stream ended with them. */
  datatype Read = Read(data: string, end: bool)

  function Concat(rs: seq<Read>): string {
    if rs == [] then "" else Concat(rs[..|rs| - 1]) + rs[|rs| - 1].data
  }

  /** `n` reads are copied to the client: through the first that ends the stream, or up to the
      first nonempty one the client does not take (`failed`). */
  predicate Stops(rs: seq<Read>, writable: nat -> bool, n: nat, failed: bool)
    requires n <= |rs|
  {
    (forall k | 0 <= k < n :: rs[k].data == "" || writable(k)) &&
    (forall k | 0 <= k < n - 1 :: !rs[k].end) &&
    (if failed then n < |rs| && rs[n].data != "" && !writable(n) && (n > 0 ==> !rs[n - 1].end)
     else n == |rs| || (n > 0 && rs[n - 1].end))
  }

  /** `fed` are complete lines taken from the front of `sent`, and `pending` is what is left. */
  ghost predicate Cut(sent: string, fed: seq<string>, pending: string) {
    forall more: string :: Lines(sent + more) == fed + Lines(pending + more)
  }

  lemma CutStart()
    ensures Cut("", [], "")
  {
    forall more: string ensures Lines("" + more) == [] + Lines("" + more) {
      assert "" + more == more;
    }
  }

  lemma CutMore(sent: string, fed: seq<string>, pending: string, data: string)
    requires Cut(sent, fed, pending)
    ensures Cut(sent + data, fed, pending + data)
  {
    forall more: string ensures Lines(sent + data + more) == fed + Lines(pending + data + more) {
      assert sent + data + more == sent + (data + more);
      assert pending + data + more == pending + (data + more);
    }
  }

  lemma CutLine(sent: string, fed: seq<string>, line: string, rest: string)
    requires Cut(sent, fed, line + ['\n'] + rest) && '\n' !in line
    ensures Cut(sent, fed + [line], rest)
  {
    forall more: string ensures Lines(sent + more) == fed + [line] + Lines(rest + more) {
      LineBefore(line, rest, more);
      Append(fed, line, Lines(rest + more));
    }
  }

  lemma LineBefore(line: string, rest: string, more: string)
    requires '\n' !in line
    ensures Lines(line + ['\n'] + rest + more) == [line] + Lines(rest + more)
  {
    assert line + ['\n'] + rest + more == line + ['\n'] + (rest + more);
    FirstLine(line, rest + more);
  }

  lemma Append(fed: seq<string>, line: string, rest: seq<string>)
    ensures fed + ([line] + rest) == fed + [line] + rest
  {
  }

  lemma CutEnd(sent: string, fed: seq<string>, pending: string)
    requires Cut(sent, fed, pending) && '\n' !in pending
    ensures Lines(sent) == if pending == "" then fed else fed + [pending]
  {
    assert sent + "" == sent && pending + "" == pending;
  }

  /** The inner loop of `relayStream`: feeds every complete line of `pending`. */
  method FeedLines(start: string, before: seq<string>, ghost sent: string)
    returns (pending: string, fed: seq<string>)
    requires Cut(sent, before, start)
    ensures Cut(sent, fed, pending) && '\n' !in pending
  {
    pending, fed := start, before;
    while '\n' in pending
      invariant Cut(sent, fed, pending)
      decreases |pending|
    {
      var i := Newline(pending);
      assert pending == pending[..i] + ['\n'] + pending[i + 1..];
      CutLine(sent, fed, pending[..i], pending[i + 1..]);
      fed := fed + [pending[..i]];
      pending := pending[i + 1..];
    }
  }

  /** The first `n` reads were copied and none of them ended the stream. */
  ghost predicate Going(rs: seq<Read>, writable: nat -> bool, n: nat)
    requires n <= |rs|
  {
    forall k | 0 <= k < n :: (rs[k].data == "" || writable(k)) && !rs[k].end
  }

  lemma GoingOn(rs: seq<Read>, writable: nat -> bool, n: nat)
    requires n < |rs| && Going(rs, writable, n)
    ensures rs[n].data != "" && !writable(n) ==> Stops(rs, writable, n, true)
    ensures (rs[n].data == "" || writable(n)) && rs[n].end ==> Stops(rs, writable, n + 1, false)
    ensures (rs[n].data == "" || writable(n)) && !rs[n].end ==> Going(rs, writable, n + 1)
  {
  }

  lemma ConcatNext(rs: seq<Read>, n: nat)
    requires n < |rs|
    ensures Concat(rs[..n + 1]) == Concat(rs[..n]) + rs[n].data
  {
    assert rs[..n + 1][..n] == rs[..n];
  }

  /** `relayStream`: copies the stream to the client and feeds complete lines to the tracker as they
      arrive. Whatever the split into reads, the tracker gets the lines of the copied bytes. */
  method Relay(rs: seq<Read>, writable: nat -> bool)
    returns (sent: string, fed: seq<string>, used: nat, failed: bool)
    ensures used <= |rs| && Stops(rs, writable, used, failed)
    ensures sent == Concat(rs[..used])
    ensures fed == Lines(sent)
  {
    var pending := "";
    sent, fed, used, failed := "", [], 0, false;
    CutStart();
    while used < |rs|
      invariant used <= |rs| && Going(rs, writable, used) && !failed
      invariant sent == Concat(rs[..used])
      invariant Cut(sent, fed, pending) && '\n' !in pending
    {
      var r := rs[used];
      GoingOn(rs, writable, used);
      if r.data != "" && !writable(used) {
        failed := true;
        break;
      }
      ConcatNext(rs, used);
      sent, pending, fed := Copy(r.data, sent, pending, fed);
      used := used + 1;
      if r.end {
        break;
      }
    }
    fed := FeedRest(sent, fed, pending);
  }

  /** The last piece, which no newline ended. */
  method FeedRest(ghost sent: string, lines: seq<string>, pending: string) returns (fed: seq<string>)
    requires Cut(sent, lines, pending) && '\n' !in pending
    ensures fed == Lines(sent)
  {
    CutEnd(sent, lines, pending);
    fed := lines;
    if |pending| > 0 {
      fed := fed + [pending];
    }
  }

  /** One read that the client takes: written to it, its complete lines fed. */
  method Copy(data: string, before: string, start: string, lines: seq<string>)
    returns (sent: string, pending: string, fed: seq<string>)
    requires Cut(before, lines, start) && '\n' !in start
    ensures sent == before + data && Cut(sent, fed, pending) && '\n' !in pending
  {
    sent, pending, fed := before, start, lines;
    if data != "" {
      CutMore(before, lines, start, data);
      sent := before + data;
      pending, fed := FeedLines(start + data, lines, sent);
    }
  }
}
