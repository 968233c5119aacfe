/** Newline-separated lines of a text held as a whole. A byte is a `char`. */
module TextLines {

  /** Position of the first newline. */
  function Newline(s: string): (i: nat)
    requires '\n' in s
    ensures i < |s| && s[i] == '\n' && '\n' !in s[..i]
  {
    if s[0] == '\n' then 0
    else
      assert s == [s[0]] + s[1..];
      var j := Newline(s[1..]);
      assert s[..j + 1] == [s[0]] + s[1..][..j];
      1 + j
  }

  /** The lines of a whole text, without their newlines; a last line without newline counts unless
      it is empty. */
  function Lines(s: string): seq<string> {
    if '\n' in s then
      var i := Newline(s);
      [s[..i]] + Lines(s[i + 1..])
    else if s == "" then [] else [s]
  }

  lemma {:induction false} NewlineIs(a: string, b: string)
    requires '\n' !in a
    ensures '\n' in a + ['\n'] + b && Newline(a + ['\n'] + b) == |a|
  {
    var s := a + ['\n'] + b;
    assert s[|a|] == '\n';
    if a == "" {
      assert s[0] == '\n';
    } else {
      assert s[1..] == a[1..] + ['\n'] + b && s[0] == a[0];
      NewlineIs(a[1..], b);
    }
  }

  /** A complete first line is split off, whatever follows it. */
  lemma FirstLine(a: string, b: string)
    requires '\n' !in a
    ensures Lines(a + ['\n'] + b) == [a] + Lines(b)
  {
    NewlineIs(a, b);
    var s := a + ['\n'] + b;
    assert s[..|a|] == a && s[|a| + 1..] == b;
  }
}
