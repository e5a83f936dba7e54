/** CRLF-terminated lines, shared by the buffer, the request parser and the response reader. */
module Lines {

  import opened Wrappers

  const CRLF := "\r\n"

  predicate CrlfAt(s: string, i: int) {
    0 <= i && i + 1 < |s| && s[i] == '\r' && s[i + 1] == '\n'
  }

  function FindFrom(s: string, from: nat): (r: Option<nat>)
    ensures r.Some? ==> from <= r.value && CrlfAt(s, r.value)
    ensures forall j :: from <= j < (if r.Some? then r.value else |s|) ==> !CrlfAt(s, j)
    decreases |s| - from
  {
    if from + 1 >= |s| then None
    else if CrlfAt(s, from) then Some(from)
    else FindFrom(s, from + 1)
  }

  /** std::search for CRLF (Net/buffer.h:113-117): the first occurrence, if any. */
  function FindCRLF(s: string): (r: Option<nat>)
    ensures r.Some? ==> CrlfAt(s, r.value)
    ensures forall j :: 0 <= j < (if r.Some? then r.value else |s|) ==> !CrlfAt(s, j)
  {
    FindFrom(s, 0)
  }

  predicate NoCRLF(s: string) {
    FindCRLF(s).None?
  }

  /** The first occurrence is unique, whichever way it was found. */
  lemma FirstCrlf(s: string, i: nat)
    requires CrlfAt(s, i)
    requires forall j :: 0 <= j < i ==> !CrlfAt(s, j)
    ensures FindCRLF(s) == Some(i)
  {
    var r := FindCRLF(s);
    assert r.Some?;
    assert !(r.value < i) && !(i < r.value);
  }

  /** Later bytes never move a line end that is already there. */
  lemma FindCRLFStable(s: string, t: string)
    requires FindCRLF(s).Some?
    ensures FindCRLF(s + t) == FindCRLF(s)
  {
    var i := FindCRLF(s).value;
    assert forall j :: 0 <= j <= i ==> CrlfAt(s + t, j) == CrlfAt(s, j);
    FirstCrlf(s + t, i);
  }

  /** The text up to the line end found is a line, and the whole is that line, CRLF and the rest. */
  lemma FoundLine(s: string)
    requires FindCRLF(s).Some?
    ensures var i := FindCRLF(s).value; NoCRLF(s[..i]) && s == s[..i] + CRLF + s[i + 2..]
  {
    var i := FindCRLF(s).value;
    assert forall j :: CrlfAt(s[..i], j) ==> CrlfAt(s, j);
  }

  /** A line without CRLF, then CRLF, then anything: the line end found is the one put there. */
  lemma LineThenRest(line: string, rest: string)
    requires NoCRLF(line)
    ensures FindCRLF(line + CRLF + rest) == Some(|line|)
    ensures (line + CRLF + rest)[..|line|] == line
    ensures (line + CRLF + rest)[|line| + 2..] == rest
  {
    var s := line + CRLF + rest;
    assert CrlfAt(s, |line|);
    forall j | 0 <= j < |line|
      ensures !CrlfAt(s, j)
    {
      assert !CrlfAt(line, j);
    }
    FirstCrlf(s, |line|);
  }

  lemma NoCarriageReturn(s: string)
    requires '\r' !in s
    ensures NoCRLF(s)
  {
  }

  /** Lines, each followed by CRLF. */
  function JoinLines(lines: seq<string>): (s: string) {
    if lines == [] then "" else lines[0] + CRLF + JoinLines(lines[1..])
  }

  /** Two CRLF-free pieces form a CRLF-free whole unless CR meets LF at the joint. */
  lemma NoCRLFConcat(a: string, b: string)
    requires NoCRLF(a) && NoCRLF(b)
    requires a == "" || a[|a| - 1] != '\r' || b == "" || b[0] != '\n'
    ensures NoCRLF(a + b)
  {
    forall j
      ensures !CrlfAt(a + b, j)
    {
      assert !(0 <= j < |a|) || !CrlfAt(a, j);
      assert !(0 <= j - |a| < |b|) || !CrlfAt(b, j - |a|);
    }
  }
}
