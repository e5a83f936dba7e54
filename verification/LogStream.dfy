/** Logging/logstream.h: the fixed-capacity log buffer and the integer formatter. */
module LogStreams {
  import opened Decimal
  import opened Truncation

  const SMALL_BUFFER := 4096
  const LARGE_BUFFER := 4096 * 1000
  const MAX_NUMERIC_SIZE := 48
  const DIGITS := "9876543210123456789"

  /** What a buffer of the given size holds after append: a message that does not leave at least one
      spare byte is dropped silently. */
  function Fitted(size: nat, text: string, msg: string): (r: string) {
    if |msg| < size - |text| then text + msg else text
  }

  /** FixedBuffer<SIZE>: bytes in place, with a write position. */
  class FixedBuffer {
    const data: array<char>
    var cur: nat

    ghost predicate Valid()
      reads this
    {
      cur <= data.Length
    }

    ghost function Contents(): (s: string)
      requires Valid()
      reads this, data
    {
      data[..cur]
    }

    function Avail(): (n: int)
      reads this
    {
      data.Length - cur
    }

    constructor (size: nat)
      ensures Valid() && fresh(data) && data.Length == size && cur == 0 && Contents() == ""
    {
      data := new char[size];
      cur := 0;
    }

    method Append(msg: string)
      requires Valid()
      modifies this, data
      ensures Valid()
      ensures Contents() == Fitted(data.Length, old(Contents()), msg)
    {
      if Avail() > |msg| {
        ghost var before := data[..];
        forall i | 0 <= i < |msg| {
          data[cur + i] := msg[i];
        }
        assert data[..cur] == before[..cur];
        assert data[cur..cur + |msg|] == msg;
        assert data[..cur + |msg|] == data[..cur] + data[cur..cur + |msg|];
        cur := cur + |msg|;
      }
    }

    method Reset()
      modifies this
      ensures Valid() && cur == 0 && Contents() == ""
    {
      cur := 0;
    }
  }

  /** zero[remainder], with zero pointing at the middle of the mirrored table. */
  function TableDigit(remainder: int): (c: char)
    requires -9 <= remainder <= 9
  {
    DIGITS[9 + remainder]
  }

  /** The mirrored table makes the digit of a negative remainder that of its magnitude. */
  lemma MirroredDigit(n: int)
    ensures -9 <= TruncMod(n, 10) <= 9
    ensures TableDigit(TruncMod(n, 10)) == Digit(Abs(n) % 10)
    ensures Abs(TruncDiv(n, 10)) == Abs(n) / 10
  {
    if n < 0 {
      assert TruncMod(n, 10) == -((-n) % 10);
    }
    var r := Abs(n) % 10;
    assert DIGITS[9 + r] == Digit(r) && DIGITS[9 - r] == Digit(r);
  }

  /** Digits of n, least significant first: the order in which the loop writes them. */
  function LowFirst(n: nat): (s: string) {
    [Digit(n % 10)] + if n / 10 == 0 then "" else LowFirst(n / 10)
  }

  function Reversed<T>(s: seq<T>): (r: seq<T>)
    ensures |r| == |s|
    ensures forall i :: 0 <= i < |s| ==> r[i] == s[|s| - 1 - i]
  {
    seq(|s|, i requires 0 <= i < |s| => s[|s| - 1 - i])
  }

  lemma ReversedConcat<T>(s: seq<T>, t: seq<T>)
    ensures Reversed(s + t) == Reversed(t) + Reversed(s)
  {
  }

  lemma {:induction false} ReversedLowFirst(n: nat)
    ensures Reversed(LowFirst(n)) == NatText(n)
  {
    if n < 10 {
      assert LowFirst(n) == [Digit(n)];
      assert Reversed(LowFirst(n)) == [Digit(n)];
    } else {
      ReversedLowFirst(n / 10);
      ReversedConcat([Digit(n % 10)], LowFirst(n / 10));
      assert Reversed([Digit(n % 10)]) == [Digit(n % 10)];
    }
  }

  /** s with t written over it from index at. */
  function Overwrite(s: string, at: nat, t: string): (r: string)
    requires at + |t| <= |s|
  {
    seq(|s|, i requires 0 <= i < |s| => if at <= i < at + |t| then t[i - at] else s[i])
  }

  lemma OverwriteSnoc(s: string, at: nat, t: string, c: char)
    requires at + |t| < |s|
    ensures Overwrite(s, at, t)[at + |t| := c] == Overwrite(s, at, t + [c])
  {
  }

  lemma OverwriteNothing(s: string, at: nat)
    requires at <= |s|
    ensures Overwrite(s, at, "") == s
  {
  }

  lemma OverwriteTwice(s: string, at: nat, t: string, u: string, end: string)
    requires |t| == |u| && at + |t| + |end| <= |s|
    ensures Overwrite(Overwrite(s, at, t + end), at, u) == Overwrite(s, at, u + end)
    ensures Overwrite(s, at, t + end)[at..at + |t|] == t
  {
  }

  /** std::reverse on a[lo..hi). */
  method ReverseRange(a: array<char>, lo: nat, hi: nat)
    requires lo <= hi <= a.Length
    modifies a
    ensures a[..] == Overwrite(old(a[..]), lo, Reversed(old(a[..])[lo..hi]))
  {
    ghost var was := a[..];
    var i, j := lo, hi;
    while i + 1 < j
      invariant lo <= i <= j + 1 && j <= hi && i - lo == hi - j
      invariant forall k :: lo <= k < i || j <= k < hi ==> a[k] == was[lo + hi - 1 - k]
      invariant forall k :: 0 <= k < a.Length && (k < lo || i <= k < j || hi <= k) ==> a[k] == was[k]
    {
      a[i], a[j - 1] := a[j - 1], a[i];
      i, j := i + 1, j - 1;
    }
    ghost var goal := Overwrite(was, lo, Reversed(was[lo..hi]));
    forall k | 0 <= k < a.Length
      ensures a[k] == goal[k]
    {
      if lo <= k < hi {
        assert goal[k] == Reversed(was[lo..hi])[k - lo];
      }
    }
  }

  method Store(a: array<char>, i: nat, c: char)
    requires i < a.Length
    modifies a
    ensures a[..] == old(a[..])[i := c]
  {
    a[i] := c;
  }

  /** The do-while digit loop: least significant digit first, from a[buf] onwards. */
  method WriteDigits(a: array<char>, buf: nat, num: int) returns (now: nat)
    requires buf + |LowFirst(Abs(num))| <= a.Length
    modifies a
    ensures now == |LowFirst(Abs(num))|
    ensures a[..] == Overwrite(old(a[..]), buf, LowFirst(Abs(num)))
  {
    ghost var was, all := a[..], LowFirst(Abs(num));
    var n, more := num, true;
    now := 0;
    OverwriteNothing(was, buf);
    while more
      invariant now <= |all| && all[now..] == if more then LowFirst(Abs(n)) else ""
      invariant a[..] == Overwrite(was, buf, all[..now])
      decreases Abs(n), more
    {
      MirroredDigit(n);
      ghost var rest := all[now..];
      assert rest[0] == all[now] && all[now + 1..] == rest[1..];
      Store(a, buf + now, TableDigit(TruncMod(n, 10)));
      OverwriteSnoc(was, buf, all[..now], all[now]);
      assert all[..now] + [all[now]] == all[..now + 1];
      now := now + 1;
      n := TruncDiv(n, 10);
      more := n != 0;
    }
    assert all[..now] == all;
  }

  lemma ReversedDigitsAndSign(num: int)
    ensures Reversed(LowFirst(Abs(num)) + if num < 0 then "-" else "") == Text(num)
    ensures |LowFirst(Abs(num))| + (if num < 0 then 1 else 0) == |Text(num)|
  {
    ReversedLowFirst(Abs(num));
    ReversedConcat(LowFirst(Abs(num)), if num < 0 then "-" else "");
    assert Reversed("-") == "-" && Reversed("") == "";
  }

  /** What the loop and the sign leave in the buffer, still to be reversed. */
  function LowFirstSigned(num: int): (s: string)
    ensures |s| == |Text(num)| && Reversed(s) == Text(num)
  {
    ReversedDigitsAndSign(num);
    LowFirst(Abs(num)) + if num < 0 then "-" else ""
  }

  method WriteSigned(a: array<char>, buf: nat, num: int) returns (now: nat)
    requires buf + |Text(num)| <= a.Length
    modifies a
    ensures now == |Text(num)| && a[..] == Overwrite(old(a[..]), buf, LowFirstSigned(num))
  {
    ghost var was, digits := a[..], LowFirst(Abs(num));
    ReversedDigitsAndSign(num);
    now := WriteDigits(a, buf, num);
    if num < 0 {
      Store(a, buf + now, '-');
      OverwriteSnoc(was, buf, digits, '-');
      now := now + 1;
    } else {
      assert digits + "" == digits;
    }
  }

  lemma TerminateAndReverse(was: string, buf: nat, w: string)
    requires buf + |w| < |was|
    ensures var r := Overwrite(was, buf, w)[buf + |w| := '\0'];
            Overwrite(r, buf, Reversed(r[buf..buf + |w|])) == Overwrite(was, buf, Reversed(w) + "\0")
  {
    OverwriteSnoc(was, buf, w, '\0');
    OverwriteTwice(was, buf, w, Reversed(w), "\0");
  }

  method Finish(a: array<char>, buf: nat, now: nat, ghost was: string, ghost w: string)
    requires now == |w| && buf + now < a.Length == |was| && a[..] == Overwrite(was, buf, w)
    modifies a
    ensures a[..] == Overwrite(was, buf, Reversed(w) + "\0")
  {
    TerminateAndReverse(was, buf, w);
    Store(a, buf + now, '\0');
    ReverseRange(a, buf, buf + now);
  }

  /** Digits, sign, terminating NUL, then the reversal, all in place from a[buf] onwards. */
  method WriteInteger(a: array<char>, buf: nat, num: int) returns (now: nat)
    requires buf + |Text(num)| < a.Length
    modifies a
    ensures now == |Text(num)|
    ensures a[..] == Overwrite(old(a[..]), buf, Text(num) + "\0")
  {
    now := WriteSigned(a, buf, num);
    Finish(a, buf, now, old(a[..]), LowFirstSigned(num));
  }

  lemma OverwrittenInteger(was: string, at: nat, t: string)
    requires at + |t| < |was| && |t| <= 20
    ensures var r := Overwrite(was, at, t + "\0");
            && r[..at + |t|] == was[..at] + t
            && (forall k :: 0 <= k < at || at + 21 <= k < |was| ==> r[k] == was[k])
  {
  }

  class LogStream {
    const buffer: FixedBuffer

    ghost predicate Valid()
      reads this, buffer
    {
      buffer.Valid()
    }

    constructor ()
      ensures Valid() && fresh(buffer) && buffer.Contents() == ""
    {
      buffer := new FixedBuffer(SMALL_BUFFER);
    }

    /** Appends the canonical decimal text of any value of a (signed or unsigned) integer type of
        up to 64 bits, or nothing when fewer than 48 bytes are free. */
    method FormatInteger(num: int)
      requires Valid()
      requires INT64_MIN <= num <= UINT64_MAX
      modifies buffer, buffer.data
      ensures Valid()
      ensures buffer.Contents() ==
              if old(buffer.Avail()) >= MAX_NUMERIC_SIZE then old(buffer.Contents()) + Text(num)
              else old(buffer.Contents())
      // at most 21 bytes are written, the terminating NUL included
      ensures forall k :: 0 <= k < old(buffer.cur) || old(buffer.cur) + 21 <= k < buffer.data.Length ==>
                            buffer.data[k] == old(buffer.data[k])
      ensures old(buffer.Avail()) < MAX_NUMERIC_SIZE ==> unchanged(buffer.data)
    {
      if buffer.Avail() >= MAX_NUMERIC_SIZE {
        TextLength(num);
        ghost var was := buffer.data[..];
        var now := WriteInteger(buffer.data, buffer.cur, num);
        OverwrittenInteger(was, buffer.cur, Text(num));
        buffer.cur := buffer.cur + now;
      }
    }
  }
}
