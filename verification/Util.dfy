/** util/util.c: copying between places of one memory that may overlap, and
    printing integers backwards into a fixed buffer. */
module Util {
  import opened Decimal
  import Memory

  type u8 = x: int | 0 <= x < 256

  // ---- memmove, memcpy --------------------------------------------------------

  /** Memory after `len` bytes were moved from `src` to `dst`, as if through a
      copy of their own. */
  function Moved(m: seq<u8>, dst: nat, src: nat, len: nat): (r: seq<u8>)
    requires dst + len <= |m| && src + len <= |m|
    ensures |r| == |m|
  {
    m[..dst] + m[src..src + len] + m[dst + len..]
  }

  lemma MovedAt(m: seq<u8>, dst: nat, src: nat, len: nat, j: nat)
    requires dst + len <= |m| && src + len <= |m| && j < |m|
    ensures Moved(m, dst, src, len)[j] == if dst <= j < dst + len then m[src + (j - dst)] else m[j]
  {
  }

  /** One byte more at either end; going away from the source, the byte to be
      copied next has not been overwritten. */
  lemma MovedMore(m: seq<u8>, dst: nat, src: nat, len: nat)
    requires dst + len < |m| && src + len < |m|
    ensures Moved(m, dst, src, len + 1) == Moved(m, dst, src, len)[dst + len := m[src + len]]
    ensures Moved(m, dst, src, len + 1) == Moved(m, dst + 1, src + 1, len)[dst := m[src]]
    ensures dst <= src ==> Moved(m, dst, src, len)[src + len] == m[src + len]
    ensures dst > src ==> Moved(m, dst + 1, src + 1, len)[src] == m[src]
  {
    hide Moved;
    var more := Moved(m, dst, src, len + 1);
    var low, high := Moved(m, dst, src, len), Moved(m, dst + 1, src + 1, len);
    forall j | 0 <= j < |m|
      ensures more[j] == low[dst + len := m[src + len]][j]
      ensures more[j] == high[dst := m[src]][j]
    {
      MovedAt(m, dst, src, len + 1, j);
      MovedAt(m, dst, src, len, j);
      MovedAt(m, dst + 1, src + 1, len, j);
    }
    if dst <= src { MovedAt(m, dst, src, len, src + len); } else { MovedAt(m, dst + 1, src + 1, len, src); }
  }

  method Memmove(m: array<u8>, dst: nat, src: nat, len: nat) returns (ret: nat)
    requires dst + len <= m.Length && src + len <= m.Length
    modifies m
    ensures m[..] == Moved(old(m[..]), dst, src, len)
    ensures ret == dst
  {
    hide Moved;
    ghost var was := m[..];
    var pos: int := if dst <= src then -1 else len;
    ret := dst;
    var left: nat := len;
    MovedNothing(was, dst, src);
    MovedNothing(was, dst + len, src + len);
    while left > 0
      invariant left <= len && pos == if dst <= src then len - left - 1 else left
      invariant dst <= src ==> m[..] == Moved(was, dst, src, len - left)
      invariant dst > src ==> m[..] == Moved(was, dst + left, src + left, len - left)
    {
      left := left - 1;
      pos := pos + (if dst <= src then 1 else -1);
      if dst <= src {
        MovedMore(was, dst, src, len - left - 1);
      } else {
        MovedMore(was, dst + left, src + left, len - left - 1);
      }
      ghost var before := m[..];
      m[dst + pos] := m[src + pos];
      assert m[..] == before[dst + pos := before[src + pos]];
    }
  }

  lemma MovedNothing(m: seq<u8>, dst: nat, src: nat)
    requires dst <= |m| && src <= |m|
    ensures Moved(m, dst, src, 0) == m
  {
  }

  method Memcpy(m: array<u8>, dst: nat, src: nat, len: nat) returns (ret: nat)
    requires dst + len <= m.Length && src + len <= m.Length
    modifies m
    ensures m[..] == Moved(old(m[..]), dst, src, len)
    ensures ret == dst
  {
    ret := Memmove(m, dst, src, len);
  }

  // ---- int_to_str, ltoa, write_int ---------------------------------------------

  const INTSTR: nat := 21

  /** The digits of `n`, written backwards from the last place but one. */
  method RenderDigits(val: array<char>, n: u64) returns (pos: int, early: bool)
    requires val.Length == INTSTR && |Digits(n)| < INTSTR - 1 && val[INTSTR - 1] == '\0'
    modifies val
    ensures !early && 0 <= pos == INTSTR - 2 - |Digits(n)|
    ensures val[..] == old(val[..])[..pos + 1] + Digits(n) + ['\0']
  {
    hide Digits;
    var rest: u64 := n;
    pos := INTSTR - 2;
    early := false;
    var more := true;
    ghost var done: string := [];
    assert old(val[..]) == old(val[..])[..INTSTR - 1] + [] + ['\0'];
    while more
      invariant 0 <= pos == INTSTR - 2 - |done| && !early
      invariant (if more then Digits(rest) else []) + done == Digits(n)
      invariant val[..] == old(val[..])[..pos + 1] + done + ['\0']
      decreases if more then rest as int + 1 else 0
    {
      DigitsUnfold(rest);
      ghost var before := val[..];
      PutBefore(old(val[..]), pos, DigitChar(rest % 10), done);
      val[pos] := DigitChar(rest % 10);
      assert val[..] == before[pos := DigitChar(rest % 10)];
      done := [DigitChar(rest % 10)] + done;
      pos := pos - 1;
      rest := rest / 10;
      if pos < 0 {
        early := true;
      }
      more := rest != 0 && !early;
    }
  }

  lemma PutBefore(m: string, pos: nat, c: char, done: string)
    requires pos < |m|
    ensures (m[..pos + 1] + done + ['\0'])[pos := c] == m[..pos] + ([c] + done) + ['\0']
  {
  }

  /** Writes `n` backwards into `val` in front of its last place, which gets the
      terminator; `early` is the return for a buffer that is too small. */
  method Render(val: array<char>, n: i64) returns (str: nat, early: bool)
    requires val.Length == INTSTR
    modifies val
    ensures !early && str < INTSTR && val[..] == old(val[..])[..str] + Show(n) + ['\0']
    ensures str == 0 <==> n <= -TEN_TO_18
  {
    hide Digits;
    ShowFits(n);
    MagnitudeOf(n);
    var neg := n < 0;
    val[INTSTR - 1] := '\0';
    var pos;
    pos, early := RenderDigits(val, ToUnsigned(if neg then Negate(n) else n));
    if neg && !early {
      val[pos] := '-';
      pos := pos - 1;
    }
    str := pos + 1;
  }

  /** A buffer of its own for every call. */
  method IntToStr(n: i64) returns (val: array<char>, str: nat)
    ensures fresh(val) && val.Length == INTSTR
    ensures str < INTSTR && val[str..] == Show(n) + ['\0']
    ensures str == 0 <==> n <= -TEN_TO_18
  {
    val := new char[INTSTR](_ => '\0');
    var early;
    str, early := Render(val, n);
  }

  method StrLen(m: array<char>, p: nat) returns (len: nat)
    requires Memory.Terminated(m[..], p)
    ensures len == |Memory.CString(m[..], p)|
  {
    ghost var s := Memory.CString(m[..], p);
    len := 0;
    Memory.TextAt(m[..], p, s, 0);
    while m[p + len] != '\0'
      invariant len <= |s| && p + |s| < m.Length
      invariant m[p + len] == '\0' <==> len == |s|
      decreases |s| - len
    {
      len := len + 1;
      Memory.TextAt(m[..], p, s, len);
    }
  }

  /** The printer and its static buffer, overwritten by every call. */
  class Printer {
    const buffer: array<char>

    constructor ()
      ensures buffer.Length == INTSTR && fresh(buffer)
    {
      buffer := new char[INTSTR](_ => '\0');
    }

    method Ltoa(n: i64) returns (str: nat)
      requires buffer.Length == INTSTR
      modifies buffer
      ensures str < INTSTR && buffer[str..] == Show(n) + ['\0']
      ensures str == 0 <==> n <= -TEN_TO_18
    {
      var early;
      str, early := Render(buffer, n);
    }

    /** What write_int sends to the standard output. */
    method WriteInt(val: u64) returns (output: string)
      requires buffer.Length == INTSTR
      modifies buffer
      ensures output == Show(ToSigned(val))
    {
      var str := Ltoa(ToSigned(val));
      ghost var t := Show(ToSigned(val));
      ShowHasNoNul(ToSigned(val));
      assert buffer[..][str..str + |t|] == buffer[str..][..|t|];
      assert buffer[..][str + |t|] == buffer[str..][|t|];
      Memory.CStringIs(buffer[..], str, t);
      var len := StrLen(buffer, str);
      output := buffer[str..str + len];
    }
  }

  lemma ShowHasNoNul(x: int)
    ensures '\0' !in Show(x)
  {
    DigitsParse(Magnitude(x));
  }

  /** write_int takes an unsigned word: every signed value passed through it is
      printed unchanged, and an unsigned one exactly when it is below 2^63. */
  lemma WriteIntMeaning(x: i64, val: u64)
    ensures Show(ToSigned(ToUnsigned(x))) == Show(x)
    ensures Show(ToSigned(val)) == Show(val) <==> val < HALF64
  {
    SignedRoundTrip(x);
    ShowParses(ToSigned(val));
    ShowParses(val);
  }
}
