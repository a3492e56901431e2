/** The wire format of the Redis serialization protocol, as far as the client writes it: lines ended
    by CR LF, decimal lengths, and commands as arrays of bulk strings. Text is a sequence of bytes. */
module RespWire {
  import opened Options

  // ----- text -----

  predicate BreakAt(s: string, i: int) {
    0 <= i < |s| - 1 && s[i] == '\r' && s[i + 1] == '\n'
  }

  /** `buf.indexOf('\r\n')`. */
  function Find(s: string): (i: int)
    ensures -1 <= i && (i >= 0 ==> BreakAt(s, i))
  {
    if |s| < 2 then -1
    else if BreakAt(s, 0) then 0
    else
      var i := Find(s[1..]);
      if i < 0 then -1 else i + 1
  }

  /** The first line break, or none. */
  lemma {:induction false} FindIsFirst(s: string, j: int)
    requires BreakAt(s, j)
    ensures 0 <= Find(s) <= j
  {
    if !BreakAt(s, 0) {
      assert BreakAt(s[1..], j - 1);
      FindIsFirst(s[1..], j - 1);
    }
  }

  /** What has been found stays where it is when more text arrives. */
  lemma FindExtends(s: string, t: string)
    requires Find(s) >= 0
    ensures Find(s + t) == Find(s)
    ensures (s + t)[..Find(s)] == s[..Find(s)]
    ensures (s + t)[Find(s) + 2..] == s[Find(s) + 2..] + t
  {
    var i := Find(s);
    assert BreakAt(s + t, i);
    FindIsFirst(s + t, i);
    assert BreakAt(s, Find(s + t));
    FindIsFirst(s, Find(s + t));
  }

  // ----- commands -----

  function Decimal(n: nat): string {
    if n < 10 then [Digit(n)] else Decimal(n / 10) + [Digit(n % 10)]
  }

  function Digit(d: nat): char
    requires d < 10
  {
    '0' + d as char
  }

  function Header(mark: char, n: nat): string {
    [mark] + Decimal(n) + "\r\n"
  }

  function EncodeArg(a: string): string {
    Header('$', |a|) + a + "\r\n"
  }

  function EncodeArgs(args: seq<string>): string {
    if args == [] then "" else EncodeArg(args[0]) + EncodeArgs(args[1..])
  }

  /** A command as a RESP array of bulk strings. */
  function Encode(args: seq<string>): string {
    Header('*', |args|) + EncodeArgs(args)
  }

  // ----- reading commands back -----

  predicate IsDigit(c: char) {
    '0' <= c <= '9'
  }

  /** The number a string of digits denotes. */
  function Value(s: string): Option<nat> {
    if s == "" || !IsDigit(s[|s| - 1]) then None
    else
      var d := (s[|s| - 1] - '0') as nat;
      if |s| == 1 then Some(d)
      else
        var v := Value(s[..|s| - 1]);
        if v.None? then None else Some(10 * v.value + d)
  }

  /** A header line with the given mark, as a server reads it. */
  function ReadHeader(mark: char, s: string): Option<(nat, string)> {
    var i := Find(s);
    if i < 1 || s[0] != mark then None
    else
      var n := Value(s[1..i]);
      if n.None? then None else Some((n.value, s[i + 2..]))
  }

  /** A bulk string: its length, that many bytes, and a line break. */
  function ReadArg(s: string): Option<(string, string)> {
    var h := ReadHeader('$', s);
    if h.None? then None
    else
      var (n, rest) := h.value;
      if BreakAt(rest, n) then Some((rest[..n], rest[n + 2..])) else None
  }

  function ReadArgs(n: nat, s: string): Option<(seq<string>, string)> {
    if n == 0 then Some(([], s))
    else
      var a := ReadArg(s);
      if a.None? then None
      else
        var more := ReadArgs(n - 1, a.value.1);
        if more.None? then None else Some(([a.value.0] + more.value.0, more.value.1))
  }

  function ReadCommand(s: string): Option<(seq<string>, string)> {
    var h := ReadHeader('*', s);
    if h.None? then None else ReadArgs(h.value.0, h.value.1)
  }

  lemma {:induction false} DecimalValue(n: nat)
    ensures Value(Decimal(n)) == Some(n)
    ensures forall i :: 0 <= i < |Decimal(n)| ==> IsDigit(Decimal(n)[i])
  {
    if n >= 10 {
      DecimalValue(n / 10);
      assert Decimal(n)[..|Decimal(n)| - 1] == Decimal(n / 10);
    }
  }

  lemma HeaderRead(mark: char, n: nat, t: string)
    requires mark != '\r'
    ensures ReadHeader(mark, Header(mark, n) + t) == Some((n, t))
  {
    var s, d := Header(mark, n) + t, Decimal(n);
    DecimalValue(n);
    assert s == [mark] + d + ['\r', '\n'] + t;
    assert BreakAt(s, |d| + 1);
    FindIsFirst(s, |d| + 1);
    assert forall i :: 0 < i <= |d| ==> s[i] == d[i - 1];
    assert s[1..|d| + 1] == d;
    assert s[|d| + 3..] == t;
  }

  lemma ArgRead(a: string, t: string)
    ensures ReadArg(EncodeArg(a) + t) == Some((a, t))
  {
    var rest := a + "\r\n" + t;
    assert EncodeArg(a) + t == Header('$', |a|) + rest;
    HeaderRead('$', |a|, rest);
    assert rest[..|a|] == a && rest[|a| + 2..] == t;
  }

  lemma Regroup(a: string, b: string, c: string)
    ensures (a + b) + c == a + (b + c)
  {}

  lemma {:induction false} ArgsRead(args: seq<string>, t: string)
    ensures ReadArgs(|args|, EncodeArgs(args) + t) == Some((args, t))
  {
    if args == [] {
      assert EncodeArgs(args) + t == t;
    } else {
      var more := EncodeArgs(args[1..]) + t;
      Regroup(EncodeArg(args[0]), EncodeArgs(args[1..]), t);
      ArgRead(args[0], more);
      ArgsRead(args[1..], t);
      assert args == [args[0]] + args[1..];
    }
  }

  /** A server reads back exactly the arguments, whatever bytes they hold, and stops at the end of the
      command, so pipelined commands do not run into each other. */
  lemma CommandRead(args: seq<string>, t: string)
    ensures ReadCommand(Encode(args) + t) == Some((args, t))
  {
    var rest := EncodeArgs(args) + t;
    assert Encode(args) + t == Header('*', |args|) + rest;
    HeaderRead('*', |args|, rest);
    ArgsRead(args, t);
  }
}
