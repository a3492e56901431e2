/** The client against a server: what the server means by its replies is what the commands get. */
module RespReplies {
  import opened RespWire
  import opened RespClient

  // ----- outcomes over a run -----

  /** Pending, or timed out, or the reply at its own place. */
  predicate Own(o: Outcome, replies: seq<Reply>, i: nat, expired: bool) {
    match o
    case Pending => true
    case Resolved(r) => i < |replies| && r == replies[i]
    case Rejected(e) => e == TIMED_OUT && expired
  }

  lemma OwnAfterEvent(number: string -> Numeral, h: Ledger, e: Event, i: nat, expired: bool)
    requires |h.outcome| == |h.sent| && i < |h.sent|
    requires Own(h.outcome[i], Replies(number, h.stream), i, expired)
    ensures var r := Record(number, h, e);
            && r.sent[i] == h.sent[i]
            && Own(r.outcome[i], Replies(number, r.stream), i, expired || e == Timeout(h.sent[i]))
  {
    if e.Data? {
      ReadingResumes(number, h.stream, e.chunk);
    }
  }

  /** A command sent is pending, timed out, or holds its own reply of the whole stream. */
  lemma {:induction false} OutcomeIsOwnReply(number: string -> Numeral, trace: seq<Event>, i: nat)
    requires i < |History(number, trace).sent|
    ensures var h := History(number, trace);
            Own(h.outcome[i], Replies(number, h.stream), i, Timeout(h.sent[i]) in trace)
  {
    if trace != [] {
      var front, e := trace[..|trace| - 1], trace[|trace| - 1];
      var h := History(number, front);
      if i < |h.sent| {
        OutcomeIsOwnReply(number, front, i);
        OwnAfterEvent(number, h, e, i, Timeout(h.sent[i]) in front);
        InFrontOrLast(trace, Timeout(h.sent[i]));
      } else {
        NewIsPending(number, h, e, i);
      }
    }
  }

  lemma InFrontOrLast(trace: seq<Event>, x: Event)
    requires trace != []
    ensures x in trace <==> x in trace[..|trace| - 1] || x == trace[|trace| - 1]
  {
    assert trace == trace[..|trace| - 1] + [trace[|trace| - 1]];
  }

  lemma NewIsPending(number: string -> Numeral, h: Ledger, e: Event, i: nat)
    requires |h.outcome| == |h.sent| <= i < |Record(number, h, e).sent|
    ensures Record(number, h, e).outcome[i] == Pending
  {}

  /** Every command sent gets the reply at its own place in the unfragmented stream, whatever the
      fragmentation and whatever the other commands' timeouts. */
  lemma CommandGetsItsReply(number: string -> Numeral, trace: seq<Event>, i: nat)
    requires AlwaysOrderly(number, trace)
    requires i < |History(number, trace).sent|
    ensures var h := History(number, trace);
            var replies := Replies(number, h.stream);
            && h.sent[i] < |Run(number, trace).promises|
            && var o := Run(number, trace).promises[h.sent[i]];
               && (Timeout(h.sent[i]) !in trace ==> o == if i < |replies| then Resolved(replies[i]) else Pending)
               && (o.Resolved? ==> i < |replies| && o.reply == replies[i])
               && (o.Rejected? ==> o.error == TIMED_OUT && Timeout(h.sent[i]) in trace)
  {
    RunInStep(number, trace);
    OutcomeIsOwnReply(number, trace, i);
  }

  /** Cutting the same stream differently makes no difference to commands that do not time out. */
  lemma FragmentationIrrelevant(number: string -> Numeral, one: seq<Event>, two: seq<Event>, i: nat)
    requires AlwaysOrderly(number, one) && AlwaysOrderly(number, two)
    requires History(number, one).stream == History(number, two).stream
    requires History(number, one).sent == History(number, two).sent && i < |History(number, one).sent|
    requires Timeout(History(number, one).sent[i]) !in one && Timeout(History(number, one).sent[i]) !in two
    ensures var p := History(number, one).sent[i];
            && p < |Run(number, one).promises| && p < |Run(number, two).promises|
            && Run(number, one).promises[p] == Run(number, two).promises[p]
  {
    CommandGetsItsReply(number, one, i);
    CommandGetsItsReply(number, two, i);
  }

  // ----- what a server sends -----

  datatype Wire = Simple(text: string) | Failure(text: string) | Integer(n: int) | Bulk(data: string) | NullBulk

  function Signed(n: int): string {
    if n < 0 then "-" + Decimal(-n) else Decimal(n)
  }

  function FirstLine(w: Wire): string {
    match w
    case Simple(text) => "+" + text
    case Failure(text) => "-" + text
    case Integer(n) => ":" + Signed(n)
    case Bulk(data) => "$" + Decimal(|data|)
    case NullBulk => "$-1"
  }

  function Serialize(w: Wire): string {
    FirstLine(w) + "\r\n" + if w.Bulk? then w.data + "\r\n" else ""
  }

  function SerializeAll(ws: seq<Wire>): string {
    if ws == [] then "" else Serialize(ws[0]) + SerializeAll(ws[1..])
  }

  /** What the client makes of a reply: status and error lines keep their mark and both resolve. */
  function Meaning(w: Wire): Reply {
    match w
    case Simple(text) => Text("+" + text)
    case Failure(text) => Text("-" + text)
    case Integer(n) => Number(Finite(n as real))
    case Bulk(data) => Text(data)
    case NullBulk => Null
  }

  function Meanings(ws: seq<Wire>): (r: seq<Reply>)
    ensures |r| == |ws|
  {
    seq(|ws|, i requires 0 <= i < |ws| => Meaning(ws[i]))
  }

  /** `Number` reads the integers this reply holds: its value, or the length in its header. */
  predicate ReadsReply(number: string -> Numeral, w: Wire) {
    match w
    case Integer(n) => number(Signed(n)) == Finite(n as real)
    case Bulk(data) => !Negative(number(Decimal(|data|)))
    case NullBulk => Negative(number("-1"))
    case _ => true
  }

  ghost predicate ReadsAll(number: string -> Numeral, ws: seq<Wire>) {
    forall i :: 0 <= i < |ws| ==> ReadsReply(number, ws[i])
  }

  /** No line break inside a text. */
  predicate Unbroken(s: string) {
    Find(s) < 0
  }

  predicate Clean(w: Wire) {
    match w
    case Simple(text) => Unbroken(text)
    case Failure(text) => Unbroken(text)
    case Integer(_) => true
    case Bulk(data) => Unbroken(data)
    case NullBulk => true
  }

  lemma FindBehind(s: string, t: string)
    requires Unbroken(s)
    ensures Find(s + "\r\n" + t) == |s|
    ensures (s + "\r\n" + t)[..|s|] == s && (s + "\r\n" + t)[|s| + 2..] == t
  {
    var all := s + "\r\n" + t;
    assert BreakAt(all, |s|);
    FindIsFirst(all, |s|);
    var i := Find(all);
    if i < |s| - 1 {
      assert BreakAt(s, i);
      FindIsFirst(s, i);
    }
  }

  lemma UnbrokenDigits(s: string)
    requires forall i :: 0 < i < |s| ==> s[i] != '\n'
    ensures Unbroken(s)
  {}

  lemma SignedIsUnbroken(mark: char, n: int)
    ensures Unbroken([mark] + Signed(n))
  {
    DecimalValue(if n < 0 then -n else n);
    UnbrokenDigits([mark] + Signed(n));
  }

  lemma MarkedIsUnbroken(mark: char, text: string)
    requires mark != '\r' && Unbroken(text)
    ensures Unbroken([mark] + text)
  {
    assert ([mark] + text)[1..] == text;
  }

  lemma FirstLineUnbroken(w: Wire)
    requires Clean(w)
    ensures Unbroken(FirstLine(w))
  {
    match w
    case Simple(text) => MarkedIsUnbroken('+', text);
    case Failure(text) => MarkedIsUnbroken('-', text);
    case Integer(n) => SignedIsUnbroken(':', n);
    case Bulk(data) => SignedIsUnbroken('$', |data|);
    case NullBulk => UnbrokenDigits("$-1");
  }

  lemma FirstLineReply(number: string -> Numeral, w: Wire)
    requires ReadsReply(number, w)
    ensures IsBulk(number, FirstLine(w)) <==> w.Bulk?
    ensures !w.Bulk? ==> LineReply(number, FirstLine(w)) == Meaning(w)
  {
    var line := FirstLine(w);
    match w
    case Simple(_) =>
    case Failure(_) =>
    case Integer(n) => assert line[1..] == Signed(n);
    case Bulk(data) => assert line[1..] == Decimal(|data|);
    case NullBulk => assert line[1..] == "-1";
  }

  lemma ReplyRead(number: string -> Numeral, w: Wire, t: string)
    requires ReadsReply(number, w) && Clean(w)
    ensures First(number, Serialize(w) + t) == Complete(Meaning(w), t)
  {
    var line, tail := FirstLine(w), (if w.Bulk? then w.data + "\r\n" else "") + t;
    assert Serialize(w) + t == line + "\r\n" + tail;
    FirstLineUnbroken(w);
    FindBehind(line, tail);
    FirstLineReply(number, w);
    if w.Bulk? {
      assert tail == w.data + "\r\n" + t;
      FindBehind(w.data, t);
    } else {
      assert tail == t;
    }
  }

  ghost predicate AllClean(ws: seq<Wire>) {
    forall i :: 0 <= i < |ws| ==> Clean(ws[i])
  }

  lemma FirstOfServer(number: string -> Numeral, ws: seq<Wire>)
    requires ReadsAll(number, ws) && AllClean(ws) && ws != []
    ensures Replies(number, SerializeAll(ws)) == [Meaning(ws[0])] + Replies(number, SerializeAll(ws[1..]))
    ensures Remainder(number, SerializeAll(ws)) == Remainder(number, SerializeAll(ws[1..]))
  {
    ReplyRead(number, ws[0], SerializeAll(ws[1..]));
  }

  lemma MeaningsFrom(ws: seq<Wire>)
    requires ws != []
    ensures Meanings(ws) == [Meaning(ws[0])] + Meanings(ws[1..])
  {}

  /** The client's way of reading recovers every reply of a server whose texts hold no line break. */
  lemma {:induction false} ServerRead(number: string -> Numeral, ws: seq<Wire>)
    requires ReadsAll(number, ws) && AllClean(ws)
    ensures Replies(number, SerializeAll(ws)) == Meanings(ws)
    ensures Remainder(number, SerializeAll(ws)) == ""
  {
    if ws != [] {
      FirstOfServer(number, ws);
      ServerRead(number, ws[1..]);
      MeaningsFrom(ws);
    }
  }

  /** A bulk string is read back exactly when it holds no line break: the length in its header is
      not used. */
  lemma BulkReadIff(number: string -> Numeral, data: string, t: string)
    requires ReadsReply(number, Bulk(data))
    ensures First(number, Serialize(Bulk(data)) + t).Complete?
    ensures First(number, Serialize(Bulk(data)) + t) == Complete(Text(data), t) <==> Unbroken(data)
  {
    var w := Bulk(data);
    if Unbroken(data) {
      ReplyRead(number, w, t);
    } else {
      var line, tail := FirstLine(w), data + "\r\n" + t;
      assert Serialize(w) + t == line + "\r\n" + tail;
      SignedIsUnbroken('$', |data|);
      FindBehind(line, tail);
      FirstLineReply(number, w);
      FindExtends(data, "\r\n" + t);
      assert data + ("\r\n" + t) == tail;
    }
  }

  /** Of the length in a bulk header only the sign is looked at; a header without a number counts as one
      with a length. */
  lemma HeaderSign(number: string -> Numeral, text: string, data: string, t: string)
    requires Unbroken("$" + text) && Unbroken(data)
    ensures var absent := match number(text) case NaN => false case Infinity(negative) => negative case Finite(v) => v < 0.0;
            First(number, "$" + text + "\r\n" + (data + "\r\n" + t))
            == if absent then Complete(Null, data + "\r\n" + t) else Complete(Text(data), t)
  {
    var line, tail := "$" + text, data + "\r\n" + t;
    FindBehind(line, tail);
    FindBehind(data, t);
    assert line[1..] == text;
  }

  /** A text that holds a line break, but no complete reply, is a bulk header and part of its payload. */
  lemma StarvedMeans(number: string -> Numeral, s: string)
    requires First(number, s).Incomplete?
    ensures Starved(s) <==> exists got :: Headed(number, s, got) && Unbroken(got)
  {
    if Starved(s) {
      assert Headed(number, s, s[Find(s) + 2..]);
    }
  }

  /** Integers, status lines, errors and null replies, with no line break inside. */
  ghost predicate LinesOnly(ws: seq<Wire>) {
    forall i :: 0 <= i < |ws| ==> Clean(ws[i]) && !ws[i].Bulk?
  }

  /** Line replies never leave a bulk header behind, wherever the stream is cut. */
  lemma {:induction false} LinesNeverStarve(number: string -> Numeral, ws: seq<Wire>, s: string, more: string)
    requires ReadsAll(number, ws) && LinesOnly(ws)
    requires s + more == SerializeAll(ws)
    ensures !Starved(Remainder(number, s))
  {
    if ws == [] {
      assert |s| == 0;
    } else {
      ReplyRead(number, ws[0], SerializeAll(ws[1..]));
      if First(number, s).Complete? {
        FirstExtends(number, s, more);
        LinesNeverStarve(number, ws[1..], First(number, s).rest, more);
      } else if Find(s) >= 0 {
        LineIsComplete(number, ws, s, more);
      }
    }
  }

  lemma LineThenRest(ws: seq<Wire>)
    requires ws != [] && !ws[0].Bulk?
    ensures SerializeAll(ws) == FirstLine(ws[0]) + "\r\n" + SerializeAll(ws[1..])
  {
    assert FirstLine(ws[0]) + "\r\n" + "" == FirstLine(ws[0]) + "\r\n";
  }

  lemma LineIsComplete(number: string -> Numeral, ws: seq<Wire>, s: string, more: string)
    requires ReadsAll(number, ws) && ws != [] && Clean(ws[0]) && !ws[0].Bulk?
    requires s + more == SerializeAll(ws) && Find(s) >= 0
    ensures First(number, s).Complete?
  {
    var line, tail := FirstLine(ws[0]), SerializeAll(ws[1..]);
    LineThenRest(ws);
    FirstLineUnbroken(ws[0]);
    FindBehind(line, tail);
    FirstLineReply(number, ws[0]);
    FindExtends(s, more);
  }

  // ----- client and server together -----

  lemma {:induction false} StreamGrows(number: string -> Numeral, trace: seq<Event>, n: nat) returns (more: string)
    requires n <= |trace|
    ensures History(number, trace[..n]).stream + more == History(number, trace).stream
  {
    if n == |trace| {
      assert trace[..n] == trace;
      more := "";
    } else {
      var front, e := trace[..|trace| - 1], trace[|trace| - 1];
      assert front[..n] == trace[..n];
      var some := StreamGrows(number, front, n);
      more := some + if e.Data? then e.chunk else "";
    }
  }

  /** The server never answers a command that was not sent. */
  ghost predicate NeverEarly(number: string -> Numeral, trace: seq<Event>) {
    forall n :: 0 <= n <= |trace| ==>
      |Replies(number, History(number, trace[..n]).stream)| <= |History(number, trace[..n]).sent|
  }

  lemma LinesAreOrderly(number: string -> Numeral, trace: seq<Event>, ws: seq<Wire>, more: string)
    requires ReadsAll(number, ws) && NeverEarly(number, trace) && LinesOnly(ws)
    requires History(number, trace).stream + more == SerializeAll(ws)
    ensures AlwaysOrderly(number, trace)
  {
    forall n | 0 <= n <= |trace| ensures Orderly(number, History(number, trace[..n])) {
      var some := StreamGrows(number, trace, n);
      LinesNeverStarveInside(number, ws, History(number, trace[..n]).stream, some, more);
    }
  }

  lemma LinesNeverStarveInside(number: string -> Numeral, ws: seq<Wire>, s: string, some: string, more: string)
    requires ReadsAll(number, ws) && LinesOnly(ws)
    requires (s + some) + more == SerializeAll(ws)
    ensures !Starved(Remainder(number, s))
  {
    Regroup(s, some, more);
    LinesNeverStarve(number, ws, s, some + more);
  }

  /** What has been received reads as the first of the server's replies. */
  lemma ReadSoFar(number: string -> Numeral, s: string, more: string, ws: seq<Wire>)
    requires ReadsAll(number, ws) && LinesOnly(ws) && s + more == SerializeAll(ws)
    ensures Replies(number, s) <= Meanings(ws)
    ensures more == "" ==> Replies(number, s) == Meanings(ws)
  {
    ServerRead(number, ws);
    ReadingResumes(number, s, more);
    if more == "" {
      assert s + more == s;
    }
  }

  /** For line replies: the i-th command sent resolves with the i-th reply of the server and nothing
      else, under every fragmentation and all timeouts. */
  lemma LineRepliesInOrder(number: string -> Numeral, trace: seq<Event>, ws: seq<Wire>, more: string, i: nat)
    requires ReadsAll(number, ws) && NeverEarly(number, trace) && LinesOnly(ws)
    requires History(number, trace).stream + more == SerializeAll(ws)
    requires i < |History(number, trace).sent|
    ensures var h := History(number, trace);
            && h.sent[i] < |Run(number, trace).promises|
            && var o := Run(number, trace).promises[h.sent[i]];
               && (o.Resolved? ==> i < |ws| && o.reply == Meaning(ws[i]))
               && (o.Rejected? ==> o.error == TIMED_OUT && Timeout(h.sent[i]) in trace)
               && (more == "" && i < |ws| && Timeout(h.sent[i]) !in trace ==> o == Resolved(Meaning(ws[i])))
  {
    LinesAreOrderly(number, trace, ws, more);
    CommandGetsItsReply(number, trace, i);
    ReadSoFar(number, History(number, trace).stream, more, ws);
  }

  // ----- a bulk reply cut behind its header -----

  lemma {:induction false} DrainKeepsSettled(number: string -> Numeral, c: Client, p: nat)
    requires p < |c.promises| && !c.promises[p].Pending?
    ensures p < |Drain(number, c).promises| && Drain(number, c).promises[p] == c.promises[p]
    decreases |c.buf|
  {
    if Find(c.buf) >= 0 {
      DrainKeepsSettled(number, Consume(number, c), p);
    }
  }

  /** The text begins with a bulk header, and `rest` is what follows it. */
  predicate Headed(number: string -> Numeral, s: string, rest: string) {
    Find(s) >= 0 && IsBulk(number, s[..Find(s)]) && s[Find(s) + 2..] == rest
  }

  predicate Waiting(c: Client) {
    c.queue != [] && c.queue[0] < |c.promises| && c.promises[c.queue[0]].Pending?
  }

  /** The waiter of a bulk reply gets the text up to where the next line break is found. */
  lemma BulkTaken(number: string -> Numeral, c: Client, rest: string)
    requires Waiting(c) && Headed(number, c.buf, rest)
    ensures var p := c.queue[0];
            && p < |Drain(number, c).promises|
            && Drain(number, c).promises[p] == Resolved(Text(Slice(rest, 0, Find(rest))))
  {
    DrainKeepsSettled(number, Consume(number, c), c.queue[0]);
  }

  /** Where a bulk reply is cut behind its header, with `got` of its payload received, the waiter
      gets the payload exactly when all of it and its CR had arrived, or it is empty and nothing had. */
  lemma BulkCutExactly(number: string -> Numeral, c: Client, first: string, got: string, later: string)
    requires Waiting(c) && c.buf == "" && Headed(number, first, got)
    requires Unbroken(got) && Find(got + later) >= 0
    ensures var p := c.queue[0];
            var cut := Next(number, Next(number, c, Data(first)), Data(later));
            var whole := Next(number, c, Data(first + later));
            && p < |cut.promises| && p < |whole.promises|
            && whole.promises[p] == Resolved(Text((got + later)[..Find(got + later)]))
            && (cut.promises[p] == whole.promises[p] <==> Find(got + later) == if got == "" then 0 else |got| - 1)
  {
    FedWhenEmpty(number, c, first, got);
    DataKeepsSettled(number, Next(number, c, Data(first)), later, c.queue[0]);
    HeadedExtends(number, first, got, later);
    FedWhenEmpty(number, c, first + later, got + later);
    CutText(got, later);
  }

  /** What a cut behind the header leaves in the buffer: the part of the payload received, without its
      first character. */
  function Residue(got: string): string {
    if got == "" then "" else got[1..]
  }

  lemma CutLeavesResidue(number: string -> Numeral, c: Client, first: string, got: string)
    requires Waiting(c) && c.buf == "" && Headed(number, first, got) && Unbroken(got)
    ensures var mid := Next(number, c, Data(first));
            && mid.buf == Residue(got) && mid.queue == c.queue[1..]
            && mid.promises == c.promises[c.queue[0] := Resolved(Text(Slice(got, 0, -1)))]
  {
    assert c.buf + first == first;
    ConsumeCut(number, c.(buf := first), got);
    UnbrokenResidue(got);
    DrainStops(number, Consume(number, c.(buf := first)));
  }

  lemma DrainStops(number: string -> Numeral, c: Client)
    requires Find(c.buf) < 0
    ensures Drain(number, c) == c
  {}

  lemma ConsumeCut(number: string -> Numeral, c: Client, got: string)
    requires Waiting(c) && Headed(number, c.buf, got) && Unbroken(got)
    ensures Consume(number, c) == c.(buf := Residue(got), queue := c.queue[1..],
                                     promises := c.promises[c.queue[0] := Resolved(Text(Slice(got, 0, -1)))])
    ensures Drain(number, c) == Drain(number, Consume(number, c))
  {
    CutSlices(got);
  }

  lemma CutSlices(got: string)
    ensures Slice(got, 1, |got|) == Residue(got)
  {}

  lemma UnbrokenResidue(got: string)
    requires Unbroken(got)
    ensures Unbroken(Residue(got))
  {
    var s := Residue(got);
    if Find(s) >= 0 {
      assert BreakAt(got, Find(s) + 1);
      FindIsFirst(got, Find(s) + 1);
    }
  }

  /** The residue of a cut bulk reply is read as the reply to the next command. */
  lemma ResidueGoesToNext(number: string -> Numeral, c: Client, first: string, got: string, later: string)
    requires Waiting(c) && c.buf == "" && Headed(number, first, got) && Unbroken(got)
    requires |c.queue| >= 2 && c.queue[1] != c.queue[0] && c.queue[1] < |c.promises| && c.promises[c.queue[1]].Pending?
    requires Find(Residue(got) + later) >= 0
    ensures var s, p := Residue(got) + later, c.queue[1];
            var cut := Next(number, Next(number, c, Data(first)), Data(later));
            && p < |cut.promises|
            && cut.promises[p] == Resolved(Take(number, s[..Find(s)], s[Find(s) + 2..]).0)
  {
    CutLeavesResidue(number, c, first, got);
    var mid := Next(number, c, Data(first));
    FirstWaiterTakes(number, mid.(buf := mid.buf + later));
  }

  lemma FirstWaiterTakes(number: string -> Numeral, c: Client)
    requires Waiting(c) && Find(c.buf) >= 0
    ensures var p, i := c.queue[0], Find(c.buf);
            && p < |Drain(number, c).promises|
            && Drain(number, c).promises[p] == Resolved(Take(number, c.buf[..i], c.buf[i + 2..]).0)
  {
    DrainKeepsSettled(number, Consume(number, c), c.queue[0]);
  }

  /** Even where the cut falls between the CR and the LF behind the payload, so that its own command gets
      all of it, the next command gets the payload once more, without its first character. */
  lemma GoodCutSpoilsNext(number: string -> Numeral, c: Client, first: string, payload: string, later: string)
    requires Waiting(c) && c.buf == "" && payload != "" && Headed(number, first, payload + "\r") && Unbroken(payload + "\r")
    requires |c.queue| >= 2 && c.queue[1] != c.queue[0] && c.queue[1] < |c.promises| && c.promises[c.queue[1]].Pending?
    requires !IsBulk(number, payload[1..])
    ensures var cut := Next(number, Next(number, c, Data(first)), Data("\n" + later));
            && c.queue[0] < |cut.promises| && cut.promises[c.queue[0]] == Resolved(Text(payload))
            && c.queue[1] < |cut.promises| && cut.promises[c.queue[1]] == Resolved(LineReply(number, payload[1..]))
  {
    var got := payload + "\r";
    SplitBreak(payload, later);
    CutLeavesResidue(number, c, first, got);
    assert Slice(got, 0, -1) == payload;
    DataKeepsSettled(number, Next(number, c, Data(first)), "\n" + later, c.queue[0]);
    ResidueGoesToNext(number, c, first, got, "\n" + later);
  }

  /** The residue and the LF form a line again. */
  lemma SplitBreak(payload: string, later: string)
    requires payload != "" && Unbroken(payload + "\r")
    ensures var s := Residue(payload + "\r") + ("\n" + later);
            Find(s) == |payload| - 1 && s[..Find(s)] == payload[1..]
  {
    var t := payload[1..];
    UnbrokenResidue(payload + "\r");
    assert Residue(payload + "\r") == t + "\r";
    if Find(t) >= 0 {
      FindExtends(t, "\r");
    }
    assert (t + "\r") + ("\n" + later) == t + "\r\n" + later;
    FindBehind(t, later);
  }

  lemma DataKeepsSettled(number: string -> Numeral, c: Client, chunk: string, p: nat)
    requires p < |c.promises| && !c.promises[p].Pending?
    ensures var fed := Next(number, c, Data(chunk)); p < |fed.promises| && fed.promises[p] == c.promises[p]
  {
    DrainKeepsSettled(number, c.(buf := c.buf + chunk), p);
  }

  lemma HeadedExtends(number: string -> Numeral, s: string, rest: string, t: string)
    requires Headed(number, s, rest)
    ensures Headed(number, s + t, rest + t)
  {
    FindExtends(s, t);
  }

  lemma FedWhenEmpty(number: string -> Numeral, c: Client, chunk: string, rest: string)
    requires Waiting(c) && c.buf == "" && Headed(number, chunk, rest)
    ensures var p := c.queue[0];
            var fed := Next(number, c, Data(chunk));
            p < |fed.promises| && fed.promises[p] == Resolved(Text(Slice(rest, 0, Find(rest))))
  {
    assert c.buf + chunk == chunk;
    BulkTaken(number, c.(buf := c.buf + chunk), rest);
  }

  lemma CutText(got: string, later: string)
    requires Unbroken(got) && Find(got + later) >= 0
    ensures var d := Find(got + later);
            && Slice(got + later, 0, d) == (got + later)[..d]
            && (Slice(got, 0, Find(got)) == (got + later)[..d] <==> d == if got == "" then 0 else |got| - 1)
  {
    var d := Find(got + later);
    NoEarlierBreak(got, later);
    if d == |got| - 1 {
      assert (got + later)[..d] == got[..d];
    }
  }

  lemma NoEarlierBreak(got: string, later: string)
    requires Unbroken(got) && Find(got + later) >= 0
    ensures Find(got + later) >= |got| - 1
  {
    var d := Find(got + later);
    if d < |got| - 1 {
      assert BreakAt(got, d);
      FindIsFirst(got, d);
    }
  }
}
