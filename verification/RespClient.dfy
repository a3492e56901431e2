/** The pipelined Redis client: replies arrive in arbitrary chunks and are handed to the waiting
    commands in order, while every command may time out on its own. */
module RespClient {

  import opened RespWire

  /** `Number(text)`, a parameter of the model. */
  datatype Numeral = NaN | Infinity(negative: bool) | Finite(value: real)

  predicate Negative(n: Numeral) {
    match n
    case NaN => false
    case Infinity(negative) => negative
    case Finite(value) => value < 0.0
  }

  datatype Reply = Number(value: Numeral) | Null | Text(text: string)

  predicate IsBulk(number: string -> Numeral, line: string) {
    |line| > 0 && line[0] == '$' && !Negative(number(line[1..]))
  }

  // ----- the reference: reading a stream as a whole -----

  /** The reply of a line that is complete in itself. */
  function LineReply(number: string -> Numeral, line: string): Reply {
    if |line| > 0 && line[0] == ':' then Number(number(line[1..]))
    else if |line| > 0 && line[0] == '$' then Null
    else Text(line)
  }

  datatype Reading = Incomplete | Complete(reply: Reply, rest: string)

  /** The first reply of a stream, if all of it is there. */
  function First(number: string -> Numeral, s: string): (r: Reading)
    ensures r.Complete? ==> |r.rest| < |s|
  {
    var i := Find(s);
    if i < 0 then Incomplete
    else
      var line, rest := s[..i], s[i + 2..];
      if !IsBulk(number, line) then Complete(LineReply(number, line), rest)
      else
        var d := Find(rest);
        if d < 0 then Incomplete else Complete(Text(rest[..d]), rest[d + 2..])
  }

  function Replies(number: string -> Numeral, s: string): seq<Reply>
    decreases |s|
  {
    var r := First(number, s);
    if r.Complete? then [r.reply] + Replies(number, r.rest) else []
  }

  function Remainder(number: string -> Numeral, s: string): (rest: string)
    ensures First(number, rest).Incomplete?
    decreases |s|
  {
    var r := First(number, s);
    if r.Complete? then Remainder(number, r.rest) else s
  }

  lemma FirstExtends(number: string -> Numeral, s: string, t: string)
    requires First(number, s).Complete?
    ensures First(number, s + t) == Complete(First(number, s).reply, First(number, s).rest + t)
  {
    var i := Find(s);
    var rest := s[i + 2..];
    FindExtends(s, t);
    if IsBulk(number, s[..i]) {
      FindExtends(rest, t);
    }
  }

  /** Reading may stop anywhere and go on later. */
  lemma {:induction false} ReadingResumes(number: string -> Numeral, s: string, t: string)
    ensures Replies(number, s + t) == Replies(number, s) + Replies(number, Remainder(number, s) + t)
    ensures Remainder(number, s + t) == Remainder(number, Remainder(number, s) + t)
    decreases |s|
  {
    var r := First(number, s);
    if r.Complete? {
      FirstExtends(number, s, t);
      ReadingResumes(number, r.rest, t);
    }
  }

  // ----- the client's state -----

  datatype Outcome = Pending | Resolved(reply: Reply) | Rejected(error: string)

  const NOT_CONNECTED := "redis not connected"
  const TIMED_OUT := "redis cmd timeout"

  /** A promise keeps its first outcome. */
  function Settle(promises: seq<Outcome>, p: nat, o: Outcome): (r: seq<Outcome>)
    ensures |r| == |promises|
  {
    if p < |promises| && promises[p].Pending? then promises[p := o] else promises
  }

  /** The client; promises are numbered in the order of the `cmd` calls, the queue holds numbers. */
  datatype Client = Client(connected: bool, buf: string, queue: seq<nat>, promises: seq<Outcome>)

  /** `s.slice(from, to)`: negative positions count from the end, others are cut to the length. */
  function Slice(s: string, from: int, to: int): (r: string)
    ensures |r| <= |s|
  {
    var a, b := Place(from, |s|), Place(to, |s|);
    if a <= b then s[a..b] else ""
  }

  function Place(i: int, n: nat): (p: nat)
    ensures p <= n
  {
    if i < 0 then (if i + n < 0 then 0 else i + n) else if i > n then n else i
  }

  /** What the data handler makes of one line and the text behind it; `indexOf` may be -1. */
  function Take(number: string -> Numeral, line: string, rest: string): (r: (Reply, string))
    ensures |r.1| <= |rest|
  {
    if !IsBulk(number, line) then (LineReply(number, line), rest)
    else
      var d := Find(rest);
      (Text(Slice(rest, 0, d)), Slice(rest, d + 2, |rest|))
  }

  /** One iteration of the handler's loop. */
  function Consume(number: string -> Numeral, c: Client): (r: Client)
    requires Find(c.buf) >= 0
    ensures |r.buf| < |c.buf|
  {
    var i := Find(c.buf);
    var line, rest := c.buf[..i], c.buf[i + 2..];
    if c.queue == [] then c.(buf := rest)
    else
      var (reply, after) := Take(number, line, rest);
      c.(buf := after, queue := c.queue[1..], promises := Settle(c.promises, c.queue[0], Resolved(reply)))
  }

  function Drain(number: string -> Numeral, c: Client): Client
    decreases |c.buf|
  {
    if Find(c.buf) < 0 then c else Drain(number, Consume(number, c))
  }

  datatype Event = Connect | Disconnect | Command | Data(chunk: string) | Timeout(p: nat)

  function Next(number: string -> Numeral, c: Client, e: Event): Client {
    match e
    case Connect => c.(connected := true)
    case Disconnect => c.(connected := false)
    case Command =>
      if c.connected then c.(queue := c.queue + [|c.promises|], promises := c.promises + [Pending])
      else c.(promises := c.promises + [Rejected(NOT_CONNECTED)])
    case Data(chunk) => Drain(number, c.(buf := c.buf + chunk))
    case Timeout(p) => c.(promises := Settle(c.promises, p, Rejected(TIMED_OUT)))
  }

  const INITIAL := Client(false, "", [], [])

  function Run(number: string -> Numeral, trace: seq<Event>): Client {
    if trace == [] then INITIAL else Next(number, Run(number, trace[..|trace| - 1]), trace[|trace| - 1])
  }

  // ----- the code -----

  /** `TinyRedis`, with the promises it hands out and what it writes to its socket. */
  class TinyRedis {
    const number: string -> Numeral
    var connected: bool
    var buf: string
    var queue: seq<nat>
    var promises: seq<Outcome>
    var written: string

    constructor (number: string -> Numeral)
      ensures State() == INITIAL && written == "" && this.number == number
    {
      this.number := number;
      connected, buf, queue, promises, written := false, "", [], [], "";
    }

    function State(): Client
      reads this
    {
      Client(connected, buf, queue, promises)
    }

    method OnConnect()
      modifies this`connected
      ensures State() == Next(number, old(State()), Connect)
    {
      connected := true;
    }

    method OnError()
      modifies this`connected
      ensures State() == Next(number, old(State()), Disconnect)
    {
      connected := false;
    }

    method OnTimeout(p: nat)
      modifies this`promises
      ensures State() == Next(number, old(State()), Timeout(p))
    {
      promises := Settle(promises, p, Rejected(TIMED_OUT));
    }

    method OnData(chunk: string)
      modifies this`buf, this`queue, this`promises
      ensures State() == Next(number, old(State()), Data(chunk))
    {
      ghost var goal := Next(number, State(), Data(chunk));
      buf := buf + chunk;
      while Find(buf) >= 0
        invariant Drain(number, State()) == goal
        decreases |buf|
      {
        ConsumeLine();
      }
    }

    /** The loop body: take one line off the buffer and settle the first waiter with it. */
    method ConsumeLine()
      requires Find(buf) >= 0
      modifies this`buf, this`queue, this`promises
      ensures State() == Consume(number, old(State()))
    {
      var idx := Find(buf);
      var line := buf[..idx];
      buf := buf[idx + 2..];
      if queue == [] {
        return;
      }
      var waiter := queue[0];
      queue := queue[1..];
      ghost var rest := buf;
      var reply: Reply;
      if |line| > 0 && line[0] == ':' {
        reply := Number(number(line[1..]));
      } else if |line| > 0 && line[0] == '$' {
        if Negative(number(line[1..])) {
          reply := Null;
        } else {
          var dataEnd := Find(buf);
          reply := Text(Slice(buf, 0, dataEnd));
          buf := Slice(buf, dataEnd + 2, |buf|);
        }
      } else {
        reply := Text(line);
      }
      assert (reply, buf) == Take(number, line, rest);
      promises := Settle(promises, waiter, Resolved(reply));
    }

    method Cmd(args: seq<string>) returns (p: nat)
      modifies this`queue, this`promises, this`written
      ensures State() == Next(number, old(State()), Command) && p == old(|promises|)
      ensures written == old(written) + if connected then Encode(args) else ""
    {
      p := |promises|;
      if !connected {
        promises := promises + [Rejected(NOT_CONNECTED)];
        return;
      }
      var payload := Payload(args);
      queue := queue + [p];
      promises := promises + [Pending];
      written := written + payload;
    }
  }

  /** The text of a command, appended argument by argument. */
  method Payload(args: seq<string>) returns (payload: string)
    ensures payload == Encode(args)
  {
    payload := Header('*', |args|);
    assert args[0..] == args;
    for i := 0 to |args|
      invariant payload + EncodeArgs(args[i..]) == Encode(args)
    {
      assert args[i..][1..] == args[i + 1..];
      Regroup(payload, EncodeArg(args[i]), EncodeArgs(args[i + 1..]));
      payload := payload + EncodeArg(args[i]);
    }
  }

  // ----- one data event -----

  /** Hand the replies to the first waiters. */
  function Deliver(promises: seq<Outcome>, queue: seq<nat>, replies: seq<Reply>): (r: seq<Outcome>)
    requires |replies| <= |queue|
    ensures |r| == |promises|
    decreases |replies|
  {
    if replies == [] then promises
    else Deliver(Settle(promises, queue[0], Resolved(replies[0])), queue[1..], replies[1..])
  }

  /** The text stops behind the header of a bulk reply whose payload line is not complete. */
  predicate Starved(s: string) {
    Find(s) >= 0
  }

  lemma ConsumeFirst(number: string -> Numeral, c: Client)
    requires First(number, c.buf).Complete? && c.queue != []
    ensures Find(c.buf) >= 0
    ensures var r := First(number, c.buf);
            Consume(number, c) ==
            c.(buf := r.rest, queue := c.queue[1..], promises := Settle(c.promises, c.queue[0], Resolved(r.reply)))
  {
    var i := Find(c.buf);
    TakeComplete(number, c.buf[..i], c.buf[i + 2..]);
  }

  lemma TakeComplete(number: string -> Numeral, line: string, rest: string)
    ensures !IsBulk(number, line) ==> Take(number, line, rest) == (LineReply(number, line), rest)
    ensures IsBulk(number, line) && Find(rest) >= 0 ==>
              Take(number, line, rest) == (Text(rest[..Find(rest)]), rest[Find(rest) + 2..])
  {
    var d := Find(rest);
    if d >= 0 {
      SlicesAt(rest, d);
    }
  }

  lemma SlicesAt(s: string, d: nat)
    requires d + 2 <= |s|
    ensures Slice(s, 0, d) == s[..d] && Slice(s, d + 2, |s|) == s[d + 2..]
  {}

  /** A data event hands out exactly what the reference reads, provided every complete reply has a
      waiter and no bulk reply is cut behind its header. */
  lemma {:induction false} DrainDelivers(number: string -> Numeral, c: Client)
    requires |Replies(number, c.buf)| <= |c.queue|
    requires !Starved(Remainder(number, c.buf))
    ensures Drain(number, c) ==
            c.(buf := Remainder(number, c.buf),
               queue := c.queue[|Replies(number, c.buf)|..],
               promises := Deliver(c.promises, c.queue, Replies(number, c.buf)))
    decreases |c.buf|
  {
    var r := First(number, c.buf);
    if r.Complete? {
      ConsumeFirst(number, c);
      DrainDelivers(number, Consume(number, c));
      assert Replies(number, c.buf)[1..] == Replies(number, r.rest);
    }
  }

  predicate Increasing(s: seq<nat>) {
    forall i, j :: 0 <= i < j < |s| ==> s[i] < s[j]
  }

  function SettleOne(o: Outcome, news: Outcome): Outcome {
    if o.Pending? then news else o
  }

  lemma {:induction false} DeliverElsewhere(promises: seq<Outcome>, queue: seq<nat>, replies: seq<Reply>, p: nat)
    requires |replies| <= |queue| && p < |promises|
    ensures p !in queue[..|replies|] || !promises[p].Pending? ==> Deliver(promises, queue, replies)[p] == promises[p]
    decreases |replies|
  {
    if replies != [] {
      DeliverElsewhere(Settle(promises, queue[0], Resolved(replies[0])), queue[1..], replies[1..], p);
      assert queue[..|replies|] == [queue[0]] + queue[1..][..|replies[1..]|];
    }
  }

  lemma {:induction false} DeliverAt(promises: seq<Outcome>, queue: seq<nat>, replies: seq<Reply>, i: nat)
    requires i < |replies| <= |queue| && Increasing(queue) && queue[i] < |promises|
    ensures Deliver(promises, queue, replies)[queue[i]] == SettleOne(promises[queue[i]], Resolved(replies[i]))
    decreases |replies|
  {
    var settled := Settle(promises, queue[0], Resolved(replies[0]));
    if i == 0 {
      DeliverElsewhere(settled, queue[1..], replies[1..], queue[0]);
    } else {
      DeliverAt(settled, queue[1..], replies[1..], i - 1);
    }
  }

  // ----- whole runs -----

  /** The reference: the whole text received, the promises of the commands sent, and what must
      become of each of them. It has no buffer and no queue. */
  datatype Ledger = Ledger(connected: bool, stream: string, made: nat, sent: seq<nat>, outcome: seq<Outcome>)

  /** The i-th reply of the whole stream settles the i-th command sent, unless its timeout came first. */
  function Answered(outcome: seq<Outcome>, replies: seq<Reply>): (r: seq<Outcome>)
    ensures |r| == |outcome|
  {
    seq(|outcome|, i requires 0 <= i < |outcome| =>
      if i < |replies| then SettleOne(outcome[i], Resolved(replies[i])) else outcome[i])
  }

  function Expired(outcome: seq<Outcome>, sent: seq<nat>, p: nat): (r: seq<Outcome>)
    requires |outcome| == |sent|
    ensures |r| == |outcome|
  {
    seq(|outcome|, i requires 0 <= i < |outcome| =>
      if sent[i] == p then SettleOne(outcome[i], Rejected(TIMED_OUT)) else outcome[i])
  }

  function Record(number: string -> Numeral, h: Ledger, e: Event): (r: Ledger)
    requires |h.outcome| == |h.sent|
    ensures |r.outcome| == |r.sent|
  {
    match e
    case Connect => h.(connected := true)
    case Disconnect => h.(connected := false)
    case Command =>
      if h.connected then h.(made := h.made + 1, sent := h.sent + [h.made], outcome := h.outcome + [Pending])
      else h.(made := h.made + 1)
    case Data(chunk) =>
      var stream := h.stream + chunk;
      h.(stream := stream, outcome := Answered(h.outcome, Replies(number, stream)))
    case Timeout(p) => h.(outcome := Expired(h.outcome, h.sent, p))
  }

  function History(number: string -> Numeral, trace: seq<Event>): (h: Ledger)
    ensures |h.outcome| == |h.sent|
  {
    if trace == [] then Ledger(false, "", 0, [], [])
    else Record(number, History(number, trace[..|trace| - 1]), trace[|trace| - 1])
  }

  /** At this moment the server has answered no more commands than were sent, and the text received
      does not stop inside a bulk reply. */
  predicate Orderly(number: string -> Numeral, h: Ledger) {
    |Replies(number, h.stream)| <= |h.sent| && !Starved(Remainder(number, h.stream))
  }

  ghost predicate AlwaysOrderly(number: string -> Numeral, trace: seq<Event>) {
    forall n :: 0 <= n <= |trace| ==> Orderly(number, History(number, trace[..n]))
  }

  predicate Numbered(h: Ledger) {
    && |h.outcome| == |h.sent|
    && Increasing(h.sent) && (forall i :: 0 <= i < |h.sent| ==> h.sent[i] < h.made)
  }

  /** Each promise is as the ledger says; commands issued without a connection are rejected. */
  ghost predicate SameOutcomes(h: Ledger, promises: seq<Outcome>)
    requires Numbered(h)
  {
    && |promises| == h.made
    && (forall i :: 0 <= i < |h.sent| ==> promises[h.sent[i]] == h.outcome[i])
    && (forall p :: 0 <= p < h.made && p !in h.sent ==> promises[p] == Rejected(NOT_CONNECTED))
  }

  /** The replies received are accounted for. */
  ghost predicate SettledUpTo(outcome: seq<Outcome>, n: nat) {
    n <= |outcome| && forall i :: 0 <= i < n ==> !outcome[i].Pending?
  }

  /** The client agrees with the ledger. */
  ghost predicate InStep(number: string -> Numeral, h: Ledger, c: Client) {
    var n := |Replies(number, h.stream)|;
    && Numbered(h) && SettledUpTo(h.outcome, n)
    && c.connected == h.connected
    && c.buf == Remainder(number, h.stream)
    && c.queue == h.sent[n..]
    && SameOutcomes(h, c.promises)
  }

  /** Under every fragmentation and every set of timeouts, the i-th reply of the unfragmented stream
      goes to the i-th command sent, and to nobody else. */
  lemma {:induction false} RunInStep(number: string -> Numeral, trace: seq<Event>)
    requires AlwaysOrderly(number, trace)
    ensures InStep(number, History(number, trace), Run(number, trace))
  {
    if trace != [] {
      var n := |trace| - 1;
      var front, e := trace[..n], trace[n];
      assert forall k :: 0 <= k <= n ==> front[..k] == trace[..k];
      RunInStep(number, front);
      assert trace[..n + 1] == trace;
      StepInStep(number, History(number, front), Run(number, front), e);
    }
  }

  /** After every event the buffer holds no complete line. */
  lemma {:induction false} DrainedBuffer(number: string -> Numeral, c: Client)
    ensures Find(Drain(number, c).buf) < 0
    decreases |c.buf|
  {
    if Find(c.buf) >= 0 {
      DrainedBuffer(number, Consume(number, c));
    }
  }

  lemma {:induction false} RunDrained(number: string -> Numeral, trace: seq<Event>)
    ensures Find(Run(number, trace).buf) < 0
  {
    if trace != [] {
      var front, e := trace[..|trace| - 1], trace[|trace| - 1];
      RunDrained(number, front);
      if e.Data? {
        var c := Run(number, front);
        DrainedBuffer(number, c.(buf := c.buf + e.chunk));
      }
    }
  }

  ghost predicate AlwaysInStep(number: string -> Numeral, trace: seq<Event>) {
    forall n :: 0 <= n <= |trace| ==> InStep(number, History(number, trace[..n]), Run(number, trace[..n]))
  }

  /** The client stays in step with the ledger exactly as long as no command is answered before it is
      sent and no chunk ends between the header of a bulk reply and the end of its payload. */
  lemma InStepExactly(number: string -> Numeral, trace: seq<Event>)
    ensures AlwaysInStep(number, trace) <==> AlwaysOrderly(number, trace)
  {
    if AlwaysOrderly(number, trace) {
      forall n | 0 <= n <= |trace| ensures InStep(number, History(number, trace[..n]), Run(number, trace[..n])) {
        assert forall k :: 0 <= k <= n ==> trace[..n][..k] == trace[..k];
        RunInStep(number, trace[..n]);
      }
    }
    if AlwaysInStep(number, trace) {
      forall n | 0 <= n <= |trace| ensures Orderly(number, History(number, trace[..n])) {
        RunDrained(number, trace[..n]);
      }
    }
  }

  lemma StepInStep(number: string -> Numeral, h: Ledger, c: Client, e: Event)
    requires InStep(number, h, c) && Orderly(number, Record(number, h, e))
    ensures InStep(number, Record(number, h, e), Next(number, c, e))
  {
    match e
    case Data(chunk) => DataStep(number, h, c, chunk);
    case Timeout(p) => TimeoutInStep(number, h, c, p);
    case Command => CommandInStep(number, h, c);
    case _ =>
  }

  lemma TimeoutInStep(number: string -> Numeral, h: Ledger, c: Client, p: nat)
    requires InStep(number, h, c)
    ensures InStep(number, Record(number, h, Timeout(p)), Next(number, c, Timeout(p)))
  {
    TimeoutStep(h, c.promises, p);
    StillSettled(h.outcome, Expired(h.outcome, h.sent, p), |Replies(number, h.stream)|);
  }

  lemma CommandInStep(number: string -> Numeral, h: Ledger, c: Client)
    requires InStep(number, h, c)
    ensures InStep(number, Record(number, h, Command), Next(number, c, Command))
  {
    CommandStep(h, c.promises);
    StillSettled(h.outcome, h.outcome + [Pending], |Replies(number, h.stream)|);
    var n := |Replies(number, h.stream)|;
    assert (h.sent + [h.made])[n..] == h.sent[n..] + [h.made];
  }

  lemma StillSettled(before: seq<Outcome>, after: seq<Outcome>, n: nat)
    requires SettledUpTo(before, n) && n <= |after|
    requires forall i :: 0 <= i < n && !before[i].Pending? ==> after[i] == before[i]
    ensures SettledUpTo(after, n)
  {}

  lemma DataStep(number: string -> Numeral, h: Ledger, c: Client, chunk: string)
    requires InStep(number, h, c) && Orderly(number, Record(number, h, Data(chunk)))
    ensures InStep(number, Record(number, h, Data(chunk)), Next(number, c, Data(chunk)))
  {
    var before, now := Replies(number, h.stream), Replies(number, c.buf + chunk);
    ReadingResumes(number, h.stream, chunk);
    DrainDelivers(number, c.(buf := c.buf + chunk));
    assert c.queue[|now|..] == h.sent[|before| + |now|..];
    DeliverInStep(h, c.promises, before, now);
  }

  lemma DeliverInStep(h: Ledger, promises: seq<Outcome>, before: seq<Reply>, now: seq<Reply>)
    requires Numbered(h) && SameOutcomes(h, promises) && SettledUpTo(h.outcome, |before|)
    requires |before| + |now| <= |h.sent|
    ensures var r := h.(outcome := Answered(h.outcome, before + now));
            Numbered(r) && SettledUpTo(r.outcome, |before + now|)
            && SameOutcomes(r, Deliver(promises, h.sent[|before|..], now))
  {
    var queue := h.sent[|before|..];
    var delivered, expected := Deliver(promises, queue, now), Answered(h.outcome, before + now);
    forall i | 0 <= i < |h.sent| ensures delivered[h.sent[i]] == expected[i] {
      DeliverSent(h, promises, before, now, i);
    }
    forall p: nat | p < h.made && p !in h.sent ensures delivered[p] == promises[p] {
      DeliverElsewhere(promises, queue, now, p);
    }
  }

  lemma DeliverSent(h: Ledger, promises: seq<Outcome>, before: seq<Reply>, now: seq<Reply>, i: nat)
    requires Numbered(h) && SameOutcomes(h, promises) && SettledUpTo(h.outcome, |before|)
    requires |before| + |now| <= |h.sent| && i < |h.sent|
    ensures Deliver(promises, h.sent[|before|..], now)[h.sent[i]] == Answered(h.outcome, before + now)[i]
  {
    DeliveredAsAnswered(h.sent, h.outcome, promises, before, now, i);
  }

  lemma DeliveredAsAnswered(sent: seq<nat>, outcome: seq<Outcome>, promises: seq<Outcome>, before: seq<Reply>, now: seq<Reply>, i: nat)
    requires Increasing(sent) && |outcome| == |sent| && SettledUpTo(outcome, |before|)
    requires |before| + |now| <= |sent| && i < |sent| && sent[i] < |promises| && promises[sent[i]] == outcome[i]
    ensures Deliver(promises, sent[|before|..], now)[sent[i]] == Answered(outcome, before + now)[i]
  {
    AnsweredAt(outcome, before, now, i);
    DeliveredAt(sent, promises, |before|, now, i);
  }

  lemma DeliveredAt(sent: seq<nat>, promises: seq<Outcome>, n: nat, now: seq<Reply>, i: nat)
    requires Increasing(sent) && n + |now| <= |sent| && i < |sent| && sent[i] < |promises|
    ensures Deliver(promises, sent[n..], now)[sent[i]] ==
            if n <= i < n + |now| then SettleOne(promises[sent[i]], Resolved(now[i - n])) else promises[sent[i]]
  {
    if n <= i < n + |now| {
      Addressed(sent, promises, n, now, i - n);
    } else {
      NotAddressed(sent, n, |now|, i);
      DeliverElsewhere(promises, sent[n..], now, sent[i]);
    }
  }

  lemma AnsweredAt(outcome: seq<Outcome>, before: seq<Reply>, now: seq<Reply>, i: nat)
    requires SettledUpTo(outcome, |before|) && i < |outcome|
    ensures Answered(outcome, before + now)[i] ==
            if |before| <= i < |before| + |now| then SettleOne(outcome[i], Resolved(now[i - |before|])) else outcome[i]
  {}

  lemma Addressed(sent: seq<nat>, promises: seq<Outcome>, n: nat, now: seq<Reply>, k: nat)
    requires Increasing(sent) && k < |now| && n + |now| <= |sent| && sent[n + k] < |promises|
    ensures Deliver(promises, sent[n..], now)[sent[n + k]] == SettleOne(promises[sent[n + k]], Resolved(now[k]))
  {
    assert sent[n..][k] == sent[n + k];
    DeliverAt(promises, sent[n..], now, k);
  }

  lemma NotAddressed(sent: seq<nat>, n: nat, k: nat, i: nat)
    requires Increasing(sent) && n + k <= |sent| && i < |sent| && !(n <= i < n + k)
    ensures sent[i] !in sent[n..][..k]
  {}

  lemma TimeoutStep(h: Ledger, promises: seq<Outcome>, p: nat)
    requires Numbered(h) && SameOutcomes(h, promises)
    ensures SameOutcomes(h.(outcome := Expired(h.outcome, h.sent, p)), Settle(promises, p, Rejected(TIMED_OUT)))
  {
  }

  lemma CommandStep(h: Ledger, promises: seq<Outcome>)
    requires Numbered(h) && SameOutcomes(h, promises)
    ensures SameOutcomes(h.(made := h.made + 1, sent := h.sent + [h.made], outcome := h.outcome + [Pending]), promises + [Pending])
    ensures SameOutcomes(h.(made := h.made + 1), promises + [Rejected(NOT_CONNECTED)])
  {
  }
}
