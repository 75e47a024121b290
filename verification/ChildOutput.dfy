/** Delivery of a child process's output (packages/adapter-utils/src/child-process-output.ts). */
module ChildOutput {
  import opened Basics

  datatype Stream = Stdout | Stderr

  datatype Chunk = Chunk(stream: Stream, text: string)

  /** How one call of `onLog` ends. */
  datatype Outcome = Delivered | Failed(message: string)

  datatype Delivery = Delivery(chunk: Chunk, outcome: Outcome)

  /* ---- what a history of deliveries means ---- */

  function ChunksOf(deliveries: seq<Delivery>): (chunks: seq<Chunk>)
    ensures |chunks| == |deliveries|
  {
    if deliveries == [] then [] else ChunksOf(deliveries[..|deliveries| - 1]) + [deliveries[|deliveries| - 1].chunk]
  }

  function Complaint(d: Delivery): string
    requires d.outcome.Failed?
  {
    if d.outcome.message != "" then d.outcome.message
    else "failed to append " + (if d.chunk.stream == Stdout then "stdout" else "stderr") + " log chunk"
  }

  /** The error kept from a history: the first failure's. */
  function FirstError(deliveries: seq<Delivery>): Option<string> {
    if deliveries == [] then None
    else
      var before := FirstError(deliveries[..|deliveries| - 1]);
      var last := deliveries[|deliveries| - 1];
      if before.None? && last.outcome.Failed? then Some(Complaint(last)) else before
  }

  ghost predicate FirstFailure(deliveries: seq<Delivery>, k: int) {
    && 0 <= k < |deliveries| && deliveries[k].outcome.Failed?
    && forall j :: 0 <= j < k ==> deliveries[j].outcome.Delivered?
  }

  lemma {:induction false} FirstErrorIsFirst(deliveries: seq<Delivery>)
    ensures FirstError(deliveries).None? <==> forall k :: 0 <= k < |deliveries| ==> deliveries[k].outcome.Delivered?
    ensures FirstError(deliveries).Some? ==>
      exists k :: FirstFailure(deliveries, k) && FirstError(deliveries) == Some(Complaint(deliveries[k]))
  {
    if deliveries != [] {
      var front := deliveries[..|deliveries| - 1];
      FirstErrorIsFirst(front);
      if FirstError(front).Some? {
        var k :| FirstFailure(front, k) && FirstError(front) == Some(Complaint(front[k]));
        assert FirstFailure(deliveries, k);
      } else {
        assert forall j :: 0 <= j < |front| ==> deliveries[j] == front[j];
        assert deliveries[|front|].outcome.Failed? ==> FirstFailure(deliveries, |front|);
      }
    }
  }

  /** Later deliveries cannot replace the error. */
  lemma {:induction false} FirstErrorStays(earlier: seq<Delivery>, later: seq<Delivery>)
    requires FirstError(earlier).Some?
    ensures FirstError(earlier + later) == FirstError(earlier)
  {
    if later == [] {
      assert earlier + later == earlier;
    } else {
      var front := later[..|later| - 1];
      assert (earlier + later)[..|earlier + later| - 1] == earlier + front;
      FirstErrorStays(earlier, front);
    }
  }

  /* ---- the promise chain ---- */

  /** What is registered behind `logChain`, in order of registration: a delivery with its `catch` and
      `finally`, or the rest of a `drain` call made when `ticket` chunks had been accepted. */
  datatype Link = Deliver(chunk: Chunk) | Wake(ticket: nat)

  /** How a drain call ended, and how many deliveries had been begun by then. */
  datatype Answer = Answer(ticket: nat, error: Option<string>, begun: nat)

  function Delivers(chain: seq<Link>): seq<Chunk> {
    if chain == [] then [] else (if chain[0].Deliver? then [chain[0].chunk] else []) + Delivers(chain[1..])
  }

  function Wakes(chain: seq<Link>): seq<nat> {
    if chain == [] then [] else (if chain[0].Wake? then [chain[0].ticket] else []) + Wakes(chain[1..])
  }

  /** With `n` deliveries behind it, every drain in the chain comes right after the deliveries it was called after. */
  predicate Ticketed(chain: seq<Link>, n: nat) {
    chain != [] ==> match chain[0]
      case Deliver(_) => Ticketed(chain[1..], n + 1)
      case Wake(ticket) => ticket == n && Ticketed(chain[1..], n)
  }

  lemma {:induction false} ChainGrows(chain: seq<Link>, last: Link, n: nat)
    ensures Delivers(chain + [last]) == Delivers(chain) + (if last.Deliver? then [last.chunk] else [])
    ensures Wakes(chain + [last]) == Wakes(chain) + (if last.Wake? then [last.ticket] else [])
    ensures Ticketed(chain + [last], n)
       <==> Ticketed(chain, n) && (last.Wake? ==> last.ticket == n + |Delivers(chain)|)
  {
    if chain == [] {
      assert chain + [last] == [last] && [last][1..] == [];
    } else {
      assert (chain + [last])[0] == chain[0] && (chain + [last])[1..] == chain[1..] + [last];
      ChainGrows(chain[1..], last, if chain[0].Deliver? then n + 1 else n);
    }
  }

  /** A drain still in the chain waits for every delivery that is over or has begun. */
  lemma {:induction false} WakesWait(chain: seq<Link>, n: nat)
    requires Ticketed(chain, n)
    ensures forall t :: t in Wakes(chain) ==> t >= n
    ensures chain != [] && chain[0].Deliver? ==> forall t :: t in Wakes(chain) ==> t >= n + 1
  {
    if chain != [] { WakesWait(chain[1..], if chain[0].Deliver? then n + 1 else n); }
  }

  lemma ErrorStep(ended: seq<Delivery>, last: Delivery)
    ensures FirstError(ended + [last])
         == (if FirstError(ended).None? && last.outcome.Failed? then Some(Complaint(last)) else FirstError(ended))
  {
    AppendShift(ended, last, []);
  }

  lemma ChunksStep(ended: seq<Delivery>, last: Delivery, rest: seq<Chunk>)
    ensures ChunksOf(ended + [last]) == ChunksOf(ended) + [last.chunk]
    ensures ChunksOf(ended + [last]) + rest == ChunksOf(ended) + ([last.chunk] + rest)
    ensures (ChunksOf(ended) + ([last.chunk] + rest))[|ended|] == last.chunk
  {
    AppendShift(ended, last, []);
    AppendShift(ChunksOf(ended), last.chunk, rest);
  }

  /** Taking the delivery at the head off the chain when it is over. */
  lemma HeadServed(chain: seq<Link>, ended: seq<Delivery>, delivery: Delivery)
    requires chain != [] && chain[0] == Deliver(delivery.chunk) && Ticketed(chain, |ended|)
    ensures ChunksOf(ended) + Delivers(chain) == ChunksOf(ended + [delivery]) + Delivers(chain[1..])
    ensures (ChunksOf(ended) + Delivers(chain))[|ended|] == delivery.chunk
    ensures |Delivers(chain)| == 1 + |Delivers(chain[1..])| && Wakes(chain) == Wakes(chain[1..])
    ensures Ticketed(chain[1..], |ended + [delivery]|)
  {
    ChunksStep(ended, delivery, Delivers(chain[1..]));
    assert [] + Wakes(chain[1..]) == Wakes(chain[1..]);
  }

  /** What `appendWithCap` makes of the chunks of one stream. */
  function Tail(chunks: seq<Chunk>, stream: Stream, append: (string, string) -> string): string {
    if chunks == [] then ""
    else
      var before := Tail(chunks[..|chunks| - 1], stream, append);
      var last := chunks[|chunks| - 1];
      if last.stream == stream then append(before, last.text) else before
  }

  /** A chunk grows its own stream's text by `append`, and leaves the other stream's alone. */
  lemma TailGrows(chunks: seq<Chunk>, stream: Stream, other: Stream, text: string, append: (string, string) -> string)
    requires stream != other
    ensures Tail([], stream, append) == ""
    ensures Tail(chunks + [Chunk(stream, text)], stream, append) == append(Tail(chunks, stream, append), text)
    ensures Tail(chunks + [Chunk(stream, text)], other, append) == Tail(chunks, other, append)
  {
    AppendShift(chunks, Chunk(stream, text), []);
  }

  /** A failure's own message is kept; one without a message is named after its stream. */
  lemma ComplaintSays(chunk: Chunk, message: string)
    ensures message != "" ==> Complaint(Delivery(chunk, Failed(message))) == message
    ensures message == "" && chunk.stream == Stdout ==>
      Complaint(Delivery(chunk, Failed(message))) == "failed to append stdout log chunk"
    ensures message == "" && chunk.stream == Stderr ==>
      Complaint(Delivery(chunk, Failed(message))) == "failed to append stderr log chunk"
  {
    assert "failed to append " + "stdout" + " log chunk" == "failed to append stdout log chunk";
    assert "failed to append " + "stderr" + " log chunk" == "failed to append stderr log chunk";
  }

  /** An answer is right: the drain was answered when exactly the deliveries accepted before it were over
      and none after them had begun, with the first error among them if the sink is fatal. */
  predicate IsRight(a: Answer, ended: seq<Delivery>, fatal: bool) {
    a.ticket <= |ended| && a == Answer(a.ticket, if fatal then FirstError(ended[..a.ticket]) else None, a.ticket)
  }

  predicate AllRight(answers: seq<Answer>, ended: seq<Delivery>, fatal: bool) {
    answers == [] || (AllRight(answers[..|answers| - 1], ended, fatal) && IsRight(answers[|answers| - 1], ended, fatal))
  }

  function Tickets(answers: seq<Answer>): (tickets: seq<nat>)
    ensures |tickets| == |answers|
  {
    if answers == [] then [] else Tickets(answers[..|answers| - 1]) + [answers[|answers| - 1].ticket]
  }

  lemma {:induction false} EachRight(answers: seq<Answer>, ended: seq<Delivery>, fatal: bool, k: nat)
    requires AllRight(answers, ended, fatal) && k < |answers|
    ensures IsRight(answers[k], ended, fatal) && Tickets(answers)[k] == answers[k].ticket
  {
    if k < |answers| - 1 { EachRight(answers[..|answers| - 1], ended, fatal, k); }
  }

  lemma {:induction false} StaysRight(answers: seq<Answer>, ended: seq<Delivery>, last: Delivery, fatal: bool)
    requires AllRight(answers, ended, fatal)
    ensures AllRight(answers, ended + [last], fatal)
  {
    if answers != [] {
      StaysRight(answers[..|answers| - 1], ended, last, fatal);
      var n := answers[|answers| - 1].ticket;
      assert (ended + [last])[..n] == ended[..n];
    }
  }

  /** The object `createChildProcessOutput` returns, with its closure state. The head of the chain is
      being delivered once `busy`. */
  class Output {
    const append: (string, string) -> string
    const fatal: bool
    const pipes: set<Stream>
    var stdout: string
    var stderr: string
    var chain: seq<Link>
    var busy: bool
    var pending: nat
    var logError: Option<string>
    var paused: set<Stream>
    var terminations: nat
    /** Everything accepted, every `onLog` call begun, every delivery ended, every drain called and every
        drain answered so far. */
    var accepted: seq<Chunk>
    var begun: seq<Chunk>
    ghost var ended: seq<Delivery>
    ghost var drains: seq<nat>
    var answers: seq<Answer>

    ghost predicate Valid()
      reads this
    {
      Serial() && Waiting() && Errors()
    }

    /** Chunks reach `onLog` in the order they were accepted, one at a time, each once; both pipes are
        paused exactly while a delivery is pending. */
    ghost predicate Serial()
      reads `accepted, `begun, `ended, `chain, `busy, `pending, `paused
    {
      && accepted == ChunksOf(ended) + Delivers(chain) && pending == |Delivers(chain)|
      && (busy ==> chain != [] && chain[0].Deliver?)
      && begun == ChunksOf(ended) + (if busy then [chain[0].chunk] else [])
      && paused == (if pending > 0 then pipes else {})
    }

    /** Drains are answered in the order they were called, each at its moment. */
    ghost predicate Waiting()
      reads `chain, `ended, `drains, `answers
    {
      && Ticketed(chain, |ended|) && drains == Tickets(answers) + Wakes(chain)
      && AllRight(answers, ended, fatal)
    }

    /** Each stream's text is what was accepted from it; only `Accept` changes either side. */
    ghost predicate Tails()
      reads `stdout, `stderr, `accepted
    {
      stdout == Tail(accepted, Stdout, append) && stderr == Tail(accepted, Stderr, append)
    }

    /** The process is terminated once, on the first fatal error. */
    ghost predicate Errors()
      reads `logError, `ended, `terminations
    {
      logError == (if fatal then FirstError(ended) else None) && terminations == (if logError.Some? then 1 else 0)
    }

    ghost predicate Sound()
      reads this
    {
      Valid() && Tails()
    }

    constructor (append: (string, string) -> string, fatal: bool, pipes: set<Stream>)
      ensures Valid() && Tails() && accepted == [] && ended == [] && begun == [] && drains == [] && !busy
      ensures this.append == append && this.fatal == fatal && this.pipes == pipes
    {
      this.append, this.fatal, this.pipes := append, fatal, pipes;
      stdout, stderr, chain, busy, pending := "", "", [], false, 0;
      logError, paused, terminations := None, {}, 0;
      accepted, begun, ended, drains, answers := [], [], [], [], [];
    }

    method Accept(stream: Stream, text: string)
      requires Valid() && Tails()
      modifies `stdout, `stderr, `paused, `pending, `chain, `accepted
      ensures Valid() && Tails() && accepted == old(accepted) + [Chunk(stream, text)] && paused == pipes
    {
      Capture(stream, text);
      Enqueue(Chunk(stream, text));
      assert Tails();
    }

    /** The tail kept of the stream grows. */
    method Capture(stream: Stream, text: string)
      requires Tails()
      modifies `stdout, `stderr
      ensures stdout == Tail(accepted + [Chunk(stream, text)], Stdout, append)
      ensures stderr == Tail(accepted + [Chunk(stream, text)], Stderr, append)
    {
      AppendShift(accepted, Chunk(stream, text), []);
      if stream == Stdout { stdout := append(stdout, text); } else { stderr := append(stderr, text); }
    }

    /** Pauses both pipes and puts the chunk at the end of the chain. */
    method Enqueue(chunk: Chunk)
      requires Serial() && Waiting()
      modifies `paused, `pending, `chain, `accepted
      ensures Serial() && Waiting() && accepted == old(accepted) + [chunk] && paused == pipes
    {
      ChainGrows(chain, Deliver(chunk), |ended|);
      paused := pipes;
      pending := pending + 1;
      chain := chain + [Deliver(chunk)];
      accepted := accepted + [chunk];
    }

    /** `drain` awaits the chain as it is at the call. */
    method Drain()
      requires Valid()
      modifies `chain, `drains
      ensures Valid() && drains == old(drains) + [|accepted|] && Delivers(chain) == old(Delivers(chain))
    {
      ChainGrows(chain, Wake(|accepted|), |ended|);
      chain := chain + [Wake(|accepted|)];
      drains := drains + [|accepted|];
    }

    /** The chain gets to a delivery and calls `onLog`. */
    method Begin() returns (chunk: Chunk)
      requires Valid() && !busy && chain != [] && chain[0].Deliver?
      modifies `busy, `begun
      ensures Valid() && busy && begun == old(begun) + [chunk]
      ensures chunk == accepted[|ended|]
    {
      chunk := chain[0].chunk;
      busy := true;
      begun := begun + [chunk];
    }

    /** The chain gets to a drain call: it throws the error kept by then, or returns. */
    method Resume() returns (error: Option<string>)
      requires Valid() && chain != [] && chain[0].Wake?
      modifies `chain, `answers
      ensures Valid() && answers == old(answers) + [Answer(|ended|, error, |ended|)]
      ensures error == if fatal then FirstError(ended) else None
    {
      error := logError;
      DrainDue(this);
      Reply(Answer(chain[0].ticket, error, |begun|));
    }

    method Reply(answer: Answer)
      requires Serial() && Waiting() && chain != [] && chain[0].Wake? && !busy
      requires answer == Answer(chain[0].ticket, if fatal then FirstError(ended) else None, |ended|)
      modifies `chain, `answers
      ensures Serial() && Waiting() && answers == old(answers) + [answer]
    {
      AnswerStep(answers, answer, ended, fatal, Wakes(chain[1..]));
      answers := answers + [answer];
      chain := chain[1..];
    }

    /** The `catch` handler: keeps the first error of a fatal sink and asks for termination. */
    method KeepError(delivery: Delivery) returns (terminated: bool)
      requires Errors()
      modifies `logError, `terminations
      ensures logError == (if fatal then FirstError(ended + [delivery]) else None)
      ensures terminations == (if logError.Some? then 1 else 0)
      ensures terminated <==> terminations == old(terminations) + 1
      ensures terminated <==> fatal && delivery.outcome.Failed? && FirstError(ended).None?
    {
      ErrorStep(ended, delivery);
      terminated := false;
      if delivery.outcome.Failed? {
        if fatal && logError.None? {
          logError := Some(Complaint(delivery));
          terminations := terminations + 1;
          terminated := true;
        }
      }
    }

    /** `onLog` settles: the `catch` and `finally` of its link of the chain run. */
    method End(outcome: Outcome) returns (terminated: bool)
      requires Valid() && busy
      modifies `logError, `terminations, `ended, `busy, `pending, `chain, `paused
      ensures Valid() && !busy
      ensures ended == old(ended) + [Delivery(old(accepted)[|old(ended)|], outcome)]
      ensures terminated <==> terminations == old(terminations) + 1
      ensures terminated <==> fatal && outcome.Failed? && FirstError(old(ended)).None?
    {
      var delivery := Delivery(chain[0].chunk, outcome);
      terminated := KeepError(delivery);
      assert Serial() && Waiting();
      Dequeue(delivery);
      assert Errors();
    }

    /** The `finally` handler: one delivery less is pending, and the pipes resume when none is. */
    method Dequeue(ghost delivery: Delivery)
      requires Serial() && Waiting() && busy && delivery.chunk == chain[0].chunk
      modifies `ended, `busy, `pending, `chain, `paused
      ensures Serial() && Waiting() && !busy && ended == old(ended) + [delivery]
      ensures delivery.chunk == accepted[|old(ended)|]
    {
      HeadServed(chain, ended, delivery);
      StaysRight(answers, ended, delivery, fatal);
      ended := ended + [delivery];
      busy := false;
      chain := chain[1..];
      pending := pending - 1;
      if pending == 0 { paused := {}; }
    }
  }

  /** A drain at the head of the chain was called after the deliveries that are over, and no other has begun. */
  lemma DrainDue(out: Output)
    requires out.Serial() && out.Waiting() && out.chain != [] && out.chain[0].Wake?
    ensures out.chain[0].ticket == |out.ended| == |out.begun| && !out.busy
    ensures out.begun == ChunksOf(out.ended) == out.accepted[..|out.ended|]
    ensures out.drains[|out.answers|] == |out.ended|
  {
    assert ChunksOf(out.ended) + [] == ChunksOf(out.ended);
    assert (ChunksOf(out.ended) + Delivers(out.chain))[..|out.ended|] == ChunksOf(out.ended);
  }

  lemma AnswerStep(answers: seq<Answer>, last: Answer, ended: seq<Delivery>, fatal: bool, rest: seq<nat>)
    requires AllRight(answers, ended, fatal)
    requires last == Answer(|ended|, if fatal then FirstError(ended) else None, |ended|)
    ensures AllRight(answers + [last], ended, fatal)
    ensures Tickets(answers) + ([last.ticket] + rest) == Tickets(answers + [last]) + rest
  {
    assert ended[..|ended|] == ended;
    AppendShift(answers, last, []);
    AppendShift(Tickets(answers), last.ticket, rest);
  }

  /* ---- whole runs ---- */

  datatype Event = Arrive(chunk: Chunk) | CallDrain | Start | Settle(outcome: Outcome) | WakeUp

  function Arrivals(events: seq<Event>): seq<Chunk> {
    if events == [] then []
    else
      var before, last := Arrivals(events[..|events| - 1]), events[|events| - 1];
      if last.Arrive? then before + [last.chunk] else before
  }

  /** For each drain call, how many chunks had arrived before it. */
  function DrainCalls(events: seq<Event>): seq<nat> {
    if events == [] then []
    else
      var front := events[..|events| - 1];
      DrainCalls(front) + if events[|events| - 1].CallDrain? then [|Arrivals(front)|] else []
  }

  /** The chain can take the step: begin the delivery at its head, settle the open one, or answer a drain. */
  ghost predicate Takes(out: Output, event: Event)
    reads out
  {
    match event
    case Start => !out.busy && out.chain != [] && out.chain[0].Deliver?
    case Settle(_) => out.busy
    case WakeUp => out.chain != [] && out.chain[0].Wake?
    case _ => false
  }

  /** The chain never stalls: while anything is in it, it can take a step, and of one kind only. */
  lemma NeverStalls(out: Output, outcome: Outcome)
    requires out.Valid()
    ensures out.chain != [] <==> Takes(out, Start) || Takes(out, Settle(outcome)) || Takes(out, WakeUp)
    ensures !(Takes(out, Start) && Takes(out, Settle(outcome))) && !(Takes(out, Start) && Takes(out, WakeUp))
    ensures !(Takes(out, Settle(outcome)) && Takes(out, WakeUp))
  {
    if Takes(out, WakeUp) { DrainDue(out); }
  }

  /** What the event did to the chain: one delivery begun, settled or one drain answered if it could, else nothing. */
  twostate predicate Took(out: Output, event: Event)
    reads out
  {
    var taken := old(Takes(out, event));
    && |out.begun| == old(|out.begun|) + (if event.Start? && taken then 1 else 0)
    && |out.answers| == old(|out.answers|) + (if event.WakeUp? && taken then 1 else 0)
    && (if event.Settle? && taken
        then |out.ended| == old(|out.ended|) + 1 && out.ended[old(|out.ended|)].outcome == event.outcome
        else out.ended == old(out.ended))
  }

  method Register(out: Output, event: Event)
    requires out.Sound() && (event.Arrive? || event.CallDrain?)
    modifies out`stdout, out`stderr, out`paused, out`pending, out`chain, out`accepted, out`drains
    ensures out.Sound() && Took(out, event)
    ensures out.accepted == old(out.accepted) + (if event.Arrive? then [event.chunk] else [])
    ensures out.drains == old(out.drains) + (if event.CallDrain? then [|out.accepted|] else [])
  {
    match event
    case Arrive(chunk) => out.Accept(chunk.stream, chunk.text);
    case CallDrain => out.Drain();
  }

  method ChainStep(out: Output, event: Event)
    requires out.Valid()
    modifies out`busy, out`begun, out`ended, out`chain, out`pending, out`paused, out`logError, out`terminations,
      out`answers
    ensures out.Valid() && out.accepted == old(out.accepted) && out.drains == old(out.drains)
    ensures Took(out, event)
  {
    match event
    case Start => if !out.busy && |out.chain| > 0 && out.chain[0].Deliver? { var _ := out.Begin(); }
    case Settle(outcome) => if out.busy { var _ := out.End(outcome); }
    case WakeUp => if |out.chain| > 0 && out.chain[0].Wake? { var _ := out.Resume(); }
    case _ =>
  }

  /** One event. A step the chain takes begins, settles or answers one; a step it cannot take is no step. */
  method Step(out: Output, event: Event)
    requires out.Sound()
    modifies out
    ensures out.Sound()
    ensures out.accepted == old(out.accepted) + (if event.Arrive? then [event.chunk] else [])
    ensures out.drains == old(out.drains) + (if event.CallDrain? then [|out.accepted|] else [])
    ensures Took(out, event)
  {
    if event.Arrive? || event.CallDrain? {
      Register(out, event);
    } else {
      ChainStep(out, event);
      assert out.Tails();
    }
  }

  /** Any interleaving of arrivals, drain calls and chain steps: what has begun is a prefix of what arrived,
      in order, and at most one delivery is open. The k-th drain call is answered k-th; called after n
      arrivals, it is answered when exactly those n deliveries have begun and ended, with the first error
      among them for a fatal sink, and while it is unanswered no later delivery begins. */
  method Run(out: Output, events: seq<Event>)
    requires out.Valid() && out.Tails() && out.accepted == [] && out.drains == []
    modifies out
    ensures out.Valid() && out.Tails() && out.accepted == Arrivals(events) && out.drains == DrainCalls(events)
    ensures out.begun <= Arrivals(events) && |out.ended| <= |out.begun| <= |out.ended| + 1
    ensures out.terminations <= 1 && (out.terminations == 1 ==> out.fatal)
    ensures |out.ended| == |Arrivals(events)| ==> out.paused == {} && out.begun == Arrivals(events)
    ensures |out.ended| < |Arrivals(events)| ==> out.paused == out.pipes
    ensures |out.answers| <= |DrainCalls(events)|
    ensures forall k :: 0 <= k < |out.answers| ==>
      out.answers[k].ticket == DrainCalls(events)[k] && IsRight(out.answers[k], out.ended, out.fatal)
    ensures forall k :: |out.answers| <= k < |DrainCalls(events)| ==> DrainCalls(events)[k] >= |out.begun|
    ensures out.chain == [] ==> |out.answers| == |DrainCalls(events)| && |out.ended| == |Arrivals(events)|
  {
    for i := 0 to |events|
      invariant out.Sound()
      invariant out.accepted == Arrivals(events[..i]) && out.drains == DrainCalls(events[..i])
    {
      assert events[..i + 1][..i] == events[..i];
      Step(out, events[i]);
    }
    assert events[..|events|] == events;
    Begun(out);
    Answered(out);
  }

  lemma Begun(out: Output)
    requires out.Serial()
    ensures out.begun <= out.accepted && |out.ended| <= |out.begun| <= |out.ended| + 1
    ensures |out.ended| == |out.accepted| ==> out.paused == {} && out.begun == out.accepted
    ensures |out.ended| < |out.accepted| ==> out.paused == out.pipes
    ensures out.chain == [] ==> |out.ended| == |out.accepted|
  {
  }

  lemma Answered(out: Output)
    requires out.Serial() && out.Waiting()
    ensures |out.answers| <= |out.drains|
    ensures forall k :: 0 <= k < |out.answers| ==>
      out.answers[k].ticket == out.drains[k] && IsRight(out.answers[k], out.ended, out.fatal)
    ensures forall k :: |out.answers| <= k < |out.drains| ==> out.drains[k] >= |out.begun|
    ensures out.chain == [] ==> |out.answers| == |out.drains|
  {
    WakesWait(out.chain, |out.ended|);
    forall k | 0 <= k < |out.answers|
      ensures out.answers[k].ticket == out.drains[k] && IsRight(out.answers[k], out.ended, out.fatal)
    {
      EachRight(out.answers, out.ended, out.fatal, k);
    }
    forall k | |out.answers| <= k < |out.drains| ensures out.drains[k] >= |out.begun| {
      assert out.drains[k] == Wakes(out.chain)[k - |out.answers|];
      assert out.drains[k] in Wakes(out.chain);
    }
  }
}
