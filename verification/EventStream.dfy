// The waypoint event stream as a state machine: one transition per iteration of the fetch loop.
module EventStream {
  import opened EventLog
  import opened Wrappers

  // `maxMisses` missed heartbeats cause a resubscription; the loop runs until `endTime`.
  datatype Config = Config(batchSize: nat, maxMisses: int, begin: int, duration: nat) {
    function EndTime(): int { begin + duration }
  }

  // What may cut the hand-over of a batch short, at the event with batch index `at`.
  datatype Cause = ClientGone | AckRaised | AckCancelled
  datatype Interrupt = Never | At(at: nat, cause: Cause)

  // `stopped` tells whether the disconnect check set the stop event while the resubscription was awaited.
  datatype Reopen = Reopened | ReopenRaised(stopped: bool) | ReopenCancelled

  // How one fetch, with what follows it in the same iteration, turns out.
  datatype Fetch =
    | Batch(count: nat, interrupt: Interrupt)
    | NoMessages
    | NoHeartbeat(reopen: Reopen)
    | FetchRaised
    | FetchCancelled

  // One iteration as the environment sees it: messages published since the last one, whether the
  // disconnect check has set the stop event since the last loop head, the clock, and the outcome of the fetch.
  datatype Tick = Tick(arrivals: seq<Message>, stopped: bool, now: int, fetch: Fetch)

  datatype Exit =
    | NotSubscribed  // the first subscription raised
    | StopSeen       // the stop event was found set
    | DeadlineReached
    | Found          // the client was sent its event
    | Gone           // the client had disconnected
    | Raised
    | WasCancelled
    | NotReopened    // a resubscription raised

  datatype Phase = Running | Ended(exit: Exit)

  // Observable actions, in order. `at` counts positions in the messages selected by the query.
  datatype Effect =
    | Opened(sub: nat)
    | Fetched(sub: nat, now: int)
    | Yielded(sub: nat, at: nat, message: Message)
    | Missed(sub: nat)  // a heartbeat
    | Closed(sub: nat)

  datatype Stream = Stream(
    log: seq<Message>,
    phase: Phase,
    stop: bool,          // the stop event
    sub: nat,            // the subscription in use
    cursor: nat,         // messages of the subscription handed out so far
    misses: int,         // num_timeout_errors
    sent: seq<Message>,  // what the client received
    effects: seq<Effect>
  ) {
    function End(exit: Exit, stop': bool): Stream {
      this.(phase := Ended(exit), stop := stop')
    }

    function Emit(e: Effect): Stream {
      this.(effects := effects + [e])
    }
  }

  function Min(a: nat, b: nat): nat { if a < b then a else b }

  function Tail(i: Interrupt): Interrupt {
    if i.At? && i.at > 0 then At(i.at - 1, i.cause) else i
  }

  predicate Cuts(i: Interrupt, cause: Cause) { i == At(0, cause) }

  // How the stream goes on after a message that was yielded.
  function PhaseAfter(q: Query, m: Message, i: Interrupt): Phase {
    if Cuts(i, ClientGone) then Ended(Gone)
    else if Matches(q, m) then Ended(Found)
    else if Cuts(i, AckRaised) then Ended(Raised)
    else if Cuts(i, AckCancelled) then Ended(WasCancelled)
    else Running
  }

  // The stream that has yielded `m` and goes on in `phase`. Ending sets the stop event.
  function AfterYield(s: Stream, m: Message, phase: Phase): Stream {
    s.(cursor := s.cursor + 1, effects := s.effects + [Yielded(s.sub, s.cursor, m)], phase := phase,
       stop := s.stop || phase.Ended?, sent := if phase == Ended(Found) then s.sent + [m] else s.sent)
  }

  // Hands one message to the SSE generator, whose loop body runs at the yield.
  function HandOne(q: Query, s: Stream, m: Message, i: Interrupt): Stream {
    if m.body.Malformed? then s.End(Raised, true) else AfterYield(s, m, PhaseAfter(q, m, i))
  }

  // Hands over the next `n` selected messages, or as many as there are.
  function Deliver(q: Query, s: Stream, n: nat, i: Interrupt): Stream
    decreases n
  {
    if n == 0 || |Selected(q, s.log)| <= s.cursor then s
    else
      var r := HandOne(q, s, Selected(q, s.log)[s.cursor], i);
      if r.phase.Running? then Deliver(q, r, n - 1, Tail(i)) else r
  }

  // A missed heartbeat; the last one allowed closes the subscription and opens another.
  function Miss(cfg: Config, s: Stream, reopen: Reopen): Stream {
    var misses, missed := s.misses + 1, s.effects + [Missed(s.sub)];
    if misses != cfg.maxMisses then s.(misses := misses, effects := missed)
    else
      var closed := missed + [Closed(s.sub)];
      match reopen
      case Reopened => s.(misses := 0, sub := s.sub + 1, cursor := 0, effects := closed + [Opened(s.sub + 1)])
      case ReopenRaised(stopped) => s.(misses := misses, effects := closed).End(NotReopened, s.stop || stopped)
      case ReopenCancelled => s.(misses := misses, effects := closed).End(WasCancelled, true)
  }

  function AfterFetch(q: Query, cfg: Config, s: Stream, fetch: Fetch): Stream {
    match fetch
    case Batch(count, i) => Deliver(q, s, Min(count, cfg.batchSize), i)
    case NoMessages => s
    case NoHeartbeat(reopen) => Miss(cfg, s, reopen)
    case FetchRaised => s.End(Raised, true)
    case FetchCancelled => s.End(WasCancelled, true)
  }

  function Iterate(q: Query, cfg: Config, s: Stream, t: Tick): Stream {
    var s := s.(log := s.log + t.arrivals, stop := s.stop || t.stopped);
    if s.stop then s.End(StopSeen, true)
    else if cfg.EndTime() - t.now <= 0 then s.End(DeadlineReached, true)
    else AfterFetch(q, cfg, s.Emit(Fetched(s.sub, t.now)), t.fetch)
  }

  // The `finally` clause closes whatever subscription the generator ends with.
  function Finally(s: Stream): Stream {
    if s.phase.Ended? then s.Emit(Closed(s.sub)) else s
  }

  function Step(q: Query, cfg: Config, s: Stream, t: Tick): Stream {
    if s.phase.Ended? then s else Finally(Iterate(q, cfg, s, t))
  }

  function Start(log: seq<Message>, subscribed: bool): Stream {
    if subscribed then Stream(log, Running, false, 0, 0, 0, [], [Opened(0)])
    else Stream(log, Ended(NotSubscribed), false, 0, 0, 0, [], [])
  }

  function Run(q: Query, cfg: Config, s: Stream, ticks: seq<Tick>): Stream {
    if ticks == [] then s
    else Step(q, cfg, Run(q, cfg, s, ticks[..|ticks| - 1]), ticks[|ticks| - 1])
  }

  lemma {:induction false} EndedRunStays(q: Query, cfg: Config, s: Stream, ticks: seq<Tick>, k: nat)
    requires k <= |ticks|
    requires k == |ticks| || Run(q, cfg, s, ticks[..k]).phase.Ended?
    ensures Run(q, cfg, s, ticks) == Run(q, cfg, s, ticks[..k])
  {
    if k < |ticks| {
      var last := |ticks| - 1;
      assert ticks[..last][..k] == ticks[..k];
      EndedRunStays(q, cfg, s, ticks[..last], k);
    } else {
      assert ticks[..k] == ticks;
    }
  }

  // One message: decoding it, the yield with the SSE generator's loop body, and the acknowledgement.
  // A consumer that leaves its loop closes the generator at that yield. A message is yielded exactly if it
  // decodes, sent exactly if it also matches and the client is there, and acknowledged only if it is not
  // sent; the stop event is set exactly if the stream ends.
  method HandMessage(q: Query, s: Stream, message: Message, interrupt: Interrupt) returns (r: Stream)
    requires s.phase.Running? && !s.stop
    ensures r == HandOne(q, s, message, interrupt)
    ensures r.log == s.log && r.sub == s.sub && r.misses == s.misses
    ensures if message.body.Decoded? then r.effects == s.effects + [Yielded(s.sub, s.cursor, message)] && r.cursor == s.cursor + 1
            else r.effects == s.effects && r.cursor == s.cursor
    ensures r.sent == if Matches(q, message) && !Cuts(interrupt, ClientGone) then s.sent + [message] else s.sent
    ensures r.phase.Running? <==> message.body.Decoded? && !Matches(q, message) && (interrupt.At? ==> interrupt.at > 0)
    ensures r.phase == Ended(Found) <==> |r.sent| == |s.sent| + 1
    ensures r.stop <==> r.phase.Ended?
  {
    assert interrupt.At? ==> interrupt.cause.ClientGone? || interrupt.cause.AckRaised? || interrupt.cause.AckCancelled?;
    if message.body.Malformed? {
      return s.(stop := true, phase := Ended(Raised));
    }
    r := s.(effects := s.effects + [Yielded(s.sub, s.cursor, message)], cursor := s.cursor + 1);
    if Cuts(interrupt, ClientGone) {
      r := r.(stop := true, phase := Ended(Gone));
    } else if Matches(q, message) {
      r := r.(sent := r.sent + [message]);
      r := r.(stop := true, phase := Ended(Found));
    } else if Cuts(interrupt, AckRaised) {
      r := r.(stop := true, phase := Ended(Raised));
    } else if Cuts(interrupt, AckCancelled) {
      r := r.(stop := true, phase := Ended(WasCancelled));
    }
  }

  // The inner loop over the messages of a batch.
  method HandOver(q: Query, s: Stream, n: nat, interrupt: Interrupt) returns (r: Stream)
    requires s.phase.Running? && !s.stop
    ensures r == Deliver(q, s, n, interrupt)
  {
    var left, cut := n, interrupt;
    r := s;
    while left > 0 && r.cursor < |Selected(q, r.log)| && r.phase.Running?
      invariant r.phase.Running? ==> !r.stop
      invariant Deliver(q, s, n, interrupt) == if r.phase.Running? then Deliver(q, r, left, cut) else r
    {
      r := HandMessage(q, r, Selected(q, r.log)[r.cursor], cut);
      left, cut := left - 1, Tail(cut);
    }
  }

  // The handlers around one fetch.
  method HandleFetch(q: Query, cfg: Config, s: Stream, fetch: Fetch) returns (r: Stream)
    requires s.phase.Running? && !s.stop
    ensures r == AfterFetch(q, cfg, s, fetch)
  {
    r := s;
    match fetch
    case Batch(count, interrupt) =>
      r := HandOver(q, r, Min(count, cfg.batchSize), interrupt);
    case NoMessages =>
    case NoHeartbeat(reopen) =>
      r := r.(misses := r.misses + 1, effects := r.effects + [Missed(r.sub)]);
      if r.misses == cfg.maxMisses {
        r := r.(effects := r.effects + [Closed(r.sub)]);
        match reopen
        case Reopened =>
          r := r.(sub := r.sub + 1, cursor := 0);
          r := r.(effects := r.effects + [Opened(r.sub)], misses := 0);
        case ReopenRaised(stopped) =>
          r := r.(stop := r.stop || stopped, phase := Ended(NotReopened));
        case ReopenCancelled =>
          r := r.(stop := true, phase := Ended(WasCancelled));
      }
    case FetchRaised =>
      r := r.(stop := true, phase := Ended(Raised));
    case FetchCancelled =>
      r := r.(stop := true, phase := Ended(WasCancelled));
  }

  // process_events: the fetch loop and its `finally` clause, over one environment script.
  method StreamEvents(q: Query, cfg: Config, log: seq<Message>, subscribed: bool, ticks: seq<Tick>)
    returns (s: Stream)
    ensures s == Run(q, cfg, Start(log, subscribed), ticks)
  {
    ghost var start := Start(log, subscribed);
    s := Start(log, subscribed);
    var i := 0;
    while i < |ticks| && s.phase.Running?
      invariant 0 <= i <= |ticks|
      invariant s == Run(q, cfg, start, ticks[..i])
    {
      var tick := ticks[i];
      ghost var before := s;
      assert ticks[..i + 1][..i] == ticks[..i];
      s := s.(log := s.log + tick.arrivals, stop := s.stop || tick.stopped);
      if s.stop {
        s := s.(phase := Ended(StopSeen));
      } else {
        var remaining := cfg.EndTime() - tick.now;
        if remaining <= 0 {
          s := s.(stop := true, phase := Ended(DeadlineReached));
        } else {
          s := s.(effects := s.effects + [Fetched(s.sub, tick.now)]);
          s := HandleFetch(q, cfg, s, tick.fetch);
        }
      }
      assert s == Iterate(q, cfg, before, tick);
      if s.phase.Ended? {
        s := s.(effects := s.effects + [Closed(s.sub)]);
      }
      i := i + 1;
    }
    EndedRunStays(q, cfg, start, ticks, i);
  }
}
