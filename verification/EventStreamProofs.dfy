// What every run of the event stream keeps, and what it promises the client.
module EventStreamProofs {
  import opened EventLog
  import opened EventStream
  import opened Wrappers

  // ---- Reading a list of effects ----

  function Init<T>(es: seq<T>): seq<T> requires es != [] { es[..|es| - 1] }

  function Last<T>(es: seq<T>): T requires es != [] { es[|es| - 1] }

  // The subscriptions open after the effects.
  function OpenSubs(es: seq<Effect>): set<nat> {
    if es == [] then {}
    else if Last(es).Opened? then OpenSubs(Init(es)) + {Last(es).sub}
    else if Last(es).Closed? then OpenSubs(Init(es)) - {Last(es).sub}
    else OpenSubs(Init(es))
  }

  // A subscription is opened only when none is open; fetches and yields use the only open one.
  predicate Disciplined(es: seq<Effect>) {
    es == [] ||
    (&& Disciplined(Init(es))
     && (Last(es).Opened? ==> OpenSubs(Init(es)) == {})
     && (Last(es).Fetched? || Last(es).Yielded? || Last(es).Missed? ==> OpenSubs(Init(es)) == {Last(es).sub}))
  }

  function YieldCount(es: seq<Effect>, sub: nat): nat {
    if es == [] then 0
    else YieldCount(Init(es), sub) + if Last(es).Yielded? && Last(es).sub == sub then 1 else 0
  }

  // One past the highest log position ever yielded.
  function Reach(es: seq<Effect>): nat {
    if es == [] then 0
    else if Last(es).Yielded? && Reach(Init(es)) <= Last(es).at then Last(es).at + 1
    else Reach(Init(es))
  }

  // Each subscription yields the selected messages from position 0 on, without gaps.
  predicate Ordered(q: Query, log: seq<Message>, es: seq<Effect>) {
    es == [] ||
    (&& Ordered(q, log, Init(es))
     && (Last(es).Yielded? ==>
           && Last(es).at == YieldCount(Init(es), Last(es).sub) < |Selected(q, log)|
           && Last(es).message == Selected(q, log)[Last(es).at]))
  }

  lemma Appended(es: seq<Effect>, e: Effect)
    ensures Init(es + [e]) == es && Last(es + [e]) == e
  {
  }

  lemma {:induction false} OrderedGrows(q: Query, log: seq<Message>, more: seq<Message>, es: seq<Effect>)
    requires Ordered(q, log, es)
    ensures Ordered(q, log + more, es)
  {
    if es != [] {
      OrderedGrows(q, log, more, Init(es));
      SelectedAppend(q, log, more);
    }
  }

  // No effect of a subscription not opened yet, so none of its yields either.
  lemma {:induction false} FreshSubscription(es: seq<Effect>, sub: nat)
    requires forall e | e in es :: e.sub < sub
    ensures YieldCount(es, sub) == 0
  {
    if es != [] {
      assert Last(es) in es;
      FreshSubscription(Init(es), sub);
    }
  }

  // ---- The invariant ----

  function Answer(r: Option<Message>): seq<Message> {
    if r.Some? then [r.value] else []
  }

  // The client has the first match of all that was yielded, unless it left before the last filter.
  predicate Answered(q: Query, all: seq<Message>, reach: nat, phase: Phase, sent: seq<Message>) {
    && reach <= |all|
    && (phase == Ended(Found) <==> sent != [])
    && if phase == Ended(Gone) then reach > 0 && FirstMatch(q, all[..reach - 1]).None?
       else sent == Answer(FirstMatch(q, all[..reach]))
  }

  predicate SetsStop(exit: Exit) {
    exit != NotSubscribed && exit != NotReopened
  }

  // While the stream runs the stop event is clear; it is set by every exit but a failed subscription.
  predicate Flagged(phase: Phase, stop: bool) {
    match phase
    case Running => !stop
    case Ended(exit) => (SetsStop(exit) ==> stop) && (exit == NotSubscribed ==> !stop)
  }

  predicate Bounded(cfg: Config, phase: Phase, sub: nat, misses: int) {
    && (phase.Running? && cfg.maxMisses >= 1 ==> 0 <= misses < cfg.maxMisses)
    && (cfg.maxMisses <= 0 ==> sub == 0 <= misses)
  }

  // What the effects say about the subscriptions and the fetches.
  ghost predicate Traced(q: Query, log: seq<Message>, end: int, sub: nat, cursor: nat, es: seq<Effect>) {
    && Disciplined(es)
    && Ordered(q, log, es)
    && OpenSubs(es) <= {sub}
    && (forall e | e in es :: e.sub <= sub)
    && (forall e | e in es && e.Fetched? :: e.now < end)
    && YieldCount(es, sub) == cursor <= Reach(es)
  }

  ghost predicate Core(q: Query, cfg: Config, s: Stream) {
    && Traced(q, s.log, cfg.EndTime(), s.sub, s.cursor, s.effects)
    && (s.phase.Running? ==> OpenSubs(s.effects) == {s.sub})
    && Answered(q, Selected(q, s.log), Reach(s.effects), s.phase, s.sent)
    && Flagged(s.phase, s.stop)
    && Bounded(cfg, s.phase, s.sub, s.misses)
  }

  ghost predicate Inv(q: Query, cfg: Config, s: Stream) {
    Core(q, cfg, s) && (s.phase.Ended? ==> OpenSubs(s.effects) == {})
  }

  // ---- Each transition keeps it ----

  lemma LogGrows(q: Query, cfg: Config, s: Stream, more: seq<Message>)
    requires Core(q, cfg, s)
    ensures Core(q, cfg, s.(log := s.log + more))
  {
    SelectedAppend(q, s.log, more);
    OrderedGrows(q, s.log, more, s.effects);
    var reach := Reach(s.effects);
    assert Selected(q, s.log + more)[..reach] == Selected(q, s.log)[..reach];
    if reach > 0 {
      assert Selected(q, s.log + more)[..reach - 1] == Selected(q, s.log)[..reach - 1];
    }
  }

  // Looking one position further looks at one more message.
  lemma OneFurther(q: Query, ms: seq<Message>, p: nat)
    requires p < |ms|
    ensures FirstMatch(q, ms[..p + 1]) ==
            if FirstMatch(q, ms[..p]).Some? then FirstMatch(q, ms[..p])
            else if Matches(q, ms[p]) then Some(ms[p]) else None
  {
    assert ms[..p + 1] == ms[..p] + [ms[p]];
    FirstMatchAppend(q, ms[..p], [ms[p]]);
    assert [ms[p]][1..] == [];
  }

  lemma YieldTraced(q: Query, log: seq<Message>, end: int, sub: nat, cursor: nat, es: seq<Effect>)
    requires Traced(q, log, end, sub, cursor, es) && OpenSubs(es) == {sub} && cursor < |Selected(q, log)|
    ensures var es' := es + [Yielded(sub, cursor, Selected(q, log)[cursor])];
            && Traced(q, log, end, sub, cursor + 1, es')
            && OpenSubs(es') == {sub}
            && Reach(es') == if cursor < Reach(es) then Reach(es) else cursor + 1
  {
    Appended(es, Yielded(sub, cursor, Selected(q, log)[cursor]));
  }

  // Nothing in a prefix of an unmatched prefix matches.
  lemma NoEarlierMatch(q: Query, ms: seq<Message>, p: nat)
    requires p <= |ms| && FirstMatch(q, ms).None?
    ensures FirstMatch(q, ms[..p]).None?
  {
    assert ms == ms[..p] + ms[p..];
    FirstMatchAppend(q, ms[..p], ms[p..]);
  }

  // A yield while the stream runs: a replayed message cannot match, a new one decides the answer.
  lemma YieldAnswers(q: Query, all: seq<Message>, p: nat, reach: nat)
    requires p < |all| && p <= reach <= |all| && FirstMatch(q, all[..reach]).None?
    ensures var reach' := if p < reach then reach else p + 1;
            && FirstMatch(q, all[..reach' - 1]).None?
            && FirstMatch(q, all[..reach']) == if Matches(q, all[p]) then Some(all[p]) else None
  {
    OneFurther(q, all, p);
    if p < reach {
      assert all[..reach][..p + 1] == all[..p + 1];
      assert all[..reach][..reach - 1] == all[..reach - 1];
      NoEarlierMatch(q, all[..reach], p + 1);
      NoEarlierMatch(q, all[..reach], reach - 1);
    }
  }

  lemma EndKeeps(q: Query, cfg: Config, s: Stream, exit: Exit)
    requires Core(q, cfg, s) && s.phase.Running? && exit != Found && exit != Gone && SetsStop(exit)
    ensures Core(q, cfg, s.End(exit, true))
  {
  }

  lemma YieldAnswered(q: Query, all: seq<Message>, p: nat, reach: nat, phase: Phase)
    requires p < |all| && p <= reach && Answered(q, all, reach, Running, [])
    requires phase == Ended(Gone) || (phase == Ended(Found) <==> Matches(q, all[p]))
    ensures Answered(q, all, if p < reach then reach else p + 1, phase, if phase == Ended(Found) then [all[p]] else [])
  {
    YieldAnswers(q, all, p, reach);
  }

  lemma YieldKeeps(q: Query, cfg: Config, s: Stream, m: Message, phase: Phase)
    requires Core(q, cfg, s) && s.phase.Running? && s.cursor < |Selected(q, s.log)|
    requires m == Selected(q, s.log)[s.cursor]
    requires phase.Ended? ==> SetsStop(phase.exit)
    requires phase == Ended(Gone) || (phase == Ended(Found) <==> Matches(q, m))
    ensures Core(q, cfg, AfterYield(s, m, phase))
  {
    YieldTraced(q, s.log, cfg.EndTime(), s.sub, s.cursor, s.effects);
    YieldAnswered(q, Selected(q, s.log), s.cursor, Reach(s.effects), phase);
    var r := AfterYield(s, m, phase);
    assert s.sent == [] && s.sent + [m] == [m];
    assert Answered(q, Selected(q, r.log), Reach(r.effects), r.phase, r.sent);
  }

  lemma HandOneKeeps(q: Query, cfg: Config, s: Stream, i: Interrupt)
    requires Core(q, cfg, s) && s.phase.Running? && s.cursor < |Selected(q, s.log)|
    ensures Core(q, cfg, HandOne(q, s, Selected(q, s.log)[s.cursor], i))
  {
    var m := Selected(q, s.log)[s.cursor];
    if m.body.Malformed? {
      EndKeeps(q, cfg, s, Raised);
    } else {
      YieldKeeps(q, cfg, s, m, PhaseAfter(q, m, i));
    }
  }

  lemma {:induction false} DeliverKeeps(q: Query, cfg: Config, s: Stream, n: nat, i: Interrupt)
    requires Core(q, cfg, s) && s.phase.Running?
    ensures Core(q, cfg, Deliver(q, s, n, i))
    decreases n
  {
    if n > 0 && s.cursor < |Selected(q, s.log)| {
      HandOneKeeps(q, cfg, s, i);
      var r := HandOne(q, s, Selected(q, s.log)[s.cursor], i);
      if r.phase.Running? {
        DeliverKeeps(q, cfg, r, n - 1, Tail(i));
      }
    }
  }

  lemma MissTraced(q: Query, log: seq<Message>, end: int, sub: nat, cursor: nat, es: seq<Effect>)
    requires Traced(q, log, end, sub, cursor, es) && OpenSubs(es) == {sub}
    ensures var es' := es + [Missed(sub)];
            Traced(q, log, end, sub, cursor, es') && OpenSubs(es') == {sub} && Reach(es') == Reach(es)
  {
    Appended(es, Missed(sub));
  }

  lemma CloseTraced(q: Query, log: seq<Message>, end: int, sub: nat, cursor: nat, es: seq<Effect>)
    requires Traced(q, log, end, sub, cursor, es) && OpenSubs(es) == {sub}
    ensures var es' := es + [Closed(sub)];
            Traced(q, log, end, sub, cursor, es') && OpenSubs(es') == {} && Reach(es') == Reach(es)
  {
    Appended(es, Closed(sub));
  }

  lemma OpenTraced(q: Query, log: seq<Message>, end: int, sub: nat, cursor: nat, es: seq<Effect>)
    requires Traced(q, log, end, sub, cursor, es) && OpenSubs(es) == {}
    ensures var es' := es + [Opened(sub + 1)];
            Traced(q, log, end, sub + 1, 0, es') && OpenSubs(es') == {sub + 1} && Reach(es') == Reach(es)
  {
    var es' := es + [Opened(sub + 1)];
    Appended(es, Opened(sub + 1));
    FreshSubscription(es, sub + 1);
    assert YieldCount(es', sub + 1) == 0;
    assert OpenSubs(es') == {sub + 1};
  }

  lemma LostTraced(q: Query, log: seq<Message>, end: int, sub: nat, cursor: nat, es: seq<Effect>)
    requires Traced(q, log, end, sub, cursor, es) && OpenSubs(es) == {sub}
    ensures var es' := es + [Missed(sub)] + [Closed(sub)];
            Traced(q, log, end, sub, cursor, es') && OpenSubs(es') == {} && Reach(es') == Reach(es)
  {
    MissTraced(q, log, end, sub, cursor, es);
    CloseTraced(q, log, end, sub, cursor, es + [Missed(sub)]);
  }

  lemma ReopenTraced(q: Query, log: seq<Message>, end: int, sub: nat, cursor: nat, es: seq<Effect>)
    requires Traced(q, log, end, sub, cursor, es) && OpenSubs(es) == {sub}
    ensures var es' := es + [Missed(sub)] + [Closed(sub)] + [Opened(sub + 1)];
            Traced(q, log, end, sub + 1, 0, es') && OpenSubs(es') == {sub + 1} && Reach(es') == Reach(es)
  {
    LostTraced(q, log, end, sub, cursor, es);
    OpenTraced(q, log, end, sub, cursor, es + [Missed(sub)] + [Closed(sub)]);
  }

  lemma MissOnlyKeeps(q: Query, cfg: Config, s: Stream, reopen: Reopen)
    requires Core(q, cfg, s) && s.phase.Running? && s.misses + 1 != cfg.maxMisses
    ensures Core(q, cfg, Miss(cfg, s, reopen))
  {
    MissTraced(q, s.log, cfg.EndTime(), s.sub, s.cursor, s.effects);
  }

  lemma ReopenKeeps(q: Query, cfg: Config, s: Stream, reopen: Reopen)
    requires Core(q, cfg, s) && s.phase.Running? && s.misses + 1 == cfg.maxMisses && reopen.Reopened?
    ensures Core(q, cfg, Miss(cfg, s, reopen))
  {
    ReopenTraced(q, s.log, cfg.EndTime(), s.sub, s.cursor, s.effects);
  }

  lemma LossKeeps(q: Query, cfg: Config, s: Stream, reopen: Reopen)
    requires Core(q, cfg, s) && s.phase.Running? && s.misses + 1 == cfg.maxMisses && !reopen.Reopened?
    ensures Core(q, cfg, Miss(cfg, s, reopen))
  {
    LostTraced(q, s.log, cfg.EndTime(), s.sub, s.cursor, s.effects);
  }

  lemma MissKeeps(q: Query, cfg: Config, s: Stream, reopen: Reopen)
    requires Core(q, cfg, s) && s.phase.Running?
    ensures Core(q, cfg, Miss(cfg, s, reopen))
  {
    if s.misses + 1 != cfg.maxMisses {
      MissOnlyKeeps(q, cfg, s, reopen);
    } else if reopen.Reopened? {
      ReopenKeeps(q, cfg, s, reopen);
    } else {
      LossKeeps(q, cfg, s, reopen);
    }
  }

  lemma FetchKeeps(q: Query, cfg: Config, s: Stream, now: int)
    requires Core(q, cfg, s) && s.phase.Running? && now < cfg.EndTime()
    ensures Core(q, cfg, s.Emit(Fetched(s.sub, now)))
  {
    Appended(s.effects, Fetched(s.sub, now));
  }

  lemma AfterFetchKeeps(q: Query, cfg: Config, s: Stream, fetch: Fetch)
    requires Core(q, cfg, s) && s.phase.Running?
    ensures Core(q, cfg, AfterFetch(q, cfg, s, fetch))
  {
    match fetch
    case Batch(count, i) => DeliverKeeps(q, cfg, s, Min(count, cfg.batchSize), i);
    case NoMessages =>
    case NoHeartbeat(reopen) => MissKeeps(q, cfg, s, reopen);
    case FetchRaised => EndKeeps(q, cfg, s, Raised);
    case FetchCancelled => EndKeeps(q, cfg, s, WasCancelled);
  }

  lemma IterateKeeps(q: Query, cfg: Config, s: Stream, t: Tick)
    requires Core(q, cfg, s) && s.phase.Running?
    ensures Core(q, cfg, Iterate(q, cfg, s, t))
  {
    LogGrows(q, cfg, s, t.arrivals);
    var s := s.(log := s.log + t.arrivals);
    if t.stopped {
      EndKeeps(q, cfg, s, StopSeen);
    } else if cfg.EndTime() <= t.now {
      EndKeeps(q, cfg, s, DeadlineReached);
    } else {
      FetchKeeps(q, cfg, s, t.now);
      AfterFetchKeeps(q, cfg, s.Emit(Fetched(s.sub, t.now)), t.fetch);
    }
  }

  lemma StepKeeps(q: Query, cfg: Config, s: Stream, t: Tick)
    requires Inv(q, cfg, s)
    ensures Inv(q, cfg, Step(q, cfg, s, t))
  {
    if s.phase.Running? {
      IterateKeeps(q, cfg, s, t);
      var r := Iterate(q, cfg, s, t);
      Appended(r.effects, Closed(r.sub));
    }
  }

  lemma StartKeeps(q: Query, cfg: Config, log: seq<Message>, subscribed: bool)
    ensures Inv(q, cfg, Start(log, subscribed))
  {
    Appended([], Opened(0));
    assert [] + [Opened(0)] == [Opened(0)];
    assert Selected(q, log)[..0] == [];
  }

  lemma {:induction false} RunKeeps(q: Query, cfg: Config, log: seq<Message>, subscribed: bool, ticks: seq<Tick>)
    ensures Inv(q, cfg, Run(q, cfg, Start(log, subscribed), ticks))
  {
    if ticks == [] {
      StartKeeps(q, cfg, log, subscribed);
    } else {
      RunKeeps(q, cfg, log, subscribed, ticks[..|ticks| - 1]);
      StepKeeps(q, cfg, Run(q, cfg, Start(log, subscribed), ticks[..|ticks| - 1]), ticks[|ticks| - 1]);
    }
  }

  // ---- What a run promises ----

  // Over any run the client is sent at most one event: the earliest match of all messages yielded in
  // any subscription. Once sent, it is the answer of the whole log, whatever is published later.
  lemma ClientGetsFirstMatch(q: Query, cfg: Config, log: seq<Message>, subscribed: bool, ticks: seq<Tick>,
                             later: seq<Message>)
    ensures var s := Run(q, cfg, Start(log, subscribed), ticks);
            var all, reach := Selected(q, s.log), Reach(s.effects);
            && reach <= |all|
            && (s.phase == Ended(Found) <==> s.sent != [])
            && (s.phase != Ended(Gone) ==> s.sent == Answer(FirstMatch(q, all[..reach])))
            && (s.phase == Ended(Gone) ==> reach > 0 && FirstMatch(q, all[..reach - 1]).None?)
            && (s.sent != [] ==> s.sent == Answer(FirstMatch(q, Selected(q, s.log + later))))
            && (s.phase != Ended(Gone) && reach == |all| ==> s.sent == Answer(FirstMatch(q, all)))
  {
    RunKeeps(q, cfg, log, subscribed, ticks);
    var s := Run(q, cfg, Start(log, subscribed), ticks);
    var reach := Reach(s.effects);
    if s.sent != [] {
      AnswerIsStable(q, s.log, later, reach);
    }
    assert Selected(q, s.log)[..|Selected(q, s.log)|] == Selected(q, s.log);
  }

  // A batch that nothing interrupts and that decodes is searched completely: its first match is sent,
  // and without a match the subscription moves past the whole batch.
  lemma BatchIsSearched(q: Query, s: Stream, n: nat)
    requires s.phase.Running? && !s.stop && s.sent == [] && s.cursor + n <= |Selected(q, s.log)|
    requires forall m | m in Selected(q, s.log)[s.cursor..s.cursor + n] :: m.body.Decoded?
    ensures var batch := Selected(q, s.log)[s.cursor..s.cursor + n];
            var r := Deliver(q, s, n, Never);
            && r.sent == Answer(FirstMatch(q, batch))
            && (if FirstMatch(q, batch).Some? then r.phase == Ended(Found) && r.stop
                else r.phase.Running? && r.cursor == s.cursor + n)
  {
    var all := Selected(q, s.log);
    var k := MatchWithin(q, all, s.cursor, n);
    NothingBefore(q, all, s.cursor, n, k);
    if k == s.cursor + n {
      HandedWhole(q, s, all, n, Never, k);
    } else {
      HandedUntil(q, s, all, n, Never, k, Found);
    }
  }

  lemma NothingBefore(q: Query, all: seq<Message>, from: nat, n: nat, k: nat)
    requires from <= k <= from + n <= |all| && forall m | m in all[from..from + n] :: m.body.Decoded?
    requires forall j | from <= j < k :: !Matches(q, all[j])
    ensures Uneventful(q, all, Never, from, k)
  {
    assert forall j | from <= j < k :: all[j] in all[from..from + n];
  }

  // The position of the first match of a batch, or its end.
  lemma MatchWithin(q: Query, all: seq<Message>, from: nat, n: nat) returns (k: nat)
    requires from + n <= |all|
    ensures from <= k <= from + n && forall j | from <= j < k :: !Matches(q, all[j])
    ensures k < from + n ==> Matches(q, all[k])
    ensures FirstMatch(q, all[from..from + n]) == if k < from + n then Some(all[k]) else None
  {
    var batch := all[from..from + n];
    assert forall j | from <= j < from + n :: all[j] == batch[j - from];
    FirstMatchIsFirst(q, batch);
    if FirstMatch(q, batch).None? {
      k := from + n;
    } else {
      var i :| 0 <= i < |batch| && batch[i] == FirstMatch(q, batch).value && Matches(q, batch[i])
               && forall j | 0 <= j < i :: !Matches(q, batch[j]);
      k := from + i;
    }
  }

  // Something happens at this message: it does not decode, it matches, or the hand-over is cut short.
  predicate Eventful(q: Query, m: Message, i: Interrupt, distance: nat) {
    m.body.Malformed? || Matches(q, m) || (i.At? && i.at == distance)
  }

  // How the stream ends at a message where something happens. A client that has gone is not sent its event.
  function ExitAt(q: Query, m: Message, i: Interrupt, distance: nat): Exit {
    if m.body.Malformed? then Raised
    else if i == At(distance, ClientGone) then Gone
    else if Matches(q, m) then Found
    else if i == At(distance, AckRaised) then Raised
    else WasCancelled
  }

  predicate Uneventful(q: Query, all: seq<Message>, i: Interrupt, from: nat, to: nat) {
    to <= |all| && forall j | from <= j < to :: !Eventful(q, all[j], i, j - from)
  }

  // A message where nothing happens is handed over, and the rest of the batch stays as it was.
  lemma HandsOn(q: Query, s: Stream, all: seq<Message>, i: Interrupt, to: nat)
    requires s.phase.Running? && !s.stop && s.cursor < to && Uneventful(q, all, i, s.cursor, to)
    ensures HandOne(q, s, all[s.cursor], i) == AfterYield(s, all[s.cursor], Running)
    ensures Uneventful(q, all, Tail(i), s.cursor + 1, to) && (i.At? ==> i.at > 0)
  {
    assert !Eventful(q, all[s.cursor], i, 0);
    forall j | s.cursor + 1 <= j < to ensures !Eventful(q, all[j], Tail(i), j - (s.cursor + 1)) {
      assert !Eventful(q, all[j], i, j - s.cursor);
    }
  }

  // The hand-over goes on to the end of the batch if nothing happens before.
  lemma {:induction false} HandedWhole(q: Query, s: Stream, all: seq<Message>, n: nat, i: Interrupt, k: nat)
    requires s.phase.Running? && !s.stop && all == Selected(q, s.log)
    requires s.cursor <= k <= s.cursor + n && (k == s.cursor + n || k == |all|) && Uneventful(q, all, i, s.cursor, k)
    ensures var r := Deliver(q, s, n, i); r.phase.Running? && !r.stop && r.cursor == k && r.sent == s.sent
    decreases n
  {
    if s.cursor < k {
      HandsOn(q, s, all, i, k);
      HandedWhole(q, AfterYield(s, all[s.cursor], Running), all, n - 1, Tail(i), k);
    }
  }

  lemma OneCloser(q: Query, m: Message, i: Interrupt, distance: nat)
    requires distance > 0 && (i.At? ==> i.at > 0)
    ensures Eventful(q, m, Tail(i), distance - 1) == Eventful(q, m, i, distance)
    ensures ExitAt(q, m, Tail(i), distance - 1) == ExitAt(q, m, i, distance)
  {
  }

  // The stream that has ended at `m`.
  predicate EndedAt(s: Stream, r: Stream, m: Message, k: nat, exit: Exit) {
    && r.phase == Ended(exit) && r.stop
    && r.cursor == (if m.body.Malformed? then k else k + 1)
    && r.sent == if exit == Found then s.sent + [m] else s.sent
  }

  lemma EndsHere(q: Query, s: Stream, m: Message, i: Interrupt)
    requires s.phase.Running? && Eventful(q, m, i, 0)
    ensures EndedAt(s, HandOne(q, s, m, i), m, s.cursor, ExitAt(q, m, i, 0))
  {
    assert i.At? ==> i.cause.ClientGone? || i.cause.AckRaised? || i.cause.AckCancelled?;
  }

  // Otherwise it ends the stream at the first message where something happens.
  lemma {:induction false} HandedUntil(q: Query, s: Stream, all: seq<Message>, n: nat, i: Interrupt, k: nat, exit: Exit)
    requires s.phase.Running? && !s.stop && all == Selected(q, s.log)
    requires s.cursor <= k < s.cursor + n && k < |all| && Uneventful(q, all, i, s.cursor, k)
    requires Eventful(q, all[k], i, k - s.cursor) && exit == ExitAt(q, all[k], i, k - s.cursor)
    ensures EndedAt(s, Deliver(q, s, n, i), all[k], k, exit)
    decreases n
  {
    if s.cursor < k {
      var r := AfterYield(s, all[s.cursor], Running);
      HandsOn(q, s, all, i, k);
      OneCloser(q, all[k], i, k - s.cursor);
      HandedUntil(q, r, all, n - 1, Tail(i), k, exit);
      assert Deliver(q, s, n, i) == Deliver(q, r, n - 1, Tail(i));
    } else {
      EndsHere(q, s, all[k], i);
      assert Deliver(q, s, n, i) == HandOne(q, s, all[k], i);
    }
  }

  // With a match ahead and only decodable messages up to it, a batch reaches the match or is handed over whole.
  lemma {:induction false} Approaches(q: Query, s: Stream, all: seq<Message>, n: nat, p: nat)
    requires s.phase.Running? && !s.stop && all == Selected(q, s.log)
    requires s.cursor <= p < |all| && Matches(q, all[p])
    requires forall j | s.cursor <= j <= p :: all[j].body.Decoded?
    ensures var r := Deliver(q, s, n, Never);
            && (r.phase == Ended(Found) || (r.phase.Running? && !r.stop && r.cursor == s.cursor + n <= p))
            && r.log == s.log
    decreases n
  {
    if n > 0 {
      var r := HandOne(q, s, all[s.cursor], Never);
      if r.phase.Running? {
        Approaches(q, r, all, n - 1, p);
      }
    }
  }

  // An uninterrupted fetch of messages, or of none for now, before the end time.
  predicate Undisturbed(cfg: Config, t: Tick) {
    && !t.stopped && t.now < cfg.EndTime()
    && (t.fetch.NoMessages? || (t.fetch.Batch? && t.fetch.count > 0 && t.fetch.interrupt == Never))
  }

  function Batches(ticks: seq<Tick>): nat {
    if ticks == [] then 0 else Batches(ticks[..|ticks| - 1]) + if ticks[|ticks| - 1].fetch.Batch? then 1 else 0
  }

  lemma UndisturbedStep(q: Query, cfg: Config, s: Stream, all: seq<Message>, p: nat, t: Tick)
    requires s.phase.Running? && !s.stop && cfg.batchSize > 0 && Undisturbed(cfg, t)
    requires all <= Selected(q, s.log)
    requires s.cursor <= p < |all| && Matches(q, all[p]) && forall j | 0 <= j <= p :: all[j].body.Decoded?
    ensures var r := Step(q, cfg, s, t);
            && all <= Selected(q, r.log)
            && (r.phase == Ended(Found) || (r.phase.Running? && !r.stop && s.cursor + Batches([t]) <= r.cursor <= p))
  {
    var grown := s.(log := s.log + t.arrivals, effects := s.effects + [Fetched(s.sub, t.now)]);
    SelectedAppend(q, s.log, t.arrivals);
    var now := Selected(q, grown.log);
    assert forall j | 0 <= j <= p :: all[j] == now[j];
    assert Batches([t]) == if t.fetch.Batch? then 1 else 0;
    if t.fetch.Batch? {
      Approaches(q, grown, now, Min(t.fetch.count, cfg.batchSize), p);
    }
  }

  lemma {:induction false} Nears(q: Query, cfg: Config, log: seq<Message>, ticks: seq<Tick>, p: nat)
    requires cfg.batchSize > 0 && forall t | t in ticks :: Undisturbed(cfg, t)
    requires p < |Selected(q, log)| && Matches(q, Selected(q, log)[p])
    requires forall j | 0 <= j <= p :: Selected(q, log)[j].body.Decoded?
    ensures var s := Run(q, cfg, Start(log, true), ticks);
            && Selected(q, log) <= Selected(q, s.log)
            && (s.phase == Ended(Found) || (s.phase.Running? && !s.stop && Batches(ticks) <= s.cursor <= p))
  {
    if ticks != [] {
      var before, t := ticks[..|ticks| - 1], ticks[|ticks| - 1];
      assert t in ticks;
      Nears(q, cfg, log, before, p);
      var s := Run(q, cfg, Start(log, true), before);
      if s.phase.Running? {
        UndisturbedStep(q, cfg, s, Selected(q, log), p, t);
      }
    }
  }

  // Over a whole run the client gets its event: if a match stands at position `p` of what the log holds for
  // the query and everything up to it decodes, more than `p` undisturbed batches send the first match.
  lemma MatchIsReached(q: Query, cfg: Config, log: seq<Message>, ticks: seq<Tick>, p: nat)
    requires cfg.batchSize > 0 && forall t | t in ticks :: Undisturbed(cfg, t)
    requires p < |Selected(q, log)| && Matches(q, Selected(q, log)[p])
    requires forall j | 0 <= j <= p :: Selected(q, log)[j].body.Decoded?
    requires Batches(ticks) > p
    ensures var s := Run(q, cfg, Start(log, true), ticks);
            s.phase == Ended(Found) && s.sent == Answer(FirstMatch(q, Selected(q, log)))
  {
    Nears(q, cfg, log, ticks, p);
    FoundAnswer(q, cfg, log, ticks);
    AnswerIsHeld(q, Selected(q, log), Selected(q, Run(q, cfg, Start(log, true), ticks).log), p);
  }

  lemma FoundAnswer(q: Query, cfg: Config, log: seq<Message>, ticks: seq<Tick>)
    ensures var s := Run(q, cfg, Start(log, true), ticks);
            s.phase == Ended(Found) ==> s.sent == Answer(FirstMatch(q, Selected(q, s.log)))
  {
    var s := Run(q, cfg, Start(log, true), ticks);
    ClientGetsFirstMatch(q, cfg, log, true, ticks, []);
    assert s.log + [] == s.log;
  }

  lemma AnswerIsHeld(q: Query, held: seq<Message>, all: seq<Message>, p: nat)
    requires held <= all && p < |held| && Matches(q, held[p])
    ensures FirstMatch(q, all) == FirstMatch(q, held)
  {
    assert all == held + all[|held|..];
    FirstMatchAppend(q, held, all[|held|..]);
    FirstMatchIsFirst(q, held);
  }

  lemma {:induction false} EffectAt(q: Query, log: seq<Message>, es: seq<Effect>, i: nat)
    requires i < |es| && Disciplined(es) && Ordered(q, log, es)
    ensures Disciplined(es[..i]) && Ordered(q, log, es[..i])
    ensures es[i].Opened? ==> OpenSubs(es[..i]) == {}
    ensures es[i].Fetched? || es[i].Yielded? ==> OpenSubs(es[..i]) == {es[i].sub}
    ensures es[i].Yielded? ==>
              && es[i].at == YieldCount(es[..i], es[i].sub) < |Selected(q, log)|
              && es[i].message == Selected(q, log)[es[i].at]
  {
    if i + 1 < |es| {
      assert Init(es)[..i] == es[..i];
      EffectAt(q, log, Init(es), i);
    }
  }

  // A subscription that has yielded `c` messages has yielded exactly the positions below `c`.
  lemma {:induction false} YieldedBefore(q: Query, log: seq<Message>, es: seq<Effect>, sub: nat, p: nat)
    requires Ordered(q, log, es) && p < YieldCount(es, sub)
    ensures p < |Selected(q, log)| && Yielded(sub, p, Selected(q, log)[p]) in es
  {
    if p < YieldCount(Init(es), sub) {
      YieldedBefore(q, log, Init(es), sub, p);
    } else {
      assert Last(es) in es;
    }
  }

  // Every yielded message is the one the log holds at its position, and each message selected
  // before it has been yielded earlier by the same subscription.
  lemma EarlierEventsFirst(q: Query, cfg: Config, log: seq<Message>, subscribed: bool, ticks: seq<Tick>, i: nat, p: nat)
    requires i < |Run(q, cfg, Start(log, subscribed), ticks).effects|
    requires Run(q, cfg, Start(log, subscribed), ticks).effects[i].Yielded?
    ensures var s := Run(q, cfg, Start(log, subscribed), ticks);
            var all, e := Selected(q, s.log), s.effects[i];
            && e.at < |all| && e.message == all[e.at]
            && (p < e.at <==> p < |all| && p < YieldCount(s.effects[..i], e.sub))
            && (p < e.at ==> Yielded(e.sub, p, all[p]) in s.effects[..i])
  {
    RunKeeps(q, cfg, log, subscribed, ticks);
    var s := Run(q, cfg, Start(log, subscribed), ticks);
    EffectAt(q, s.log, s.effects, i);
    if p < s.effects[i].at {
      YieldedBefore(q, s.log, s.effects[..i], s.effects[i].sub, p);
    }
  }

  lemma {:induction false} OpenAtMostOne(es: seq<Effect>)
    requires Disciplined(es)
    ensures |OpenSubs(es)| <= 1
  {
    if es != [] {
      OpenAtMostOne(Init(es));
      if Last(es).Closed? {
        var open, sub := OpenSubs(Init(es)), Last(es).sub;
        if sub in open {
          assert |open - {sub}| == |open| - 1;
        } else {
          assert open - {sub} == open;
        }
      }
    }
  }

  // At every step at most one subscription is open, the old one is closed before the next is opened,
  // messages are fetched and yielded only over the open one, and none is open once the run has ended.
  lemma OneSubscription(q: Query, cfg: Config, log: seq<Message>, subscribed: bool, ticks: seq<Tick>, i: nat)
    ensures var s := Run(q, cfg, Start(log, subscribed), ticks);
            && (i < |s.effects| ==>
                  && |OpenSubs(s.effects[..i])| <= 1
                  && (s.effects[i].Opened? ==> OpenSubs(s.effects[..i]) == {})
                  && (s.effects[i].Fetched? || s.effects[i].Yielded? ==> OpenSubs(s.effects[..i]) == {s.effects[i].sub}))
            && OpenSubs(s.effects) == if s.phase.Running? then {s.sub} else {}
  {
    RunKeeps(q, cfg, log, subscribed, ticks);
    var s := Run(q, cfg, Start(log, subscribed), ticks);
    if i < |s.effects| {
      EffectAt(q, s.log, s.effects, i);
      OpenAtMostOne(s.effects[..i]);
    }
  }

  // At each loop head the counter of missed heartbeats is below its limit, provided the limit is
  // positive; with a limit of zero or less the stream never resubscribes.
  lemma MissesStayBelowLimit(q: Query, cfg: Config, log: seq<Message>, ticks: seq<Tick>)
    ensures var s := Run(q, cfg, Start(log, true), ticks);
            && (s.phase.Running? && cfg.maxMisses >= 1 ==> 0 <= s.misses < cfg.maxMisses)
            && (cfg.maxMisses <= 0 ==> s.sub == 0 <= s.misses)
  {
    RunKeeps(q, cfg, log, true, ticks);
  }

  // ---- What the next iteration does to a running stream ----

  lemma NextTick(q: Query, cfg: Config, log: seq<Message>, subscribed: bool, ticks: seq<Tick>, t: Tick)
    requires Run(q, cfg, Start(log, subscribed), ticks).phase.Running?
    ensures var s := Run(q, cfg, Start(log, subscribed), ticks);
            && !s.stop && s.sent == [] && OpenSubs(s.effects) == {s.sub} && s.cursor <= |Selected(q, s.log)|
            && Run(q, cfg, Start(log, subscribed), ticks + [t]) == Step(q, cfg, s, t)
  {
    RunKeeps(q, cfg, log, subscribed, ticks);
    assert (ticks + [t])[..|ticks|] == ticks;
    ReachBounds(q, cfg, Run(q, cfg, Start(log, subscribed), ticks));
  }

  lemma ReachBounds(q: Query, cfg: Config, s: Stream)
    requires Core(q, cfg, s)
    ensures s.cursor <= |Selected(q, s.log)|
  {
  }

  // A stop event that is set, or else the end time, ends the stream before another fetch.
  lemma LoopHeadEnds(q: Query, cfg: Config, log: seq<Message>, subscribed: bool, ticks: seq<Tick>, t: Tick)
    requires Run(q, cfg, Start(log, subscribed), ticks).phase.Running?
    requires t.stopped || cfg.EndTime() <= t.now
    ensures var s := Run(q, cfg, Start(log, subscribed), ticks);
            var r := Run(q, cfg, Start(log, subscribed), ticks + [t]);
            && r.phase == Ended(if t.stopped then StopSeen else DeadlineReached) && r.stop
            && r.effects == s.effects + [Closed(s.sub)] && r.sent == []
  {
    NextTick(q, cfg, log, subscribed, ticks, t);
  }

  // A fetch that raises or is cancelled ends the stream with the stop event set and the subscription closed.
  lemma FailedFetchEnds(q: Query, cfg: Config, log: seq<Message>, subscribed: bool, ticks: seq<Tick>, t: Tick)
    requires Run(q, cfg, Start(log, subscribed), ticks).phase.Running?
    requires !t.stopped && t.now < cfg.EndTime() && (t.fetch.FetchRaised? || t.fetch.FetchCancelled?)
    ensures var s := Run(q, cfg, Start(log, subscribed), ticks);
            var r := Run(q, cfg, Start(log, subscribed), ticks + [t]);
            && r.phase == Ended(if t.fetch.FetchRaised? then Raised else WasCancelled) && r.stop
            && r.effects == s.effects + [Fetched(s.sub, t.now), Closed(s.sub)] && OpenSubs(r.effects) == {}
            && r.sent == []
  {
    NextTick(q, cfg, log, subscribed, ticks, t);
    RunKeeps(q, cfg, log, subscribed, ticks + [t]);
    var s := Run(q, cfg, Start(log, subscribed), ticks);
    assert s.effects + [Fetched(s.sub, t.now)] + [Closed(s.sub)] == s.effects + [Fetched(s.sub, t.now), Closed(s.sub)];
  }

  // A fetch without messages changes nothing, and neither does a missed heartbeat but for the counter, as
  // long as it stays below its limit.
  lemma QuietFetchGoesOn(q: Query, cfg: Config, log: seq<Message>, subscribed: bool, ticks: seq<Tick>, t: Tick)
    requires Run(q, cfg, Start(log, subscribed), ticks).phase.Running?
    requires !t.stopped && t.now < cfg.EndTime()
    requires t.fetch.NoMessages?
             || (t.fetch.NoHeartbeat? && Run(q, cfg, Start(log, subscribed), ticks).misses + 1 != cfg.maxMisses)
    ensures var s := Run(q, cfg, Start(log, subscribed), ticks);
            var r := Run(q, cfg, Start(log, subscribed), ticks + [t]);
            && r.phase.Running? && r.sub == s.sub && r.cursor == s.cursor && r.sent == []
            && r.log == s.log + t.arrivals
            && r.misses == s.misses + (if t.fetch.NoHeartbeat? then 1 else 0)
            && r.effects == s.effects + [Fetched(s.sub, t.now)] + (if t.fetch.NoHeartbeat? then [Missed(s.sub)] else [])
  {
    NextTick(q, cfg, log, subscribed, ticks, t);
    var s := Run(q, cfg, Start(log, subscribed), ticks);
    assert s.effects + [Fetched(s.sub, t.now)] + [] == s.effects + [Fetched(s.sub, t.now)];
  }

  // The last missed heartbeat allowed closes the subscription; the stream then goes on from the start with
  // another one, or ends.
  lemma LastMissResubscribes(q: Query, cfg: Config, log: seq<Message>, subscribed: bool, ticks: seq<Tick>, t: Tick)
    requires Run(q, cfg, Start(log, subscribed), ticks).phase.Running?
    requires !t.stopped && t.now < cfg.EndTime() && t.fetch.NoHeartbeat?
    requires Run(q, cfg, Start(log, subscribed), ticks).misses + 1 == cfg.maxMisses
    ensures var s := Run(q, cfg, Start(log, subscribed), ticks);
            var r := Run(q, cfg, Start(log, subscribed), ticks + [t]);
            var lost := s.effects + [Fetched(s.sub, t.now)] + [Missed(s.sub)] + [Closed(s.sub)];
            && r.log == s.log + t.arrivals && r.sent == []
            && match t.fetch.reopen
               case Reopened =>
                 r.phase.Running? && r.sub == s.sub + 1 && r.cursor == 0 && r.misses == 0 && r.effects == lost + [Opened(r.sub)]
               case ReopenRaised(stopped) => r.phase == Ended(NotReopened) && r.stop == stopped && OpenSubs(r.effects) == {}
               case ReopenCancelled => r.phase == Ended(WasCancelled) && r.stop && OpenSubs(r.effects) == {}
  {
    NextTick(q, cfg, log, subscribed, ticks, t);
    RunKeeps(q, cfg, log, subscribed, ticks + [t]);
  }

  function BeforeFetch(s: Stream, t: Tick): Stream {
    s.(log := s.log + t.arrivals, effects := s.effects + [Fetched(s.sub, t.now)])
  }

  lemma BatchStep(q: Query, cfg: Config, s: Stream, t: Tick)
    requires s.phase.Running? && !s.stop && !t.stopped && t.now < cfg.EndTime() && t.fetch.Batch?
    ensures var d := Deliver(q, BeforeFetch(s, t), Min(t.fetch.count, cfg.batchSize), t.fetch.interrupt);
            Step(q, cfg, s, t) == if d.phase.Running? then d else d.Emit(Closed(d.sub))
  {
  }

  // A batch of at most the requested size is handed over in order, completely if nothing happens before.
  lemma BatchIsHandedOver(q: Query, cfg: Config, log: seq<Message>, subscribed: bool, ticks: seq<Tick>, t: Tick, k: nat)
    requires Run(q, cfg, Start(log, subscribed), ticks).phase.Running?
    requires !t.stopped && t.now < cfg.EndTime() && t.fetch.Batch?
    requires var s := Run(q, cfg, Start(log, subscribed), ticks);
             var all, n := Selected(q, s.log + t.arrivals), Min(t.fetch.count, cfg.batchSize);
             && s.cursor <= k && k == Min(s.cursor + n, |all|)
             && Uneventful(q, all, t.fetch.interrupt, s.cursor, k)
    ensures var r := Run(q, cfg, Start(log, subscribed), ticks + [t]);
            r.phase.Running? && r.cursor == k && r.sent == []
  {
    NextTick(q, cfg, log, subscribed, ticks, t);
    BatchStep(q, cfg, Run(q, cfg, Start(log, subscribed), ticks), t);
    var fetched := BeforeFetch(Run(q, cfg, Start(log, subscribed), ticks), t);
    HandedWhole(q, fetched, Selected(q, fetched.log), Min(t.fetch.count, cfg.batchSize), t.fetch.interrupt, k);
  }

  // Otherwise the stream ends at the first message where something happens.
  lemma BatchEndsStream(q: Query, cfg: Config, log: seq<Message>, subscribed: bool, ticks: seq<Tick>, t: Tick, k: nat)
    requires Run(q, cfg, Start(log, subscribed), ticks).phase.Running?
    requires !t.stopped && t.now < cfg.EndTime() && t.fetch.Batch?
    requires var s := Run(q, cfg, Start(log, subscribed), ticks);
             var all, i := Selected(q, s.log + t.arrivals), t.fetch.interrupt;
             && s.cursor <= k < |all| && k < s.cursor + Min(t.fetch.count, cfg.batchSize)
             && Uneventful(q, all, i, s.cursor, k) && Eventful(q, all[k], i, k - s.cursor)
    ensures var s := Run(q, cfg, Start(log, subscribed), ticks);
            var r := Run(q, cfg, Start(log, subscribed), ticks + [t]);
            var m := Selected(q, s.log + t.arrivals)[k];
            EndedAt(s, r, m, k, ExitAt(q, m, t.fetch.interrupt, k - s.cursor))
  {
    NextTick(q, cfg, log, subscribed, ticks, t);
    var s := Run(q, cfg, Start(log, subscribed), ticks);
    BatchStep(q, cfg, s, t);
    var fetched := BeforeFetch(s, t);
    var all, i := Selected(q, fetched.log), t.fetch.interrupt;
    HandedUntil(q, fetched, all, Min(t.fetch.count, cfg.batchSize), i, k, ExitAt(q, all[k], i, k - s.cursor));
  }

  // Without a first subscription nothing happens at all.
  lemma {:induction false} NothingWithoutSubscription(q: Query, cfg: Config, log: seq<Message>, ticks: seq<Tick>)
    ensures var s := Run(q, cfg, Start(log, false), ticks);
            s.phase == Ended(NotSubscribed) && !s.stop && s.sent == [] && s.effects == []
  {
    if ticks != [] {
      NothingWithoutSubscription(q, cfg, log, ticks[..|ticks| - 1]);
    }
  }

  // The heartbeats missed since a subscription was last opened, whatever was fetched in between.
  function MissedSinceOpened(es: seq<Effect>): nat {
    if es == [] || Last(es).Opened? then 0
    else MissedSinceOpened(Init(es)) + if Last(es).Missed? then 1 else 0
  }

  lemma MissedAppended(es: seq<Effect>, e: Effect)
    ensures MissedSinceOpened(es + [e]) ==
            if e.Opened? then 0 else MissedSinceOpened(es) + if e.Missed? then 1 else 0
  {
    Appended(es, e);
  }

  lemma {:induction false} DeliverCounts(q: Query, s: Stream, n: nat, i: Interrupt)
    ensures var r := Deliver(q, s, n, i);
            r.misses == s.misses && MissedSinceOpened(r.effects) == MissedSinceOpened(s.effects)
    decreases n
  {
    if n > 0 && s.cursor < |Selected(q, s.log)| {
      var m := Selected(q, s.log)[s.cursor];
      var r := HandOne(q, s, m, i);
      MissedAppended(s.effects, Yielded(s.sub, s.cursor, m));
      if r.phase.Running? {
        DeliverCounts(q, r, n - 1, Tail(i));
      }
    }
  }

  lemma MissCounts(cfg: Config, s: Stream, reopen: Reopen)
    requires s.misses == MissedSinceOpened(s.effects)
    ensures var r := Miss(cfg, s, reopen); r.misses == MissedSinceOpened(r.effects)
  {
    var missed := s.effects + [Missed(s.sub)];
    var closed := missed + [Closed(s.sub)];
    MissedAppended(s.effects, Missed(s.sub));
    MissedAppended(missed, Closed(s.sub));
    MissedAppended(closed, Opened(s.sub + 1));
  }

  lemma FetchCounts(q: Query, cfg: Config, s: Stream, fetch: Fetch)
    requires s.misses == MissedSinceOpened(s.effects)
    ensures var r := AfterFetch(q, cfg, s, fetch); r.misses == MissedSinceOpened(r.effects)
  {
    match fetch
    case Batch(count, i) => DeliverCounts(q, s, Min(count, cfg.batchSize), i);
    case NoHeartbeat(reopen) => MissCounts(cfg, s, reopen);
    case _ =>
  }

  lemma StepCounts(q: Query, cfg: Config, s: Stream, t: Tick)
    requires s.misses == MissedSinceOpened(s.effects)
    ensures var r := Step(q, cfg, s, t); r.misses == MissedSinceOpened(r.effects)
  {
    var grown := s.(log := s.log + t.arrivals, stop := s.stop || t.stopped);
    var fetched := grown.Emit(Fetched(s.sub, t.now));
    MissedAppended(s.effects, Fetched(s.sub, t.now));
    FetchCounts(q, cfg, fetched, t.fetch);
    var r := Iterate(q, cfg, s, t);
    MissedAppended(r.effects, Closed(r.sub));
  }

  // The counter holds the heartbeats missed since the subscription was opened: a fetch that succeeds does
  // not reset it, only a resubscription does.
  lemma {:induction false} MissesAreCounted(q: Query, cfg: Config, log: seq<Message>, subscribed: bool, ticks: seq<Tick>)
    ensures var s := Run(q, cfg, Start(log, subscribed), ticks); s.misses == MissedSinceOpened(s.effects)
  {
    if ticks != [] {
      MissesAreCounted(q, cfg, log, subscribed, ticks[..|ticks| - 1]);
      StepCounts(q, cfg, Run(q, cfg, Start(log, subscribed), ticks[..|ticks| - 1]), ticks[|ticks| - 1]);
    }
  }

  // While the stream runs the stop event is clear. Every exit sets it but for a failed subscription, which
  // leaves it clear, and a failed resubscription.
  lemma StopIsSetUnlessSubscribingFailed(q: Query, cfg: Config, log: seq<Message>, subscribed: bool, ticks: seq<Tick>)
    ensures var s := Run(q, cfg, Start(log, subscribed), ticks);
            && (s.phase.Running? || s.phase == Ended(NotSubscribed) ==> !s.stop)
            && (s.phase.Ended? && s.phase.exit != NotSubscribed && s.phase.exit != NotReopened ==> s.stop)
  {
    RunKeeps(q, cfg, log, subscribed, ticks);
  }

  lemma {:induction false} DeliverExits(q: Query, s: Stream, n: nat, i: Interrupt)
    requires s.phase.Running?
    ensures Deliver(q, s, n, i).phase in {Running, Ended(Gone), Ended(Found), Ended(Raised), Ended(WasCancelled)}
    decreases n
  {
    if n > 0 && s.cursor < |Selected(q, s.log)| {
      var r := HandOne(q, s, Selected(q, s.log)[s.cursor], i);
      if r.phase.Running? {
        DeliverExits(q, r, n - 1, Tail(i));
      }
    }
  }

  lemma FailedReopen(q: Query, cfg: Config, s: Stream, t: Tick)
    requires s.phase.Running? && !s.stop
    ensures var r := Step(q, cfg, s, t);
            r.phase == Ended(NotReopened) ==>
              && t.fetch == NoHeartbeat(ReopenRaised(r.stop)) && !t.stopped && t.now < cfg.EndTime()
              && s.misses + 1 == cfg.maxMisses
  {
    if t.fetch.Batch? {
      DeliverExits(q, s.(log := s.log + t.arrivals).Emit(Fetched(s.sub, t.now)), Min(t.fetch.count, cfg.batchSize), t.fetch.interrupt);
    }
  }

  lemma {:induction false} EndingTick(q: Query, cfg: Config, s: Stream, ticks: seq<Tick>) returns (k: nat)
    requires s.phase.Running? && Run(q, cfg, s, ticks).phase.Ended?
    ensures k < |ticks| && Run(q, cfg, s, ticks[..k]).phase.Running?
    ensures Run(q, cfg, s, ticks[..k + 1]) == Run(q, cfg, s, ticks)
  {
    var last := |ticks| - 1;
    if Run(q, cfg, s, ticks[..last]).phase.Ended? {
      k := EndingTick(q, cfg, s, ticks[..last]);
      assert ticks[..last][..k] == ticks[..k] && ticks[..last][..k + 1] == ticks[..k + 1];
    } else {
      k := last;
      assert ticks[..k + 1] == ticks;
    }
  }

  // A run that ends with a failed resubscription ends at the last missed heartbeat allowed, and leaves the
  // stop event set exactly if the disconnect check set it while the resubscription was awaited.
  lemma {:induction false} StopAfterFailedResubscription(q: Query, cfg: Config, log: seq<Message>, subscribed: bool,
                                                         ticks: seq<Tick>) returns (k: nat)
    requires Run(q, cfg, Start(log, subscribed), ticks).phase == Ended(NotReopened)
    ensures var start := Start(log, subscribed);
            var s := Run(q, cfg, start, ticks);
            && k < |ticks| && Run(q, cfg, start, ticks[..k + 1]) == s
            && Run(q, cfg, start, ticks[..k]).phase.Running?
            && Run(q, cfg, start, ticks[..k]).misses + 1 == cfg.maxMisses
            && ticks[k].fetch == NoHeartbeat(ReopenRaised(s.stop))
  {
    var start := Start(log, subscribed);
    if start.phase.Ended? {
      assert ticks[..0] == [];
      EndedRunStays(q, cfg, start, ticks, 0);
    }
    k := EndingTick(q, cfg, start, ticks);
    RunKeeps(q, cfg, log, subscribed, ticks[..k]);
    assert ticks[..k + 1][..k] == ticks[..k];
    FailedReopen(q, cfg, Run(q, cfg, start, ticks[..k]), ticks[k]);
  }

  // Such a run exists, for either state of the stop event.
  lemma ResubscriptionMayFail(q: Query, cfg: Config, log: seq<Message>, stopped: bool, now: int)
    requires cfg.maxMisses == 1 && now < cfg.EndTime()
    ensures var s := Run(q, cfg, Start(log, true), [Tick([], false, now, NoHeartbeat(ReopenRaised(stopped)))]);
            s.phase == Ended(NotReopened) && s.stop == stopped
  {
    var t := Tick([], false, now, NoHeartbeat(ReopenRaised(stopped)));
    assert [t][..0] == [];
    assert Run(q, cfg, Start(log, true), [t][..0]) == Start(log, true);
  }

  predicate ClockAdvances(cfg: Config, ticks: seq<Tick>) {
    && (forall i | 0 <= i < |ticks| :: cfg.begin <= ticks[i].now)
    && (forall i, j | 0 <= i < j < |ticks| :: ticks[i].now < ticks[j].now)
  }

  // No fetch starts at or after the end time, and with a clock that advances on every iteration the
  // loop ends within `duration` iterations of starting plus one, whatever else happens.
  lemma {:induction false} StreamTerminates(q: Query, cfg: Config, log: seq<Message>, subscribed: bool, ticks: seq<Tick>)
    requires ClockAdvances(cfg, ticks)
    ensures var s := Run(q, cfg, Start(log, subscribed), ticks);
            && (forall e | e in s.effects && e.Fetched? :: e.now < cfg.EndTime())
            && (s.phase.Running? && ticks != [] ==>
                  |ticks| <= ticks[|ticks| - 1].now - cfg.begin + 1 <= cfg.duration)
            && (|ticks| > cfg.duration ==> s.phase.Ended?)
  {
    RunKeeps(q, cfg, log, subscribed, ticks);
    if ticks != [] {
      StreamTerminates(q, cfg, log, subscribed, ticks[..|ticks| - 1]);
    }
  }
}
