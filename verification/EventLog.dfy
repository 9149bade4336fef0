// The JetStream log a waypoint client reads from, and the query it asks.
module EventLog {
  import opened Text
  import opened Wrappers

  // A JSON value of an event payload. Only strings can equal the wanted id.
  datatype Json = Text(text: string) | OtherJson

  // `Malformed` is message data that does not decode into an event.
  datatype Body = Decoded(payload: map<string, Json>) | Malformed

  datatype Message = Message(group: string, wallet: string, topic: string, state: string,
                             time: int, body: Body)

  datatype Query = Query(group: Option<string>, wallet: string, topic: string, state: string,
                         startTime: int, field: string, fieldId: string)

  predicate TokenMatches(pattern: string, token: string) {
    pattern == "*" || pattern == token
  }

  // A missing or empty group subscribes to every group.
  function GroupPattern(q: Query): string {
    if q.group.Some? && q.group.value != "" then q.group.value else "*"
  }

  // The message lies on the subscribed subject and is not older than the start time.
  predicate Relevant(q: Query, m: Message) {
    && TokenMatches(GroupPattern(q), m.group)
    && TokenMatches(q.wallet, m.wallet)
    && TokenMatches(q.topic, m.topic)
    && TokenMatches(q.state, m.state)
    && q.startTime <= m.time
  }

  // ---- The subject strings behind this ----

  function PatternTokens(q: Query): seq<string> { [GroupPattern(q), q.wallet, q.topic, q.state] }

  function SubjectTokens(m: Message): seq<string> { [m.group, m.wallet, m.topic, m.state] }

  // Four tokens after the subject root.
  function Subject(root: string, tokens: seq<string>): string {
    root + ['.'] + Join(tokens, '.')
  }

  // Subjects match token by token.
  predicate SubjectMatches(pattern: string, subject: string) {
    var ps, ts := Split(pattern, '.'), Split(subject, '.');
    |ps| == |ts| && forall i | 0 <= i < |ps| :: ps[i] == "*" || ps[i] == ts[i]
  }

  lemma SplitSubject(root: string, tokens: seq<string>)
    requires tokens != [] && AllFree(tokens, '.')
    ensures Split(Subject(root, tokens), '.') == Split(root, '.') + tokens
  {
    SplitConcat(root, Join(tokens, '.'), '.');
    SplitJoinFree(tokens, '.');
  }

  // For tokens without dots, a message is relevant exactly if the subject subscribed to matches the one it
  // is published on and it is not older than the start time.
  lemma RelevantBySubject(q: Query, m: Message, root: string)
    requires AllFree(PatternTokens(q), '.') && AllFree(SubjectTokens(m), '.')
    ensures Relevant(q, m) <==>
            SubjectMatches(Subject(root, PatternTokens(q)), Subject(root, SubjectTokens(m))) && q.startTime <= m.time
  {
    var r, ps, ts := Split(root, '.'), PatternTokens(q), SubjectTokens(m);
    SplitSubject(root, ps);
    SplitSubject(root, ts);
    forall i | 0 <= i < 4 ensures (r + ps)[|r| + i] == ps[i] && (r + ts)[|r| + i] == ts[i] {
    }
    assert Relevant(q, m) <==> (forall i | 0 <= i < 4 :: TokenMatches(ps[i], ts[i])) && q.startTime <= m.time by {
      assert ps[0] == GroupPattern(q) && ps[1] == q.wallet && ps[2] == q.topic && ps[3] == q.state;
      assert ts[0] == m.group && ts[1] == m.wallet && ts[2] == m.topic && ts[3] == m.state;
    }
    if SubjectMatches(Subject(root, ps), Subject(root, ts)) {
      forall i | 0 <= i < 4 ensures TokenMatches(ps[i], ts[i]) {
        assert (r + ps)[|r| + i] == "*" || (r + ps)[|r| + i] == (r + ts)[|r| + i];
      }
    }
  }

  // Without a group, or with an empty one, the group of a message does not matter.
  lemma EveryGroup(q: Query, m: Message, group: string)
    requires q.group in {None, Some("")}
    ensures Relevant(q, m) == Relevant(q, m.(group := group))
  {
  }

  // What a consumer of the query is sent, in log order.
  function Selected(q: Query, log: seq<Message>): seq<Message> {
    if log == [] then []
    else (if Relevant(q, log[0]) then [log[0]] else []) + Selected(q, log[1..])
  }

  // Nothing relevant is left out or repeated, and nothing else is sent.
  lemma {:induction false} SelectedExactly(q: Query, log: seq<Message>, m: Message)
    ensures multiset(Selected(q, log))[m] == if Relevant(q, m) then multiset(log)[m] else 0
  {
    if log != [] {
      SelectedExactly(q, log[1..], m);
      assert log == [log[0]] + log[1..];
      assert Selected(q, log) == (if Relevant(q, log[0]) then [log[0]] else []) + Selected(q, log[1..]);
    }
  }

  // The filter of the SSE generator.
  predicate Matches(q: Query, m: Message) {
    && m.body.Decoded?
    && q.field in m.body.payload
    && m.body.payload[q.field] == Text(q.fieldId)
  }

  // The specification of the whole service: the earliest match, if any.
  function FirstMatch(q: Query, ms: seq<Message>): Option<Message> {
    if ms == [] then None
    else if Matches(q, ms[0]) then Some(ms[0])
    else FirstMatch(q, ms[1..])
  }

  // FirstMatch in words: the first event whose payload has the wanted id in the wanted field.
  lemma FirstMatchInWords(q: Query, ms: seq<Message>)
    ensures FirstMatch(q, ms).None? <==>
            forall i | 0 <= i < |ms| ::
              !(ms[i].body.Decoded? && q.field in ms[i].body.payload && ms[i].body.payload[q.field] == Text(q.fieldId))
    ensures FirstMatch(q, ms).Some? ==>
              exists i | 0 <= i < |ms| ::
                && ms[i] == FirstMatch(q, ms).value
                && ms[i].body.Decoded? && q.field in ms[i].body.payload && ms[i].body.payload[q.field] == Text(q.fieldId)
                && forall j | 0 <= j < i ::
                     ms[j].body.Decoded? && q.field in ms[j].body.payload ==> ms[j].body.payload[q.field] != Text(q.fieldId)
  {
    FirstMatchIsFirst(q, ms);
    if FirstMatch(q, ms).Some? {
      var i :| 0 <= i < |ms| && ms[i] == FirstMatch(q, ms).value && Matches(q, ms[i])
               && forall j | 0 <= j < i :: !Matches(q, ms[j]);
      assert forall j | 0 <= j < i :: !Matches(q, ms[j]);
    } else {
      assert forall i | 0 <= i < |ms| :: !Matches(q, ms[i]);
    }
  }

  // The element at the least matching position.
  lemma {:induction false} FirstMatchIsFirst(q: Query, ms: seq<Message>)
    ensures FirstMatch(q, ms).None? <==> forall i | 0 <= i < |ms| :: !Matches(q, ms[i])
    ensures FirstMatch(q, ms).Some? ==>
              exists i | 0 <= i < |ms| ::
                ms[i] == FirstMatch(q, ms).value && Matches(q, ms[i]) && forall j | 0 <= j < i :: !Matches(q, ms[j])
  {
    if ms != [] {
      var rest := ms[1..];
      assert forall i | 1 <= i < |ms| :: ms[i] == rest[i - 1];
      FirstMatchIsFirst(q, rest);
      if Matches(q, ms[0]) {
        assert ms[0] == FirstMatch(q, ms).value;
      } else if FirstMatch(q, rest).Some? {
        var i :| 0 <= i < |rest| && rest[i] == FirstMatch(q, rest).value && Matches(q, rest[i])
                 && forall j | 0 <= j < i :: !Matches(q, rest[j]);
        assert ms[i + 1] == rest[i];
      }
    }
  }

  // The log only grows, and so does what the consumer is sent.
  lemma {:induction false} SelectedAppend(q: Query, log: seq<Message>, more: seq<Message>)
    ensures Selected(q, log + more) == Selected(q, log) + Selected(q, more)
  {
    if log == [] {
      assert log + more == more;
    } else {
      assert (log + more)[1..] == log[1..] + more;
      SelectedAppend(q, log[1..], more);
    }
  }

  lemma {:induction false} FirstMatchAppend(q: Query, ms: seq<Message>, more: seq<Message>)
    ensures FirstMatch(q, ms + more) == if FirstMatch(q, ms).Some? then FirstMatch(q, ms) else FirstMatch(q, more)
  {
    if ms == [] {
      assert ms + more == more;
    } else {
      assert (ms + more)[1..] == ms[1..] + more;
      FirstMatchAppend(q, ms[1..], more);
    }
  }

  // The answer of a query never changes once the log holds it.
  lemma AnswerIsStable(q: Query, log: seq<Message>, more: seq<Message>, reach: nat)
    requires reach <= |Selected(q, log)|
    requires FirstMatch(q, Selected(q, log)[..reach]).Some?
    ensures FirstMatch(q, Selected(q, log + more)) == FirstMatch(q, Selected(q, log)[..reach])
  {
    var seen, all := Selected(q, log)[..reach], Selected(q, log);
    SelectedAppend(q, log, more);
    assert all == seen + all[reach..];
    FirstMatchAppend(q, seen, all[reach..]);
    FirstMatchAppend(q, all, Selected(q, more));
  }
}
