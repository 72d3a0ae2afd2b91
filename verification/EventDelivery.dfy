/**
 The resumable cursor of the stdio proxy: event ids of the form `prefix:sequence`, the choice of
 events that are newer than the cursor, and the loop that polls after every request.
 */
module EventDelivery {
  import opened Basics
  import opened EventStream

  // ----- event ids

  predicate IsDigit(c: char) {
    '0' <= c <= '9'
  }

  function Strip(s: string): string {
    if s == "" then s
    else if IsSpace(s[0]) then Strip(s[1..])
    else if IsSpace(s[|s| - 1]) then Strip(s[..|s| - 1])
    else s
  }

  /** Decimal digits, with single underscores allowed between them. */
  function Digits(s: string): Option<int> {
    if s == "" || !IsDigit(s[|s| - 1]) then None
    else
      var digit := s[|s| - 1] as int - '0' as int;
      if |s| == 1 then Some(digit)
      else
        var rest := if s[|s| - 2] == '_' then s[..|s| - 2] else s[..|s| - 1];
        match Digits(rest)
        case None => None
        case Some(n) => Some(10 * n + digit)
  }

  /** The integer a text denotes, or nothing where the conversion raises. */
  function ParseInt(s: string): Option<int> {
    var text := Strip(s);
    if text != "" && text[0] == '-' then
      (match Digits(text[1..]) case None => None case Some(n) => Some(-n))
    else if text != "" && text[0] == '+' then Digits(text[1..])
    else Digits(text)
  }

  /** The number of characters before the last colon. */
  function LastColon(s: string): Option<nat> {
    if s == "" then None
    else if s[|s| - 1] == ':' then Some(|s| - 1)
    else LastColon(s[..|s| - 1])
  }

  lemma {:induction false} LastColonInside(s: string)
    ensures LastColon(s).Some? ==> LastColon(s).value < |s| && s[LastColon(s).value] == ':'
  {
    if s != "" {
      LastColonInside(s[..|s| - 1]);
    }
  }

  function Coordinate(id: string): (string, Option<int>) {
    LastColonInside(id);
    match LastColon(id)
    case None => (id, None)
    case Some(k) =>
      match ParseInt(id[k + 1..])
      case None => (id, None)
      case Some(n) => (id[..k], Some(n))
  }

  predicate IsNewer(candidate: Option<string>, previous: Option<string>) {
    if candidate.None? || previous.None? then true
    else
      var (cp, cn) := Coordinate(candidate.value);
      var (pp, pn) := Coordinate(previous.value);
      if cp == pp && cn.Some? && pn.Some? then cn.value > pn.value
      else candidate.value != previous.value
  }

  function Decimal(n: nat): string {
    var last := [(n % 10 + '0' as int) as char];
    if n < 10 then last else Decimal(n / 10) + last
  }

  function EventId(prefix: string, n: nat): string {
    prefix + ":" + Decimal(n)
  }

  lemma {:induction false} DecimalIsDigits(n: nat)
    ensures Decimal(n) != "" && forall i :: 0 <= i < |Decimal(n)| ==> IsDigit(Decimal(n)[i])
    ensures Digits(Decimal(n)) == Some(n)
  {
    if n >= 10 {
      DecimalIsDigits(n / 10);
      var text := Decimal(n);
      assert text[..|text| - 1] == Decimal(n / 10);
      assert text[|text| - 2] == Decimal(n / 10)[|text| - 2];
    }
  }

  lemma {:induction false} LastColonBefore(prefix: string, text: string)
    requires ':' !in text
    ensures LastColon(prefix + ":" + text) == Some(|prefix|)
  {
    var s := prefix + ":" + text;
    if text == "" {
      assert s[|s| - 1] == ':';
    } else {
      assert s[|s| - 1] == text[|text| - 1];
      LastColonBefore(prefix, text[..|text| - 1]);
      assert s[..|s| - 1] == prefix + ":" + text[..|text| - 1];
    }
  }

  lemma ParseDecimal(n: nat)
    ensures ParseInt(Decimal(n)) == Some(n) && ':' !in Decimal(n)
  {
    DecimalIsDigits(n);
    var text := Decimal(n);
    assert IsDigit(text[0]) && IsDigit(text[|text| - 1]);
    assert Strip(text) == text;
  }

  /** An id carries its prefix and its sequence number, whatever characters the prefix has. */
  lemma CoordinateOfEventId(prefix: string, n: nat)
    ensures Coordinate(EventId(prefix, n)) == (prefix, Some(n))
  {
    ParseDecimal(n);
    LastColonBefore(prefix, Decimal(n));
    assert EventId(prefix, n)[|prefix| + 1..] == Decimal(n);
    assert EventId(prefix, n)[..|prefix|] == prefix;
  }

  type Comparison = (Option<string>, Option<string>) -> bool

  /** `ids` are the ids of one numbered stream. */
  ghost predicate Numbers(ids: nat -> string, prefix: string) {
    forall n :: ids(n) == EventId(prefix, n)
  }

  /** `newer` tells the ids apart by their numbers, and finds everything newer than nothing. */
  ghost predicate Compares(newer: Comparison, ids: nat -> string) {
    && (forall m, n :: newer(Some(ids(m)), Some(ids(n))) <==> m > n)
    && (forall id :: newer(id, None))
    && (forall n :: ids(n) != "")
  }

  lemma NewerMeansLaterNumber(ids: nat -> string, prefix: string)
    requires Numbers(ids, prefix)
    ensures Compares(IsNewer, ids)
  {
    forall m, n ensures IsNewer(Some(ids(m)), Some(ids(n))) <==> m > n {
      CoordinateOfEventId(prefix, m);
      CoordinateOfEventId(prefix, n);
    }
    forall n ensures ids(n) != "" {
      assert |EventId(prefix, n)| > |prefix|;
    }
  }

  // ----- one response

  /** The events a response contributes, and the cursor after it. */
  datatype Selection = Selection(taken: seq<Event>, cursor: Option<string>)

  function SelectNext(s: Selection, e: Event, newer: Comparison): Selection {
    if e.data == "" || !newer(e.id, s.cursor) then s
    else Selection(s.taken + [e], if e.id.GetOr("") != "" then e.id else s.cursor)
  }

  function Select(events: seq<Event>, cursor: Option<string>, newer: Comparison): Selection {
    if events == [] then Selection([], cursor)
    else SelectNext(Select(events[..|events| - 1], cursor, newer), events[|events| - 1], newer)
  }

  /**
   An event whose id has no number is taken exactly if its id is not the cursor, and an empty id leaves the cursor
   where it is.
   */
  lemma TakenWithoutNumber(s: Selection, e: Event, id: string, other: string)
    requires e.data != "" && e.id == Some(id) && ':' !in id
    ensures s.cursor == Some(other) && id != "" ==>
              SelectNext(s, e, IsNewer) == if id != other then Selection(s.taken + [e], e.id) else s
    ensures id == "" && s.cursor != Some("") ==> SelectNext(s, e, IsNewer) == Selection(s.taken + [e], s.cursor)
  {
    NoLastColon(id);
  }

  lemma {:induction false} NoLastColon(id: string)
    requires ':' !in id
    ensures LastColon(id) == None
  {
    if id != "" {
      NoLastColon(id[..|id| - 1]);
    }
  }

  /**
   Which events are taken: none without data; every other one that has no id, or comes first, or whose id has another
   prefix than the cursor, as after a new session; and one of the cursor's stream exactly if its number is larger.  The
   cursor moves to the id of an event that is taken and has one.
   */
  lemma TakenExactly(s: Selection, e: Event, prefix: string, m: nat, other: string, n: nat)
    ensures e.data == "" ==> SelectNext(s, e, IsNewer) == s
    ensures e.data != "" && e.id == None ==> SelectNext(s, e, IsNewer) == Selection(s.taken + [e], s.cursor)
    ensures e.data != "" && e.id == Some(EventId(prefix, m)) && s.cursor == None ==>
              SelectNext(s, e, IsNewer) == Selection(s.taken + [e], e.id)
    ensures e.data != "" && e.id == Some(EventId(prefix, m)) && s.cursor == Some(EventId(other, n)) ==>
              SelectNext(s, e, IsNewer)
              == if prefix != other || m > n then Selection(s.taken + [e], e.id) else s
  {
    CoordinateOfEventId(prefix, m);
    CoordinateOfEventId(other, n);
    assert |EventId(prefix, m)| > |prefix|;
  }

  /** What the data of the events denote; `decode` reads one JSON object. */
  function Decoded<P>(events: seq<Event>, decode: string -> Option<P>): Option<seq<P>> {
    if events == [] then Some([])
    else match Decoded(events[..|events| - 1], decode)
      case None => None
      case Some(payloads) =>
        match decode(events[|events| - 1].data)
        case None => None
        case Some(p) => Some(payloads + [p])
  }

  /** The payloads of a response and the cursor after it, or nothing where reading it raises. */
  function Payloads<P>(lines: seq<string>, cursor: Option<string>, decode: string -> Option<P>)
    : Option<(seq<P>, Option<string>)>
  {
    var selection := Select(Events(lines), cursor, IsNewer);
    match Decoded(selection.taken, decode)
    case None => None
    case Some(payloads) => Some((payloads, selection.cursor))
  }

  lemma {:induction false} DecodedPrefix<P>(events: seq<Event>, n: nat, decode: string -> Option<P>)
    requires n <= |events| && Decoded(events[..n], decode).None?
    ensures Decoded(events, decode).None?
  {
    if n < |events| {
      assert events[..|events| - 1][..n] == events[..n];
      DecodedPrefix(events[..|events| - 1], n, decode);
    } else {
      assert events[..n] == events;
    }
  }

  lemma {:induction false} SelectGrows(events: seq<Event>, n: nat, cursor: Option<string>, newer: Comparison)
    requires n <= |events|
    ensures Select(events[..n], cursor, newer).taken <= Select(events, cursor, newer).taken
  {
    if n < |events| {
      assert events[..|events| - 1][..n] == events[..n];
      SelectGrows(events[..|events| - 1], n, cursor, newer);
    } else {
      assert events[..n] == events;
    }
  }

  lemma UndecodableEventFails<P>(
    events: seq<Event>, n: nat, cursor: Option<string>, newer: Comparison, taken: seq<Event>, decode: string -> Option<P>)
    requires n <= |events| && Select(events[..n], cursor, newer).taken == taken && Decoded(taken, decode).None?
    ensures Decoded(Select(events, cursor, newer).taken, decode).None?
  {
    SelectGrows(events, n, cursor, newer);
    var all := Select(events, cursor, newer).taken;
    assert all[..|taken|] == taken;
    DecodedPrefix(all, |taken|, decode);
  }

  lemma SelectPrefix(events: seq<Event>, i: nat, cursor: Option<string>, newer: Comparison)
    requires i < |events|
    ensures Select(events[..i + 1], cursor, newer) == SelectNext(Select(events[..i], cursor, newer), events[i], newer)
  {
    assert events[..i + 1][..i] == events[..i];
  }

  lemma DecodedNext<P>(events: seq<Event>, e: Event, decode: string -> Option<P>)
    requires Decoded(events, decode).Some?
    ensures Decoded(events + [e], decode)
            == (match decode(e.data) case None => None case Some(p) => Some(Decoded(events, decode).value + [p]))
  {
    assert (events + [e])[..|events|] == events;
  }

  /** The loop over a response stops at the first data that does not decode; it takes what `Payloads` says. */
  method SsePayloads<P>(lines: seq<string>, lastEventId: Option<string>, decode: string -> Option<P>)
    returns (r: Option<(seq<P>, Option<string>)>)
    ensures r == Payloads(lines, lastEventId, decode)
  {
    var payloads: seq<P> := [];
    var cursor := lastEventId;
    var events := SseEvents(lines);
    ghost var taken: seq<Event> := [];
    for i := 0 to |events|
      invariant Selection(taken, cursor) == Select(events[..i], lastEventId, IsNewer)
      invariant Decoded(taken, decode) == Some(payloads)
    {
      var event := events[i];
      SelectPrefix(events, i, lastEventId, IsNewer);
      if event.data == "" || !IsNewer(event.id, cursor) {
        continue;
      }
      var payload := decode(event.data);
      ghost var now := taken + [event];
      DecodedNext(taken, event, decode);
      if payload.None? {
        UndecodableEventFails(events, i + 1, lastEventId, IsNewer, now, decode);
        return None;
      }
      payloads := payloads + [payload.value];
      taken := now;
      cursor := if event.id.GetOr("") != "" then event.id else cursor;
    }
    assert events[..|events|] == events;
    return Some((payloads, cursor));
  }

  // ----- the polling loop

  /** What happens to one input line; `Rejected` is every way in which the request raises. */
  datatype Reply<P> = Blank | Rejected | Accepted(response: Option<P>, session: string)

  /** `Failed` is every way in which a poll raises before its lines are read. */
  datatype Poll = Failed | Body(lines: seq<string>)

  datatype Turn<P> = Turn(reply: Reply<P>, poll: Poll)

  datatype Output<P> = Response(payload: P) | Notification(payload: P) | ErrorLine

  datatype Proxy<P> = Proxy(session: string, cursor: Option<string>, sink: seq<Output<P>>)

  function Notices<P>(payloads: seq<P>): seq<Output<P>> {
    seq(|payloads|, i requires 0 <= i < |payloads| => Notification(payloads[i]))
  }

  function PollResult<P>(poll: Poll, cursor: Option<string>, decode: string -> Option<P>)
    : Option<(seq<P>, Option<string>)>
  {
    match poll case Failed => None case Body(lines) => Payloads(lines, cursor, decode)
  }

  function Answer<P>(sink: seq<Output<P>>, response: Option<P>): seq<Output<P>> {
    match response case None => sink case Some(p) => sink + [Response(p)]
  }

  function TakeTurn<P>(x: Proxy<P>, turn: Turn<P>, decode: string -> Option<P>): Proxy<P> {
    match turn.reply
    case Blank => x
    case Rejected => x.(sink := x.sink + [ErrorLine])
    case Accepted(response, session) =>
      var next := if session != "" then session else x.session;
      var sink := Answer(x.sink, response);
      if next == "" then Proxy(next, x.cursor, sink)
      else match PollResult(turn.poll, x.cursor, decode)
        case None => Proxy(next, x.cursor, sink + [ErrorLine])
        case Some((payloads, cursor)) => Proxy(next, cursor, sink + Notices(payloads))
  }

  function TakeTurns<P>(turns: seq<Turn<P>>, decode: string -> Option<P>): Proxy<P> {
    if turns == [] then Proxy("", None, [])
    else TakeTurn(TakeTurns(turns[..|turns| - 1], decode), turns[|turns| - 1], decode)
  }

  // ----- what a run writes, told from its turns

  /** The responses to the accepted requests. */
  function Responses<P>(turns: seq<Turn<P>>): seq<P> {
    if turns == [] then []
    else
      var last := turns[|turns| - 1].reply;
      Responses(turns[..|turns| - 1]) + (if last.Accepted? && last.response.Some? then [last.response.value] else [])
  }

  /** Some accepted request has been given a session. */
  predicate HasSession<P>(turns: seq<Turn<P>>) {
    exists i :: 0 <= i < |turns| && GivesSession(turns[i])
  }

  predicate GivesSession<P>(turn: Turn<P>) {
    turn.reply.Accepted? && turn.reply.session != ""
  }

  /** The last turn polls. */
  predicate LastPolls<P>(turns: seq<Turn<P>>)
    requires turns != []
  {
    turns[|turns| - 1].reply.Accepted? && HasSession(turns)
  }

  /** The last turn is rejected, or its poll raises. */
  predicate LastFails<P>(turns: seq<Turn<P>>, decode: string -> Option<P>)
    requires turns != []
  {
    var front, last := turns[..|turns| - 1], turns[|turns| - 1];
    last.reply.Rejected? || (LastPolls(turns) && PollResult(last.poll, TakeTurns(front, decode).cursor, decode).None?)
  }

  /** The number of turns that fail. */
  function Failures<P>(turns: seq<Turn<P>>, decode: string -> Option<P>): nat {
    if turns == [] then 0
    else Failures(turns[..|turns| - 1], decode) + (if LastFails(turns, decode) then 1 else 0)
  }

  function ResponsesIn<P>(sink: seq<Output<P>>): seq<P> {
    if sink == [] then []
    else
      var last := sink[|sink| - 1];
      ResponsesIn(sink[..|sink| - 1]) + (if last.Response? then [last.payload] else [])
  }

  function ErrorsIn<P>(sink: seq<Output<P>>): nat {
    if sink == [] then 0
    else ErrorsIn(sink[..|sink| - 1]) + (if sink[|sink| - 1].ErrorLine? then 1 else 0)
  }

  lemma SinkNext<P>(sink: seq<Output<P>>, o: Output<P>)
    ensures ResponsesIn(sink + [o]) == ResponsesIn(sink) + (if o.Response? then [o.payload] else [])
    ensures ErrorsIn(sink + [o]) == ErrorsIn(sink) + (if o.ErrorLine? then 1 else 0)
  {
    assert (sink + [o])[..|sink|] == sink;
  }

  lemma {:induction false} NoticesOnlyNotify<P>(sink: seq<Output<P>>, payloads: seq<P>)
    ensures ResponsesIn(sink + Notices(payloads)) == ResponsesIn(sink)
    ensures ErrorsIn(sink + Notices(payloads)) == ErrorsIn(sink)
  {
    if payloads == [] {
      assert sink + Notices(payloads) == sink;
    } else {
      var front, last := payloads[..|payloads| - 1], payloads[|payloads| - 1];
      NoticesOnlyNotify(sink, front);
      SinkNext(sink + Notices(front), Notification(last));
      assert sink + Notices(payloads) == (sink + Notices(front)) + [Notification(last)];
    }
  }

  /** What a poll writes: the notifications, or an error. */
  function PollWritten<P>(poll: Poll, cursor: Option<string>, decode: string -> Option<P>): seq<Output<P>> {
    match PollResult(poll, cursor, decode)
    case None => [ErrorLine]
    case Some(result) => Notices(result.0)
  }

  /** What one turn writes: the response first, then what its poll writes. */
  function Written<P>(x: Proxy<P>, turn: Turn<P>, polls: bool, decode: string -> Option<P>): seq<Output<P>> {
    match turn.reply
    case Blank => []
    case Rejected => [ErrorLine]
    case Accepted(response, _) =>
      (match response case None => [] case Some(p) => [Response(p)])
      + (if polls then PollWritten(turn.poll, x.cursor, decode) else [])
  }

  lemma SessionAfterTurn<P>(x: Proxy<P>, turn: Turn<P>, decode: string -> Option<P>)
    ensures TakeTurn(x, turn, decode).session != "" <==> x.session != "" || GivesSession(turn)
  {
  }

  lemma AnswerFirst<P>(sink: seq<Output<P>>, response: Option<P>, tail: seq<Output<P>>)
    ensures Answer(sink, response) + tail
         == sink + ((match response case None => [] case Some(p) => [Response(p)]) + tail)
  {
  }

  lemma TurnWrites<P>(x: Proxy<P>, turn: Turn<P>, decode: string -> Option<P>)
    ensures TakeTurn(x, turn, decode).sink == x.sink + Written(x, turn, Polls(x, turn), decode)
  {
    match turn.reply {
      case Blank =>
      case Rejected =>
      case Accepted(response, _) =>
        AnswerFirst(x.sink, response, []);
        AnswerFirst(x.sink, response, PollWritten(turn.poll, x.cursor, decode));
    }
  }

  lemma AnswerCounts<P>(sink: seq<Output<P>>, response: Option<P>)
    ensures ResponsesIn(Answer(sink, response))
         == ResponsesIn(sink) + (if response.Some? then [response.value] else [])
    ensures ErrorsIn(Answer(sink, response)) == ErrorsIn(sink)
  {
    if response.Some? {
      SinkNext(sink, Response(response.value));
    }
  }

  lemma PollCounts<P>(sink: seq<Output<P>>, poll: Poll, cursor: Option<string>, decode: string -> Option<P>)
    ensures ResponsesIn(sink + PollWritten(poll, cursor, decode)) == ResponsesIn(sink)
    ensures ErrorsIn(sink + PollWritten(poll, cursor, decode))
         == ErrorsIn(sink) + (if PollResult(poll, cursor, decode).None? then 1 else 0)
  {
    if PollResult(poll, cursor, decode).None? {
      SinkNext(sink, ErrorLine);
    } else {
      NoticesOnlyNotify(sink, PollResult(poll, cursor, decode).value.0);
    }
  }

  lemma WrittenCounts<P>(x: Proxy<P>, turn: Turn<P>, polls: bool, decode: string -> Option<P>)
    requires polls ==> turn.reply.Accepted?
    ensures ResponsesIn(x.sink + Written(x, turn, polls, decode))
         == ResponsesIn(x.sink) + (if turn.reply.Accepted? && turn.reply.response.Some? then [turn.reply.response.value] else [])
    ensures ErrorsIn(x.sink + Written(x, turn, polls, decode))
         == ErrorsIn(x.sink) + (if turn.reply.Rejected? || (polls && PollResult(turn.poll, x.cursor, decode).None?) then 1 else 0)
  {
    match turn.reply {
      case Blank => assert x.sink + [] == x.sink;
      case Rejected => SinkNext(x.sink, ErrorLine);
      case Accepted(response, _) =>
        AnswerCounts(x.sink, response);
        if polls {
          AnswerFirst(x.sink, response, PollWritten(turn.poll, x.cursor, decode));
          PollCounts(Answer(x.sink, response), turn.poll, x.cursor, decode);
        } else {
          AnswerFirst(x.sink, response, []);
          assert Answer(x.sink, response) + [] == Answer(x.sink, response);
        }
    }
  }

  lemma HasSessionNext<P>(front: seq<Turn<P>>, last: Turn<P>)
    ensures HasSession(front + [last]) <==> HasSession(front) || GivesSession(last)
  {
    var turns := front + [last];
    if HasSession(front) {
      var i :| 0 <= i < |front| && GivesSession(front[i]);
      assert GivesSession(turns[i]);
    }
    if GivesSession(last) {
      assert GivesSession(turns[|front|]);
    }
  }

  lemma {:induction false} SessionExactly<P>(turns: seq<Turn<P>>, decode: string -> Option<P>)
    ensures TakeTurns(turns, decode).session != "" <==> HasSession(turns)
  {
    if turns != [] {
      var front, last := turns[..|turns| - 1], turns[|turns| - 1];
      assert turns == front + [last];
      SessionExactly(front, decode);
      HasSessionNext(front, last);
      SessionAfterTurn(TakeTurns(front, decode), last, decode);
    }
  }

  /**
   Turn by turn: the last turn writes nothing for a blank line, an error for a rejected request, and for an accepted
   one first its response and then, if it or an accepted request before it was given a session, the notifications of
   the poll or an error; it polls in no other case.
   */
  lemma LastTurnWrites<P>(turns: seq<Turn<P>>, decode: string -> Option<P>)
    requires turns != []
    ensures var front, last := turns[..|turns| - 1], turns[|turns| - 1];
            var x := TakeTurns(front, decode);
            && (Polls(x, last) <==> LastPolls(turns))
            && TakeTurns(turns, decode).sink == x.sink + Written(x, last, LastPolls(turns), decode)
  {
    var front, last := turns[..|turns| - 1], turns[|turns| - 1];
    assert turns == front + [last];
    SessionExactly(front, decode);
    HasSessionNext(front, last);
    TurnWrites(TakeTurns(front, decode), last, decode);
  }

  lemma OutputsNext<P>(turns: seq<Turn<P>>, decode: string -> Option<P>)
    requires turns != []
    ensures var front, last := turns[..|turns| - 1], turns[|turns| - 1].reply;
            var before, after := TakeTurns(front, decode).sink, TakeTurns(turns, decode).sink;
            && ResponsesIn(after)
               == ResponsesIn(before) + (if last.Accepted? && last.response.Some? then [last.response.value] else [])
            && ErrorsIn(after) == ErrorsIn(before) + (if LastFails(turns, decode) then 1 else 0)
  {
    var front, last := turns[..|turns| - 1], turns[|turns| - 1];
    LastTurnWrites(turns, decode);
    WrittenCounts(TakeTurns(front, decode), last, LastPolls(turns), decode);
  }

  /**
   Over a whole run, the responses written are those of the accepted requests, in order, and there is one error for
   each rejected request and each poll that raises, and no other.
   */
  lemma {:induction false} OutputsExactly<P>(turns: seq<Turn<P>>, decode: string -> Option<P>)
    ensures ResponsesIn(TakeTurns(turns, decode).sink) == Responses(turns)
    ensures ErrorsIn(TakeTurns(turns, decode).sink) == Failures(turns, decode)
  {
    if turns != [] {
      OutputsExactly(turns[..|turns| - 1], decode);
      OutputsNext(turns, decode);
    }
  }

  method ForwardNotifications<P>(poll: Poll, lastEventId: Option<string>, decode: string -> Option<P>)
    returns (r: Option<(seq<P>, Option<string>)>)
    ensures r == PollResult(poll, lastEventId, decode)
  {
    if poll.Failed? {
      return None;
    }
    r := SsePayloads(poll.lines, lastEventId, decode);
  }

  method WriteNotifications<P>(sink: seq<Output<P>>, notifications: seq<P>) returns (out: seq<Output<P>>)
    ensures out == sink + Notices(notifications)
  {
    out := sink;
    for j := 0 to |notifications|
      invariant out == sink + Notices(notifications[..j])
    {
      out := out + [Notification(notifications[j])];
      assert Notices(notifications[..j + 1]) == Notices(notifications[..j]) + [Notification(notifications[j])];
    }
    assert notifications[..|notifications|] == notifications;
  }

  method RunStdio<P>(turns: seq<Turn<P>>, decode: string -> Option<P>) returns (sink: seq<Output<P>>)
    ensures sink == TakeTurns(turns, decode).sink
    ensures ResponsesIn(sink) == Responses(turns) && ErrorsIn(sink) == Failures(turns, decode)
  {
    var sessionId, lastEventId := "", None;
    sink := [];
    for i := 0 to |turns|
      invariant Proxy(sessionId, lastEventId, sink) == TakeTurns(turns[..i], decode)
    {
      assert turns[..i + 1][..i] == turns[..i];
      var turn := turns[i];
      if turn.reply.Blank? {
        continue;
      }
      if turn.reply.Rejected? {
        sink := sink + [ErrorLine];
        continue;
      }
      sessionId := if turn.reply.session != "" then turn.reply.session else sessionId;
      if turn.reply.response.Some? {
        sink := sink + [Response(turn.reply.response.value)];
      }
      if sessionId != "" {
        var polled := ForwardNotifications(turn.poll, lastEventId, decode);
        if polled.None? {
          sink := sink + [ErrorLine];
        } else {
          lastEventId := polled.value.1;
          sink := WriteNotifications(sink, polled.value.0);
        }
      }
    }
    assert turns[..|turns|] == turns;
    OutputsExactly(turns, decode);
  }

  // ----- what is delivered over a whole run

  function Notified<P>(sink: seq<Output<P>>): seq<P> {
    if sink == [] then []
    else
      var last := sink[|sink| - 1];
      Notified(sink[..|sink| - 1]) + (if last.Notification? then [last.payload] else [])
  }

  /** Whether a turn gets as far as polling. */
  predicate Polls<P>(x: Proxy<P>, turn: Turn<P>) {
    turn.reply.Accepted? && (turn.reply.session != "" || x.session != "")
  }

  /** The events whose payloads a turn writes. */
  function Delivers<P>(x: Proxy<P>, turn: Turn<P>, decode: string -> Option<P>): seq<Event> {
    if Polls(x, turn) && PollResult(turn.poll, x.cursor, decode).Some?
    then Select(Events(turn.poll.lines), x.cursor, IsNewer).taken else []
  }

  function Delivered<P>(turns: seq<Turn<P>>, decode: string -> Option<P>): seq<Event> {
    if turns == [] then []
    else
      var front := turns[..|turns| - 1];
      Delivered(front, decode) + Delivers(TakeTurns(front, decode), turns[|turns| - 1], decode)
  }

  lemma NotifiedNext<P>(sink: seq<Output<P>>, o: Output<P>)
    ensures Notified(sink + [o]) == Notified(sink) + (if o.Notification? then [o.payload] else [])
  {
    assert (sink + [o])[..|sink|] == sink;
  }

  lemma {:induction false} NotifiedNotices<P>(sink: seq<Output<P>>, payloads: seq<P>)
    ensures Notified(sink + Notices(payloads)) == Notified(sink) + payloads
  {
    if payloads == [] {
      assert sink + Notices(payloads) == sink;
    } else {
      var front, last := payloads[..|payloads| - 1], payloads[|payloads| - 1];
      NotifiedNotices(sink, front);
      NotifiedNext(sink + Notices(front), Notification(last));
      assert sink + Notices(payloads) == (sink + Notices(front)) + [Notification(last)];
    }
  }

  lemma {:induction false} DecodedAppend<P>(a: seq<Event>, b: seq<Event>, decode: string -> Option<P>)
    requires Decoded(a, decode).Some? && Decoded(b, decode).Some?
    ensures Decoded(a + b, decode) == Some(Decoded(a, decode).value + Decoded(b, decode).value)
  {
    if b == [] {
      assert a + b == a && Decoded(a, decode).value + [] == Decoded(a, decode).value;
    } else {
      assert (a + b)[..|a + b| - 1] == a + b[..|b| - 1];
      assert (a + b)[|a + b| - 1] == b[|b| - 1];
      DecodedAppend(a, b[..|b| - 1], decode);
      var front := Decoded(b[..|b| - 1], decode).value;
      var p := decode(b[|b| - 1].data).value;
      assert Decoded(a, decode).value + (front + [p]) == Decoded(a, decode).value + front + [p];
    }
  }

  lemma PolledPayloads<P>(poll: Poll, cursor: Option<string>, decode: string -> Option<P>)
    requires PollResult(poll, cursor, decode).Some?
    ensures poll.Body?
    ensures var selection := Select(Events(poll.lines), cursor, IsNewer);
            PollResult(poll, cursor, decode).value.1 == selection.cursor
            && Decoded(selection.taken, decode) == Some(PollResult(poll, cursor, decode).value.0)
  {
  }

  lemma AnswerNotifiesNothing<P>(sink: seq<Output<P>>, response: Option<P>)
    ensures Notified(Answer(sink, response)) == Notified(sink)
  {
    if response.Some? {
      NotifiedNext(sink, Response(response.value));
    }
  }

  lemma PollNotifies<P>(x: Proxy<P>, turn: Turn<P>, decode: string -> Option<P>)
    requires Polls(x, turn) && PollResult(turn.poll, x.cursor, decode).Some?
    ensures Decoded(Delivers(x, turn, decode), decode).Some?
    ensures Notified(TakeTurn(x, turn, decode).sink)
            == Notified(x.sink) + Decoded(Delivers(x, turn, decode), decode).value
  {
    PolledPayloads(turn.poll, x.cursor, decode);
    AnswerNotifiesNothing(x.sink, turn.reply.response);
    NotifiedNotices(Answer(x.sink, turn.reply.response), PollResult(turn.poll, x.cursor, decode).value.0);
  }

  lemma TurnNotifies<P>(x: Proxy<P>, turn: Turn<P>, decode: string -> Option<P>)
    ensures Decoded(Delivers(x, turn, decode), decode).Some?
    ensures Notified(TakeTurn(x, turn, decode).sink)
            == Notified(x.sink) + Decoded(Delivers(x, turn, decode), decode).value
  {
    if Polls(x, turn) && PollResult(turn.poll, x.cursor, decode).Some? {
      PollNotifies(x, turn, decode);
    } else {
      NotifiedNext(x.sink, ErrorLine);
      if turn.reply.Accepted? {
        AnswerNotifiesNothing(x.sink, turn.reply.response);
        NotifiedNext(Answer(x.sink, turn.reply.response), ErrorLine);
      }
    }
  }

  /** The notifications written are the payloads of the delivered events, in order. */
  lemma {:induction false} NotificationsAreDelivered<P>(turns: seq<Turn<P>>, decode: string -> Option<P>)
    ensures Decoded(Delivered(turns, decode), decode) == Some(Notified(TakeTurns(turns, decode).sink))
  {
    if turns != [] {
      var front, last := turns[..|turns| - 1], turns[|turns| - 1];
      NotificationsAreDelivered(front, decode);
      var x := TakeTurns(front, decode);
      TurnNotifies(x, last, decode);
      DecodedAppend(Delivered(front, decode), Delivers(x, last, decode), decode);
    }
  }

  /** A poll that raises writes no notification and leaves the cursor where it was. */
  lemma FailedPollChangesNothing<P>(x: Proxy<P>, turn: Turn<P>, decode: string -> Option<P>)
    requires Polls(x, turn) ==> PollResult(turn.poll, x.cursor, decode).None?
    ensures TakeTurn(x, turn, decode).cursor == x.cursor
    ensures Notified(TakeTurn(x, turn, decode).sink) == Notified(x.sink)
  {
    TurnNotifies(x, turn, decode);
  }

  // ----- at most once, whatever the server replays

  /** Every event with data carries an id of the one numbered stream. */
  ghost predicate AllNumbered(events: seq<Event>, ids: nat -> string) {
    forall i :: 0 <= i < |events| && events[i].data != "" ==> exists n :: events[i].id == Some(ids(n))
  }

  ghost predicate Increasing(events: seq<Event>, ids: nat -> string, numbers: seq<nat>) {
    && |numbers| == |events|
    && (forall i :: 0 <= i < |events| ==> events[i].id == Some(ids(numbers[i])))
    && (forall i, j :: 0 <= i < j < |numbers| ==> numbers[i] < numbers[j])
  }

  /** The cursor names the last of the delivered numbers. */
  ghost predicate CursorAt(cursor: Option<string>, ids: nat -> string, numbers: seq<nat>) {
    if numbers == [] then cursor == None else cursor == Some(ids(numbers[|numbers| - 1]))
  }

  lemma TakenIncreases(before: seq<Event>, numbers: seq<nat>, s: Selection, e: Event, newer: Comparison,
                       ids: nat -> string, n: nat)
    requires Compares(newer, ids) && Increasing(before + s.taken, ids, numbers) && CursorAt(s.cursor, ids, numbers)
    requires e.data != "" && newer(e.id, s.cursor) && e.id == Some(ids(n))
    ensures Increasing(before + SelectNext(s, e, newer).taken, ids, numbers + [n])
    ensures CursorAt(SelectNext(s, e, newer).cursor, ids, numbers + [n])
  {
    assert before + SelectNext(s, e, newer).taken == (before + s.taken) + [e];
    if numbers != [] {
      assert newer(Some(ids(n)), Some(ids(numbers[|numbers| - 1])));
    }
  }

  lemma {:induction false} SelectIncreases(
    before: seq<Event>, numbers: seq<nat>, events: seq<Event>, cursor: Option<string>, newer: Comparison,
    ids: nat -> string)
    returns (all: seq<nat>)
    requires Compares(newer, ids) && AllNumbered(events, ids)
    requires Increasing(before, ids, numbers) && CursorAt(cursor, ids, numbers)
    ensures Increasing(before + Select(events, cursor, newer).taken, ids, all)
    ensures CursorAt(Select(events, cursor, newer).cursor, ids, all)
  {
    if events == [] {
      all := numbers;
      assert before + [] == before;
    } else {
      var front, e := events[..|events| - 1], events[|events| - 1];
      all := SelectIncreases(before, numbers, front, cursor, newer, ids);
      var s := Select(front, cursor, newer);
      if e.data != "" && newer(e.id, s.cursor) {
        var n: nat :| e.id == Some(ids(n));
        TakenIncreases(before, all, s, e, newer, ids, n);
        all := all + [n];
      }
    }
  }

  lemma TurnCursor<P>(x: Proxy<P>, turn: Turn<P>, decode: string -> Option<P>)
    requires Polls(x, turn) && PollResult(turn.poll, x.cursor, decode).Some?
    ensures TakeTurn(x, turn, decode).cursor == PollResult(turn.poll, x.cursor, decode).value.1
  {
  }

  lemma TurnIncreases<P>(
    x: Proxy<P>, delivered: seq<Event>, numbers: seq<nat>, turn: Turn<P>, decode: string -> Option<P>, ids: nat -> string)
    returns (all: seq<nat>)
    requires Compares(IsNewer, ids) && (turn.poll.Body? ==> AllNumbered(Events(turn.poll.lines), ids))
    requires Increasing(delivered, ids, numbers) && CursorAt(x.cursor, ids, numbers)
    ensures Increasing(delivered + Delivers(x, turn, decode), ids, all)
    ensures CursorAt(TakeTurn(x, turn, decode).cursor, ids, all)
  {
    if Polls(x, turn) && PollResult(turn.poll, x.cursor, decode).Some? {
      PolledPayloads(turn.poll, x.cursor, decode);
      all := SelectIncreases(delivered, numbers, Events(turn.poll.lines), x.cursor, IsNewer, ids);
      TurnCursor(x, turn, decode);
    } else {
      all := numbers;
      FailedPollChangesNothing(x, turn, decode);
      assert delivered + [] == delivered;
    }
  }

  /**
   At most once: if all events belong to one numbered stream, then over the whole run each sequence number
   is delivered at most once and in increasing order, however the responses repeat, omit or reorder events.
   */
  lemma {:induction false} DeliveredAtMostOnce<P>(
    turns: seq<Turn<P>>, decode: string -> Option<P>, ids: nat -> string, prefix: string)
    returns (numbers: seq<nat>)
    requires Numbers(ids, prefix)
    requires forall i :: 0 <= i < |turns| && turns[i].poll.Body? ==> AllNumbered(Events(turns[i].poll.lines), ids)
    ensures Increasing(Delivered(turns, decode), ids, numbers)
    ensures CursorAt(TakeTurns(turns, decode).cursor, ids, numbers)
  {
    if turns == [] {
      numbers := [];
    } else {
      var front, last := turns[..|turns| - 1], turns[|turns| - 1];
      numbers := DeliveredAtMostOnce(front, decode, ids, prefix);
      NewerMeansLaterNumber(ids, prefix);
      numbers := TurnIncreases(TakeTurns(front, decode), Delivered(front, decode), numbers, last, decode, ids);
    }
  }

  // ----- exactly once, if the server sends windows that reach back to the cursor

  /** The events numbered `from` to `to` of a log, as the server sends them. */
  function Window(ids: nat -> string, log: seq<seq<string>>, from: nat, to: nat): seq<Source>
    requires 1 <= from && to <= |log|
  {
    if to < from then []
    else Window(ids, log, from, to - 1) + [Source(Some(ids(to)), log[to - 1])]
  }

  /** A plain printer sends windows. */
  lemma PrintedWindow(ids: nat -> string, log: seq<seq<string>>, from: nat, to: nat)
    requires 1 <= from <= to + 1 && to <= |log| && Sendable(log)
    ensures IsWindow(Print(Window(ids, log, from, to)), ids, log, from, to)
  {
    WindowEvents(ids, log, from, to);
    RoundTrip(Window(ids, log, from, to));
  }

  /** So do the system's servers, which print the kind of each event and end with a comment. */
  lemma ServedWindow(ids: nat -> string, log: seq<seq<string>>, from: nat, to: nat, kind: string, comment: string)
    requires 1 <= from <= to + 1 && to <= |log| && Sendable(log)
    ensures IsWindow(Serve(Window(ids, log, from, to), kind, comment), ids, log, from, to)
  {
    WindowEvents(ids, log, from, to);
    ServedRoundTrip(Window(ids, log, from, to), kind, comment);
  }

  /** The position of a cursor in the stream. */
  ghost predicate Position(cursor: Option<string>, ids: nat -> string, c: nat) {
    if c == 0 then cursor == None else cursor == Some(ids(c))
  }

  /** The lines carry the events numbered `from` to `to`, whatever else they say. */
  ghost predicate IsWindow(lines: seq<string>, ids: nat -> string, log: seq<seq<string>>, from: nat, to: nat) {
    1 <= from <= to + 1 && to <= |log| && Events(lines) == Span(ids, log, from, to)
  }

  ghost predicate HonestPoll(poll: Poll, ids: nat -> string, log: seq<seq<string>>, c: nat) {
    poll.Body? ==> exists from: nat, to: nat :: from <= c + 1 && IsWindow(poll.lines, ids, log, from, to)
  }

  predicate Succeeds<P>(x: Proxy<P>, turn: Turn<P>, decode: string -> Option<P>) {
    Polls(x, turn) && PollResult(turn.poll, x.cursor, decode).Some?
  }

  predicate SucceedsAt<P>(turns: seq<Turn<P>>, i: nat, decode: string -> Option<P>)
    requires i < |turns|
  {
    Succeeds(TakeTurns(turns[..i], decode), turns[i], decode)
  }

  /** The response carries an event with this id. */
  ghost predicate Shows(poll: Poll, id: string) {
    poll.Body? && exists k :: 0 <= k < |Events(poll.lines)| && Events(poll.lines)[k].id == Some(id)
  }

  ghost predicate ShowsUpTo(poll: Poll, ids: nat -> string, c: nat) {
    forall n: nat :: Shows(poll, ids(n)) ==> n <= c
  }

  /** The polls of a run that succeed. */
  function Successes<P>(turns: seq<Turn<P>>, decode: string -> Option<P>): seq<Poll> {
    if turns == [] then []
    else
      var front, last := turns[..|turns| - 1], turns[|turns| - 1];
      Successes(front, decode) + (if Succeeds(TakeTurns(front, decode), last, decode) then [last.poll] else [])
  }

  /** Number `c` is the largest that the responses have shown; it is 0 if none has shown any. */
  ghost predicate Farthest(polls: seq<Poll>, ids: nat -> string, c: nat) {
    && (forall i :: 0 <= i < |polls| ==> ShowsUpTo(polls[i], ids, c))
    && (c > 0 ==> exists i :: 0 <= i < |polls| && Shows(polls[i], ids(c)))
  }

  /** Each successful poll returns a window of the log that starts at or before the event after the cursor. */
  ghost predicate Honest<P>(
    turns: seq<Turn<P>>, decode: string -> Option<P>, ids: nat -> string, log: seq<seq<string>>)
  {
    forall i, c :: 0 <= i < |turns| && SucceedsAt(turns, i, decode)
                   && Position(TakeTurns(turns[..i], decode).cursor, ids, c)
                   ==> HonestPoll(turns[i].poll, ids, log, c)
  }

  ghost predicate Sendable(log: seq<seq<string>>) {
    forall i :: 0 <= i < |log| ==> log[i] != [] && Join(log[i]) != ""
  }

  function Numbered(ids: nat -> string, log: seq<seq<string>>, n: nat): Event
    requires 1 <= n <= |log|
  {
    Event(Some(ids(n)), Join(log[n - 1]))
  }

  /** The events numbered `from` to `to` of a log. */
  function Span(ids: nat -> string, log: seq<seq<string>>, from: nat, to: nat): seq<Event>
    requires 1 <= from && to <= |log|
  {
    if to < from then [] else Span(ids, log, from, to - 1) + [Numbered(ids, log, to)]
  }

  lemma {:induction false} SpanSplit(ids: nat -> string, log: seq<seq<string>>, c: nat, to: nat)
    requires c <= to <= |log|
    ensures Span(ids, log, 1, to) == Span(ids, log, 1, c) + Span(ids, log, c + 1, to)
  {
    if c < to {
      SpanSplit(ids, log, c, to - 1);
    }
  }

  lemma {:induction false} WindowEvents(ids: nat -> string, log: seq<seq<string>>, from: nat, to: nat)
    requires 1 <= from && to <= |log| && Sendable(log)
    ensures var window := Window(ids, log, from, to);
            && (forall i :: 0 <= i < |window| ==> window[i].data != [])
            && Sent(window) == Span(ids, log, from, to)
  {
    if from <= to {
      WindowEvents(ids, log, from, to - 1);
      assert Sent(Window(ids, log, from, to)) == Sent(Window(ids, log, from, to - 1)) + [Numbered(ids, log, to)];
    }
  }

  function Later(c: nat, to: nat): nat {
    if c < to then to else c
  }

  /** The selection that starts at position `c` has taken the events up to position `reached`. */
  ghost predicate Reaches(s: Selection, ids: nat -> string, log: seq<seq<string>>, c: nat, reached: nat)
    requires reached <= |log|
  {
    s.taken == Span(ids, log, c + 1, reached) && Position(s.cursor, ids, reached)
  }

  /** The event numbered `to` is taken exactly if the cursor is before it. */
  lemma SelectInWindow(ids: nat -> string, newer: Comparison, log: seq<seq<string>>, s: Selection, to: nat, c: nat)
    requires 1 <= to <= |log| && c <= |log| && Sendable(log) && Compares(newer, ids)
    requires Reaches(s, ids, log, c, Later(c, to - 1))
    ensures Reaches(SelectNext(s, Numbered(ids, log, to), newer), ids, log, c, Later(c, to))
  {
    var before := Later(c, to - 1);
    assert before > 0 ==> (newer(Some(ids(to)), Some(ids(before))) <==> to > before);
  }

  lemma SelectNextOfSpan(
    ids: nat -> string, newer: Comparison, log: seq<seq<string>>, from: nat, to: nat, cursor: Option<string>)
    requires 1 <= from <= to <= |log|
    ensures Select(Span(ids, log, from, to), cursor, newer)
         == SelectNext(Select(Span(ids, log, from, to - 1), cursor, newer), Numbered(ids, log, to), newer)
  {
    var events := Span(ids, log, from, to);
    assert events[..|events| - 1] == Span(ids, log, from, to - 1);
  }

  lemma NothingReached(ids: nat -> string, log: seq<seq<string>>, cursor: Option<string>, c: nat)
    requires c <= |log| && Position(cursor, ids, c)
    ensures Reaches(Selection([], cursor), ids, log, c, c)
  {
  }

  lemma SelectNothing(
    ids: nat -> string, newer: Comparison, log: seq<seq<string>>, from: nat, to: nat, cursor: Option<string>, c: nat)
    requires 1 <= from == to + 1 && from <= c + 1 && c <= |log| && Position(cursor, ids, c)
    ensures Reaches(Select(Span(ids, log, from, to), cursor, newer), ids, log, c, Later(c, to))
  {
    NothingReached(ids, log, cursor, c);
    assert Select(Span(ids, log, from, to), cursor, newer) == Selection([], cursor);
  }

  lemma SelectOneMore(
    ids: nat -> string, newer: Comparison, log: seq<seq<string>>, from: nat, to: nat, cursor: Option<string>, c: nat)
    requires 1 <= from <= to <= |log| && c <= |log| && Sendable(log) && Compares(newer, ids)
    requires Reaches(Select(Span(ids, log, from, to - 1), cursor, newer), ids, log, c, Later(c, to - 1))
    ensures Reaches(Select(Span(ids, log, from, to), cursor, newer), ids, log, c, Later(c, to))
  {
    SelectNextOfSpan(ids, newer, log, from, to, cursor);
    SelectInWindow(ids, newer, log, Select(Span(ids, log, from, to - 1), cursor, newer), to, c);
  }

  lemma {:induction false} SelectWindow(
    ids: nat -> string, newer: Comparison, log: seq<seq<string>>, from: nat, to: nat, cursor: Option<string>, c: nat)
    requires 1 <= from <= to + 1 && from <= c + 1 && to <= |log| && c <= |log| && Sendable(log)
    requires Compares(newer, ids) && Position(cursor, ids, c)
    ensures Reaches(Select(Span(ids, log, from, to), cursor, newer), ids, log, c, Later(c, to))
  {
    if from <= to {
      SelectWindow(ids, newer, log, from, to - 1, cursor, c);
      SelectOneMore(ids, newer, log, from, to, cursor, c);
    } else {
      SelectNothing(ids, newer, log, from, to, cursor, c);
    }
  }

  lemma {:induction false} SpanAt(ids: nat -> string, log: seq<seq<string>>, from: nat, to: nat)
    requires 1 <= from <= to + 1 && to <= |log|
    ensures |Span(ids, log, from, to)| == to + 1 - from
    ensures forall k :: 0 <= k < to + 1 - from ==> Span(ids, log, from, to)[k].id == Some(ids(from + k))
  {
    if from <= to {
      SpanAt(ids, log, from, to - 1);
    }
  }

  lemma WindowShows(
    lines: seq<string>, ids: nat -> string, newer: Comparison, log: seq<seq<string>>, from: nat, to: nat)
    requires IsWindow(lines, ids, log, from, to) && Compares(newer, ids)
    ensures ShowsUpTo(Body(lines), ids, to)
    ensures from <= to ==> Shows(Body(lines), ids(to))
  {
    SpanAt(ids, log, from, to);
    forall n: nat | Shows(Body(lines), ids(n)) ensures n <= to {
      var k :| 0 <= k < |Events(lines)| && Events(lines)[k].id == Some(ids(n));
      assert newer(Some(ids(n)), Some(ids(from + k))) <==> n > from + k;
      assert newer(Some(ids(from + k)), Some(ids(n))) <==> from + k > n;
    }
    if from <= to {
      assert Events(lines)[to - from].id == Some(ids(to));
    }
  }

  lemma HonestResponse(
    lines: seq<string>, ids: nat -> string, newer: Comparison, log: seq<seq<string>>, from: nat, to: nat,
    cursor: Option<string>, c: nat)
    returns (reached: nat)
    requires Sendable(log) && c <= |log| && from <= c + 1 && IsWindow(lines, ids, log, from, to)
    requires Compares(newer, ids) && Position(cursor, ids, c)
    ensures c <= reached <= |log|
    ensures Reaches(Select(Events(lines), cursor, newer), ids, log, c, reached)
    ensures ShowsUpTo(Body(lines), ids, reached)
    ensures c < reached ==> Shows(Body(lines), ids(reached))
  {
    WindowShows(lines, ids, newer, log, from, to);
    SelectWindow(ids, newer, log, from, to, cursor, c);
    reached := Later(c, to);
  }

  lemma HonestTurn<P>(
    x: Proxy<P>, turn: Turn<P>, decode: string -> Option<P>, ids: nat -> string, log: seq<seq<string>>, c: nat)
    returns (reached: nat)
    requires Sendable(log) && c <= |log| && Compares(IsNewer, ids)
    requires Position(x.cursor, ids, c) && (Succeeds(x, turn, decode) ==> HonestPoll(turn.poll, ids, log, c))
    ensures c <= reached <= |log| && Position(TakeTurn(x, turn, decode).cursor, ids, reached)
    ensures Delivers(x, turn, decode) == Span(ids, log, c + 1, reached)
    ensures Succeeds(x, turn, decode) ==> ShowsUpTo(turn.poll, ids, reached)
    ensures c < reached ==> Succeeds(x, turn, decode) && Shows(turn.poll, ids(reached))
  {
    reached := c;
    if Succeeds(x, turn, decode) {
      PolledPayloads(turn.poll, x.cursor, decode);
      var from: nat, to: nat :| from <= c + 1 && IsWindow(turn.poll.lines, ids, log, from, to);
      reached := HonestResponse(turn.poll.lines, ids, IsNewer, log, from, to, x.cursor, c);
      TurnCursor(x, turn, decode);
    } else {
      FailedPollChangesNothing(x, turn, decode);
    }
  }

  lemma FarthestNext(polls: seq<Poll>, ids: nat -> string, before: nat, poll: Poll, c: nat)
    requires before <= c && Farthest(polls, ids, before) && ShowsUpTo(poll, ids, c)
    requires before < c ==> Shows(poll, ids(c))
    ensures Farthest(polls + [poll], ids, c)
  {
    var all := polls + [poll];
    assert all[|polls|] == poll;
    forall i | 0 <= i < |all| ensures ShowsUpTo(all[i], ids, c) {
      assert i < |polls| ==> ShowsUpTo(polls[i], ids, before);
    }
    if 0 < c == before {
      var i :| 0 <= i < |polls| && Shows(polls[i], ids(c));
      assert all[i] == polls[i];
    }
  }

  /** The events numbered 1 to `c` are delivered, and these are all that successful responses have shown. */
  ghost predicate UpTo(
    cursor: Option<string>, delivered: seq<Event>, polls: seq<Poll>, ids: nat -> string, log: seq<seq<string>>, c: nat)
  {
    && c <= |log| && Position(cursor, ids, c)
    && delivered == Span(ids, log, 1, c)
    && Farthest(polls, ids, c)
  }

  ghost predicate DeliveredUpTo<P>(
    turns: seq<Turn<P>>, decode: string -> Option<P>, ids: nat -> string, log: seq<seq<string>>, c: nat)
  {
    UpTo(TakeTurns(turns, decode).cursor, Delivered(turns, decode), Successes(turns, decode), ids, log, c)
  }

  lemma UpToNext<P>(
    x: Proxy<P>, delivered: seq<Event>, polls: seq<Poll>, turn: Turn<P>, decode: string -> Option<P>,
    ids: nat -> string, log: seq<seq<string>>, before: nat)
    returns (c: nat)
    requires Sendable(log) && Compares(IsNewer, ids) && UpTo(x.cursor, delivered, polls, ids, log, before)
    requires Succeeds(x, turn, decode) ==> HonestPoll(turn.poll, ids, log, before)
    ensures UpTo(TakeTurn(x, turn, decode).cursor, delivered + Delivers(x, turn, decode),
                 polls + (if Succeeds(x, turn, decode) then [turn.poll] else []), ids, log, c)
  {
    c := HonestTurn(x, turn, decode, ids, log, before);
    SpanSplit(ids, log, before, c);
    if Succeeds(x, turn, decode) {
      FarthestNext(polls, ids, before, turn.poll, c);
    } else {
      assert polls + [] == polls;
    }
  }

  lemma HonestFront<P>(turns: seq<Turn<P>>, decode: string -> Option<P>, ids: nat -> string, log: seq<seq<string>>, c: nat)
    requires turns != [] && Honest(turns, decode, ids, log)
    ensures var n := |turns| - 1;
            && Honest(turns[..n], decode, ids, log)
            && (SucceedsAt(turns, n, decode) && Position(TakeTurns(turns[..n], decode).cursor, ids, c)
                ==> HonestPoll(turns[n].poll, ids, log, c))
  {
    var front := turns[..|turns| - 1];
    assert forall i :: 0 <= i < |front| ==> front[..i] == turns[..i];
  }

  /**
   Exactly once: if every poll that succeeds returns a window of the log reaching back to the cursor, then the
   events delivered over the whole run are a prefix of the log, with no gap and no repetition, up to the
   largest number that any of these responses has shown, and the cursor names the last of them.
   */
  lemma {:induction false} DeliveredExactlyOnce<P>(
    turns: seq<Turn<P>>, decode: string -> Option<P>, ids: nat -> string, prefix: string, log: seq<seq<string>>)
    returns (c: nat)
    requires Numbers(ids, prefix) && Sendable(log) && Honest(turns, decode, ids, log)
    ensures DeliveredUpTo(turns, decode, ids, log, c)
    ensures Decoded(Span(ids, log, 1, c), decode) == Some(Notified(TakeTurns(turns, decode).sink))
  {
    if turns == [] {
      c := 0;
    } else {
      var front, last := turns[..|turns| - 1], turns[|turns| - 1];
      HonestFront(turns, decode, ids, log, 0);
      var before := DeliveredExactlyOnce(front, decode, ids, prefix, log);
      HonestFront(turns, decode, ids, log, before);
      NewerMeansLaterNumber(ids, prefix);
      c := UpToNext(TakeTurns(front, decode), Delivered(front, decode), Successes(front, decode), last, decode,
                    ids, log, before);
    }
    NotificationsAreDelivered(turns, decode);
  }
}
