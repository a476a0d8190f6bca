/** The bounded memory sink, the pages read from it, and the cursor that follows them. */
module EventPages {
  import opened Text
  import opened EventBus

  // ---------------------------------------------------------------- the memory sink

  /** The last max events of a history; 0 or less means all of them. */
  function Last(history: seq<Event>, max: int): (last: seq<Event>)
    ensures |last| == if 0 < max < |history| then max else |history|
    ensures last == history[|history| - |last|..]
  {
    if max <= 0 || |history| <= max then history else history[|history| - max..]
  }

  lemma {:induction false} LastAppend(history: seq<Event>, max: int, e: Event)
    ensures Last(history + [e], max) == Last(Last(history, max) + [e], max)
  {}

  class MemorySink {
    const maxEvents: int
    var buffer: array<Event>
    var count: nat
    ghost var history: seq<Event>

    ghost predicate Valid()
      reads this, buffer
    {
      count <= buffer.Length && buffer[..count] == Last(history, maxEvents)
    }

    constructor (max: int)
      ensures Valid() && fresh(buffer) && history == [] && maxEvents == max
    {
      maxEvents := max;
      buffer := new Event[0];
      count, history := 0, [];
    }

    /** append, growing the slice when it is full. */
    method Append(e: Event)
      requires count <= buffer.Length
      modifies this`buffer, this`count, buffer
      ensures count == old(count) + 1 <= buffer.Length && buffer[..count] == old(buffer[..count]) + [e]
      ensures buffer == old(buffer) || fresh(buffer)
    {
      if count == buffer.Length {
        var larger := new Event[2 * count + 1](_ => e);
        var i := 0;
        while i < count
          invariant 0 <= i <= count && larger[..i] == buffer[..i]
          modifies larger
        {
          larger[i] := buffer[i];
          i := i + 1;
        }
        buffer := larger;
      }
      buffer[count] := e;
      count := count + 1;
    }

    /** copy(events, events[remove:]) and the truncation: everything moves down in place. */
    method DropFirst(remove: nat)
      requires remove <= count <= buffer.Length
      modifies this`count, buffer
      ensures count == old(count) - remove <= buffer.Length
      ensures buffer[..count] == old(buffer[remove..count])
    {
      ghost var was := buffer[..];
      var i := 0;
      while i < count - remove
        invariant 0 <= i <= count - remove
        invariant forall k | 0 <= k < i :: buffer[k] == was[k + remove]
        invariant forall k | i <= k < buffer.Length :: buffer[k] == was[k]
        modifies buffer
      {
        buffer[i] := buffer[i + remove];
        i := i + 1;
      }
      count := count - remove;
    }

    /** WriteEvent. */
    method WriteEvent(e: Event)
      requires Valid()
      modifies this, buffer
      ensures Valid() && history == old(history) + [e]
      ensures buffer == old(buffer) || fresh(buffer)
    {
      LastAppend(history, maxEvents, e);
      Append(e);
      history := history + [e];
      if maxEvents > 0 && count > maxEvents {
        DropFirst(count - maxEvents);
      }
    }

    /** Snapshot. */
    method Snapshot() returns (events: seq<Event>)
      requires Valid()
      ensures events == Last(history, maxEvents)
    {
      events := buffer[..count];
    }

    /** Since. */
    method Since(sequence: nat) returns (events: seq<Event>)
      requires Valid()
      ensures events == Select(Last(history, maxEvents), After(sequence))
    {
      events := [];
      var i := 0;
      while i < count
        invariant 0 <= i <= count
        invariant events == Select(buffer[..i], After(sequence))
      {
        SelectAppend(buffer[..i], buffer[i], After(sequence));
        assert buffer[..i + 1] == buffer[..i] + [buffer[i]];
        if buffer[i].sequence > sequence {
          events := events + [buffer[i]];
        }
        i := i + 1;
      }
    }
  }

  // ---------------------------------------------------------------- selections

  function Select(events: seq<Event>, keep: Event -> bool): seq<Event> {
    if events == [] then []
    else if keep(events[0]) then [events[0]] + Select(events[1..], keep)
    else Select(events[1..], keep)
  }

  function After(sequence: nat): Event -> bool {
    (e: Event) => e.sequence > sequence
  }

  function Both(first: Event -> bool, second: Event -> bool): Event -> bool {
    (e: Event) => first(e) && second(e)
  }

  lemma {:induction false} SelectAppend(events: seq<Event>, e: Event, keep: Event -> bool)
    ensures Select(events + [e], keep) == Select(events, keep) + if keep(e) then [e] else []
  {
    if events == [] {
      assert [] + [e] == [e];
    } else {
      assert (events + [e])[1..] == events[1..] + [e];
      SelectAppend(events[1..], e, keep);
    }
  }

  lemma {:induction false} SelectMembers(events: seq<Event>, keep: Event -> bool, e: Event)
    ensures e in Select(events, keep) <==> e in events && keep(e)
  {
    if events != [] {
      SelectMembers(events[1..], keep, e);
      assert e in events <==> e == events[0] || e in events[1..];
    }
  }

  lemma {:induction false} SelectIncreasing(events: seq<Event>, keep: Event -> bool)
    requires Increasing(events)
    ensures Increasing(Select(events, keep))
  {
    if events != [] {
      SelectIncreasing(events[1..], keep);
      var rest := Select(events[1..], keep);
      forall k | 0 <= k < |rest| ensures events[0].sequence < rest[k].sequence {
        SelectMembers(events[1..], keep, rest[k]);
        assert rest[k] in rest;
        var j :| 0 <= j < |events[1..]| && events[1..][j] == rest[k];
        assert events[j + 1] == rest[k];
      }
    }
  }

  lemma {:induction false} SelectTwice(events: seq<Event>, first: Event -> bool, second: Event -> bool)
    ensures Select(Select(events, first), second) == Select(events, Both(first, second))
  {
    if events != [] {
      SelectTwice(events[1..], first, second);
      if first(events[0]) {
        var rest := Select(events[1..], first);
        assert ([events[0]] + rest)[1..] == rest;
      }
    }
  }

  /** Two strictly increasing sequences with the same members are equal. */
  lemma {:induction false} IncreasingUnique(a: seq<Event>, b: seq<Event>)
    requires Increasing(a) && Increasing(b) && forall e :: e in a <==> e in b
    ensures a == b
  {
    if a == [] {
      FirstIsMember(b);
    } else {
      assert a[0] in b && b != [];
      assert b[0] in a;
      var i :| 0 <= i < |b| && b[i] == a[0];
      var j :| 0 <= j < |a| && a[j] == b[0];
      assert a[0] == b[0];
      forall e ensures e in a[1..] <==> e in b[1..] {
        if e in a[1..] { assert e in b && e != b[0]; }
        if e in b[1..] { assert e in a && e != a[0]; }
      }
      IncreasingUnique(a[1..], b[1..]);
    }
  }

  // ---------------------------------------------------------------- pages

  const DEFAULT_LIMIT := 200
  const MAXIMUM_LIMIT := 1000

  /** An empty filter accepts everything. */
  datatype Filters = Filters(kind: string, agentID: string, phase: string)

  datatype LimitText = Absent | NotANumber | Number(value: int)

  datatype SinceText = FromStart | NotUnsigned | From(sequence: nat)

  datatype Query = Query(verb: string, since: SinceText, limit: LimitText, kind: string, agentID: string, phase: string)

  datatype QueryError = MethodNotAllowed | InvalidSince | InvalidLimit

  datatype Page = Page(items: seq<Event>, total: nat, next: nat)

  predicate Passes(filter: string, value: string) {
    filter == "" || value == filter
  }

  function Matches(f: Filters): Event -> bool {
    (e: Event) => Passes(f.kind, e.kind) && Passes(f.agentID, e.agentID) && Passes(f.phase, e.phase)
  }

  function FiltersOf(kind: string, agentID: string, phase: string): Filters {
    Filters(Trim(kind), Trim(agentID), Upper(Trim(phase)))
  }

  /** What the client sends for its flags: blank filters are left out, the others cleaned. */
  function ClientQuery(since: nat, limit: int, kind: string, agentID: string, phase: string): Query {
    Query("GET", From(since), LimitText.Number(limit), Trim(kind), Trim(agentID), Upper(Trim(phase)))
  }

  /** The server reads the client's cleaned filters as it would have read the flags themselves. */
  lemma {:induction false} ClientFiltersSurvive(since: nat, limit: int, kind: string, agentID: string, phase: string)
    ensures var q := ClientQuery(since, limit, kind, agentID, phase);
      FiltersOf(q.kind, q.agentID, q.phase) == FiltersOf(kind, agentID, phase)
  {
    TrimIdempotent(kind);
    TrimIdempotent(agentID);
    UpperTrimIdempotent(phase);
  }

  /** Every retained event that the page could hold. */
  function Available(retained: seq<Event>, since: nat, f: Filters): seq<Event> {
    Select(if since > 0 then Select(retained, After(since)) else retained, Matches(f))
  }

  function Truncate(events: seq<Event>, limit: nat): seq<Event> {
    if |events| > limit then events[..limit] else events
  }

  function NextOf(items: seq<Event>): nat {
    if items == [] then 0 else items[|items| - 1].sequence
  }

  function PageOf(retained: seq<Event>, since: nat, limit: nat, f: Filters): Page {
    var available := Available(retained, since, f);
    var items := Truncate(available, limit);
    Page(items, |available|, NextOf(items))
  }

  predicate ValidLimit(limit: int) {
    1 <= limit <= MAXIMUM_LIMIT
  }

  /** parseLimit. */
  function ParseLimit(text: LimitText): (r: Result<nat, QueryError>)
    ensures r.Ok? <==> text.Absent? || (text.Number? && 1 <= text.value <= 1000)
    ensures r.Ok? ==> r.value == if text.Number? then text.value else 200
  {
    match text
    case Absent => Ok(DEFAULT_LIMIT)
    case NotANumber => Err(InvalidLimit)
    case Number(n) => if n <= 0 || n > MAXIMUM_LIMIT then Err(InvalidLimit) else Ok(n)
  }

  /** parseUintQuery of the since value. */
  function ParseSince(text: SinceText): Result<nat, QueryError> {
    match text
    case FromStart => Ok(0)
    case NotUnsigned => Err(InvalidSince)
    case From(n) => Ok(n)
  }

  /** The filtering loop of handleEvents. */
  method FilterEvents(events: seq<Event>, f: Filters) returns (filtered: seq<Event>)
    ensures filtered == Select(events, Matches(f))
  {
    filtered := [];
    var i := 0;
    while i < |events|
      invariant 0 <= i <= |events| && filtered == Select(events[..i], Matches(f))
    {
      var e := events[i];
      SelectAppend(events[..i], e, Matches(f));
      assert events[..i + 1] == events[..i] + [e];
      i := i + 1;
      if f.kind != "" && e.kind != f.kind {
        continue;
      }
      if f.agentID != "" && e.agentID != f.agentID {
        continue;
      }
      if f.phase != "" && e.phase != f.phase {
        continue;
      }
      filtered := filtered + [e];
    }
    assert events[..|events|] == events;
  }

  /** The truncation of handleEvents, and the cursor it returns. */
  method CutPage(events: seq<Event>, limit: nat) returns (page: Page)
    ensures page == Page(Truncate(events, limit), |events|, NextOf(Truncate(events, limit)))
  {
    var filtered := events;
    if |filtered| > limit {
      filtered := filtered[..limit];
    }
    var next: nat := 0;
    if |filtered| > 0 {
      next := filtered[|filtered| - 1].sequence;
    }
    page := Page(filtered, |events|, next);
  }

  // ---------------------------------------------------------------- what a page holds, filter by filter

  /** What the request asks for: each filter is trimmed, the phase is read in capitals, and a blank one does not
      count. */
  predicate Asked(q: Query, e: Event) {
    && (Trim(q.kind) == "" || e.kind == Trim(q.kind))
    && (Trim(q.agentID) == "" || e.agentID == Trim(q.agentID))
    && (Trim(q.phase) == "" || e.phase == Upper(Trim(q.phase)))
    && (q.since.From? ==> q.since.sequence == 0 || e.sequence > q.since.sequence)
  }

  /** The places of the events that meet a condition, in order. */
  ghost predicate PlacesOf(events: seq<Event>, meets: Event -> bool, places: seq<nat>) {
    && (forall i, j | 0 <= i < j < |places| :: places[i] < places[j])
    && (forall k: nat :: k in places <==> k < |events| && meets(events[k]))
  }

  ghost function Places(events: seq<Event>, meets: Event -> bool): (places: seq<nat>)
    ensures PlacesOf(events, meets, places)
  {
    if events == [] then []
    else
      var n := |events| - 1;
      var front := Places(events[..n], meets);
      assert forall i | 0 <= i < |front| :: front[i] in front;
      front + if meets(events[n]) then [n] else []
  }

  /** The events that keep selects are those at the places, in order. */
  ghost predicate AtPlaces(events: seq<Event>, places: seq<nat>, selected: seq<Event>) {
    && |selected| == |places|
    && forall i | 0 <= i < |places| :: places[i] < |events| && selected[i] == events[places[i]]
  }

  lemma {:induction false} AtPlacesNext(events: seq<Event>, places: seq<nat>, selected: seq<Event>, e: Event)
    requires AtPlaces(events, places, selected)
    ensures AtPlaces(events + [e], places, selected)
    ensures AtPlaces(events + [e], places + [|events|], selected + [e])
  {}

  lemma {:induction false} SelectPlaces(events: seq<Event>, meets: Event -> bool, keep: Event -> bool)
    requires forall e | e in events :: meets(e) == keep(e)
    ensures AtPlaces(events, Places(events, meets), Select(events, keep))
  {
    if events != [] {
      var n := |events| - 1;
      assert events == events[..n] + [events[n]] && events[n] in events;
      SelectPlaces(events[..n], meets, keep);
      SelectAppend(events[..n], events[n], keep);
      AtPlacesNext(events[..n], Places(events[..n], meets), Select(events[..n], keep), events[n]);
    }
  }

  /** The page is cut from the events at these places: total counts them, items are the first of them, next is the
      number of the last one taken. */
  ghost predicate Paged(retained: seq<Event>, places: seq<nat>, limit: nat, page: Page) {
    && page.total == |places|
    && |page.items| == (if |places| <= limit then |places| else limit)
    && (forall i | 0 <= i < |page.items| :: places[i] < |retained| && page.items[i] == retained[places[i]])
    && page.next == (if page.items == [] then 0 else page.items[|page.items| - 1].sequence)
  }

  /** Filter by filter, of every event on a page. */
  lemma {:induction false} PagedItems(retained: seq<Event>, q: Query, places: seq<nat>, limit: nat, page: Page, e: Event)
    requires PlacesOf(retained, Asking(q), places) && Paged(retained, places, limit, page) && e in page.items
    ensures e in retained
    ensures Trim(q.kind) != "" ==> e.kind == Trim(q.kind)
    ensures Trim(q.agentID) != "" ==> e.agentID == Trim(q.agentID)
    ensures Trim(q.phase) != "" ==> e.phase == Upper(Trim(q.phase))
    ensures q.since.From? && q.since.sequence > 0 ==> e.sequence > q.since.sequence
  {
    var i :| 0 <= i < |page.items| && page.items[i] == e;
    assert places[i] in places;
  }

  ghost function Asking(q: Query): Event -> bool {
    (e: Event) => Asked(q, e)
  }

  lemma {:induction false} AskedIsMatched(q: Query, e: Event)
    ensures var since := if q.since.From? then q.since.sequence else 0;
      Asked(q, e) <==> (since > 0 ==> After(since)(e)) && Matches(FiltersOf(q.kind, q.agentID, q.phase))(e)
  {
    assert Upper("") == "";
    assert Upper(Trim(q.phase)) == "" <==> Trim(q.phase) == "" by {
      assert |Upper(Trim(q.phase))| == |Trim(q.phase)|;
    }
  }

  lemma {:induction false} PagedFrom(retained: seq<Event>, places: seq<nat>, selected: seq<Event>, limit: nat)
    requires AtPlaces(retained, places, selected)
    ensures Paged(retained, places, limit,
                  Page(Truncate(selected, limit), |selected|, NextOf(Truncate(selected, limit))))
  {}

  lemma {:induction false} AvailableSelects(retained: seq<Event>, since: nat, f: Filters, meets: Event -> bool)
    requires forall e | e in retained :: meets(e) <==> (since > 0 ==> After(since)(e)) && Matches(f)(e)
    ensures AtPlaces(retained, Places(retained, meets), Available(retained, since, f))
  {
    if since > 0 {
      SelectTwice(retained, After(since), Matches(f));
      SelectPlaces(retained, meets, Both(After(since), Matches(f)));
    } else {
      SelectPlaces(retained, meets, Matches(f));
    }
  }

  /** A page is what the request asks for, in the order in which the sink holds it. */
  lemma {:induction false} PageIsAsked(retained: seq<Event>, q: Query, limit: nat)
    ensures var since := if q.since.From? then q.since.sequence else 0;
      Paged(retained, Places(retained, Asking(q)), limit,
            PageOf(retained, since, limit, FiltersOf(q.kind, q.agentID, q.phase)))
  {
    var since := if q.since.From? then q.since.sequence else 0;
    var f := FiltersOf(q.kind, q.agentID, q.phase);
    forall e | e in retained ensures Asking(q)(e) <==> (since > 0 ==> After(since)(e)) && Matches(f)(e) {
      AskedIsMatched(q, e);
    }
    AvailableSelects(retained, since, f, Asking(q));
    PagedFrom(retained, Places(retained, Asking(q)), Available(retained, since, f), limit);
  }

  /** handleEvents. */
  method HandleEvents(sink: MemorySink, q: Query) returns (r: Result<Page, QueryError>)
    requires sink.Valid()
    ensures r == Err(MethodNotAllowed) <==> q.verb != "GET"
    ensures r == Err(InvalidSince) <==> q.verb == "GET" && q.since.NotUnsigned?
    ensures r == Err(InvalidLimit) <==> q.verb == "GET" && !q.since.NotUnsigned? && ParseLimit(q.limit).Err?
    ensures r.Ok? ==>
      var f := FiltersOf(q.kind, q.agentID, q.phase);
      var since := if q.since.From? then q.since.sequence else 0;
      r.value == PageOf(Last(sink.history, sink.maxEvents), since, ParseLimit(q.limit).value, f)
    ensures r.Ok? ==> exists places ::
      && PlacesOf(Last(sink.history, sink.maxEvents), Asking(q), places)
      && Paged(Last(sink.history, sink.maxEvents), places, if q.limit.Number? then q.limit.value else 200, r.value)
    ensures r.Ok? ==> forall e | e in r.value.items ::
      && e in Last(sink.history, sink.maxEvents)
      && (Trim(q.kind) == "" || e.kind == Trim(q.kind))
      && (Trim(q.agentID) == "" || e.agentID == Trim(q.agentID))
      && (Trim(q.phase) == "" || e.phase == Upper(Trim(q.phase)))
      && (q.since.From? ==> q.since.sequence == 0 || e.sequence > q.since.sequence)
  {
    if q.verb != "GET" {
      return Err(MethodNotAllowed);
    }
    var since := ParseSince(q.since);
    if since.Err? {
      return Err(since.error);
    }
    var parsed := ParseLimit(q.limit);
    if parsed.Err? {
      return Err(parsed.error);
    }
    var events;
    if since.value > 0 {
      events := sink.Since(since.value);
    } else {
      events := sink.Snapshot();
    }
    var filtered := FilterEvents(events, FiltersOf(q.kind, q.agentID, q.phase));
    var page := CutPage(filtered, parsed.value);
    ghost var retained := Last(sink.history, sink.maxEvents);
    PageIsAsked(retained, q, parsed.value);
    forall e | e in page.items ensures e in retained && Asked(q, e) {
      PagedItems(retained, q, Places(retained, Asking(q)), parsed.value, page, e);
    }
    return Ok(page);
  }

  // ---------------------------------------------------------------- the cursor

  /** One round of the watch loop: a request that failed, or the sink's contents when it was served. */
  datatype Poll = Failed | Served(retained: seq<Event>)

  datatype Progress = Progress(printed: seq<Event>, cursor: nat)

  function Advance(w: Progress, poll: Poll, limit: int, f: Filters): Progress {
    if poll.Failed? || !ValidLimit(limit) then w
    else
      var page := PageOf(poll.retained, w.cursor, limit, f);
      Progress(w.printed + page.items, if page.next > w.cursor then page.next else w.cursor)
  }

  function Watched(polls: seq<Poll>, start: nat, limit: int, f: Filters): Progress {
    if polls == [] then Progress([], start)
    else Advance(Watched(polls[..|polls| - 1], start, limit, f), polls[|polls| - 1], limit, f)
  }

  /** runWatch. */
  method Watch(polls: seq<Poll>, start: nat, limit: int, f: Filters) returns (printed: seq<Event>, cursor: nat)
    ensures Progress(printed, cursor) == Watched(polls, start, limit, f)
  {
    printed, cursor := [], start;
    var round := 0;
    while round < |polls|
      invariant 0 <= round <= |polls|
      invariant Progress(printed, cursor) == Watched(polls[..round], start, limit, f)
    {
      assert polls[..round + 1][..round] == polls[..round];
      var poll := polls[round];
      round := round + 1;
      if poll.Failed? || !ValidLimit(limit) {
        continue;
      }
      var page := PageOf(poll.retained, cursor, limit, f);
      printed := printed + page.items;
      if page.next > cursor {
        cursor := page.next;
      }
    }
    assert polls[..|polls|] == polls;
  }

  /** A history as the bus writes it when publishers are serialised: numbered from 1 upwards, in order. */
  ghost predicate InOrder(history: seq<Event>) {
    Increasing(history) && forall e | e in history :: e.sequence > 0
  }

  /** The polls look at a bounded sink at moments of one growing history. */
  ghost predicate Follows(polls: seq<Poll>, moments: seq<seq<Event>>, history: seq<Event>, max: int) {
    && |moments| == |polls| && InOrder(history)
    && (forall k | 0 <= k < |moments| :: moments[k] <= history)
    && (forall k | 0 <= k < |polls| && polls[k].Served? :: polls[k].retained == Last(moments[k], max))
  }

  lemma {:induction false} LastInOrder(history: seq<Event>, moment: seq<Event>, max: int)
    requires InOrder(history) && moment <= history
    ensures InOrder(Last(moment, max))
    ensures forall e | e in Last(moment, max) :: e in history
  {
    var l := Last(moment, max);
    var d := |moment| - |l|;
    assert forall k | 0 <= k < |l| :: l[k] == history[k + d];
  }

  lemma {:induction false} AvailableMembers(retained: seq<Event>, since: nat, f: Filters, e: Event)
    requires forall x | x in retained :: x.sequence > 0
    ensures e in Available(retained, since, f) <==> e in retained && e.sequence > since && Matches(f)(e)
  {
    SelectMembers(retained, After(since), e);
    SelectMembers(if since > 0 then Select(retained, After(since)) else retained, Matches(f), e);
  }

  lemma {:induction false} AvailableIncreasing(retained: seq<Event>, since: nat, f: Filters)
    requires InOrder(retained)
    ensures Increasing(Available(retained, since, f))
  {
    SelectIncreasing(retained, After(since));
    SelectIncreasing(if since > 0 then Select(retained, After(since)) else retained, Matches(f));
  }

  /** A page holds exactly the retained events from the old cursor to the new one that pass the filters. */
  lemma {:induction false} PageMeaning(retained: seq<Event>, since: nat, limit: nat, f: Filters, e: Event)
    requires InOrder(retained) && limit > 0
    ensures var page := PageOf(retained, since, limit, f);
      && Increasing(page.items)
      && (page.items != [] ==> page.next > since)
      && (e in page.items <==> e in retained && Matches(f)(e) && since < e.sequence <= page.next)
  {
    var available := Available(retained, since, f);
    var page := PageOf(retained, since, limit, f);
    AvailableIncreasing(retained, since, f);
    AvailableMembers(retained, since, f, e);
    if page.items != [] {
      var last := page.items[|page.items| - 1];
      assert last in available;
      AvailableMembers(retained, since, f, last);
      if e in available {
        var k :| 0 <= k < |available| && available[k] == e;
        assert k < |page.items| <==> e.sequence <= page.next;
        assert k < |page.items| ==> page.items[k] == e;
      }
    }
  }

  // ---------------------------------------------------------------- lossless reading

  /** Events from start (excluded) to the cursor (included) that pass the filters. */
  predicate Wanted(f: Filters, start: nat, cursor: nat, e: Event) {
    Matches(f)(e) && start < e.sequence <= cursor
  }

  function CursorAt(polls: seq<Poll>, k: nat, start: nat, limit: int, f: Filters): nat
    requires k <= |polls|
  {
    Watched(polls[..k], start, limit, f).cursor
  }

  /** The sink had already evicted e when the poll that moved the cursor past it was served. */
  ghost predicate EvictedBefore(polls: seq<Poll>, moments: seq<seq<Event>>, max: int,
                                start: nat, limit: int, f: Filters, e: Event, k: nat)
    requires |moments| == |polls|
  {
    && k < |polls| && polls[k].Served?
    && CursorAt(polls, k, start, limit, f) < e.sequence <= CursorAt(polls, k + 1, start, limit, f)
    && e in moments[k] && e !in Last(moments[k], max)
  }

  ghost predicate Missed(polls: seq<Poll>, moments: seq<seq<Event>>, max: int,
                         start: nat, limit: int, f: Filters, e: Event)
    requires |moments| == |polls|
  {
    exists k :: EvictedBefore(polls, moments, max, start, limit, f, e, k)
  }

  lemma {:induction false} FollowsFront(polls: seq<Poll>, moments: seq<seq<Event>>, history: seq<Event>, max: int)
    requires Follows(polls, moments, history, max) && polls != []
    ensures Follows(polls[..|polls| - 1], moments[..|polls| - 1], history, max)
  {}

  /** One poll: the cursor moves forward, and what is printed is what was retained in between. */
  lemma {:induction false} AdvanceMeaning(w: Progress, poll: Poll, limit: int, f: Filters, e: Event)
    requires poll.Served? ==> InOrder(poll.retained)
    ensures var w' := Advance(w, poll, limit, f);
      && w.printed <= w'.printed && w.cursor <= w'.cursor
      && Increasing(w'.printed[|w.printed|..])
      && (e in w'.printed[|w.printed|..] <==>
        poll.Served? && e in poll.retained && Wanted(f, w.cursor, w'.cursor, e))
  {
    var w' := Advance(w, poll, limit, f);
    if poll.Served? && ValidLimit(limit) {
      PageMeaning(poll.retained, w.cursor, limit, f, e);
      assert w'.printed[|w.printed|..] == PageOf(poll.retained, w.cursor, limit, f).items;
    }
  }

  /** Everything printed is in the history, passes the filters, and comes once, in order. */
  lemma {:induction false} PrintedInOrder(polls: seq<Poll>, moments: seq<seq<Event>>, history: seq<Event>, max: int,
                                          start: nat, limit: int, f: Filters)
    requires Follows(polls, moments, history, max)
    ensures var w := Watched(polls, start, limit, f);
      && start <= w.cursor && Increasing(w.printed)
      && forall e | e in w.printed :: e in history && Wanted(f, start, w.cursor, e)
  {
    if polls != [] {
      var n := |polls| - 1;
      var before, after := Watched(polls[..n], start, limit, f), Watched(polls, start, limit, f);
      FollowsFront(polls, moments, history, max);
      PrintedInOrder(polls[..n], moments[..n], history, max, start, limit, f);
      if polls[n].Served? { LastInOrder(history, moments[n], max); }
      var added := after.printed[|before.printed|..];
      forall e ensures e in added ==> e in history && Wanted(f, before.cursor, after.cursor, e) {
        AdvanceMeaning(before, polls[n], limit, f, e);
      }
      AdvanceMeaning(before, polls[n], limit, f, Event(0, "", "", "", ""));
      IncreasingConcat(before.printed, added, before.cursor);
      assert after.printed == before.printed + added;
    }
  }

  lemma {:induction false} IncreasingConcat(a: seq<Event>, b: seq<Event>, between: nat)
    requires Increasing(a) && Increasing(b)
    requires forall e | e in a :: e.sequence <= between
    requires forall e | e in b :: between < e.sequence
    ensures Increasing(a + b)
  {
    forall j, k | 0 <= j < k < |a + b| ensures (a + b)[j].sequence < (a + b)[k].sequence {
      if j < |a| <= k {
        assert a[j] in a && b[k - |a|] in b;
      }
    }
  }

  lemma {:induction false} MissedSoFar(polls: seq<Poll>, moments: seq<seq<Event>>, max: int,
                                       start: nat, limit: int, f: Filters, e: Event, k: nat)
    requires |moments| == |polls| && polls != [] && k < |polls| - 1
    ensures EvictedBefore(polls, moments, max, start, limit, f, e, k)
      <==> EvictedBefore(polls[..|polls| - 1], moments[..|polls| - 1], max, start, limit, f, e, k)
  {
    var n := |polls| - 1;
    assert polls[..n][..k] == polls[..k] && polls[..n][..k + 1] == polls[..k + 1];
  }

  /** A cursor past e was moved past it by a poll that was served. */
  lemma {:induction false} InMoment(history: seq<Event>, moment: seq<Event>, e: Event, bound: Event)
    requires InOrder(history) && moment <= history && e in history && bound in moment
    requires e.sequence <= bound.sequence
    ensures e in moment
  {
    var i :| 0 <= i < |history| && history[i] == e;
    var j :| 0 <= j < |moment| && moment[j] == bound;
    assert history[j] == bound;
    assert i <= j;
  }

  lemma {:induction false} AdvanceBound(w: Progress, poll: Poll, limit: int, f: Filters)
    returns (bound: Event)
    requires Advance(w, poll, limit, f).cursor > w.cursor
    ensures poll.Served? && InOrder(poll.retained) ==>
      bound in poll.retained && bound.sequence == Advance(w, poll, limit, f).cursor
  {
    var page := PageOf(poll.retained, w.cursor, limit, f);
    bound := page.items[|page.items| - 1];
    if InOrder(poll.retained) {
      assert bound in Available(poll.retained, w.cursor, f);
      AvailableMembers(poll.retained, w.cursor, f, bound);
    }
  }

  lemma {:induction false} MissedFront(polls: seq<Poll>, moments: seq<seq<Event>>, max: int,
                                       start: nat, limit: int, f: Filters, e: Event)
    requires |moments| == |polls| && polls != []
    ensures var n := |polls| - 1;
      Missed(polls, moments, max, start, limit, f, e) <==>
      Missed(polls[..n], moments[..n], max, start, limit, f, e) || EvictedBefore(polls, moments, max, start, limit, f, e, n)
  {
    var n := |polls| - 1;
    forall k | 0 <= k < n
      ensures EvictedBefore(polls, moments, max, start, limit, f, e, k)
        <==> EvictedBefore(polls[..n], moments[..n], max, start, limit, f, e, k)
    {
      MissedSoFar(polls, moments, max, start, limit, f, e, k);
    }
  }

  /** The last poll prints e, or found it evicted, if it is the poll that moved the cursor past it. */
  lemma {:induction false} LastPoll(polls: seq<Poll>, moments: seq<seq<Event>>, history: seq<Event>, max: int,
                                    start: nat, limit: int, f: Filters, e: Event)
    requires Follows(polls, moments, history, max) && polls != []
    requires e in history && Matches(f)(e)
    ensures var n := |polls| - 1;
      var before, after := Watched(polls[..n], start, limit, f), Watched(polls, start, limit, f);
      && before.printed <= after.printed
      && (before.cursor < e.sequence <= after.cursor ==>
        (e in after.printed[|before.printed|..] <==> !EvictedBefore(polls, moments, max, start, limit, f, e, n)))
      && (e.sequence <= before.cursor ==> e !in after.printed[|before.printed|..])
      && (e.sequence <= before.cursor ==> !EvictedBefore(polls, moments, max, start, limit, f, e, n))
  {
    var n := |polls| - 1;
    var before, after := Watched(polls[..n], start, limit, f), Watched(polls, start, limit, f);
    if polls[n].Served? { LastInOrder(history, moments[n], max); }
    AdvanceMeaning(before, polls[n], limit, f, e);
    assert polls[..n + 1] == polls;
    if before.cursor < e.sequence <= after.cursor {
      var bound := AdvanceBound(before, polls[n], limit, f);
      InMoment(history, moments[n], e, bound);
    }
  }

  /** Lossless: up to the cursor, an event that passes the filters was either printed or evicted before the
      poll that moved the cursor past it, and never both. */
  lemma {:induction false} PrintedOrEvicted(polls: seq<Poll>, moments: seq<seq<Event>>, history: seq<Event>, max: int,
                                            start: nat, limit: int, f: Filters, e: Event)
    requires Follows(polls, moments, history, max)
    requires e in history && Wanted(f, start, Watched(polls, start, limit, f).cursor, e)
    ensures e in Watched(polls, start, limit, f).printed
      <==> !Missed(polls, moments, max, start, limit, f, e)
  {
    var n := |polls| - 1;
    var before, after := Watched(polls[..n], start, limit, f), Watched(polls, start, limit, f);
    FollowsFront(polls, moments, history, max);
    LastPoll(polls, moments, history, max, start, limit, f, e);
    MissedFront(polls, moments, max, start, limit, f, e);
    assert after.printed == before.printed + after.printed[|before.printed|..];
    if e.sequence <= before.cursor {
      PrintedOrEvicted(polls[..n], moments[..n], history, max, start, limit, f, e);
    } else {
      PrintedInOrder(polls[..n], moments[..n], history, max, start, limit, f);
      NotMissedEarlier(polls[..n], moments[..n], history, max, start, limit, f, e);
    }
  }

  lemma {:induction false} CursorGrows(polls: seq<Poll>, moments: seq<seq<Event>>, history: seq<Event>, max: int,
                                       start: nat, limit: int, f: Filters, k: nat)
    requires Follows(polls, moments, history, max) && k <= |polls|
    ensures CursorAt(polls, k, start, limit, f) <= Watched(polls, start, limit, f).cursor
  {
    if k == |polls| {
      assert polls[..k] == polls;
    } else {
      var n := |polls| - 1;
      FollowsFront(polls, moments, history, max);
      CursorGrows(polls[..n], moments[..n], history, max, start, limit, f, k);
      assert polls[..n][..k] == polls[..k];
    }
  }

  lemma {:induction false} NotMissedEarlier(polls: seq<Poll>, moments: seq<seq<Event>>, history: seq<Event>, max: int,
                                            start: nat, limit: int, f: Filters, e: Event)
    requires Follows(polls, moments, history, max)
    requires e.sequence > Watched(polls, start, limit, f).cursor
    ensures !Missed(polls, moments, max, start, limit, f, e)
  {
    forall k | 0 <= k < |polls| ensures !EvictedBefore(polls, moments, max, start, limit, f, e, k) {
      CursorGrows(polls, moments, history, max, start, limit, f, k + 1);
    }
  }

  /** With nothing evicted too early the pages concatenate to exactly the events asked for. */
  lemma {:induction false} PagesConcatenate(polls: seq<Poll>, moments: seq<seq<Event>>, history: seq<Event>, max: int,
                                            start: nat, limit: int, f: Filters)
    requires Follows(polls, moments, history, max)
    requires forall k | 0 <= k < |moments| :: max <= 0 || |moments[k]| <= max
    ensures var w := Watched(polls, start, limit, f);
      w.printed == Select(history, (e: Event) => Wanted(f, start, w.cursor, e))
  {
    var w := Watched(polls, start, limit, f);
    var wanted := (e: Event) => Wanted(f, start, w.cursor, e);
    PrintedInOrder(polls, moments, history, max, start, limit, f);
    SelectIncreasing(history, wanted);
    forall e ensures e in w.printed <==> e in Select(history, wanted) {
      SelectMembers(history, wanted, e);
      if e in history && wanted(e) {
        PrintedOrEvicted(polls, moments, history, max, start, limit, f, e);
        forall k | 0 <= k < |polls| ensures !EvictedBefore(polls, moments, max, start, limit, f, e, k) {}
      }
    }
    IncreasingUnique(w.printed, Select(history, wanted));
  }

  /** A served poll makes progress as long as anything retained is left to print. */
  lemma {:induction false} PollMakesProgress(w: Progress, retained: seq<Event>, limit: int, f: Filters, e: Event)
    requires InOrder(retained) && ValidLimit(limit)
    requires e in retained && Matches(f)(e) && w.cursor < e.sequence
    ensures Advance(w, Served(retained), limit, f).cursor > w.cursor
    ensures |Advance(w, Served(retained), limit, f).printed| > |w.printed|
  {
    AvailableMembers(retained, w.cursor, f, e);
    PageMeaning(retained, w.cursor, limit, f, e);
  }

  // ---------------------------------------------------------------- exactly when the cursor loses events

  /** Positive numbers, each used once, in any order: what every sink is given. */
  ghost predicate NumberedOnce(history: seq<Event>) {
    && (forall e | e in history :: e.sequence > 0)
    && (forall j, k | 0 <= j < k < |history| :: history[j].sequence != history[k].sequence)
  }

  /** A poll of a sink that evicts nothing, at one moment of its history. */
  predicate Sees(poll: Poll, moment: seq<Event>, history: seq<Event>) {
    moment <= history && (poll.Served? ==> poll.retained == moment)
  }

  /** e passes the filters and the cursor has gone past it, yet no poll has printed it. */
  ghost predicate Loses(history: seq<Event>, polls: seq<Poll>, moments: seq<seq<Event>>,
                        start: nat, limit: int, f: Filters, e: Event) {
    && |moments| == |polls| && (forall k | 0 <= k < |polls| :: Sees(polls[k], moments[k], history))
    && e in history
    && var w := Watched(polls, start, limit, f);
    Wanted(f, start, w.cursor, e) && e !in w.printed
  }

  ghost predicate LosesSome(history: seq<Event>) {
    exists polls, moments, start, limit, f, e :: Loses(history, polls, moments, start, limit, f, e)
  }

  const EVERYTHING := Filters("", "", "")

  /** One poll for one event, after start. */
  lemma {:induction false} OnePoll(retained: seq<Event>, start: nat, e: Event) returns (first: Event)
    requires (forall x | x in retained :: x.sequence > 0) && e in retained && e.sequence > start
    ensures first in retained && first.sequence > start
    ensures Watched([Served(retained)], start, 1, EVERYTHING) == Progress([first], first.sequence)
  {
    var available := Available(retained, start, EVERYTHING);
    AvailableMembers(retained, start, EVERYTHING, e);
    assert e in available;
    first := available[0];
    AvailableMembers(retained, start, EVERYTHING, first);
    var poll := Served(retained);
    assert [poll][..0] == [];
    assert Watched([], start, 1, EVERYTHING) == Progress([], start);
    assert Truncate(available, 1) == [first];
  }

  /** A poll between two events that came in the wrong order loses the second. */
  lemma {:induction false} DisorderLoses(history: seq<Event>, a: nat, b: nat)
    requires NumberedOnce(history) && a < b < |history| && history[a].sequence > history[b].sequence
    ensures LosesSome(history)
  {
    var moment, e := history[..b], history[b];
    assert moment[a] == history[a];
    var start: nat := e.sequence - 1;
    var first := OnePoll(moment, start, history[a]);
    var c :| 0 <= c < |moment| && moment[c] == first;
    assert history[c] == first;
    assert [first][0] != e;
    assert Loses(history, [Served(moment)], [moment], start, 1, EVERYTHING, e);
  }

  lemma {:induction false} OrderLosesNothing(history: seq<Event>, polls: seq<Poll>, moments: seq<seq<Event>>,
                                             start: nat, limit: int, f: Filters, e: Event)
    requires NumberedOnce(history) && Increasing(history)
    ensures !Loses(history, polls, moments, start, limit, f, e)
  {
    if Loses(history, polls, moments, start, limit, f, e) {
      assert forall k | 0 <= k < |moments| :: Sees(polls[k], moments[k], history);
      PrintedOrEvicted(polls, moments, history, 0, start, limit, f, e);
    }
  }

  /** Some way of polling loses an event exactly when the history is out of order. */
  lemma {:induction false} CursorLosesIff(history: seq<Event>)
    requires NumberedOnce(history)
    ensures LosesSome(history) <==> !Increasing(history)
  {
    if !Increasing(history) {
      var a, b :| 0 <= a < b < |history| && !(history[a].sequence < history[b].sequence);
      DisorderLoses(history, a, b);
    } else if LosesSome(history) {
      var polls, moments, start, limit, f, e :| Loses(history, polls, moments, start, limit, f, e);
      OrderLosesNothing(history, polls, moments, start, limit, f, e);
    }
  }

  lemma {:induction false} SinkNumberedOnce(setup: Setup, s: State, k: nat)
    requires Reachable(setup, s) && k < setup.sinks
    ensures |s.logs| == setup.sinks && NumberedOnce(s.logs[k])
  {
    ReachableInv(setup, s);
    SinksFollowQueue(setup, s, k);
    var l := s.logs[k];
    forall e | e in l ensures e.sequence > 0 {
      var j :| 0 <= j < |l| && l[j] == e;
      SentIsPositive(setup, s, j);
    }
    forall i, j | 0 <= i < j < |l| ensures l[i].sequence != l[j].sequence {
      assert SentDiffer(s, i, j);
    }
  }

  lemma {:induction false} SentIsPositive(setup: Setup, s: State, j: nat)
    requires Inv(setup, s) && j < |s.sent|
    ensures s.sent[j].sequence > 0
  {
    assert HasSender(s, j);
    var i :| 0 <= i < |s.callers| && WasSent(s.callers[i]) && s.callers[i].event == s.sent[j];
    assert CallerNumber(s, i);
  }

  /** Seen before the run: no watcher of an unbounded sink can ever lose an event exactly when there is at most one
      call to Publish, or nothing can reach a sink. */
  lemma {:induction false} WatchThreshold(setup: Setup)
    ensures (forall s, k | Reachable(setup, s) && 0 <= k < |s.logs| :: !LosesSome(s.logs[k])) <==>
      |setup.calls| <= 1 || setup.capacity == 0 || setup.sinks == 0
  {
    forall s, k | Reachable(setup, s) && 0 <= k < |s.logs| ensures LosesSome(s.logs[k]) <==> !Increasing(s.logs[k]) {
      ReachableInv(setup, s);
      SinkNumberedOnce(setup, s, k);
      CursorLosesIff(s.logs[k]);
    }
    OrderThreshold(setup);
  }

  /** What serialised publishers send reaches every sink as a history the cursor can follow. */
  lemma {:induction false} BusFeedsCursor(setup: Setup, steps: seq<Step>, k: nat)
    requires CanRun(setup, Initial(setup), steps) && SerialRun(setup, Initial(setup), steps) && k < setup.sinks
    ensures var s := RunFrom(setup, Initial(setup), steps);
      |s.logs| == setup.sinks && InOrder(s.logs[k])
  {
    var s := RunFrom(setup, Initial(setup), steps);
    ReachableInv(setup, s);
    SerialOrder(setup, steps);
    SinksFollowQueue(setup, s, k);
    forall e | e in s.logs[k] ensures e.sequence > 0 {
      var j :| 0 <= j < |s.logs[k]| && s.logs[k][j] == e;
      SentIsPositive(setup, s, j);
    }
  }
}
