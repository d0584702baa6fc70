/** The user-flux script: per-event-name counters of join/part/quit/kick/ban
    events, an announcement whenever the running total reaches a multiple of
    the configured count, after which the counters start again from empty.

    The persisted counters object keeps its keys in insertion order (which is
    also the order of the announcement's lines), so it is modelled as a list
    of name/count pairs with distinct names. The clock reading `new Date()` is
    an input instant. */
module UserFlux {
  import opened Js

  /** The event names the script reacts to, in the order the source lists them. */
  const RelevantEvents: seq<string> := ["irc:quit", "irc:join", "irc:part", "irc:kick", "irc:ban"]

  datatype Counter = Counter(name: string, count: int)

  /** The persisted state object. `events` is `None` after an announcement
      (the source sets it to `null`); `lastAnnounce` is the instant of the
      last announcement. */
  datatype FluxState = FluxState(
    events: Option<seq<Counter>>,
    last: Option<map<string, int>>,
    lastAnnounce: Option<int>,
    lastTotal: Option<int>)

  /** One line of an announcement: a counter and its delta text. */
  datatype ReportLine = ReportLine(name: string, count: int, delta: string)

  /** What one event did: the announcement made (if any) and the state
      written back (if any). */
  datatype FluxRun = FluxRun(report: Option<seq<ReportLine>>, written: Option<FluxState>)

  /** The keys of the counters object, in insertion order. */
  function Names(cs: seq<Counter>): (ns: seq<string>)
    ensures |ns| == |cs|
    ensures forall i {:trigger ns[i]} :: 0 <= i < |cs| ==> ns[i] == cs[i].name
    decreases |cs|
  {
    if |cs| == 0 then [] else [cs[0].name] + Names(cs[1..])
  }

  /** Keys of a JavaScript object are distinct. */
  predicate Distinct(ns: seq<string>) {
    forall i, j :: 0 <= i < j < |ns| ==> ns[i] != ns[j]
  }

  /** `events[name]` read as a number; a missing counter reads as 0. */
  function CountOf(cs: seq<Counter>, name: string): int
    decreases |cs|
  {
    if |cs| == 0 then 0
    else if cs[0].name == name then cs[0].count
    else CountOf(cs[1..], name)
  }

  predicate NonNegative(cs: seq<Counter>) {
    forall i :: 0 <= i < |cs| ==> cs[i].count >= 0
  }

  /** The sum of all counters (`Object.values(events).reduce((a, x) => a + x)`).
      Counters only ever go up from 0, so the total is never negative. */
  function Total(cs: seq<Counter>): (t: int)
    ensures NonNegative(cs) ==> t >= 0
    decreases |cs|
  {
    if |cs| == 0 then 0
    else
      assert NonNegative(cs) ==> NonNegative(cs[1..]);
      cs[0].count + Total(cs[1..])
  }

  /** With non-negative counters, whatever `events[name]` reads is at most the total. */
  lemma {:induction false} CountAtMostTotal(cs: seq<Counter>, name: string)
    requires NonNegative(cs)
    ensures CountOf(cs, name) <= Total(cs)
    decreases |cs|
  {
    if |cs| > 0 {
      assert NonNegative(cs[1..]);
      if cs[0].name != name {
        CountAtMostTotal(cs[1..], name);
      }
    }
  }

  /** Under distinct keys, a counter's own entry is what `events[name]` reads. */
  lemma {:induction false} CountOfDistinct(cs: seq<Counter>, i: int)
    requires Distinct(Names(cs))
    requires 0 <= i < |cs|
    ensures CountOf(cs, cs[i].name) == cs[i].count
    decreases |cs|
  {
    if i > 0 {
      assert Names(cs)[0] != Names(cs)[i];
      assert Names(cs[1..]) == Names(cs)[1..];
      CountOfDistinct(cs[1..], i - 1);
    }
  }

  /** Counts one event: the counter is created at 0 when missing (a new key,
      so it goes last) and then incremented by one. */
  function Increment(cs: seq<Counter>, name: string): (r: seq<Counter>)
    ensures CountOf(r, name) == CountOf(cs, name) + 1
    ensures forall n :: n != name ==> CountOf(r, n) == CountOf(cs, n)
    ensures Total(r) == Total(cs) + 1
    ensures Names(r) == if name in Names(cs) then Names(cs) else Names(cs) + [name]
    decreases |cs|
  {
    if |cs| == 0 then [Counter(name, 1)]
    else if cs[0].name == name then [Counter(name, cs[0].count + 1)] + cs[1..]
    else
      var r := [cs[0]] + Increment(cs[1..], name);
      assert r[1..] == Increment(cs[1..], name);
      r
  }

  /** Incrementing keeps the keys distinct. */
  lemma IncrementKeepsDistinct(cs: seq<Counter>, name: string)
    ensures Distinct(Names(cs)) ==> Distinct(Names(Increment(cs, name)))
  {
  }

  /** The `last` snapshot used before any announcement: 0 for each relevant event. */
  function DefaultLast(): map<string, int> {
    map["irc:ban" := 0, "irc:kick" := 0, "irc:part" := 0, "irc:join" := 0, "irc:quit" := 0]
  }

  /** `{ ...events }` as a lookup table. */
  function Snapshot(cs: seq<Counter>): (m: map<string, int>)
    ensures forall n :: n in m <==> n in Names(cs)
    ensures forall n :: n in m ==> m[n] == CountOf(cs, n)
    decreases |cs|
  {
    if |cs| == 0 then map[] else Snapshot(cs[1..])[cs[0].name := cs[0].count]
  }

  /** The delta text: `count - last`, with a `+` only when positive; a name
      missing from `last` makes the difference NaN. */
  function DeltaText(count: int, last: Option<int>): (t: string)
    ensures last.None? ==> t == "NaN"
    ensures last.Some? ==> (|t| > 0 && t[0] == '+' <==> count > last.value)
    ensures last.Some? ==> ParseInt(if count > last.value then t[1..] else t) == Some(count - last.value)
  {
    match last
    case None => "NaN"
    case Some(l) =>
      var d := count - l;
      IntToStringRoundTrip(d);
      if d > 0 then
        assert ("+" + IntToString(d))[1..] == IntToString(d);
        "+" + IntToString(d)
      else IntToString(d)
  }

  /** The announcement's lines: every counter in key order with its delta
      against the `last` snapshot. */
  function Report(cs: seq<Counter>, last: map<string, int>): (lines: seq<ReportLine>)
    // One line per key, in key order.
    ensures |lines| == |cs|
    ensures forall i :: 0 <= i < |lines| ==> lines[i].name == Names(cs)[i]
    // Each line shows what `events[name]` holds.
    ensures Distinct(Names(cs)) ==>
      forall i :: 0 <= i < |lines| ==> lines[i].count == CountOf(cs, lines[i].name)
    // A key missing from `last` gives a NaN delta.
    ensures forall i :: 0 <= i < |lines| && lines[i].name !in last ==> lines[i].delta == "NaN"
    // Otherwise the delta reads back as the difference, with `+` exactly when positive.
    ensures forall i :: 0 <= i < |lines| && lines[i].name in last ==>
      var d := lines[i].count - last[lines[i].name];
      && (|lines[i].delta| > 0 && lines[i].delta[0] == '+' <==> d > 0)
      && ParseInt(if d > 0 then lines[i].delta[1..] else lines[i].delta) == Some(d)
  {
    var lines := seq(|cs|, i requires 0 <= i < |cs| =>
      ReportLine(cs[i].name, cs[i].count,
                 DeltaText(cs[i].count, if cs[i].name in last then Some(last[cs[i].name]) else None)));
    assert Distinct(Names(cs)) ==> forall i :: 0 <= i < |cs| ==> CountOf(cs, cs[i].name) == cs[i].count by {
      if Distinct(Names(cs)) {
        forall i | 0 <= i < |cs|
          ensures CountOf(cs, cs[i].name) == cs[i].count
        {
          CountOfDistinct(cs, i);
        }
      }
    }
    lines
  }

  /** `constants.MESSAGE_COUNT || 1000` */
  function Limit(messageCount: Option<int>): (l: int)
    ensures l != 0
    ensures TruthyInt(messageCount) ==> l == messageCount.value
    ensures !TruthyInt(messageCount) ==> l == 1000
  {
    if TruthyInt(messageCount) then messageCount.value else 1000
  }

  /** The counters the state holds (`{}` when the field is falsy). */
  function EventsOf(s: FluxState): seq<Counter> {
    s.events.GetOr([])
  }

  predicate WellFormed(s: FluxState) {
    Distinct(Names(EventsOf(s)))
  }

  /** The script's handler for one event named `eventName`, given the state
      read from the store, the configured count and the current instant. */
  function Step(eventName: string, state: FluxState, messageCount: Option<int>, now: int): (r: FluxRun)
    // Only the five listed events touch anything.
    ensures eventName !in RelevantEvents ==> r == FluxRun(None, None)
    ensures eventName in RelevantEvents ==>
      var counters := Increment(EventsOf(state), eventName);
      var totals := Total(EventsOf(state)) + 1;
      && r.written.Some?
      // Every relevant event writes back the total after its increment.
      && r.written.value.lastTotal == Some(totals)
      && (WellFormed(state) ==> WellFormed(r.written.value))
      && r.written.value.lastAnnounce.Some?
      && (r.report.Some? <==> JsRem(totals, Limit(messageCount)) == 0)
      // On announce: lines against the previous snapshot, the new snapshot is
      // the counters, the counters are cleared and the instant is recorded.
      && (r.report.Some? ==>
           && r.report.value == Report(counters, state.last.GetOr(DefaultLast()))
           && r.written.value.last == Some(Snapshot(counters))
           && r.written.value.events == None
           && r.written.value.lastAnnounce == Some(now))
      // Otherwise: this event's counter went up by one, no other changed, and
      // the snapshot is kept (or defaulted).
      && (r.report.None? ==>
           && r.written.value.events == Some(counters)
           && Total(EventsOf(r.written.value)) == totals
           && CountOf(EventsOf(r.written.value), eventName) == CountOf(EventsOf(state), eventName) + 1
           && (forall n :: n != eventName ==> CountOf(EventsOf(r.written.value), n) == CountOf(EventsOf(state), n))
           && r.written.value.last == Some(state.last.GetOr(DefaultLast()))
           && (state.lastAnnounce.Some? ==> r.written.value.lastAnnounce == state.lastAnnounce)
           && (state.lastAnnounce.None? ==> r.written.value.lastAnnounce == Some(now)))
  {
    if eventName !in RelevantEvents then FluxRun(None, None)
    else
      var last := state.last.GetOr(DefaultLast());
      var counters := Increment(EventsOf(state), eventName);
      var totals := Total(counters);
      assert totals == Total(EventsOf(state)) + 1;
      // `!(totals % limit)`
      if JsRem(totals, Limit(messageCount)) == 0 then
        var s := FluxState(None, Some(Snapshot(counters)), Some(now), Some(totals));
        FluxRun(Some(Report(counters, last)), Some(s))
      else
        var announced := if state.lastAnnounce.Some? then state.lastAnnounce else Some(now);
        var s := FluxState(Some(counters), Some(last), announced, Some(totals));
        IncrementKeepsDistinct(EventsOf(state), eventName);
        assert EventsOf(s) == counters;
        FluxRun(None, Some(s))
  }

  /** The announcement flags of a sequence of events fed one after another,
      each seeing the state the previous one wrote. */
  function Announcements(state: FluxState, names: seq<string>, messageCount: Option<int>, now: int): seq<bool>
    requires forall i :: 0 <= i < |names| ==> names[i] in RelevantEvents
    decreases |names|
  {
    if |names| == 0 then []
    else
      var r := Step(names[0], state, messageCount, now);
      [r.report.Some?] + Announcements(r.written.value, names[1..], messageCount, now)
  }

  /** Between 1 and a positive limit, only the limit itself is a multiple of it. */
  lemma RemReachesZeroAtLimit(total: int, limit: int)
    requires 0 < total <= limit
    ensures JsRem(total, limit) == 0 <==> total == limit
  {
  }

  /** With a positive limit and counters summing to `done` below it, the
      following events announce exactly at the one that brings the total to
      the limit. */
  lemma {:induction false} AnnouncesWhenTotalReachesLimit(
    state: FluxState, names: seq<string>, messageCount: Option<int>, now: int, done: nat)
    requires forall i :: 0 <= i < |names| ==> names[i] in RelevantEvents
    requires Limit(messageCount) > 0
    requires Total(EventsOf(state)) == done
    requires done + |names| <= Limit(messageCount)
    ensures |Announcements(state, names, messageCount, now)| == |names|
    ensures forall i :: 0 <= i < |names| ==>
      (Announcements(state, names, messageCount, now)[i] <==> done + i + 1 == Limit(messageCount))
    decreases |names|
  {
    if |names| > 0 {
      var limit := Limit(messageCount);
      var r := Step(names[0], state, messageCount, now);
      var rest := Announcements(r.written.value, names[1..], messageCount, now);
      assert Announcements(state, names, messageCount, now) == [r.report.Some?] + rest;
      RemReachesZeroAtLimit(done + 1, limit);
      if done + 1 < limit {
        AnnouncesWhenTotalReachesLimit(r.written.value, names[1..], messageCount, now, done + 1);
      }
    }
  }

  /** After an announcement the counters restart empty, so with a positive
      limit the next announcement comes after exactly `limit` further
      relevant events. */
  lemma NextAnnouncementAfterLimitEvents(
    state: FluxState, names: seq<string>, messageCount: Option<int>, now: int)
    requires state.events.None?
    requires forall i :: 0 <= i < |names| ==> names[i] in RelevantEvents
    requires Limit(messageCount) > 0
    requires |names| == Limit(messageCount)
    ensures var flags := Announcements(state, names, messageCount, now);
            |flags| == |names| && flags[|names| - 1] && forall i :: 0 <= i < |names| - 1 ==> !flags[i]
  {
    AnnouncesWhenTotalReachesLimit(state, names, messageCount, now, 0);
  }
}
