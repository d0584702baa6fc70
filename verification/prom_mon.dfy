/** The Prometheus monitor script: at most one scrape per configured interval,
    and a notice for every firing alert of every group that has a firing rule.

    The clock reading and the outcome of the HTTP request are inputs. A rule
    always carries its `rules`/`alerts` lists: a group without `rules` makes
    the source throw, which is outside this model. */
module PromMon {
  import opened Js

  /** The persisted state; `lastUpdate` may be missing from a stored object. */
  datatype PromState = PromState(lastUpdate: Option<int>)

  datatype Alert = Alert(state: string, summary: string)

  datatype Rule = Rule(state: string, alerts: seq<Alert>)

  datatype Group = Group(rules: seq<Rule>)

  /** The `/api/v1/rules` outcome: a failed request, or the decoded body with
      its `status` and its `data.groups` (missing, or a list whose entries
      may be `null`). */
  datatype RulesResponse =
    | RequestFailed(httpStatus: int)
    | RulesBody(status: string, groups: Option<seq<Option<Group>>>)

  /** A message sent to the bot channel. */
  datatype Notice = RequestFailedNotice | CheckFailedNotice | AlertNotice(alert: Alert)

  /** What one run did: the state written, whether the rules were requested,
      and the notices sent. */
  datatype PromRun = PromRun(written: Option<PromState>, fetched: bool, notices: seq<Notice>)

  /** The scrape interval in milliseconds. */
  function IntervalMillis(freqMins: int): int {
    freqMins * 60 * 1000
  }

  /** `now - curState.lastUpdate < interval`, where a missing stored state reads
      as `lastUpdate: 0` and a stored state without the field gives NaN,
      which compares false. */
  function Throttled(now: int, stored: Option<PromState>, freqMins: int): (b: bool)
    // Nothing stored: throttled only while the clock is within one interval of 0.
    ensures stored.None? ==> (b <==> now < IntervalMillis(freqMins))
    // A stored state without the field is never throttled.
    ensures stored.Some? && stored.value.lastUpdate.None? ==> !b
    // Otherwise throttled exactly until one interval after the last scrape.
    ensures stored.Some? && stored.value.lastUpdate.Some? ==>
      (b <==> now < stored.value.lastUpdate.value + IntervalMillis(freqMins))
  {
    var last := if stored.Some? then stored.value.lastUpdate else Some(0);
    last.Some? && now - last.value < IntervalMillis(freqMins)
  }

  predicate IsFiring(state: string) {
    state == "firing"
  }

  /** `rules.some(({ state }) => state === "firing")` */
  predicate HasFiringRule(rules: seq<Rule>) {
    exists i :: 0 <= i < |rules| && IsFiring(rules[i].state)
  }

  /** `group?.rules.some(...)`: a `null` group is dropped. */
  predicate KeepGroup(g: Option<Group>) {
    g.Some? && HasFiringRule(g.value.rules)
  }

  /** The firing alerts of one rule, in order. */
  function FiringAlertsOf(alerts: seq<Alert>): (r: seq<Alert>)
    ensures forall a :: a in r <==> a in alerts && IsFiring(a.state)
    // Each firing alert is kept exactly as often as the rule lists it.
    ensures forall a :: multiset(r)[a] == if IsFiring(a.state) then multiset(alerts)[a] else 0
    decreases |alerts|
  {
    if |alerts| == 0 then []
    else
      assert alerts == [alerts[0]] + alerts[1..];
      (if IsFiring(alerts[0].state) then [alerts[0]] else []) + FiringAlertsOf(alerts[1..])
  }

  /** `.flatMap(({ rules }) => rules).forEach(({ alerts }) => alerts.filter(firing)...)`
      over the rules of the kept groups: an alert comes out exactly when it is
      firing and belongs to one of the rules. */
  function AlertsOfRules(rules: seq<Rule>): (r: seq<Alert>)
    ensures forall a :: a in r <==>
      IsFiring(a.state) && exists ri :: 0 <= ri < |rules| && a in rules[ri].alerts
    decreases |rules|
  {
    if |rules| == 0 then []
    else
      var r := FiringAlertsOf(rules[0].alerts) + AlertsOfRules(rules[1..]);
      assert forall a :: a in r <==>
        IsFiring(a.state) && exists ri :: 0 <= ri < |rules| && a in rules[ri].alerts
      by {
        forall a
          ensures a in r <==> IsFiring(a.state) && exists ri :: 0 <= ri < |rules| && a in rules[ri].alerts
        {
          if exists ri :: 0 <= ri < |rules| && a in rules[ri].alerts {
            var ri :| 0 <= ri < |rules| && a in rules[ri].alerts;
            if ri > 0 {
              assert rules[1..][ri - 1] == rules[ri];
            }
          }
          if exists ri :: 0 <= ri < |rules[1..]| && a in rules[1..][ri].alerts {
            var ri :| 0 <= ri < |rules[1..]| && a in rules[1..][ri].alerts;
            assert rules[ri + 1] == rules[1..][ri];
          }
        }
      }
      r
  }

  /** The alerts reported, in group / rule / alert order, as the source's
      `filter`, `flatMap` and per-rule `filter` compute them. An alert is
      reported exactly when it is firing and belongs to some rule of a
      (non-null) group that has at least one firing rule; so a firing alert in
      a group with no firing rule is never reported. */
  function FiringAlerts(groups: seq<Option<Group>>): (r: seq<Alert>)
    ensures forall a :: a in r <==>
      IsFiring(a.state) &&
      exists gi, ri :: 0 <= gi < |groups| && KeepGroup(groups[gi]) &&
        0 <= ri < |groups[gi].value.rules| && a in groups[gi].value.rules[ri].alerts
    decreases |groups|
  {
    if |groups| == 0 then []
    else
      var r := (if KeepGroup(groups[0]) then AlertsOfRules(groups[0].value.rules) else [])
               + FiringAlerts(groups[1..]);
      assert forall a :: a in r <==>
        IsFiring(a.state) &&
        exists gi, ri :: 0 <= gi < |groups| && KeepGroup(groups[gi]) &&
          0 <= ri < |groups[gi].value.rules| && a in groups[gi].value.rules[ri].alerts
      by {
        forall a
          ensures a in r <==>
            IsFiring(a.state) &&
            exists gi, ri :: 0 <= gi < |groups| && KeepGroup(groups[gi]) &&
              0 <= ri < |groups[gi].value.rules| && a in groups[gi].value.rules[ri].alerts
        {
          if exists gi, ri :: 0 <= gi < |groups| && KeepGroup(groups[gi]) &&
               0 <= ri < |groups[gi].value.rules| && a in groups[gi].value.rules[ri].alerts {
            var gi, ri :| 0 <= gi < |groups| && KeepGroup(groups[gi]) &&
               0 <= ri < |groups[gi].value.rules| && a in groups[gi].value.rules[ri].alerts;
            if gi > 0 {
              assert groups[1..][gi - 1] == groups[gi];
            }
          }
          if exists gi, ri :: 0 <= gi < |groups[1..]| && KeepGroup(groups[1..][gi]) &&
               0 <= ri < |groups[1..][gi].value.rules| && a in groups[1..][gi].value.rules[ri].alerts {
            var gi, ri :| 0 <= gi < |groups[1..]| && KeepGroup(groups[1..][gi]) &&
               0 <= ri < |groups[1..][gi].value.rules| && a in groups[1..][gi].value.rules[ri].alerts;
            assert groups[gi + 1] == groups[1..][gi];
          }
        }
      }
      r
  }

  /** All alerts of the rules of the kept groups, firing or not, in order:
      the plain flattening the reference definition filters. */
  function AllAlertsOfKeptGroups(groups: seq<Option<Group>>): seq<Alert>
    decreases |groups|
  {
    if |groups| == 0 then []
    else (if KeepGroup(groups[0]) then AllAlertsOfRules(groups[0].value.rules) else [])
         + AllAlertsOfKeptGroups(groups[1..])
  }

  function AllAlertsOfRules(rules: seq<Rule>): seq<Alert>
    decreases |rules|
  {
    if |rules| == 0 then [] else rules[0].alerts + AllAlertsOfRules(rules[1..])
  }

  lemma {:induction false} FiringAlertsOfAppend(xs: seq<Alert>, ys: seq<Alert>)
    ensures FiringAlertsOf(xs + ys) == FiringAlertsOf(xs) + FiringAlertsOf(ys)
    decreases |xs|
  {
    if |xs| == 0 {
      assert xs + ys == ys;
    } else {
      assert (xs + ys)[1..] == xs[1..] + ys;
      FiringAlertsOfAppend(xs[1..], ys);
    }
  }

  lemma {:induction false} AlertsOfRulesIsFilter(rules: seq<Rule>)
    ensures AlertsOfRules(rules) == FiringAlertsOf(AllAlertsOfRules(rules))
    decreases |rules|
  {
    if |rules| > 0 {
      AlertsOfRulesIsFilter(rules[1..]);
      FiringAlertsOfAppend(rules[0].alerts, AllAlertsOfRules(rules[1..]));
    }
  }

  /** The order of the notices: filtering per rule, as the source does, is
      the same as filtering the whole group/rule/alert flattening once. */
  lemma {:induction false} FiringAlertsIsFilterOfFlattening(groups: seq<Option<Group>>)
    ensures FiringAlerts(groups) == FiringAlertsOf(AllAlertsOfKeptGroups(groups))
    decreases |groups|
  {
    if |groups| > 0 {
      FiringAlertsIsFilterOfFlattening(groups[1..]);
      var head := if KeepGroup(groups[0]) then AllAlertsOfRules(groups[0].value.rules) else [];
      if KeepGroup(groups[0]) {
        AlertsOfRulesIsFilter(groups[0].value.rules);
      }
      FiringAlertsOfAppend(head, AllAlertsOfKeptGroups(groups[1..]));
    }
  }

  function AlertNotices(alerts: seq<Alert>): (r: seq<Notice>)
    ensures |r| == |alerts|
    ensures forall i :: 0 <= i < |alerts| ==> r[i] == AlertNotice(alerts[i])
  {
    seq(|alerts|, i requires 0 <= i < |alerts| => AlertNotice(alerts[i]))
  }

  /** `main`: `now` is the clock in milliseconds, `stored` what `state.get()`
      returned, `response` the outcome of the rules request (only consulted
      when the request is made). */
  function Main(now: int, stored: Option<PromState>, freqMins: int, response: RulesResponse): (r: PromRun)
    // Within the interval nothing happens: no write, no request, no notice.
    ensures Throttled(now, stored, freqMins) ==> r == PromRun(None, false, [])
    // Otherwise the interval is consumed before the request, whatever its outcome.
    ensures !Throttled(now, stored, freqMins) ==>
      r.written == Some(PromState(Some(now))) && r.fetched
    ensures !Throttled(now, stored, freqMins) && response.RequestFailed? ==>
      r.notices == [RequestFailedNotice]
    ensures !Throttled(now, stored, freqMins) && response.RulesBody? &&
            (response.status != "success" || response.groups.None?) ==>
      r.notices == [CheckFailedNotice]
    // A good body yields one notice per reported alert, and nothing else.
    ensures !Throttled(now, stored, freqMins) && response.RulesBody? &&
            response.status == "success" && response.groups.Some? ==>
      && |r.notices| == |FiringAlerts(response.groups.value)|
      && forall i :: 0 <= i < |r.notices| ==> r.notices[i] == AlertNotice(FiringAlerts(response.groups.value)[i])
  {
    if Throttled(now, stored, freqMins) then PromRun(None, false, [])
    else
      var written := Some(PromState(Some(now)));
      match response
      case RequestFailed(_) => PromRun(written, true, [RequestFailedNotice])
      case RulesBody(status, groups) =>
        if status != "success" || groups.None? then PromRun(written, true, [CheckFailedNotice])
        else PromRun(written, true, AlertNotices(FiringAlerts(groups.value)))
  }

  /** A run that goes ahead consumes the interval: any later run before the
      interval has elapsed again does nothing, even if the first run's
      request or check failed. */
  lemma IntervalConsumed(now1: int, now2: int, stored: Option<PromState>, freqMins: int,
                         response1: RulesResponse, response2: RulesResponse)
    requires !Throttled(now1, stored, freqMins)
    requires now2 - now1 < IntervalMillis(freqMins)
    ensures var run1 := Main(now1, stored, freqMins, response1);
            Main(now2, run1.written, freqMins, response2) == PromRun(None, false, [])
  {
  }
}
