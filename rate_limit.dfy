/** The sliding-window rate limiter in front of every HTTP route: the first
    rule whose path prefix starts the request path is consulted; per
    (client address, rule prefix) it keeps the timestamps of the allowed
    requests in the last `windowSeconds`, rejects a request once the window
    holds `maxRequests`, and, when too many windows are tracked, drops the
    stale ones. The monotonic clock is the parameter `now`. */
module RateLimit {
  import opened Common

  datatype Rule = Rule(pathPrefix: string, maxRequests: int, windowSeconds: int)

  /** The timestamps of one client's allowed requests under one rule, oldest first. */
  datatype ClientWindow = ClientWindow(timestamps: seq<int>)

  datatype WindowKey = WindowKey(clientIp: string, pathPrefix: string)

  /** An ASGI connection: its scope type, its path and its client host, if any. */
  datatype Request = Request(scopeType: string, path: string, client: Option<string>)

  datatype Outcome = Forwarded | Rejected(status: int, error: string)

  const DEFAULT_RULES: seq<Rule> := [
    Rule("/register", 10, 60),
    Rule("/token", 20, 60),
    Rule("/authorize", 20, 60),
    Rule("/consent", 20, 60),
    Rule("/mcp", 120, 60)
  ]

  const MAX_TRACKED_CLIENTS: nat := 1000

  const RATE_LIMITED: Outcome := Rejected(429, "Rate limit exceeded. Try again later.")

  /** `request.client.host if request.client else "unknown"`. */
  function ClientIp(req: Request): string {
    if req.client.Some? then req.client.value else "unknown"
  }

  /** The index of the first rule whose prefix starts `path`, if any. */
  function MatchRule(rules: seq<Rule>, path: string): (r: Option<nat>)
    ensures r.Some? ==> r.value < |rules| && StartsWith(path, rules[r.value].pathPrefix)
    ensures r.Some? ==> forall j :: 0 <= j < r.value ==> !StartsWith(path, rules[j].pathPrefix)
    ensures r.None? <==> forall j :: 0 <= j < |rules| ==> !StartsWith(path, rules[j].pathPrefix)
  {
    if rules == [] then None
    else if StartsWith(path, rules[0].pathPrefix) then Some(0)
    else match MatchRule(rules[1..], path)
      case None => None
      case Some(i) => Some(i + 1)
  }

  /** The index of the first rule with exactly this prefix: the only rule that
      ever governs the windows kept under that prefix. */
  function GoverningRule(rules: seq<Rule>, prefix: string): (r: Option<nat>)
    ensures r.Some? ==> r.value < |rules| && rules[r.value].pathPrefix == prefix
    ensures r.Some? ==> forall j :: 0 <= j < r.value ==> rules[j].pathPrefix != prefix
    ensures r.None? ==> forall j :: 0 <= j < |rules| ==> rules[j].pathPrefix != prefix
  {
    if rules == [] then None
    else if rules[0].pathPrefix == prefix then Some(0)
    else match GoverningRule(rules[1..], prefix)
      case None => None
      case Some(i) => Some(i + 1)
  }

  /** The rule that matches a path first is the first rule with its own
      prefix, so a window is only ever checked against one rule. */
  lemma {:induction false} MatchedRuleGoverns(rules: seq<Rule>, path: string)
    requires MatchRule(rules, path).Some?
    ensures GoverningRule(rules, rules[MatchRule(rules, path).value].pathPrefix) == MatchRule(rules, path)
  {
    if rules != [] && !StartsWith(path, rules[0].pathPrefix) {
      MatchedRuleGoverns(rules[1..], path);
    }
  }

  /** The most requests a window under this rule may hold. */
  function Cap(rule: Rule): nat {
    if rule.maxRequests < 0 then 0 else rule.maxRequests
  }

  /** `[t for t in timestamps if t > cutoff]`. */
  function Recent(ts: seq<int>, cutoff: int): (r: seq<int>)
    ensures |r| <= |ts|
    ensures forall j :: 0 <= j < |r| ==> r[j] > cutoff
  {
    if ts == [] then []
    else if ts[0] > cutoff then [ts[0]] + Recent(ts[1..], cutoff)
    else Recent(ts[1..], cutoff)
  }

  /** The filter keeps exactly the timestamps after the cutoff. */
  lemma {:induction false} RecentMembers(ts: seq<int>, cutoff: int)
    ensures forall t :: t in Recent(ts, cutoff) <==> t in ts && t > cutoff
  {
    if ts != [] {
      RecentMembers(ts[1..], cutoff);
      assert ts == [ts[0]] + ts[1..];
    }
  }

  /** A window whose timestamps are all after the cutoff is kept whole. */
  lemma {:induction false} RecentKeepsAll(ts: seq<int>, cutoff: int)
    requires forall j :: 0 <= j < |ts| ==> ts[j] > cutoff
    ensures Recent(ts, cutoff) == ts
  {
    if ts != [] {
      RecentKeepsAll(ts[1..], cutoff);
      assert ts == [ts[0]] + ts[1..];
    }
  }

  /** A window whose timestamps are all at or before the cutoff is emptied. */
  lemma {:induction false} RecentDropsAll(ts: seq<int>, cutoff: int)
    requires forall j :: 0 <= j < |ts| ==> ts[j] <= cutoff
    ensures Recent(ts, cutoff) == []
  {
    if ts != [] {
      RecentDropsAll(ts[1..], cutoff);
    }
  }

  /** The outcome of one check of a window: whether the request is rejected,
      and the timestamps the window keeps. */
  datatype Step = Step(limited: bool, kept: seq<int>)

  /** `_is_rate_limited` on one window's timestamps: drop those at or before
      `now - windowSeconds`; reject when what is left already reaches
      `maxRequests`, otherwise record `now`. */
  function Admit(ts: seq<int>, rule: Rule, now: int): (r: Step)
    ensures r.limited <==> |Recent(ts, now - rule.windowSeconds)| >= rule.maxRequests
    ensures r.limited ==> r.kept == Recent(ts, now - rule.windowSeconds)
    ensures !r.limited ==> r.kept == Recent(ts, now - rule.windowSeconds) + [now]
    ensures |ts| <= Cap(rule) ==> |r.kept| <= Cap(rule)
  {
    var recent := Recent(ts, now - rule.windowSeconds);
    if |recent| >= rule.maxRequests then Step(true, recent) else Step(false, recent + [now])
  }

  /** A window is stale when it is empty or its newest timestamp is older
      than the cutoff. */
  predicate IsStale(w: ClientWindow, cutoff: int) {
    w.timestamps == [] || w.timestamps[|w.timestamps| - 1] < cutoff
  }

  /** The windows that `_evict_stale_clients` leaves: every non-stale one, unchanged. */
  function RemoveStale(windows: map<WindowKey, ClientWindow>, cutoff: int): (r: map<WindowKey, ClientWindow>)
    ensures forall k :: k in r <==> k in windows && !IsStale(windows[k], cutoff)
    ensures forall k :: k in r ==> r[k] == windows[k]
  {
    map k | k in windows && !IsStale(windows[k], cutoff) :: windows[k]
  }

  /** `max(r.window_seconds for r in rules)`. */
  function MaxWindow(rules: seq<Rule>): (m: int)
    requires rules != []
    ensures forall j :: 0 <= j < |rules| ==> rules[j].windowSeconds <= m
    ensures exists j :: 0 <= j < |rules| && rules[j].windowSeconds == m
  {
    if |rules| == 1 then rules[0].windowSeconds
    else
      var rest := MaxWindow(rules[1..]);
      assert forall j :: 1 <= j < |rules| ==> rules[j] == rules[1..][j - 1];
      if rules[0].windowSeconds >= rest then rules[0].windowSeconds else rest
  }

  /** The window under `key`, or the empty window that the `defaultdict`
      creates on first access. */
  function WindowAt(windows: map<WindowKey, ClientWindow>, key: WindowKey): ClientWindow {
    if key in windows then windows[key] else ClientWindow([])
  }

  /** The cap of the first rule with exactly this prefix; nothing may be
      kept under a prefix that no rule has. */
  function CapFor(rules: seq<Rule>, prefix: string): nat {
    if rules == [] then 0
    else if rules[0].pathPrefix == prefix then Cap(rules[0])
    else CapFor(rules[1..], prefix)
  }

  /** The cap of a prefix is that of the rule governing it. */
  lemma {:induction false} CapForGoverning(rules: seq<Rule>, i: nat)
    requires i < |rules| && GoverningRule(rules, rules[i].pathPrefix) == Some(i)
    ensures CapFor(rules, rules[i].pathPrefix) == Cap(rules[i])
  {
    if i > 0 {
      assert rules[0].pathPrefix != rules[i].pathPrefix;
      assert rules[1..][i - 1] == rules[i];
      CapForGoverning(rules[1..], i - 1);
    }
  }

  /** Every window holds no more timestamps than the rule governing its
      prefix allows. */
  ghost predicate WithinCaps(rules: seq<Rule>, windows: map<WindowKey, ClientWindow>) {
    forall k :: k in windows ==> |windows[k].timestamps| <= CapFor(rules, k.pathPrefix)
  }

  /** The windows after a check under `key`: the checked window stores what
      `Admit` keeps, and an allowed request triggers the stale sweep when
      more than `MAX_TRACKED_CLIENTS` windows are tracked. */
  function AfterCheck(rules: seq<Rule>, windows: map<WindowKey, ClientWindow>, key: WindowKey, step: Step, now: int): map<WindowKey, ClientWindow>
    requires rules != []
  {
    var updated := windows[key := ClientWindow(step.kept)];
    if !step.limited && |updated| > MAX_TRACKED_CLIENTS
    then RemoveStale(updated, now - MaxWindow(rules) * 2)
    else updated
  }

  class RateLimiter {
    const rules: seq<Rule>
    var windows: map<WindowKey, ClientWindow>

    /** Every window is governed by a configured rule and never holds more
        timestamps than that rule allows. */
    ghost predicate Valid()
      reads this
    {
      rules != [] && WithinCaps(rules, windows)
    }

    /** `rules or DEFAULT_RULES`: an absent or empty list means the defaults. */
    constructor (rules: Option<seq<Rule>>)
      ensures Valid()
      ensures this.rules == if rules.None? || rules.value == [] then DEFAULT_RULES else rules.value
      ensures windows == map[]
    {
      this.rules := if rules.None? || rules.value == [] then DEFAULT_RULES else rules.value;
      windows := map[];
    }

    /** `_evict_stale_clients`: deletes, one by one, every window that is
        empty or whose newest timestamp is older than twice the largest rule
        window; every other window stays as it was. */
    method EvictStaleClients(now: int)
      requires Valid()
      modifies this`windows
      ensures Valid()
      ensures windows == RemoveStale(old(windows), now - MaxWindow(rules) * 2)
    {
      var cutoff := now - MaxWindow(rules) * 2;
      var stale := set k | k in windows && IsStale(windows[k], cutoff);
      var remaining := stale;
      while remaining != {}
        invariant remaining <= stale
        invariant windows == old(windows) - (stale - remaining)
        invariant Valid()
        decreases remaining
      {
        var k :| k in remaining;
        windows := windows - {k};
        remaining := remaining - {k};
      }
      assert windows == RemoveStale(old(windows), cutoff);
    }

    /** `_is_rate_limited` for the rule at `ruleIndex`, which governs its prefix. */
    method IsRateLimited(clientIp: string, ruleIndex: nat, now: int) returns (limited: bool)
      requires Valid()
      requires ruleIndex < |rules| && GoverningRule(rules, rules[ruleIndex].pathPrefix) == Some(ruleIndex)
      modifies this`windows
      ensures Valid()
      ensures var key := WindowKey(clientIp, rules[ruleIndex].pathPrefix);
              var step := Admit(WindowAt(old(windows), key).timestamps, rules[ruleIndex], now);
              && limited == step.limited
              && windows == AfterCheck(rules, old(windows), key, step, now)
    {
      var rule := rules[ruleIndex];
      var key := WindowKey(clientIp, rule.pathPrefix);
      var before := windows;
      var timestamps := WindowAt(windows, key).timestamps;
      CapForGoverning(rules, ruleIndex);
      assert |timestamps| <= Cap(rule);
      ghost var step := Admit(timestamps, rule, now);
      var recent := Recent(timestamps, now - rule.windowSeconds);
      windows := windows[key := ClientWindow(recent)];
      if |recent| >= rule.maxRequests {
        assert step == Step(true, recent);
        assert windows == AfterCheck(rules, before, key, step, now);
        return true;
      }
      assert step == Step(false, recent + [now]);
      windows := before[key := ClientWindow(recent + [now])];
      ghost var updated := windows;
      assert AfterCheck(rules, before, key, step, now) ==
        if |updated| > MAX_TRACKED_CLIENTS then RemoveStale(updated, now - MaxWindow(rules) * 2) else updated;
      if |windows| > MAX_TRACKED_CLIENTS {
        EvictStaleClients(now);
      }
      limited := false;
    }

    /** `__call__`: non-HTTP traffic and paths that match no rule pass
        untouched; otherwise only the first matching rule is checked, and a
        limited request gets the 429 response. */
    method Handle(req: Request, now: int) returns (outcome: Outcome)
      requires Valid()
      modifies this`windows
      ensures Valid()
      ensures req.scopeType != "http" || MatchRule(rules, req.path).None? ==>
                outcome == Forwarded && windows == old(windows)
      ensures req.scopeType == "http" && MatchRule(rules, req.path).Some? ==>
                var rule := rules[MatchRule(rules, req.path).value];
                var key := WindowKey(ClientIp(req), rule.pathPrefix);
                var step := Admit(WindowAt(old(windows), key).timestamps, rule, now);
                && outcome == (if step.limited then RATE_LIMITED else Forwarded)
                && windows == AfterCheck(rules, old(windows), key, step, now)
    {
      if req.scopeType != "http" {
        return Forwarded;
      }
      var clientIp := ClientIp(req);
      var i := 0;
      while i < |rules|
        invariant 0 <= i <= |rules|
        invariant forall j :: 0 <= j < i ==> !StartsWith(req.path, rules[j].pathPrefix)
        invariant windows == old(windows)
      {
        if StartsWith(req.path, rules[i].pathPrefix) {
          assert MatchRule(rules, req.path) == Some(i);
          MatchedRuleGoverns(rules, req.path);
          var limited := IsRateLimited(clientIp, i, now);
          outcome := if limited then RATE_LIMITED else Forwarded;
          return;
        }
        i := i + 1;
      }
      outcome := Forwarded;
    }
  }

  // ---------------------------------------------------------------------------
  // A burst against one window

  /** The outcomes of checking one window at each of `times` in turn, and the
      timestamps it holds afterwards. */
  function Run(ts: seq<int>, rule: Rule, times: seq<int>): (r: (seq<bool>, seq<int>))
    ensures |r.0| == |times|
    decreases |times|
  {
    if times == [] then ([], ts)
    else
      var prev := Run(ts, rule, times[..|times| - 1]);
      var step := Admit(prev.1, rule, times[|times| - 1]);
      (prev.0 + [step.limited], step.kept)
  }

  predicate NonDecreasing(times: seq<int>) {
    forall i, j :: 0 <= i < j < |times| ==> times[i] <= times[j]
  }

  /** One more request inside the window of an allowed, not yet full burst
      is allowed and recorded. */
  lemma BurstStep(rule: Rule, init: seq<int>, last: int)
    requires |init| < rule.maxRequests
    requires true !in Run([], rule, init).0 && Run([], rule, init).1 == init
    requires forall j :: 0 <= j < |init| ==> init[j] > last - rule.windowSeconds
    ensures true !in Run([], rule, init + [last]).0
    ensures Run([], rule, init + [last]).1 == init + [last]
  {
    var times := init + [last];
    assert times[..|times| - 1] == init;
    RecentKeepsAll(init, last - rule.windowSeconds);
  }

  /** Up to `maxRequests` requests that all fall within one window are all
      allowed, and the window then holds exactly their timestamps. */
  lemma {:induction false} BurstAllowed(rule: Rule, times: seq<int>)
    requires |times| <= rule.maxRequests
    requires NonDecreasing(times)
    requires times != [] ==> times[|times| - 1] - rule.windowSeconds < times[0]
    ensures true !in Run([], rule, times).0
    ensures Run([], rule, times).1 == times
  {
    if times != [] {
      var init := times[..|times| - 1];
      var last := times[|times| - 1];
      assert NonDecreasing(init) && (init != [] ==> init[|init| - 1] - rule.windowSeconds < init[0]) by {
        if init != [] {
          assert init[|init| - 1] <= last;
        }
      }
      BurstAllowed(rule, init);
      forall j | 0 <= j < |init| ensures init[j] > last - rule.windowSeconds {
        assert times[0] <= init[j];
      }
      BurstStep(rule, init, last);
      assert init + [last] == times;
    }
  }

  /** Once a burst fills the window, another request inside the same window
      is rejected and leaves the window as it was. */
  lemma FullWindowRejects(rule: Rule, times: seq<int>, extra: int)
    requires |times| == rule.maxRequests && NonDecreasing(times)
    requires times != [] ==> times[|times| - 1] <= extra && extra - rule.windowSeconds < times[0]
    ensures Admit(times, rule, extra) == Step(true, times)
  {
    forall j | 0 <= j < |times| ensures times[j] > extra - rule.windowSeconds {
      assert times[0] <= times[j];
    }
    RecentKeepsAll(times, extra - rule.windowSeconds);
  }

  /** A request a full window after the newest timestamp finds the window
      emptied and is allowed. */
  lemma WindowResets(rule: Rule, times: seq<int>, later: int)
    requires NonDecreasing(times) && 0 < rule.maxRequests
    requires times != [] ==> later - rule.windowSeconds >= times[|times| - 1]
    ensures Admit(times, rule, later) == Step(false, [later])
  {
    forall j | 0 <= j < |times| ensures times[j] <= later - rule.windowSeconds {
      assert times[j] <= times[|times| - 1];
    }
    RecentDropsAll(times, later - rule.windowSeconds);
  }

  /** The `/token` rule: twenty requests inside one minute pass, a
      twenty-first inside the same minute is rejected and leaves the window
      as it was, and a request a minute after the last one passes again. */
  lemma TokenRuleScenario(times: seq<int>, extra: int, later: int)
    requires |times| == 20 && NonDecreasing(times)
    requires times[19] <= extra && extra - 60 < times[0]
    requires later >= times[19] + 60
    ensures DEFAULT_RULES[1] == Rule("/token", 20, 60)
    ensures true !in Run([], DEFAULT_RULES[1], times).0
    ensures Admit(Run([], DEFAULT_RULES[1], times).1, DEFAULT_RULES[1], extra) == Step(true, times)
    ensures Admit(times, DEFAULT_RULES[1], later) == Step(false, [later])
  {
    var rule := Rule("/token", 20, 60);
    assert DEFAULT_RULES[1] == rule;
    BurstAllowed(rule, times);
    FullWindowRejects(rule, times, extra);
    WindowResets(rule, times, later);
  }
}
