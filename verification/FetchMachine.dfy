/** The policy-checked fetch machine: redirect loops inside retry loops inside a ladder of
    strategies. Every rate-limit, robots and page step is recorded in a trace with the number
    of the query it made, so that each is tied to the world's own answers. */
module FetchMachine {
  import opened Order

  const MAX_REDIRECTS := 5
  const MAX_ATTEMPTS := 3
  const RETRY_DELAYS: seq<real> := [1.0, 4.0]
  const LADDER: seq<Strategy> := [Http, Dynamic, Stealthy]

  datatype Strategy = Http | Dynamic | Stealthy

  type Delay = Option<real>

  datatype Target = Target(url: string, host: string)

  /** What is raised. `cancelled` stands for every exception that is not a MonitorError, the
      cancellation of the task included; `fetch` is a MonitorError that is a FetchError, the
      one kind with a retry-after and a detected interstitial; `transient` is the error class
      TRANSIENT_NETWORK and `contentAbsent` the code REQUIRED_CONTENT_ABSENT. */
  datatype Error = Error(
    cancelled: bool, fetch: bool, transient: bool, contentAbsent: bool, interstitial: bool, retryAfter: Delay)

  datatype Outcome<+T> = Ok(value: T) | Raised(error: Error)

  /** A page or robots response: its status and redirect location. */
  datatype Response = Response(status: int, location: Option<string>, retryAfter: Delay, body: seq<int>)

  datatype Decision = Decision(allowed: bool, crawlDelay: Delay)

  type Batch = seq<int>

  /** Every answer the outside gives, numbered by the query it answers. Quantifying over
      worlds quantifies over all behaviours of the network, the policies and the page. */
  datatype World = World(
    validate: (nat, string) -> Outcome<Target>,
    validateRedirect: (nat, string, nat) -> Outcome<Target>,
    page: (nat, Strategy, Target) -> Outcome<Response>,
    validatePage: (nat, Response, Target) -> Outcome<bool>,
    robots: (nat, Target) -> Outcome<Response>,
    validateRobots: (nat, Response, Target) -> Outcome<bool>,
    check: (nat, Option<Response>, Target) -> Outcome<Decision>,
    build: (nat, Response) -> Outcome<Batch>,
    classifyShell: (nat, Response) -> Outcome<bool>,
    robotsUrl: string -> string,
    origin: string -> string)

  /** What the machine does, in order. A fetch and a check carry the number of their query; a
      robots fetch the page it is for; a fetch how many redirects led to it; a check what it
      was asked with, what it answered and the retry-after found on the way. */
  datatype Event =
    | Acquire(host: string, delay: Delay)
    | RobotsFetch(query: nat, page: Target, redirects: nat, robots: Target)
    | Decided(query: nat, page: Target, parsed: Option<Response>, decision: Decision, retryAfter: Delay)
    | PageFetch(query: nat, strategy: Strategy, redirects: nat, target: Target)

  type Trace = seq<Event>

  /** One attempt: its first query number, its URL and strategy, and the retry-after of the
      error it retries. */
  datatype Ask = Ask(clock: nat, url: string, strategy: Strategy, retryAfter: Delay)

  predicate IsRedirect(status: int)
  {
    status == 301 || status == 302 || status == 303 || status == 307 || status == 308
  }

  /** A failure that says robots.txt is out of reach. */
  predicate Unreachable(status: int)
  {
    status == 404 || status == 410 || status == 429 || 500 <= status <= 599
  }

  function PolicyError(): Error
  {
    Error(false, false, false, false, false, None)
  }

  /** A retry-after value is used only when it is a non-negative number. */
  function SafeRetryAfter(e: Error): Delay
  {
    if e.fetch && e.retryAfter.Some? && e.retryAfter.value >= 0.0 then e.retryAfter else None
  }

  function MaxDelay(a: Delay, b: Delay): Delay
  {
    if a.None? then b else if b.None? then a else if a.value < b.value then b else a
  }

  predicate TransientFetch(e: Error)
  {
    !e.cancelled && e.fetch && e.transient
  }

  // ---------- what may happen next ----------

  function Last(t: Trace): Event
    requires t != []
  {
    t[|t| - 1]
  }

  /** The URLs of the pages fetched, in order. */
  function Pages(t: Trace): seq<string>
  {
    if t == [] then []
    else Pages(t[..|t| - 1]) + if Last(t).PageFetch? then [Last(t).target.url] else []
  }

  /** Pages and robots files requested. */
  function Requests(t: Trace): nat
  {
    if t == [] then 0
    else Requests(t[..|t| - 1]) + if Last(t).PageFetch? || Last(t).RobotsFetch? then 1 else 0
  }

  function Validated(r: Outcome<Target>): Option<Target>
  {
    if r.Ok? then Some(r.value) else None
  }

  /** Where the redirect answered to a fetch leads, if the machine may follow it. */
  function Onward(w: World, e: Event): Option<Target>
  {
    match e
    case PageFetch(query, strategy, redirects, target) =>
      var answer := w.page(query, strategy, target);
      if strategy == Http && redirects < MAX_REDIRECTS && answer.Ok? && w.validatePage(query + 1, answer.value, target).Ok?
         && IsRedirect(answer.value.status) && answer.value.location.Some?
      then Validated(w.validateRedirect(query + 2, answer.value.location.value, redirects + 1))
      else None
    case RobotsFetch(query, page, redirects, robots) =>
      var answer := w.robots(query, robots);
      if redirects < MAX_REDIRECTS && answer.Ok? && w.validateRobots(query + 1, answer.value, robots).Ok?
         && IsRedirect(answer.value.status) && answer.value.location.Some?
      then Validated(w.validateRedirect(query + 2, answer.value.location.value, redirects + 1))
      else None
    case _ => None
  }

  /** A robots fetch of this URL, at the given place or later. */
  ghost predicate FetchedSince(t: Trace, start: int, url: string)
  {
    exists j :: 0 <= j < |t| && start <= j && t[j].RobotsFetch? && t[j].robots.url == url
  }

  /** No robots fetch of the running decision had this URL. */
  ghost predicate NewRobots(t: Trace, url: string)
    requires t != [] && Last(t).RobotsFetch?
  {
    !FetchedSince(t, |t| - 1 - 2 * Last(t).redirects, url)
  }

  /** After the acquire that opens a preparation: the next query, and the page it is for. */
  function Subject(w: World, ask: Ask, t: Trace): Option<(nat, Target)>
  {
    if |t| == 1 then
      match w.validate(ask.clock, ask.url)
      case Ok(first) => Some((ask.clock + 1, first))
      case Raised(_) => None
    else if |t| > 1 && t[|t| - 2].PageFetch? then
      match Onward(w, t[|t| - 2])
      case Some(next) => Some((t[|t| - 2].query + 3, next))
      case None => None
    else None
  }

  /** A decision and the robots answer it rests on: the file that was read; nothing, where
      robots.txt is out of reach. */
  ghost predicate RestsOn(w: World, fetch: Event, d: Event)
    requires fetch.RobotsFetch? && d.Decided?
  {
    && d.page == fetch.page && w.check(d.query, d.parsed, d.page) == Ok(d.decision)
    && match w.robots(fetch.query, fetch.robots)
       case Raised(error) =>
         TransientFetch(error) && d.query == fetch.query + 1 && d.parsed == None && d.retryAfter == SafeRetryAfter(error)
       case Ok(response) =>
         && w.validateRobots(fetch.query + 1, response, fetch.robots).Ok? && d.query == fetch.query + 2
         && (response.status == 200 || Unreachable(response.status))
         && d.parsed == (if response.status == 200 then Some(response) else None)
         && d.retryAfter == if response.status == 429 || 500 <= response.status <= 599 then response.retryAfter else None
  }

  /** Whether the event may be the next one of the attempt. */
  ghost predicate Follows(w: World, ask: Ask, t: Trace, e: Event)
  {
    match e
    case Acquire(host, delay) =>
      if t == [] then
        && w.validate(ask.clock, ask.url).Ok? && host == w.validate(ask.clock, ask.url).value.host && delay == ask.retryAfter
      else
        (match Last(t)
         case Acquire(_, _) => false
         case RobotsFetch(_, _, _, robots) =>
           && delay == None && Onward(w, Last(t)).Some?
           && var next := Onward(w, Last(t)).value;
              host == next.host && w.origin(next.url) == w.origin(robots.url) && NewRobots(t, next.url)
         case Decided(_, page, _, decision, retryAfter) =>
           decision.allowed && host == page.host && delay == MaxDelay(decision.crawlDelay, retryAfter)
         case PageFetch(_, _, _, _) =>
           && delay == None && Onward(w, Last(t)).Some?
           && host == Onward(w, Last(t)).value.host && Onward(w, Last(t)).value.url !in Pages(t))
    case RobotsFetch(query, page, redirects, robots) =>
      && t != [] && Last(t).Acquire?
      && if |t| > 1 && t[|t| - 2].RobotsFetch? then
           var prior := t[|t| - 2];
           page == prior.page && redirects == prior.redirects + 1 && query == prior.query + 3 && Onward(w, prior) == Some(robots)
         else
           && redirects == 0 && query > 0 && Subject(w, ask, t) == Some((query - 1, page))
           && w.validate(query - 1, w.robotsUrl(page.url)) == Ok(robots)
    case Decided(_, _, _, _, _) => t != [] && Last(t).RobotsFetch? && RestsOn(w, Last(t), e)
    case PageFetch(query, strategy, redirects, target) =>
      && |t| > 1 && Last(t).Acquire? && t[|t| - 2].Decided? && t[|t| - 2].page == target
      && query == t[|t| - 2].query + 1 && strategy == ask.strategy && redirects == |Pages(t)|
  }

  /** Every event of the trace was the next one. */
  ghost predicate Grounded(w: World, ask: Ask, t: Trace)
  {
    forall i :: 0 <= i < |t| ==> Follows(w, ask, t[..i], t[i])
  }

  // ---------- how an attempt ends ----------

  /** The last page fetched was answered with a document. */
  ghost predicate Arrived(w: World, t: Trace)
  {
    && t != [] && Last(t).PageFetch?
    && var answer := w.page(Last(t).query, Last(t).strategy, Last(t).target);
       answer.Ok? && !IsRedirect(answer.value.status) && w.validatePage(Last(t).query + 1, answer.value, Last(t).target).Ok?
  }

  /** Why a robots fetch ends the attempt. */
  ghost predicate RobotsStop(w: World, t: Trace, error: Error)
    requires t != [] && Last(t).RobotsFetch?
  {
    var query, page, redirects, robots := Last(t).query, Last(t).page, Last(t).redirects, Last(t).robots;
    match w.robots(query, robots)
    case Raised(raised) =>
      if TransientFetch(raised) then w.check(query + 1, None, page) == Raised(error) else error == raised
    case Ok(response) =>
      match w.validateRobots(query + 1, response, robots)
      case Raised(raised) => error == raised
      case Ok(_) =>
        if IsRedirect(response.status) then
          if redirects == MAX_REDIRECTS || response.location.None? then error == PolicyError()
          else
            match w.validateRedirect(query + 2, response.location.value, redirects + 1)
            case Raised(raised) => error == raised
            case Ok(next) => error == PolicyError() && (w.origin(next.url) != w.origin(robots.url) || !NewRobots(t, next.url))
        else if response.status == 200 then w.check(query + 2, Some(response), page) == Raised(error)
        else if Unreachable(response.status) then w.check(query + 2, None, page) == Raised(error)
        else error == PolicyError()
  }

  /** Why a page fetch ends the attempt without a document. */
  ghost predicate PageStop(w: World, t: Trace, error: Error)
    requires t != [] && Last(t).PageFetch?
  {
    var query, strategy, redirects, target := Last(t).query, Last(t).strategy, Last(t).redirects, Last(t).target;
    match w.page(query, strategy, target)
    case Raised(raised) => error == raised
    case Ok(response) =>
      match w.validatePage(query + 1, response, target)
      case Raised(raised) => error == raised
      case Ok(_) =>
        && IsRedirect(response.status)
        && if strategy != Http || redirects == MAX_REDIRECTS || response.location.None? then error == PolicyError()
           else
             match w.validateRedirect(query + 2, response.location.value, redirects + 1)
             case Raised(raised) => error == raised
             case Ok(next) => error == PolicyError() && next.url in Pages(t)
  }

  /** Why an attempt ends without a document. */
  ghost predicate Stops(w: World, ask: Ask, t: Trace, error: Error)
  {
    if t == [] then w.validate(ask.clock, ask.url) == Raised(error)
    else
      match Last(t)
      case Acquire(_, _) =>
        && Subject(w, ask, t).Some?
        && var s := Subject(w, ask, t).value; w.validate(s.0, w.robotsUrl(s.1.url)) == Raised(error)
      case RobotsFetch(_, _, _, _) => RobotsStop(w, t, error)
      case Decided(_, _, _, decision, _) => !decision.allowed && error == PolicyError()
      case PageFetch(_, _, _, _) => PageStop(w, t, error)
  }

  // ---------- longer traces ----------

  lemma GroundedSnoc(w: World, ask: Ask, t: Trace, e: Event)
    requires Grounded(w, ask, t) && Follows(w, ask, t, e)
    ensures Grounded(w, ask, t + [e])
  {
    hide Follows;
    var more := t + [e];
    forall i | 0 <= i < |more| ensures Follows(w, ask, more[..i], more[i]) {
      if i < |t| {
        assert more[..i] == t[..i];
      } else {
        assert more[..i] == t;
      }
    }
  }

  lemma PagesSnoc(t: Trace, e: Event)
    ensures Pages(t + [e]) == Pages(t) + if e.PageFetch? then [e.target.url] else []
    ensures Requests(t + [e]) == Requests(t) + if e.PageFetch? || e.RobotsFetch? then 1 else 0
    ensures Last(t + [e]) == e
  {
    assert (t + [e])[..|t|] == t;
  }

  lemma FetchedSnoc(t: Trace, e: Event, start: nat)
    requires start <= |t|
    ensures forall url :: FetchedSince(t + [e], start, url) <==>
              FetchedSince(t, start, url) || (e.RobotsFetch? && e.robots.url == url)
  {
    var more := t + [e];
    assert more[|t|] == e && forall j :: 0 <= j < |t| ==> more[j] == t[j];
    forall url | FetchedSince(t, start, url) ensures FetchedSince(more, start, url) {
      var j :| 0 <= j < |t| && start <= j && t[j].RobotsFetch? && t[j].robots.url == url;
      assert more[j] == t[j];
    }
  }

  lemma NothingSince(t: Trace)
    ensures forall url :: !FetchedSince(t, |t|, url)
  {
  }

  // ---------- the machine ----------

  lemma NoRobotsUrl(w: World, ask: Ask, t: Trace, clock: nat, target: Target, error: Error)
    requires t != [] && Last(t).Acquire? && Subject(w, ask, t) == Some((clock, target))
    requires w.validate(clock, w.robotsUrl(target.url)) == Raised(error)
    ensures Stops(w, ask, t, error)
  {
  }

  lemma FirstRobots(w: World, ask: Ask, t: Trace, clock: nat, target: Target, robots: Target)
    requires t != [] && Last(t).Acquire? && Subject(w, ask, t) == Some((clock, target))
    requires w.validate(clock, w.robotsUrl(target.url)) == Ok(robots)
    ensures Follows(w, ask, t, RobotsFetch(clock + 1, target, 0, robots))
  {
  }

  lemma NextRobots(w: World, ask: Ask, t: Trace, next: Target, answer: Response)
    requires t != [] && Last(t).RobotsFetch? && Last(t).redirects < MAX_REDIRECTS
    requires w.robots(Last(t).query, Last(t).robots) == Ok(answer) && IsRedirect(answer.status) && answer.location.Some?
    requires w.validateRobots(Last(t).query + 1, answer, Last(t).robots).Ok?
    requires w.validateRedirect(Last(t).query + 2, answer.location.value, Last(t).redirects + 1) == Ok(next)
    requires w.origin(next.url) == w.origin(Last(t).robots.url) && NewRobots(t, next.url)
    ensures Follows(w, ask, t, Acquire(next.host, None))
    ensures Follows(w, ask, t + [Acquire(next.host, None)],
              RobotsFetch(Last(t).query + 3, Last(t).page, Last(t).redirects + 1, next))
  {
    hide Subject, NewRobots;
  }

  lemma RobotsStops(w: World, ask: Ask, t: Trace, error: Error)
    requires t != [] && Last(t).RobotsFetch? && RobotsStop(w, t, error)
    ensures Stops(w, ask, t, error)
  {
  }

  lemma NewRobotsMeans(t: Trace, start: nat)
    requires t != [] && Last(t).RobotsFetch? && |t| - 1 - 2 * Last(t).redirects == start
    ensures forall url :: NewRobots(t, url) <==> !FetchedSince(t, start, url)
  {
  }

  lemma RestsOnError(w: World, fetch: Event, decision: Decision)
    requires fetch.RobotsFetch? && w.robots(fetch.query, fetch.robots).Raised? && TransientFetch(w.robots(fetch.query, fetch.robots).error)
    requires w.check(fetch.query + 1, None, fetch.page) == Ok(decision)
    ensures RestsOn(w, fetch, Decided(fetch.query + 1, fetch.page, None, decision, SafeRetryAfter(w.robots(fetch.query, fetch.robots).error)))
  {
  }

  lemma RestsOnAnswer(w: World, fetch: Event, parsed: Option<Response>, retryAfter: Delay, decision: Decision)
    requires fetch.RobotsFetch? && w.robots(fetch.query, fetch.robots).Ok?
    requires var answer := w.robots(fetch.query, fetch.robots).value;
             && w.validateRobots(fetch.query + 1, answer, fetch.robots).Ok?
             && (answer.status == 200 || Unreachable(answer.status))
             && parsed == (if answer.status == 200 then Some(answer) else None)
             && retryAfter == if answer.status == 429 || 500 <= answer.status <= 599 then answer.retryAfter else None
    requires w.check(fetch.query + 2, parsed, fetch.page) == Ok(decision)
    ensures RestsOn(w, fetch, Decided(fetch.query + 2, fetch.page, parsed, decision, retryAfter))
  {
  }

  /** A decision that rests on the robots fetch before it, recorded. */
  lemma DecisionRecorded(w: World, ask: Ask, t: Trace, d: Event)
    requires Grounded(w, ask, t) && t != [] && Last(t).RobotsFetch? && d.Decided? && RestsOn(w, Last(t), d)
    ensures Grounded(w, ask, t + [d]) && Pages(t + [d]) == Pages(t) && Last(t + [d]) == d
  {
    hide Grounded, Pages, Requests, RestsOn;
    GroundedSnoc(w, ask, t, d);
    PagesSnoc(t, d);
  }

  method RobotsDecision(w: World, clock: nat, target: Target, before: Trace, ghost ask: Ask)
    returns (r: Outcome<(Decision, Delay)>, t: Trace, now: nat)
    requires Grounded(w, ask, before) && before != [] && Last(before).Acquire? && Subject(w, ask, before) == Some((clock, target))
    ensures Grounded(w, ask, t) && Pages(t) == Pages(before) && t != []
    ensures r.Ok? ==> now > 0 && Last(t).Decided?
                      && Last(t) == Decided(now - 1, target, Last(t).parsed, r.value.0, r.value.1)
    ensures r.Raised? ==> !Last(t).PageFetch? && !Last(t).Decided? && Stops(w, ask, t, r.error)
  {
    hide Grounded, Pages, Requests, FetchedSince, Follows, Stops, Subject, NewRobots, RestsOn, Onward;
    t, now := before, clock + 1;
    NothingSince(before);
    var robots := w.validate(clock, w.robotsUrl(target.url));
    if robots.Raised? {
      NoRobotsUrl(w, ask, before, clock, target, robots.error);
      return Raised(robots.error), t, now;
    }
    var current := robots.value;
    FirstRobots(w, ask, before, clock, target, current);
    var initialOrigin := w.origin(current.url);
    var seen := {current.url};
    var redirects := 0;
    while true
      invariant 0 <= redirects <= MAX_REDIRECTS && |t| == |before| + 2 * redirects
      invariant Grounded(w, ask, t) && Pages(t) == Pages(before)
      invariant Follows(w, ask, t, RobotsFetch(now, target, redirects, current))
      invariant w.origin(current.url) == initialOrigin && current.url in seen
      invariant forall url :: url in seen <==> url == current.url || FetchedSince(t, |before|, url)
      decreases MAX_REDIRECTS - redirects
    {
      var response := w.robots(now, current);
      ghost var was, fetch := t, RobotsFetch(now, target, redirects, current);
      t := t + [RobotsFetch(now, target, redirects, current)];
      GroundedSnoc(w, ask, was, fetch);
      PagesSnoc(was, fetch);
      FetchedSnoc(was, fetch, |before|);
      NewRobotsMeans(t, |before|);
      now := now + 1;
      if response.Raised? {
        if response.error.cancelled || !response.error.fetch || !response.error.transient {
          RobotsStops(w, ask, t, response.error);
          return Raised(response.error), t, now;
        }
        var unreachable := w.check(now, None, target);
        now := now + 1;
        if unreachable.Raised? {
          RobotsStops(w, ask, t, unreachable.error);
          return Raised(unreachable.error), t, now;
        }
        RestsOnError(w, fetch, unreachable.value);
        DecisionRecorded(w, ask, t, Decided(now - 1, target, None, unreachable.value, SafeRetryAfter(response.error)));
        t := t + [Decided(now - 1, target, None, unreachable.value, SafeRetryAfter(response.error))];
        return Ok((unreachable.value, SafeRetryAfter(response.error))), t, now;
      }
      var valid := w.validateRobots(now, response.value, current);
      now := now + 1;
      if valid.Raised? {
        RobotsStops(w, ask, t, valid.error);
        return Raised(valid.error), t, now;
      }
      var status := response.value.status;
      if IsRedirect(status) {
        if redirects + 1 > MAX_REDIRECTS || response.value.location.None? {
          RobotsStops(w, ask, t, PolicyError());
          return Raised(PolicyError()), t, now;
        }
        var next := w.validateRedirect(now, response.value.location.value, redirects + 1);
        now := now + 1;
        if next.Raised? {
          RobotsStops(w, ask, t, next.error);
          return Raised(next.error), t, now;
        }
        if w.origin(next.value.url) != initialOrigin || next.value.url in seen {
          RobotsStops(w, ask, t, PolicyError());
          return Raised(PolicyError()), t, now;
        }
        NextRobots(w, ask, t, next.value, response.value);
        redirects := redirects + 1;
        seen := seen + {next.value.url};
        current := next.value;
        was := t;
        t := t + [Acquire(current.host, None)];
        GroundedSnoc(w, ask, was, Last(t));
        PagesSnoc(was, Last(t));
        FetchedSnoc(was, Last(t), |before|);
        continue;
      }
      var parsed, retryAfter := None, None;
      if status == 200 {
        parsed := Some(response.value);
      } else if status == 404 || status == 410 {
      } else if status == 429 || 500 <= status <= 599 {
        retryAfter := response.value.retryAfter;
      } else {
        RobotsStops(w, ask, t, PolicyError());
        return Raised(PolicyError()), t, now;
      }
      var decision := w.check(now, parsed, target);
      now := now + 1;
      if decision.Raised? {
        RobotsStops(w, ask, t, decision.error);
        return Raised(decision.error), t, now;
      }
      RestsOnAnswer(w, fetch, parsed, retryAfter, decision.value);
      DecisionRecorded(w, ask, t, Decided(now - 1, target, parsed, decision.value, retryAfter));
      t := t + [Decided(now - 1, target, parsed, decision.value, retryAfter)];
      return Ok((decision.value, retryAfter)), t, now;
    }
  }

  /** Acquire, robots, and a positive decision. */
  method PrepareResolved(w: World, clock: nat, target: Target, retryAfter: Delay, before: Trace, ghost ask: Ask)
    returns (r: Outcome<Delay>, t: Trace, now: nat)
    requires Grounded(w, ask, before) && Follows(w, ask, before, Acquire(target.host, retryAfter))
    requires Subject(w, ask, before + [Acquire(target.host, retryAfter)]) == Some((clock, target))
    ensures Grounded(w, ask, t) && Pages(t) == Pages(before) && t != []
    ensures r.Ok? ==> now > 0 && Last(t).Decided? && Last(t).query == now - 1 && Last(t).page == target && Last(t).decision.allowed
                      && r.value == MaxDelay(Last(t).decision.crawlDelay, Last(t).retryAfter)
    ensures r.Raised? ==> !Last(t).PageFetch? && Stops(w, ask, t, r.error)
  {
    hide Grounded, Pages, Requests, Follows, Stops, Subject;
    t := before + [Acquire(target.host, retryAfter)];
    GroundedSnoc(w, ask, before, Last(t));
    PagesSnoc(before, Last(t));
    var decision, asked, later := RobotsDecision(w, clock, target, t, ask);
    t, now := asked, later;
    if decision.Raised? {
      return Raised(decision.error), t, now;
    }
    if !decision.value.0.allowed {
      DeniedStops(w, ask, t);
      return Raised(PolicyError()), t, now;
    }
    return Ok(MaxDelay(decision.value.0.crawlDelay, decision.value.1)), t, now;
  }

  lemma DeniedStops(w: World, ask: Ask, t: Trace)
    requires t != [] && Last(t).Decided? && !Last(t).decision.allowed
    ensures Stops(w, ask, t, PolicyError())
  {
  }

  /** The attempt may fetch the page it was allowed. */
  ghost predicate Ready(w: World, ask: Ask, t: Trace, target: Target, delay: Delay, redirects: nat, now: nat)
  {
    && Grounded(w, ask, t) && |Pages(t)| == redirects && t != []
    && Last(t).Decided? && Last(t).decision.allowed && Last(t).page == target && Last(t).query + 1 == now
    && delay == MaxDelay(Last(t).decision.crawlDelay, Last(t).retryAfter)
  }

  lemma FetchGrounded(w: World, ask: Ask, t: Trace, target: Target, delay: Delay, redirects: nat, now: nat)
    requires Ready(w, ask, t, target, delay, redirects, now)
    ensures var more := t + [Acquire(target.host, delay)] + [PageFetch(now, ask.strategy, redirects, target)];
            && Grounded(w, ask, more) && Pages(more) == Pages(t) + [target.url]
            && Last(more) == PageFetch(now, ask.strategy, redirects, target)
  {
    hide Grounded, Pages, Requests;
    var acquire, fetch := Acquire(target.host, delay), PageFetch(now, ask.strategy, redirects, target);
    GroundedSnoc(w, ask, t, acquire);
    PagesSnoc(t, acquire);
    GroundedSnoc(w, ask, t + [acquire], fetch);
    PagesSnoc(t + [acquire], fetch);
  }

  /** A redirect the machine follows is prepared like the first target. */
  lemma OnwardPrepared(w: World, ask: Ask, t: Trace, next: Target)
    requires t != [] && Last(t).PageFetch? && Onward(w, Last(t)) == Some(next) && next.url !in Pages(t)
    ensures Follows(w, ask, t, Acquire(next.host, None))
    ensures Subject(w, ask, t + [Acquire(next.host, None)]) == Some((Last(t).query + 3, next))
  {
  }

  lemma FirstPrepared(w: World, ask: Ask, first: Target)
    requires w.validate(ask.clock, ask.url) == Ok(first)
    ensures Grounded(w, ask, []) && Follows(w, ask, [], Acquire(first.host, ask.retryAfter)) && Pages([]) == []
    ensures Subject(w, ask, [] + [Acquire(first.host, ask.retryAfter)]) == Some((ask.clock + 1, first))
  {
  }

  method FetchDocumentOnce(w: World, clock: nat, url: string, strategy: Strategy, retryAfter: Delay)
    returns (r: Outcome<Response>, t: Trace, now: nat)
    ensures var ask := Ask(clock, url, strategy, retryAfter);
            && Grounded(w, ask, t)
            && (r.Ok? <==> Arrived(w, t))
            && (r.Ok? ==> r == w.page(Last(t).query, strategy, Last(t).target) && now == Last(t).query + 2)
            && (r.Raised? ==> Stops(w, ask, t, r.error))
  {
    hide Grounded, Pages, Requests, Follows, Subject;
    ghost var ask := Ask(clock, url, strategy, retryAfter);
    t, now := [], clock + 1;
    NothingDone(w, ask);
    var first := w.validate(clock, url);
    if first.Raised? {
      return Raised(first.error), t, now;
    }
    var target := first.value;
    FirstPrepared(w, ask, target);
    var prepared, prefix, later := PrepareResolved(w, now, target, retryAfter, [], ask);
    t, now := prefix, later;
    if prepared.Raised? {
      return Raised(prepared.error), t, now;
    }
    var crawlDelay := prepared.value;
    var seen := {target.url};
    var redirects := 0;
    while true
      invariant 0 <= redirects <= MAX_REDIRECTS
      invariant Ready(w, ask, t, target, crawlDelay, redirects, now)
      invariant forall u :: u in seen <==> u in Pages(t) || u == target.url
      decreases MAX_REDIRECTS - redirects
    {
      FetchGrounded(w, ask, t, target, crawlDelay, redirects, now);
      t := t + [Acquire(target.host, crawlDelay)] + [PageFetch(now, strategy, redirects, target)];
      var document := w.page(now, strategy, target);
      now := now + 1;
      if document.Raised? {
        return Raised(document.error), t, now;
      }
      var valid := w.validatePage(now, document.value, target);
      now := now + 1;
      if valid.Raised? {
        return Raised(valid.error), t, now;
      }
      if strategy == Http && IsRedirect(document.value.status) {
        if redirects + 1 > MAX_REDIRECTS || document.value.location.None? {
          return Raised(PolicyError()), t, now;
        }
        var next := w.validateRedirect(now, document.value.location.value, redirects + 1);
        now := now + 1;
        if next.Raised? {
          return Raised(next.error), t, now;
        }
        if next.value.url in seen {
          return Raised(PolicyError()), t, now;
        }
        OnwardPrepared(w, ask, t, next.value);
        prepared, t, now := PrepareResolved(w, now, next.value, None, t, ask);
        if prepared.Raised? {
          return Raised(prepared.error), t, now;
        }
        redirects := redirects + 1;
        seen := seen + {next.value.url};
        crawlDelay, target := prepared.value, next.value;
        continue;
      }
      if IsRedirect(document.value.status) {
        return Raised(PolicyError()), t, now;
      }
      return Ok(document.value), t, now;
    }
  }

  lemma NothingDone(w: World, ask: Ask)
    ensures Grounded(w, ask, [])
  {
  }

  // ---------- what every attempt keeps ----------

  /** A robots fetch follows a rate-limit acquire at once; one that follows another robots
      fetch through that acquire is a redirect: acquired for its own host, same origin. */
  ghost predicate RobotsGuardedAt(t: Trace, i: nat, w: World)
    requires i < |t| && t[i].RobotsFetch?
  {
    && i > 0 && t[i - 1].Acquire?
    && (i > 1 && t[i - 2].RobotsFetch? ==>
          && t[i - 1].host == t[i].robots.host && t[i].page == t[i - 2].page
          && w.origin(t[i].robots.url) == w.origin(t[i - 2].robots.url))
  }

  /** A page fetch follows, at once, an acquire for its host and before it a check that allowed
      this page; the acquire waits the longer of the crawl delay and the retry-after. */
  ghost predicate PageGuardedAt(t: Trace, i: nat, w: World)
    requires i < |t| && t[i].PageFetch?
  {
    && i > 1 && t[i - 1].Acquire? && t[i - 1].host == t[i].target.host
    && t[i - 2].Decided? && t[i - 2].decision.allowed && t[i - 2].page == t[i].target
    && w.check(t[i - 2].query, t[i - 2].parsed, t[i].target) == Ok(t[i - 2].decision)
    && t[i - 1].delay == MaxDelay(t[i - 2].decision.crawlDelay, t[i - 2].retryAfter)
  }

  ghost predicate Guarded(t: Trace, w: World)
  {
    && (forall i :: 0 <= i < |t| && t[i].RobotsFetch? ==> RobotsGuardedAt(t, i, w))
    && (forall i :: 0 <= i < |t| && t[i].PageFetch? ==> PageGuardedAt(t, i, w))
  }

  ghost predicate Distinct(urls: seq<string>)
  {
    forall i, j :: 0 <= i < j < |urls| ==> urls[i] != urls[j]
  }

  /** What one attempt guarantees. */
  ghost predicate AttemptSafe(t: Trace, strategy: Strategy, retryAfter: Delay, w: World)
  {
    && Guarded(t, w)
    && Distinct(Pages(t)) && |Pages(t)| <= (if strategy == Http then MAX_REDIRECTS + 1 else 1)
    && Requests(t) <= (if strategy == Http then 42 else 7)
    && (forall i :: 0 <= i < |t| && t[i].PageFetch? ==> t[i].strategy == strategy)
    && (t != [] ==> t[0].Acquire? && t[0].delay == retryAfter)
  }

  lemma FollowsAt(w: World, ask: Ask, t: Trace, i: nat)
    requires Grounded(w, ask, t) && i < |t|
    ensures Follows(w, ask, t[..i], t[i])
  {
    hide Follows;
  }

  lemma RobotsGuarded(w: World, ask: Ask, t: Trace, i: nat)
    requires Grounded(w, ask, t) && i < |t| && t[i].RobotsFetch?
    ensures RobotsGuardedAt(t, i, w)
  {
    hide Grounded, Onward, Subject, Pages, NewRobots, RestsOn;
    FollowsAt(w, ask, t, i);
    if i > 1 {
      FollowsAt(w, ask, t, i - 1);
      assert t[..i - 1][i - 2] == t[i - 2];
    }
  }

  lemma PageGuarded(w: World, ask: Ask, t: Trace, i: nat)
    requires Grounded(w, ask, t) && i < |t| && t[i].PageFetch?
    ensures PageGuardedAt(t, i, w)
  {
    hide Grounded, Onward, Subject, Pages, NewRobots;
    FollowsAt(w, ask, t, i);
    FollowsAt(w, ask, t, i - 1);
    FollowsAt(w, ask, t, i - 2);
    assert t[..i][i - 1] == t[i - 1] && t[..i][i - 2] == t[i - 2] && t[..i - 1][i - 2] == t[i - 2];
  }

  /** The page came from the URL asked for, or from the redirect of the last page fetched. */
  ghost predicate Came(w: World, ask: Ask, t: Trace, page: Target)
  {
    if Pages(t) == [] then w.validate(ask.clock, ask.url) == Ok(page)
    else exists j :: 0 <= j < |t| && t[j].PageFetch? && t[j].redirects + 1 == |Pages(t)| && Onward(w, t[j]) == Some(page)
  }

  /** A preparation under way for a page not fetched yet. */
  ghost predicate Preparing(w: World, ask: Ask, t: Trace, page: Target)
  {
    && page.url !in Pages(t) && |Pages(t)| <= MAX_REDIRECTS && (ask.strategy != Http ==> Pages(t) == [])
    && Came(w, ask, t, page)
  }

  /** Requests made since the last page. */
  function Pending(t: Trace): nat
  {
    if t == [] then 0
    else
      match Last(t)
      case RobotsFetch(_, _, redirects, _) => redirects + 1
      case Decided(_, _, _, _, _) => MAX_REDIRECTS + 1
      case PageFetch(_, _, _, _) => 0
      case Acquire(_, _) =>
        if |t| > 1 && t[|t| - 2].RobotsFetch? then t[|t| - 2].redirects + 1
        else if |t| > 1 && t[|t| - 2].Decided? then MAX_REDIRECTS + 1 else 0
  }

  ghost predicate StageSound(w: World, ask: Ask, t: Trace)
    requires t != []
  {
    match Last(t)
    case PageFetch(_, _, redirects, _) => redirects + 1 == |Pages(t)|
    case RobotsFetch(_, page, redirects, _) => redirects <= MAX_REDIRECTS && Preparing(w, ask, t, page)
    case Decided(_, page, _, _, _) => Preparing(w, ask, t, page)
    case Acquire(_, _) =>
      if |t| == 1 then true
      else
        match t[|t| - 2]
        case PageFetch(_, _, _, _) =>
          Onward(w, t[|t| - 2]).Some? && Preparing(w, ask, t, Onward(w, t[|t| - 2]).value)
        case RobotsFetch(_, page, redirects, _) => redirects < MAX_REDIRECTS && Preparing(w, ask, t, page)
        case Decided(_, page, _, _, _) => Preparing(w, ask, t, page)
        case Acquire(_, _) => false
  }

  ghost predicate Bounded(w: World, ask: Ask, t: Trace)
  {
    && Distinct(Pages(t)) && |Pages(t)| <= (if ask.strategy == Http then MAX_REDIRECTS + 1 else 1)
    && Requests(t) <= 7 * |Pages(t)| + Pending(t)
    && (forall i :: 0 <= i < |t| && t[i].PageFetch? ==> t[i].strategy == ask.strategy)
    && (t != [] ==> StageSound(w, ask, t) && t[0].Acquire? && t[0].delay == ask.retryAfter)
  }

  lemma CameLater(w: World, ask: Ask, t: Trace, e: Event, page: Target)
    requires Came(w, ask, t, page) && !e.PageFetch?
    ensures Came(w, ask, t + [e], page)
  {
    hide Pages, Onward;
    PagesSnoc(t, e);
    if Pages(t) != [] {
      var j :| 0 <= j < |t| && t[j].PageFetch? && t[j].redirects + 1 == |Pages(t)| && Onward(w, t[j]) == Some(page);
      assert (t + [e])[j] == t[j];
    }
  }

  lemma AcquireBounded(w: World, ask: Ask, t: Trace, e: Event)
    requires Bounded(w, ask, t) && Follows(w, ask, t, e) && e.Acquire?
    ensures Bounded(w, ask, t + [e])
  {
    hide Pages, Requests, Came, Subject, NewRobots, RestsOn;
    PagesSnoc(t, e);
    if t != [] {
      assert (t + [e])[|t| - 1] == Last(t);
      match Last(t) {
        case RobotsFetch(_, page, redirects, _) =>
          CameLater(w, ask, t, e, page);
          assert redirects < MAX_REDIRECTS;
        case Decided(_, page, _, _, _) => CameLater(w, ask, t, e, page);
        case PageFetch(_, _, redirects, _) => CameFromPage(w, ask, t, e);
      }
    } else {
      NoPages();
    }
  }

  lemma NoPages()
    ensures Pages([]) == [] && Requests([]) == 0
  {
  }

  lemma CameFromPage(w: World, ask: Ask, t: Trace, e: Event)
    requires t != [] && Last(t).PageFetch? && Last(t).redirects + 1 == |Pages(t)| && e.Acquire? && Onward(w, Last(t)).Some?
    ensures Came(w, ask, t + [e], Onward(w, Last(t)).value)
  {
    hide Pages, Onward;
    PagesSnoc(t, e);
    assert (t + [e])[|t| - 1] == Last(t);
  }

  lemma RobotsBounded(w: World, ask: Ask, t: Trace, e: Event)
    requires Bounded(w, ask, t) && Follows(w, ask, t, e) && e.RobotsFetch?
    ensures Bounded(w, ask, t + [e])
  {
    hide Pages, Requests, Onward, NewRobots, RestsOn;
    PagesSnoc(t, e);
    if |t| == 1 {
      assert t == [] + [t[0]];
      PagesSnoc([], t[0]);
      NoPages();
      assert Came(w, ask, t, e.page);
    }
    CameLater(w, ask, t, e, e.page);
  }

  lemma DecidedBounded(w: World, ask: Ask, t: Trace, e: Event)
    requires Bounded(w, ask, t) && Follows(w, ask, t, e) && e.Decided?
    ensures Bounded(w, ask, t + [e])
  {
    hide Pages, Requests, Onward, NewRobots, Came;
    PagesSnoc(t, e);
    CameLater(w, ask, t, e, e.page);
  }

  lemma PageBounded(w: World, ask: Ask, t: Trace, e: Event)
    requires Bounded(w, ask, t) && Follows(w, ask, t, e) && e.PageFetch?
    ensures Bounded(w, ask, t + [e])
  {
    hide Pages, Requests, Onward, NewRobots, RestsOn, Came;
    PagesSnoc(t, e);
  }

  lemma {:induction false} GroundedBounded(w: World, ask: Ask, t: Trace)
    requires Grounded(w, ask, t)
    ensures Bounded(w, ask, t)
  {
    hide Grounded, Bounded, Follows;
    if t == [] {
      EmptyBounded(w, ask);
    } else {
      var n := |t| - 1;
      GroundedPrefix(w, ask, t);
      GroundedBounded(w, ask, t[..n]);
      assert t == t[..n] + [t[n]];
      match t[n] {
        case Acquire(_, _) => AcquireBounded(w, ask, t[..n], t[n]);
        case RobotsFetch(_, _, _, _) => RobotsBounded(w, ask, t[..n], t[n]);
        case Decided(_, _, _, _, _) => DecidedBounded(w, ask, t[..n], t[n]);
        case PageFetch(_, _, _, _) => PageBounded(w, ask, t[..n], t[n]);
      }
    }
  }

  lemma EmptyBounded(w: World, ask: Ask)
    ensures Bounded(w, ask, [])
  {
  }

  lemma GroundedPrefix(w: World, ask: Ask, t: Trace)
    requires Grounded(w, ask, t) && t != []
    ensures Grounded(w, ask, t[..|t| - 1]) && Follows(w, ask, t[..|t| - 1], t[|t| - 1])
  {
    hide Follows;
    var n := |t| - 1;
    forall i | 0 <= i < n ensures Follows(w, ask, t[..n][..i], t[..n][i]) {
      assert t[..n][..i] == t[..i];
    }
  }

  /** Every attempt, however it goes on or ends, is safe. */
  lemma GroundedSafe(w: World, ask: Ask, t: Trace)
    requires Grounded(w, ask, t)
    ensures AttemptSafe(t, ask.strategy, ask.retryAfter, w)
  {
    hide Grounded, RobotsGuardedAt, PageGuardedAt, Pages, Requests;
    GroundedBounded(w, ask, t);
    forall i | 0 <= i < |t| && t[i].RobotsFetch? ensures RobotsGuardedAt(t, i, w) {
      RobotsGuarded(w, ask, t, i);
    }
    forall i | 0 <= i < |t| && t[i].PageFetch? ensures PageGuardedAt(t, i, w) {
      PageGuarded(w, ask, t, i);
    }
  }

  // ---------- retries ----------

  /** One attempt: what it was asked, its events, how it ended, and how long the machine slept
      before the next one. */
  datatype Attempt = Attempt(ask: Ask, events: Trace, result: Outcome<Batch>, slept: Delay)

  /** What becomes of a document: the batch built from it, or why not. Where it lacks required
      content the shell detector may be consulted, and its own failure then takes over. */
  ghost predicate Built(w: World, query: nat, document: Response, classify: bool, r: Outcome<Batch>)
  {
    var built, shell := w.build(query, document), w.classifyShell(query + 1, document);
    if classify && built.Raised? && !built.error.cancelled && built.error.contentAbsent && shell.Raised?
    then r == Raised(shell.error) else r == built
  }

  /** The attempt is one the machine can make: every event was the next one, and it ended with
      a document and what became of it, or stopped. */
  ghost predicate AttemptRuns(w: World, a: Attempt, classify: bool)
  {
    && Grounded(w, a.ask, a.events)
    && if Arrived(w, a.events) then
         var page := Last(a.events);
         Built(w, page.query + 2, w.page(page.query, page.strategy, page.target).value, classify, a.result)
       else a.result.Raised? && Stops(w, a.ask, a.events, a.result.error)
  }

  lemma AttemptIsSafe(w: World, a: Attempt, classify: bool)
    requires AttemptRuns(w, a, classify)
    ensures AttemptSafe(a.events, a.ask.strategy, a.ask.retryAfter, w)
  {
    hide Grounded, AttemptSafe, Built, Stops;
    GroundedSafe(w, a.ask, a.events);
  }

  predicate Retryable(r: Outcome<Batch>)
  {
    r.Raised? && !r.error.cancelled && r.error.transient
  }

  ghost predicate RetriedAt(attempts: seq<Attempt>, k: nat)
    requires k + 1 < |attempts|
  {
    && k < |RETRY_DELAYS| && Retryable(attempts[k].result) && attempts[k].slept == Some(RETRY_DELAYS[k])
    && attempts[k + 1].ask.retryAfter == SafeRetryAfter(attempts[k].result.error)
  }

  /** Up to three attempts at one URL with one strategy; each but the last ended in a transient
      error and was followed by its fixed sleep and by an attempt that starts with the error's
      retry-after. */
  ghost predicate RetriesExact(attempts: seq<Attempt>, url: string, strategy: Strategy, classify: bool, w: World)
  {
    && |attempts| <= MAX_ATTEMPTS
    && (forall k :: 0 <= k < |attempts| ==>
          AttemptRuns(w, attempts[k], classify) && attempts[k].ask.url == url && attempts[k].ask.strategy == strategy)
    && (|attempts| > 0 ==> attempts[0].ask.retryAfter == None)
    && (forall k :: 0 <= k < |attempts| - 1 ==> RetriedAt(attempts, k))
  }

  /** The next attempt may follow the ones made, starting with this retry-after. */
  ghost predicate Continues(attempts: seq<Attempt>, retryAfter: Delay)
  {
    && |attempts| < MAX_ATTEMPTS
    && if attempts == [] then retryAfter == None
       else
         var last := attempts[|attempts| - 1];
         && Retryable(last.result) && last.slept == Some(RETRY_DELAYS[|attempts| - 1])
         && retryAfter == SafeRetryAfter(last.result.error)
  }

  ghost predicate RunComplete(attempts: seq<Attempt>, result: Outcome<Batch>)
  {
    && attempts != []
    && var last := attempts[|attempts| - 1];
       last.result == result && last.slept == None && (Retryable(result) ==> |attempts| == MAX_ATTEMPTS)
  }

  /** Fetch and extract once; a missing-content failure of the first rung consults the
      shell detector, which may replace the error. */
  method AttemptOnce(w: World, clock: nat, url: string, strategy: Strategy, retryAfter: Delay, classify: bool)
    returns (r: Outcome<Batch>, t: Trace, now: nat)
    ensures AttemptRuns(w, Attempt(Ask(clock, url, strategy, retryAfter), t, r, None), classify)
  {
    hide Grounded, Stops;
    var document, events, later := FetchDocumentOnce(w, clock, url, strategy, retryAfter);
    t, now := events, later;
    if document.Raised? {
      return Raised(document.error), t, now;
    }
    StrategyOfLast(w, Ask(clock, url, strategy, retryAfter), t);
    r := w.build(now, document.value);
    now := now + 1;
    if r.Raised? && !r.error.cancelled && classify && r.error.contentAbsent {
      var shell := w.classifyShell(now, document.value);
      now := now + 1;
      if shell.Raised? {
        return Raised(shell.error), t, now;
      }
    }
  }

  lemma StrategyOfLast(w: World, ask: Ask, t: Trace)
    requires Grounded(w, ask, t) && t != [] && Last(t).PageFetch?
    ensures Last(t).strategy == ask.strategy
  {
    hide Grounded;
    FollowsAt(w, ask, t, |t| - 1);
  }

  method RunStrategy(w: World, clock: nat, url: string, strategy: Strategy, classify: bool)
    returns (r: Outcome<Batch>, attempts: seq<Attempt>, now: nat)
    ensures RetriesExact(attempts, url, strategy, classify, w) && RunComplete(attempts, r)
  {
    hide AttemptRuns, RetriesExact;
    var retryAfter: Delay := None;
    attempts, now := [], clock;
    NoAttempts(url, strategy, classify, w);
    var attempt := 0;
    while true
      invariant 0 <= attempt == |attempts|
      invariant RetriesExact(attempts, url, strategy, classify, w) && Continues(attempts, retryAfter)
      decreases MAX_ATTEMPTS - attempt
    {
      var ask := Ask(now, url, strategy, retryAfter);
      var result, events, later := AttemptOnce(w, now, url, strategy, retryAfter, classify);
      now := later;
      ghost var before := attempts;
      if !Retryable(result) || attempt == 2 {
        attempts := attempts + [Attempt(ask, events, result, None)];
        RetriesLonger(before, attempts[attempt], url, strategy, classify, w);
        return result, attempts, now;
      }
      attempts := attempts + [Attempt(ask, events, result, Some(RETRY_DELAYS[attempt]))];
      SleepIsFree(w, Attempt(ask, events, result, None), Some(RETRY_DELAYS[attempt]), classify);
      RetriesLonger(before, attempts[attempt], url, strategy, classify, w);
      retryAfter := SafeRetryAfter(result.error);
      attempt := attempt + 1;
    }
  }

  lemma NoAttempts(url: string, strategy: Strategy, classify: bool, w: World)
    ensures RetriesExact([], url, strategy, classify, w)
  {
  }

  lemma SleepIsFree(w: World, a: Attempt, slept: Delay, classify: bool)
    requires AttemptRuns(w, a, classify)
    ensures AttemptRuns(w, a.(slept := slept), classify)
  {
    hide Grounded, Stops, Built, Arrived;
  }

  lemma RetriesLonger(attempts: seq<Attempt>, a: Attempt, url: string, strategy: Strategy, classify: bool, w: World)
    requires RetriesExact(attempts, url, strategy, classify, w) && Continues(attempts, a.ask.retryAfter)
    requires AttemptRuns(w, a, classify) && a.ask.url == url && a.ask.strategy == strategy
    ensures RetriesExact(attempts + [a], url, strategy, classify, w)
  {
    hide AttemptRuns;
    var more := attempts + [a];
    forall k | 0 <= k < |more| - 1 ensures RetriedAt(more, k) {
      if k < |attempts| - 1 {
        assert RetriedAt(attempts, k);
      }
    }
  }

  // ---------- the ladder ----------

  datatype StrategyRun =
    StrategyRun(url: string, strategy: Strategy, classify: bool, attempts: seq<Attempt>, result: Outcome<Batch>)

  ghost predicate RunExact(run: StrategyRun, w: World)
  {
    RetriesExact(run.attempts, run.url, run.strategy, run.classify, w) && RunComplete(run.attempts, run.result)
  }

  /** The rungs tried are a prefix of the ladder: the second only after required content
      was absent, the third only after a detected interstitial. */
  ghost predicate LadderSafe(runs: seq<StrategyRun>, result: Outcome<Batch>)
  {
    && 1 <= |runs| <= 3 && result == runs[|runs| - 1].result
    && (forall i :: 0 <= i < |runs| ==> runs[i].strategy == LADDER[i] && runs[i].classify == (i == 0))
    && (|runs| > 1 <==> Descends(runs[0]))
    && (|runs| > 1 ==> (|runs| > 2 <==> Descends(runs[1])))
  }

  /** Whether the ladder goes on to the next rung after this run. */
  predicate Descends(run: StrategyRun)
  {
    && run.result.Raised? && !run.result.error.cancelled
    && match run.strategy
       case Http => run.result.error.contentAbsent
       case Dynamic => run.result.error.fetch && run.result.error.interstitial
       case Stealthy => false
  }

  /** `choice` is the configured strategy, or None for automatic. */
  method Fetch(w: World, url: string, choice: Option<Strategy>) returns (r: Outcome<Batch>, runs: seq<StrategyRun>)
    ensures forall i :: 0 <= i < |runs| ==> RunExact(runs[i], w) && runs[i].url == url
    ensures choice.Some? ==> |runs| == 1 && runs[0].strategy == choice.value && !runs[0].classify && r == runs[0].result
    ensures choice.None? ==> LadderSafe(runs, r)
  {
    hide RetriesExact, RunComplete;
    if choice.Some? {
      var result, attempts, _ := RunStrategy(w, 0, url, choice.value, false);
      return result, [StrategyRun(url, choice.value, false, attempts, result)];
    }
    var http, httpAttempts, now := RunStrategy(w, 0, url, Http, true);
    runs := [StrategyRun(url, Http, true, httpAttempts, http)];
    if http.Ok? || http.error.cancelled || !http.error.contentAbsent {
      return http, runs;
    }
    var dynamic, dynamicAttempts, later := RunStrategy(w, now, url, Dynamic, false);
    runs := runs + [StrategyRun(url, Dynamic, false, dynamicAttempts, dynamic)];
    if dynamic.Ok? || dynamic.error.cancelled || !dynamic.error.fetch || !dynamic.error.interstitial {
      return dynamic, runs;
    }
    var stealthy, stealthyAttempts, _ := RunStrategy(w, later, url, Stealthy, false);
    runs := runs + [StrategyRun(url, Stealthy, false, stealthyAttempts, stealthy)];
    return stealthy, runs;
  }

  // ---------- the official-API adapter ----------

  /** One attempt of the official adapter: any redirect status is followed, and the batch is
      built inside the attempt. Its robots and preparation steps are those above. */
  method FetchOnce(w: World, clock: nat, url: string, retryAfter: Delay)
    returns (r: Outcome<Batch>, t: Trace, now: nat)
    ensures AttemptRuns(w, Attempt(Ask(clock, url, Http, retryAfter), t, r, None), false)
  {
    hide Grounded, Pages, Requests, Follows, Subject;
    ghost var ask := Ask(clock, url, Http, retryAfter);
    t, now := [], clock + 1;
    NothingDone(w, ask);
    var first := w.validate(clock, url);
    if first.Raised? {
      return Raised(first.error), t, now;
    }
    var target := first.value;
    FirstPrepared(w, ask, target);
    var prepared, prefix, later := PrepareResolved(w, now, target, retryAfter, [], ask);
    t, now := prefix, later;
    if prepared.Raised? {
      return Raised(prepared.error), t, now;
    }
    var crawlDelay := prepared.value;
    var seen := {target.url};
    var redirects := 0;
    while true
      invariant 0 <= redirects <= MAX_REDIRECTS
      invariant Ready(w, ask, t, target, crawlDelay, redirects, now)
      invariant forall u :: u in seen <==> u in Pages(t) || u == target.url
      decreases MAX_REDIRECTS - redirects
    {
      FetchGrounded(w, ask, t, target, crawlDelay, redirects, now);
      t := t + [Acquire(target.host, crawlDelay)] + [PageFetch(now, Http, redirects, target)];
      var response := w.page(now, Http, target);
      now := now + 1;
      if response.Raised? {
        return Raised(response.error), t, now;
      }
      var valid := w.validatePage(now, response.value, target);
      now := now + 1;
      if valid.Raised? {
        return Raised(valid.error), t, now;
      }
      if !IsRedirect(response.value.status) {
        r := w.build(now, response.value);
        return r, t, now + 1;
      }
      if redirects + 1 > MAX_REDIRECTS || response.value.location.None? {
        return Raised(PolicyError()), t, now;
      }
      var next := w.validateRedirect(now, response.value.location.value, redirects + 1);
      now := now + 1;
      if next.Raised? {
        return Raised(next.error), t, now;
      }
      if next.value.url in seen {
        return Raised(PolicyError()), t, now;
      }
      OnwardPrepared(w, ask, t, next.value);
      prepared, t, now := PrepareResolved(w, now, next.value, None, t, ask);
      if prepared.Raised? {
        return Raised(prepared.error), t, now;
      }
      redirects := redirects + 1;
      seen := seen + {next.value.url};
      crawlDelay, target := prepared.value, next.value;
    }
  }

  /** The retry loop of the official adapter; it has no ladder. */
  method FetchOfficial(w: World, url: string) returns (r: Outcome<Batch>, run: StrategyRun)
    ensures RunExact(run, w) && run.url == url && run.strategy == Http && !run.classify && run.result == r
  {
    hide AttemptRuns, RetriesExact;
    var retryAfter: Delay := None;
    var attempts: seq<Attempt>, now: nat := [], 0;
    NoAttempts(url, Http, false, w);
    for attempt := 0 to MAX_ATTEMPTS
      invariant attempt == |attempts| && RetriesExact(attempts, url, Http, false, w)
      invariant Continues(attempts, retryAfter)
    {
      var ask := Ask(now, url, Http, retryAfter);
      var result, events, later := FetchOnce(w, now, url, retryAfter);
      now := later;
      if !Retryable(result) || attempt == 2 {
        RetriesLonger(attempts, Attempt(ask, events, result, None), url, Http, false, w);
        attempts := attempts + [Attempt(ask, events, result, None)];
        return result, StrategyRun(url, Http, false, attempts, result);
      }
      SleepIsFree(w, Attempt(ask, events, result, None), Some(RETRY_DELAYS[attempt]), false);
      RetriesLonger(attempts, Attempt(ask, events, result, Some(RETRY_DELAYS[attempt])), url, Http, false, w);
      attempts := attempts + [Attempt(ask, events, result, Some(RETRY_DELAYS[attempt]))];
      retryAfter := SafeRetryAfter(result.error);
    }
    assert false;
  }

  // ---------- bounds over a whole fetch ----------

  function PageCount(attempts: seq<Attempt>): nat
  {
    if attempts == [] then 0
    else PageCount(attempts[..|attempts| - 1]) + |Pages(attempts[|attempts| - 1].events)|
  }

  function RequestCount(attempts: seq<Attempt>): nat
  {
    if attempts == [] then 0
    else RequestCount(attempts[..|attempts| - 1]) + Requests(attempts[|attempts| - 1].events)
  }

  function TotalPages(runs: seq<StrategyRun>): nat
  {
    if runs == [] then 0 else TotalPages(runs[..|runs| - 1]) + PageCount(runs[|runs| - 1].attempts)
  }

  function TotalRequests(runs: seq<StrategyRun>): nat
  {
    if runs == [] then 0 else TotalRequests(runs[..|runs| - 1]) + RequestCount(runs[|runs| - 1].attempts)
  }

  lemma {:induction false} AttemptCounts(attempts: seq<Attempt>, strategy: Strategy, w: World)
    requires forall k :: 0 <= k < |attempts| ==> AttemptSafe(attempts[k].events, strategy, attempts[k].ask.retryAfter, w)
    ensures PageCount(attempts) <= if strategy == Http then 6 * |attempts| else |attempts|
    ensures RequestCount(attempts) <= if strategy == Http then 42 * |attempts| else 7 * |attempts|
  {
    hide Pages, Requests, Guarded, Distinct;
    if attempts != [] {
      AttemptCounts(attempts[..|attempts| - 1], strategy, w);
    }
  }

  lemma RunCounts(run: StrategyRun, w: World)
    requires RunExact(run, w)
    ensures PageCount(run.attempts) <= if run.strategy == Http then 18 else 3
    ensures RequestCount(run.attempts) <= if run.strategy == Http then 126 else 21
  {
    hide AttemptSafe, AttemptRuns, RunComplete, PageCount, RequestCount;
    forall k | 0 <= k < |run.attempts| ensures AttemptSafe(run.attempts[k].events, run.strategy, run.attempts[k].ask.retryAfter, w) {
      AttemptIsSafe(w, run.attempts[k], run.classify);
    }
    AttemptCounts(run.attempts, run.strategy, w);
  }

  /** The rungs of a ladder read at most 24 pages, 18 over HTTP and 3 in each browser, and
      with the robots files make at most 168 requests, 126 over HTTP and 21 in each browser. */
  lemma {:induction false} LadderBound(runs: seq<StrategyRun>, w: World)
    requires |runs| <= |LADDER| && forall i :: 0 <= i < |runs| ==> runs[i].strategy == LADDER[i] && RunExact(runs[i], w)
    ensures TotalPages(runs) <= if runs == [] then 0 else 15 + 3 * |runs|
    ensures TotalRequests(runs) <= if runs == [] then 0 else 105 + 21 * |runs|
  {
    hide RunExact, PageCount, RequestCount;
    if runs != [] {
      LadderBound(runs[..|runs| - 1], w);
      RunCounts(runs[|runs| - 1], w);
    }
  }

  // ---------- what the world answered ----------

  /** A decision is the world's answer to the check of its page, asked with the robots.txt just
      fetched where its status was 200, and with nothing after a 404, 410, 429 or server error
      or a transient fetch error; its retry-after is that of the answer or the error. No other
      status and no other raise is decided on. */
  lemma DecisionMeans(w: World, ask: Ask, t: Trace, i: nat)
    requires Grounded(w, ask, t) && i < |t| && t[i].Decided?
    ensures i > 0 && t[i - 1].RobotsFetch? && t[i - 1].page == t[i].page
    ensures w.check(t[i].query, t[i].parsed, t[i].page) == Ok(t[i].decision)
    ensures match w.robots(t[i - 1].query, t[i - 1].robots)
            case Raised(e) =>
              && e.fetch && e.transient && !e.cancelled && t[i].parsed == None
              && t[i].retryAfter == if e.retryAfter.Some? && e.retryAfter.value >= 0.0 then e.retryAfter else None
            case Ok(answer) =>
              && w.validateRobots(t[i - 1].query + 1, answer, t[i - 1].robots).Ok?
              && if answer.status == 200 then t[i].parsed == Some(answer) && t[i].retryAfter == None
                 else if answer.status == 404 || answer.status == 410 then t[i].parsed == None && t[i].retryAfter == None
                 else (answer.status == 429 || 500 <= answer.status < 600)
                      && t[i].parsed == None && t[i].retryAfter == answer.retryAfter
  {
    hide Grounded;
    FollowsAt(w, ask, t, i);
    assert t[..i][i - 1] == t[i - 1];
  }

  /** A robots fetch asks for the robots URL of its page, or follows the redirect of the fetch
      before it: the sixth redirect at the latest is refused, and so is a missing location. */
  lemma RobotsMeans(w: World, ask: Ask, t: Trace, i: nat)
    requires Grounded(w, ask, t) && i < |t| && t[i].RobotsFetch?
    ensures i > 0 && t[i - 1].Acquire?
    ensures if i > 1 && t[i - 2].RobotsFetch? then
              var answer := w.robots(t[i - 2].query, t[i - 2].robots);
              && answer.Ok? && answer.value.status in {301, 302, 303, 307, 308} && answer.value.location.Some?
              && w.validateRobots(t[i - 2].query + 1, answer.value, t[i - 2].robots).Ok?
              && t[i].redirects == t[i - 2].redirects + 1 && t[i].redirects <= 5 && t[i].page == t[i - 2].page
              && w.validateRedirect(t[i - 2].query + 2, answer.value.location.value, t[i].redirects) == Ok(t[i].robots)
              && w.origin(t[i].robots.url) == w.origin(t[i - 2].robots.url) && t[i - 1] == Acquire(t[i].robots.host, None)
            else
              && t[i].redirects == 0 && t[i].query > 0
              && w.validate(t[i].query - 1, w.robotsUrl(t[i].page.url)) == Ok(t[i].robots)
  {
    hide Grounded, RestsOn, NewRobots;
    FollowsAt(w, ask, t, i);
    assert t[..i][i - 1] == t[i - 1];
    if i > 1 {
      FollowsAt(w, ask, t, i - 1);
      assert t[..i - 1][i - 2] == t[i - 2] && t[..i][i - 2] == t[i - 2];
    }
  }

  /** The URLs of one robots run are all different. */
  lemma RobotsRunDistinct(w: World, ask: Ask, t: Trace, i: nat, j: nat)
    requires Grounded(w, ask, t) && i < j < |t| && t[i].RobotsFetch? && t[j].RobotsFetch?
    requires j - 2 * t[j].redirects <= i
    ensures t[i].robots.url != t[j].robots.url
  {
    hide Grounded, RestsOn;
    FollowsAt(w, ask, t, j);
    FollowsAt(w, ask, t, j - 1);
    assert t[..j][j - 1] == t[j - 1] && t[..j][j - 2] == t[j - 2] && t[..j - 1][j - 2] == t[j - 2];
    assert t[..j - 1][i] == t[i];
  }

  /** A page is fetched only after the world answered its check with allowed, and after a wait
      of the longer of the crawl delay and the retry-after of that decision. */
  lemma PageWasAllowed(w: World, ask: Ask, t: Trace, i: nat)
    requires Grounded(w, ask, t) && i < |t| && t[i].PageFetch?
    ensures i > 1 && t[i - 2].Decided? && t[i - 2].page == t[i].target && t[i].query == t[i - 2].query + 1
    ensures exists crawl :: w.check(t[i - 2].query, t[i - 2].parsed, t[i].target) == Ok(Decision(true, crawl))
    ensures t[i - 1].Acquire? && t[i - 1].host == t[i].target.host
    ensures var crawl, retry := t[i - 2].decision.crawlDelay, t[i - 2].retryAfter;
            && (t[i - 1].delay == None <==> crawl == None && retry == None)
            && (t[i - 1].delay == crawl || t[i - 1].delay == retry)
            && (t[i - 1].delay.Some? && crawl.Some? ==> crawl.value <= t[i - 1].delay.value)
            && (t[i - 1].delay.Some? && retry.Some? ==> retry.value <= t[i - 1].delay.value)
  {
    hide Grounded;
    PageGuarded(w, ask, t, i);
    FollowsAt(w, ask, t, i);
    assert t[..i][i - 1] == t[i - 1] && t[..i][i - 2] == t[i - 2];
    assert t[i - 2].decision == Decision(true, t[i - 2].decision.crawlDelay);
  }

  /** The pages fetched are the URL asked for and then where the redirect of the page before
      leads: over HTTP alone, at most five times, and never to a page already fetched. */
  lemma PageMeans(w: World, ask: Ask, t: Trace, i: nat)
    requires Grounded(w, ask, t) && i < |t| && t[i].PageFetch?
    ensures t[i].strategy == ask.strategy && t[i].redirects <= 5 && t[i].target.url !in Pages(t[..i])
    ensures if t[i].redirects == 0 then w.validate(ask.clock, ask.url) == Ok(t[i].target)
            else
              && ask.strategy == Http
              && (exists j ::
                    && 0 <= j < i && t[j].PageFetch? && t[j].redirects + 1 == t[i].redirects
                    && var answer := w.page(t[j].query, Http, t[j].target);
                       && answer.Ok? && answer.value.status in {301, 302, 303, 307, 308} && answer.value.location.Some?
                       && w.validatePage(t[j].query + 1, answer.value, t[j].target).Ok?
                       && w.validateRedirect(t[j].query + 2, answer.value.location.value, t[i].redirects) == Ok(t[i].target))
  {
    hide Grounded, RestsOn, NewRobots, Requests, Pages, Subject, Onward, Came;
    GroundedUpTo(w, ask, t, i);
    GroundedBounded(w, ask, t[..i]);
    FollowsAt(w, ask, t, i);
    var target := t[..i][i - 2].page;
    assert Came(w, ask, t[..i], target);
    CameMeans(w, ask, t[..i], target);
    if t[i].redirects > 0 {
      var j :| 0 <= j < i && t[..i][j].PageFetch? && t[..i][j].redirects + 1 == |Pages(t[..i])| && Onward(w, t[..i][j]) == Some(target);
      assert t[..i][j] == t[j];
      OnwardOfPage(w, t[j], target);
      assert t[j].strategy == ask.strategy;
    }
  }

  lemma OnwardOfPage(w: World, e: Event, next: Target)
    requires e.PageFetch? && Onward(w, e) == Some(next)
    ensures e.strategy == Http
    ensures var answer := w.page(e.query, Http, e.target);
            && answer.Ok? && answer.value.status in {301, 302, 303, 307, 308} && answer.value.location.Some?
            && w.validatePage(e.query + 1, answer.value, e.target).Ok?
            && w.validateRedirect(e.query + 2, answer.value.location.value, e.redirects + 1) == Ok(next)
  {
  }

  lemma CameMeans(w: World, ask: Ask, t: Trace, page: Target)
    requires Came(w, ask, t, page)
    ensures |Pages(t)| == 0 ==> w.validate(ask.clock, ask.url) == Ok(page)
    ensures |Pages(t)| > 0 ==>
              exists j :: 0 <= j < |t| && t[j].PageFetch? && t[j].redirects + 1 == |Pages(t)| && Onward(w, t[j]) == Some(page)
  {
  }

  lemma GroundedUpTo(w: World, ask: Ask, t: Trace, n: nat)
    requires Grounded(w, ask, t) && n <= |t|
    ensures Grounded(w, ask, t[..n])
  {
    hide Follows;
    forall i | 0 <= i < n ensures Follows(w, ask, t[..n][..i], t[..n][i]) {
      assert t[..n][..i] == t[..i];
    }
  }

  /** A batch is what the world built from its own answer to the last page fetch, a valid
      answer that is no redirect. */
  lemma BatchMeans(w: World, a: Attempt, classify: bool)
    requires AttemptRuns(w, a, classify) && a.result.Ok?
    ensures a.events != [] && Last(a.events).PageFetch?
    ensures var page := Last(a.events);
            var document := w.page(page.query, page.strategy, page.target);
            && document.Ok? && document.value.status !in {301, 302, 303, 307, 308}
            && w.validatePage(page.query + 1, document.value, page.target).Ok?
            && w.build(page.query + 2, document.value) == a.result
  {
    hide Grounded, Stops;
  }

  /** What the error of an attempt is: a refused page, an unexpected robots status and a
      redirect too many are policy errors, which are neither transient nor fetch errors; what
      the world raised on the last fetch is raised as it is, but for a transient robots error. */
  lemma ErrorMeans(w: World, a: Attempt, classify: bool)
    requires AttemptRuns(w, a, classify) && a.result.Raised? && a.events != []
    ensures var policy := Error(false, false, false, false, false, None);
            match Last(a.events)
            case Decided(_, _, _, decision, _) => !decision.allowed && a.result.error == policy
            case PageFetch(query, strategy, redirects, target) =>
              (match w.page(query, strategy, target)
               case Raised(error) => a.result.error == error
               case Ok(answer) =>
                 if w.validatePage(query + 1, answer, target).Raised?
                 then a.result.error == w.validatePage(query + 1, answer, target).error
                 else if answer.status in {301, 302, 303, 307, 308} then
                   if strategy != Http || redirects == 5 || answer.location.None? then a.result.error == policy
                   else
                     (match w.validateRedirect(query + 2, answer.location.value, redirects + 1)
                      case Raised(error) => a.result.error == error
                      case Ok(next) => a.result.error == policy && next.url in Pages(a.events))
                 else
                   var built, shell := w.build(query + 2, answer), w.classifyShell(query + 3, answer);
                   && built.Raised?
                   && a.result.error ==
                      if classify && !built.error.cancelled && built.error.contentAbsent && shell.Raised? then shell.error
                      else built.error)
            case RobotsFetch(query, page, redirects, robots) =>
              (match w.robots(query, robots)
               case Raised(error) => !(error.fetch && error.transient) || error.cancelled ==> a.result.error == error
               case Ok(answer) =>
                 if w.validateRobots(query + 1, answer, robots).Raised?
                 then a.result.error == w.validateRobots(query + 1, answer, robots).error
                 else if answer.status in {301, 302, 303, 307, 308} then
                   if redirects == 5 || answer.location.None? then a.result.error == policy
                   else
                     (match w.validateRedirect(query + 2, answer.location.value, redirects + 1)
                      case Raised(error) => a.result.error == error
                      case Ok(next) =>
                        && a.result.error == policy
                        && (w.origin(next.url) == w.origin(robots.url) ==>
                              exists j :: 0 <= j < |a.events| && a.events[j].RobotsFetch? && a.events[j].robots.url == next.url))
                 else if answer.status == 200 then w.check(query + 2, Some(answer), page) == Raised(a.result.error)
                 else if answer.status in {404, 410, 429} || 500 <= answer.status < 600
                 then w.check(query + 2, None, page) == Raised(a.result.error)
                 else a.result.error == policy)
            case Acquire(_, _) => true
  {
    hide Grounded, Subject, Pages;
  }

  // ---------- the answers determine the attempt ----------

  lemma NextUnique(w: World, ask: Ask, t: Trace, a: Event, b: Event)
    requires Follows(w, ask, t, a) && Follows(w, ask, t, b)
    ensures a == b
  {
    hide NewRobots, Pages;
  }

  lemma StopIsLast(w: World, ask: Ask, t: Trace, error: Error, e: Event)
    requires Grounded(w, ask, t) && Stops(w, ask, t, error)
    ensures !Follows(w, ask, t, e) && !Arrived(w, t)
    ensures forall other :: Stops(w, ask, t, other) ==> other == error
  {
    hide Grounded, NewRobots, Pages;
  }

  lemma ArrivalIsLast(w: World, ask: Ask, t: Trace, e: Event)
    requires Arrived(w, t)
    ensures !Follows(w, ask, t, e)
  {
  }

  lemma {:induction false} SameSteps(w: World, ask: Ask, a: Trace, b: Trace, n: nat)
    requires Grounded(w, ask, a) && Grounded(w, ask, b) && n <= |a| && n <= |b|
    ensures a[..n] == b[..n]
  {
    hide Grounded, Follows;
    if n > 0 {
      SameSteps(w, ask, a, b, n - 1);
      FollowsAt(w, ask, a, n - 1);
      FollowsAt(w, ask, b, n - 1);
      NextUnique(w, ask, a[..n - 1], a[n - 1], b[n - 1]);
    }
  }

  lemma NoLonger(w: World, a: Attempt, b: Attempt, classify: bool)
    requires AttemptRuns(w, a, classify) && AttemptRuns(w, b, classify) && a.ask == b.ask
    ensures |b.events| <= |a.events|
  {
    hide Grounded, Follows, Stops, Arrived, Built;
    var n := |a.events|;
    if |b.events| > n {
      SameSteps(w, a.ask, a.events, b.events, n);
      assert a.events[..n] == a.events;
      FollowsAt(w, a.ask, b.events, n);
      if Arrived(w, a.events) {
        ArrivalIsLast(w, a.ask, a.events, b.events[n]);
      } else {
        StopIsLast(w, a.ask, a.events, a.result.error, b.events[n]);
      }
    }
  }

  /** The world's answers determine every step of an attempt and its result. */
  lemma AttemptDetermined(w: World, a: Attempt, b: Attempt, classify: bool)
    requires AttemptRuns(w, a, classify) && AttemptRuns(w, b, classify) && a.ask == b.ask
    ensures a.events == b.events && a.result == b.result
  {
    hide Grounded, Follows, Stops;
    NoLonger(w, a, b, classify);
    NoLonger(w, b, a, classify);
    SameSteps(w, a.ask, a.events, b.events, |a.events|);
    assert a.events[..|a.events|] == a.events && b.events[..|a.events|] == b.events;
    if !Arrived(w, a.events) {
      StopIsLast(w, a.ask, a.events, a.result.error, Acquire("", None));
    }
  }

  /** A run makes one attempt, or goes on after a transient error that is no cancellation: it
      sleeps one second and then four, starts again with that error's retry-after, and gives
      up after three. */
  lemma RunMeans(w: World, run: StrategyRun, k: nat)
    requires RunExact(run, w) && k < |run.attempts|
    ensures 1 <= |run.attempts| <= 3 && run.result == run.attempts[|run.attempts| - 1].result
    ensures var a := run.attempts[k];
            if k + 1 < |run.attempts| then
              && a.result.Raised? && a.result.error.transient && !a.result.error.cancelled
              && a.slept == Some(if k == 0 then 1.0 else 4.0)
              && var wait := a.result.error.retryAfter;
                 run.attempts[k + 1].ask.retryAfter == if a.result.error.fetch && wait.Some? && wait.value >= 0.0 then wait else None
            else
              && a.slept == None
              && (k < 2 ==> a.result.Ok? || a.result.error.cancelled || !a.result.error.transient)
    ensures run.attempts[0].ask.retryAfter == None
    ensures run.attempts[k].ask.url == run.url && run.attempts[k].ask.strategy == run.strategy
  {
    hide AttemptRuns;
    if k + 1 < |run.attempts| {
      assert RetriedAt(run.attempts, k);
    }
  }

  lemma DeniedIsLast(w: World, ask: Ask, t: Trace, i: nat)
    requires Grounded(w, ask, t) && i < |t| && t[i].Decided? && !t[i].decision.allowed
    ensures i == |t| - 1
  {
    hide Grounded;
    if i + 1 < |t| {
      assert t[..i + 1][i] == t[i];
      FollowsAt(w, ask, t, i + 1);
    }
  }

  /** A page the world disallows ends its attempt, is not retried, and ends the ladder. */
  lemma DisallowedEnds(w: World, run: StrategyRun, k: nat, i: nat)
    requires RunExact(run, w) && k < |run.attempts| && i < |run.attempts[k].events|
    requires run.attempts[k].events[i].Decided? && !run.attempts[k].events[i].decision.allowed
    ensures i == |run.attempts[k].events| - 1 && k == |run.attempts| - 1
    ensures run.result == Raised(Error(false, false, false, false, false, None)) && !Descends(run)
  {
    hide Grounded, RetriedAt, Built;
    DeniedIsLast(w, run.attempts[k].ask, run.attempts[k].events, i);
    RunMeans(w, run, k);
  }

  /** The ladder: HTTP first; the dynamic browser exactly when that failed for absent content;
      the stealthy one exactly when the dynamic browser met an interstitial; the last result. */
  lemma LadderMeans(runs: seq<StrategyRun>, result: Outcome<Batch>)
    requires LadderSafe(runs, result)
    ensures runs[0].strategy == Http && runs[0].classify
    ensures var first := runs[0].result;
            if first.Raised? && !first.error.cancelled && first.error.contentAbsent then
              && |runs| > 1 && runs[1].strategy == Dynamic && !runs[1].classify
              && var second := runs[1].result;
                 if second.Raised? && !second.error.cancelled && second.error.fetch && second.error.interstitial then
                   |runs| == 3 && runs[2].strategy == Stealthy && !runs[2].classify && result == runs[2].result
                 else |runs| == 2 && result == second
            else |runs| == 1 && result == first
  {
    assert LADDER[0] == Http && LADDER[1] == Dynamic && LADDER[2] == Stealthy;
  }
}
