/**
 Per-host request spacing (server/spacer.js): calls queue on their host's chain; a turn waits until the gap has passed
 since the host's last grant. Turns, crawl-delay changes and the clock interleave in any way. Times and delays are any
 numbers of milliseconds, fractions included.
 */
module Spacer {
  import opened Basics

  /** Milliseconds from some time to a later one. */
  type Span = ms: real | ms >= 0.0

  const HOUR_MS := 3600.0 * 1000.0

  function Larger(a: real, b: real): real {
    if a < b then b else a
  }

  function Smaller(a: real, b: real): real {
    if b < a then b else a
  }

  /** A call waiting for its turn: which one it is, and the gap it asks for. */
  datatype Waiter = Waiter(ticket: nat, minMs: real)

  /** A turn under way: the crawl delay and the gap when it began, and the earliest time it may end. */
  datatype Turn = Turn(delayMs: real, gap: real, until: real)

  datatype Grant = Grant(waiter: Waiter, delayMs: real, at: real)

  /** A host: its last grant, its crawl delay, the chain of calls, the turn of the first one, and the grants so far. */
  datatype Host = Host(last: real, delayMs: real, chain: seq<Waiter>, turn: Option<Turn>, grants: seq<Grant>)

  const IDLE := Host(0.0, 0.0, [], None, [])

  datatype Event =
    | Call(host: string, waiter: Waiter)
    | SetCrawlDelay(host: string, sec: Option<real>)
    | BeginTurn(host: string)
    | EndTurn(host: string)

  /** An event and when it happens. */
  datatype Timed = Timed(event: Event, now: real)

  type Hosts = map<string, Host>

  function HostOf(hosts: Hosts, host: string): Host {
    if host in hosts then hosts[host] else IDLE
  }

  function Gap(hostMin: Span, minMs: real, delayMs: real): real {
    Larger(Larger(hostMin, minMs), delayMs)
  }

  /** One event at its host. A turn begins when none is under way, and ends no sooner than its sleep does. */
  function NextHost(hostMin: Span, h: Host, e: Event, now: real): Host {
    match e
    case Call(_, waiter) => h.(chain := h.chain + [waiter])
    case SetCrawlDelay(_, sec) => if sec.None? then h else h.(delayMs := Smaller(sec.value * 1000.0, HOUR_MS))
    case BeginTurn(_) =>
      if h.chain == [] || h.turn.Some? then h
      else
        var gap := Gap(hostMin, h.chain[0].minMs, h.delayMs);
        h.(turn := Some(Turn(h.delayMs, gap, Larger(now, h.last + gap))))
    case EndTurn(_) =>
      if h.chain == [] || h.turn.None? || now < h.turn.value.until then h
      else h.(last := now, chain := h.chain[1..], turn := None,
        grants := h.grants + [Grant(h.chain[0], h.turn.value.delayMs, now)])
  }

  function Next(hostMin: Span, hosts: Hosts, t: Timed): Hosts {
    hosts[t.event.host := NextHost(hostMin, HostOf(hosts, t.event.host), t.event, t.now)]
  }

  function Run(hostMin: Span, events: seq<Timed>): Hosts {
    if events == [] then map[] else Next(hostMin, Run(hostMin, events[..|events| - 1]), events[|events| - 1])
  }

  // ----- hosts do not wait for each other -----

  function At(events: seq<Timed>, host: string): seq<Timed> {
    if events == [] then []
    else
      var last := events[|events| - 1];
      At(events[..|events| - 1], host) + if last.event.host == host then [last] else []
  }

  /** A host is, after any run, what its own events alone make of it. */
  lemma {:induction false} HostsIndependent(hostMin: Span, events: seq<Timed>, host: string)
    ensures HostOf(Run(hostMin, events), host) == HostOf(Run(hostMin, At(events, host)), host)
  {
    if events != [] {
      var init, last := events[..|events| - 1], events[|events| - 1];
      HostsIndependent(hostMin, init, host);
      var mine := At(init, host);
      if last.event.host == host {
        RunOne(hostMin, mine, last);
      } else {
        AppendNothing(mine);
      }
    }
  }

  lemma RunOne(hostMin: Span, events: seq<Timed>, t: Timed)
    ensures Run(hostMin, events + [t]) == Next(hostMin, Run(hostMin, events), t)
  {
    assert (events + [t])[..|events|] == events;
  }

  // ----- first come, first served -----

  /** The calls to a host, in order. */
  function Calls(events: seq<Timed>, host: string): seq<Waiter> {
    if events == [] then []
    else
      var last := events[|events| - 1].event;
      Calls(events[..|events| - 1], host) + if last.Call? && last.host == host then [last.waiter] else []
  }

  function Granted(grants: seq<Grant>): seq<Waiter> {
    if grants == [] then [] else Granted(grants[..|grants| - 1]) + [grants[|grants| - 1].waiter]
  }

  /** Grants come in the order of the calls: those granted and then those waiting are all the calls made. */
  lemma {:induction false} FirstComeFirstServed(hostMin: Span, events: seq<Timed>, host: string)
    ensures var h := HostOf(Run(hostMin, events), host);
            Granted(h.grants) + h.chain == Calls(events, host)
  {
    if events != [] {
      var init, last := events[..|events| - 1], events[|events| - 1];
      FirstComeFirstServed(hostMin, init, host);
      var h := HostOf(Run(hostMin, init), host);
      if last.event.host == host {
        ServedNext(hostMin, h, last.event, last.now);
      }
    }
  }

  lemma ServedNext(hostMin: Span, h: Host, e: Event, now: real)
    ensures var k := NextHost(hostMin, h, e, now);
            Granted(k.grants) + k.chain == (Granted(h.grants) + h.chain) + if e.Call? then [e.waiter] else []
  {
    match e
    case Call(_, waiter) => AppendAssociates(Granted(h.grants), h.chain, [waiter]);
    case EndTurn(_) =>
      AppendNothing(Granted(h.grants) + h.chain);
      if !(h.chain == [] || h.turn.None? || now < h.turn.value.until) {
        var g := Grant(h.chain[0], h.turn.value.delayMs, now);
        assert (h.grants + [g])[..|h.grants|] == h.grants;
        assert h.chain == [h.chain[0]] + h.chain[1..];
        AppendAssociates(Granted(h.grants), [h.chain[0]], h.chain[1..]);
      }
    case _ => AppendNothing(Granted(h.grants) + h.chain);
  }

  // ----- spacing -----

  /** Each grant comes its whole gap after the one before it. */
  ghost predicate Spaced(hostMin: Span, grants: seq<Grant>) {
    forall i :: 0 < i < |grants| ==>
      grants[i].at >= grants[i - 1].at + Gap(hostMin, grants[i].waiter.minMs, grants[i].delayMs)
  }

  ghost predicate HostSafe(hostMin: Span, h: Host) {
    && Spaced(hostMin, h.grants)
    && (h.grants != [] ==> h.last == h.grants[|h.grants| - 1].at)
    && (h.turn.Some? ==>
          && h.chain != [] && h.turn.value.gap == Gap(hostMin, h.chain[0].minMs, h.turn.value.delayMs)
          && h.turn.value.until >= h.last + h.turn.value.gap)
  }

  lemma NextSafe(hostMin: Span, h: Host, e: Event, now: real)
    requires HostSafe(hostMin, h)
    ensures HostSafe(hostMin, NextHost(hostMin, h, e, now))
  {}

  /**
   Successive grants to a host are at least the host minimum, that caller's minimum and the crawl delay in force when
   its turn began apart, whatever else happens in between.
   */
  lemma {:induction false} GrantsSpaced(hostMin: Span, events: seq<Timed>, host: string)
    ensures HostSafe(hostMin, HostOf(Run(hostMin, events), host))
  {
    if events != [] {
      var init, last := events[..|events| - 1], events[|events| - 1];
      GrantsSpaced(hostMin, init, host);
      if last.event.host == host {
        NextSafe(hostMin, HostOf(Run(hostMin, init), host), last.event, last.now);
      }
    }
  }

  // ----- the delay a grant was held to -----

  /**
   The j-th event began the turn of `waiter`, who was first in the chain after the grants `before`, under the crawl
   delay then in force, and no later than `at`.
   */
  ghost predicate BeganAt(hostMin: Span, events: seq<Timed>, host: string, j: nat, waiter: Waiter, delayMs: real,
                          before: seq<Grant>, at: real) {
    && j < |events| && events[j].event == BeginTurn(host) && events[j].now <= at
    && var h := HostOf(Run(hostMin, events[..j]), host);
       h.turn.None? && h.chain != [] && h.chain[0] == waiter && h.delayMs == delayMs && h.grants == before
  }

  ghost predicate Began(hostMin: Span, events: seq<Timed>, host: string, waiter: Waiter, delayMs: real,
                        before: seq<Grant>, at: real)
  {
    exists j: nat :: BeganAt(hostMin, events, host, j, waiter, delayMs, before, at)
  }

  lemma BeganBefore(hostMin: Span, events: seq<Timed>, t: Timed, host: string, waiter: Waiter, delayMs: real,
                    before: seq<Grant>, at: real, later: real)
    requires Began(hostMin, events, host, waiter, delayMs, before, at) && at <= later
    ensures Began(hostMin, events + [t], host, waiter, delayMs, before, later)
  {
    var j: nat :| BeganAt(hostMin, events, host, j, waiter, delayMs, before, at);
    assert (events + [t])[..j] == events[..j];
    assert BeganAt(hostMin, events + [t], host, j, waiter, delayMs, before, later);
  }

  /** The turn under way, and each grant, began by an event of its own. */
  ghost predicate AllBegan(hostMin: Span, events: seq<Timed>, host: string, h: Host) {
    && (forall i :: 0 <= i < |h.grants| ==>
          Began(hostMin, events, host, h.grants[i].waiter, h.grants[i].delayMs, h.grants[..i], h.grants[i].at))
    && (h.turn.Some? ==>
          h.chain != [] && Began(hostMin, events, host, h.chain[0], h.turn.value.delayMs, h.grants, h.turn.value.until))
  }

  lemma AllBeganMore(hostMin: Span, events: seq<Timed>, t: Timed, host: string, h: Host)
    requires AllBegan(hostMin, events, host, h)
    ensures AllBegan(hostMin, events + [t], host, h)
  {
    forall i | 0 <= i < |h.grants|
      ensures Began(hostMin, events + [t], host, h.grants[i].waiter, h.grants[i].delayMs, h.grants[..i], h.grants[i].at)
    {
      BeganBefore(hostMin, events, t, host, h.grants[i].waiter, h.grants[i].delayMs, h.grants[..i], h.grants[i].at,
                  h.grants[i].at);
    }
    if h.turn.Some? {
      BeganBefore(hostMin, events, t, host, h.chain[0], h.turn.value.delayMs, h.grants, h.turn.value.until,
                  h.turn.value.until);
    }
  }

  lemma AllBeganNext(hostMin: Span, events: seq<Timed>, t: Timed, host: string, h: Host)
    requires h == HostOf(Run(hostMin, events), host) && AllBegan(hostMin, events, host, h) && t.event.host == host
    ensures AllBegan(hostMin, events + [t], host, NextHost(hostMin, h, t.event, t.now))
  {
    var more, k := events + [t], NextHost(hostMin, h, t.event, t.now);
    AllBeganMore(hostMin, events, t, host, h);
    if t.event.EndTurn? && k.grants != h.grants {
      var g := k.grants[|h.grants|];
      BeganBefore(hostMin, events, t, host, h.chain[0], h.turn.value.delayMs, h.grants, h.turn.value.until, g.at);
      assert forall i :: 0 <= i < |h.grants| ==> k.grants[..i] == h.grants[..i];
      assert k.grants[..|h.grants|] == h.grants;
    } else if t.event.BeginTurn? && k.turn != h.turn {
      assert more[..|events|] == events;
      assert BeganAt(hostMin, more, host, |events|, h.chain[0], h.delayMs, h.grants, k.turn.value.until);
    }
  }

  /**
   The delay a grant is held to is the one in force when its turn began, whatever was set meanwhile: each grant of a
   run has an event that began it, at which its caller was first in the chain and the crawl delay was the one it is
   spaced by.
   */
  lemma {:induction false} GrantBegan(hostMin: Span, events: seq<Timed>, host: string)
    ensures AllBegan(hostMin, events, host, HostOf(Run(hostMin, events), host))
  {
    if events != [] {
      var init, last := events[..|events| - 1], events[|events| - 1];
      assert init + [last] == events;
      GrantBegan(hostMin, init, host);
      var h := HostOf(Run(hostMin, init), host);
      if last.event.host == host {
        AllBeganNext(hostMin, init, last, host, h);
      } else {
        AllBeganMore(hostMin, init, last, host, h);
      }
    }
  }

  // ----- no call waits for ever -----

  /** Only turns of one host, from `now` on and forward in time. */
  ghost predicate TurnsOf(events: seq<Timed>, host: string, now: real) {
    && (forall i :: 0 <= i < |events| ==>
          (events[i].event == BeginTurn(host) || events[i].event == EndTurn(host)) && events[i].now >= now)
    && (forall i, j :: 0 <= i < j < |events| ==> events[i].now <= events[j].now)
  }

  /** From the i-th grant on each comes exactly its gap after the one before. */
  ghost predicate Tight(hostMin: Span, grants: seq<Grant>, i: nat) {
    forall k :: 0 < k < |grants| && i <= k ==>
      grants[k].at == grants[k - 1].at + Gap(hostMin, grants[k].waiter.minMs, grants[k].delayMs)
  }

  function RunHost(hostMin: Span, h: Host, events: seq<Timed>): Host {
    if events == [] then h
    else NextHost(hostMin, RunHost(hostMin, h, events[..|events| - 1]), events[|events| - 1].event,
      events[|events| - 1].now)
  }

  lemma {:induction false} RunOn(hostMin: Span, events: seq<Timed>, more: seq<Timed>, host: string, now: real)
    requires TurnsOf(more, host, now)
    ensures HostOf(Run(hostMin, events + more), host) == RunHost(hostMin, HostOf(Run(hostMin, events), host), more)
  {
    if more == [] {
      assert events + more == events;
    } else {
      var init, last := more[..|more| - 1], more[|more| - 1];
      assert events + more == events + init + [last];
      RunOn(hostMin, events, init, host, now);
      RunOne(hostMin, events + init, last);
    }
  }

  lemma {:induction false} RunHostJoin(hostMin: Span, h: Host, a: seq<Timed>, b: seq<Timed>)
    ensures RunHost(hostMin, h, a + b) == RunHost(hostMin, RunHost(hostMin, h, a), b)
  {
    if b == [] {
      assert a + b == a;
    } else {
      assert (a + b)[..|a + b| - 1] == a + b[..|b| - 1];
      RunHostJoin(hostMin, h, a, b[..|b| - 1]);
    }
  }

  lemma RunHostOne(hostMin: Span, h: Host, t: Timed)
    ensures RunHost(hostMin, h, [t]) == NextHost(hostMin, h, t.event, t.now)
  {
    assert [t][..0] == [];
  }

  /** The first call of `h` was granted at `end`, as soon as its gap had passed if its turn had not begun. */
  ghost predicate Turned(hostMin: Span, h: Host, k: Host, now: real, end: real) {
    && h.chain != [] && k.chain == h.chain[1..] && k.turn.None? && k.last == end
    && |k.grants| == |h.grants| + 1 && k.grants[..|h.grants|] == h.grants
    && k.grants[|h.grants|].waiter == h.chain[0] && k.grants[|h.grants|].at == end
    && (h.turn.None? ==> end == Larger(now, h.last + Gap(hostMin, h.chain[0].minMs, k.grants[|h.grants|].delayMs)))
  }

  lemma EndsTurn(hostMin: Span, h: Host, host: string, now: real) returns (end: real)
    requires HostSafe(hostMin, h) && h.turn.Some?
    ensures end == Larger(now, h.turn.value.until)
    ensures var k := NextHost(hostMin, h, EndTurn(host), end);
            HostSafe(hostMin, k) && Turned(hostMin, h, k, now, end)
              && k.grants[|h.grants|].delayMs == h.turn.value.delayMs
  {
    end := Larger(now, h.turn.value.until);
    NextSafe(hostMin, h, EndTurn(host), end);
  }

  lemma TwoTurns(hostMin: Span, h: Host, a: Timed, b: Timed)
    ensures RunHost(hostMin, h, [a] + [b]) == NextHost(hostMin, NextHost(hostMin, h, a.event, a.now), b.event, b.now)
  {
    RunHostJoin(hostMin, h, [a], [b]);
    RunHostOne(hostMin, h, a);
    RunHostOne(hostMin, NextHost(hostMin, h, a.event, a.now), b);
  }

  /** A turn that begins at `now` and ends as soon as it may. */
  lemma WholeTurn(hostMin: Span, h: Host, host: string, now: real) returns (k: Host, end: real)
    requires HostSafe(hostMin, h) && h.chain != [] && h.turn.None?
    ensures end >= now && HostSafe(hostMin, k) && Turned(hostMin, h, k, now, end)
    ensures k == NextHost(hostMin, NextHost(hostMin, h, BeginTurn(host), now), EndTurn(host), end)
  {
    var begun := NextHost(hostMin, h, BeginTurn(host), now);
    NextSafe(hostMin, h, BeginTurn(host), now);
    end := EndsTurn(hostMin, begun, host, now);
    k := NextHost(hostMin, begun, EndTurn(host), end);
  }

  lemma TurnsAre(host: string, now: real, end: real)
    requires end >= now
    ensures TurnsOf([Timed(EndTurn(host), end)], host, now)
    ensures TurnsOf([Timed(BeginTurn(host), now)] + [Timed(EndTurn(host), end)], host, now)
  {}

  lemma OneTurn(hostMin: Span, h: Host, host: string, now: real) returns (turn: seq<Timed>, end: real)
    requires HostSafe(hostMin, h) && h.chain != []
    ensures TurnsOf(turn, host, now) && end >= now && forall i :: 0 <= i < |turn| ==> turn[i].now <= end
    ensures HostSafe(hostMin, RunHost(hostMin, h, turn)) && Turned(hostMin, h, RunHost(hostMin, h, turn), now, end)
  {
    if h.turn.Some? {
      end := EndsTurn(hostMin, h, host, now);
      turn := [Timed(EndTurn(host), end)];
      assert RunHost(hostMin, h, turn) == NextHost(hostMin, h, EndTurn(host), end) by {
        RunHostOne(hostMin, h, turn[0]);
      }
    } else {
      var k;
      k, end := WholeTurn(hostMin, h, host, now);
      turn := [Timed(BeginTurn(host), now)] + [Timed(EndTurn(host), end)];
      assert RunHost(hostMin, h, turn) == k by {
        TwoTurns(hostMin, h, Timed(BeginTurn(host), now), Timed(EndTurn(host), end));
      }
    }
    TurnsAre(host, now, end);
  }

  lemma TurnsJoin(a: seq<Timed>, b: seq<Timed>, host: string, now: real, end: real)
    requires TurnsOf(a, host, now) && TurnsOf(b, host, end) && end >= now
    requires forall i :: 0 <= i < |a| ==> a[i].now <= end
    ensures TurnsOf(a + b, host, now)
  {}

  /**
   Every call that waited at `h` has been granted in order, each but the first exactly its gap after the one before,
   and the first too when the host was at rest after a grant no earlier than `now`.
   */
  ghost predicate Drained(hostMin: Span, h: Host, done: Host, now: real) {
    && done.chain == [] && Granted(done.grants) == Granted(h.grants) + h.chain
    && h.grants <= done.grants
    && Tight(hostMin, done.grants, |h.grants| + if h.turn.None? && h.last >= now then 0 else 1)
  }

  lemma DrainGranted(h: Host, k: Host, done: Host)
    requires h.chain != [] && k.chain == h.chain[1..] && |k.grants| == |h.grants| + 1
             && k.grants[..|h.grants|] == h.grants
    requires k.grants[|h.grants|].waiter == h.chain[0]
    requires Granted(done.grants) == Granted(k.grants) + k.chain
    ensures Granted(done.grants) == Granted(h.grants) + h.chain
  {
    assert h.chain == [h.chain[0]] + h.chain[1..];
    AppendAssociates(Granted(h.grants), [h.chain[0]], h.chain[1..]);
  }

  lemma DrainOn(hostMin: Span, h: Host, k: Host, done: Host, now: real, end: real)
    requires HostSafe(hostMin, h) && Turned(hostMin, h, k, now, end) && Drained(hostMin, k, done, end)
    ensures Drained(hostMin, h, done, now)
  {
    DrainGranted(h, k, done);
    var n := |h.grants|;
    assert done.grants[n] == k.grants[n];
    if n > 0 { assert done.grants[n - 1] == k.grants[n - 1] == h.grants[n - 1]; }
  }

  /** The chain of a host can drain: turn after turn, each ended as soon as it may. */
  lemma {:induction false} Drain(hostMin: Span, h: Host, host: string, now: real) returns (turns: seq<Timed>)
    requires HostSafe(hostMin, h)
    ensures TurnsOf(turns, host, now) && Drained(hostMin, h, RunHost(hostMin, h, turns), now)
    decreases |h.chain|
  {
    if h.chain == [] {
      turns := [];
      AppendNothing(Granted(h.grants));
    } else {
      var first, end := OneTurn(hostMin, h, host, now);
      var k := RunHost(hostMin, h, first);
      var rest := Drain(hostMin, k, host, end);
      turns := first + rest;
      TurnsJoin(first, rest, host, now, end);
      RunHostJoin(hostMin, h, first, rest);
      DrainOn(hostMin, h, k, RunHost(hostMin, k, rest), now, end);
    }
  }

  /**
   No call waits for ever: after any run, from any moment on, turns of the host alone grant every call made so far, in
   the order of the calls and each as soon as its gap from the one before has passed.
   */
  lemma EveryCallIsGranted(hostMin: Span, events: seq<Timed>, host: string, now: real) returns (turns: seq<Timed>)
    ensures TurnsOf(turns, host, now)
    ensures var before, after := HostOf(Run(hostMin, events), host), HostOf(Run(hostMin, events + turns), host);
            && after.chain == [] && Granted(after.grants) == Calls(events, host)
            && Tight(hostMin, after.grants, |before.grants| + 1)
  {
    var h := HostOf(Run(hostMin, events), host);
    GrantsSpaced(hostMin, events, host);
    FirstComeFirstServed(hostMin, events, host);
    turns := Drain(hostMin, h, host, now);
    RunOn(hostMin, events, turns, host, now);
  }

  // ----- the spacer at work -----

  /** All calls to a host so far, in the order in which they are or will be granted. */
  function Order(h: Host): seq<Waiter> {
    Granted(h.grants) + h.chain
  }

  ghost predicate AllSafe(hostMin: Span, hosts: Hosts) {
    forall host :: host in hosts ==> HostSafe(hostMin, hosts[host])
  }

  lemma AllSafeNext(hostMin: Span, hosts: Hosts, t: Timed)
    requires AllSafe(hostMin, hosts)
    ensures AllSafe(hostMin, Next(hostMin, hosts, t))
  {
    NextSafe(hostMin, HostOf(hosts, t.event.host), t.event, t.now);
  }

  class Hosting {
    const hostMin: Span
    var hosts: Hosts

    ghost predicate Valid()
      reads this
    {
      AllSafe(hostMin, hosts)
    }

    /** Nothing happened at another host. */
    twostate predicate Elsewhere(host: string)
      reads this
    {
      forall other :: other != host ==> HostOf(hosts, other) == HostOf(old(hosts), other)
    }

    constructor (hostMin: Span)
      ensures this.hostMin == hostMin && hosts == map[] && Valid()
    {
      this.hostMin, hosts := hostMin, map[];
    }

    /** `space`, up to its place in the host's chain: it is served after all that called before. */
    method Space(host: string, waiter: Waiter)
      requires Valid()
      modifies this`hosts
      ensures Valid() && Elsewhere(host)
      ensures forall now :: hosts == Next(hostMin, old(hosts), Timed(Call(host, waiter), now))
      ensures Order(HostOf(hosts, host)) == Order(HostOf(old(hosts), host)) + [waiter]
      ensures HostOf(hosts, host).grants == HostOf(old(hosts), host).grants
    {
      var h := HostOf(hosts, host);
      ServedNext(hostMin, h, Call(host, waiter), 0.0);
      AllSafeNext(hostMin, hosts, Timed(Call(host, waiter), 0.0));
      hosts := hosts[host := h.(chain := h.chain + [waiter])];
    }

    /** A crawl delay, of at most an hour, for turns that begin from now on: who waits, and a turn under way, stay. */
    method SetDelay(host: string, sec: Option<real>)
      requires Valid()
      modifies this`hosts
      ensures Valid() && Elsewhere(host)
      ensures forall other :: HostOf(hosts, other)
                              == if other == host then
                                NextHost(hostMin, HostOf(old(hosts), host), SetCrawlDelay(host, sec), 0.0)
                                 else HostOf(old(hosts), other)
      ensures sec.Some? ==> HostOf(hosts, host).delayMs <= HOUR_MS
      ensures HostOf(hosts, host).(delayMs := 0.0) == HostOf(old(hosts), host).(delayMs := 0.0)
    {
      AllSafeNext(hostMin, hosts, Timed(SetCrawlDelay(host, sec), 0.0));
      if sec.None? { return; }
      hosts := hosts[host := HostOf(hosts, host).(delayMs := Smaller(sec.value * 1000.0, HOUR_MS))];
    }

    /**
     The first waiting call's turn begins: how long is it to sleep? Long enough for its whole gap from the last grant.
     */
    method Begin(host: string, now: real) returns (wait: real)
      requires Valid() && host in hosts && hosts[host].chain != [] && hosts[host].turn.None?
      modifies this`hosts
      ensures Valid() && Elsewhere(host)
      ensures hosts == Next(hostMin, old(hosts), Timed(BeginTurn(host), now))
      ensures Order(HostOf(hosts, host)) == Order(HostOf(old(hosts), host))
      ensures wait == hosts[host].last + hosts[host].turn.value.gap - now
      ensures hosts[host].turn.value.until == now + Larger(wait, 0.0)
    {
      var h := hosts[host];
      var gap := Larger(Larger(hostMin, h.chain[0].minMs), h.delayMs);
      wait := h.last + gap - now;
      AllSafeNext(hostMin, hosts, Timed(BeginTurn(host), now));
      hosts := hosts[host := h.(turn := Some(Turn(h.delayMs, gap, now + Larger(wait, 0.0))))];
    }

    /**
     The sleep is over: the call first in order of those not granted is granted, its whole gap after the grant before
     it, and the next one's turn may begin.
     */
    method End(host: string, now: real) returns (granted: Waiter)
      requires Valid() && host in hosts && hosts[host].turn.Some? && now >= hosts[host].turn.value.until
      modifies this`hosts
      ensures Valid() && Elsewhere(host)
      ensures hosts == Next(hostMin, old(hosts), Timed(EndTurn(host), now)) && host in hosts
      ensures Order(hosts[host]) == Order(old(hosts[host]))
      ensures granted == Order(hosts[host])[|Granted(old(hosts[host].grants))|]
      ensures hosts[host].grants == old(hosts[host].grants) + [Grant(granted, old(hosts[host].turn.value.delayMs), now)]
      ensures old(hosts[host].grants) != [] ==>
                now >= old(hosts[host].last) + Gap(hostMin, granted.minMs, old(hosts[host].turn.value.delayMs))
    {
      var h := hosts[host];
      ServedNext(hostMin, h, EndTurn(host), now);
      AppendNothing(Order(h));
      AllSafeNext(hostMin, hosts, Timed(EndTurn(host), now));
      granted := h.chain[0];
      hosts := hosts[host := Host(now, h.delayMs, h.chain[1..], None,
        h.grants + [Grant(granted, h.turn.value.delayMs, now)])];
    }
  }
}
