/**
 The OAuth device-code login (providers/redhat/fetcher.go:66-155): polling
 under RFC 8628, sections 3.2 and 3.5. Time is a count of nanoseconds; what the
 server answers and how long every request and sleep really takes is a script.
 */
module DeviceAuth {
  import opened Text

  const SECOND := 1_000_000_000
  const DEFAULT_INTERVAL := 5 * SECOND
  const SLOW_DOWN_INCREMENT := 5 * SECOND

  datatype Reply =
    | Token(token: string)
    | Unparsable                       // HTTP 200 without a token
    | AuthorizationPending
    | SlowDown
    | ExpiredToken
    | AccessDenied
    | OtherError
    | TransportError

  /** One round of the loop: the reply, how long it took, and what follows while sleeping. */
  datatype Round = Round(reply: Reply, latency: nat, cancelled: bool, overrun: nat)

  datatype Outcome = Authorized(token: string) | Failed | Denied | Expired | Cancelled

  /** What a polling loop did: its outcome, when each poll was sent, and the interval it ended with. */
  datatype Log = Log(outcome: Outcome, polls: seq<int>, interval: int)

  /** time.After of a non-positive duration fires at once. */
  function Sleep(interval: int): nat {
    if interval < 0 then 0 else interval
  }

  function Grown(interval: int, reply: Reply): int {
    if reply.SlowDown? then interval + SLOW_DOWN_INCREMENT else interval
  }

  predicate KeepsPolling(reply: Reply) {
    reply.AuthorizationPending? || reply.SlowDown?
  }

  function Verdict(reply: Reply): Outcome {
    if reply.Token? && reply.token != "" then Authorized(reply.token)
    else if reply.ExpiredToken? then Expired
    else if reply.AccessDenied? then Denied
    else Failed
  }

  /** pollToken from a moment on. A script that ends is a context that is cancelled. */
  function Poll(interval: int, expiresAt: int, now: int, script: seq<Round>): Log
    decreases |script|
  {
    if script == [] then Log(Cancelled, [], interval)
    else
      var r := script[0];
      var grown := Grown(interval, r.reply);
      var answered := now + r.latency;
      if !KeepsPolling(r.reply) then Log(Verdict(r.reply), [now], interval)
      else if answered > expiresAt then Log(Expired, [now], grown)
      else if r.cancelled then Log(Cancelled, [now], grown)
      else
        var rest := Poll(grown, expiresAt, answered + Sleep(grown) + r.overrun, script[1..]);
        rest.(polls := [now] + rest.polls)
  }

  /** A log with earlier polls in front. */
  function After(polls: seq<int>, log: Log): Log {
    log.(polls := polls + log.polls)
  }

  /** One round: it ends the loop, or the rest of the script goes on from where it leaves off. */
  lemma PollRound(interval: int, expiresAt: int, now: int, script: seq<Round>)
    requires script != []
    ensures var r := script[0];
      var grown := Grown(interval, r.reply);
      var answered := now + r.latency;
      Poll(interval, expiresAt, now, script) ==
        if !KeepsPolling(r.reply) then Log(Verdict(r.reply), [now], interval)
        else if answered > expiresAt then Log(Expired, [now], grown)
        else if r.cancelled then Log(Cancelled, [now], grown)
        else After([now], Poll(grown, expiresAt, answered + Sleep(grown) + r.overrun, script[1..]))
  {
  }

  lemma AfterTwice(earlier: seq<int>, poll: int, log: Log)
    ensures After(earlier, After([poll], log)) == After(earlier + [poll], log)
  {
    assert earlier + ([poll] + log.polls) == earlier + [poll] + log.polls;
  }

  lemma NoRounds(interval: int, expiresAt: int, now: int)
    ensures Poll(interval, expiresAt, now, []) == Log(Cancelled, [], interval)
  {
  }

  // ----- the code -----

  datatype DeviceCode = DeviceCode(deviceCode: string, expiresIn: int, interval: Option<int>)

  class Fetcher {
    var deviceCode: string
    var interval: int
    var expiresAt: int

    constructor ()
      ensures deviceCode == "" && interval == 0
    {
      deviceCode, interval, expiresAt := "", 0, 0;
    }

    /** StartDeviceAuth once its response was parsed: an absent interval is five seconds, an explicit zero stays. */
    method StartDeviceAuth(resp: DeviceCode, now: int)
      modifies this
      ensures deviceCode == resp.deviceCode
      ensures interval == if resp.interval.Some? then resp.interval.value * SECOND else 5 * SECOND
      ensures expiresAt == now + resp.expiresIn * SECOND
    {
      deviceCode := resp.deviceCode;
      interval := DEFAULT_INTERVAL;
      if resp.interval.Some? { interval := resp.interval.value * SECOND; }
      expiresAt := now + resp.expiresIn * SECOND;
    }

    method PollToken(start: int, script: seq<Round>) returns (outcome: Outcome, polls: seq<int>)
      modifies this`interval
      ensures Log(outcome, polls, interval) == Poll(old(interval), expiresAt, start, script)
    {
      hide Poll;
      var now := start;
      polls := [];
      assert script[0..] == script;
      for i := 0 to |script|
        invariant Poll(old(interval), expiresAt, start, script)
          == After(polls, Poll(interval, expiresAt, now, script[i..]))
      {
        var r := script[i];
        assert script[i..][1..] == script[i + 1..];
        PollRound(interval, expiresAt, now, script[i..]);
        ghost var earlier := polls;
        polls := polls + [now];
        now := now + r.latency;
        if r.reply.Token? && r.reply.token != "" { return Authorized(r.reply.token), polls; }
        if r.reply.SlowDown? { interval := interval + SLOW_DOWN_INCREMENT; }
        else if r.reply.ExpiredToken? { return Expired, polls; }
        else if r.reply.AccessDenied? { return Denied, polls; }
        else if !r.reply.AuthorizationPending? { return Failed, polls; }
        if now > expiresAt { return Expired, polls; }
        if r.cancelled { return Cancelled, polls; }
        now := now + Sleep(interval) + r.overrun;
        AfterTwice(earlier, polls[|earlier|], Poll(interval, expiresAt, now, script[i + 1..]));
      }
      NoRounds(interval, expiresAt, now);
      return Cancelled, polls;
    }

    /** WaitAndFetch up to the token. */
    method Wait(start: int, script: seq<Round>) returns (outcome: Outcome, polls: seq<int>)
      modifies this`interval
      ensures old(deviceCode) == "" ==> outcome == Failed && polls == [] && interval == old(interval)
      ensures old(deviceCode) != "" ==> Log(outcome, polls, interval) == Poll(old(interval), expiresAt, start, script)
    {
      if deviceCode == "" { return Failed, []; }
      outcome, polls := PollToken(start, script);
    }
  }

  // ----- RFC 8628, section 3.5 -----

  function SlowDowns(script: seq<Round>): nat {
    if script == [] then 0 else (if script[0].reply.SlowDown? then 1 else 0) + SlowDowns(script[1..])
  }

  function Upto(script: seq<Round>, k: nat): seq<Round>
    requires k <= |script|
  {
    script[..k]
  }

  lemma SlowDownsFirst(script: seq<Round>, k: nat)
    requires 0 < k <= |script|
    ensures SlowDowns(Upto(script, k)) ==
        (if script[0].reply.SlowDown? then 1 else 0) + SlowDowns(Upto(script[1..], k - 1))
  {
    assert script[..k][1..] == script[1..][..k - 1];
  }

  /** The poll after poll k is due: it waited out the interval of that moment, within the code's lifetime. */
  predicate Due(polls: seq<int>, interval: int, expiresAt: int, script: seq<Round>, k: nat)
    requires k + 1 < |polls| <= |script|
  {
    && polls[k + 1] - polls[k] >= interval + 5 * SECOND * SlowDowns(Upto(script, k + 1))
    && KeepsPolling(script[k].reply) && polls[k] + script[k].latency <= expiresAt
  }

  predicate Spaced(polls: seq<int>, interval: int, expiresAt: int, script: seq<Round>)
    requires |polls| <= |script|
  {
    forall k: nat :: k + 1 < |polls| ==> Due(polls, interval, expiresAt, script, k)
  }

  /**
   The interval is the starting one plus five seconds for every slow_down
   received so far, successive polls are at least that interval apart, and only
   a pending or slow_down answer is ever followed by another poll.
   */
  lemma {:induction false} PollsAreSpaced(interval: int, expiresAt: int, now: int, script: seq<Round>)
    ensures var log := Poll(interval, expiresAt, now, script);
      && |log.polls| <= |script|
      && log.interval == interval + 5 * SECOND * SlowDowns(Upto(script, |log.polls|))
      && (log.polls != [] ==> log.polls[0] == now)
      && Spaced(log.polls, interval, expiresAt, script)
    decreases |script|
  {
    hide Spaced;
    var log := Poll(interval, expiresAt, now, script);
    if script == [] {
      Unspaced(log.polls, interval, expiresAt, script);
    } else {
      var r := script[0];
      SlowDownsFirst(script, 1);
      var grown := Grown(interval, r.reply);
      if KeepsPolling(r.reply) && now + r.latency <= expiresAt && !r.cancelled {
        var next := now + r.latency + Sleep(grown) + r.overrun;
        PollsAreSpaced(grown, expiresAt, next, script[1..]);
        var rest := Poll(grown, expiresAt, next, script[1..]);
        SlowDownsFirst(script, |log.polls|);
        SpacedBehind(now, rest.polls, interval, expiresAt, script);
      } else {
        Unspaced(log.polls, interval, expiresAt, script);
      }
    }
  }

  lemma Unspaced(polls: seq<int>, interval: int, expiresAt: int, script: seq<Round>)
    requires |polls| <= 1 && |polls| <= |script|
    ensures Spaced(polls, interval, expiresAt, script)
  {
  }

  /** One more poll in front of spaced ones. */
  lemma SpacedBehind(now: int, polls: seq<int>, interval: int, expiresAt: int, script: seq<Round>)
    requires script != [] && |polls| < |script| && KeepsPolling(script[0].reply) && now + script[0].latency <= expiresAt
    requires polls != [] ==> polls[0] >= now + Grown(interval, script[0].reply)
    requires Spaced(polls, Grown(interval, script[0].reply), expiresAt, script[1..])
    ensures Spaced([now] + polls, interval, expiresAt, script)
  {
    hide SlowDowns;
    var all, grown := [now] + polls, Grown(interval, script[0].reply);
    forall k: nat | k + 1 < |all| ensures Due(all, interval, expiresAt, script, k) {
      SlowDownsFirst(script, k + 1);
      if k > 0 {
        assert Due(polls, grown, expiresAt, script[1..], k - 1);
      } else {
        NoSlowDowns();
        assert Upto(script[1..], 0) == [];
      }
    }
  }

  lemma NoSlowDowns()
    ensures SlowDowns([]) == 0
  {
  }

  /** The outcome is a token only if the last poll was answered with it. */
  lemma {:induction false} AuthorizedByLastReply(interval: int, expiresAt: int, now: int, script: seq<Round>)
    ensures var log := Poll(interval, expiresAt, now, script);
      log.outcome.Authorized? <==>
        0 < |log.polls| <= |script| && script[|log.polls| - 1].reply.Token? && script[|log.polls| - 1].reply.token != ""
    ensures var log := Poll(interval, expiresAt, now, script);
      log.outcome.Authorized? ==> log.outcome.token == script[|log.polls| - 1].reply.token
    decreases |script|
  {
    if script != [] {
      var r := script[0];
      var grown := Grown(interval, r.reply);
      if KeepsPolling(r.reply) && now + r.latency <= expiresAt && !r.cancelled {
        AuthorizedByLastReply(grown, expiresAt, now + r.latency + Sleep(grown) + r.overrun, script[1..]);
      }
    }
  }

  /** The outcome and the reply to the last poll say the same: denied, expired, failed, or given up while pending. */
  ghost predicate ToldBy(log: Log, expiresAt: int, script: seq<Round>) {
    if log.polls == [] then log.outcome == Cancelled && script == []
    else
      |log.polls| <= |script| &&
      var r := script[|log.polls| - 1];
      var pending := r.reply.AuthorizationPending? || r.reply.SlowDown?;
      var late := log.polls[|log.polls| - 1] + r.latency > expiresAt;
      && (log.outcome.Denied? <==> r.reply.AccessDenied?)
      && (log.outcome.Expired? <==> r.reply.ExpiredToken? || (pending && late))
      && (log.outcome.Failed? <==>
            r.reply.Unparsable? || r.reply.OtherError? || r.reply.TransportError? || r.reply == Token(""))
      && (log.outcome.Cancelled? <==> pending && !late && (r.cancelled || |log.polls| == |script|))
  }

  lemma {:induction false} OutcomeExact(interval: int, expiresAt: int, now: int, script: seq<Round>)
    ensures ToldBy(Poll(interval, expiresAt, now, script), expiresAt, script)
    decreases |script|
  {
    if script != [] {
      var r := script[0];
      var grown := Grown(interval, r.reply);
      if KeepsPolling(r.reply) && now + r.latency <= expiresAt && !r.cancelled {
        OutcomeExact(grown, expiresAt, now + r.latency + Sleep(grown) + r.overrun, script[1..]);
      }
    }
  }

  lemma {:induction false} PollsFit(interval: int, expiresAt: int, now: int, script: seq<Round>, least: nat)
    requires 0 < least <= interval
    ensures var n := |Poll(interval, expiresAt, now, script).polls|;
      n >= 2 ==> (n - 2) * least <= expiresAt - now
    decreases |script|
  {
    if script != [] {
      var r := script[0];
      var grown := Grown(interval, r.reply);
      if KeepsPolling(r.reply) && now + r.latency <= expiresAt && !r.cancelled {
        var next := now + r.latency + Sleep(grown) + r.overrun;
        PollsFit(grown, expiresAt, next, script[1..], least);
        var m := |Poll(grown, expiresAt, next, script[1..]).polls|;
        if m >= 2 { assert (m + 1 - 2) * least == (m - 2) * least + least; }
      }
    }
  }

  lemma FitsQuotient(n: int, total: nat, unit: nat)
    requires unit > 0 && n * unit <= total
    ensures n <= total / unit
  {
    assert total < (total / unit + 1) * unit;
    MulMonotone(total / unit + 1, n, unit);
  }

  lemma MulMonotone(a: int, b: int, unit: nat)
    ensures a <= b ==> a * unit <= b * unit
  {
  }

  /** With an interval of a second or more and a code that lives E, there are at most E / I + 2 polls. */
  lemma PollsAreBounded(interval: int, lifetime: nat, issued: int, start: int, script: seq<Round>)
    requires interval >= SECOND && issued <= start
    ensures |Poll(interval, issued + lifetime, start, script).polls| <= lifetime / interval + 2
  {
    var n := |Poll(interval, issued + lifetime, start, script).polls|;
    PollsFit(interval, issued + lifetime, start, script, interval);
    if n >= 2 { FitsQuotient(n - 2, lifetime, interval); }
  }

  function Pending(n: nat): seq<Round> {
    seq(n, i => Round(AuthorizationPending, 0, false, 0))
  }

  lemma {:induction false} PendingPolls(interval: nat, expiresAt: int, now: int, n: nat)
    requires n >= 2 ==> now + (n - 2) * interval <= expiresAt
    ensures |Poll(interval, expiresAt, now, Pending(n)).polls| == n
    decreases n
  {
    if n >= 1 {
      assert Pending(n)[1..] == Pending(n - 1);
      if n >= 2 {
        assert now + interval + (n - 3) * interval == now + (n - 2) * interval;
        assert now <= now + (n - 2) * interval by { MulMonotone(0, n - 2, interval); }
        PendingPolls(interval, expiresAt, now + interval, n - 1);
      }
    }
  }

  /** The bound is reached by an instant server that keeps answering authorization_pending. */
  lemma BoundIsTight(interval: int, lifetime: nat, issued: int) returns (script: seq<Round>)
    requires interval >= SECOND
    ensures |Poll(interval, issued + lifetime, issued, script).polls| == lifetime / interval + 2
  {
    var n := lifetime / interval + 2;
    assert (n - 2) * interval <= lifetime;
    PendingPolls(interval, issued + lifetime, issued, n);
    script := Pending(n);
  }
}
