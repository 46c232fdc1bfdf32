/** One IMAP IDLE watcher (`IMAPSocket`): the certificate checks, the
    connection flow and the idle loop, driven by a trace of what the network,
    the server and the other threads do. */
module ImapIdle {
  import opened Common
  import MbsyncRc

  const StartTls: string := "starttls"
  const ExplicitSsl: string := "explicit-ssl"

  /** "New mail in this mailbox of this account", as put on the shared queue. */
  datatype Signal = Signal(account: string, mailbox: string)

  /** The keyword arguments of one watcher; `security` and `port` already
      carry the constructor's defaults when the settings had none. */
  datatype SocketConfig = SocketConfig(
    name: string,
    server: string,
    certfile: string,
    user: string,
    passwd: string,
    directory: string,
    security: string,
    port: MbsyncRc.Port)

  // ---------------------------------------------------------------------
  // Certificate checks

  /** The verdict of `matchCertificate`; `HostnameMismatch` stands for the
      exception raised by the standard hostname matching. */
  datatype CertVerdict = Accepted | Rejected(reason: string) | HostnameMismatch

  /** `matchCertificate`: the host the TLS layer connected to must be the
      configured server, and then the certificate must match that name
      (`hostnameMatches`, the answer of the hostname matcher). */
  function MatchCertificate(server: string, host: string, hostnameMatches: bool): (v: CertVerdict)
    ensures host != server ==> v == Rejected("Hosts do not match")
    ensures v.Accepted? <==> host == server && hostnameMatches
    ensures v.HostnameMismatch? <==> host == server && !hostnameMatches
  {
    if host != server then Rejected("Hosts do not match")
    else if hostnameMatches then Accepted
    else HostnameMismatch
  }

  /** A loaded certificate: its subject and its SHA-1 digest, both opaque values. */
  datatype X509<S, D> = X509(subject: S, sha1: D)

  /** `verifyCertificate`: the peer's certificate against the pinned local one,
      subject first and digest second; `None` means they agree. */
  function VerifyCertificate<S(==), D(==)>(peer: X509<S, D>, local: X509<S, D>): (r: Option<string>)
    ensures r.None? <==> peer.subject == local.subject && peer.sha1 == local.sha1
    ensures peer.subject != local.subject ==> r == Some("Subjects don't match")
    ensures peer.subject == local.subject && peer.sha1 != local.sha1 ==> r == Some("Digests don't match")
  {
    if peer.subject != local.subject then Some("Subjects don't match")
    else if peer.sha1 != local.sha1 then Some("Digests don't match")
    else None
  }

  // ---------------------------------------------------------------------
  // connect

  /** What the network and the server do during one `connect`: whether the
      TLS handshake completes, the host the TLS layer reports to the
      certificate callback, the hostname matcher's answer, whether the login
      is accepted, and the status of the read-only `select`. */
  datatype ConnectEnv = ConnectEnv(
    handshakeOk: bool,
    peerHost: string,
    hostnameMatches: bool,
    loginOk: bool,
    selectStatus: string)

  datatype ConnectError =
    | Unsupported                        // neither STARTTLS nor IMAPS
    | HandshakeFailed
    | CertificateRefused(reason: string) // `matchCertificate` returned a reason
    | HostnameRefused                    // the hostname matcher raised
    | LoginFailed
    | SelectFailed(status: string)

  datatype ConnectOutcome = Connected | Refused(error: ConnectError)

  /** The specification of `connect`. */
  function ConnectResult(security: string, server: string, env: ConnectEnv): (o: ConnectOutcome)
    ensures security != StartTls && security != ExplicitSsl ==> o == Refused(Unsupported)
    ensures o.Connected? <==>
      && (security == StartTls || security == ExplicitSsl)
      && env.handshakeOk
      && MatchCertificate(server, env.peerHost, env.hostnameMatches).Accepted?
      && env.loginOk
      && env.selectStatus == "OK"
    ensures o == Refused(LoginFailed) || (o.Refused? && o.error.SelectFailed?) ==>
      env.handshakeOk && MatchCertificate(server, env.peerHost, env.hostnameMatches).Accepted?
  {
    if security != StartTls && security != ExplicitSsl then Refused(Unsupported)
    else if !env.handshakeOk then Refused(HandshakeFailed)
    else
      match MatchCertificate(server, env.peerHost, env.hostnameMatches)
      case Rejected(reason) => Refused(CertificateRefused(reason))
      case HostnameMismatch => Refused(HostnameRefused)
      case Accepted =>
        if !env.loginOk then Refused(LoginFailed)
        else if env.selectStatus != "OK" then Refused(SelectFailed(env.selectStatus))
        else Connected
  }

  /** The security mode "None", which `SSLType None` produces, is refused
      before any connection is made. */
  lemma NoneSecurityRefused(server: string, env: ConnectEnv)
    ensures MbsyncRc.SecurityOf("none") == Some("None")
    ensures ConnectResult("None", server, env) == Refused(Unsupported)
  {
  }

  // ---------------------------------------------------------------------
  // The recent count

  /** The reply of `recent()`: its status and its data items. */
  datatype RecentReply = RecentReply(status: string, data: seq<Option<string>>)

  /** An item that counts: present, non-empty and not "0". */
  predicate ReportsNew(x: Option<string>)
  {
    x.Some? && x.value != "" && x.value != "0"
  }

  function CountNew(data: seq<Option<string>>): (n: nat)
    ensures n <= |data|
    ensures n == 0 <==> forall i :: 0 <= i < |data| ==> !ReportsNew(data[i])
    ensures n == |data| <==> forall i :: 0 <= i < |data| ==> ReportsNew(data[i])
    decreases |data|
  {
    if data == [] then 0
    else
      var rest := CountNew(data[1..]);
      assert forall i :: 1 <= i < |data| ==> data[i] == data[1..][i - 1];
      (if ReportsNew(data[0]) then 1 else 0) + rest
  }

  /** The number of new mails after a wake-up; a missing reply counts none. */
  function RecentCount(res: Option<RecentReply>): (n: nat)
    ensures res.None? ==> n == 0
    ensures res.Some? ==> n <= |res.value.data|
    ensures n > 0 <==> res.Some? && exists i :: 0 <= i < |res.value.data| && ReportsNew(res.value.data[i])
  {
    if res.Some? then CountNew(res.value.data) else 0
  }

  // ---------------------------------------------------------------------
  // The idle loop, driven by a trace

  datatype IdleResult = IdleStarted | IdleAborted

  /** When, within one pass of the loop, another thread calls `stop()`. */
  datatype StopPoint =
    | NoStop
    | DuringConnectOrIdle   // after the loop test, before the abort handler looks
    | BeforeWakeCheck       // before the check that follows the wait
    | AfterWakeCheck        // after that check; seen by the next loop test

  datatype RecentResult = Replied(res: Option<RecentReply>) | RecentFailed

  /** What happens around one pass of the loop: the outcome of `connect` (used
      only when the watcher is not connected), of `idle`, whether the IDLE
      callback sets the event, when `stop()` comes, and the reply of `recent()`. */
  datatype Round = Round(
    connect: ConnectEnv,
    idle: IdleResult,
    woken: bool,
    stop: StopPoint,
    recent: RecentResult)

  /** How the loop ends. `Blocked` is a wait that nothing wakes; `TraceEnded`
      means the trace has no more rounds while the loop still runs. */
  datatype Exit =
    | ConnectFailed(error: ConnectError)
    | StoppedAtLoopTest
    | StoppedAfterAbort
    | StoppedAfterWake
    | RecentRaised
    | Blocked
    | TraceEnded

  /** The mutable part of a watcher: `connected`, `deathpill`, whether the
      event is set, and what it has put on the shared queue. */
  datatype SessionState = SessionState(connected: bool, deathpill: bool, eventSet: bool, queue: seq<Signal>)

  const Fresh: SessionState := SessionState(false, false, false, [])

  function Stopped(st: SessionState): SessionState
  {
    st.(deathpill := true, eventSet := true)
  }

  /** One pass of `while not self.deathpill`; `None` when the loop goes round again. */
  function RoundStep(c: SocketConfig, st: SessionState, r: Round): (SessionState, Option<Exit>)
    requires !st.deathpill
  {
    var st1 := if r.stop == DuringConnectOrIdle then Stopped(st) else st;
    var outcome := ConnectResult(c.security, c.server, r.connect);
    if !st1.connected && outcome.Refused? then (st1, Some(ConnectFailed(outcome.error)))
    else
      var st2 := st1.(connected := true);
      if r.idle == IdleAborted && st2.deathpill then (st2, Some(StoppedAfterAbort))
      else
        var st3 := if r.idle == IdleAborted then st2.(connected := false) else st2;
        var st4 := if r.woken then st3.(eventSet := true) else st3;
        var st5 := if r.stop == BeforeWakeCheck then Stopped(st4) else st4;
        if !st5.eventSet then (st5, Some(Blocked))
        else
          var st6 := st5.(eventSet := false);
          if st6.deathpill then (st6, Some(StoppedAfterWake))
          else
            match r.recent
            case RecentFailed => (st6, Some(RecentRaised))
            case Replied(res) =>
              var st7 := if RecentCount(res) > 0 then st6.(queue := st6.queue + [Signal(c.name, c.directory)]) else st6;
              if r.stop == AfterWakeCheck then (Stopped(st7), None) else (st7, None)
  }

  /** The specification of `idle`: the state at the end and how the loop ended. */
  function Run(c: SocketConfig, st: SessionState, rounds: seq<Round>): (SessionState, Exit)
    decreases |rounds|
  {
    if st.deathpill then (st, StoppedAtLoopTest)
    else if rounds == [] then (st, TraceEnded)
    else
      var (st', exit) := RoundStep(c, st, rounds[0]);
      if exit.Some? then (st', exit.value) else Run(c, st', rounds[1..])
  }

  class ImapSocket {
    const config: SocketConfig
    var connected: bool
    var deathpill: bool
    var eventSet: bool
    var queue: seq<Signal>

    constructor (config: SocketConfig)
      ensures this.config == config
      ensures State() == Fresh
    {
      this.config := config;
      connected := false;
      deathpill := false;
      eventSet := false;
      queue := [];
    }

    ghost function State(): SessionState
      reads this
    {
      SessionState(connected, deathpill, eventSet, queue)
    }

    /** `connect`: `connected` becomes true only after the login and an "OK" select. */
    method Connect(env: ConnectEnv) returns (o: ConnectOutcome)
      modifies this`connected
      ensures o == ConnectResult(config.security, config.server, env)
      ensures connected == (old(connected) || o.Connected?)
    {
      if config.security == StartTls || config.security == ExplicitSsl {
        // STARTTLS upgrades a plain connection, IMAPS starts with TLS; in both
        // the handshake calls `matchCertificate`.
        if !env.handshakeOk {
          return Refused(HandshakeFailed);
        }
        var verdict := MatchCertificate(config.server, env.peerHost, env.hostnameMatches);
        if verdict.Rejected? {
          return Refused(CertificateRefused(verdict.reason));
        } else if verdict.HostnameMismatch? {
          return Refused(HostnameRefused);
        }
      } else {
        return Refused(Unsupported);
      }
      if !env.loginOk {
        return Refused(LoginFailed);
      }
      if env.selectStatus != "OK" {
        return Refused(SelectFailed(env.selectStatus));
      }
      connected := true;
      return Connected;
    }

    /** `stop`: raise the death pill, then wake the loop. */
    method Stop()
      modifies this`deathpill, this`eventSet
      ensures deathpill && eventSet
    {
      deathpill := true;
      eventSet := true;
    }

    /** `idle`, with every outside event taken from `rounds`. */
    method Idle(rounds: seq<Round>) returns (exit: Exit)
      modifies this
      ensures (State(), exit) == Run(config, old(State()), rounds)
    {
      var i := 0;
      while !deathpill && i < |rounds|
        invariant 0 <= i <= |rounds|
        invariant Run(config, old(State()), rounds) == Run(config, State(), rounds[i..])
      {
        var r := rounds[i];
        ghost var before := State();
        assert rounds[i..][0] == r && rounds[i..][1..] == rounds[i + 1..];
        if r.stop == DuringConnectOrIdle {
          Stop();
        }
        if !connected {
          var o := Connect(r.connect);
          if o.Refused? {
            return ConnectFailed(o.error);
          }
        }
        if r.idle == IdleAborted {
          if deathpill {
            return StoppedAfterAbort;
          }
          connected := false;
        }
        if r.woken {
          eventSet := true;
        }
        if r.stop == BeforeWakeCheck {
          Stop();
        }
        if !eventSet {
          return Blocked;
        }
        eventSet := false;
        if deathpill {
          return StoppedAfterWake;
        }
        if r.recent.RecentFailed? {
          return RecentRaised;
        }
        var numNewMails := RecentCount(r.recent.res);
        if numNewMails > 0 {
          queue := queue + [Signal(config.name, config.directory)];
        }
        if r.stop == AfterWakeCheck {
          Stop();
        }
        assert RoundStep(config, before, r) == (State(), None);
        i := i + 1;
      }
      exit := if deathpill then StoppedAtLoopTest else TraceEnded;
    }
  }

  // ---------------------------------------------------------------------
  // Properties of the idle loop

  /** Once the loop has ended, later rounds of the trace change nothing. */
  lemma {:induction false} RunEndsForGood(c: SocketConfig, st: SessionState, rounds: seq<Round>, more: seq<Round>)
    requires Run(c, st, rounds).1 != TraceEnded
    ensures Run(c, st, rounds + more) == Run(c, st, rounds)
    decreases |rounds|
  {
    if !st.deathpill {
      assert (rounds + more)[0] == rounds[0] && (rounds + more)[1..] == rounds[1..] + more;
      var (st', exit) := RoundStep(c, st, rounds[0]);
      if exit.None? {
        RunEndsForGood(c, st', rounds[1..], more);
      }
    }
  }

  /** Running two pieces of trace is running the first and then the second
      from where the first left off, when the first did not end the loop. */
  lemma {:induction false} RunSplits(c: SocketConfig, st: SessionState, rounds: seq<Round>, more: seq<Round>)
    requires Run(c, st, rounds).1 == TraceEnded
    ensures Run(c, st, rounds + more) == Run(c, Run(c, st, rounds).0, more)
    decreases |rounds|
  {
    if rounds == [] {
      assert rounds + more == more;
    } else {
      assert (rounds + more)[0] == rounds[0] && (rounds + more)[1..] == rounds[1..] + more;
      var (st', exit) := RoundStep(c, st, rounds[0]);
      RunSplits(c, st', rounds[1..], more);
    }
  }

  /** A failed connect ends the watcher: it is never retried, whatever the
      rest of the trace holds. */
  lemma FailedConnectNeverRetried(c: SocketConfig, st: SessionState, rounds: seq<Round>, more: seq<Round>)
    requires Run(c, st, rounds).1.ConnectFailed?
    ensures Run(c, st, rounds + more) == Run(c, st, rounds)
  {
    RunEndsForGood(c, st, rounds, more);
  }

  /** A round with a `stop()` anywhere in it is the last one the loop runs. */
  lemma {:induction false} StopEndsTheLoop(c: SocketConfig, st: SessionState, rounds: seq<Round>, k: nat)
    requires k < |rounds| && rounds[k].stop != NoStop
    ensures Run(c, st, rounds).1 != TraceEnded
    ensures Run(c, st, rounds) == Run(c, st, rounds[..k + 1])
    decreases |rounds|
  {
    if !st.deathpill {
      var (st', exit) := RoundStep(c, st, rounds[0]);
      if exit.None? {
        if k == 0 {
          assert st'.deathpill;
        } else {
          StopEndsTheLoop(c, st', rounds[1..], k - 1);
          assert rounds[1..][..k] == rounds[..k + 1][1..];
        }
      }
    }
  }

  /** A round whose `stop()` comes before the check after the wait enqueues nothing. */
  lemma StopBeforeWakeSilencesRound(c: SocketConfig, st: SessionState, r: Round)
    requires !st.deathpill
    requires r.stop == DuringConnectOrIdle || r.stop == BeforeWakeCheck
    ensures RoundStep(c, st, r).0.queue == st.queue
    ensures RoundStep(c, st, r).1.Some?
  {
  }

  /** Nothing is enqueued after `stop()` is observed: when round `k` stops
      before the wake-up check, the queue holds only what earlier rounds put on it. */
  lemma StopSilencesTheRest(c: SocketConfig, st: SessionState, rounds: seq<Round>, k: nat)
    requires k < |rounds|
    requires rounds[k].stop == DuringConnectOrIdle || rounds[k].stop == BeforeWakeCheck
    ensures Run(c, st, rounds).0.queue == Run(c, st, rounds[..k]).0.queue
  {
    StopEndsTheLoop(c, st, rounds, k);
    assert rounds[..k + 1] == rounds[..k] + [rounds[k]];
    if Run(c, st, rounds[..k]).1 == TraceEnded {
      RunSplits(c, st, rounds[..k], [rounds[k]]);
      var mid := Run(c, st, rounds[..k]).0;
      if !mid.deathpill {
        StopBeforeWakeSilencesRound(c, mid, rounds[k]);
        assert [rounds[k]][0] == rounds[k];
      }
    } else {
      RunEndsForGood(c, st, rounds[..k], [rounds[k]]);
    }
  }

  /** Everything a watcher enqueues is its own `(name, directory)`, at most
      once per round. */
  /** One round appends nothing or one signal of the watcher's own. */
  lemma RoundQueue(c: SocketConfig, st: SessionState, r: Round)
    requires !st.deathpill
    ensures var q := RoundStep(c, st, r).0.queue;
      q == st.queue || q == st.queue + [Signal(c.name, c.directory)]
  {
  }

  /** `q` extends `prefix` by at most `bound` copies of `sig`. */
  predicate ExtendsWith(prefix: seq<Signal>, q: seq<Signal>, sig: Signal, bound: nat)
  {
    && |prefix| <= |q| <= |prefix| + bound
    && q[..|prefix|] == prefix
    && forall i :: |prefix| <= i < |q| ==> q[i] == sig
  }

  lemma ExtendsWithTrans(a: seq<Signal>, b: seq<Signal>, q: seq<Signal>, sig: Signal, n: nat, m: nat)
    requires ExtendsWith(a, b, sig, n) && ExtendsWith(b, q, sig, m)
    ensures ExtendsWith(a, q, sig, n + m)
  {
    assert q[..|a|] == q[..|b|][..|a|];
  }

  /** Everything a watcher enqueues is its own `(name, directory)`, at most
      once per round. */
  lemma {:induction false} SignalsAreOwn(c: SocketConfig, st: SessionState, rounds: seq<Round>)
    ensures ExtendsWith(st.queue, Run(c, st, rounds).0.queue, Signal(c.name, c.directory), |rounds|)
    decreases |rounds|
  {
    var sig := Signal(c.name, c.directory);
    if !st.deathpill && rounds != [] {
      var res := RoundStep(c, st, rounds[0]);
      RoundQueue(c, st, rounds[0]);
      assert ExtendsWith(st.queue, res.0.queue, sig, 1);
      if res.1.None? {
        assert Run(c, st, rounds) == Run(c, res.0, rounds[1..]);
        SignalsAreOwn(c, res.0, rounds[1..]);
        ExtendsWithTrans(st.queue, res.0.queue, Run(c, st, rounds).0.queue, sig, 1, |rounds| - 1);
      } else {
        assert Run(c, st, rounds).0 == res.0;
      }
    } else {
      assert Run(c, st, rounds).0 == st;
    }
  }

  /** Each completed wake-up enqueues exactly one signal when the recent count
      is positive and none otherwise. */
  lemma WakeUpEnqueuesAtMostOne(c: SocketConfig, st: SessionState, r: Round)
    requires !st.deathpill
    requires RoundStep(c, st, r).1.None?
    ensures r.recent.Replied?
    ensures RoundStep(c, st, r).0.queue ==
      st.queue + (if RecentCount(r.recent.res) > 0 then [Signal(c.name, c.directory)] else [])
  {
  }

  /** An abort while no stop is pending drops the connection, so the next
      round connects again and is governed by its `connect` outcome. */
  lemma AbortForcesReconnect(c: SocketConfig, st: SessionState, r: Round, next: Round, more: seq<Round>)
    requires !st.deathpill && r.idle == IdleAborted && r.stop == NoStop
    requires st.connected || ConnectResult(c.security, c.server, r.connect).Connected?
    requires r.woken && r.recent.Replied?
    requires next.stop == NoStop && ConnectResult(c.security, c.server, next.connect).Refused?
    ensures !RoundStep(c, st, r).0.connected
    ensures Run(c, st, [r, next] + more).1 == ConnectFailed(ConnectResult(c.security, c.server, next.connect).error)
  {
    var rounds := [r, next] + more;
    assert rounds[0] == r && rounds[1..][0] == next;
  }
}
