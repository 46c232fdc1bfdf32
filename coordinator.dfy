/** The main program of the watcher: one watcher per (account, folder), and
    the cycle that gathers their signals into one mbsync run. */
module Coordinator {
  import opened Common
  import MbsyncRc
  import ImapIdle

  const TimeoutMinutes: int := 3
  /** How long a cycle waits for its first signal, in seconds. */
  const FirstTimeout: int := TimeoutMinutes * 60
  /** How long the drain waits for each further signal, in seconds. */
  const DrainTimeout: int := 1

  // ---------------------------------------------------------------------
  // Fan-out

  datatype FanOutError =
    | MissingFolders(account: string)   // `d.pop("folders")` raises
    | MissingServer(account: string)    // the error handler's `d["server"]` raises

  /** The settings without which the watcher's constructor raises a `TypeError`. */
  predicate Complete(e: MbsyncRc.Entry)
  {
    e.server.Some? && e.certfile.Some? && e.user.Some? && e.passwd.Some?
  }

  /** The watcher for one folder of an account: the account's settings with
      `directory` set to the folder, and the constructor's defaults for the
      security mode and the port. */
  function SocketFor(name: string, e: MbsyncRc.Entry, folder: string): (s: ImapIdle.SocketConfig)
    requires Complete(e)
    ensures s.name == name && s.directory == folder
    ensures Some(s.server) == e.server && Some(s.certfile) == e.certfile
    ensures Some(s.user) == e.user && Some(s.passwd) == e.passwd
    ensures s.security == (if e.security.Some? then e.security.value else ImapIdle.StartTls)
    ensures s.port == (if e.port.Some? then e.port.value else MbsyncRc.PortNumber(143))
  {
    ImapIdle.SocketConfig(
      name, e.server.value, e.certfile.value, e.user.value, e.passwd.value, folder,
      if e.security.Some? then e.security.value else ImapIdle.StartTls,
      if e.port.Some? then e.port.value else MbsyncRc.PortNumber(143))
  }

  /** The watchers of one account. An incomplete account with a server is
      logged and skipped; one without a server crashes the error handler,
      unless it has no folders and the constructor is never called. */
  function AccountSockets(name: string, e: MbsyncRc.Entry): Result<seq<ImapIdle.SocketConfig>, FanOutError>
  {
    if e.folders.None? then Err(MissingFolders(name))
    else
      var folders := e.folders.value;
      if Complete(e) then Ok(seq(|folders|, i requires 0 <= i < |folders| => SocketFor(name, e, folders[i])))
      else if e.server.None? && |folders| > 0 then Err(MissingServer(name))
      else Ok([])
  }

  /** The specification of the fan-out over the accounts `names`, in order. */
  function FanOutSpec(conf: MbsyncRc.Conf, names: seq<string>): Result<seq<ImapIdle.SocketConfig>, FanOutError>
    requires forall k :: k in names ==> k in conf.values
    decreases |names|
  {
    if names == [] then Ok([])
    else
      var last := names[|names| - 1];
      match FanOutSpec(conf, names[..|names| - 1])
      case Err(error) => Err(error)
      case Ok(prev) =>
        match AccountSockets(last, conf.values[last])
        case Err(error) => Err(error)
        case Ok(socks) => Ok(prev + socks)
  }

  /** The folders of one account, written as the inner loop of the fan-out. */
  method AccountLoop(name: string, e: MbsyncRc.Entry) returns (r: Result<seq<ImapIdle.SocketConfig>, FanOutError>)
    ensures r == AccountSockets(name, e)
  {
    if e.folders.None? {
      return Err(MissingFolders(name));
    }
    var folders := e.folders.value;
    var sockets: seq<ImapIdle.SocketConfig> := [];
    for i := 0 to |folders|
      invariant Complete(e) ==> sockets == seq(i, j requires 0 <= j < i => SocketFor(name, e, folders[j]))
      invariant !Complete(e) ==> sockets == [] && (i > 0 ==> e.server.Some?)
    {
      if Complete(e) {
        sockets := sockets + [SocketFor(name, e, folders[i])];
      } else if e.server.None? {
        return Err(MissingServer(name));
      }
    }
    return Ok(sockets);
  }

  /** The fan-out: every account in the order of the configuration, every
      folder in the order of its list. */
  method FanOut(conf: MbsyncRc.Conf) returns (r: Result<seq<ImapIdle.SocketConfig>, FanOutError>)
    requires conf.Valid()
    ensures r == FanOutSpec(conf, conf.keys)
  {
    var sockets: seq<ImapIdle.SocketConfig> := [];
    for i := 0 to |conf.keys|
      invariant FanOutSpec(conf, conf.keys[..i]) == Ok(sockets)
    {
      var name := conf.keys[i];
      assert conf.keys[..i + 1][..i] == conf.keys[..i];
      var account := AccountLoop(name, conf.values[name]);
      if account.Err? {
        FanOutErrorPersists(conf, conf.keys[..i + 1], conf.keys);
        return Err(account.error);
      }
      sockets := sockets + account.value;
    }
    assert conf.keys[..|conf.keys|] == conf.keys;
    return Ok(sockets);
  }

  /** An error in the first accounts is the error of the whole fan-out. */
  lemma {:induction false} FanOutErrorPersists(conf: MbsyncRc.Conf, init: seq<string>, names: seq<string>)
    requires forall k :: k in names ==> k in conf.values
    requires |init| <= |names| && init == names[..|init|]
    requires FanOutSpec(conf, init).Err?
    ensures FanOutSpec(conf, names) == FanOutSpec(conf, init)
    decreases |names|
  {
    if |init| < |names| {
      assert names[..|names| - 1][..|init|] == init;
      FanOutErrorPersists(conf, init, names[..|names| - 1]);
    } else {
      assert names[..|names|] == names;
    }
  }

  /** The fan-out succeeds exactly when every account has a folder list and
      every incomplete account with folders at least has a server. */
  lemma {:induction false} FanOutSucceeds(conf: MbsyncRc.Conf, names: seq<string>)
    requires forall k :: k in names ==> k in conf.values
    ensures FanOutSpec(conf, names).Ok? <==>
      forall k :: k in names ==>
        && conf.values[k].folders.Some?
        && (|conf.values[k].folders.value| > 0 && !Complete(conf.values[k]) ==> conf.values[k].server.Some?)
    decreases |names|
  {
    if names != [] {
      FanOutSucceeds(conf, names[..|names| - 1]);
      assert forall k :: k in names ==> k in names[..|names| - 1] || k == names[|names| - 1];
    }
  }

  /** The watchers are exactly one per folder of each complete account. */
  lemma {:induction false} FanOutPairs(conf: MbsyncRc.Conf, names: seq<string>)
    requires forall k :: k in names ==> k in conf.values
    requires FanOutSpec(conf, names).Ok?
    ensures forall s :: s in FanOutSpec(conf, names).value ==>
      s.name in names && Complete(conf.values[s.name]) && conf.values[s.name].folders.Some? &&
      s.directory in conf.values[s.name].folders.value &&
      s == SocketFor(s.name, conf.values[s.name], s.directory)
    ensures forall k, f ::
      (k in names && Complete(conf.values[k]) && conf.values[k].folders.Some? && f in conf.values[k].folders.value) ==>
        SocketFor(k, conf.values[k], f) in FanOutSpec(conf, names).value
    decreases |names|
  {
    if names != [] {
      var init := names[..|names| - 1];
      var last := names[|names| - 1];
      FanOutPairs(conf, init);
      assert forall k :: k in names ==> k in init || k == last;
      var e := conf.values[last];
      if Complete(e) {
        var folders := e.folders.value;
        var socks := AccountSockets(last, e).value;
        assert forall f :: f in folders ==> exists i :: 0 <= i < |folders| && folders[i] == f && socks[i] == SocketFor(last, e, f);
      }
    }
  }

  // ---------------------------------------------------------------------
  // One coalescing cycle

  /** The signal a watcher put on the queue, and the second it arrived. */
  datatype Arrival = Arrival(at: int, signal: ImapIdle.Signal)

  function Max(a: int, b: int): int
  {
    if a < b then b else a
  }

  /** The second at which the `j`-th `get` of a cycle begun at `start` returns:
      when its signal arrives, or at once if it was already waiting. */
  function ReceivedAt(start: int, pending: seq<Arrival>, j: nat): int
    requires j < |pending|
  {
    if j == 0 then Max(start, pending[0].at) else Max(ReceivedAt(start, pending, j - 1), pending[j].at)
  }

  /** The drain from signal `j` on, the previous `get` having returned at `now`. */
  function DrainFrom(pending: seq<Arrival>, j: nat, now: int): (n: nat)
    requires j <= |pending|
    ensures j <= n <= |pending|
    decreases |pending| - j
  {
    if j == |pending| || pending[j].at > now + DrainTimeout then j
    else DrainFrom(pending, j + 1, Max(now, pending[j].at))
  }

  /** How many of the `pending` signals one cycle begun at `start` takes. */
  function Drained(start: int, pending: seq<Arrival>): (n: nat)
    ensures n <= |pending|
  {
    if pending == [] || pending[0].at > start + FirstTimeout then 0
    else DrainFrom(pending, 1, Max(start, pending[0].at))
  }

  lemma {:induction false} DrainFromGaps(start: int, pending: seq<Arrival>, j: nat)
    requires 1 <= j <= |pending|
    ensures var n := DrainFrom(pending, j, ReceivedAt(start, pending, j - 1));
      && (forall i :: j <= i < n ==> pending[i].at <= ReceivedAt(start, pending, i - 1) + DrainTimeout)
      && (n < |pending| ==> pending[n].at > ReceivedAt(start, pending, n - 1) + DrainTimeout)
    decreases |pending| - j
  {
    var now := ReceivedAt(start, pending, j - 1);
    if j < |pending| && pending[j].at <= now + DrainTimeout {
      assert Max(now, pending[j].at) == ReceivedAt(start, pending, j);
      DrainFromGaps(start, pending, j + 1);
    }
  }

  /** The drain is a sliding gap: a cycle takes a first signal arriving within
      `FirstTimeout` seconds, then every signal arriving within `DrainTimeout`
      of the previous one's reception, and stops at the first longer gap. */
  lemma DrainStopsAtFirstGap(start: int, pending: seq<Arrival>)
    ensures var n := Drained(start, pending);
      && (n == 0 <==> pending == [] || pending[0].at > start + FirstTimeout)
      && (forall i :: 1 <= i < n ==> pending[i].at <= ReceivedAt(start, pending, i - 1) + DrainTimeout)
      && (0 < n < |pending| ==> pending[n].at > ReceivedAt(start, pending, n - 1) + DrainTimeout)
  {
    if pending != [] && pending[0].at <= start + FirstTimeout {
      DrainFromGaps(start, pending, 1);
    }
  }

  /** The mbsync argument naming one channel and folder. */
  function Target(s: ImapIdle.Signal): (t: string)
    ensures t == s.account + ":" + s.mailbox
    ensures t != "-a"
  {
    var t := s.account + ":" + s.mailbox;
    assert t[|s.account|] == ':';
    t
  }

  function Targets(order: seq<ImapIdle.Signal>): (r: seq<string>)
    ensures |r| == |order|
    ensures forall i :: 0 <= i < |order| ==> r[i] == Target(order[i])
  {
    seq(|order|, i requires 0 <= i < |order| => Target(order[i]))
  }

  /** `order` lists every element of `items` exactly once. */
  ghost predicate Enumerates(order: seq<ImapIdle.Signal>, items: set<ImapIdle.Signal>)
  {
    && (forall i, j :: 0 <= i < j < |order| ==> order[i] != order[j])
    && (forall s :: s in items <==> s in order)
  }

  /** The arguments of a batch: one target per distinct signal, in the
      set's iteration order, or all channels when the batch is empty. */
  method BatchArgs(items: set<ImapIdle.Signal>) returns (args: seq<string>, ghost order: seq<ImapIdle.Signal>)
    ensures Enumerates(order, items) && |order| == |items|
    ensures items == {} ==> args == ["-a"]
    ensures items != {} ==> args == Targets(order)
    ensures "-a" in args <==> items == {}
    ensures items != {} ==> |args| == |items|
  {
    args := [];
    order := [];
    var rest := items;
    while rest != {}
      invariant rest <= items
      invariant forall s :: s in items <==> s in rest || s in order
      invariant forall s :: s in rest ==> s !in order
      invariant forall i, j :: 0 <= i < j < |order| ==> order[i] != order[j]
      invariant |order| + |rest| == |items|
      invariant args == Targets(order)
      decreases |rest|
    {
      var s :| s in rest;
      order := order + [s];
      args := args + [Target(s)];
      rest := rest - {s};
    }
    if |items| == 0 {
      args := args + ["-a"];
    }
  }

  /** One pass of the main loop: gather the signals of `pending` into a
      fresh set, then run mbsync on their targets. `taken` counts the signals
      the cycle consumed from the queue. */
  method Cycle(conf: MbsyncRc.Conf, lines: seq<MbsyncRc.Line>, fifo: string, start: int, pending: seq<Arrival>)
    returns (items: set<ImapIdle.Signal>, taken: nat, args: seq<string>, call: Result<MbsyncRc.Invocation, string>)
    requires conf.Valid()
    ensures taken == Drained(start, pending)
    ensures items == set j | 0 <= j < taken :: pending[j].signal
    ensures items == {} ==> args == ["-a"]
    ensures items != {} ==> |args| == |items|
    ensures forall s :: s in items ==> Target(s) in args
    ensures forall i :: 0 <= i < |args| && items != {} ==> exists s :: s in items && args[i] == Target(s)
    ensures call.Ok? <==> forall k :: k in conf.values ==> conf.values[k].passwd.Some?
    ensures call.Ok? ==> call.value.argv == MbsyncRc.MbsyncArgv(fifo, args)
  {
    items := {};
    taken := 0;
    if |pending| > 0 && pending[0].at <= start + FirstTimeout {
      var now := Max(start, pending[0].at);
      items := items + {pending[0].signal};
      taken := 1;
      while taken < |pending| && pending[taken].at <= now + DrainTimeout
        invariant 1 <= taken <= |pending|
        invariant DrainFrom(pending, taken, now) == Drained(start, pending)
        invariant items == set j | 0 <= j < taken :: pending[j].signal
        decreases |pending| - taken
      {
        now := Max(now, pending[taken].at);
        items := items + {pending[taken].signal};
        taken := taken + 1;
      }
    }
    ghost var order;
    args, order := BatchArgs(items);
    TargetsOfEnumeration(order, items);
    call := MbsyncRc.CallMbsync(conf, lines, args, fifo);
  }

  /** Every signal of the batch has its target among `Targets(order)`, and
      every target there belongs to a signal of the batch. */
  lemma TargetsOfEnumeration(order: seq<ImapIdle.Signal>, items: set<ImapIdle.Signal>)
    requires Enumerates(order, items)
    ensures forall s :: s in items ==> Target(s) in Targets(order)
    ensures forall i :: 0 <= i < |order| ==> order[i] in items && Targets(order)[i] == Target(order[i])
  {
    forall s | s in items
      ensures Target(s) in Targets(order)
    {
      var i :| 0 <= i < |order| && order[i] == s;
      assert Targets(order)[i] == Target(s);
    }
  }

  // ---------------------------------------------------------------------
  // The drain on small queues

  /** Two signals for the same folder one second apart make a batch of one target. */
  lemma RepeatedSignalCoalesces(s: ImapIdle.Signal)
    ensures Drained(0, [Arrival(0, s), Arrival(1, s)]) == 2
    ensures (set j | 0 <= j < 2 :: [Arrival(0, s), Arrival(1, s)][j].signal) == {s}
  {
    var pending := [Arrival(0, s), Arrival(1, s)];
    assert (set j | 0 <= j < 2 :: pending[j].signal) == {pending[0].signal, pending[1].signal};
  }

  /** A signal two seconds after the first misses the batch: the drain waits
      one second per signal, not three seconds in all. */
  lemma TwoSecondGapSplits(a: ImapIdle.Signal, b: ImapIdle.Signal)
    ensures Drained(0, [Arrival(0, a), Arrival(2, b)]) == 1
  {
  }

  /** Signals one second apart keep the drain going, however long the chain. */
  lemma ChainKeepsDraining(a: ImapIdle.Signal, b: ImapIdle.Signal)
    ensures Drained(0, [Arrival(0, a), Arrival(1, b), Arrival(2, a), Arrival(3, b), Arrival(4, a)]) == 5
  {
    var pending := [Arrival(0, a), Arrival(1, b), Arrival(2, a), Arrival(3, b), Arrival(4, a)];
    assert DrainFrom(pending, 4, 3) == 5;
    assert DrainFrom(pending, 3, 2) == 5;
    assert DrainFrom(pending, 2, 1) == 5;
  }

  /** Nothing within the first timeout: the batch is empty and mbsync syncs all channels. */
  lemma QuietQueueSyncsAll(a: ImapIdle.Signal)
    ensures Drained(100, [Arrival(281, a)]) == 0
    ensures Drained(100, [Arrival(280, a)]) == 1
  {
  }
}
