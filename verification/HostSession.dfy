/** The message handling of the host agent's session (session.py): what one message does to the persisted
    desired configuration, to the count of converge attempts and to the log of what was done and sent. */
module HostSession {
  import opened Wrappers
  import opened Json
  import opened AppsConfig

  datatype Message =
    | Ping | Heartbeat | SetConfig(data: Apps) | SetAgent | GetSupport
    | Exit | SupportCommand | UpdateCert | Unknown

  datatype Kind = Ok | Converging | Retrying | Failed

  datatype Event =
    | NewSession
    | NewConfig
    | Saved(config: Apps)
    | Bundle(automatic: bool)
    | RealRun(target: Apps)
    | Status(kind: Kind, apps: Apps, wanted: Option<Apps>)

  datatype Settings = Settings(maxAttempts: int, forceComms: bool)

  datatype Host = Host(attempts: int, file: Option<Apps>, log: seq<Event>) {
    function Emit(e: Event): Host {
      this.(log := log + [e])
    }
  }

  /** What the agent learns while it handles one message: the current configuration (None if it cannot
      be read), the result of the probe (None if it raised), whether sending the first status, publishing
      the support bundle and the real run let an exception out, the configuration and the probe after the
      run, and whether sending the last status raised. */
  datatype Seen = Seen(
    current: Option<Apps>, probe: Option<nat>, sendRaises: bool, bundleRaises: bool, runEscapes: bool,
    after: Option<Apps>, afterProbe: Option<nat>, reportRaises: bool)

  /** A message, or a new session on the same host. */
  datatype Input = Deliver(msg: Message, seen: Seen) | Restart

  predicate Truthy(j: Json) {
    match j
    case Null => false
    case Bool(b) => b
    case Int(i) => i != 0
    case Float(f) => f != 0.0
    case Str(s) => s != ""
    case List(items) => items != []
    case Dict(fields) => fields != map[]
  }

  /** _handle_iaas_3166: pf9-comms, if its flag is there, is to be running. */
  function Force(c: Settings, config: Apps): (r: Apps)
    ensures r.Keys == config.Keys
    ensures forall n :: n in config && n != "pf9-comms" ==> r[n] == config[n]
    ensures "pf9-comms" in r ==> r["pf9-comms"].Keys == config["pf9-comms"].Keys
    ensures "pf9-comms" in r ==>
      forall p :: p in r["pf9-comms"] && p != "running" ==> r["pf9-comms"][p] == config["pf9-comms"][p]
    ensures r == config || (c.forceComms && "pf9-comms" in config && "running" in config["pf9-comms"] &&
      !Truthy(config["pf9-comms"]["running"]) && r["pf9-comms"]["running"] == Bool(true))
    ensures c.forceComms && "pf9-comms" in r && "running" in r["pf9-comms"] ==> Truthy(r["pf9-comms"]["running"])
  {
    if c.forceComms && "pf9-comms" in config && "running" in config["pf9-comms"] && !Truthy(config["pf9-comms"]["running"])
    then config["pf9-comms" := config["pf9-comms"]["running" := Bool(true)]]
    else config
  }

  lemma ForceTwice(c: Settings, config: Apps)
    ensures Force(c, Force(c, config)) == Force(c, config)
  {
    if "pf9-comms" in config && "running" in config["pf9-comms"] {
      assert Truthy(Bool(true));
    }
  }

  /** The configuration a message is about: its own, the persisted one, or else the current one, which is
      then the very same object as the current configuration. */
  function Wanted(file: Option<Apps>, msg: Message, current: Apps): Apps {
    if msg.SetConfig? then msg.data else if file.Some? then file.value else current
  }

  predicate SharesCurrent(file: Option<Apps>, msg: Message) {
    !msg.SetConfig? && file.None?
  }

  /** The current configuration after the wanted one has been forced. */
  function CurrentThen(c: Settings, file: Option<Apps>, msg: Message, current: Apps): Apps {
    if SharesCurrent(file, msg) then Force(c, current) else current
  }

  predicate Converges(msg: Message) {
    msg.Ping? || msg.Heartbeat? || msg.SetConfig?
  }

  // ---------- handle_msg ----------

  function Handle(c: Settings, h: Host, msg: Message, seen: Seen): Host {
    if msg.GetSupport? then h.Emit(Bundle(false))
    else if (!Converges(msg) && !msg.SetAgent?) || seen.current.None? then h
    else if msg.SetAgent? then
      if seen.sendRaises then h
      else h.Emit(Status(Ok, seen.current.value, Some(Wanted(h.file, msg, seen.current.value))))
    else
      var h1 := if msg.SetConfig? then h.(attempts := 0).Emit(NewConfig) else h;
      if seen.probe.None? then h1
      else
        Settle(c, h1, CurrentThen(c, h.file, msg, seen.current.value),
          Force(c, Wanted(h.file, msg, seen.current.value)), seen)
  }

  /** Whether the host is idle, has given up or is about to make an attempt. */
  function Verdict(c: Settings, attempts: int, probe: nat): Kind {
    if probe == 0 then Ok else if attempts >= c.maxAttempts then Failed else Converging
  }

  /** The desired configuration is written and the verdict sent. A status that could not be sent is not in
      the log, and its exception ends the call. */
  function Announce(c: Settings, h: Host, current: Apps, desired: Apps, probe: nat, sendRaises: bool): Host {
    var h1 := h.(file := Some(desired)).Emit(Saved(desired));
    if sendRaises then h1
    else h1.Emit(Status(Verdict(c, h.attempts, probe), current, if probe == 0 then None else Some(desired)))
  }

  /** What follows a probe that did not raise. */
  function Settle(c: Settings, h: Host, current: Apps, desired: Apps, seen: Seen): Host
    requires seen.probe.Some?
  {
    var h1 := Announce(c, h, current, desired, seen.probe.value, seen.sendRaises);
    if seen.sendRaises || !Verdict(c, h.attempts, seen.probe.value).Converging? then h1
    else Attempt(c, h1, desired, seen)
  }

  /** One converge attempt. */
  function Attempt(c: Settings, h: Host, desired: Apps, seen: Seen): Host {
    hide LogAllowed, DigestOf, Force, Truthy, Satisfies;
    var h1 := h.(attempts := h.attempts + 1);
    var h2 := if h1.attempts == c.maxAttempts then h1.Emit(Bundle(true)) else h1;
    if h1.attempts == c.maxAttempts && seen.bundleRaises then h2
    else Report(c, h2.Emit(RealRun(desired)), desired, seen)
  }

  /** What is reported after a real run: nothing if an exception got out, or if the probe saw no change
      left although the declarative test disagrees, which ends in a failed assertion. */
  function Report(c: Settings, h: Host, desired: Apps, seen: Seen): Host {
    if seen.runEscapes || seen.after.None? || seen.afterProbe.None? || seen.reportRaises then h
    else if seen.afterProbe.value != 0 then
      h.Emit(Status(if h.attempts >= c.maxAttempts then Failed else Retrying, seen.after.value, Some(desired)))
    else if Satisfies(desired, seen.after.value) then h.Emit(Status(Ok, seen.after.value, None))
    else h
  }

  function Step(c: Settings, h: Host, input: Input): Host {
    match input
    case Deliver(msg, seen) => Handle(c, h, msg, seen)
    case Restart => h.(attempts := 0).Emit(NewSession)
  }

  function After(c: Settings, h: Host, inputs: seq<Input>): Host {
    if inputs == [] then h
    else Step(c, After(c, h, inputs[..|inputs| - 1]), inputs[|inputs| - 1])
  }

  /** A message that asks for the configuration to be applied. */
  lemma HandleConverges(c: Settings, h: Host, msg: Message, seen: Seen)
    requires Converges(msg) && seen.current.Some?
    ensures var h1 := if msg.SetConfig? then h.(attempts := 0).Emit(NewConfig) else h;
      Handle(c, h, msg, seen) ==
        if seen.probe.None? then h1
        else Settle(c, h1, CurrentThen(c, h.file, msg, seen.current.value),
          Force(c, Wanted(h.file, msg, seen.current.value)), seen)
  {
    hide Settle, Force;
  }

  // ---------- what exactly a message leads to ----------

  /** What a ping, a heartbeat or a new configuration leads to once the current configuration has been
      read, the probe has counted n changes and the first status could be sent. The configuration wanted is
      the one that came, else the one on disk, else the current one, with pf9-comms forced. It is saved.
      Then, with no change to make, ok is sent and nothing is run; with changes to make and no attempt left,
      failed is sent and nothing is run; else converging is sent and a run is made. In the last attempt a
      support bundle comes before the run, and instead of it if sending the bundle raises. The report after
      the run says what the second probe found, and is left out only if something raised on the way to it. */
  lemma MessageIsAnswered(c: Settings, h: Host, msg: Message, seen: Seen, n: nat, current: Apps)
    requires msg.Ping? || msg.Heartbeat? || msg.SetConfig?
    requires seen.current == Some(current) && seen.probe == Some(n) && !seen.sendRaises
    ensures var h' := Step(c, h, Deliver(msg, seen));
      var a := if msg.SetConfig? then 0 else h.attempts;
      var wanted := Force(c, if msg.SetConfig? then msg.data else if h.file.Some? then h.file.value else current);
      var told := if !msg.SetConfig? && h.file.None? then wanted else current;
      var begun := h.log + (if msg.SetConfig? then [NewConfig] else []) + [Saved(wanted)];
      var announced := begun + [Status(Converging, told, Some(wanted))];
      var ran := announced + (if a + 1 == c.maxAttempts then [Bundle(true)] else []) + [RealRun(wanted)];
      && h'.file == Some(wanted)
      && (n == 0 ==> h'.attempts == a && h'.log == begun + [Status(Ok, told, None)])
      && (n > 0 && a >= c.maxAttempts ==> h'.attempts == a && h'.log == begun + [Status(Failed, told, Some(wanted))])
      && (n > 0 && a < c.maxAttempts ==>
            && h'.attempts == a + 1
            && h'.log ==
               if a + 1 == c.maxAttempts && seen.bundleRaises then announced + [Bundle(true)]
               else if seen.runEscapes || seen.after.None? || seen.afterProbe.None? || seen.reportRaises then ran
               else if seen.afterProbe.value > 0 then
                 ran + [Status(if a + 1 == c.maxAttempts then Failed else Retrying, seen.after.value, Some(wanted))]
               else if Satisfies(wanted, seen.after.value) then ran + [Status(Ok, seen.after.value, None)]
               else ran)
  {
    hide Force, Satisfies, Attempt, Report;
    var h0 := if msg.SetConfig? then h.(attempts := 0).Emit(NewConfig) else h;
    var wanted := Force(c, if msg.SetConfig? then msg.data else if h.file.Some? then h.file.value else current);
    var told := if !msg.SetConfig? && h.file.None? then wanted else current;
    assert h.log + [] == h.log;
    var h1 := h0.(file := Some(wanted)).Emit(Saved(wanted)).Emit(Status(Converging, told, Some(wanted)));
    AttemptIsMade(c, h1, wanted, seen);
  }

  lemma AttemptIsMade(c: Settings, h: Host, wanted: Apps, seen: Seen)
    ensures var ran := h.log + (if h.attempts + 1 == c.maxAttempts then [Bundle(true)] else []) + [RealRun(wanted)];
      var h' := Attempt(c, h, wanted, seen);
      && h'.attempts == h.attempts + 1 && h'.file == h.file
      && h'.log ==
         if h.attempts + 1 == c.maxAttempts && seen.bundleRaises then h.log + [Bundle(true)]
         else if seen.runEscapes || seen.after.None? || seen.afterProbe.None? || seen.reportRaises then ran
         else if seen.afterProbe.value > 0 then
           ran + [Status(if h.attempts + 1 >= c.maxAttempts then Failed else Retrying, seen.after.value, Some(wanted))]
         else if Satisfies(wanted, seen.after.value) then ran + [Status(Ok, seen.after.value, None)]
         else ran
  {
    hide Satisfies;
    assert h.log + [] == h.log;
  }

  /** All other cases: an exception before the first status leaves at most the fresh start of a new
      configuration or the saved configuration behind; other messages change nothing but the log. */
  lemma MessageIsCutShort(c: Settings, h: Host, msg: Message, seen: Seen)
    ensures var h' := Step(c, h, Deliver(msg, seen));
      var reset := if msg.SetConfig? then Host(0, h.file, h.log + [NewConfig]) else h;
      && (seen.current.None? && !msg.GetSupport? ==> h' == h)
      && (msg.Exit? || msg.SupportCommand? || msg.UpdateCert? || msg.Unknown? ==> h' == h)
      && (msg.GetSupport? ==> h' == Host(h.attempts, h.file, h.log + [Bundle(false)]))
      && (msg.SetAgent? && seen.current.Some? ==>
            h' == if seen.sendRaises then h
                  else Host(h.attempts, h.file, h.log + [Status(Ok, seen.current.value,
                    Some(if h.file.Some? then h.file.value else seen.current.value))]))
      && ((msg.Ping? || msg.Heartbeat? || msg.SetConfig?) && seen.current.Some? && seen.probe.None? ==> h' == reset)
      && ((msg.Ping? || msg.Heartbeat? || msg.SetConfig?) && seen.current.Some? && seen.probe.Some? && seen.sendRaises ==>
            var wanted := Force(c, if msg.SetConfig? then msg.data else if h.file.Some? then h.file.value
                                   else seen.current.value);
            h' == Host(reset.attempts, Some(wanted), reset.log + [Saved(wanted)]))
  {
    hide Force;
  }

  // ---------- what the log may contain ----------

  /** Everything about a log that the rules below refer to, counted since the last new configuration or
      session: the attempts announced, the real runs, the automatic bundles, the runs after a bundle, the
      configuration on disk, and whether it has been run since it was written. */
  datatype Digest = Digest(tries: nat, runs: nat, bundles: nat, late: nat, saved: Option<Apps>, ran: bool)

  function Feed(d: Digest, e: Event): Digest {
    match e
    case NewSession => Digest(0, 0, 0, 0, d.saved, false)
    case NewConfig => Digest(0, 0, 0, 0, d.saved, false)
    case Saved(config) => d.(saved := Some(config), ran := false)
    case Bundle(automatic) => if automatic then d.(bundles := d.bundles + 1) else d
    case RealRun(_) => d.(runs := d.runs + 1, late := if d.bundles > 0 then d.late + 1 else 0, ran := true)
    case Status(kind, _, _) => if kind.Converging? then d.(tries := d.tries + 1) else d
  }

  function DigestOf(log: seq<Event>): Digest {
    if log == [] then Digest(0, 0, 0, 0, None, false)
    else Feed(DigestOf(log[..|log| - 1]), log[|log| - 1])
  }

  /** The rules: a real run only in an announced attempt within the limit, in the last one only after the
      support bundle, at most one after it, always of the configuration on disk and with pf9-comms forced;
      one automatic bundle, in the last attempt; a success that is reported after a run is one; failure is
      reported exactly when no attempt is left, and otherwise that the host retries. */
  predicate Allowed(c: Settings, d: Digest, e: Event) {
    match e
    case RealRun(target) =>
      && d.runs < d.tries <= c.maxAttempts
      && d.bundles == (if d.tries == c.maxAttempts then 1 else 0) && d.late == 0
      && d.saved == Some(target) && Force(c, target) == target
    case Bundle(automatic) => automatic ==> d.bundles == 0 && d.tries == c.maxAttempts
    case Status(kind, apps, wanted) =>
      (match kind
       case Ok => wanted.None? ==> d.saved.Some? && (d.ran ==> Satisfies(d.saved.value, apps))
       case Converging => d.tries < c.maxAttempts && d.saved.Some? && wanted == d.saved
       case Retrying => d.ran && d.tries < c.maxAttempts && d.saved.Some? && wanted == d.saved
       case Failed => d.tries >= c.maxAttempts && d.saved.Some? && wanted == d.saved)
    case NewSession => true
    case NewConfig => true
    case Saved(config) => Force(c, config) == config
  }

  ghost predicate LogAllowed(c: Settings, log: seq<Event>) {
    forall j :: 0 <= j < |log| ==> Allowed(c, DigestOf(log[..j]), log[j])
  }

  /** What holds between two messages: the attempts are the announced ones, the automatic bundle has been
      sent exactly if they are used up, and every attempt but possibly the last has made its run. */
  ghost predicate Between(c: Settings, h: Host) {
    var d := DigestOf(h.log);
    && LogAllowed(c, h.log)
    && d.tries == h.attempts <= (if c.maxAttempts > 0 then c.maxAttempts else 0)
    && d.runs <= d.tries && (d.runs < d.tries ==> d.runs + 1 == d.tries == c.maxAttempts)
    && d.bundles == (if d.tries > 0 && d.tries == c.maxAttempts then 1 else 0)
    && d.late <= d.bundles
    && (d.saved.Some? ==> h.file == d.saved)
  }

  lemma EmitAllowed(c: Settings, h: Host, e: Event)
    requires LogAllowed(c, h.log) && Allowed(c, DigestOf(h.log), e)
    ensures LogAllowed(c, h.Emit(e).log)
    ensures DigestOf(h.Emit(e).log) == Feed(DigestOf(h.log), e)
  {
    var log := h.log + [e];
    assert log[..|log| - 1] == h.log;
    forall j | 0 <= j < |log| ensures Allowed(c, DigestOf(log[..j]), log[j]) {
      if j < |h.log| {
        assert log[..j] == h.log[..j];
      }
    }
  }

  /** One attempt, from its announcement on. */
  lemma AttemptKeeps(c: Settings, h: Host, current: Apps, desired: Apps, seen: Seen)
    requires Between(c, h) && h.attempts < c.maxAttempts
    requires DigestOf(h.log).saved == Some(desired) == h.file && Force(c, desired) == desired
    ensures Between(c, Attempt(c, h.Emit(Status(Converging, current, Some(desired))), desired, seen))
  {
    hide LogAllowed, DigestOf, Force, Truthy, Satisfies;
    var announce := Status(Converging, current, Some(desired));
    EmitAllowed(c, h, announce);
    var h1 := h.Emit(announce).(attempts := h.attempts + 1);
    var h2 := if h1.attempts == c.maxAttempts then h1.Emit(Bundle(true)) else h1;
    if h1.attempts == c.maxAttempts {
      EmitAllowed(c, h1, Bundle(true));
    }
    EmitAllowed(c, h2, RealRun(desired));
    var h3 := h2.Emit(RealRun(desired));
    ReportKeeps(c, h3, desired, seen);
  }

  lemma ReportKeeps(c: Settings, h: Host, desired: Apps, seen: Seen)
    requires Between(c, h) && h.file == Some(desired) && DigestOf(h.log).saved == Some(desired) && DigestOf(h.log).ran
    ensures Between(c, Report(c, h, desired, seen))
  {
    hide LogAllowed, DigestOf, Force, Truthy, Satisfies;
    if !seen.runEscapes && seen.after.Some? && seen.afterProbe.Some? && !seen.reportRaises {
      if seen.afterProbe.value != 0 {
        EmitAllowed(c, h, Status(if h.attempts >= c.maxAttempts then Failed else Retrying, seen.after.value, Some(desired)));
      } else if Satisfies(desired, seen.after.value) {
        EmitAllowed(c, h, Status(Ok, seen.after.value, None));
      }
    }
  }

  lemma HandleKeeps(c: Settings, h: Host, msg: Message, seen: Seen)
    requires Between(c, h)
    ensures Between(c, Handle(c, h, msg, seen))
  {
    hide LogAllowed, DigestOf, Force, Truthy, Satisfies, Attempt;
    if msg.GetSupport? {
      EmitAllowed(c, h, Bundle(false));
    } else if msg.SetAgent? && seen.current.Some? && !seen.sendRaises {
      EmitAllowed(c, h, Status(Ok, seen.current.value, Some(Wanted(h.file, msg, seen.current.value))));
    } else if Converges(msg) && seen.current.Some? {
      var h1 := if msg.SetConfig? then h.(attempts := 0).Emit(NewConfig) else h;
      if msg.SetConfig? {
        EmitAllowed(c, h.(attempts := 0), NewConfig);
      }
      if seen.probe.Some? {
        var current := CurrentThen(c, h.file, msg, seen.current.value);
        var desired := Force(c, Wanted(h.file, msg, seen.current.value));
        ForceTwice(c, Wanted(h.file, msg, seen.current.value));
        EmitAllowed(c, h1.(file := Some(desired)), Saved(desired));
        var h2 := h1.(file := Some(desired)).Emit(Saved(desired));
        if seen.sendRaises {
        } else if seen.probe.value == 0 {
          EmitAllowed(c, h2, Status(Ok, current, None));
        } else if h2.attempts >= c.maxAttempts {
          EmitAllowed(c, h2, Status(Failed, current, Some(desired)));
        } else {
          AttemptKeeps(c, h2, current, desired, seen);
        }
      }
    }
  }

  lemma {:induction false} AfterKeeps(c: Settings, h: Host, inputs: seq<Input>)
    requires Between(c, h)
    ensures Between(c, After(c, h, inputs))
  {
    if inputs != [] {
      var before := After(c, h, inputs[..|inputs| - 1]);
      AfterKeeps(c, h, inputs[..|inputs| - 1]);
      match inputs[|inputs| - 1]
      case Deliver(msg, seen) => HandleKeeps(c, before, msg, seen);
      case Restart => EmitAllowed(c, before.(attempts := 0), NewSession);
    }
  }

  // ---------- the limits, stated on stretches of the log ----------

  predicate Resets(e: Event) {
    e.NewSession? || e.NewConfig?
  }

  function RunsIn(log: seq<Event>): nat {
    if log == [] then 0
    else RunsIn(log[..|log| - 1]) + if log[|log| - 1].RealRun? then 1 else 0
  }

  function BundlesIn(log: seq<Event>): nat {
    if log == [] then 0
    else BundlesIn(log[..|log| - 1]) + if log[|log| - 1] == Bundle(true) then 1 else 0
  }

  lemma {:induction false} StretchCounts(log: seq<Event>, i: nat, j: nat)
    requires i <= j <= |log| && forall k :: i <= k < j ==> !Resets(log[k])
    ensures RunsIn(log[i..j]) <= DigestOf(log[..j]).runs
    ensures BundlesIn(log[i..j]) <= DigestOf(log[..j]).bundles
    decreases j
  {
    if i < j {
      StretchCounts(log, i, j - 1);
      assert log[i..j][..j - i - 1] == log[i..j - 1];
      assert log[..j][..j - 1] == log[..j - 1];
    }
  }

  lemma {:induction false} LateCounts(log: seq<Event>, i: nat, j: nat)
    requires i < j <= |log| && log[i] == Bundle(true)
    requires forall k :: i <= k < j ==> !Resets(log[k])
    ensures DigestOf(log[..j]).bundles > 0
    ensures RunsIn(log[i..j]) <= DigestOf(log[..j]).late
    decreases j
  {
    hide DigestOf, RunsIn;
    OneMoreEvent(log, i, j);
    if i == j - 1 {
      assert RunsIn(log[i..j - 1]) == 0;
    } else {
      LateCounts(log, i, j - 1);
    }
  }

  lemma OneMoreEvent(log: seq<Event>, i: nat, j: nat)
    requires i < j <= |log|
    ensures DigestOf(log[..j]) == Feed(DigestOf(log[..j - 1]), log[j - 1])
    ensures RunsIn(log[i..j]) == RunsIn(log[i..j - 1]) + if log[j - 1].RealRun? then 1 else 0
    ensures i == j - 1 ==> RunsIn(log[i..j - 1]) == 0
  {
    assert log[..j][..j - 1] == log[..j - 1];
    assert log[i..j][..j - i - 1] == log[i..j - 1];
  }

  lemma {:induction false} DigestWithin(c: Settings, log: seq<Event>)
    requires LogAllowed(c, log)
    ensures var d := DigestOf(log);
      d.runs <= d.tries <= (if c.maxAttempts > 0 then c.maxAttempts else 0) && d.bundles <= 1 && d.late <= 1
  {
    if log != [] {
      var n := |log| - 1;
      forall j | 0 <= j < n ensures Allowed(c, DigestOf(log[..n][..j]), log[..n][j]) {
        assert log[..n][..j] == log[..j];
      }
      DigestWithin(c, log[..n]);
      assert Allowed(c, DigestOf(log[..n]), log[n]);
    }
  }

  /** From the start of a session on, and in any stretch of it without a new configuration, the agent makes
      at most maxAttempts real runs and sends at most one automatic support bundle, and at most one real
      run follows that bundle. */
  lemma AttemptsAreLimited(c: Settings, file: Option<Apps>, inputs: seq<Input>, i: nat, j: nat)
    requires i <= j <= |After(c, Host(0, file, []), inputs).log|
    requires forall k :: i <= k < j ==> !Resets(After(c, Host(0, file, []), inputs).log[k])
    ensures var stretch := After(c, Host(0, file, []), inputs).log[i..j];
      && RunsIn(stretch) <= (if c.maxAttempts > 0 then c.maxAttempts else 0)
      && BundlesIn(stretch) <= 1
      && (stretch != [] && stretch[0] == Bundle(true) ==> RunsIn(stretch) <= 1)
  {
    var log := After(c, Host(0, file, []), inputs).log;
    AfterKeeps(c, Host(0, file, []), inputs);
    forall k | 0 <= k < j ensures Allowed(c, DigestOf(log[..j][..k]), log[..j][k]) {
      assert log[..j][..k] == log[..k];
    }
    DigestWithin(c, log[..j]);
    StretchCounts(log, i, j);
    if i < j && log[i] == Bundle(true) {
      LateCounts(log, i, j);
    }
  }

  lemma {:induction false} RunsAppend(a: seq<Event>, b: seq<Event>)
    ensures RunsIn(a + b) == RunsIn(a) + RunsIn(b)
    ensures BundlesIn(a + b) == BundlesIn(a) + BundlesIn(b)
  {
    if b == [] {
      assert a + b == a;
    } else {
      var n := |b| - 1;
      RunsAppend(a, b[..n]);
      assert (a + b)[..|a + b| - 1] == a + b[..n];
    }
  }

  /** A ping or a heartbeat that finds changes to make while nothing raises. */
  predicate FindsChanges(input: Input) {
    && input.Deliver? && (input.msg.Ping? || input.msg.Heartbeat?)
    && input.seen.current.Some? && input.seen.probe.Some? && input.seen.probe.value > 0
    && !input.seen.sendRaises && !input.seen.bundleRaises
  }

  lemma OneMoreAttempt(c: Settings, h: Host, input: Input)
    requires FindsChanges(input)
    ensures var h' := Step(c, h, input);
      var more := if h.attempts < c.maxAttempts then 1 else 0;
      && h'.attempts == h.attempts + more
      && RunsIn(h'.log) == RunsIn(h.log) + more
      && BundlesIn(h'.log) == BundlesIn(h.log) + if h.attempts + 1 == c.maxAttempts then 1 else 0
  {
    hide Step, Satisfies, Force, RunsIn, BundlesIn;
    var h' := Step(c, h, input);
    MessageIsAnswered(c, h, input.msg, input.seen, input.seen.probe.value, input.seen.current.value);
    assert h.log <= h'.log;
    var gained := h'.log[|h.log|..];
    assert h'.log == h.log + gained;
    RunsAppend(h.log, gained);
    FewEvents(gained);
  }

  lemma FewEvents(log: seq<Event>)
    requires |log| <= 5
    ensures RunsIn(log) == RunAt(log, 0) + RunAt(log, 1) + RunAt(log, 2) + RunAt(log, 3) + RunAt(log, 4)
    ensures BundlesIn(log) == BundleAt(log, 0) + BundleAt(log, 1) + BundleAt(log, 2) + BundleAt(log, 3) + BundleAt(log, 4)
  {
    if log != [] {
      FewEvents(log[..|log| - 1]);
    }
  }

  function RunAt(log: seq<Event>, i: nat): nat {
    if i < |log| && log[i].RealRun? then 1 else 0
  }

  function BundleAt(log: seq<Event>, i: nat): nat {
    if i < |log| && log[i] == Bundle(true) then 1 else 0
  }

  /** The limit is also reached: while pings and heartbeats find changes to make and nothing raises, every
      one of them leads to a real run until all attempts are made, and none after that. */
  lemma {:induction false} EveryAttemptIsMade(c: Settings, h: Host, inputs: seq<Input>)
    requires h.attempts <= c.maxAttempts
    requires forall k :: 0 <= k < |inputs| ==> FindsChanges(inputs[k])
    ensures var h' := After(c, h, inputs);
      var made := if h.attempts + |inputs| <= c.maxAttempts then |inputs| else c.maxAttempts - h.attempts;
      && h'.attempts == h.attempts + made
      && RunsIn(h'.log) == RunsIn(h.log) + made
      && BundlesIn(h'.log) == BundlesIn(h.log) + if h.attempts < c.maxAttempts == h'.attempts then 1 else 0
  {
    hide Step, RunsIn, BundlesIn;
    if inputs != [] {
      var n := |inputs| - 1;
      EveryAttemptIsMade(c, h, inputs[..n]);
      OneMoreAttempt(c, After(c, h, inputs[..n]), inputs[n]);
    }
  }

  /** Once the attempts are used up, no message but a new configuration leads to a real run or to an
      automatic support bundle: the attempts stay used up and the log gains no such event. */
  lemma {:induction false} ExhaustedStaysIdle(c: Settings, h: Host, inputs: seq<Input>)
    requires h.attempts >= c.maxAttempts
    requires forall k :: 0 <= k < |inputs| ==> inputs[k].Deliver? && !inputs[k].msg.SetConfig?
    ensures var h' := After(c, h, inputs);
      && h'.attempts == h.attempts && h.log <= h'.log
      && forall k :: |h.log| <= k < |h'.log| ==> !h'.log[k].RealRun? && h'.log[k] != Bundle(true)
  {
    if inputs != [] {
      ExhaustedStaysIdle(c, h, inputs[..|inputs| - 1]);
      assert inputs[|inputs| - 1].Deliver?;
    }
  }

  /** Every real run is of the configuration that was persisted last, in which pf9-comms is forced to run,
      and a success reported after a run means that the reported applications satisfy it. */
  lemma RunsApplyThePersistedConfig(c: Settings, file: Option<Apps>, inputs: seq<Input>, k: nat)
    requires k < |After(c, Host(0, file, []), inputs).log|
    ensures var log := After(c, Host(0, file, []), inputs).log;
      && (log[k].RealRun? ==> DigestOf(log[..k]).saved == Some(log[k].target) && Force(c, log[k].target) == log[k].target)
      && (log[k].Status? && log[k].kind.Ok? && log[k].wanted.None? && DigestOf(log[..k]).ran ==>
            DigestOf(log[..k]).saved.Some? && Satisfies(DigestOf(log[..k]).saved.value, log[k].apps))
  {
    AfterKeeps(c, Host(0, file, []), inputs);
  }

  /** What the agent tells bbmaster about its progress is true: an attempt is announced only while one is
      left, the host claims to retry only after a run and while an attempt is left, and to have failed only
      when none is left; in all three cases it names the configuration on disk. */
  lemma ReportsAreTruthful(c: Settings, file: Option<Apps>, inputs: seq<Input>, k: nat)
    requires k < |After(c, Host(0, file, []), inputs).log|
    ensures var log := After(c, Host(0, file, []), inputs).log;
      var d := DigestOf(log[..k]);
      log[k].Status? && !log[k].kind.Ok? ==>
        && d.saved.Some? && log[k].wanted == d.saved
        && (log[k].kind.Failed? <==> d.tries >= c.maxAttempts)
        && (log[k].kind.Retrying? ==> d.ran)
  {
    AfterKeeps(c, Host(0, file, []), inputs);
  }

  /** Once the attempts are used up, the automatic support bundle has been sent exactly once. */
  lemma BundleIffExhausted(c: Settings, file: Option<Apps>, inputs: seq<Input>)
    requires c.maxAttempts > 0
    ensures var h := After(c, Host(0, file, []), inputs);
      && DigestOf(h.log).bundles == (if h.attempts == c.maxAttempts then 1 else 0)
      && (h.attempts < c.maxAttempts ==> DigestOf(h.log).runs == h.attempts)
  {
    AfterKeeps(c, Host(0, file, []), inputs);
  }

  // ---------- the persisted configuration ----------

  /** A message that gets as far as writing the desired configuration. */
  predicate Accepted(input: Input) {
    input.Deliver? && Converges(input.msg) && input.seen.current.Some? && input.seen.probe.Some?
  }

  predicate AcceptedConfig(input: Input) {
    Accepted(input) && input.msg.SetConfig?
  }

  lemma FileAfter(c: Settings, h: Host, input: Input)
    ensures Step(c, h, input).file ==
      if Accepted(input) then Some(Force(c, Wanted(h.file, input.msg, input.seen.current.value))) else h.file
  {
    hide Force;
  }

  /** The last accepted configuration is the one on disk, with pf9-comms forced, whatever came after. */
  lemma {:induction false} LastConfigPersists(c: Settings, h: Host, inputs: seq<Input>, k: nat)
    requires k < |inputs| && AcceptedConfig(inputs[k])
    requires forall j :: k < j < |inputs| ==> !AcceptedConfig(inputs[j])
    ensures After(c, h, inputs).file == Some(Force(c, inputs[k].msg.data))
  {
    var n := |inputs| - 1;
    if k < n {
      LastConfigPersists(c, h, inputs[..n], k);
      assert !AcceptedConfig(inputs[n]);
    }
  }

  /** With a configuration on disk and no accepted new one, that configuration stays, forced as soon as
      any message is accepted. */
  lemma {:induction false} StoredConfigPersists(c: Settings, h: Host, inputs: seq<Input>)
    requires h.file.Some? && forall j :: 0 <= j < |inputs| ==> !AcceptedConfig(inputs[j])
    ensures After(c, h, inputs).file ==
      if exists j :: 0 <= j < |inputs| && Accepted(inputs[j]) then Some(Force(c, h.file.value)) else h.file
  {
    if inputs != [] {
      var n := |inputs| - 1;
      StoredConfigPersists(c, h, inputs[..n]);
      assert !AcceptedConfig(inputs[n]);
      assert forall j :: 0 <= j < n ==> inputs[..n][j] == inputs[j];
    }
  }

  /** With nothing on disk and no accepted new configuration, the first observed configuration is adopted
      for good, forced. */
  lemma {:induction false} FirstObservationPersists(c: Settings, h: Host, inputs: seq<Input>, k: nat)
    requires h.file.None? && k < |inputs| && Accepted(inputs[k])
    requires forall j :: 0 <= j < k ==> !Accepted(inputs[j])
    requires forall j :: 0 <= j < |inputs| ==> !AcceptedConfig(inputs[j])
    ensures After(c, h, inputs).file == Some(Force(c, inputs[k].seen.current.value))
  {
    hide Step, Force;
    var n := |inputs| - 1;
    assert !AcceptedConfig(inputs[n]);
    FileAfter(c, After(c, h, inputs[..n]), inputs[n]);
    ForceTwice(c, inputs[k].seen.current.value);
    if k < n {
      FirstObservationPersists(c, h, inputs[..n], k);
    } else {
      NothingPersists(c, h, inputs[..n]);
    }
  }

  lemma {:induction false} NothingPersists(c: Settings, h: Host, inputs: seq<Input>)
    requires forall j :: 0 <= j < |inputs| ==> !Accepted(inputs[j])
    ensures After(c, h, inputs).file == h.file
  {
    if inputs != [] {
      NothingPersists(c, h, inputs[..|inputs| - 1]);
      assert !Accepted(inputs[|inputs| - 1]);
    }
  }

  /** Only an accepted message ever changes the configuration on disk. */
  lemma FileChangesOnlyWhenAccepted(c: Settings, h: Host, input: Input)
    ensures Step(c, h, input).file != h.file ==> Accepted(input)
    ensures Step(c, h, input).file != h.file && h.file.Some? && !AcceptedConfig(input) ==>
      Step(c, h, input).file == Some(Force(c, h.file.value))
  {
  }
}
