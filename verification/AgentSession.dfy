/** The session object of the host agent (session.py) on top of process_apps and of the application database. */
module AgentSession {
  import opened Wrappers
  import opened Json
  import opened AppsConfig
  import opened AppPlan
  import opened AppConvergence
  import opened AppProbe
  import opened MockApps
  import opened Algorithms
  import opened HostSession

  /** What a real run did: the order of the names, the actions carried out, and whether it then raised. */
  datatype Ran = Ran(order: Order, ops: seq<Op>, raised: bool)

  class Session {
    const settings: Settings
    const env: Packages
    const db: AppDb
    var attempts: int
    var file: Option<Apps>
    ghost var log: seq<Event>

    constructor (settings: Settings, env: Packages, db: AppDb, file: Option<Apps>)
      ensures this.settings == settings && this.env == env && this.db == db
      ensures State() == Host(0, file, [])
    {
      this.settings, this.env, this.db, this.file := settings, env, db, file;
      attempts, log := 0, [];
    }

    ghost function State(): Host
      reads this
    {
      Host(attempts, file, log)
    }

    ghost method Emit(e: Event)
      modifies this`log
      ensures State() == old(State()).Emit(e)
    {
      log := log + [e];
    }

    /** send_status, which may raise; the log records what was sent. */
    method SendStatus(kind: Kind, apps: Apps, wanted: Option<Apps>) returns (raises: bool)
      modifies this`log
      ensures State() == if raises then old(State()) else old(State()).Emit(Status(kind, apps, wanted))
    {
      raises := db.MayFail();
      if !raises {
        Emit(Status(kind, apps, wanted));
      }
    }

    /** get_current_config, which may raise. */
    method ReadCurrentConfig() returns (current: Option<Apps>)
      ensures current.Some? ==> current.value == CurrentConfig(db.Contents()) && AllReported(current.value)
    {
      SnapshotReported(db.Contents());
      var fails := db.MayFail();
      if fails {
        return None;
      }
      var config := db.GetCurrentConfig();
      return Some(config);
    }

    /** A probe of process_apps: the number of changes, None if it raised. */
    method Probed(current: Apps, desired: Apps) returns (probe: Option<nat>, ghost order: Order)
      requires db.Valid() && AllReported(current)
      modifies db, db.apps.Values
      ensures db.Valid() && OldOrFresh(db) && db.Contents() == old(db.Contents())
      ensures OrderOf(order, current, desired)
      ensures probe.Some? ==> probe == AppPlan.Probe(current, desired, false, order)
    {
      ghost var ops;
      var raised, changes;
      raised, changes, order, ops := ProcessApps(env, db, current, desired, false, true);
      return if raised then None else Some(changes), order;
    }

    /** One converge attempt of handle_msg. The last attempt sends a support bundle first. */
    method Converge(current: Apps, desired: Apps, ghost prior: Seen)
      returns (ghost seen: Seen, ghost ran: Option<Ran>, ghost last: Order)
      requires db.Valid() && AllReported(current)
      modifies this, db, db.apps.Values
      ensures db.Valid() && OldOrFresh(db)
      ensures seen.current == prior.current && seen.probe == prior.probe && seen.sendRaises == prior.sendRaises
      ensures State() == Attempt(settings, old(State()), desired, seen)
      ensures ran.None? ==> db.Contents() == old(db.Contents())
      ensures ran.None? <==> attempts == settings.maxAttempts && seen.bundleRaises
      ensures attempts == old(attempts) + 1
      ensures ran.Some? ==> RanOnce(env, ran.value, old(db.Contents()), db.Contents(), current, desired)
      ensures ProbedAfter(seen, last, db.Contents(), desired)
    {
      hide AllReported, OrderOf, AppDb.Valid, AppDb.Contents, CurrentConfig;
      hide Plan, AppPlan.Probe, AppPlan.Run, Satisfies, Enumerates, RanOnce, Report;
      attempts := attempts + 1;
      var bundleRaises := BundleIfLast();
      if bundleRaises {
        seen, ran, last := prior.(bundleRaises := true, after := None, afterProbe := None), None, Order([], [], []);
      } else {
        Emit(RealRun(desired));
        seen, ran, last := RunAndReport(current, desired, prior.(bundleRaises := false));
      }
    }

    /** process_support_request in the last attempt. */
    method BundleIfLast() returns (raises: bool)
      modifies this`log
      ensures State() == if attempts == settings.maxAttempts then old(State()).Emit(Bundle(true)) else old(State())
      ensures raises ==> attempts == settings.maxAttempts
    {
      raises := false;
      if attempts == settings.maxAttempts {
        Emit(Bundle(true));
        raises := db.MayFail();
      }
    }

    /** The real run, and the report that follows it. */
    method RunAndReport(current: Apps, desired: Apps, ghost prior: Seen)
      returns (ghost seen: Seen, ghost ran: Option<Ran>, ghost last: Order)
      requires db.Valid() && AllReported(current)
      modifies this`log, db, db.apps.Values
      ensures db.Valid() && OldOrFresh(db)
      ensures seen == prior.(runEscapes := seen.runEscapes, after := seen.after, afterProbe := seen.afterProbe,
        reportRaises := seen.reportRaises)
      ensures State() == Report(settings, old(State()), desired, seen)
      ensures ran.Some? && RanOnce(env, ran.value, old(db.Contents()), db.Contents(), current, desired)
      ensures ProbedAfter(seen, last, db.Contents(), desired)
    {
      hide Plan, AppPlan.Probe, AppPlan.Run, Satisfies, Enumerates;
      ghost var order, ops;
      var raised, changes;
      raised, changes, order, ops := ProcessApps(env, db, current, desired, false, false);
      ran := Some(Ran(order, ops, raised));
      var escapes := *;
      if raised && escapes {
        seen, last := prior.(runEscapes := true, after := None, afterProbe := None), order;
      } else {
        seen, last := Recheck(desired, prior.(runEscapes := false));
      }
    }

    /** Reading the configuration again, probing it, asserting the declarative test, and reporting. */
    method Recheck(desired: Apps, ghost prior: Seen) returns (ghost seen: Seen, ghost last: Order)
      requires db.Valid() && !prior.runEscapes
      modifies this`log, db, db.apps.Values
      ensures db.Valid() && OldOrFresh(db) && db.Contents() == old(db.Contents())
      ensures seen == prior.(after := seen.after, afterProbe := seen.afterProbe, reportRaises := seen.reportRaises)
      ensures State() == Report(settings, old(State()), desired, seen)
      ensures ProbedAfter(seen, last, db.Contents(), desired)
    {
      hide AllReported, OrderOf;
      hide AppPlan.Probe, Satisfies, Enumerates;
      seen, last := prior.(after := None, afterProbe := None), Order([], [], []);
      var after := ReadCurrentConfig();
      if after.None? {
        return;
      }
      var probe;
      probe, last := Probed(after.value, desired);
      seen := prior.(after := after, afterProbe := probe);
      if probe.Some? {
        var raises := SendResult(desired, after.value, probe.value);
        seen := seen.(reportRaises := raises);
      }
    }

    /** The report of a run that was probed again: nothing if the declarative test disagrees with the probe. */
    method SendResult(desired: Apps, after: Apps, probe: nat) returns (raises: bool)
      modifies this`log
      ensures forall seen: Seen | !seen.runEscapes && seen.after == Some(after) && seen.afterProbe == Some(probe) &&
        seen.reportRaises == raises :: State() == Report(settings, old(State()), desired, seen)
    {
      raises := false;
      if probe != 0 {
        raises := SendStatus(if attempts >= settings.maxAttempts then Failed else Retrying, after, Some(desired));
      } else {
        var satisfied := IsSatisfiedBy(Some(desired), after);
        if satisfied {
          raises := SendStatus(Ok, after, None);
        }
      }
    }

    /** handle_msg. */
    method HandleMsg(msg: Message)
      returns (ghost seen: Seen, ghost first: Order, ghost ran: Option<Ran>, ghost last: Order)
      requires db.Valid()
      modifies this, db, db.apps.Values
      ensures db.Valid() && OldOrFresh(db)
      ensures State() == Handle(settings, old(State()), msg, seen)
      ensures ProbedBefore(seen, first, old(db.Contents()), old(file), msg)
      ensures ran.Some? <==> RunDue(settings, old(attempts), msg, seen)
      ensures ran.None? ==> db.Contents() == old(db.Contents())
      ensures ran.Some? ==> seen.current.Some? && RanOnce(env, ran.value, old(db.Contents()), db.Contents(),
        CurrentThen(settings, old(file), msg, seen.current.value),
        Force(settings, Wanted(old(file), msg, seen.current.value)))
      ensures ran.Some? ==>
        ProbedAfter(seen, last, db.Contents(), Force(settings, Wanted(old(file), msg, seen.current.value)))
    {
      hide AppPlan.Probe, Plan, AppPlan.Run, HostSession.Settle, Force, RanOnce, ProbedAfter, CurrentThen;
      ran, first, last := None, Order([], [], []), Order([], [], []);
      seen := Seen(None, None, false, false, false, None, None, false);
      if msg.GetSupport? {
        Emit(Bundle(false));
        return;
      }
      if !Converges(msg) && !msg.SetAgent? {
        return;
      }
      var current := ReadCurrentConfig();
      if current.None? {
        return;
      }
      if msg.SetAgent? {
        var raises := SendStatus(Ok, current.value, Some(Wanted(file, msg, current.value)));
        seen := seen.(current := current, sendRaises := raises);
        return;
      }
      seen, first, ran, last := ConvergeOn(msg, current.value);
    }

    /** handle_msg for a ping, a heartbeat or a new configuration, once the current one has been read. */
    method ConvergeOn(msg: Message, current: Apps)
      returns (ghost seen: Seen, ghost first: Order, ghost ran: Option<Ran>, ghost last: Order)
      requires db.Valid() && Converges(msg) && current == CurrentConfig(db.Contents()) && AllReported(current)
      modifies this, db, db.apps.Values
      ensures db.Valid() && OldOrFresh(db)
      ensures seen.current == Some(current)
      ensures State() == Handle(settings, old(State()), msg, seen)
      ensures ProbedBefore(seen, first, old(db.Contents()), old(file), msg)
      ensures ran.Some? <==> RunDue(settings, old(attempts), msg, seen)
      ensures ran.None? ==> db.Contents() == old(db.Contents())
      ensures ran.Some? ==> RanOnce(env, ran.value, old(db.Contents()), db.Contents(),
        CurrentThen(settings, old(file), msg, current), Force(settings, Wanted(old(file), msg, current)))
      ensures ran.Some? ==> ProbedAfter(seen, last, db.Contents(), Force(settings, Wanted(old(file), msg, current)))
    {
      hide AllReported, OrderOf, AppDb.Valid, AppDb.Contents, CurrentConfig;
      hide AppPlan.Probe, Plan, AppPlan.Run, HostSession.Settle, Force, RanOnce, ProbedAfter, Enumerates, Handle;
      ran, last := None, Order([], [], []);
      seen := Seen(Some(current), None, false, false, false, None, None, false);
      var wanted := if msg.SetConfig? then msg.data else if file.Some? then file.value else current;
      var shared := file.None? && !msg.SetConfig?;
      if msg.SetConfig? {
        attempts := 0;
        Emit(NewConfig);
      }
      var probe;
      probe, first := Probed(current, wanted);
      seen := seen.(probe := probe);
      if probe.Some? {
        ForcedReported(settings, current);
        var desired := Force(settings, wanted);
        seen, ran, last := Settle(if shared then desired else current, desired, probe.value, seen);
      }
      HandleConverges(settings, old(State()), msg, seen);
    }

    /** What follows a probe that did not raise. */
    method Settle(current: Apps, desired: Apps, probe: nat, ghost prior: Seen)
      returns (ghost seen: Seen, ghost ran: Option<Ran>, ghost last: Order)
      requires db.Valid() && AllReported(current) && prior.probe == Some(probe)
      modifies this, db, db.apps.Values
      ensures db.Valid() && OldOrFresh(db)
      ensures seen.current == prior.current && seen.probe == prior.probe
      ensures State() == HostSession.Settle(settings, old(State()), current, desired, seen)
      ensures ran.Some? <==>
        && !seen.sendRaises && probe > 0 && old(attempts) < settings.maxAttempts
        && (old(attempts) + 1 == settings.maxAttempts ==> !seen.bundleRaises)
      ensures ran.None? ==> db.Contents() == old(db.Contents())
      ensures ran.Some? ==> RanOnce(env, ran.value, old(db.Contents()), db.Contents(), current, desired)
      ensures ran.Some? ==> ProbedAfter(seen, last, db.Contents(), desired)
    {
      hide AllReported, OrderOf;
      hide AppPlan.Probe, Plan, AppPlan.Run, HostSession.Attempt, RanOnce, ProbedAfter, HostSession.Announce;
      var goesOn;
      goesOn, seen := Announce(current, desired, probe, prior);
      if goesOn {
        seen, ran, last := Converge(current, desired, seen);
      } else {
        ran, last := None, Order([], [], []);
      }
    }

    /** The desired configuration is written and the verdict sent. */
    method Announce(current: Apps, desired: Apps, probe: nat, ghost prior: Seen) returns (goesOn: bool, ghost seen: Seen)
      modifies this`file, this`log
      ensures seen == prior.(sendRaises := seen.sendRaises)
      ensures State() == HostSession.Announce(settings, old(State()), current, desired, probe, seen.sendRaises)
      ensures goesOn <==> !seen.sendRaises && Verdict(settings, attempts, probe).Converging?
    {
      file := Some(desired);
      Emit(Saved(desired));
      var kind := if probe == 0 then Ok else if attempts >= settings.maxAttempts then Failed else Converging;
      var raises := SendStatus(kind, current, if probe == 0 then None else Some(desired));
      seen := prior.(sendRaises := raises);
      goesOn := !raises && kind.Converging?;
    }
  }

  /** When a message makes process_apps run for real. */
  predicate RunDue(c: Settings, attempts: int, msg: Message, seen: Seen) {
    var before := if msg.SetConfig? then 0 else attempts;
    && (msg.Ping? || msg.Heartbeat? || msg.SetConfig?)
    && seen.current.Some? && seen.probe.Some? && seen.probe.value > 0 && !seen.sendRaises
    && before < c.maxAttempts
    && (before + 1 == c.maxAttempts ==> !seen.bundleRaises)
  }

  lemma ForcedReported(c: Settings, current: Apps)
    requires AllReported(current)
    ensures AllReported(Force(c, current))
  {
  }

  /** What was seen first is the state of the table, and the probe counted its changes. */
  ghost predicate ProbedBefore(seen: Seen, first: Order, t: Table, file: Option<Apps>, msg: Message) {
    && (seen.current.Some? ==> seen.current.value == CurrentConfig(t) && AllReported(seen.current.value))
    && (seen.probe.Some? ==>
          seen.current.Some? &&
          var wanted := Wanted(file, msg, seen.current.value);
          OrderOf(first, seen.current.value, wanted) &&
          seen.probe == AppPlan.Probe(seen.current.value, wanted, false, first))
  }

  /** A real run carried out a part of its plan, the whole of it if it did not raise, and left the table
      that these actions lead to. */
  ghost predicate RanOnce(env: Packages, ran: Ran, before: Table, after: Table, current: Apps, desired: Apps) {
    && AllReported(current) && OrderOf(ran.order, current, desired)
    && ran.ops <= Plan(env, current, desired, false, ran.order)
    && (!ran.raised ==> ran.ops == Plan(env, current, desired, false, ran.order))
    && AppPlan.Run(before, ran.ops) == Some(after)
  }

  /** What was seen after the run is the state of the table, and the probe counted its changes. */
  ghost predicate ProbedAfter(seen: Seen, last: Order, t: Table, desired: Apps) {
    && (seen.after.Some? ==> seen.after.value == CurrentConfig(t) && AllReported(seen.after.value))
    && (seen.afterProbe.Some? ==>
          seen.after.Some? && OrderOf(last, seen.after.value, desired) &&
          seen.afterProbe == AppPlan.Probe(seen.after.value, desired, false, last))
  }

  /** The assertion at the end of handle_msg cannot fail for plain specifications: if no change is left,
      the reported applications satisfy the desired configuration, and a success is reported. */
  lemma AssertionHolds(c: Settings, h: Host, seen: Seen, last: Order, t: Table, desired: Apps)
    requires ProbedAfter(seen, last, t, desired) && !seen.runEscapes && seen.afterProbe == Some(0)
    requires forall n :: n in desired && n in seen.after.value ==> PlainFor(desired[n], seen.after.value[n])
    ensures Satisfies(desired, seen.after.value)
    ensures Report(c, h, desired, seen) == if seen.reportRaises then h else h.Emit(Status(Ok, CurrentConfig(t), None))
  {
    ProbeZeroIffSatisfied(seen.after.value, desired, last);
  }

  /** The real run of one message that does not raise brings the configuration about, from any state of the
      host: exactly the specified applications, with their services and configurations, and with their
      versions exactly where they had them before or the package has them. The probe after it counts no
      change exactly if all versions are right and the configuration is list-free. */
  lemma OneRunConverges(env: Packages, ran: Ran, seen: Seen, last: Order, t: Table, t': Table, desired: Apps)
    requires RanOnce(env, ran, t, t', CurrentConfig(t), desired) && !ran.raised
    requires ProbedAfter(seen, last, t', desired) && seen.afterProbe.Some?
    ensures t'.Keys == desired.Keys
    ensures forall n :: n in desired ==>
      && Served(n, desired[n], t'[n]) && Configured(desired[n], t'[n])
      && (Versioned(desired[n], t'[n]) <==> VersionRight(env, n, desired[n], ViewOf(t, n)))
    ensures seen.afterProbe == Some(0) <==>
      forall n :: n in desired ==> VersionRight(env, n, desired[n], ViewOf(t, n)) && ListFreeConfig(desired[n])
  {
    hide Plan, AppPlan.Probe, AppPlan.Run, Served, Configured, Versioned, VersionRight, ListFreeConfig;
    RunReachesDesired(env, t, t', desired, false, ran.order);
    ProbeAfterRun(env, t, t', desired, ran.order, last);
  }
}
