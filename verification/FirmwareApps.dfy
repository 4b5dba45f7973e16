/** Firmware applications: bbmaster adds them to what is pushed to a host and hides them from what is
    reported (pf9_firmware_apps.py, pf9_comms.py, pf9_muster.py, bbone_provider_pf9_pika.py). */
module FirmwareApps {
  import opened Wrappers
  import opened Json
  import opened AppsConfig
  import HostSession

  const COMMS := "pf9-comms"
  const MUSTER := "pf9-muster"

  /** The kind of deployment, and the specifications of its firmware applications. */
  datatype Site = Site(isDdu: bool, isIsv: bool, specs: map<string, map<string, Json>>)

  function FirmwareNames(site: Site): set<string> {
    if site.isDdu then {COMMS} else {COMMS, MUSTER}
  }

  predicate ValidSite(site: Site) {
    FirmwareNames(site) <= site.specs.Keys
  }

  /** Each firmware module decides whether its application is inserted: pf9-muster is not on an ISV site. */
  predicate Inserts(site: Site, name: string) {
    name in FirmwareNames(site) && (name == MUSTER ==> !site.isIsv)
  }

  function WithFirmware(site: Site, apps: Apps): Apps
    requires ValidSite(site)
  {
    apps + map n | n in FirmwareNames(site) && Inserts(site, n) :: site.specs[n]
  }

  function WithoutFirmware(site: Site, apps: Apps): Apps {
    apps - FirmwareNames(site)
  }

  /** Which applications these are: pf9-comms is inserted on every site, pf9-muster on all but DDU and ISV sites,
      whatever the configuration says of them, and the rest of it is kept. */
  lemma FirmwareInserted(site: Site, apps: Apps)
    requires ValidSite(site)
    ensures var r := WithFirmware(site, apps);
      && (forall n :: n in r <==> n in apps || n == "pf9-comms" || (n == "pf9-muster" && !site.isDdu && !site.isIsv))
      && r["pf9-comms"] == site.specs["pf9-comms"]
      && (!site.isDdu && !site.isIsv ==> r["pf9-muster"] == site.specs["pf9-muster"])
      && forall n :: n in apps && n != "pf9-comms" && (n != "pf9-muster" || site.isDdu || site.isIsv) ==> r[n] == apps[n]
  {
    var added := map n | n in FirmwareNames(site) && Inserts(site, n) :: site.specs[n];
    assert "pf9-comms" in added;
    assert "pf9-muster" in added <==> !site.isDdu && !site.isIsv;
  }

  /** On a DDU site pf9-comms is hidden from what is served, and on any other, an ISV site included, pf9-muster
      as well. */
  lemma FirmwareHidden(site: Site, r: Report)
    ensures Served(site, r) == Report(r.id, r.status, Shown(site.isDdu, r.apps), Shown(site.isDdu, r.desiredApps))
  {
    HiddenFrom(site, r.apps);
    HiddenFrom(site, r.desiredApps);
  }

  lemma HiddenFrom(site: Site, apps: Option<Apps>)
    ensures Without(FirmwareNames(site), apps) == Shown(site.isDdu, apps)
  {
    if apps.Some? {
      assert apps.value - FirmwareNames(site) == Shown(site.isDdu, apps).value;
    }
  }

  function Shown(isDdu: bool, apps: Option<Apps>): Option<Apps> {
    if apps.None? then None
    else
      Some(map n | n in apps.value && n != "pf9-comms" && (isDdu || n != "pf9-muster") :: apps.value[n])
  }

  /** _filter_host_configuration of the resource manager. */
  function Filtered(apps: Apps): Apps {
    map n | n in apps :: apps[n] - {"du_config"}
  }

  datatype Report = Report(id: string, status: string, apps: Option<Apps>, desiredApps: Option<Apps>)

  function Without(names: set<string>, apps: Option<Apps>): Option<Apps> {
    if apps.None? then None else Some(apps.value - names)
  }

  lemma WithoutOneMore(names: set<string>, apps: Option<Apps>, n: string)
    ensures Without({n}, Without(names, apps)) == Without(names + {n}, apps) && Without({}, apps) == apps
  {
    if apps.Some? {
      assert apps.value - names - {n} == apps.value - (names + {n});
      assert apps.value - {} == apps.value;
    }
  }

  function Served(site: Site, r: Report): Report {
    r.(apps := Without(FirmwareNames(site), r.apps), desiredApps := Without(FirmwareNames(site), r.desiredApps))
  }

  /** When a host is sent its configuration: it is settled, but on something else, or it is on its way to
      something else. None where the report of a settled host has no applications, which raises. */
  function NeedsConfig(r: Report, desired: Apps): Option<bool> {
    if r.status == "ok" then
      if r.apps.None? then None else Some(!Satisfies(desired, r.apps.value))
    else Some(r.desiredApps.Some? && !Satisfies(desired, r.desiredApps.value))
  }

  class HostState {
    const id: string
    var status: string
    var apps: Option<Apps>
    var desiredApps: Option<Apps>

    constructor (id: string, status: string, apps: Option<Apps>, desiredApps: Option<Apps>)
      ensures View() == Report(id, status, apps, desiredApps)
    {
      this.id, this.status, this.apps, this.desiredApps := id, status, apps, desiredApps;
    }

    ghost function View(): Report
      reads this
    {
      Report(id, status, apps, desiredApps)
    }
  }

  class Provider {
    const site: Site
    var hosts: map<string, HostState>
    var desiredApps: map<string, Apps>
    var pendingMsgs: seq<(string, Apps)>

    constructor (site: Site)
      requires ValidSite(site)
      ensures this.site == site && hosts == map[] && desiredApps == map[] && pendingMsgs == []
    {
      this.site, hosts, desiredApps, pendingMsgs := site, map[], map[], [];
    }

    /** The host table as values. */
    ghost function Table(): map<string, Report>
      reads this, hosts.Values
    {
      map id | id in hosts :: hosts[id].View()
    }

    /** insert_fw_apps_config */
    method InsertFwAppsConfig(apps: Apps) returns (r: Apps)
      requires ValidSite(site)
      ensures r == WithFirmware(site, apps)
    {
      r := apps;
      var todo := FirmwareNames(site);
      while todo != {}
        invariant todo <= FirmwareNames(site)
        invariant forall n :: n in r <==> n in apps || (Inserts(site, n) && n !in todo)
        invariant forall n :: n in r ==> r[n] == if Inserts(site, n) && n !in todo then site.specs[n] else apps[n]
        decreases todo
      {
        var n :| n in todo;
        if Inserts(site, n) {
          r := r[n := site.specs[n]];
        }
        todo := todo - {n};
      }
    }

    /** remove_fw_apps_config on one host: both dictionaries, if they are there. */
    method RemoveFwAppsConfig(host: HostState)
      modifies host
      ensures host.View() == Served(site, old(host.View()))
    {
      var todo := FirmwareNames(site);
      ghost var gone: set<string> := {};
      WithoutOneMore({}, host.apps, "");
      WithoutOneMore({}, host.desiredApps, "");
      while todo != {}
        invariant todo + gone == FirmwareNames(site) && todo !! gone
        invariant host.status == old(host.status)
        invariant host.apps == Without(gone, old(host.apps))
        invariant host.desiredApps == Without(gone, old(host.desiredApps))
        decreases todo
      {
        var n :| n in todo;
        WithoutOneMore(gone, old(host.apps), n);
        WithoutOneMore(gone, old(host.desiredApps), n);
        if host.apps.Some? {
          host.apps := Some(host.apps.value - {n});
        }
        if host.desiredApps.Some? {
          host.desiredApps := Some(host.desiredApps.value - {n});
        }
        todo := todo - {n};
        gone := gone + {n};
      }
    }

    /** The ids to serve: all of them in an arbitrary order if none is given, else the given ones that are known. */
    method Selected(ids: seq<string>) returns (r: seq<string>)
      ensures forall i :: 0 <= i < |r| ==> r[i] in hosts
      ensures ids == [] ==> forall id :: id in hosts <==> id in r
      ensures ids != [] ==> forall id :: id in ids && id in hosts <==> id in r
    {
      r := [];
      if ids == [] {
        var todo := hosts.Keys;
        while todo != {}
          invariant todo <= hosts.Keys
          invariant forall id :: id in hosts && id !in todo <==> id in r
          decreases todo
        {
          var id :| id in todo;
          r := r + [id];
          todo := todo - {id};
        }
      } else {
        for i := 0 to |ids|
          invariant forall id :: id in ids[..i] && id in hosts <==> id in r
        {
          if ids[i] in hosts {
            r := r + [ids[i]];
          }
          assert ids[..i + 1] == ids[..i] + [ids[i]];
        }
        assert ids[..|ids|] == ids;
      }
    }

    method ServedCopy(stored: HostState, showFirmwareApps: bool) returns (copied: HostState)
      ensures fresh(copied)
      ensures copied.View() == if showFirmwareApps then stored.View() else Served(site, stored.View())
    {
      copied := new HostState(stored.id, stored.status, stored.apps, stored.desiredApps);
      if !showFirmwareApps {
        RemoveFwAppsConfig(copied);
      }
    }

    /** get_hosts serves deep copies: the stored reports are left as they are. */
    method GetHosts(ids: seq<string>, showFirmwareApps: bool) returns (r: seq<HostState>, selected: seq<string>)
      ensures |r| == |selected| && fresh(set h | h in r)
      ensures ids == [] ==> forall id :: id in hosts <==> id in selected
      ensures ids != [] ==> forall id :: id in ids && id in hosts <==> id in selected
      ensures forall i :: 0 <= i < |r| ==> selected[i] in hosts
      ensures forall i :: 0 <= i < |r| ==>
        r[i].View() == if showFirmwareApps then Table()[selected[i]] else Served(site, Table()[selected[i]])
      ensures Table() == old(Table())
    {
      hide Served;
      selected := Selected(ids);
      r := [];
      for i := 0 to |selected|
        invariant |r| == i && fresh(set h | h in r)
        invariant forall j :: 0 <= j < i ==>
          r[j].View() == if showFirmwareApps then Table()[selected[j]] else Served(site, Table()[selected[j]])
        invariant Table() == old(Table())
      {
        var copied := ServedCopy(hosts[selected[i]], showFirmwareApps);
        assert forall j :: 0 <= j < i ==> r[j] in r && r[j] != copied;
        r := r + [copied];
      }
    }

    /** set_host_apps with _converge_host_if_necessary. A host that was never heard of is entered as missing.
        If the channel is down, nothing is queued and the error gets out, with the configuration stored. */
    method SetHostApps(id: string, apps: Apps) returns (raised: bool, ghost channelDown: bool)
      requires ValidSite(site)
      modifies this
      ensures desiredApps == old(desiredApps)[id := WithFirmware(site, apps)]
      ensures id in old(hosts) ==> hosts == old(hosts)
      ensures hosts.Keys == old(hosts).Keys + {id}
      ensures id !in old(hosts) ==> fresh(hosts[id]) && hosts[id].View() == Report(id, "missing", None, None)
      ensures forall h :: h in old(hosts) ==> hosts[h] == old(hosts)[h]
      ensures raised <==>
        var needs := NeedsConfig(hosts[id].View(), WithFirmware(site, apps));
        needs.None? || (needs == Some(true) && channelDown)
      ensures pendingMsgs == old(pendingMsgs) +
        if NeedsConfig(hosts[id].View(), WithFirmware(site, apps)) == Some(true) && !channelDown
        then [(id, WithFirmware(site, apps))] else []
    {
      var desired := InsertFwAppsConfig(apps);
      if id !in hosts {
        var missing := new HostState(id, "missing", None, None);
        hosts := hosts[id := missing];
      }
      desiredApps := desiredApps[id := desired];
      var host := hosts[id];
      var send := false;
      if host.status == "ok" {
        if host.apps.None? {
          return true, false;
        }
        var satisfied := IsSatisfiedBy(Some(desired), host.apps.value);
        send := !satisfied;
      } else if host.desiredApps.Some? {
        var satisfied := IsSatisfiedBy(Some(desired), host.desiredApps.value);
        send := !satisfied;
      }
      var down := *;
      if send && down {
        return true, true;
      }
      if send {
        pendingMsgs := pendingMsgs + [(id, desired)];
      }
      return false, false;
    }
  }

  // ---------- what the resource manager sees ----------

  /** What the report says about the firmware applications themselves. */
  predicate FirmwareSatisfied(site: Site, report: Apps)
    requires ValidSite(site)
  {
    forall n :: n in FirmwareNames(site) ==>
      if Inserts(site, n) then n in report && AppSatisfied(site.specs[n], report[n]) else n !in report
  }

  lemma FilteringKeepsSpec(spec: map<string, Json>, current: map<string, Json>)
    ensures AppSatisfied(spec - {"du_config"}, current) <==> AppSatisfied(spec, current)
  {
    assert Strip(spec - {"du_config"}) == Strip(spec);
  }

  /** A host report satisfies the configuration that bbmaster stored exactly if the report as it is served
      satisfies the configuration that the resource manager expects, and the firmware applications are as
      the site wants them. */
  lemma ServedReportSatisfies(site: Site, expected: Apps, report: Apps)
    requires ValidSite(site) && expected.Keys !! FirmwareNames(site)
    ensures Satisfies(WithFirmware(site, Filtered(expected)), report) <==>
      Satisfies(expected, WithoutFirmware(site, report)) && FirmwareSatisfied(site, report)
  {
    hide AppSatisfied, Filtered;
    var stored, served := WithFirmware(site, Filtered(expected)), WithoutFirmware(site, report);
    forall n ensures n in stored && n in report && AppSatisfied(stored[n], report[n]) <==>
      if n in FirmwareNames(site) then Inserts(site, n) && n in report && AppSatisfied(site.specs[n], report[n])
      else n in expected && n in served && AppSatisfied(expected[n], served[n])
    {
      OneName(site, expected, report, n);
    }
    SameNames(site, expected, report);
    if Satisfies(stored, report) {
      assert forall n :: n in expected ==> n in stored;
    }
    if Satisfies(expected, served) && FirmwareSatisfied(site, report) {
      assert forall n :: n in stored && n !in FirmwareNames(site) ==> n in expected;
    }
  }

  lemma OneName(site: Site, expected: Apps, report: Apps, n: string)
    requires ValidSite(site) && expected.Keys !! FirmwareNames(site)
    ensures var stored, served := WithFirmware(site, Filtered(expected)), WithoutFirmware(site, report);
      n in stored && n in report && AppSatisfied(stored[n], report[n]) <==>
      if n in FirmwareNames(site) then Inserts(site, n) && n in report && AppSatisfied(site.specs[n], report[n])
      else n in expected && n in served && AppSatisfied(expected[n], served[n])
  {
    hide IsDictSubset, AppSatisfied;
    if n in expected && n in report {
      FilteringKeepsSpec(expected[n], report[n]);
    }
  }

  lemma SameNames(site: Site, expected: Apps, report: Apps)
    requires ValidSite(site) && expected.Keys !! FirmwareNames(site)
    ensures WithFirmware(site, Filtered(expected)).Keys == report.Keys <==>
      expected.Keys == WithoutFirmware(site, report).Keys &&
      forall n :: n in FirmwareNames(site) ==> (Inserts(site, n) <==> n in report)
  {
    var stored, served := WithFirmware(site, Filtered(expected)), WithoutFirmware(site, report);
    assert forall n :: n in stored <==> n in expected || Inserts(site, n);
    assert forall n :: n in served <==> n in report && n !in FirmwareNames(site);
    if stored.Keys == report.Keys {
      assert forall n :: n in expected <==> n in served;
    }
    if expected.Keys == served.Keys && forall n :: n in FirmwareNames(site) ==> (Inserts(site, n) <==> n in report) {
      assert forall n :: n in stored <==> n in report;
    }
  }

  /** A settled host is sent nothing exactly if its report, as served, satisfies the expected configuration
      and its firmware applications are as wanted; one on its way, exactly if it is not known to go
      elsewhere. */
  lemma NothingSentMeansSatisfied(site: Site, expected: Apps, r: Report)
    requires ValidSite(site) && expected.Keys !! FirmwareNames(site) && (r.status == "ok" ==> r.apps.Some?)
    ensures var send := NeedsConfig(r, WithFirmware(site, Filtered(expected)));
      && send.Some?
      && (r.status == "ok" ==>
            (send == Some(false) <==>
             Satisfies(expected, Served(site, r).apps.value) && FirmwareSatisfied(site, r.apps.value)))
      && (r.status != "ok" && r.desiredApps.Some? ==>
            (send == Some(false) <==>
             Satisfies(expected, Served(site, r).desiredApps.value) && FirmwareSatisfied(site, r.desiredApps.value)))
  {
    hide FirmwareSatisfied, Satisfies, WithFirmware, Filtered;
    if r.apps.Some? {
      ServedReportSatisfies(site, expected, r.apps.value);
    }
    if r.desiredApps.Some? {
      ServedReportSatisfies(site, expected, r.desiredApps.value);
    }
  }

  /** Without the condition on names: an expected configuration that names a firmware application is never
      satisfied by what is served. */
  lemma NamingFirmwareNeverSatisfied(site: Site, expected: Apps, report: Apps)
    requires !(expected.Keys !! FirmwareNames(site))
    ensures !Satisfies(expected, WithoutFirmware(site, report))
  {
    var n :| n in expected.Keys && n in FirmwareNames(site);
    assert n !in WithoutFirmware(site, report);
  }

  /** Stripping what was inserted gives the pushed configuration back. */
  lemma StripUndoesInsert(site: Site, apps: Apps)
    requires ValidSite(site)
    ensures WithoutFirmware(site, WithFirmware(site, apps)) == apps <==> apps.Keys !! FirmwareNames(site)
  {
    var r := WithoutFirmware(site, WithFirmware(site, apps));
    if !(apps.Keys !! FirmwareNames(site)) {
      var n :| n in apps.Keys && n in FirmwareNames(site);
      assert n !in r;
    }
  }

  /** From the push to the poll: the configuration that is sent to a host needs no forcing there, so that
      a success reported after a real run of it, as it is served, satisfies the expected configuration. */
  lemma SuccessIsServed(site: Site, c: HostSession.Settings, file: Option<Apps>, inputs: seq<HostSession.Input>, k: nat,
                        expected: Apps)
    requires ValidSite(site) && expected.Keys !! FirmwareNames(site)
    requires "running" in site.specs[COMMS] && HostSession.Truthy(site.specs[COMMS]["running"])
    requires var log := HostSession.After(c, HostSession.Host(0, file, []), inputs).log;
      && k < |log| && log[k].Status? && log[k].kind.Ok? && log[k].wanted.None?
      && HostSession.DigestOf(log[..k]).ran
      && HostSession.DigestOf(log[..k]).saved == Some(HostSession.Force(c, WithFirmware(site, Filtered(expected))))
    ensures var log := HostSession.After(c, HostSession.Host(0, file, []), inputs).log;
      Satisfies(expected, WithoutFirmware(site, log[k].apps))
  {
    HostSession.RunsApplyThePersistedConfig(c, file, inputs, k);
    var log := HostSession.After(c, HostSession.Host(0, file, []), inputs).log;
    var sent := WithFirmware(site, Filtered(expected));
    assert sent[COMMS] == site.specs[COMMS];
    assert HostSession.Force(c, sent) == sent;
    ServedReportSatisfies(site, expected, log[k].apps);
  }
}
