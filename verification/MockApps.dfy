/** The reference implementation of applications and their database (mock_app.py, mock_app_db.py) and
    process_apps (algorithms.py) on top of it. */
module MockApps {
  import opened Wrappers
  import opened Json
  import opened AppsConfig
  import opened AppPlan
  import opened AppConvergence

  /** An application object. Until it is installed it is the remote application of its package. */
  class App {
    const name: string
    const version: Json
    const multi: bool
    var config: Json
    var services: Json
    var installed: bool
    var downloaded: bool

    constructor Remote(name: string, version: Json, multi: bool)
      ensures this.name == name && !installed && !downloaded
      ensures View() == AppView(version, Dict(map[]), multi, if multi then Dict(map[]) else Bool(false))
    {
      this.name, this.version, this.multi := name, version, multi;
      config := Dict(map[]);
      services := if multi then Dict(map[]) else Bool(false);
      installed, downloaded := false, false;
    }

    ghost function View(): AppView
      reads this
    {
      AppView(version, config, multi, services)
    }

    /** The get_current_config entry of one application. */
    method Report() returns (r: Spec)
      ensures r == ReportOf(View())
    {
      if multi {
        r := map["version" := version, "config" := config, "service_states" := services];
      } else {
        r := map["version" := version, "running" := services, "config" := config];
      }
    }

    method SetConfig(config: Json)
      modifies this`config
      ensures View() == old(View()).(config := config)
    {
      this.config := config;
    }

    /** set_desired_service_states; raises if the dictionary does not fit the application. */
    method SetDesiredServiceStates(desired: Json, stopAll: bool) returns (raised: bool)
      modifies this`services
      ensures raised <==> !installed || !Fits(multi, name, desired)
      ensures raised ==> View() == old(View())
      ensures !raised ==> View() == old(View()).(services :=
        if multi then (if stopAll then AllOff(desired) else desired)
        else (if stopAll then Bool(false) else desired.fields[name]))
    {
      if !installed || !desired.Dict? || (!multi && desired.fields.Keys != {name}) {
        return true;
      }
      if multi {
        services := if stopAll then AllOff(desired) else desired;
      } else {
        services := if stopAll then Bool(false) else desired.fields[name];
      }
      return false;
    }
  }

  class AppDb {
    var apps: map<string, App>

    constructor ()
      ensures Valid() && apps == map[]
    {
      apps := map[];
    }

    ghost predicate Valid()
      reads this, apps.Values
    {
      forall n :: n in apps ==>
        apps[n].name == n && apps[n].installed && (apps[n].multi ==> apps[n].services.Dict?)
    }

    /** Nothing but one name may have changed in the table. */
    static ghost predicate SameApart(before: map<string, App>, after: map<string, App>, name: string) {
      forall n :: n != name ==> (n in before <==> n in after) && (n in before ==> after[n] == before[n])
    }

    ghost function Contents(): Table
      reads this, apps.Values
    {
      map n | n in apps :: apps[n].View()
    }

    method GetCurrentConfig() returns (config: Apps)
      ensures config == CurrentConfig(Contents())
    {
      config := map[];
      var todo := apps.Keys;
      while todo != {}
        invariant todo <= apps.Keys
        invariant config.Keys == apps.Keys - todo
        invariant forall n :: n in config ==> config[n] == ReportOf(Contents()[n])
        decreases todo
      {
        var n :| n in todo;
        var r := apps[n].Report();
        config := config[n := r];
        todo := todo - {n};
      }
    }

    /** make_app: the installed application, None where the code raises. */
    method MakeApp(name: string, version: Json) returns (app: Option<App>)
      ensures app == if name in apps && PyEq(apps[name].version, version) then Some(apps[name]) else None
    {
      if name in apps && PyEq(apps[name].version, version) {
        return Some(apps[name]);
      }
      return None;
    }

    method AppInstalled(app: App) returns (raised: bool)
      modifies this
      ensures raised <==> app.name in old(apps)
      ensures apps == if raised then old(apps) else old(apps)[app.name := app]
    {
      if app.name in apps {
        return true;
      }
      apps := apps[app.name := app];
      return false;
    }

    method AppUninstalled(app: App) returns (raised: bool)
      modifies this
      ensures raised <==> app.name !in old(apps)
      ensures apps == if raised then old(apps) else old(apps) - {app.name}
    {
      if app.name !in apps {
        return true;
      }
      apps := apps - {app.name};
      return false;
    }

    /** An operation of the package manager, the network or a configuration script, which may fail. */
    method MayFail() returns (fails: bool)
    {
      fails := *;
    }

    /** App.set_config on an installed application. */
    method Configure(app: App, config: Json) returns (raised: bool)
      requires Valid() && app in apps.Values
      modifies app`config
      ensures Valid()
      ensures raised ==> Contents() == old(Contents())
      ensures !raised ==> Apply(old(Contents()), Op.SetConfig(app.name, config)) == Some(Contents())
    {
      ghost var t := Contents();
      raised := MayFail();
      if !raised {
        app.SetConfig(config);
        assert Contents() == t[app.name := t[app.name].(config := config)];
      }
    }

    /** App.set_desired_service_states on an installed application. */
    method Restate(app: App, services: Json) returns (raised: bool)
      requires Valid() && app in apps.Values
      modifies app`services
      ensures Valid()
      ensures raised ==> Contents() == old(Contents())
      ensures !raised ==> Apply(old(Contents()), Op.SetServices(app.name, services)) == Some(Contents())
    {
      ghost var t := Contents();
      raised := MayFail();
      if !raised {
        raised := app.SetDesiredServiceStates(services, false);
        assert Contents() == t[app.name := app.View()];
      }
    }

    /** The first half of App.uninstall: every service of the application is stopped. */
    method StopAll(app: App) returns (raised: bool)
      requires Valid() && app in apps.Values
      modifies app`services
      ensures Valid()
      ensures raised ==> Contents() == old(Contents())
      ensures !raised ==> Apply(old(Contents()), StopServices(app.name)) == Some(Contents())
    {
      ghost var t := Contents();
      raised := MayFail();
      if !raised {
        var current := if app.multi then app.services else Dict(map[app.name := app.services]);
        raised := app.SetDesiredServiceStates(current, true);
        assert Contents() == t[app.name := app.View()];
      }
    }

    /** The second half: the package is removed. */
    method RemoveApp(app: App) returns (raised: bool)
      requires Valid() && app in apps.Values
      modifies this, app`installed
      ensures Valid()
      ensures apps == if raised then old(apps) else old(apps) - {app.name}
      ensures raised ==> Contents() == old(Contents())
      ensures !raised ==> Apply(old(Contents()), RemovePackage(app.name)) == Some(Contents())
    {
      ghost var t := Contents();
      raised := MayFail();
      if !raised {
        app.installed := false;
        raised := AppUninstalled(app);
        assert Contents() == t - {app.name};
      }
    }

    /** App.uninstall */
    method Uninstall(app: App) returns (raised: bool, ghost ops: seq<Op>)
      requires Valid() && app in apps.Values
      modifies this, app
      ensures Valid() && SameApart(old(apps), apps, app.name)
      ensures apps == old(apps) || apps == old(apps) - {app.name}
      ensures !raised ==> apps == old(apps) - {app.name}
      ensures AppPlan.Run(old(Contents()), ops) == Some(Contents())
      ensures ops <= DeleteOps(app.name)
      ensures !raised ==> ops == DeleteOps(app.name)
    {
      ops := [];
      ghost var t := Contents();
      raised := StopAll(app);
      if raised {
        return;
      }
      ops := [StopServices(app.name)];
      Run1(t, StopServices(app.name));
      raised := RemoveApp(app);
      if !raised {
        ops := DeleteOps(app.name);
        Run2(t, StopServices(app.name), RemovePackage(app.name));
      }
    }

    /** RemoteApp.install */
    method Install(app: App) returns (raised: bool)
      requires Valid() && !app.installed && app.downloaded && app !in apps.Values
      requires app.View() == AppView(app.version, Dict(map[]), app.multi, if app.multi then Dict(map[]) else Bool(false))
      modifies this, app`installed
      ensures Valid()
      ensures raised ==> apps == old(apps) && Contents() == old(Contents())
      ensures !raised ==> apps == old(apps)[app.name := app]
      ensures !raised ==> Apply(old(Contents()), InstallPackage(app.name, app.version, app.multi)) == Some(Contents())
    {
      ghost var t := Contents();
      raised := MayFail();
      if raised {
        return;
      }
      app.installed := true;
      raised := AppInstalled(app);
      assert !raised ==> Contents() == t[app.name := app.View()];
    }

    /** RemoteApp.download */
    method Download(app: App) returns (raised: bool)
      modifies app`downloaded
      ensures !raised ==> app.downloaded
    {
      raised := MayFail();
      if !raised {
        app.downloaded := true;
      }
    }

    /** Configuration and services of an application that has just been installed. */
    method SetUp(app: App, spec: Spec) returns (raised: bool, ghost ops: seq<Op>)
      requires Valid() && app in apps.Values && HasCore(spec)
      modifies app`config, app`services
      ensures Valid()
      ensures AppPlan.Run(old(Contents()), ops) == Some(Contents())
      ensures ops <= SetUpOps(app.name, spec) && (!raised ==> ops == SetUpOps(app.name, spec))
    {
      ghost var t := Contents();
      ops := [];
      raised := Configure(app, spec["config"]);
      if raised {
        return;
      }
      ops := [Op.SetConfig(app.name, spec["config"])];
      Run1(t, ops[0]);
      var services := Services(app.name, spec);
      if services.None? {
        return true, ops;
      }
      raised := Restate(app, services.value);
      if !raised {
        ops := SetUpOps(app.name, spec);
        Run2(t, ops[0], ops[1]);
      }
    }

    /** install, set_config and set_desired_service_states of a downloaded package. */
    method InstallAndSetUp(remote: App, spec: Spec) returns (raised: bool, ghost ops: seq<Op>)
      requires Valid() && HasCore(spec)
      requires !remote.installed && remote.downloaded && remote !in apps.Values
      requires remote.View() == AppView(remote.version, Dict(map[]), remote.multi, if remote.multi then Dict(map[]) else Bool(false))
      modifies this, remote
      ensures Valid() && SameApart(old(apps), apps, remote.name)
      ensures remote.name in apps ==>
        apps[remote.name] == remote || (remote.name in old(apps) && apps[remote.name] == old(apps)[remote.name])
      ensures AppPlan.Run(old(Contents()), ops) == Some(Contents())
      ensures var all := [InstallPackage(remote.name, remote.version, remote.multi)] + SetUpOps(remote.name, spec);
        ops <= all && (!raised ==> ops == all)
    {
      ghost var t := Contents();
      ghost var install := InstallPackage(remote.name, remote.version, remote.multi);
      ops := [];
      raised := Install(remote);
      if raised {
        return;
      }
      assert apps[remote.name] == remote;
      Run1(t, install);
      ghost var more;
      raised, more := SetUp(remote, spec);
      RunAppend(t, [install], more);
      ops := [install] + more;
    }

    /** The removal of the installed version, and the installation of the downloaded one. */
    method Reinstall(app: App, remote: App, spec: Spec) returns (raised: bool, ghost ops: seq<Op>)
      requires Valid() && app in apps.Values && HasCore(spec) && remote.name == app.name
      requires !remote.installed && remote.downloaded && remote !in apps.Values
      requires remote.View() == AppView(remote.version, Dict(map[]), remote.multi, if remote.multi then Dict(map[]) else Bool(false))
      modifies this, app, remote
      ensures Valid() && SameApart(old(apps), apps, app.name)
      ensures app.name in apps ==>
        (app.name in old(apps) && apps[app.name] == old(apps)[app.name]) || apps[app.name] == remote
      ensures AppPlan.Run(old(Contents()), ops) == Some(Contents())
      ensures var all :=
          DeleteOps(app.name) + ([InstallPackage(remote.name, remote.version, remote.multi)] + SetUpOps(remote.name, spec));
        ops <= all && (!raised ==> ops == all)
    {
      hide AppPlan.Run;
      ghost var t := Contents();
      raised, ops := Uninstall(app);
      if raised {
        return;
      }
      ghost var more;
      raised, more := InstallAndSetUp(remote, spec);
      RunAppend(t, ops, more);
      ops := ops + more;
    }

    /** The upgrade of a kept application: its package is downloaded first, then the old version is
        removed and the new one installed and set up. */
    method Upgrade(env: Packages, app: App, spec: Spec) returns (raised: bool, ghost ops: seq<Op>)
      requires Valid() && app in apps.Values && HasCore(spec)
      modifies this, app
      ensures Valid() && SameApart(old(apps), apps, app.name)
      ensures app.name in apps ==>
        (app.name in old(apps) && apps[app.name] == old(apps)[app.name]) || fresh(apps[app.name])
      ensures AppPlan.Run(old(Contents()), ops) == Some(Contents())
      ensures ops <= UpgradeOps(env, app.name, spec) && (!raised ==> ops == UpgradeOps(env, app.name, spec))
    {
      var name := app.name;
      ghost var t := Contents();
      assert AppPlan.Run(t, []) == Some(t);
      hide AppPlan.Run;
      ops := [];
      if !env.located(spec) {
        return true, ops;
      }
      var remote := new App.Remote(name, env.version(name, spec), env.multi(name));
      raised := Download(remote);
      if raised {
        return;
      }
      Run1(t, Op.Download(name));
      ghost var more;
      raised, more := Reinstall(app, remote, spec);
      RunAppend(t, [Op.Download(name)], more);
      ops := [Op.Download(name)] + more;
      assert UpgradeOps(env, name, spec) == [Op.Download(name)] +
        (DeleteOps(name) + ([InstallPackage(name, remote.version, remote.multi)] + SetUpOps(name, spec)));
    }

    /** The installation of a new application. */
    method Add(env: Packages, name: string, spec: Spec) returns (raised: bool, ghost ops: seq<Op>)
      requires Valid()
      modifies this
      ensures Valid() && SameApart(old(apps), apps, name)
      ensures name in apps ==> (name in old(apps) && apps[name] == old(apps)[name]) || fresh(apps[name])
      ensures AppPlan.Run(old(Contents()), ops) == Some(Contents())
      ensures ops <= AddOps(env, name, spec) && (!raised ==> ops == AddOps(env, name, spec))
    {
      ghost var t := Contents();
      ops := [];
      if "config" !in spec || !env.located(spec) || "version" !in spec {
        return true, ops;
      }
      var remote := new App.Remote(name, env.version(name, spec), env.multi(name));
      raised := Download(remote);
      if raised {
        return;
      }
      Run1(t, Op.Download(name));
      ghost var more;
      raised, more := InstallAndSetUp(remote, spec);
      RunAppend(t, [Op.Download(name)], more);
      ops := [Op.Download(name)] + more;
    }

    /** A kept application at its version: configuration and services are changed where they differ. */
    method Adjust(app: App, spec: Spec, current: Spec, probeOnly: bool)
        returns (raised: bool, changes: nat, ghost ops: seq<Op>)
      requires Valid() && app in apps.Values && HasCore(spec) && Reported(current)
      modifies app`config, app`services
      ensures Valid()
      ensures AppPlan.Run(old(Contents()), ops) == Some(Contents())
      ensures ops <= AdjustOps(app.name, spec, current)
      ensures probeOnly ==> ops == [] && (raised <==> Services(app.name, spec).None?)
      ensures !raised && !probeOnly ==> ops == AdjustOps(app.name, spec, current)
      ensures !raised && PyEq(current["version"], spec["version"]) ==>
        KeptCount(app.name, spec, current) == Some(changes)
    {
      ghost var t := Contents();
      changes, raised, ops := 0, false, [];
      if !IsDictSubset(spec["config"], current["config"]) {
        if !probeOnly {
          raised := Configure(app, spec["config"]);
          if raised {
            return;
          }
          ops := [Op.SetConfig(app.name, spec["config"])];
          Run1(t, ops[0]);
        }
        changes := changes + 1;
      }
      var services := Services(app.name, spec);
      if services.None? {
        raised := true;
        return;
      }
      if !PyEq(CurrentServices(app.name, current).value, services.value) {
        if !probeOnly {
          ghost var restate := Op.SetServices(app.name, services.value);
          Run1(Contents(), restate);
          RunAppend(t, ops, [restate]);
          raised := Restate(app, services.value);
          if raised {
            return;
          }
          ops := ops + [restate];
        }
        changes := changes + 1;
      }
    }
  }
}
