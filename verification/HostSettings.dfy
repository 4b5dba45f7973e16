/** The customised role settings that are stored with a host (insert_update_host in dbutils.py). */
module HostSettings {
  import opened Wrappers
  import opened Json

  type Settings = map<string, Json>

  /** Host to role to setting to value. */
  type Hosts = map<string, map<string, Settings>>

  /** A request: the settings given, and the defaults of the role's version (None if there is no such version). */
  datatype Call = Call(host: string, role: string, given: Settings, defaults: Option<Settings>)

  predicate Accepted(c: Call) {
    c.defaults.Some? && c.given.Keys <= c.defaults.value.Keys
  }

  function StoredOf(hosts: Hosts, host: string, role: string): Settings {
    if host in hosts && role in hosts[host] then hosts[host][role] else map[]
  }

  function ValueOf(hosts: Hosts, host: string, role: string, key: string): Option<Json> {
    if key in StoredOf(hosts, host, role) then Some(StoredOf(hosts, host, role)[key]) else None
  }

  /** What is given overrides what is stored, and what is stored overrides the defaults. */
  function Combined(stored: Settings, given: Settings, defaults: Settings): Settings {
    defaults + (stored + given)
  }

  function Apply(hosts: Hosts, c: Call): Hosts {
    if !Accepted(c) then hosts
    else
      var roles := if c.host in hosts then hosts[c.host] else map[];
      hosts[c.host := roles[c.role := Combined(StoredOf(hosts, c.host, c.role), c.given, c.defaults.value)]]
  }

  function After(hosts: Hosts, calls: seq<Call>): Hosts {
    if calls == [] then hosts else Apply(After(hosts, calls[..|calls| - 1]), calls[|calls| - 1])
  }

  // ---------- the method ----------

  datatype Outcome = Committed | Duplicate | OtherError

  /** The dictionary that a caller passes in. */
  class Body {
    var entries: Settings

    constructor (entries: Settings)
      ensures this.entries == entries
    {
      this.entries := entries;
    }
  }

  class HostTable {
    var hosts: Hosts

    constructor ()
      ensures hosts == map[]
    {
      hosts := map[];
    }

    /** _update_settings_with_defaults on the caller's own dictionary. */
    method FillBody(body: Body, defaults: Settings)
      modifies body
      ensures body.entries == defaults + old(body.entries)
    {
      var todo := defaults.Keys;
      while todo != {}
        invariant todo <= defaults.Keys
        invariant body.entries == (defaults - todo) + old(body.entries)
        decreases todo
      {
        var k :| k in todo;
        if k !in body.entries {
          body.entries := body.entries[k := defaults[k]];
        }
        todo := todo - {k};
      }
    }

    /** insert_update_host: the row is written in up to four attempts. For a host that is not stored yet, the
        new row shares the caller's dictionary, which gets the defaults as well. */
    method InsertUpdateHost(host: string, role: string, body: Body, defaults: Option<Settings>) returns (raised: bool)
      modifies this, body
      ensures var c := Call(host, role, old(body.entries), defaults);
        && (!raised ==> Accepted(c) && hosts == Apply(old(hosts), c))
        && (raised ==> hosts == old(hosts))
        && (!Accepted(c) ==> raised && body.entries == old(body.entries))
        && (Accepted(c) && host in old(hosts) ==> body.entries == old(body.entries))
        && (!raised && host !in old(hosts) ==> body.entries == defaults.value + old(body.entries))
    {
      if defaults.None? {
        return true;
      }
      for attempt := 0 to 4
        invariant hosts == old(hosts)
        invariant body.entries == old(body.entries) ||
          (host !in hosts && Accepted(Call(host, role, old(body.entries), defaults)) &&
            body.entries == defaults.value + old(body.entries))
      {
        if !(body.entries.Keys <= defaults.value.Keys) {
          return true;
        }
        var settings: map<string, Settings>;
        if host in hosts {
          settings := hosts[host];
          var ofRole := new Body((if role in settings then settings[role] else map[]) + body.entries);
          FillBody(ofRole, defaults.value);
          settings := settings[role := ofRole.entries];
        } else {
          FillBody(body, defaults.value);
          assert body.entries == Combined(map[], old(body.entries), defaults.value);
          settings := map[role := body.entries];
        }
        assert hosts[host := settings] == Apply(hosts, Call(host, role, old(body.entries), defaults));
        var outcome: Outcome := *;
        match outcome {
          case Committed =>
            hosts := hosts[host := settings];
            return false;
          case Duplicate => if attempt == 3 { return true; }
          case OtherError => return true;
        }
      }
      return true;
    }
  }

  // ---------- what is stored after any sequence of calls ----------

  predicate Concerns(c: Call, host: string, role: string) {
    c.host == host && c.role == role && Accepted(c)
  }

  predicate Names(c: Call, host: string, role: string, key: string) {
    Concerns(c, host, role) && key in c.given
  }

  predicate Defines(c: Call, host: string, role: string, key: string) {
    Concerns(c, host, role) && key in c.defaults.value
  }

  /** One call, seen from one setting. */
  lemma ApplyValue(hosts: Hosts, c: Call, host: string, role: string, key: string)
    ensures ValueOf(Apply(hosts, c), host, role, key) ==
      if Names(c, host, role, key) then Some(c.given[key])
      else if Defines(c, host, role, key) && ValueOf(hosts, host, role, key).None? then Some(c.defaults.value[key])
      else ValueOf(hosts, host, role, key)
  {
  }

  /** One call, condition by condition. It has no effect if the role's version is not known or if a setting is
      given that this version does not define. Otherwise the settings of that role on that host are those
      stored, given and defined, a given value before a stored one and that before a default; and nothing else
      changes. */
  lemma CallTakesEffect(hosts: Hosts, host: string, role: string, given: Settings, defaults: Option<Settings>)
    ensures var after := Apply(hosts, Call(host, role, given, defaults));
      var stored: Settings := if host in hosts && role in hosts[host] then hosts[host][role] else map[];
      && (defaults.None? || (exists key :: key in given && key !in defaults.value) ==> after == hosts)
      && (defaults.Some? && (forall key :: key in given ==> key in defaults.value) ==>
            && after.Keys == hosts.Keys + {host}
            && after[host].Keys == (if host in hosts then hosts[host].Keys else {}) + {role}
            && after[host][role].Keys == stored.Keys + defaults.value.Keys
            && (forall key :: key in after[host][role] ==>
                  after[host][role][key] ==
                  if key in given then given[key] else if key in stored then stored[key] else defaults.value[key])
            && (forall h :: h in hosts && h != host ==> after[h] == hosts[h])
            && (host in hosts ==> forall r :: r in hosts[host] && r != role ==> after[host][r] == hosts[host][r]))
  {
  }

  /** A setting that some call named has the value from the last call that named it. */
  lemma {:induction false} LastNamedWins(hosts: Hosts, calls: seq<Call>, i: nat, host: string, role: string,
      key: string)
    requires i < |calls| && Names(calls[i], host, role, key)
    requires forall j :: i < j < |calls| ==> !Names(calls[j], host, role, key)
    ensures ValueOf(After(hosts, calls), host, role, key) == Some(calls[i].given[key])
  {
    var n := |calls| - 1;
    ApplyValue(After(hosts, calls[..n]), calls[n], host, role, key);
    if i < n {
      LastNamedWins(hosts, calls[..n], i, host, role, key);
    }
  }

  /** A setting that was not stored and that no call named has the default of the first call whose version
      defined it, even if later versions have other defaults. */
  lemma {:induction false} FirstDefaultStays(hosts: Hosts, calls: seq<Call>, i: nat, host: string, role: string,
      key: string)
    requires ValueOf(hosts, host, role, key).None?
    requires forall j :: 0 <= j < |calls| ==> !Names(calls[j], host, role, key)
    requires i < |calls| && Defines(calls[i], host, role, key)
    requires forall j :: 0 <= j < i ==> !Defines(calls[j], host, role, key)
    ensures ValueOf(After(hosts, calls), host, role, key) == Some(calls[i].defaults.value[key])
  {
    var n := |calls| - 1;
    ApplyValue(After(hosts, calls[..n]), calls[n], host, role, key);
    if i < n {
      FirstDefaultStays(hosts, calls[..n], i, host, role, key);
    } else {
      UndefinedKeepsValue(hosts, calls[..n], host, role, key);
    }
  }

  /** A setting that no accepted call of its role defines, and so none names, keeps its value; in
      particular, calls for other roles and hosts and rejected calls never matter. */
  lemma {:induction false} UndefinedKeepsValue(hosts: Hosts, calls: seq<Call>, host: string, role: string, key: string)
    requires forall j :: 0 <= j < |calls| ==> !Defines(calls[j], host, role, key)
    ensures ValueOf(After(hosts, calls), host, role, key) == ValueOf(hosts, host, role, key)
  {
    if calls != [] {
      var n := |calls| - 1;
      UndefinedKeepsValue(hosts, calls[..n], host, role, key);
      ApplyValue(After(hosts, calls[..n]), calls[n], host, role, key);
      assert !Defines(calls[n], host, role, key);
    }
  }

  /** A setting that was stored and that no call named keeps its value whatever the defaults are. */
  lemma {:induction false} StoredBeatsDefaults(hosts: Hosts, calls: seq<Call>, host: string, role: string, key: string)
    requires ValueOf(hosts, host, role, key).Some?
    requires forall j :: 0 <= j < |calls| ==> !Names(calls[j], host, role, key)
    ensures ValueOf(After(hosts, calls), host, role, key) == ValueOf(hosts, host, role, key)
  {
    if calls != [] {
      var n := |calls| - 1;
      StoredBeatsDefaults(hosts, calls[..n], host, role, key);
      ApplyValue(After(hosts, calls[..n]), calls[n], host, role, key);
      assert !Names(calls[n], host, role, key);
    }
  }
}
