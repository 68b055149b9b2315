/** The server's objects: an Agent whose fields a status report updates in place, and the table of agents by instance
    and by connection. */
module OpAmpServer {
  import opened Base
  import opened OpAmp

  /** An agent's configuration file, as it is found: what is in it and whether that is YAML. */
  datatype PersistedFile = Missing | Unreadable | NotYaml | NotAnObject | YamlObject(text: string)

  /** The configuration it gives, if any. */
  function Persisted(file: PersistedFile): seq<Event> {
    if file.YamlObject? then [ConfigLoaded(file.text)] else []
  }

  class Agent {
    const hash: Hash
    var status: Option<Report>
    var startedAt: nat
    var customConfig: string
    var remoteConfig: Option<RemoteConfig>
    var watchers: seq<nat>
    var notified: seq<nat>
    var pushed: seq<RemoteConfig>
    ghost var asked: seq<nat>

    constructor (hash: Hash)
      ensures this.hash == hash && Seen() == World(NEW_AGENT, [], [], [])
    {
      this.hash := hash;
      status, startedAt, customConfig, remoteConfig, watchers := None, 0, "", None, [];
      notified, pushed, asked := [], [], [];
    }

    function View(): AgentState
      reads this
    {
      AgentState(status, startedAt, customConfig, remoteConfig, watchers)
    }

    /** The agent with the traffic it has caused. */
    ghost function Seen(): World
      reads this
    {
      World(View(), asked, notified, pushed)
    }

    /** updateAgentDescription: also refreshes the sequence number and the remote-config status. */
    method UpdateAgentDescription(m: Report) returns (changed: bool)
      modifies this`status
      ensures old(status).None? ==> status == Some(m) && changed
      ensures old(status).Some? ==>
                && status == Some(old(status).value.(
                               sequenceNum := m.sequenceNum,
                               description := Or(m.description, old(status).value.description),
                               remoteConfigStatus := Or(m.remoteConfigStatus, old(status).value.remoteConfigStatus)))
                && (changed <==> m.description.Some? && m.description != old(status).value.description)
    {
      if status.None? {
        status := Some(m);
        return true;
      }
      var previous := status.value;
      changed := false;
      status := Some(status.value.(sequenceNum := m.sequenceNum));
      if m.description.Some? && previous.description != m.description {
        status := Some(status.value.(description := m.description));
        changed := true;
      }
      if m.remoteConfigStatus.Some? && status.value.remoteConfigStatus != m.remoteConfigStatus {
        status := Some(status.value.(remoteConfigStatus := m.remoteConfigStatus));
      }
    }

    method UpdateHealth(m: Report)
      requires status.Some?
      modifies this`status, this`startedAt
      ensures status == Some(old(status).value.(health := Or(m.health, old(status).value.health)))
      ensures startedAt == if m.health.Some? && m.health.value.healthy then m.health.value.startTime else old(startedAt)
    {
      if m.health.None? {
        return;
      }
      status := Some(status.value.(health := m.health));
      if status.value.health.value.healthy {
        startedAt := status.value.health.value.startTime;
      }
    }

    method UpdateRemoteConfigStatus(m: Report)
      requires status.Some?
      modifies this`status
      ensures status == Some(old(status).value.(
                          remoteConfigStatus := Or(m.remoteConfigStatus, old(status).value.remoteConfigStatus)))
    {
      if m.remoteConfigStatus.Some? {
        status := Some(status.value.(remoteConfigStatus := m.remoteConfigStatus));
      }
    }

    /** updateStatusField: everything of a report but its effective configuration. */
    method UpdateStatusField(m: Report) returns (changed: bool)
      modifies this`status, this`startedAt
      ensures changed == DescriptionChanged(old(status), m)
      ensures status == Some(Merged(old(status), m).(
                          effectiveConfig := if old(status).None? then m.effectiveConfig
                                             else old(status).value.effectiveConfig))
      ensures startedAt == if m.health.Some? && m.health.value.healthy then m.health.value.startTime else old(startedAt)
    {
      changed := false;
      if status.None? {
        status := Some(m);
        changed := true;
      }
      var descriptionChanged := UpdateAgentDescription(m);
      changed := descriptionChanged || changed;
      UpdateRemoteConfigStatus(m);
      UpdateHealth(m);
    }

    method UpdateEffectiveConfig(m: Report)
      requires status.Some?
      modifies this`status
      ensures status == Some(if m.effectiveConfig.Some? && m.effectiveConfig.value.configMap.Some?
                             then old(status).value.(effectiveConfig := m.effectiveConfig) else old(status).value)
    {
      if m.effectiveConfig.Some? {
        if m.effectiveConfig.value.configMap.Some? {
          status := Some(status.value.(effectiveConfig := m.effectiveConfig));
        }
      }
    }

    method CalcRemoteConfig() returns (changed: bool)
      modifies this`remoteConfig
      ensures remoteConfig == Some(Calculated(hash, old(View())))
      ensures changed == ConfigChanges(old(View()))
    {
      var config := RemoteConfig(customConfig, hash(customConfig));
      changed := remoteConfig.None? || remoteConfig.value.body != config.body;
      remoteConfig := Some(config);
    }

    /** processStatusUpdate.  The nil dereference it risks, comparing a reported hash without a remote config, needs a
        stored status without one. */
    method ProcessStatusUpdate(m: Report) returns (response: Response)
      requires status.Some? ==> remoteConfig.Some?
      modifies this`status, this`startedAt, this`remoteConfig
      ensures View() == AfterReport(hash, old(View()), m).(watchers := old(watchers))
      ensures response == Answer(hash, old(View()), m)
    {
      ghost var before := View();
      ghost var after := AfterReport(hash, before, m);
      var lostPreviousUpdate := status.None? || (status.value.sequenceNum + 1) % SEQUENCE_MODULUS != m.sequenceNum;

      var descriptionChanged := UpdateStatusField(m);
      var statusIsCompressed := OmitsDeclaredField(m);
      assert statusIsCompressed && lostPreviousUpdate <==> AsksFullState(before.status, m);

      var configChanged := false;
      if descriptionChanged {
        configChanged := CalcRemoteConfig();
      }
      assert configChanged == (descriptionChanged && ConfigChanges(before)) && remoteConfig == after.remoteConfig;

      var hashDiffers := status.value.remoteConfigStatus.Some? &&
                         status.value.remoteConfigStatus.value.lastHash != remoteConfig.value.hash;
      response := Response(statusIsCompressed && lostPreviousUpdate,
                           if configChanged || hashDiffers then remoteConfig else None,
                           descriptionChanged);
      UpdateEffectiveConfig(m);
      assert status == after.status;
    }

    /** The four checks of processStatusUpdate against the stored capabilities. */
    method OmitsDeclaredField(m: Report) returns (statusIsCompressed: bool)
      requires status.Some?
      ensures statusIsCompressed == Compressed(status.value.capabilities, m)
    {
      var capabilities := status.value.capabilities;
      var effectiveConfigOmitted := m.effectiveConfig.None? && ReportsEffectiveConfig in capabilities;
      var packageStatusesOmitted := m.packageStatuses.None? && ReportsPackageStatuses in capabilities;
      var remoteConfigStatusOmitted := m.remoteConfigStatus.None? && ReportsRemoteConfig in capabilities;
      var healthOmitted := m.health.None? && ReportsHealth in capabilities;
      return effectiveConfigOmitted || packageStatusesOmitted || remoteConfigStatusOmitted || healthOmitted;
    }

    /** UpdateStatus: takes the watchers while it holds the lock and notifies them. */
    method UpdateStatus(m: Report) returns (response: Response)
      requires status.Some? ==> remoteConfig.Some?
      modifies this
      ensures Seen() == Next(hash, old(Seen()), Reported(m))
      ensures response == Answer(hash, old(View()), m)
    {
      response := ProcessStatusUpdate(m);
      var taken := watchers;
      watchers := [];
      for i := 0 to |taken|
        invariant notified == old(notified) + taken[..i]
        invariant View() == AfterReport(hash, old(View()), m) && asked == old(asked) && pushed == old(pushed)
      {
        notified := notified + [taken[i]];
      }
      assert taken[..|taken|] == taken;
    }

    /** SetCustomConfig: pushes a changed configuration and keeps the watcher for the next report; otherwise the watcher
        is told at once.  The config map has to hold the nameless file. */
    method SetCustomConfig(config: map<string, string>, watcher: Option<nat>)
      requires "" in config
      modifies this
      ensures Seen() == Next(hash, old(Seen()), ConfigSet(config[""], watcher))
    {
      customConfig := config[""];
      asked := if watcher.Some? then asked + [watcher.value] else asked;
      var changed := CalcRemoteConfig();
      if changed {
        if watcher.Some? {
          watchers := watchers + [watcher.value];
        }
        pushed := pushed + [remoteConfig.value];
      } else if watcher.Some? {
        notified := notified + [watcher.value];
      }
    }

    /** loadPersistedConfig: a YAML object becomes the custom configuration; a corrupted file is to be removed. */
    method LoadPersistedConfig(file: PersistedFile) returns (remove: bool)
      modifies this
      ensures Seen() == if file.YamlObject? then Next(hash, old(Seen()), ConfigLoaded(file.text)) else old(Seen())
      ensures remove <==> file.NotYaml? || file.NotAnObject?
    {
      if file.Missing? {
        return false;
      }
      if file.Unreadable? {
        return false;
      }
      if file.NotYaml? {
        return true;
      }
      if file.NotAnObject? {
        return true;
      }
      customConfig := file.text;
      var _ := CalcRemoteConfig();
      return false;
    }
  }

  // ---------------------------------------------------------------- the table of agents

  /** Instance ids by connection. */
  type Index = map<nat, set<nat>>

  /** Every agent is indexed under exactly one connection, and nothing else is indexed. */
  ghost predicate Indexed(agents: set<nat>, connections: Index) {
    && (forall c, id | c in connections && id in connections[c] :: id in agents)
    && (forall id | id in agents :: exists c :: c in connections && id in connections[c])
    && (forall c, d, id | c in connections && d in connections && id in connections[c] && id in connections[d] :: c == d)
  }

  function IdsOf(connections: Index, conn: nat): set<nat> {
    if conn in connections then connections[conn] else {}
  }

  lemma IndexedAfterAdd(agents: set<nat>, connections: Index, conn: nat, id: nat)
    requires Indexed(agents, connections) && id !in agents
    ensures Indexed(agents + {id}, connections[conn := {id} + IdsOf(connections, conn)])
  {
    var after := connections[conn := {id} + IdsOf(connections, conn)];
    forall known | known in agents + {id} ensures exists c :: c in after && known in after[c] {
      if known == id {
        assert known in after[conn];
      } else {
        var c :| c in connections && known in connections[c];
        assert c in after && known in after[c];
      }
    }
  }

  class Agents {
    const hash: Hash
    var agentsById: map<nat, Agent>
    var connections: Index

    constructor (hash: Hash)
      ensures this.hash == hash && agentsById == map[] && connections == map[] && Valid()
    {
      this.hash := hash;
      agentsById, connections := map[], map[];
    }

    ghost predicate Valid()
      reads this
    {
      Indexed(agentsById.Keys, connections)
    }

    /** FindOrCreateAgent: a new agent starts from the persisted configuration and belongs to this connection; a known
        one stays with the connection that created it. */
    method FindOrCreateAgent(id: nat, conn: nat, file: PersistedFile) returns (agent: Agent, remove: bool)
      requires Valid()
      modifies this
      ensures Valid() && id in agentsById && agentsById[id] == agent
      ensures remove <==> id !in old(agentsById) && (file.NotYaml? || file.NotAnObject?)
      ensures id in old(agentsById) ==> agentsById == old(agentsById) && connections == old(connections)
      ensures id !in old(agentsById) ==>
                && fresh(agent) && agentsById == old(agentsById)[id := agent] && agent.hash == hash
                && agent.Seen() == Run(hash, Persisted(file))
                && connections == old(connections)[conn := {id} + IdsOf(old(connections), conn)]
    {
      if id in agentsById {
        return agentsById[id], false;
      }
      agent := new Agent(hash);
      agentsById := agentsById[id := agent];
      remove := agent.LoadPersistedConfig(file);
      IndexedAfterAdd(old(agentsById).Keys, connections, conn, id);
      if conn !in connections {
        connections := connections[conn := {}];
      }
      connections := connections[conn := {id} + connections[conn]];
      assert connections == old(connections)[conn := {id} + IdsOf(old(connections), conn)];
    }

    /** RemoveConnection: forgets exactly the agents of the connection. */
    method RemoveConnection(conn: nat)
      requires Valid()
      modifies this
      ensures Valid() && connections == old(connections) - {conn}
      ensures agentsById == old(agentsById) - IdsOf(old(connections), conn)
      ensures forall c, id | c in connections && id in connections[c] :: id in agentsById
    {
      if conn in connections {
        var todo := connections[conn];
        while todo != {}
          invariant conn in connections && todo <= connections[conn] && connections == old(connections)
          invariant agentsById == old(agentsById) - (connections[conn] - todo)
          decreases todo
        {
          var id :| id in todo;
          todo := todo - {id};
          agentsById := agentsById - {id};
        }
      }
      connections := connections - {conn};
      forall id | id in agentsById ensures exists c :: c in connections && id in connections[c] {
        var c :| c in old(connections) && id in old(connections)[c];
        assert c in connections;
      }
    }
  }

  /** An agent survives the removal of a connection exactly when it is indexed under another one, so an agent that has
      come back over a second connection is forgotten with its first. */
  lemma SurvivesIff(agents: set<nat>, connections: Index, conn: nat, id: nat)
    requires Indexed(agents, connections) && id in agents && conn in connections
    ensures id in agents - connections[conn] <==> exists c :: c in connections && c != conn && id in connections[c]
  {
    var c :| c in connections && id in connections[c];
  }
}
