/**
 * The game node of org.slingerxv.limitart.game.innerserver.InnerGameServer:
 * its link to the public (master) server and its table `toFights` of direct
 * links to fight servers, filled by the join callback the master drives.
 *
 * A link (InnerSlaveServer) is an opaque handle together with the builder
 * settings it was made from. Building a link and starting it are foreign
 * calls: `build` gives a handle or None when the builder throws, `start`
 * says whether startServer returned normally.
 */
module InnerServer {
  import opened Wrappers
  import MapKeys

  /** The server types of InnerGameServerType. */
  datatype ServerType = Public | Game | Fight

  /** The InnerServerInfo a join notification carries. */
  datatype InnerServerInfo = InnerServerInfo(
    serverType: ServerType,
    serverId: int,
    outIp: string,
    outPort: int,
    outPass: string,
    innerPort: int)

  /** InnerGameServerConfig, as far as this class reads it. */
  datatype GameServerConfig = GameServerConfig(
    serverId: int,
    gameServerIp: string,
    gameServerPort: int,
    gameServerPass: string,
    publicIp: string,
    publicPort: int)

  /**
   * The settings an InnerSlaveServerBuilder is given. `channelTag` is what the
   * onConnectMasterSuccess callback writes on the master channel (server type
   * and id), when it writes anything.
   */
  datatype SlaveConfig = SlaveConfig(
    slaveName: string,
    myServerId: int,
    myServerIp: string,
    myServerPort: int,
    myServerPass: string,
    masterIp: string,
    masterServerPort: Option<int>,
    masterServerPass: Option<string>,
    masterInnerPort: int,
    masterInnerPass: string,
    slaveType: ServerType,
    channelTag: Option<(ServerType, int)>)

  /** An InnerSlaveServer: an opaque handle and the settings it was built with. */
  datatype SlaveClient = SlaveClient(handle: nat, config: SlaveConfig)

  /** InnerSlaveServerBuilder.build(): a handle, or None when it throws. */
  type Builder = SlaveConfig -> Option<nat>

  /** What the join callback did, including what it logged. */
  datatype JoinOutcome =
    | NotFight                       // not a fight server: ignored
    | AlreadyLinked                  // a link to this serverId exists: returned early
    | Linked(client: SlaveClient)    // new link put and started
    | BuildFailed                    // the builder threw: logged, nothing put
    | StartFailed(client: SlaveClient) // put, then startServer threw: logged, entry kept

  /** The link to the public server made by the constructor. */
  function PublicLinkConfig(config: GameServerConfig, innerPass: string): (c: SlaveConfig)
    ensures c.slaveName == "Game-To-Public" && c.slaveType == Game
    ensures c.myServerId == config.serverId && c.myServerIp == config.gameServerIp
    ensures c.masterIp == config.publicIp && c.masterInnerPort == config.publicPort
    ensures c.masterInnerPass == innerPass
    ensures c.masterServerPort.None? && c.masterServerPass.None? && c.channelTag.None?
  {
    SlaveConfig("Game-To-Public", config.serverId, config.gameServerIp, config.gameServerPort,
      config.gameServerPass, config.publicIp, None, None, config.publicPort, innerPass, Game, None)
  }

  /** The link to a newly joined fight server. */
  function FightLinkConfig(config: GameServerConfig, innerPass: string, info: InnerServerInfo): (c: SlaveConfig)
    ensures IsFightLink(c, config, innerPass, info.serverId)
    ensures c.masterIp == info.outIp && c.masterServerPort == Some(info.outPort)
    ensures c.masterServerPass == Some(info.outPass) && c.masterInnerPort == info.innerPort
  {
    SlaveConfig("Game-To-Fight", config.serverId, config.gameServerIp, config.gameServerPort,
      config.gameServerPass, info.outIp, Some(info.outPort), Some(info.outPass), info.innerPort,
      innerPass, Game, Some((Fight, info.serverId)))
  }

  /** A link of this game node to fight server `serverId`, tagged with that id on connect. */
  predicate IsFightLink(c: SlaveConfig, config: GameServerConfig, innerPass: string, serverId: int) {
    && c.slaveName == "Game-To-Fight"
    && c.myServerId == config.serverId
    && c.slaveType == Game
    && c.masterInnerPass == innerPass
    && c.channelTag == Some((Fight, serverId))
  }

  class InnerGameServer {
    const config: GameServerConfig
    const innerPass: string     // InnerServerUtil.getInnerPass()
    const toPublic: SlaveClient
    var toFights: map<int, SlaveClient>
    var publicRunning: bool

    ghost predicate Valid()
      reads this
    {
      && toPublic.config == PublicLinkConfig(config, innerPass)
      && forall id :: id in toFights ==> IsFightLink(toFights[id].config, config, innerPass, id)
    }

    /** The constructor, given the handle its builder returned for the public link. */
    constructor (config: GameServerConfig, innerPass: string, publicHandle: nat)
      ensures Valid()
      ensures this.config == config && this.innerPass == innerPass
      ensures toPublic == SlaveClient(publicHandle, PublicLinkConfig(config, innerPass))
      ensures toFights == map[] && !publicRunning
    {
      this.config := config;
      this.innerPass := innerPass;
      toPublic := SlaveClient(publicHandle, PublicLinkConfig(config, innerPass));
      toFights := map[];
      publicRunning := false;
    }

    /** startServer: starts the public link only. */
    method StartServer()
      requires Valid()
      modifies this
      ensures Valid()
      ensures publicRunning && toFights == old(toFights)
    {
      publicRunning := true;
    }

    /** stopServer: stops the public link only; fight links and the table are left as they are. */
    method StopServer()
      requires Valid()
      modifies this
      ensures Valid()
      ensures !publicRunning && toFights == old(toFights)
    {
      publicRunning := false;
    }

    /** The onNewSlaveQuit callback: its removal code is commented out, so it changes nothing. */
    method OnNewSlaveQuit(serverType: ServerType, serverId: int)
      requires Valid()
      modifies this
      ensures Valid()
      ensures toFights == old(toFights) && publicRunning == old(publicRunning)
    {
      if serverType == Fight {
      }
    }

    /**
     * The onNewSlaveJoin callback: for a fight server not yet linked, build a
     * link to its outward endpoint, put it under its serverId, then start it.
     */
    method OnNewSlaveJoin(info: InnerServerInfo, build: Builder, start: nat -> bool) returns (outcome: JoinOutcome)
      requires Valid()
      modifies this
      ensures Valid()
      ensures publicRunning == old(publicRunning)
      ensures info.serverType != Fight ==> outcome == NotFight && toFights == old(toFights)
      ensures info.serverType == Fight && info.serverId in old(toFights) ==>
        outcome == AlreadyLinked && toFights == old(toFights)
      ensures info.serverType == Fight && info.serverId !in old(toFights) ==>
        var made := build(FightLinkConfig(config, innerPass, info));
        && (made.None? ==> outcome == BuildFailed && toFights == old(toFights))
        && (made.Some? ==>
              var client := SlaveClient(made.value, FightLinkConfig(config, innerPass, info));
              && toFights == old(toFights)[info.serverId := client]
              && outcome == (if start(made.value) then Linked(client) else StartFailed(client)))
    {
      if info.serverType == Fight {
        if info.serverId in toFights {
          return AlreadyLinked;
        }
        var settings := FightLinkConfig(config, innerPass, info);
        var made := build(settings);
        if made.None? {
          return BuildFailed;
        }
        var client := SlaveClient(made.value, settings);
        toFights := toFights[info.serverId := client];
        if !start(made.value) {
          return StartFailed(client);
        }
        return Linked(client);
      }
      return NotFight;
    }

    method GetPublicClient() returns (c: SlaveClient)
      requires Valid()
      ensures c == toPublic
      ensures c.config == PublicLinkConfig(config, innerPass)
    {
      c := toPublic;
    }

    /** getFightClient(serverId): the link to that fight server, or null. */
    method GetFightClient(serverId: int) returns (c: Option<SlaveClient>)
      requires Valid()
      ensures c.Some? <==> serverId in toFights
      ensures c.Some? ==> c.value == toFights[serverId] && IsFightLink(c.value.config, config, innerPass, serverId)
    {
      if serverId in toFights {
        return Some(toFights[serverId]);
      }
      return None;
    }

    /** getFightClients(): a fresh list of the table's links, one per entry. */
    method GetFightClients() returns (clients: seq<SlaveClient>)
      requires Valid()
      ensures |clients| == |toFights|
      ensures forall i, j :: 0 <= i < j < |clients| ==> clients[i] != clients[j]
      ensures forall id :: id in toFights ==> toFights[id] in clients
      ensures forall c :: c in clients ==> c in toFights.Values
    {
      var ids := MapKeys.Enumerate(toFights);
      clients := [];
      var i := 0;
      while i < |ids|
        invariant 0 <= i <= |ids|
        invariant |clients| == i
        invariant forall k :: 0 <= k < i ==> clients[k] == toFights[ids[k]]
        invariant forall k :: 0 <= k < i ==> clients[k].config.channelTag == Some((Fight, ids[k]))
      {
        assert IsFightLink(toFights[ids[i]].config, config, innerPass, ids[i]);
        clients := clients + [toFights[ids[i]]];
        i := i + 1;
      }
      forall id | id in toFights
        ensures toFights[id] in clients
      {
        var k :| 0 <= k < |ids| && ids[k] == id;
        assert clients[k] == toFights[id];
      }
    }
  }

  /**
   * The same join notification delivered twice to a game node dials once: the
   * second delivery returns early and the table holds one link for the id.
   */
  method JoinTwiceDialsOnce(server: InnerGameServer, info: InnerServerInfo, build: Builder, start: nat -> bool)
    returns (first: JoinOutcome, second: JoinOutcome)
    requires server.Valid() && info.serverType == Fight
    requires build(FightLinkConfig(server.config, server.innerPass, info)).Some?
    modifies server
    ensures second == AlreadyLinked
    ensures server.toFights.Keys == old(server.toFights.Keys) + {info.serverId}
    ensures info.serverId !in old(server.toFights) ==> first.Linked? || first.StartFailed?
  {
    first := server.OnNewSlaveJoin(info, build, start);
    second := server.OnNewSlaveJoin(info, build, start);
  }
}
