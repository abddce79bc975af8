/**
 * The replica server's failure detector towards the meta servers
 * (`replication_failure_detector`): it tracks which meta server is the
 * leader from the beacon acks it receives and tells the replica stub when
 * the leader's connection goes down or comes up.
 */
module ReplicationFailureDetector {
  import opened ErrorCodes
  import opened GroupAddress

  /** The fields of `fd::beacon_ack` that the leader tracking reads. */
  datatype BeaconAck = BeaconAck(thisNode: RpcAddress, isMaster: bool, primaryNode: RpcAddress)

  /** What one ack makes `end_ping` do. */
  datatype PingAction =
    | Ignore
    | Switch(from: RpcAddress, to: RpcAddress)  // switch_master(from, to)
    | MakeLeader(node: RpcAddress)              // _meta_servers.set_leader(node)

  /** Calls out of the detector, recorded in order. */
  datatype Notice =
    | SwitchMasterCalled(from: RpcAddress, to: RpcAddress)
    | MetaServerDisconnected  // _stub->on_meta_server_disconnected()
    | MetaServerConnected     // _stub->on_meta_server_connected()

  /**
   * The case split of `end_ping`. `next` is what `_meta_servers.next(ack.this_node)`
   * returns; it is consulted only for a failed ping of the leader.
   */
  function PingDecision(leader: RpcAddress, next: RpcAddress, err: ErrorCode, ack: BeaconAck): (r: PingAction)
    ensures r.Switch? ==> r.from == ack.thisNode
    ensures r.MakeLeader? ==> r.node == ack.thisNode
    ensures r != Ignore ==> ack.thisNode == leader || err == ErrOk
  {
    if ack.thisNode == leader then
      if err != ErrOk then
        if ack.thisNode != next then Switch(ack.thisNode, next) else Ignore
      else if !ack.isMaster then
        if ack.primaryNode != InvalidAddress then Switch(ack.thisNode, ack.primaryNode) else Ignore
      else Ignore
    else
      if err != ErrOk then Ignore
      else if !ack.isMaster then
        if ack.primaryNode != InvalidAddress then Switch(ack.thisNode, ack.primaryNode) else Ignore
      else MakeLeader(ack.thisNode)
  }

  /** A failed ping of the leader moves on to the next meta server, unless that is the leader itself. */
  lemma LeaderFailureSwitchesToNext(leader: RpcAddress, next: RpcAddress, err: ErrorCode, ack: BeaconAck)
    requires ack.thisNode == leader && err != ErrOk
    ensures next != leader ==> PingDecision(leader, next, err, ack) == Switch(leader, next)
    ensures next == leader ==> PingDecision(leader, next, err, ack) == Ignore
  {
  }

  /**
   * A successful ack from a server that is not the master redirects to the primary
   * it names, whether or not it came from the leader; without a valid primary nothing happens.
   */
  lemma NonMasterRedirectsToPrimary(leader: RpcAddress, next: RpcAddress, err: ErrorCode, ack: BeaconAck)
    requires err == ErrOk && !ack.isMaster
    ensures ack.primaryNode != InvalidAddress ==>
              PingDecision(leader, next, err, ack) == Switch(ack.thisNode, ack.primaryNode)
    ensures ack.primaryNode == InvalidAddress ==> PingDecision(leader, next, err, ack) == Ignore
  {
  }

  /** A failed ping of a server other than the leader is ignored. */
  lemma NonLeaderFailureIgnored(leader: RpcAddress, next: RpcAddress, err: ErrorCode, ack: BeaconAck)
    requires ack.thisNode != leader && err != ErrOk
    ensures PingDecision(leader, next, err, ack) == Ignore
  {
  }

  /** The leader confirming that it is the master changes nothing. */
  lemma LeaderConfirmationIgnored(leader: RpcAddress, next: RpcAddress, err: ErrorCode, ack: BeaconAck)
    requires ack.thisNode == leader && err == ErrOk && ack.isMaster
    ensures PingDecision(leader, next, err, ack) == Ignore
  {
  }

  /** The leader is replaced exactly when another server answers successfully that it is the master. */
  lemma LeaderChangesOnlyOnMasterClaim(leader: RpcAddress, next: RpcAddress, err: ErrorCode, ack: BeaconAck)
    ensures PingDecision(leader, next, err, ack).MakeLeader? <==>
              ack.thisNode != leader && err == ErrOk && ack.isMaster
    ensures PingDecision(leader, next, err, ack).MakeLeader? ==>
              PingDecision(leader, next, err, ack).node == ack.thisNode
  {
  }

  /** Every switch starts at the server that answered and never targets it or an invalid address. */
  lemma SwitchLeavesResponder(leader: RpcAddress, next: RpcAddress, err: ErrorCode, ack: BeaconAck)
    requires next != InvalidAddress
    ensures var a := PingDecision(leader, next, err, ack);
            a.Switch? ==> a.from == ack.thisNode && a.to != InvalidAddress
                          && (err != ErrOk ==> a.to != ack.thisNode)
  {
  }

  class FailureDetector {
    var metaServers: Group
    var notices: seq<Notice>

    ghost predicate Valid()
      reads this
    {
      GroupAddress.Valid(metaServers)
    }

    /** Adds every given meta server to the group and makes a random one of them the leader. */
    constructor (servers: seq<RpcAddress>, choice: nat)
      ensures Valid()
      ensures metaServers.members == FirstOccurrences(servers)
      ensures Distinct(servers) ==> metaServers.members == servers
      ensures forall s :: s in servers ==> s in metaServers.members
      ensures forall m :: m in metaServers.members ==> m in servers
      ensures |servers| > 0 ==> metaServers.leader in metaServers.members
      ensures |servers| == 0 ==> metaServers.leader == InvalidAddress
      ensures notices == []
    {
      var g := EmptyGroup;
      for i := 0 to |servers|
        invariant GroupAddress.Valid(g)
        invariant g.leader == InvalidAddress
        invariant g.members == FirstOccurrences(servers[..i])
      {
        assert servers[..i + 1][..i] == servers[..i];
        g := Add(g, servers[i]);
      }
      assert servers[..|servers|] == servers;
      if Distinct(servers) {
        FirstOccurrencesOfDistinct(servers);
      }
      assert |servers| > 0 ==> servers[0] in g.members;
      metaServers := SetLeader(g, RandomMember(g, choice));
      notices := [];
    }

    /** Applies the decision for one beacon ack to the group and the recorded calls. */
    method EndPing(err: ErrorCode, ack: BeaconAck, choice: nat)
      requires Valid()
      modifies this
      ensures Valid()
      ensures var a := PingDecision(old(metaServers.leader), Next(old(metaServers), ack.thisNode, choice), err, ack);
              && (a.Ignore? ==> metaServers == old(metaServers) && notices == old(notices))
              && (a.Switch? ==> metaServers == old(metaServers)
                                && notices == old(notices) + [SwitchMasterCalled(a.from, a.to)])
              && (a.MakeLeader? ==> metaServers == SetLeader(old(metaServers), a.node)
                                    && notices == old(notices))
      ensures metaServers.leader != old(metaServers.leader) ==>
                err == ErrOk && ack.isMaster && metaServers.leader == ack.thisNode
      ensures forall m :: m in old(metaServers.members) ==> m in metaServers.members
    {
      var next := Next(metaServers, ack.thisNode, choice);
      match PingDecision(metaServers.leader, next, err, ack)
      case Ignore =>
      case Switch(from, to) =>
        notices := notices + [SwitchMasterCalled(from, to)];
      case MakeLeader(node) =>
        metaServers := SetLeader(metaServers, node);
    }

    /** Tells the stub once when the leader is among the disconnected servers. */
    method OnMasterDisconnected(nodes: seq<RpcAddress>)
      modifies this`notices
      ensures notices == old(notices) + (if metaServers.leader in nodes then [MetaServerDisconnected] else [])
    {
      var primaryDisconnected := false;
      for i := 0 to |nodes|
        invariant primaryDisconnected <==> metaServers.leader in nodes[..i]
      {
        assert nodes[..i + 1] == nodes[..i] + [nodes[i]];
        if metaServers.leader == nodes[i] {
          primaryDisconnected := true;
        }
      }
      assert nodes[..|nodes|] == nodes;
      if primaryDisconnected {
        notices := notices + [MetaServerDisconnected];
      }
    }

    /** Tells the stub when the server that connected is the leader. */
    method OnMasterConnected(node: RpcAddress)
      modifies this`notices
      ensures notices == old(notices) + (if node == metaServers.leader then [MetaServerConnected] else [])
    {
      var isPrimary := node == metaServers.leader;
      if isPrimary {
        notices := notices + [MetaServerConnected];
      }
    }
  }
}
