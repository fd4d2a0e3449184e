/** The QUIC connection manager: builds pools from its configuration, hands
    out configuration clones and rotates the client identity; plus the
    configuration set-up done when a QUIC connection cache is created. */
module Manager {
  import opened Wrappers
  import opened Keys
  import opened Config
  import opened Pool

  datatype QuicConnectionManager = QuicConnectionManager(connectionConfig: QuicConfig)

  /** `new_connection_pool`: an empty pool with its own lazy endpoint, built
      from the certificate the manager holds now. */
  function NewConnectionPool(manager: QuicConnectionManager): (pool: QuicPool)
    ensures NumConnections(pool) == 0
    ensures pool.endpoint.certificate == manager.connectionConfig.clientCertificate
    ensures pool.endpoint.clientEndpoint == manager.connectionConfig.clientEndpoint
    ensures EntriesBound(pool)
  {
    QuicPool([], CreateEndpoint(manager.connectionConfig))
  }

  /** `new_connection_config`: a clone of the manager's configuration. */
  function NewConnectionConfig(manager: QuicConnectionManager): (config: QuicConfig)
    ensures config == manager.connectionConfig
  {
    Clone(manager.connectionConfig)
  }

  /** `update_key`: swaps the identity in the manager's configuration; it
      always succeeds. */
  function UpdateKey(manager: QuicConnectionManager, key: Keypair): (r: Result<QuicConnectionManager, string>)
    ensures r.Ok?
    ensures DerivedFrom(r.value.connectionConfig.clientCertificate, key)
    ensures Valid(r.value.connectionConfig)
    ensures r.value.connectionConfig.maybeStakedNodes == manager.connectionConfig.maybeStakedNodes
    ensures r.value.connectionConfig.maybeClientPubkey == manager.connectionConfig.maybeClientPubkey
    ensures r.value.connectionConfig.clientEndpoint == manager.connectionConfig.clientEndpoint
  {
    Ok(QuicConnectionManager(UpdateKeypair(manager.connectionConfig, key)))
  }

  /** What `new_quic_connection_cache` passes on to the generic cache
      constructor: the cache name, the configured manager and the pool size. */
  datatype CacheSetup = CacheSetup(name: string, manager: QuicConnectionManager, connectionPoolSize: nat)

  /** The configuration set-up of `new_quic_connection_cache`. The keypair
      `generated` stands for the random keypair `QuicConfig::new` draws. */
  function NewQuicConnectionCache(
    name: string, keypair: Keypair, ipaddr: IpAddr, stakedNodes: StakedNodes,
    connectionPoolSize: nat, generated: Keypair): (setup: CacheSetup)
    ensures setup.name == name && setup.connectionPoolSize == connectionPoolSize
    ensures DerivedFrom(setup.manager.connectionConfig.clientCertificate, keypair)
    ensures Valid(setup.manager.connectionConfig)
    ensures setup.manager.connectionConfig.maybeStakedNodes == Some(stakedNodes)
    ensures setup.manager.connectionConfig.maybeClientPubkey == Some(keypair.pubkey)
    ensures setup.manager.connectionConfig.clientEndpoint.None?
  {
    var config := New(generated);
    var config := UpdateClientCertificate(config, keypair, ipaddr);
    var config := SetStakedNodes(config, stakedNodes, keypair.pubkey);
    CacheSetup(name, QuicConnectionManager(config), connectionPoolSize)
  }

  /** The random keypair drawn by `QuicConfig::new` never survives cache
      set-up: the identity is always the caller's keypair. */
  lemma CacheSetupIgnoresGeneratedKeypair(
    name: string, keypair: Keypair, ipaddr: IpAddr, stakedNodes: StakedNodes,
    connectionPoolSize: nat, generated: Keypair, other: Keypair)
    ensures NewQuicConnectionCache(name, keypair, ipaddr, stakedNodes, connectionPoolSize, generated)
         == NewQuicConnectionCache(name, keypair, ipaddr, stakedNodes, connectionPoolSize, other)
  {
  }

  /** Every entry a fresh pool creates is bound to that pool's endpoint and
      to the requested address. */
  lemma FreshPoolEntries(manager: QuicConnectionManager, addrs: seq<SocketAddr>)
    ensures var pool := AddAll(NewConnectionPool(manager), NewConnectionConfig(manager), addrs);
      && NumConnections(pool) == |addrs|
      && EntriesBound(pool)
      && forall k :: 0 <= k < |addrs| ==> pool.connections[k].client.addr == addrs[k]
  {
    var empty := NewConnectionPool(manager);
    var config := NewConnectionConfig(manager);
    AddAllAppends(empty, config, addrs);
    var pool := AddAll(empty, config, addrs);
    forall k | 0 <= k < |addrs|
      ensures pool.connections[k] == Quic(QuicClient(empty.endpoint, addrs[k]))
    {
      assert pool.connections[0 + k] == Quic(QuicClient(empty.endpoint, addrs[k]));
    }
    assert pool.endpoint == empty.endpoint;
  }

  /** Identity rotation as the code does it: a pool built after `update_key`
      presents the new certificate, while a pool built before keeps the old
      certificate for every entry it creates, including entries added after
      the rotation. */
  lemma RotationReachesNewPoolsOnly(manager: QuicConnectionManager, key: Keypair, addr: SocketAddr)
    ensures var rotated := UpdateKey(manager, key).value;
      var before := NewConnectionPool(manager);
      var after := NewConnectionPool(rotated);
      && AddConnection(before, NewConnectionConfig(rotated), addr).pool.connections[NumConnections(before)]
           .client.endpoint.certificate == manager.connectionConfig.clientCertificate
      && DerivedFrom(AddConnection(after, NewConnectionConfig(rotated), addr).pool.connections[NumConnections(after)]
           .client.endpoint.certificate, key)
  {
  }
}
