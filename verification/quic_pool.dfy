/** The QUIC connection pool for one destination: an append-only sequence of
    connection entries, all bound to the pool's own lazily initialised
    endpoint. */
module Pool {
  import opened Wrappers
  import opened Config

  /** A client bound to an endpoint and a destination address. */
  datatype QuicClient = QuicClient(endpoint: LazyEndpoint, addr: SocketAddr)

  /** A pool entry: a shared handle to one client. */
  datatype Quic = Quic(client: QuicClient)

  datatype QuicPool = QuicPool(connections: seq<Quic>, endpoint: LazyEndpoint)

  datatype ConnectionPoolError = IndexOutOfRange

  /** The result of `add_connection`: the grown pool and the returned index. */
  datatype Added = Added(pool: QuicPool, index: nat)

  /** `num_connections`: the number of indices at which `get` finds an
      entry. */
  function NumConnections(pool: QuicPool): (n: nat)
    ensures forall i: nat :: Get(pool, i).Ok? <==> i < n
  {
    |pool.connections|
  }

  /** Every entry is bound to the pool's own endpoint. */
  predicate EntriesBound(pool: QuicPool)
  {
    forall i :: 0 <= i < |pool.connections| ==> pool.connections[i].client.endpoint == pool.endpoint
  }

  /** `create_pool_entry`: a new client on the pool's endpoint for `addr`.
      The configuration argument is not consulted. */
  function CreatePoolEntry(pool: QuicPool, config: QuicConfig, addr: SocketAddr): (entry: Quic)
    ensures entry.client.endpoint == pool.endpoint
    ensures entry.client.addr == addr
  {
    Quic(QuicClient(pool.endpoint, addr))
  }

  /** `add_connection`: appends a new entry and returns its index, which is
      the length of the pool before the call. */
  function AddConnection(pool: QuicPool, config: QuicConfig, addr: SocketAddr): (r: Added)
    ensures r.index == NumConnections(pool)
    ensures NumConnections(r.pool) == NumConnections(pool) + 1
    ensures r.pool.connections[r.index] == CreatePoolEntry(pool, config, addr)
    ensures forall i :: 0 <= i < NumConnections(pool) ==> r.pool.connections[i] == pool.connections[i]
    ensures r.pool.endpoint == pool.endpoint
    ensures EntriesBound(pool) ==> EntriesBound(r.pool)
  {
    var connection := CreatePoolEntry(pool, config, addr);
    var idx := |pool.connections|;
    Added(pool.(connections := pool.connections + [connection]), idx)
  }

  /** `get`: bounds-checked lookup. */
  function Get(pool: QuicPool, index: nat): (r: Result<Quic, ConnectionPoolError>)
    ensures r.Ok? <==> index < |pool.connections|
    ensures r.Ok? ==> r.value == pool.connections[index]
    ensures r.Err? ==> r.error == IndexOutOfRange
  {
    if index < |pool.connections| then Ok(pool.connections[index]) else Err(IndexOutOfRange)
  }

  /** `Drop`: drains the entry list front to back, explicitly closing each
      entry's client. The closes are returned as a log, in the order they
      were issued, with the drained pool. */
  method Drop(pool: QuicPool) returns (closed: seq<QuicClient>, drained: QuicPool)
    ensures |closed| == NumConnections(pool)
    ensures forall i :: 0 <= i < |closed| ==> closed[i] == pool.connections[i].client
    ensures NumConnections(drained) == 0
    ensures drained.endpoint == pool.endpoint
  {
    closed := [];
    var remaining := pool.connections;
    while remaining != []
      invariant |closed| + |remaining| == |pool.connections|
      invariant remaining == pool.connections[|closed|..]
      invariant forall i :: 0 <= i < |closed| ==> closed[i] == pool.connections[i].client
      decreases |remaining|
    {
      var connection := remaining[0];
      remaining := remaining[1..];
      closed := closed + [connection.client];
    }
    drained := pool.(connections := remaining);
  }

  /** Lookup after `add_connection`: the returned index finds the new entry,
      every earlier index finds what it found before, and nothing lies beyond
      the new entry. */
  lemma GetAfterAdd(pool: QuicPool, config: QuicConfig, addr: SocketAddr, j: nat)
    ensures Get(AddConnection(pool, config, addr).pool, AddConnection(pool, config, addr).index)
         == Ok(CreatePoolEntry(pool, config, addr))
    ensures j < NumConnections(pool) ==> Get(AddConnection(pool, config, addr).pool, j) == Get(pool, j)
    ensures j > NumConnections(pool) ==> Get(AddConnection(pool, config, addr).pool, j) == Err(IndexOutOfRange)
  {
  }

  /** The configuration handed to `add_connection` does not influence the
      entry: only the pool's endpoint and the address do. */
  lemma EntryIgnoresConfig(pool: QuicPool, config: QuicConfig, other: QuicConfig, addr: SocketAddr)
    ensures AddConnection(pool, config, addr) == AddConnection(pool, other, addr)
  {
  }

  /** Adding one connection per address, in order. */
  function AddAll(pool: QuicPool, config: QuicConfig, addrs: seq<SocketAddr>): QuicPool
    decreases |addrs|
  {
    if addrs == [] then pool
    else AddAll(AddConnection(pool, config, addrs[0]).pool, config, addrs[1..])
  }

  /** Growing a pool by one `add_connection` per address appends exactly
      those entries, in order, each bound to the pool's endpoint, and leaves
      the earlier entries in place. */
  lemma {:induction false} AddAllAppends(pool: QuicPool, config: QuicConfig, addrs: seq<SocketAddr>)
    ensures AddAll(pool, config, addrs).endpoint == pool.endpoint
    ensures NumConnections(AddAll(pool, config, addrs)) == NumConnections(pool) + |addrs|
    ensures AddAll(pool, config, addrs).connections[..NumConnections(pool)] == pool.connections
    ensures forall k :: 0 <= k < |addrs| ==>
      AddAll(pool, config, addrs).connections[NumConnections(pool) + k] == Quic(QuicClient(pool.endpoint, addrs[k]))
    decreases |addrs|
  {
    if addrs != [] {
      var next := AddConnection(pool, config, addrs[0]).pool;
      AddAllAppends(next, config, addrs[1..]);
      var result := AddAll(pool, config, addrs);
      assert result == AddAll(next, config, addrs[1..]);
      assert result.connections[..NumConnections(next)] == next.connections;
      assert result.connections[..NumConnections(pool)] == next.connections[..NumConnections(pool)];
      forall k | 0 <= k < |addrs|
        ensures result.connections[NumConnections(pool) + k] == Quic(QuicClient(pool.endpoint, addrs[k]))
      {
        if k == 0 {
          assert result.connections[NumConnections(pool)] == next.connections[NumConnections(pool)];
        } else {
          assert addrs[1..][k - 1] == addrs[k];
        }
      }
    }
  }
}
