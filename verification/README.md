# QUIC connection pool, client configuration and loader-v4 source buffer — a Dafny model

This project models two small pieces of an agave validator.

1. **The QUIC client's pool and configuration** (`quic-client/src/lib.rs`).
   - A `QuicPool` is an append-only sequence of connection entries for one destination. Every entry is bound to the pool's own lazily initialised endpoint.
   - `add_connection` appends an entry and returns its index. `get` is a bounds-checked lookup. Dropping the pool closes every entry in order and drains the list.
   - A `QuicConfig` carries a certificate cell, the optional staked-nodes table with the client's public key, and an optional caller-supplied endpoint. The certificate is swapped as a whole (certificate and key from one keypair). A clone snapshots the certificate current at clone time.
   - The `QuicConnectionManager` builds pools from its configuration, hands out clones of it and rotates its key. `new_quic_connection_cache` sets up the configuration it passes to the generic cache.
2. **The loader-v4 source-buffer check of core BPF migration** (`runtime/src/bank/builtins/core_bpf_migration/source_buffer_v4.rs`).
   - `SourceBufferV4::new_checked` looks an address up in the bank and checks, in this order: the account exists (`AccountNotFound`); loader v4 owns it (`IncorrectOwner`); its data holds a complete header whose status is `Retracted` (`InvalidBufferAccount`).
   - On success it returns the address and the account unchanged.

Modelling choices:
- Everything is a value. An operation that mutates in Rust (through `&mut self` or through the certificate's lock) returns the updated value here.
- Each lock-guarded section is one atomic step.
- The close calls of `Drop` are returned as a log, a real out-parameter.
- Certificate generation is symbolic. `NewDummyX509Certificate(kp)` is the certificate and key "of `kp`", so "both halves come from one keypair" is a checkable predicate (`Paired`).
- Handles to things outside the model (a caller's endpoint, the shared stake table) are identities (`Endpoint(id)`, `StakedNodes(id)`).
- The randomness of `Keypair::new()` becomes a parameter (`generated`).
- The bank is the map of accounts that its fixed-root lookup returns.
- The `LoaderV4State` layout comes from the loader-v4 interface crate, which is not part of this model. The model uses its `repr(C)` layout: slot as u64 little endian at bytes 0..8, the authority address at 8..40, and the status discriminant as u64 little endian at 40..48. So `program_data_offset()` is 48, with `Retracted` = 0, `Deployed` = 1 and `Finalized` = 2.
- The loader-v4 id is the base58 address `LoaderV411111111111111111111111111111111111`, written out as bytes.

Files: `wrappers.dfy` (Option/Result), `bytes.dfy`, `keys.dfy`, `quic_config.dfy` (module `Config`), `quic_pool.dfy` (module `Pool`), `quic_manager.dfy` (module `Manager`), `loader_v4_state.dfy` (module `LoaderV4`), `source_buffer_v4.dfy` (module `SourceBuffer`).

### How pools, endpoints and certificates relate in the code

- Each `new_connection_pool` call builds its own `QuicLazyInitializedEndpoint` (`quic-client/src/lib.rs:215-220`). Endpoints are not shared between pools.
- A pool keeps the certificate its endpoint captured when the pool was built (`quic-client/src/lib.rs:130-133`). Every entry the pool creates uses that endpoint (`quic-client/src/lib.rs:66-75`).
- So, at the level of the manager and one pool, an entry added after `update_key` to a pool built before it still presents the old certificate. A pool built after `update_key` presents the new one. `Manager.RotationReachesNewPoolsOnly` states this. Whether an old pool survives a key update is decided by the generic connection cache, which is not part of this model.
- `create_pool_entry` does not use its configuration argument (`quic-client/src/lib.rs:68`). `Pool.EntryIgnoresConfig` states this.

## Model

| member | source | states |
|---|---|---|
| `Config.New` | quic-client/src/lib.rs:115-126 | a new configuration's certificate pair is generated from one keypair; it has no stake table, no client key and no endpoint; construction never fails |
| `Config.Clone` | quic-client/src/lib.rs:102-111 | the clone has the original's current certificate and shares its stake-table, client-key and endpoint handles |
| `Config.UpdateKeypair` | quic-client/src/lib.rs:146-155 | the certificate cell is replaced wholesale by the certificate and key of the given keypair; the stake table, client key and endpoint are unchanged |
| `Config.UpdateClientCertificate` | quic-client/src/lib.rs:135-144 | the same wholesale swap from the given keypair; no other field changes |
| `Config.SetStakedNodes` | quic-client/src/lib.rs:157-164 | the stake table and the client public key are both set; the certificate and endpoint are unchanged; a paired certificate stays paired |
| `Config.CreateEndpoint` | quic-client/src/lib.rs:130-133 | the lazy endpoint holds the configuration's current certificate and its optional endpoint, so it is paired whenever the configuration is |
| `Config.UpdatesAgree` | quic-client/src/lib.rs:135-155 | both swap entry points give the same configuration for every keypair, whatever IP address is passed |
| `Config.LastUpdateWins` | quic-client/src/lib.rs:146-155 | after two swaps only the last keypair matters; swapping twice to one keypair equals swapping once |
| `Config.CloneIsolation` | quic-client/src/lib.rs:102-111 | a clone keeps the certificate current at clone time, while a later swap on the original installs the new keypair's certificate |
| `Pool.CreatePoolEntry` | quic-client/src/lib.rs:66-75 | a new entry's client is bound to the pool's endpoint and to the requested address |
| `Pool.NumConnections` | quic-client/src/lib.rs:55-57 | the connection count is exactly the number of indices at which `get` finds an entry |
| `Pool.AddConnection` | quic-client/src/lib.rs:48-57 | returns the old length as the index; the count grows by exactly one; the new entry sits at that index; every earlier entry and the endpoint are unchanged; all-entries-bound-to-the-endpoint is preserved |
| `Pool.Get` | quic-client/src/lib.rs:59-64 | succeeds exactly when the index is below the connection count, then returning the entry at that index; otherwise fails with `IndexOutOfRange` |
| `Pool.Drop` | quic-client/src/lib.rs:78-88 | a pool with K entries issues exactly K closes, the i-th closing the i-th entry's client, and ends with no entries and the same endpoint |
| `Pool.GetAfterAdd` | quic-client/src/lib.rs:48-64 | after `add_connection`, the returned index finds the new entry, earlier indices find what they found before, and indices past the new entry fail |
| `Pool.EntryIgnoresConfig` | quic-client/src/lib.rs:66-75 | `add_connection` gives the same result for any configuration argument |
| `Pool.AddAllAppends` | quic-client/src/lib.rs:48-53 | repeated `add_connection` appends one entry per address, in order, each bound to the pool's endpoint, and keeps the earlier entries |
| `Manager.NewConnectionPool` | quic-client/src/lib.rs:215-220 | a new pool is empty; its endpoint carries the manager's current certificate and endpoint |
| `Manager.NewConnectionConfig` | quic-client/src/lib.rs:222-224 | the handed-out configuration equals the manager's current one |
| `Manager.UpdateKey` | quic-client/src/lib.rs:226-229 | always succeeds; the manager's certificate becomes the pair of the given keypair; nothing else changes |
| `Manager.NewQuicConnectionCache` | quic-client/src/lib.rs:240-252 | the cache's configuration presents the caller's keypair's certificate, has the given stake table and the keypair's public key, has no endpoint, and keeps the name and pool size |
| `Manager.CacheSetupIgnoresGeneratedKeypair` | quic-client/src/lib.rs:247-249 | the random keypair drawn by `QuicConfig::new` never survives cache set-up |
| `Manager.FreshPoolEntries` | quic-client/src/lib.rs:215-220 | every entry added to a fresh pool is bound to that pool's endpoint and to its requested address, one per request |
| `Manager.RotationReachesNewPoolsOnly` | quic-client/src/lib.rs:215-229 | for the manager and its pools alone: after `update_key`, a pool built before keeps presenting the old certificate, even for entries added later, while a pool built after presents the new keypair's certificate |
| `LoaderV4.LeRoundTrip` | runtime/src/bank/builtins/core_bpf_migration/source_buffer_v4.rs:37-43 | reading a little-endian u64 field of the header returns the value written there |
| `LoaderV4.StatusFromWord` | runtime/src/bank/builtins/core_bpf_migration/source_buffer_v4.rs:45 | a discriminant names a status exactly when it is 0, 1 or 2, and then names the status with that discriminant |
| `LoaderV4.EncodeState` | runtime/src/bank/builtins/core_bpf_migration/source_buffer_v4.rs:134-145 | a written header is 48 bytes, with the slot read back from bytes 0..8, the address at bytes 8..40 and the status discriminant read back from bytes 40..48 |
| `LoaderV4.DecodeState` | runtime/src/bank/builtins/core_bpf_migration/source_buffer_v4.rs:35-43 | whenever a 48-byte header decodes to a state, the header is exactly that state's in-memory encoding |
| `LoaderV4.HeaderIsEncoding` | runtime/src/bank/builtins/core_bpf_migration/source_buffer_v4.rs:37-43 | a 48-byte header whose three fields denote a state's fields is exactly that state's encoding |
| `LoaderV4.DecodeEncode` | runtime/src/bank/builtins/core_bpf_migration/source_buffer_v4.rs:134-145 | reading back a header written from a state gives that state |
| `LoaderV4.HeaderStatus` | runtime/src/bank/builtins/core_bpf_migration/source_buffer_v4.rs:45 | an account's header status is defined exactly when the discriminant in bytes 40..48 is below 3, and is then the status with that discriminant |
| `SourceBuffer.GetAccountWithFixedRoot` | runtime/src/bank/builtins/core_bpf_migration/source_buffer_v4.rs:25-27 | the lookup finds an account exactly when the address is in the bank, and then finds the stored account |
| `SourceBuffer.NewChecked` | runtime/src/bank/builtins/core_bpf_migration/source_buffer_v4.rs:20-53 | succeeds iff the account exists, loader v4 owns it and its complete header says `Retracted`; on success returns the address and the unchanged account; a missing account gives `AccountNotFound`; a foreign owner gives `IncorrectOwner` whatever the data; a short or non-`Retracted` header gives `InvalidBufferAccount`; every error names the address |
| `SourceBuffer.OnlyBufferEntryMatters` | runtime/src/bank/builtins/core_bpf_migration/source_buffer_v4.rs:25-27 | the outcome depends only on the bank's entry for the buffer address |
| `SourceBuffer.OnlyHeaderMatters` | runtime/src/bank/builtins/core_bpf_migration/source_buffer_v4.rs:29-51 | with the same owner and the same 48 header bytes, two accounts are both accepted or both refused |
| `SourceBuffer.RetractedBufferValidates` | runtime/src/bank/builtins/core_bpf_migration/source_buffer_v4.rs:154-198 | a loader-v4 account whose header is a written `Retracted` state validates, and the returned account keeps the program bytes after the header |
| `SourceBuffer.ValidBufferHasRetractedHeader` | runtime/src/bank/builtins/core_bpf_migration/source_buffer_v4.rs:34-50 | every buffer that validates starts with the written encoding of some `Retracted` state |
| `SourceBuffer.NotRetractedBufferRefused` | runtime/src/bank/builtins/core_bpf_migration/source_buffer_v4.rs:146-152 | a loader-v4 account whose header is a written state with any other status is refused with `InvalidBufferAccount` |
| `SourceBuffer.UnitTestScenario` | runtime/src/bank/builtins/core_bpf_migration/source_buffer_v4.rs:98-199 | the unit test's five steps: missing, foreign-owned, junk header, `Deployed` header and valid `Retracted` buffer give the expected outcomes |

## Left out

- The `ConnectionCache` registry is not part of this model: its capacity cap, round-robin reuse and one pool per address live in the `solana_connection_cache` crate.
- `RwLock`/`Arc` semantics, lock poisoning and concurrency: every guarded section is one atomic step. Reference identity of `Arc`s is not modelled, so two pools built from one configuration have equal endpoint values.
- `QuicLazyInitializedEndpoint`: the model keeps only what its constructor captures (the certificate and the optional endpoint, in `Config.LazyEndpoint`). Its first-use socket binding, `update_client_endpoint` and the tokio runtime are socket I/O and are left out.
- The manager's protocol tag (`PROTOCOL = QUIC`) is metadata that nothing in the modelled code reads, so it is left out.
- `close_quic_connection` is transport I/O. The model records each call in the close log and nothing else.
- The blocking and non-blocking connection wrappers and `ConnectionCacheStats` forward to types that are not part of this model.
- Debug logging in `Drop` is left out.
- `Pool.AddConnection`: lengths and indices are unbounded naturals. The `usize` width and the allocation failure of `Vec::push` are not modelled.
- `Manager.NewQuicConnectionCache`: covers only the configuration set-up. `ConnectionCache::new` lives in a crate that is not part of this model, so its result and possible error are not modelled.
- `Manager.UpdateKey`: the error type is a plain string standing in for `Box<dyn Error>`. The function never returns an error.
- Certificate generation (`new_dummy_x509_certificate`) and keypair derivation are cryptography. They are modelled symbolically.
- The commented-out build-hash check (`new_checked_with_verified_build_hash`) is dead code and depends on SHA-256.
- `CoreBpfMigrationError` has more variants than the three modelled; `new_checked` can raise only these three.
- The header is read by an `unsafe` transmute. That is modelled as a little-endian decode on a little-endian host. A status discriminant that is not 0, 1 or 2 is undefined behaviour in Rust. The model treats it as "not `Retracted`", which is the outcome the unit test expects for 200 bytes of 4s.
- How the bank resolves fixed-root lookups (ancestors, zero-lamport filtering) is not modelled. The bank is the map that the lookup returns.
