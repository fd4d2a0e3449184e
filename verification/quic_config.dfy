/** The configuration a QUIC connection manager hands to the pools it builds:
    the client's TLS identity (a swappable certificate cell), the optional
    staked-nodes table with the client's own public key, and an optional
    caller-supplied endpoint.

    The reader/writer lock around the certificate is not modelled: each
    guarded section is one atomic step, so a reader sees either the whole old
    pair or the whole new pair. Every operation that mutates in Rust returns
    the updated configuration here. */
module Config {
  import opened Wrappers
  import opened Bytes
  import opened Keys

  /** A local IP address; carried but never inspected by the modelled code. */
  datatype IpAddr = IpAddr(octets: seq<Byte>)

  /** A UDP port number. */
  type Port = p: nat | p < 0x1_0000

  /** A destination address: IP plus UDP port. */
  datatype SocketAddr = SocketAddr(ip: IpAddr, port: Port)

  /** A handle to a caller-created transport endpoint (a cloned handle refers
      to the same endpoint, so handles compare by identity). */
  datatype Endpoint = Endpoint(id: nat)

  /** A shared handle to the stake table. Cloning the handle shares the
      table, so handles compare by identity and the table's contents are
      outside this model. */
  datatype StakedNodes = StakedNodes(id: nat)

  /** A self-signed X.509 certificate, represented by the keypair that
      signed it. */
  datatype X509Certificate = DummyX509(signer: Keypair)

  /** A DER private key, represented by the keypair it was taken from. */
  datatype PrivateKey = PrivateKeyDer(owner: Keypair)

  /** The identity presented in every TLS handshake. */
  datatype QuicClientCertificate = QuicClientCertificate(certificate: X509Certificate, key: PrivateKey)

  /** Certificate generation is a black box to the connection code; it is
      modelled symbolically as the certificate and key of the given
      keypair. */
  function NewDummyX509Certificate(keypair: Keypair): (X509Certificate, PrivateKey)
  {
    (DummyX509(keypair), PrivateKeyDer(keypair))
  }

  /** The certificate pair is exactly what `keypair` generates. */
  predicate DerivedFrom(cert: QuicClientCertificate, keypair: Keypair)
  {
    (cert.certificate, cert.key) == NewDummyX509Certificate(keypair)
  }

  /** Both halves of the pair come from one keypair: never half-updated. */
  predicate Paired(cert: QuicClientCertificate)
  {
    cert.certificate.signer == cert.key.owner
  }

  datatype QuicConfig = QuicConfig(
    clientCertificate: QuicClientCertificate,
    maybeStakedNodes: Option<StakedNodes>,
    maybeClientPubkey: Option<Pubkey>,
    clientEndpoint: Option<Endpoint>)

  /** The invariant every configuration keeps. */
  predicate Valid(config: QuicConfig)
  {
    Paired(config.clientCertificate)
  }

  /** Builds the certificate cell's content from one keypair, both halves in
      one step. */
  function CertificateFor(keypair: Keypair): (cert: QuicClientCertificate)
    ensures Paired(cert)
    ensures DerivedFrom(cert, keypair)
  {
    var (certificate, key) := NewDummyX509Certificate(keypair);
    QuicClientCertificate(certificate, key)
  }

  /** `NewConnectionConfig::new`: an identity from a freshly generated
      keypair (the random generator becomes the parameter `generated`), no
      stake table, no client key, no endpoint. The Rust signature returns a
      `Result`, but this constructor never fails. */
  function New(generated: Keypair): (config: QuicConfig)
    ensures Valid(config)
    ensures DerivedFrom(config.clientCertificate, generated)
    ensures config.maybeStakedNodes.None? && config.maybeClientPubkey.None?
    ensures config.clientEndpoint.None?
  {
    QuicConfig(CertificateFor(generated), None, None, None)
  }

  /** `Clone`: the clone's cell starts with the certificate current at clone
      time; the stake-table handle and endpoint handle are shared. */
  function Clone(config: QuicConfig): (copy: QuicConfig)
    ensures copy == config
  {
    QuicConfig(config.clientCertificate, config.maybeStakedNodes, config.maybeClientPubkey, config.clientEndpoint)
  }

  /** `update_keypair`: replaces the certificate cell wholesale with the pair
      generated from `keypair`. */
  function UpdateKeypair(config: QuicConfig, keypair: Keypair): (updated: QuicConfig)
    ensures Valid(updated)
    ensures DerivedFrom(updated.clientCertificate, keypair)
    ensures updated.maybeStakedNodes == config.maybeStakedNodes
    ensures updated.maybeClientPubkey == config.maybeClientPubkey
    ensures updated.clientEndpoint == config.clientEndpoint
  {
    config.(clientCertificate := CertificateFor(keypair))
  }

  /** `update_client_certificate`: the same swap; the IP address argument is
      ignored. */
  function UpdateClientCertificate(config: QuicConfig, keypair: Keypair, ipaddr: IpAddr): (updated: QuicConfig)
    ensures Valid(updated)
    ensures DerivedFrom(updated.clientCertificate, keypair)
    ensures updated.maybeStakedNodes == config.maybeStakedNodes
    ensures updated.maybeClientPubkey == config.maybeClientPubkey
    ensures updated.clientEndpoint == config.clientEndpoint
  {
    var (certificate, key) := NewDummyX509Certificate(keypair);
    config.(clientCertificate := QuicClientCertificate(certificate, key))
  }

  /** `set_staked_nodes`: sets the stake table and the client key together. */
  function SetStakedNodes(config: QuicConfig, stakedNodes: StakedNodes, clientPubkey: Pubkey): (updated: QuicConfig)
    ensures updated.maybeStakedNodes == Some(stakedNodes)
    ensures updated.maybeClientPubkey == Some(clientPubkey)
    ensures updated.clientCertificate == config.clientCertificate
    ensures updated.clientEndpoint == config.clientEndpoint
    ensures Valid(config) ==> Valid(updated)
  {
    config.(maybeStakedNodes := Some(stakedNodes), maybeClientPubkey := Some(clientPubkey))
  }

  /** The lazily initialised endpoint a pool connects through. Constructing
      it only records the certificate snapshot and the optional endpoint;
      binding a socket happens later, on first use, and is not modelled. */
  datatype LazyEndpoint = LazyEndpoint(certificate: QuicClientCertificate, clientEndpoint: Option<Endpoint>)

  /** `create_endpoint`: snapshots the certificate current now. */
  function CreateEndpoint(config: QuicConfig): (endpoint: LazyEndpoint)
    ensures endpoint.certificate == config.clientCertificate
    ensures endpoint.clientEndpoint == config.clientEndpoint
    ensures Valid(config) ==> Paired(endpoint.certificate)
  {
    LazyEndpoint(config.clientCertificate, config.clientEndpoint)
  }

  /** The two certificate-swapping entry points agree, whatever IP address
      is passed. */
  lemma UpdatesAgree(config: QuicConfig, keypair: Keypair, ipaddr: IpAddr)
    ensures UpdateClientCertificate(config, keypair, ipaddr) == UpdateKeypair(config, keypair)
  {
  }

  /** The last swap wins, and swapping twice to one keypair is the same as
      swapping once. */
  lemma LastUpdateWins(config: QuicConfig, first: Keypair, second: Keypair)
    ensures UpdateKeypair(UpdateKeypair(config, first), second) == UpdateKeypair(config, second)
    ensures UpdateKeypair(UpdateKeypair(config, second), second) == UpdateKeypair(config, second)
  {
  }

  /** A clone keeps the certificate current at clone time: a later swap on
      the original changes the original only. */
  lemma CloneIsolation(config: QuicConfig, keypair: Keypair)
    ensures Clone(config).clientCertificate == config.clientCertificate
    ensures UpdateKeypair(config, keypair).clientCertificate == CertificateFor(keypair)
    ensures Clone(UpdateKeypair(config, keypair)).clientCertificate == CertificateFor(keypair)
  {
  }
}
