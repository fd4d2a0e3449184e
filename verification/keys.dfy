/** Account addresses and signing keypairs. */
module Keys {
  import opened Bytes

  /** A 32-byte public key (an account address). */
  type Pubkey = s: seq<Byte> | |s| == 32 witness seq(32, _ => 0 as Byte)

  /** An ed25519 keypair. The derivation of the public half from the
      secret half is cryptography and is not modelled: the keypair simply
      carries both. */
  datatype Keypair = Keypair(secret: seq<Byte>, pubkey: Pubkey)
}
