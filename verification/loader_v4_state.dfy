/** The header at the start of every loader-v4 program account: a `repr(C)`
    record of the deployment slot (u64), the authority or next-version
    address (32 bytes) and the status (a u64 discriminant), stored little
    endian. Program bytes follow the header. */
module LoaderV4 {
  import opened Wrappers
  import opened Bytes
  import opened Keys

  datatype LoaderV4Status = Retracted | Deployed | Finalized

  /** Exclusive upper bound of a u64. */
  const U64_LIMIT: nat := 0x1_0000_0000_0000_0000

  type U64 = n: nat | n < U64_LIMIT

  datatype LoaderV4State = LoaderV4State(slot: U64, authorityAddressOrNextVersion: Pubkey, status: LoaderV4Status)

  /** `program_data_offset`: the size of the header, 8 + 32 + 8 bytes. */
  const PROGRAM_DATA_OFFSET: nat := 48

  /** 256 to the power `k`. */
  function Pow256(k: nat): (p: nat)
    ensures p >= 1
  {
    if k == 0 then 1 else 256 * Pow256(k - 1)
  }

  /** The `k` low-order bytes of `n`, least significant first. */
  function LeBytes(n: nat, k: nat): (bytes: seq<Byte>)
    ensures |bytes| == k
  {
    if k == 0 then [] else [(n % 256) as Byte] + LeBytes(n / 256, k - 1)
  }

  /** The number a little-endian byte string denotes. */
  function LeValue(bytes: seq<Byte>): (n: nat)
    ensures n < Pow256(|bytes|)
  {
    if bytes == [] then 0 else bytes[0] as nat + 256 * LeValue(bytes[1..])
  }

  /** Little-endian decoding undoes little-endian encoding for every value
      that fits. */
  lemma {:induction false} LeRoundTrip(n: nat, k: nat)
    requires n < Pow256(k)
    ensures LeValue(LeBytes(n, k)) == n
  {
    if k > 0 {
      var q, r := n / 256, n % 256;
      assert n == 256 * q + r;
      assert Pow256(k) == 256 * Pow256(k - 1);
      assert q < Pow256(k - 1);
      LeRoundTrip(q, k - 1);
      var bytes := LeBytes(n, k);
      assert bytes == [r as Byte] + LeBytes(q, k - 1);
      assert bytes[1..] == LeBytes(q, k - 1);
      assert bytes[0] as nat == r;
      assert LeValue(bytes) == r + 256 * q;
    }
  }

  /** The discriminant of each status. */
  function StatusWord(status: LoaderV4Status): nat
  {
    match status
    case Retracted => 0
    case Deployed => 1
    case Finalized => 2
  }

  /** The status a discriminant names; `None` for a value no variant has. */
  function StatusFromWord(word: nat): (status: Option<LoaderV4Status>)
    ensures status.Some? <==> word < 3
    ensures status.Some? ==> StatusWord(status.value) == word
  {
    if word == 0 then Some(Retracted)
    else if word == 1 then Some(Deployed)
    else if word == 2 then Some(Finalized)
    else None
  }

  /** The header bytes of a state, as written through the in-memory
      layout: the slot in bytes 0..8, the address in bytes 8..40 and the
      status discriminant in bytes 40..48. */
  function EncodeState(state: LoaderV4State): (header: seq<Byte>)
    ensures |header| == PROGRAM_DATA_OFFSET
    ensures LeValue(header[..8]) == state.slot
    ensures header[8..40] == state.authorityAddressOrNextVersion
    ensures LeValue(header[40..]) == StatusWord(state.status)
  {
    var slot := LeBytes(state.slot, 8);
    var status := LeBytes(StatusWord(state.status), 8);
    LeRoundTrip(state.slot, 8);
    LeRoundTrip(StatusWord(state.status), 8);
    var header := slot + state.authorityAddressOrNextVersion + status;
    assert header[..8] == slot;
    assert header[40..] == status;
    header
  }

  /** Reads a header; `None` when the status discriminant is not a valid
      variant. */
  function DecodeState(header: seq<Byte>): (state: Option<LoaderV4State>)
    requires |header| == PROGRAM_DATA_OFFSET
    ensures state.Some? ==> header == EncodeState(state.value)
  {
    match StatusFromWord(LeValue(header[40..]))
    case None => None
    case Some(status) =>
      var state := LoaderV4State(LeValue(header[..8]), header[8..40], status);
      HeaderIsEncoding(header, state);
      Some(state)
  }

  /** A header whose fields denote the fields of `state` is `state`'s
      encoding. */
  lemma HeaderIsEncoding(header: seq<Byte>, state: LoaderV4State)
    requires |header| == PROGRAM_DATA_OFFSET
    requires LeValue(header[..8]) == state.slot
    requires header[8..40] == state.authorityAddressOrNextVersion
    requires LeValue(header[40..]) == StatusWord(state.status)
    ensures header == EncodeState(state)
  {
    var slot, authority, status := header[..8], header[8..40], header[40..];
    LeBytesOfValue(slot);
    LeBytesOfValue(status);
    assert slot == LeBytes(state.slot, 8);
    assert status == LeBytes(StatusWord(state.status), 8);
    assert header == slot + authority + status;
    assert EncodeState(state) == LeBytes(state.slot, 8) + state.authorityAddressOrNextVersion
                                 + LeBytes(StatusWord(state.status), 8);
  }

  /** Re-encoding a byte string's value at its own length gives the byte
      string back: the encoding is the only string of that length denoting
      that value. */
  lemma {:induction false} LeBytesOfValue(bytes: seq<Byte>)
    ensures LeBytes(LeValue(bytes), |bytes|) == bytes
  {
    if bytes != [] {
      var n := LeValue(bytes);
      var rest := LeValue(bytes[1..]);
      assert n == bytes[0] as nat + 256 * rest;
      assert n % 256 == bytes[0] as nat;
      assert n / 256 == rest;
      LeBytesOfValue(bytes[1..]);
      assert bytes == [bytes[0]] + bytes[1..];
    }
  }

  /** Decoding an encoded header gives the state back. */
  lemma DecodeEncode(state: LoaderV4State)
    ensures DecodeState(EncodeState(state)) == Some(state)
  {
    var header := EncodeState(state);
    assert StatusFromWord(LeValue(header[40..])) == Some(state.status);
  }

  /** The status recorded in an account's header, if it is a valid one: it
      is read from the discriminant in bytes 40..48 alone. */
  function HeaderStatus(data: seq<Byte>): (status: Option<LoaderV4Status>)
    requires |data| >= PROGRAM_DATA_OFFSET
    ensures status.Some? <==> LeValue(data[40..PROGRAM_DATA_OFFSET]) < 3
    ensures status.Some? ==> StatusWord(status.value) == LeValue(data[40..PROGRAM_DATA_OFFSET])
  {
    assert data[..PROGRAM_DATA_OFFSET][40..] == data[40..PROGRAM_DATA_OFFSET];
    match DecodeState(data[..PROGRAM_DATA_OFFSET])
    case None => None
    case Some(state) => Some(state.status)
  }
}
