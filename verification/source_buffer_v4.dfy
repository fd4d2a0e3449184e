/** Validation of a loader-v4 buffer account that a core BPF migration will
    copy a program from. The bank is the map of accounts its fixed-root
    lookup returns; validation only reads it. */
module SourceBuffer {
  import opened Wrappers
  import opened Bytes
  import opened Keys
  import opened LoaderV4

  datatype Account = Account(lamports: nat, data: seq<Byte>, owner: Pubkey, executable: bool, rentEpoch: nat)

  /** The accounts visible at the bank's fixed root, by address. */
  type Bank = map<Pubkey, Account>

  /** The loader-v4 program id, `LoaderV411111111111111111111111111111111111`. */
  const LOADER_V4_ID: Pubkey := [
    5, 18, 180, 17, 81, 81, 227, 122, 173, 10, 139, 197, 211, 136, 46, 123,
    127, 218, 76, 243, 210, 192, 40, 200, 207, 131, 54, 24, 0, 0, 0, 0]

  /** The migration errors this validation can raise; each names the buffer
      address. */
  datatype CoreBpfMigrationError =
    | AccountNotFound(address: Pubkey)
    | IncorrectOwner(address: Pubkey)
    | InvalidBufferAccount(address: Pubkey)

  /** A buffer account that passed validation. */
  datatype SourceBufferV4 = SourceBufferV4(bufferAddress: Pubkey, bufferAccount: Account)

  /** `get_account_with_fixed_root`. */
  function GetAccountWithFixedRoot(bank: Bank, address: Pubkey): (found: Option<Account>)
    ensures found.Some? <==> address in bank
    ensures found.Some? ==> found.value == bank[address]
  {
    if address in bank then Some(bank[address]) else None
  }

  /** The header of `account` is complete and records the `Retracted`
      status. */
  predicate HasRetractedHeader(account: Account)
  {
    |account.data| >= PROGRAM_DATA_OFFSET && HeaderStatus(account.data) == Some(Retracted)
  }

  /** What a valid source buffer is: an existing account, owned by loader v4,
      whose header says `Retracted`. */
  predicate IsValidSourceBuffer(bank: Bank, address: Pubkey)
  {
    && address in bank
    && bank[address].owner == LOADER_V4_ID
    && HasRetractedHeader(bank[address])
  }

  /** `SourceBufferV4::new_checked`: looks the buffer up and checks, in this
      order, that it exists, that loader v4 owns it, and that its header is
      complete with status `Retracted`. */
  function NewChecked(bank: Bank, bufferAddress: Pubkey): (r: Result<SourceBufferV4, CoreBpfMigrationError>)
    ensures r.Ok? <==> IsValidSourceBuffer(bank, bufferAddress)
    ensures r.Ok? ==> r.value == SourceBufferV4(bufferAddress, bank[bufferAddress])
    ensures r.Err? ==> r.error.address == bufferAddress
    ensures bufferAddress !in bank ==> r == Err(AccountNotFound(bufferAddress))
    ensures bufferAddress in bank && bank[bufferAddress].owner != LOADER_V4_ID
      ==> r == Err(IncorrectOwner(bufferAddress))
    ensures bufferAddress in bank && bank[bufferAddress].owner == LOADER_V4_ID
      && !HasRetractedHeader(bank[bufferAddress])
      ==> r == Err(InvalidBufferAccount(bufferAddress))
  {
    match GetAccountWithFixedRoot(bank, bufferAddress)
    case None => Err(AccountNotFound(bufferAddress))
    case Some(bufferAccount) =>
      if bufferAccount.owner != LOADER_V4_ID then
        Err(IncorrectOwner(bufferAddress))
      else if HasRetractedHeader(bufferAccount) then
        Ok(SourceBufferV4(bufferAddress, bufferAccount))
      else
        Err(InvalidBufferAccount(bufferAddress))
  }

  /** Only the buffer's own entry in the bank matters. */
  lemma OnlyBufferEntryMatters(bank: Bank, other: Bank, bufferAddress: Pubkey)
    requires bufferAddress in bank <==> bufferAddress in other
    requires bufferAddress in bank ==> bank[bufferAddress] == other[bufferAddress]
    ensures NewChecked(bank, bufferAddress) == NewChecked(other, bufferAddress)
  {
  }

  /** Whether an account validates depends on its owner and header only:
      the program bytes after the header and the other account fields play no
      part. */
  lemma OnlyHeaderMatters(bank: Bank, bufferAddress: Pubkey, account: Account)
    requires bufferAddress in bank
    requires account.owner == bank[bufferAddress].owner
    requires |account.data| >= PROGRAM_DATA_OFFSET && |bank[bufferAddress].data| >= PROGRAM_DATA_OFFSET
    requires account.data[..PROGRAM_DATA_OFFSET] == bank[bufferAddress].data[..PROGRAM_DATA_OFFSET]
    ensures NewChecked(bank, bufferAddress).Ok? == NewChecked(bank[bufferAddress := account], bufferAddress).Ok?
  {
  }

  /** A buffer whose header is any written state with status `Retracted`,
      followed by any program bytes, validates once loader v4 owns it; the
      returned account still carries those program bytes after the header. */
  lemma RetractedBufferValidates(bank: Bank, bufferAddress: Pubkey, account: Account, state: LoaderV4State, elf: seq<Byte>)
    requires state.status == Retracted
    requires account.owner == LOADER_V4_ID
    requires account.data == EncodeState(state) + elf
    ensures NewChecked(bank[bufferAddress := account], bufferAddress).Ok?
    ensures NewChecked(bank[bufferAddress := account], bufferAddress).value.bufferAccount.data[PROGRAM_DATA_OFFSET..] == elf
  {
    assert account.data[..PROGRAM_DATA_OFFSET] == EncodeState(state);
    DecodeEncode(state);
  }

  /** Conversely, every buffer that validates starts with the written
      encoding of some `Retracted` state. */
  lemma ValidBufferHasRetractedHeader(bank: Bank, bufferAddress: Pubkey)
    requires NewChecked(bank, bufferAddress).Ok?
    ensures exists state: LoaderV4State ::
      state.status == Retracted && bank[bufferAddress].data[..PROGRAM_DATA_OFFSET] == EncodeState(state)
  {
    var header := bank[bufferAddress].data[..PROGRAM_DATA_OFFSET];
    var state := DecodeState(header).value;
    assert state.status == Retracted && header == EncodeState(state);
  }

  /** A complete header with any status other than `Retracted` is refused
      with `InvalidBufferAccount`, whatever follows it. */
  lemma NotRetractedBufferRefused(bank: Bank, bufferAddress: Pubkey, account: Account, state: LoaderV4State, elf: seq<Byte>)
    requires state.status != Retracted
    requires account.owner == LOADER_V4_ID
    requires account.data == EncodeState(state) + elf
    ensures NewChecked(bank[bufferAddress := account], bufferAddress) == Err(InvalidBufferAccount(bufferAddress))
  {
  }

  /** The scenario of the module's unit test: a missing buffer, a buffer of
      200 bytes of 4s owned elsewhere and then by loader v4, a `Deployed`
      header, and finally a `Retracted` header followed by 200 bytes of
      program. */
  lemma UnitTestScenario(bufferAddress: Pubkey, stranger: Pubkey, lamports: nat)
    requires stranger != LOADER_V4_ID
    ensures NewChecked(map[], bufferAddress) == Err(AccountNotFound(bufferAddress))
    ensures var junk := seq(200, _ => 4 as Byte);
      && NewChecked(map[bufferAddress := Account(lamports, junk, stranger, false, 0)], bufferAddress)
           == Err(IncorrectOwner(bufferAddress))
      && NewChecked(map[bufferAddress := Account(lamports, junk, LOADER_V4_ID, false, 0)], bufferAddress)
           == Err(InvalidBufferAccount(bufferAddress))
    ensures var deployed := EncodeState(LoaderV4State(0, bufferAddress, Deployed));
      NewChecked(map[bufferAddress := Account(lamports, deployed, LOADER_V4_ID, false, 0)], bufferAddress)
        == Err(InvalidBufferAccount(bufferAddress))
    ensures var elf := seq(200, _ => 4 as Byte);
      var data := EncodeState(LoaderV4State(0, bufferAddress, Retracted)) + elf;
      var r := NewChecked(map[bufferAddress := Account(lamports, data, LOADER_V4_ID, false, 0)], bufferAddress);
      && r.Ok?
      && r.value.bufferAddress == bufferAddress
      && DecodeState(r.value.bufferAccount.data[..PROGRAM_DATA_OFFSET]) == Some(LoaderV4State(0, bufferAddress, Retracted))
      && r.value.bufferAccount.data[PROGRAM_DATA_OFFSET..] == elf
  {
    var junk := seq(200, _ => 4 as Byte);
    var word := LeValue(junk[..PROGRAM_DATA_OFFSET][40..]);
    assert junk[..PROGRAM_DATA_OFFSET][40..][0] == 4;
    assert word >= 4;

    var deployed := EncodeState(LoaderV4State(0, bufferAddress, Deployed));
    NotRetractedBufferRefused(map[], bufferAddress, Account(lamports, deployed, LOADER_V4_ID, false, 0),
      LoaderV4State(0, bufferAddress, Deployed), []);
    assert deployed + [] == deployed;

    var elf := seq(200, _ => 4 as Byte);
    var data := EncodeState(LoaderV4State(0, bufferAddress, Retracted)) + elf;
    RetractedBufferValidates(map[], bufferAddress, Account(lamports, data, LOADER_V4_ID, false, 0),
      LoaderV4State(0, bufferAddress, Retracted), elf);
    assert data[..PROGRAM_DATA_OFFSET] == EncodeState(LoaderV4State(0, bufferAddress, Retracted));
    DecodeEncode(LoaderV4State(0, bufferAddress, Retracted));
  }
}
