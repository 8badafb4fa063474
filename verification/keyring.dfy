/** The account list kept in the keyring: one JSON array of {id, token}
    records under the fixed key (application name, "token"). */
module Keyring {
  import opened Wrappers
  import opened Discord
  import SecretStore

  /** The application name used as the keyring service. */
  const ServiceName: string := "discordo"

  /** The one keyring slot all operations read and write. */
  const Slot: SecretStore.Key := SecretStore.Key(ServiceName, "token")

  datatype AccountInfo = AccountInfo(id: UserId, token: string)

  datatype Error =
    | StoreError(cause: SecretStore.Error)
    | MarshalError
    | UnmarshalError

  /** `json.Marshal` / `json.Unmarshal` for an account list. Either may
      fail; nothing else about the encoding is relied upon. */
  datatype Codec = Codec(
    marshal: seq<AccountInfo> -> Option<string>,
    unmarshal: string -> Option<seq<AccountInfo>>)

  /** The property JSON encoding is assumed to have: decoding what was
      encoded gives back the same list. */
  ghost predicate RoundTrips(c: Codec) {
    forall l :: c.marshal(l).Some? ==> c.unmarshal(c.marshal(l).value) == Some(l)
  }

  /** Everything outside the account slot is the same in both stores. */
  ghost predicate OtherSlotsAlike(a: SecretStore.Store, b: SecretStore.Store) {
    && a.available == b.available
    && a.entries - {Slot} == b.entries - {Slot}
  }

  /** `GetAccounts`: read the slot and decode it. A missing or unreachable
      slot and an undecodable value both come back as an error (with a nil
      list in Go). */
  function GetAccounts(st: SecretStore.Store, c: Codec): (r: Result<seq<AccountInfo>, Error>)
    ensures !st.available ==> r == Failure(StoreError(SecretStore.ErrUnavailable))
    ensures st.available && Slot !in st.entries ==> r == Failure(StoreError(SecretStore.ErrNotFound))
    ensures st.available && Slot in st.entries ==>
      match c.unmarshal(st.entries[Slot])
      case None => r == Failure(UnmarshalError)
      case Some(l) => r == Success(l)
  {
    match SecretStore.Get(st, Slot)
    case Failure(e) => Failure(StoreError(e))
    case Success(data) =>
      match c.unmarshal(data)
      case None => Failure(UnmarshalError)
      case Some(accounts) => Success(accounts)
  }

  /** Position `i` holds the first account with this id. */
  ghost predicate FirstWithId(accounts: seq<AccountInfo>, id: UserId, i: int) {
    && 0 <= i < |accounts|
    && accounts[i].id == id
    && forall j :: 0 <= j < i ==> accounts[j].id != id
  }

  /** `GetToken`: the token of the first account with this id, or "" when
      no account has it. */
  function GetToken(accounts: seq<AccountInfo>, id: UserId): (token: string)
    ensures (forall i :: 0 <= i < |accounts| ==> accounts[i].id != id) ==> token == ""
    ensures forall i :: FirstWithId(accounts, id, i) ==> token == accounts[i].token
  {
    if accounts == [] then ""
    else if accounts[0].id == id then accounts[0].token
    else
      var token := GetToken(accounts[1..], id);
      assert forall i :: 1 <= i < |accounts| ==> accounts[i] == accounts[1..][i - 1];
      token
  }

  /** A keyring write: the store afterwards and the call's error. */
  datatype Saved = Saved(store: SecretStore.Store, outcome: Outcome<Error>)

  /** `setAccounts`: encode the list and write it to the slot. On failure
      the store is unchanged; on success, reading back (with a round-trip
      codec) yields exactly `accounts`. No other slot is touched. */
  function SetAccounts(st: SecretStore.Store, c: Codec, accounts: seq<AccountInfo>): (w: Saved)
    ensures w.outcome.Pass? <==> c.marshal(accounts).Some? && st.available
    ensures w.outcome.Fail? ==> w.store == st
    ensures OtherSlotsAlike(w.store, st)
    ensures RoundTrips(c) && w.outcome.Pass? ==> GetAccounts(w.store, c) == Success(accounts)
  {
    match c.marshal(accounts)
    case None => Saved(st, Fail(MarshalError))
    case Some(data) => FromStore(SecretStore.Set(st, Slot, data))
  }

  /** A keyring backend result, with its error wrapped. */
  function FromStore(w: SecretStore.Written): Saved {
    match w.outcome
    case Pass => Saved(w.store, Pass)
    case Fail(e) => Saved(w.store, Fail(StoreError(e)))
  }

  /** `SetTokenWithAccounts`: its loop binds `account` to a copy of each
      element and sets the copy's token, so neither `accounts` nor the
      stored list ever sees `s`, and nothing is appended for an unknown id.
      What is persisted is `accounts` exactly as given. */
  function SetTokenWithAccounts(st: SecretStore.Store, c: Codec, accounts: seq<AccountInfo>,
                                id: UserId, s: string): (w: Saved)
    ensures w.outcome.Pass? <==> c.marshal(accounts).Some? && st.available
    ensures w.outcome.Fail? ==> w.store == st
    ensures OtherSlotsAlike(w.store, st)
    ensures RoundTrips(c) && w.outcome.Pass? ==> GetAccounts(w.store, c) == Success(accounts)
  {
    SetAccounts(st, c, accounts)
  }

  /** `SetToken`: when the stored list cannot be read, persist the single
      account `{id, s}`; otherwise hand the list read to
      `SetTokenWithAccounts`, which writes it back unchanged. */
  function SetToken(st: SecretStore.Store, c: Codec, id: UserId, s: string): (w: Saved)
    ensures GetAccounts(st, c).Failure? ==>
      (w.outcome.Pass? <==> c.marshal([AccountInfo(id, s)]).Some? && st.available)
    ensures GetAccounts(st, c).Success? ==>
      w == SetTokenWithAccounts(st, c, GetAccounts(st, c).value, id, s)
    ensures OtherSlotsAlike(w.store, st)
    ensures RoundTrips(c) && w.outcome.Pass? ==>
      GetAccounts(w.store, c) ==
        match GetAccounts(st, c)
        case Success(l) => Success(l)
        case Failure(_) => Success([AccountInfo(id, s)])
  {
    match GetAccounts(st, c)
    case Failure(_) => SetAccounts(st, c, [AccountInfo(id, s)])
    case Success(accounts) => SetTokenWithAccounts(st, c, accounts, id, s)
  }

  /** `DeleteToken`: remove the slot. Afterwards the list cannot be read,
      whatever the codec: the slot is gone, or the backend is unavailable. */
  function DeleteToken(st: SecretStore.Store): (w: Saved)
    ensures w.outcome.Pass? <==> st.available && Slot in st.entries
    ensures OtherSlotsAlike(w.store, st)
    ensures forall c :: GetAccounts(w.store, c).Failure?
  {
    FromStore(SecretStore.Delete(st, Slot))
  }

  /** Writing a token for an id never changes the token a readable list
      already records for that id, and never adds an entry: the list read
      back after `SetToken` is the list read before it. */
  lemma SetTokenIsNotAnUpsert(st: SecretStore.Store, c: Codec, id: UserId, s: string)
    requires RoundTrips(c)
    requires GetAccounts(st, c).Success?
    requires SetToken(st, c, id, s).outcome.Pass?
    ensures
      var before := GetAccounts(st, c).value;
      var after := GetAccounts(SetToken(st, c, id, s).store, c);
      && after.Success?
      && |after.value| == |before|
      && GetToken(after.value, id) == GetToken(before, id)
  {
  }

  /** With an unreadable list, `SetToken` leaves a store from which
      `GetToken` finds exactly the token just written. */
  lemma SetTokenOnUnreadableStore(st: SecretStore.Store, c: Codec, id: UserId, s: string)
    requires RoundTrips(c)
    requires GetAccounts(st, c).Failure?
    requires SetToken(st, c, id, s).outcome.Pass?
    ensures
      var after := GetAccounts(SetToken(st, c, id, s).store, c);
      after.Success? && GetToken(after.value, id) == s
  {
    var after := GetAccounts(SetToken(st, c, id, s).store, c);
    assert after == Success([AccountInfo(id, s)]);
    assert FirstWithId([AccountInfo(id, s)], id, 0);
  }
}
