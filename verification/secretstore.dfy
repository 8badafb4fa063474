/** The operating-system keyring as the `go-keyring` package exposes it:
    string values under (service, user) keys. Its availability is a flag of
    the state: an unavailable backend fails every call and changes nothing. */
module SecretStore {
  import opened Wrappers

  datatype Key = Key(service: string, user: string)

  datatype Error = ErrNotFound | ErrUnavailable

  datatype Store = Store(entries: map<Key, string>, available: bool)

  /** A write or delete: the store afterwards and the call's error. */
  datatype Written = Written(store: Store, outcome: Outcome<Error>)

  function Get(st: Store, k: Key): Result<string, Error>
  {
    if !st.available then Failure(ErrUnavailable)
    else if k !in st.entries then Failure(ErrNotFound)
    else Success(st.entries[k])
  }

  function Set(st: Store, k: Key, v: string): Written
  {
    if !st.available then Written(st, Fail(ErrUnavailable))
    else Written(st.(entries := st.entries[k := v]), Pass)
  }

  function Delete(st: Store, k: Key): Written
  {
    if !st.available then Written(st, Fail(ErrUnavailable))
    else if k !in st.entries then Written(st, Fail(ErrNotFound))
    else Written(st.(entries := st.entries - {k}), Pass)
  }
}
