# discordo startup and session controller, in Dafny

A model of the part of the discordo terminal Discord client that decides,
at startup, which token to use and which view to show, and that owns the
chat session's open/close lifecycle and the global key filter:

- `App.Resolve` / `App.Run` (`internal/app/app.go`): the `DISCORDO_TOKEN`
  override is split on `,`; one piece opens a chat session directly, several
  pieces (or, with no override, a non-empty account list from the keyring)
  are validated one by one and shown in the account picker; otherwise the
  login form is mounted.
- `App.ShowChatView`, `App.Quit`, `App.OnInputCapture`: a state record with
  the last chat view created, the mounted root, and the number of
  `CloseState` and `Stop` calls.
- `Accounts` (`internal/ui/accounts/form.go`): the picker's buttons, their
  callbacks, and the error modal's layer handling.
- `Keyring` (`internal/keyring/keyring.go`): the account list kept under one
  keyring slot.

Every external effect is a parameter. `Discord.MeOracle` (`string ->
Option<User>`) stands for `api.NewClient(token).Me()`; `App.OpenOracle`
stands for the chat view's `OpenState`; the keyring backend is
`SecretStore.Store`, a map of (service, user) slots with an availability
flag; JSON is `Keyring.Codec`, two fallible functions with the assumed
round-trip property `Keyring.RoundTrips`; the textual name of a key event
is a `KeyEvent -> string` parameter. `Run` takes two validation oracles:
one for its own loop and one for the picker form's second validation of
each entry.

Files: `wrappers.dfy` (Option/Result/Outcome), `gostrings.dfy` (Go's
`strings.Split`/`Join` for a one-character separator), `seqs.dfy`
(order-preserving filter), `discord.dfy`, `secretstore.dfy`, `keyring.dfy`,
`layers.dfy` (the named layer stack), `accounts.dfy`, `app.dfy`,
`scenarios.dfy` (concrete startup runs).

Where the design documentation and the code disagree, the model follows
the code:

- `quit` is described as idempotent. In the code `chatView` is never
  cleared, so every `quit` after a chat view was created calls
  `CloseState` again (`App.QuitTimesCounts`, `App.QuitTwiceClosesTwice`).
  It also closes a chat view whose `OpenState` failed.
- The account store is described as having an upsert. `SetTokenWithAccounts`
  assigns to the loop's copy of each element, so it writes the list back
  unchanged and never appends (`Keyring.SetTokenIsNotAnUpsert`).
- The picker list is built with `make(..., len(x))` and then `append`, so
  it starts with `len(x)` zero entries (nil user, empty token) before the
  validated ones (`App.PickerUsers`). The form validates every entry again,
  so the zero entries get no button only when the identity service rejects
  the empty token (`App.PickerButtonsFollowValidation`).
- "New Account" in the picker is described as leading to the login form.
  Its handler `addAccount` has an empty body, so pressing it changes
  nothing (`Accounts.AddAccountPressed`, `App.PressPickerButton`).
- A session-open failure is described as fatal. That holds only for the
  single-override path, where `Run` returns the error. After a picker
  press, the `OpenState` error is only logged; the picker stays mounted
  and the chat view stays recorded (`App.PressPickerButton`).

## Model

| member | source | states |
|---|---|---|
| `GoStrings.Split` | internal/app/app.go:99 | the override splits into one more piece than it has commas; no piece contains a comma; there is exactly one piece iff the override has no comma |
| `GoStrings.JoinSplit` | internal/app/app.go:99 | joining the pieces with `,` gives back the override |
| `GoStrings.SplitJoin` | internal/app/app.go:99 | splitting a join of comma-free pieces gives back those pieces, so the split is the only such decomposition |
| `App.New` | internal/app/app.go:27-40 | a new controller keeps the configuration it is given, has no chat view and no root, and has called neither `CloseState` nor `Stop` |
| `App.Validated` | internal/app/app.go:71-82 | the validation loop keeps exactly the accepted tokens, in input order, each entry carrying its own token and the user `Me` returned for it |
| `App.PickerUsers` | internal/app/app.go:69-82 | the picker list has length `len(input)` plus the number of accepted tokens; its first `len(input)` entries are zero values; the rest are the accepted tokens in order with their users |
| `App.Resolve` | internal/app/app.go:61-128 | the keyring is read iff the override is empty; one override piece gives a direct chat with it and no `Me` call; several give the picker after calling `Me` on each piece in order; with no override the picker is chosen iff the stored list read is non-empty, a keyring error counting as empty, else the login form |
| `App.OverrideIgnoresKeyring` | internal/app/app.go:61-63 | with a non-empty override, the store and codec do not influence the outcome |
| `App.SingleTokenIgnoresValidation` | internal/app/app.go:99-104 | with one override piece, the identity service's answers do not influence the outcome |
| `App.AllStoredRejectedStillPicker` | internal/app/app.go:68-89 | a non-empty stored list whose tokens are all rejected still mounts the picker, holding only "New Account" |
| `App.ShowChatView` | internal/app/app.go:133-140 | the chat view is recorded whether or not opening succeeds; the open error is returned; the root is replaced by the chat view only on success |
| `App.Quit` | internal/app/app.go:142-150 | `CloseState` is called iff a chat view exists; `Stop` is always called; the chat view is kept |
| `App.QuitTimesCounts` | internal/app/app.go:142-150 | `n` quits call `Stop` `n` times and, once a chat view exists, `CloseState` `n` times |
| `App.QuitTwiceClosesTwice` | internal/app/app.go:133-150 | after a successful open, two quits close the session twice |
| `App.Run` | internal/app/app.go:61-128 | the mounted root follows the resolution: the chat view after a successful direct open (the open error is returned and the root kept on failure), the picker form built from the list, or the login form; only the direct branch returns an error |
| `App.PressPickerButton` | internal/app/app.go:121-125 | pressing an account button of the mounted picker creates a chat view with that button's token and mounts it iff opening succeeds (an error is only logged); "New Account", or a form without `done`, changes nothing; the configuration and the `CloseState` and `Stop` counts never change |
| `App.PickThenQuit` | internal/app/app.go:121-150 | logging in from a mounted picker and then quitting closes the session exactly once more and stops the application once more, whether or not opening succeeded |
| `App.OnInputCapture` | internal/app/app.go:152-163 | an event named like the Quit binding quits and is consumed, even when the binding is "Ctrl+C"; otherwise "Ctrl+C" becomes a fresh Ctrl+C event with no text and no modifiers; every other event passes unchanged; only the Quit case changes state |
| `App.PickerButtonsFollowValidation` | internal/ui/accounts/form.go:47-67 | when the form's validation agrees with startup's and rejects "", the picker has one button per accepted token in token order, labelled with its user's name and pressing to its token, then "New Account" |
| `Accounts.AccountButtons` | internal/ui/accounts/form.go:47-64 | one button per entry whose token `Me` accepts, in order, labelled with the user name and logging in with that user's id and the entry's own token |
| `Accounts.NewForm` | internal/ui/accounts/form.go:38-72 | the account buttons are followed by exactly one "New Account" button, always last; the form has a single layer named "form" |
| `Accounts.Login` | internal/ui/accounts/form.go:74-78 | `done` is called, once, with the account's token iff it is set |
| `Accounts.AddAccountPressed` | internal/ui/accounts/form.go:80-81 | "New Account" changes nothing and calls nothing |
| `Accounts.Press` | internal/ui/accounts/form.go:56-67 | pressing a button calls `done` iff it is an account button and `done` is set, with that button's token |
| `Accounts.PressAccountButton` | internal/ui/accounts/form.go:47-63 | the `k`-th account button of a new form calls `done` with the `k`-th accepted entry's token |
| `Accounts.PressNewAccount` | internal/ui/accounts/form.go:66-67 | pressing the last button of a new form never calls `done` |
| `Accounts.OnError` | internal/ui/accounts/form.go:83-121 | an overlay layer named "error" with the message and the buttons "Copy" and "Close" ends up in front; the other layers and the buttons stay |
| `Accounts.ModalDone` | internal/ui/accounts/form.go:90-96 | button 0 copies the message and keeps the modal; any other index removes the "error" layer, copies nothing, and keeps the buttons and the `done` callback |
| `Accounts.ErrorThenClose` | internal/ui/accounts/form.go:90-121 | showing an error and then closing it restores the form's layers |
| `Keyring.GetAccounts` | internal/keyring/keyring.go:21-33 | an unavailable backend or a missing slot gives a store error, an undecodable value an unmarshal error, and otherwise the decoded list |
| `Keyring.GetToken` | internal/keyring/keyring.go:35-43 | the token of the first account with the id, or "" when no account has it |
| `Keyring.SetAccounts` | internal/keyring/keyring.go:45-52 | the write succeeds iff encoding succeeds and the backend is available; a failed write changes nothing; other slots are untouched; after a successful write the list reads back unchanged |
| `Keyring.SetTokenWithAccounts` | internal/keyring/keyring.go:54-63 | whatever the id and token, the list given is what is persisted and what reads back |
| `Keyring.SetToken` | internal/keyring/keyring.go:65-72 | an unreadable list is replaced by the single account `{id, s}`; a readable one is handed to `SetTokenWithAccounts` and reads back as before |
| `Keyring.DeleteToken` | internal/keyring/keyring.go:74-76 | deletion succeeds iff the backend is available and the slot exists; afterwards reading the list fails with any codec |
| `Keyring.SetTokenIsNotAnUpsert` | internal/keyring/keyring.go:54-72 | on a readable list, `SetToken` changes neither the number of accounts nor the token recorded for the id |
| `Keyring.SetTokenOnUnreadableStore` | internal/keyring/keyring.go:65-69 | on an unreadable list, the token just set is the one `GetToken` then finds |
| `Scenarios.SingleOverrideOpensDirectly` | internal/app/app.go:99-104 | override "tok1" opens a chat with "tok1" without reading the keyring or calling `Me` |
| `Scenarios.TwoOverridesOneValid` | internal/app/app.go:105-127 | override "tok1,tok2" with only "tok1" accepted validates both, shows one account button then "New Account", and its button opens a chat with "tok1" |
| `Scenarios.StoredSevenAndNine` | internal/app/app.go:62-89 | stored accounts 7 and 9 with 9 rejected give a picker with account 7 only, then "New Account" |
| `Scenarios.QuitKeyClosesSession` | internal/app/app.go:152-156 | the Quit key on an open session is consumed, closes the session once and stops the application once |

## Left out

- Screen creation and configuration (mouse, title, paste, focus) and the
  event loop `inner.Run()` (internal/app/app.go:43-59, 130): terminal I/O.
  `App.Run` ends where the event loop would start; its error is not modelled.
- Clipboard initialisation and the asynchronous clipboard write: the
  "Copy" button only reports the text it would copy (`Accounts.ModalDone`).
- Theme, colours, styles, layer resize/visibility options and
  `ui.Centered`: rendering only.
- The network client: `Me` is an oracle that answers each token the same
  way every time it is asked within one oracle; `Run` takes separate oracles
  for its own loop and for the form's second validation.
- JSON encoding and the `go-keyring` backend: a `Codec` with an assumed
  round trip and a `SecretStore.Store`; a backend whose availability
  changes between calls is not modelled. The keyring service name is taken
  to be "discordo" (the constants package is not part of this model).
- The chat view's internals, `OpenState` and `CloseState`: `OpenState` is
  an oracle; `CloseState` errors are only logged, so the model counts calls.
- The login form (`internal/ui/login`) is not part of this model: routing to
  it is the `LoginRoot` value.
- The `layers` widget library is not part of this model; `Layers` assumes
  tview's pages semantics (adding replaces a layer of the same name and puts
  the new one in front; removing and bringing to front act on the first
  layer with the name).
- tcell's key naming: the textual name of a key event is a parameter;
  `KeyCtrlC` and `ModNone` are tcell's values 3 and 0.
- Logging (`slog`): no observable behaviour.
