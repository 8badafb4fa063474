/** The application controller (`app.App`): startup credential resolution
    and routing, the chat session's open/close lifecycle, and the global key
    filter. Screens, the chat view's internals and the network are oracles:
    `me` validates a token, `open` is the chat view's `OpenState`. */
module App {
  import opened Wrappers
  import opened Discord
  import opened Seqs
  import opened GoStrings
  import SecretStore
  import Keyring
  import Accounts
  import Layers

  /** Separator of the tokens in the override variable. */
  const TokenSeparator: char := ','
  /** Name of the terminal's interrupt key. */
  const CtrlCName: string := "Ctrl+C"
  /** tcell's `KeyCtrlC` and `ModNone`. */
  const KeyCtrlC: int := 3
  const ModNone: int := 0

  /** The configuration the controller reads: the Quit key binding. */
  datatype Config = Config(quitKey: string)

  /** A chat view, created for the token it is asked to open. */
  datatype ChatView = ChatView(token: string)

  /** The view mounted as the application's root. */
  datatype Root =
    | NoRoot
    | LoginRoot
    | PickerRoot(form: Accounts.Form)
    | ChatRoot(view: ChatView)

  /** The controller's state: the last chat view created (never cleared),
      the mounted root, and how many times the chat view's `CloseState` and
      the application's `Stop` have been called. */
  datatype State = State(cfg: Config, chatView: Option<ChatView>, root: Root, closes: nat, stops: nat)

  /** `OpenState(token)` of a chat view: nil or an error message. */
  type OpenOracle = string -> Outcome<string>

  /** `New`: no chat view, nothing mounted, nothing called yet. */
  function New(cfg: Config): (a: State)
    ensures a.cfg == cfg
    ensures a.chatView.None? && a.root.NoRoot? && a.closes == 0 && a.stops == 0
  {
    State(cfg, None, NoRoot, 0, 0)
  }

  // ----- credential resolution -----

  /** Whether the identity service accepts a token. */
  function AcceptsToken(me: MeOracle): string -> bool {
    t => Accepts(me, t)
  }

  /** The startup validation loop: `Me` is called on every token in order;
      each accepted one yields an entry with its user and its own token,
      each rejected one is skipped. */
  function Validated(tokens: seq<string>, me: MeOracle): (users: seq<Accounts.AcctInfo>)
    ensures Accounts.Tokens(users) == Filter(tokens, AcceptsToken(me))
    ensures forall k :: 0 <= k < |users| ==> users[k].user.Some? && users[k].user == me(users[k].token)
  {
    if tokens == [] then []
    else
      var head := match me(tokens[0])
        case Some(u) => [Accounts.AcctInfo(Some(u), tokens[0])]
        case None => [];
      var rest := Validated(tokens[1..], me);
      ValidatedStep(tokens, me, head, rest);
      head + rest
  }

  /** One step of the validation loop: the first token's entry (if
      accepted) in front of the entries of the remaining tokens. */
  lemma ValidatedStep(tokens: seq<string>, me: MeOracle,
                      head: seq<Accounts.AcctInfo>, rest: seq<Accounts.AcctInfo>)
    requires tokens != []
    requires head == match me(tokens[0])
      case Some(u) => [Accounts.AcctInfo(Some(u), tokens[0])]
      case None => []
    requires Accounts.Tokens(rest) == Filter(tokens[1..], AcceptsToken(me))
    ensures Accounts.Tokens(head + rest) == Filter(tokens, AcceptsToken(me))
  {
    var p := AcceptsToken(me);
    assert tokens == [tokens[0]] + tokens[1..];
    FilterAppend([tokens[0]], tokens[1..], p);
    assert [tokens[0]][1..] == [];
    assert Accounts.Tokens(head) == Filter([tokens[0]], p);
    Accounts.TokensAppend(head, rest);
  }

  /** The picker's list as built: `make([]AcctInfo, len(tokens))` gives
      `len(tokens)` zero values, and the validated entries are appended
      after them. */
  function PickerUsers(tokens: seq<string>, me: MeOracle): (users: seq<Accounts.AcctInfo>)
    ensures |users| == |tokens| + |Filter(tokens, AcceptsToken(me))|
    ensures forall i :: 0 <= i < |tokens| ==> users[i] == Accounts.ZeroAcct
    ensures Accounts.Tokens(users[|tokens|..]) == Filter(tokens, AcceptsToken(me))
    ensures forall k :: |tokens| <= k < |users| ==>
      users[k].user.Some? && users[k].user == me(users[k].token)
  {
    seq(|tokens|, _ => Accounts.ZeroAcct) + Validated(tokens, me)
  }

  /** The tokens of the stored accounts, in stored order. */
  function AccountTokens(accs: seq<Keyring.AccountInfo>): seq<string>
  {
    seq(|accs|, i requires 0 <= i < |accs| => accs[i].token)
  }

  /** Where startup goes: straight to a chat session with one token, to
      the account picker with a list, or to the login form. */
  datatype Route = ChatDirect(token: string) | Picker(users: seq<Accounts.AcctInfo>) | Login

  /** A route together with what was consulted to reach it: whether the
      keyring was read, and the tokens `Me` was called on, in order. */
  datatype Resolution = Resolution(route: Route, keyringRead: bool, meCalls: seq<string>)

  /** The decision part of `Run`. `env` is the value of DISCORDO_TOKEN
      ("" when unset). A keyring error counts as no stored accounts. */
  function Resolve(env: string, st: SecretStore.Store, c: Keyring.Codec, me: MeOracle): (r: Resolution)
    ensures r.keyringRead <==> env == ""
    ensures env != "" && TokenSeparator !in env ==> r == Resolution(ChatDirect(env), false, [])
    ensures env != "" && TokenSeparator in env ==>
      && r.route.Picker?
      && r.meCalls == Split(env, TokenSeparator)
      && |r.meCalls| >= 2
      && r.route.users == PickerUsers(r.meCalls, me)
    ensures env == "" ==>
      var stored := Keyring.GetAccounts(st, c).GetOr([]);
      && !r.route.ChatDirect?
      && (r.route.Picker? <==> |stored| > 0)
      && (r.route.Picker? ==> r.meCalls == AccountTokens(stored) && r.route.users == PickerUsers(r.meCalls, me))
      && (r.route.Login? ==> r.meCalls == [])
  {
    if env == "" then
      var accs := Keyring.GetAccounts(st, c).GetOr([]);
      if |accs| > 0 then
        var tokens := AccountTokens(accs);
        Resolution(Picker(PickerUsers(tokens, me)), true, tokens)
      else
        Resolution(Login, true, [])
    else
      var tokens := Split(env, TokenSeparator);
      if |tokens| == 1 then
        JoinSplit(env, TokenSeparator);
        Resolution(ChatDirect(tokens[0]), false, [])
      else
        Resolution(Picker(PickerUsers(tokens, me)), false, tokens)
  }

  // ----- session lifecycle -----

  /** The state after a call and the error it returned. */
  datatype Shown = Shown(state: State, err: Outcome<string>)

  /** `showChatView`: create the chat view (recorded before opening it),
      open it with the token, and mount it only if that succeeded. */
  function ShowChatView(a: State, token: string, open: OpenOracle): (s: Shown)
    ensures s.state.chatView == Some(ChatView(token))
    ensures s.err == open(token)
    ensures s.err.Fail? ==> s.state.root == a.root
    ensures s.err.Pass? ==> s.state.root == ChatRoot(ChatView(token))
    ensures s.state.cfg == a.cfg && s.state.closes == a.closes && s.state.stops == a.stops
  {
    var created := a.(chatView := Some(ChatView(token)));
    match open(token)
    case Fail(e) => Shown(created, Fail(e))
    case Pass => Shown(created.(root := ChatRoot(ChatView(token))), Pass)
  }

  /** `quit`: close the chat view's session if a chat view was ever
      created (a close error is only logged), then stop the application.
      The chat view is not forgotten, so a second quit closes again. */
  function Quit(a: State): (b: State)
    ensures b.closes == a.closes + (if a.chatView.Some? then 1 else 0)
    ensures b.stops == a.stops + 1
    ensures b.chatView == a.chatView && b.root == a.root && b.cfg == a.cfg
  {
    var closed := if a.chatView.Some? then a.(closes := a.closes + 1) else a;
    closed.(stops := closed.stops + 1)
  }

  /** `quit` invoked `n` times in a row. */
  function QuitTimes(a: State, n: nat): State
  {
    if n == 0 then a else Quit(QuitTimes(a, n - 1))
  }

  /** Each quit closes the session again once a chat view exists, and
      stops the application again; without a chat view nothing is closed. */
  lemma {:induction false} QuitTimesCounts(a: State, n: nat)
    ensures QuitTimes(a, n).closes == a.closes + (if a.chatView.Some? then n else 0)
    ensures QuitTimes(a, n).stops == a.stops + n
    ensures QuitTimes(a, n).chatView == a.chatView
  {
    if n > 0 {
      QuitTimesCounts(a, n - 1);
    }
  }

  /** A session opened from a fresh controller and quit twice is closed
      twice: `quit` is not idempotent. */
  lemma QuitTwiceClosesTwice(cfg: Config, token: string, open: OpenOracle)
    requires open(token).Pass?
    ensures Quit(Quit(ShowChatView(New(cfg), token, open).state)).closes == 2
  {
  }

  // ----- startup -----

  /** `Run` up to the event loop: the state it leaves and the error it
      returns before entering the loop, with the resolution it followed.
      `formMe` answers the picker form's own validation calls. */
  datatype Started = Started(state: State, err: Outcome<string>, resolution: Resolution)

  function Run(a: State, env: string, st: SecretStore.Store, c: Keyring.Codec,
               me: MeOracle, formMe: MeOracle, open: OpenOracle): (r: Started)
    ensures r.resolution == Resolve(env, st, c, me)
    ensures r.err.Fail? ==> r.resolution.route.ChatDirect?
    ensures r.state.cfg == a.cfg && r.state.closes == a.closes && r.state.stops == a.stops
    ensures match r.resolution.route
      case ChatDirect(t) =>
        && r.err == open(t)
        && r.state.chatView == Some(ChatView(t))
        && r.state.root == (if open(t).Pass? then ChatRoot(ChatView(t)) else a.root)
      case Picker(users) =>
        && r.state.chatView == a.chatView
        && r.state.root == PickerRoot(Accounts.NewForm(users, formMe, true))
      case Login =>
        r.state.chatView == a.chatView && r.state.root == LoginRoot
  {
    var res := Resolve(env, st, c, me);
    match res.route
    case ChatDirect(t) =>
      var s := ShowChatView(a, t, open);
      Started(s.state, s.err, res)
    case Picker(users) =>
      Started(a.(root := PickerRoot(Accounts.NewForm(users, formMe, true))), Pass, res)
    case Login =>
      Started(a.(root := LoginRoot), Pass, res)
  }

  /** Pressing a button of the mounted picker: an account button leads,
      through `done`, to `showChatView` with its token (an error is only
      logged); "New Account", or a form without `done`, does nothing. */
  function PressPickerButton(a: State, i: nat, open: OpenOracle): (b: State)
    requires a.root.PickerRoot? && i < |a.root.form.buttons|
    ensures b.cfg == a.cfg && b.closes == a.closes && b.stops == a.stops
    ensures a.root.form.buttons[i].action.AddAccount? || !a.root.form.hasDone ==> b == a
    ensures a.root.form.buttons[i].action.LoginAs? && a.root.form.hasDone ==>
      var t := a.root.form.buttons[i].action.account.token;
      && b.chatView == Some(ChatView(t))
      && b.root == (if open(t).Pass? then ChatRoot(ChatView(t)) else a.root)
  {
    match Accounts.Press(a.root.form, i).done
    case None => a
    case Some(t) => ShowChatView(a, t, open).state
  }

  /** Logging in from a mounted picker and then quitting closes the
      session exactly once more and stops the application once more, even
      when opening failed: the chat view was created either way. */
  lemma PickThenQuit(a: State, i: nat, open: OpenOracle)
    requires a.root.PickerRoot? && a.root.form.hasDone
    requires i < |a.root.form.buttons| && a.root.form.buttons[i].action.LoginAs?
    ensures var b := Quit(PressPickerButton(a, i, open));
      b.closes == a.closes + 1 && b.stops == a.stops + 1
  {
  }

  // ----- key interception -----

  /** A key event: key code, text and modifier mask. */
  datatype KeyEvent = KeyEvent(key: int, text: string, mods: int)

  /** The state after the filter and the event it lets through (None when
      the event is consumed). */
  datatype Captured = Captured(state: State, event: Option<KeyEvent>)

  /** `onInputCapture`: the Quit binding is checked first and consumes the
      event after quitting; "Ctrl+C" is replaced by a fresh Ctrl+C event
      without text or modifiers; any other event passes through. `name` is
      the event's textual name as the terminal library renders it. */
  function OnInputCapture(a: State, ev: KeyEvent, name: KeyEvent -> string): (r: Captured)
    ensures r.event.None? <==> name(ev) == a.cfg.quitKey
    ensures r.event.None? ==> r.state == Quit(a)
    ensures r.event.Some? ==> r.state == a
    ensures r.event.Some? && name(ev) == CtrlCName ==> r.event.value == KeyEvent(KeyCtrlC, "", ModNone)
    ensures r.event.Some? && name(ev) != CtrlCName ==> r.event.value == ev
  {
    if name(ev) == a.cfg.quitKey then Captured(Quit(a), None)
    else if name(ev) == CtrlCName then Captured(a, Some(KeyEvent(KeyCtrlC, "", ModNone)))
    else Captured(a, Some(ev))
  }

  // ----- properties relating several operations -----

  /** With the override set, the keyring is irrelevant: any two stores and
      codecs give the same resolution. */
  lemma OverrideIgnoresKeyring(env: string, st1: SecretStore.Store, c1: Keyring.Codec,
                               st2: SecretStore.Store, c2: Keyring.Codec, me: MeOracle)
    requires env != ""
    ensures Resolve(env, st1, c1, me) == Resolve(env, st2, c2, me)
  {
  }

  /** A single override token is used without asking the identity service:
      the resolution is the same whatever `Me` answers. */
  lemma SingleTokenIgnoresValidation(env: string, st: SecretStore.Store, c: Keyring.Codec,
                                     me1: MeOracle, me2: MeOracle)
    requires env != "" && TokenSeparator !in env
    ensures Resolve(env, st, c, me1) == Resolve(env, st, c, me2)
  {
  }

  /** When the form's second validation agrees with the first and rejects
      the empty token, the picker built from a token list has exactly one
      account button per accepted token, in token order, each pressing to
      its own token, followed by "New Account". */
  lemma PickerButtonsFollowValidation(tokens: seq<string>, me: MeOracle)
    requires !Accepts(me, "")
    ensures var f := Accounts.NewForm(PickerUsers(tokens, me), me, true);
      var accepted := Filter(tokens, AcceptsToken(me));
      && |f.buttons| == |accepted| + 1
      && f.buttons[|accepted|] == Accounts.NewAccountButton
      && forall k :: 0 <= k < |accepted| ==>
           && f.buttons[k] == Accounts.Button(me(accepted[k]).value.username,
                Accounts.LoginAs(Keyring.AccountInfo(me(accepted[k]).value.id, accepted[k])))
           && Accounts.Press(f, k).done == Some(accepted[k])
  {
    var accepted := Filter(tokens, AcceptsToken(me));
    var f := Accounts.NewForm(PickerUsers(tokens, me), me, true);
    var v := Validated(tokens, me);
    FormSeesValidated(tokens, me);
    assert Accounts.Tokens(v) == accepted;
    forall k | 0 <= k < |accepted|
      ensures f.buttons[k] == Accounts.Button(me(accepted[k]).value.username,
                Accounts.LoginAs(Keyring.AccountInfo(me(accepted[k]).value.id, accepted[k])))
      ensures Accounts.Press(f, k).done == Some(accepted[k])
    {
      assert v[k].token == accepted[k];
    }
  }

  /** The form's validation, agreeing with the first and rejecting "",
      keeps exactly the validated entries of the picker list. */
  lemma FormSeesValidated(tokens: seq<string>, me: MeOracle)
    requires !Accepts(me, "")
    ensures Filter(PickerUsers(tokens, me), Accounts.AcceptedBy(me)) == Validated(tokens, me)
  {
    var zeros: seq<Accounts.AcctInfo> := seq(|tokens|, _ => Accounts.ZeroAcct);
    var v := Validated(tokens, me);
    var p := Accounts.AcceptedBy(me);
    assert PickerUsers(tokens, me) == zeros + v;
    FilterAppend(zeros, v, p);
    FilterNone(zeros, p);
    FilterAll(v, p);
  }

  /** With no override and a readable, non-empty account list that the
      identity service rejects entirely, startup still mounts the picker,
      holding only "New Account"; it never falls back to the login form. */
  lemma AllStoredRejectedStillPicker(a: State, st: SecretStore.Store, c: Keyring.Codec,
                                     me: MeOracle, open: OpenOracle)
    requires Keyring.GetAccounts(st, c).Success?
    requires |Keyring.GetAccounts(st, c).value| > 0
    requires !Accepts(me, "")
    requires forall acc :: acc in Keyring.GetAccounts(st, c).value ==> !Accepts(me, acc.token)
    ensures Run(a, "", st, c, me, me, open).state.root
      == PickerRoot(Accounts.Form([Accounts.NewAccountButton],
                                  [Layers.Layer(Accounts.FormLayerName, false, Layers.FormContent)], true))
  {
    var tokens := AccountTokens(Keyring.GetAccounts(st, c).value);
    FilterNone(tokens, AcceptsToken(me));
    PickerButtonsFollowValidation(tokens, me);
  }
}
