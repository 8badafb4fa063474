/** Concrete startup runs: fixed overrides and stored account lists with a
    given identity-service verdict for each token. */
module Scenarios {
  import opened Wrappers
  import opened Discord
  import opened App
  import SecretStore
  import Keyring
  import Accounts
  import Layers

  /** Override "tok1": the session opens with "tok1" at once; the keyring
      is not read and `Me` is never called. */
  lemma SingleOverrideOpensDirectly(cfg: Config, st: SecretStore.Store, c: Keyring.Codec,
                                    me: MeOracle, open: OpenOracle)
    requires open("tok1").Pass?
    ensures var r := Run(New(cfg), "tok1", st, c, me, me, open);
      && r.resolution == Resolution(ChatDirect("tok1"), false, [])
      && r.err.Pass?
      && r.state.root == ChatRoot(ChatView("tok1"))
  {
    assert TokenSeparator !in "tok1";
  }

  /** Override "tok1,tok2" with only "tok1" accepted: both tokens are
      validated, the picker offers one account then "New Account", and
      pressing the account opens a session with "tok1". */
  lemma TwoOverridesOneValid(cfg: Config, st: SecretStore.Store, c: Keyring.Codec,
                             me: MeOracle, u: User, open: OpenOracle)
    requires me("tok1") == Some(u) && me("tok2").None? && me("").None?
    requires open("tok1").Pass?
    ensures var r := Run(New(cfg), "tok1,tok2", st, c, me, me, open);
      && r.resolution.meCalls == ["tok1", "tok2"]
      && r.state.root.PickerRoot?
      && r.state.root.form.buttons ==
           [Accounts.Button(u.username, Accounts.LoginAs(Keyring.AccountInfo(u.id, "tok1"))),
            Accounts.NewAccountButton]
      && PressPickerButton(r.state, 0, open).root == ChatRoot(ChatView("tok1"))
  {
    var tokens := ["tok1", "tok2"];
    ResolveTwo(st, c, me);
    var f := Accounts.NewForm(PickerUsers(tokens, me), me, true);
    FormOfTwo("tok1", "tok2", me, u);
    var r := Run(New(cfg), "tok1,tok2", st, c, me, me, open);
    assert r.state.root == PickerRoot(f);
  }

  /** The override "tok1,tok2" is split and both parts go to the picker. */
  lemma ResolveTwo(st: SecretStore.Store, c: Keyring.Codec, me: MeOracle)
    ensures Resolve("tok1,tok2", st, c, me)
      == Resolution(Picker(PickerUsers(["tok1", "tok2"], me)), false, ["tok1", "tok2"])
  {
    var env := "tok1,tok2";
    SplitTwo();
    assert TokenSeparator in env by { assert env[4] == TokenSeparator; }
  }

  /** The picker for two tokens of which only the first is accepted. */
  lemma FormOfTwo(t1: string, t2: string, me: MeOracle, u: User)
    requires me(t1) == Some(u) && me(t2).None? && me("").None?
    ensures Accounts.NewForm(PickerUsers([t1, t2], me), me, true).buttons ==
      [Accounts.Button(u.username, Accounts.LoginAs(Keyring.AccountInfo(u.id, t1))),
       Accounts.NewAccountButton]
  {
    var tokens := [t1, t2];
    FilterOfTwo(t1, t2, me);
    PickerButtonsFollowValidation(tokens, me);
    var b := Accounts.NewForm(PickerUsers(tokens, me), me, true).buttons;
    assert |b| == 2;
    assert b[0] == Accounts.Button(u.username, Accounts.LoginAs(Keyring.AccountInfo(u.id, t1)));
    assert b[1] == Accounts.NewAccountButton;
  }

  lemma FilterOfTwo(t1: string, t2: string, me: MeOracle)
    requires me(t1).Some? && me(t2).None?
    ensures Seqs.Filter([t1, t2], AcceptsToken(me)) == [t1]
  {
    var tokens := [t1, t2];
    assert tokens[1..] == [t2];
    assert [t2][1..] == [];
    assert Seqs.Filter([t2], AcceptsToken(me)) == [];
  }

  lemma SplitTwo()
    ensures GoStrings.Split("tok1,tok2", TokenSeparator) == ["tok1", "tok2"]
  {
    var tokens := ["tok1", "tok2"];
    assert GoStrings.Join(tokens, TokenSeparator) == "tok1,tok2" by {
      assert tokens[1..] == ["tok2"];
    }
    GoStrings.SplitJoin(tokens, TokenSeparator);
  }

  /** A stored list of accounts 7 and 9 where 9's token is rejected: the
      picker offers account 7 only, then "New Account". */
  lemma StoredSevenAndNine(cfg: Config, st: SecretStore.Store, c: Keyring.Codec,
                           me: MeOracle, t7: string, t9: string, name7: string, open: OpenOracle)
    requires Keyring.GetAccounts(st, c) ==
      Success([Keyring.AccountInfo(7, t7), Keyring.AccountInfo(9, t9)])
    requires me(t7) == Some(User(7, name7)) && me(t9).None? && me("").None?
    ensures var r := Run(New(cfg), "", st, c, me, me, open);
      && r.resolution.keyringRead
      && r.resolution.meCalls == [t7, t9]
      && r.state.root.PickerRoot?
      && r.state.root.form.buttons ==
           [Accounts.Button(name7, Accounts.LoginAs(Keyring.AccountInfo(7, t7))),
            Accounts.NewAccountButton]
  {
    var tokens := [t7, t9];
    assert AccountTokens([Keyring.AccountInfo(7, t7), Keyring.AccountInfo(9, t9)]) == tokens;
    FormOfTwo(t7, t9, me, User(7, name7));
  }

  /** Pressing the configured Quit key on an open session consumes the
      key, closes the session and stops the application. */
  lemma QuitKeyClosesSession(cfg: Config, token: string, open: OpenOracle,
                             ev: KeyEvent, name: KeyEvent -> string)
    requires open(token).Pass? && name(ev) == cfg.quitKey
    ensures var a := ShowChatView(New(cfg), token, open).state;
      var r := OnInputCapture(a, ev, name);
      r.event.None? && r.state.closes == 1 && r.state.stops == 1
  {
  }
}
