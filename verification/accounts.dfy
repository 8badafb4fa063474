/** The account picker (`accounts.Form`): one button per account whose
    token the identity service accepts, then "New Account"; pressing an
    account's button hands its token to the `done` callback. A login error
    is shown in a modal layer named "error". */
module Accounts {
  import opened Wrappers
  import opened Discord
  import opened Seqs
  import opened Layers
  import Keyring

  const FormLayerName: string := "form"
  const ErrorLayerName: string := "error"
  const NewAccountLabel: string := "New Account"
  /** Buttons of the error modal, by index. */
  const ModalButtons: seq<string> := ["Copy", "Close"]

  /** `AcctInfo`: a validated user (nil in a zero value) and its token. */
  datatype AcctInfo = AcctInfo(user: Option<User>, token: string)

  /** The zero value Go's `make` fills a slice with. */
  const ZeroAcct: AcctInfo := AcctInfo(None, "")

  datatype Action = LoginAs(account: Keyring.AccountInfo) | AddAccount

  datatype Button = Button(text: string, action: Action)

  const NewAccountButton: Button := Button(NewAccountLabel, AddAccount)

  /** The form's state: its buttons in order, its layer stack, and whether
      a `done` callback was supplied (the callback itself is the caller's
      effect, returned by `Press`). */
  datatype Form = Form(buttons: seq<Button>, layers: seq<Layer>, hasDone: bool)

  /** The accounts whose token `me` accepts. */
  function AcceptedBy(me: MeOracle): AcctInfo -> bool {
    (a: AcctInfo) => Accepts(me, a.token)
  }

  function Tokens(accts: seq<AcctInfo>): (ts: seq<string>)
    ensures |ts| == |accts|
    ensures forall i :: 0 <= i < |accts| ==> ts[i] == accts[i].token
  {
    seq(|accts|, i requires 0 <= i < |accts| => accts[i].token)
  }

  lemma TokensAppend(a: seq<AcctInfo>, b: seq<AcctInfo>)
    ensures Tokens(a + b) == Tokens(a) + Tokens(b)
  {
  }

  /** The button of an accepted account: labelled with the user name `me`
      returns, logging in with that user's id and the account's own token. */
  function AccountButton(acct: AcctInfo, me: MeOracle): Button
    requires Accepts(me, acct.token)
  {
    var u := me(acct.token).value;
    Button(u.username, LoginAs(Keyring.AccountInfo(u.id, acct.token)))
  }

  /** The loop of `NewForm`: each account's token is validated again; the
      ones that fail (zero values included, when "" is rejected) get no
      button. */
  function AccountButtons(accts: seq<AcctInfo>, me: MeOracle): (bs: seq<Button>)
    ensures |bs| == |Filter(accts, AcceptedBy(me))|
    ensures forall k :: 0 <= k < |bs| ==>
      bs[k] == AccountButton(Filter(accts, AcceptedBy(me))[k], me)
  {
    if accts == [] then []
    else
      var head := if Accepts(me, accts[0].token) then [AccountButton(accts[0], me)] else [];
      var rest := AccountButtons(accts[1..], me);
      AccountButtonsStep(accts, me, head, rest);
      head + rest
  }

  /** One step of the button loop: the first account's button (if it is
      accepted) in front of the buttons of the remaining accounts. */
  lemma AccountButtonsStep(accts: seq<AcctInfo>, me: MeOracle, head: seq<Button>, rest: seq<Button>)
    requires accts != []
    requires head == if Accepts(me, accts[0].token) then [AccountButton(accts[0], me)] else []
    requires |rest| == |Filter(accts[1..], AcceptedBy(me))|
    requires forall k :: 0 <= k < |rest| ==> rest[k] == AccountButton(Filter(accts[1..], AcceptedBy(me))[k], me)
    ensures |head + rest| == |Filter(accts, AcceptedBy(me))|
    ensures forall k :: 0 <= k < |head + rest| ==>
      (head + rest)[k] == AccountButton(Filter(accts, AcceptedBy(me))[k], me)
  {
    var p := AcceptedBy(me);
    FilterCons(accts, p);
    if p(accts[0]) {
      forall k | 0 <= k < |head + rest|
        ensures (head + rest)[k] == AccountButton(Filter(accts, p)[k], me)
      {
        if k > 0 {
          assert (head + rest)[k] == rest[k - 1];
        }
      }
    } else {
      assert head + rest == rest;
    }
  }

  /** `NewForm`: the account buttons, then "New Account", in a single
      layer named "form". */
  function NewForm(accts: seq<AcctInfo>, me: MeOracle, hasDone: bool): (f: Form)
    ensures |f.buttons| == |Filter(accts, AcceptedBy(me))| + 1
    ensures f.buttons[|f.buttons| - 1] == NewAccountButton
    ensures forall k :: 0 <= k < |f.buttons| - 1 ==>
      var a := Filter(accts, AcceptedBy(me))[k];
      && f.buttons[k].action == LoginAs(Keyring.AccountInfo(me(a.token).value.id, a.token))
      && f.buttons[k].text == me(a.token).value.username
    ensures f.layers == [Layer(FormLayerName, false, FormContent)]
    ensures f.hasDone == hasDone
  {
    Form(AccountButtons(accts, me) + [NewAccountButton],
         [Layer(FormLayerName, false, FormContent)], hasDone)
  }

  /** A button press: the form afterwards and the token `done` was called
      with, if it was called. */
  datatype Pressed = Pressed(form: Form, done: Option<string>)

  /** `login`: call `done` with the account's token unless `done` is nil. */
  function Login(f: Form, account: Keyring.AccountInfo): (p: Pressed)
    ensures p.form == f
    ensures p.done.Some? <==> f.hasDone
    ensures p.done.Some? ==> p.done.value == account.token
  {
    if f.hasDone then Pressed(f, Some(account.token)) else Pressed(f, None)
  }

  /** `addAccount`: a handler with an empty body. */
  function AddAccountPressed(f: Form): (p: Pressed)
    ensures p.form == f && p.done.None?
  {
    Pressed(f, None)
  }

  /** Pressing the `i`-th button of the form. */
  function Press(f: Form, i: nat): (p: Pressed)
    requires i < |f.buttons|
    ensures p.form == f
    ensures p.done.Some? <==> f.hasDone && f.buttons[i].action.LoginAs?
    ensures p.done.Some? ==> p.done.value == f.buttons[i].action.account.token
  {
    match f.buttons[i].action
    case LoginAs(account) => Login(f, account)
    case AddAccount => AddAccountPressed(f)
  }

  /** Pressing the `k`-th account button of a new form calls `done` with
      the token of the `k`-th accepted account, and with nothing else. */
  lemma PressAccountButton(accts: seq<AcctInfo>, me: MeOracle, k: nat)
    requires k < |Filter(accts, AcceptedBy(me))|
    ensures Press(NewForm(accts, me, true), k).done == Some(Filter(accts, AcceptedBy(me))[k].token)
  {
  }

  /** "New Account" never calls `done`. */
  lemma PressNewAccount(accts: seq<AcctInfo>, me: MeOracle, hasDone: bool)
    ensures var f := NewForm(accts, me, hasDone);
      Press(f, |f.buttons| - 1) == Pressed(f, None)
  {
  }

  /** The error modal's layer. */
  function ErrorLayer(message: string): Layer {
    Layer(ErrorLayerName, true, ModalContent(message, ModalButtons))
  }

  /** `onError`: put a modal with the message and the buttons "Copy" and
      "Close" in an overlay layer named "error", in front of the rest. */
  function OnError(f: Form, message: string): (g: Form)
    ensures g.buttons == f.buttons && g.hasDone == f.hasDone
    ensures |g.layers| >= 1 && g.layers[|g.layers| - 1].name == ErrorLayerName
    ensures UniqueNames(f.layers) ==>
      UniqueNames(g.layers) && g.layers[|g.layers| - 1] == ErrorLayer(message)
    ensures forall l :: l in f.layers && l.name != ErrorLayerName ==> l in g.layers
  {
    var added := Add(f.layers, ErrorLayer(message));
    assert Names(added)[|added| - 1] == ErrorLayerName;
    if UniqueNames(f.layers) then
      SendAddedToFront(f.layers, ErrorLayer(message));
      f.(layers := SendToFront(added, ErrorLayerName))
    else
      var g := f.(layers := SendToFront(added, ErrorLayerName));
      assert forall l :: l in added ==> l in g.layers by {
        assert multiset(g.layers) == multiset(added);
        forall l | l in added ensures l in g.layers {
          assert l in multiset(added);
        }
      }
      g
  }

  /** A modal button press: the form afterwards and the text handed to the
      clipboard, if any. */
  datatype ModalPressed = ModalPressed(form: Form, copied: Option<string>)

  /** The modal's done handler: "Copy" (index 0) copies the message and
      keeps the modal; any other index removes the "error" layer. */
  function ModalDone(f: Form, message: string, buttonIndex: int): (p: ModalPressed)
    ensures buttonIndex == 0 ==> p == ModalPressed(f, Some(message))
    ensures buttonIndex != 0 ==>
      p.copied.None? && p.form.buttons == f.buttons && p.form.hasDone == f.hasDone
    ensures buttonIndex != 0 && UniqueNames(f.layers) ==>
      UniqueNames(p.form.layers) && ErrorLayerName !in Names(p.form.layers)
    ensures forall l :: l in f.layers && l.name != ErrorLayerName ==> l in p.form.layers
  {
    if buttonIndex == 0 then ModalPressed(f, Some(message))
    else if UniqueNames(f.layers) then
      RemoveUnique(f.layers, ErrorLayerName);
      ModalPressed(f.(layers := Remove(f.layers, ErrorLayerName)), None)
    else ModalPressed(f.(layers := Remove(f.layers, ErrorLayerName)), None)
  }

  /** Showing an error on a form with no error layer and then closing it
      gives back the form as it was. */
  lemma ErrorThenClose(f: Form, message: string, buttonIndex: int)
    requires ErrorLayerName !in Names(f.layers)
    requires buttonIndex != 0
    ensures ModalDone(OnError(f, message), message, buttonIndex).form == f
  {
    AddThenRemove(f.layers, ErrorLayer(message));
    AddFresh(f.layers, ErrorLayer(message));
  }
}
