/**
 * The /connect conversation of the bot as a map from Telegram user to the step
 * they are at (packages/backend/src/bot/auth-state-machine.ts): `startConnect`
 * opens an attempt, the middleware routes each text message to the handler of
 * the current step, and a finished login stores the session and registers the
 * client. Network answers, the session the library saves, the encryption and
 * whether the handler's last reply fails are parameters.
 */
module AuthStateMachine {
  import opened Common
  import opened Text
  import opened Store
  import opened Userbot
  import opened AuthFlows

  datatype Step = AwaitingPhone | AwaitingCode | AwaitingTwoFA

  /** `AuthState`; `userId` is always set by `startConnect`, so it is not optional here. */
  datatype AuthState = AuthState(step: Step, flow: AuthFlow, phoneNumber: Option<string>, userId: nat)

  /** What the network answers to each call a handler makes. */
  datatype Network = Network(
    connectError: Option<string>,
    sendCode: Result<string, string>,
    signIn: Option<Failure>,
    passwordCheck: Option<string>)

  const CancelCommand: string := "/cancel"
  const StartCommand: string := "/start"
  const StartFirstReply: string := "Сначала нажми /start"
  const AlreadyConnectedReply: string := "Аккаунт уже подключён! Используй /disconnect, чтобы отключить."
  const PhonePrompt: string :=
    "📱 Для подключения мне нужен твой номер телефона.\n\n"
    + "Введи номер в международном формате (например, +79991234567):\n\n"
    + "Для отмены отправь /cancel"

  /** `s.replace(/[^0-9]/g, "")`. */
  function KeepDigits(s: string): (r: string)
    ensures |r| <= |s| && AllDigits(r)
    ensures r == [] <==> forall k :: 0 <= k < |s| ==> !IsDigit(s[k])
    ensures AllDigits(s) ==> r == s
  {
    if s == [] then []
    else if IsDigit(s[0]) then [s[0]] + KeepDigits(s[1..])
    else
      var r := KeepDigits(s[1..]);
      assert forall k :: 1 <= k < |s| ==> s[k] == s[1..][k - 1];
      r
  }

  /** One character is kept exactly when it is a digit. */
  lemma KeepDigitsChar(c: char)
    ensures KeepDigits([c]) == if IsDigit(c) then [c] else []
  {
    assert [c][1..] == [];
  }

  /**
   * Digits are kept in their order: the code of a concatenation is the codes
   * of its parts, one after the other.
   */
  lemma {:induction false} KeepDigitsAppend(a: string, b: string)
    ensures KeepDigits(a + b) == KeepDigits(a) + KeepDigits(b)
    decreases |a|
  {
    if a == [] {
      assert a + b == b;
    } else {
      assert (a + b)[0] == a[0];
      assert (a + b)[1..] == a[1..] + b;
      KeepDigitsAppend(a[1..], b);
    }
  }

  /** What a step's handler does with the message, once the flow has answered `result`. */
  datatype Effect =
    | PassOn              // handed to the next middleware untouched
    | Cancel(passOn: bool) // /cancel or /start: attempt dropped; /start also goes on
    | Stay                // input refused, same step
    | Advance(next: Step) // on to the next step
    | Abort               // the flow failed: attempt dropped
    | Finish              // logged in: session stored, attempt dropped

  /** The answer the flow gives at each step: `startAuth`, `submitCode` or `submit2FA`. */
  function StepResult(step: Step, started: bool, net: Network): AuthResult {
    match step
    case AwaitingPhone => StartResult(net.connectError, net.sendCode)
    case AwaitingCode => CodeResult(started, net.signIn)
    case AwaitingTwoFA => PasswordResult(started, net.passwordCheck)
  }

  /** The routing of `authStateMachine` and the branches of the three step handlers, on the trimmed text. */
  function Decide(step: Step, text: string, result: AuthResult): Effect {
    if text == CancelCommand then Cancel(false)
    else if text == StartCommand then Cancel(true)
    else if StartsWith(text, "/") then PassOn
    else match step
      case AwaitingPhone =>
        if !StartsWith(text, "+") then Stay
        else if result.success then Advance(AwaitingCode)
        else Abort
      case AwaitingCode =>
        if KeepDigits(text) == [] then Stay
        else if result.needs2FA then Advance(AwaitingTwoFA)
        else if !result.success then Abort
        else Finish
      case AwaitingTwoFA =>
        if result.success then Finish else Abort
  }

  function Rank(step: Step): nat {
    match step
    case AwaitingPhone => 0
    case AwaitingCode => 1
    case AwaitingTwoFA => 2
  }

  /** Steps only move forward, one at a time; the first step is never re-entered. */
  lemma StepsMoveForward(step: Step, text: string, result: AuthResult)
    ensures Decide(step, text, result).Advance? ==> Rank(Decide(step, text, result).next) == Rank(step) + 1
    ensures Decide(step, text, result) != Advance(AwaitingPhone)
  {
  }

  /** A command is routed the same way whatever the step and whatever the flow would answer. */
  lemma CommandsIgnoreStep(step: Step, other: Step, text: string, result: AuthResult, otherResult: AuthResult)
    requires StartsWith(text, "/")
    ensures Decide(step, text, result) == Decide(other, text, otherResult)
    ensures Decide(step, text, result) in {PassOn, Cancel(false), Cancel(true)}
  {
  }

  /** A number without "+" keeps the phone step, whatever `startAuth` would have answered. */
  lemma PhoneNeedsPlus(text: string, result: AuthResult)
    requires !StartsWith(text, "/") && !StartsWith(text, "+")
    ensures Decide(AwaitingPhone, text, result) == Stay
  {
    assert text != CancelCommand by {
      if text == CancelCommand { assert StartsWith(text, "/"); }
    }
    assert text != StartCommand by {
      if text == StartCommand { assert StartsWith(text, "/"); }
    }
  }

  /** A code without digits keeps the code step and is never submitted. */
  lemma CodeNeedsDigits(text: string, result: AuthResult)
    requires !StartsWith(text, "/") && forall k :: 0 <= k < |text| ==> !IsDigit(text[k])
    ensures Decide(AwaitingCode, text, result) == Stay
  {
    assert text != CancelCommand by {
      if text == CancelCommand { assert StartsWith(text, "/"); }
    }
    assert text != StartCommand by {
      if text == StartCommand { assert StartsWith(text, "/"); }
    }
  }

  /**
   * A login finishes only from the code or the password step, only when the flow
   * had a client, and only when the sign-in (or the password check) went through.
   */
  lemma FinishNeedsSignIn(step: Step, text: string, started: bool, net: Network)
    requires Decide(step, text, StepResult(step, started, net)) == Finish
    ensures step != AwaitingPhone && started
    ensures step == AwaitingCode ==> net.signIn.None?
    ensures step == AwaitingTwoFA ==> net.passwordCheck.None?
  {
    match step
    case AwaitingPhone =>
    case AwaitingCode => CodeResultCases(started, net.signIn);
    case AwaitingTwoFA => PasswordResultCases(started, net.passwordCheck);
  }

  /** The password step is reached only when sign-in answered SESSION_PASSWORD_NEEDED. */
  lemma TwoFANeedsPasswordNeeded(step: Step, text: string, started: bool, net: Network)
    requires Decide(step, text, StepResult(step, started, net)) == Advance(AwaitingTwoFA)
    ensures step == AwaitingCode && started
    ensures net.signIn.Some? && net.signIn.value.errorMessage == Some(PasswordNeeded)
  {
    if step == AwaitingCode {
      CodeResultCases(started, net.signIn);
    }
  }

  /** The middleware leaves the message alone: no sender, no text, or no attempt open. */
  predicate Ignored(from: Option<int>, text: Option<string>, states: map<int, AuthState>) {
    from.None? || text.None? || text.value == [] || from.value !in states
  }

  /** The attempt is gone after the message: dropped by the handler, or by the catch after its reply failed. */
  predicate Drops(effect: Effect, replyFails: bool) {
    effect.Cancel? || effect.Abort? || effect.Finish? || (replyFails && (effect.Stay? || effect.Advance?))
  }

  /** `authStates` and the handlers that move it. */
  class AuthStates {
    var states: map<int, AuthState>

    constructor()
      ensures states == map[]
    {
      states := map[];
    }

    /** Past the phone step the phone number is known, so `state.phoneNumber!` never fails. */
    ghost predicate Valid()
      reads this
    {
      forall t :: t in states && states[t].step != AwaitingPhone ==> states[t].phoneNumber.Some?
    }

    /** The flows of the open attempts. */
    function Flows(): set<AuthFlow>
      reads this
    {
      set t | t in states :: states[t].flow
    }

    /** The library clients those flows hold. */
    function Clients(): set<TelegramClient?>
      reads this, Flows()
    {
      set f | f in Flows() :: f.client
    }

    /**
     * `startConnect`: refuses a sender with no user row and an account already
     * connected; otherwise destroys any earlier attempt (ignoring its failure)
     * and opens a new one at the phone step.
     */
    method StartConnect(telegramId: int, db: Database, disconnectOk: bool) returns (reply: string)
      requires Valid()
      modifies this, Flows(), Clients()
      ensures Valid()
      ensures UserByTelegramId(db.users, telegramId, 0).None? ==>
        reply == StartFirstReply && states == old(states)
      ensures UserByTelegramId(db.users, telegramId, 0).Some? ==>
        var id := UserByTelegramId(db.users, telegramId, 0).value;
        (db.users[id - 1].isConnected ==> reply == AlreadyConnectedReply && states == old(states))
        && (!db.users[id - 1].isConnected ==>
          && reply == PhonePrompt
          && telegramId in states && states == old(states)[telegramId := states[telegramId]]
          && states[telegramId].step == AwaitingPhone && states[telegramId].phoneNumber.None?
          && states[telegramId].userId == id
          && fresh(states[telegramId].flow) && states[telegramId].flow.client == null
          && (telegramId in old(states) ==>
            old(states)[telegramId].flow.client == if disconnectOk then null else old(states[telegramId].flow.client)))
    {
      var found := UserByTelegramId(db.users, telegramId, 0);
      if found.None? {
        return StartFirstReply;
      }
      var id := found.value;
      if db.users[id - 1].isConnected {
        return AlreadyConnectedReply;
      }
      if telegramId in states {
        var previous := states[telegramId].flow;
        var _ := previous.Destroy(disconnectOk);
      }
      var flow := new AuthFlow();
      states := states[telegramId := AuthState(AwaitingPhone, flow, None, id)];
      reply := PhonePrompt;
    }

    /** `handlePhone` for the trimmed, non-command `text`. */
    method HandlePhone(telegramId: int, state: AuthState, text: string, net: Network, disconnectOk: bool)
      returns (effect: Effect)
      requires Valid() && telegramId in states && states[telegramId] == state && state.step == AwaitingPhone
      requires text != CancelCommand && text != StartCommand && !StartsWith(text, "/")
      modifies this, state.flow, state.flow.client
      ensures Valid()
      ensures effect == Decide(AwaitingPhone, text, StepResult(AwaitingPhone, old(state.flow.client) != null, net))
      ensures effect == Stay ==> states == old(states)
      ensures effect.Advance? ==> states == old(states)[telegramId := state.(step := AwaitingCode, phoneNumber := Some(text))]
      ensures effect == Abort ==> states == old(states) - {telegramId}
      ensures state.flow.client == null || state.flow.client == old(state.flow.client) || fresh(state.flow.client)
    {
      if !StartsWith(text, "+") {
        return Stay;
      }
      states := states[telegramId := state.(phoneNumber := Some(text))];
      var result := state.flow.StartAuth(net.connectError, net.sendCode);
      if !result.success {
        var _ := state.flow.Destroy(disconnectOk);
        states := states - {telegramId};
        return Abort;
      }
      states := states[telegramId := state.(step := AwaitingCode, phoneNumber := Some(text))];
      effect := Advance(AwaitingCode);
    }

    /**
     * `finishAuth`: the encrypted session and `is_connected` go to the user's row,
     * the flow's client is wrapped and registered, and the attempt is dropped.
     */
    method FinishAuth(telegramId: int, state: AuthState, db: Database, manager: UserbotManager,
                      saved: string, encrypt: string -> string)
      requires db.Valid() && state.flow.client != null
      modifies this, db, manager
      ensures db.Valid()
      ensures IsRowId(|old(db.users)|, state.userId) ==>
        db.users == old(db.users)[state.userId - 1 :=
          old(db.users)[state.userId - 1].(session := Some(encrypt(saved)), isConnected := true)]
      ensures !IsRowId(|old(db.users)|, state.userId) ==> db.users == old(db.users)
      ensures db.vehicles == old(db.vehicles) && db.rentals == old(db.rentals)
      ensures db.notificationLog == old(db.notificationLog)
      ensures state.userId in manager.clients && fresh(manager.clients[state.userId])
      ensures manager.clients == old(manager.clients)[state.userId := manager.clients[state.userId]]
      ensures manager.clients[state.userId].inner == state.flow.client && manager.clients[state.userId].connected
      ensures states == old(states) - {telegramId}
    {
      var session := state.flow.GetSessionString(saved);
      db.SetSession(state.userId, encrypt(session.value));
      var existing := state.flow.client;
      var client := new UserbotClient.FromExisting(state.userId, existing);
      manager.AddExistingClient(state.userId, client);
      states := states - {telegramId};
    }

    /** `handleCode`: only the digits of the text are submitted; none at all keeps the step. */
    method HandleCode(telegramId: int, state: AuthState, text: string, net: Network, db: Database,
                      manager: UserbotManager, saved: string, encrypt: string -> string, disconnectOk: bool)
      returns (effect: Effect)
      requires Valid() && db.Valid() && telegramId in states && states[telegramId] == state && state.step == AwaitingCode
      requires text != CancelCommand && text != StartCommand && !StartsWith(text, "/")
      modifies this, state.flow, state.flow.client, db, manager
      ensures Valid() && db.Valid()
      ensures effect == Decide(AwaitingCode, text, StepResult(AwaitingCode, old(state.flow.client) != null, net))
      ensures effect == Stay ==> states == old(states)
      ensures effect.Advance? ==> states == old(states)[telegramId := state.(step := AwaitingTwoFA)]
      ensures effect == Abort ==> states == old(states) - {telegramId}
      ensures effect != Finish ==> db.users == old(db.users) && manager.clients == old(manager.clients)
      ensures effect == Finish ==> Finished(telegramId, state, db, manager, saved, encrypt)
      ensures db.vehicles == old(db.vehicles) && db.rentals == old(db.rentals)
      ensures db.notificationLog == old(db.notificationLog)
      ensures state.flow.client == null || state.flow.client == old(state.flow.client) || fresh(state.flow.client)
      ensures effect == Finish ==>
        old(state.flow.client) != null && state.flow.client == old(state.flow.client)
        && state.flow.client.open == old(state.flow.client.open)
    {
      var code := KeepDigits(text);
      if code == [] {
        return Stay;
      }
      var result := state.flow.SubmitCode(net.signIn);
      if result.needs2FA {
        states := states[telegramId := state.(step := AwaitingTwoFA)];
        return Advance(AwaitingTwoFA);
      }
      if !result.success {
        var _ := state.flow.Destroy(disconnectOk);
        states := states - {telegramId};
        return Abort;
      }
      CodeResultCases(state.flow.client != null, net.signIn);
      FinishAuth(telegramId, state, db, manager, saved, encrypt);
      effect := Finish;
    }

    /** `handle2FA`: the password message is deleted (failures ignored), then the password is checked. */
    method Handle2FA(telegramId: int, state: AuthState, text: string, net: Network, db: Database,
                     manager: UserbotManager, saved: string, encrypt: string -> string, disconnectOk: bool)
      returns (effect: Effect)
      requires Valid() && db.Valid() && telegramId in states && states[telegramId] == state && state.step == AwaitingTwoFA
      requires text != CancelCommand && text != StartCommand && !StartsWith(text, "/")
      modifies this, state.flow, state.flow.client, db, manager
      ensures Valid() && db.Valid()
      ensures effect == Decide(AwaitingTwoFA, text, StepResult(AwaitingTwoFA, old(state.flow.client) != null, net))
      ensures effect == Abort ==> states == old(states) - {telegramId}
      ensures effect != Finish ==> db.users == old(db.users) && manager.clients == old(manager.clients)
      ensures effect == Finish ==> Finished(telegramId, state, db, manager, saved, encrypt)
      ensures db.vehicles == old(db.vehicles) && db.rentals == old(db.rentals)
      ensures db.notificationLog == old(db.notificationLog)
      ensures state.flow.client == null || state.flow.client == old(state.flow.client) || fresh(state.flow.client)
      ensures effect == Finish ==>
        old(state.flow.client) != null && state.flow.client == old(state.flow.client)
        && state.flow.client.open == old(state.flow.client.open)
    {
      var result := state.flow.Submit2FA(net.passwordCheck);
      if !result.success {
        var _ := state.flow.Destroy(disconnectOk);
        states := states - {telegramId};
        return Abort;
      }
      PasswordResultCases(state.flow.client != null, net.passwordCheck);
      FinishAuth(telegramId, state, db, manager, saved, encrypt);
      effect := Finish;
    }

    /** What `finishAuth` leaves behind, stated over the state before the message. */
    twostate predicate Finished(telegramId: int, state: AuthState, db: Database, manager: UserbotManager,
                                saved: string, encrypt: string -> string)
      reads this, db, manager, manager.clients.Values
    {
      && (IsRowId(|old(db.users)|, state.userId) ==>
        db.users == old(db.users)[state.userId - 1 :=
          old(db.users)[state.userId - 1].(session := Some(encrypt(saved)), isConnected := true)])
      && (!IsRowId(|old(db.users)|, state.userId) ==> db.users == old(db.users))
      && state.userId in manager.clients && fresh(manager.clients[state.userId])
      && manager.clients == old(manager.clients)[state.userId := manager.clients[state.userId]]
      && manager.clients[state.userId].inner == old(state.flow.client)
      && manager.clients[state.userId].connected
      && states == old(states) - {telegramId}
    }

    /**
     * How a message that reached an open attempt leaves the attempts, the user
     * table and the registry, given the effect it had. A failing last reply after
     * a finished login still closes the connection the registry now holds, while
     * the registered client goes on reporting itself connected.
     */
    twostate predicate Handled(telegramId: int, state: AuthState, text: string, effect: Effect, db: Database,
                               manager: UserbotManager, saved: string, encrypt: string -> string,
                               disconnectOk: bool, replyFails: bool)
      reads this, db, manager, manager.clients.Values, manager.Inners()
    {
      && (Drops(effect, replyFails) ==> states == old(states) - {telegramId})
      && (effect == PassOn || (effect == Stay && !replyFails) ==> states == old(states))
      && (effect.Advance? && !replyFails ==>
        states == old(states)[telegramId := state.(step := effect.next,
          phoneNumber := if state.step == AwaitingPhone then Some(text) else state.phoneNumber)])
      && (effect != Finish ==> db.users == old(db.users) && manager.clients == old(manager.clients))
      && (effect == Finish ==>
        && Finished(telegramId, state, db, manager, saved, encrypt)
        && manager.clients[state.userId].inner.open == (old(state.flow.client.open) && !(replyFails && disconnectOk)))
    }

    /** The `switch` of `authStateMachine`: the handler of the attempt's step. */
    method Dispatch(telegramId: int, state: AuthState, text: string, net: Network, db: Database,
                    manager: UserbotManager, saved: string, encrypt: string -> string, disconnectOk: bool)
      returns (effect: Effect)
      requires Valid() && db.Valid() && telegramId in states && states[telegramId] == state
      requires text != CancelCommand && text != StartCommand && !StartsWith(text, "/")
      modifies this, state.flow, state.flow.client, db, manager
      ensures Valid() && db.Valid()
      ensures db.vehicles == old(db.vehicles) && db.rentals == old(db.rentals)
      ensures db.notificationLog == old(db.notificationLog)
      ensures effect == Decide(state.step, text, StepResult(state.step, old(state.flow.client) != null, net))
      ensures Handled(telegramId, state, text, effect, db, manager, saved, encrypt, disconnectOk, false)
      ensures state.flow.client == null || state.flow.client == old(state.flow.client) || fresh(state.flow.client)
      ensures effect == Finish ==> state.flow.client == old(state.flow.client)
    {
      match state.step {
        case AwaitingPhone =>
          effect := HandlePhone(telegramId, state, text, net, disconnectOk);
        case AwaitingCode =>
          effect := HandleCode(telegramId, state, text, net, db, manager, saved, encrypt, disconnectOk);
        case AwaitingTwoFA =>
          effect := Handle2FA(telegramId, state, text, net, db, manager, saved, encrypt, disconnectOk);
      }
    }

    /** The `catch` of `authStateMachine`: the flow is destroyed (its failure ignored) and the attempt dropped. */
    method Recover(telegramId: int, flow: AuthFlow, disconnectOk: bool)
      requires Valid()
      modifies this, flow, flow.client
      ensures Valid()
      ensures states == old(states) - {telegramId}
      ensures old(flow.client) != null ==> old(flow.client).open == (old(flow.client.open) && !disconnectOk)
    {
      var _ := flow.Destroy(disconnectOk);
      states := states - {telegramId};
    }

    /**
     * The `try` of `authStateMachine`: the step's handler, and the `catch` that
     * destroys the flow and drops the attempt when the handler's last reply throws.
     */
    method HandleStep(telegramId: int, state: AuthState, text: string, net: Network, db: Database,
                      manager: UserbotManager, saved: string, encrypt: string -> string,
                      disconnectOk: bool, replyFails: bool)
      returns (effect: Effect)
      requires Valid() && db.Valid() && telegramId in states && states[telegramId] == state
      requires text != CancelCommand && text != StartCommand && !StartsWith(text, "/")
      modifies this, state.flow, state.flow.client, db, manager
      ensures Valid() && db.Valid()
      ensures db.vehicles == old(db.vehicles) && db.rentals == old(db.rentals)
      ensures db.notificationLog == old(db.notificationLog)
      ensures effect == Decide(state.step, text, StepResult(state.step, old(state.flow.client) != null, net))
      ensures Handled(telegramId, state, text, effect, db, manager, saved, encrypt, disconnectOk, replyFails)
    {
      effect := Dispatch(telegramId, state, text, net, db, manager, saved, encrypt, disconnectOk);
      if replyFails {
        Recover(telegramId, state.flow, disconnectOk);
      }
    }

    /**
     * `authStateMachine` once the message's trimmed `text` has reached an open
     * attempt: /cancel and /start drop it (/start also goes on), other commands
     * go on untouched, and anything else goes to the step's handler.
     */
    method HandleText(telegramId: int, state: AuthState, text: string, net: Network, db: Database,
                      manager: UserbotManager, saved: string, encrypt: string -> string,
                      disconnectOk: bool, replyFails: bool)
      returns (passOn: bool, effect: Effect)
      requires Valid() && db.Valid() && telegramId in states && states[telegramId] == state
      modifies this, state.flow, state.flow.client, db, manager
      ensures Valid() && db.Valid()
      ensures db.vehicles == old(db.vehicles) && db.rentals == old(db.rentals)
      ensures db.notificationLog == old(db.notificationLog)
      ensures passOn <==> effect == PassOn || effect == Cancel(true)
      ensures effect == Decide(state.step, text, StepResult(state.step, old(state.flow.client) != null, net))
      ensures Handled(telegramId, state, text, effect, db, manager, saved, encrypt, disconnectOk, replyFails)
    {
      if text == CancelCommand || text == StartCommand {
        var _ := state.flow.Destroy(disconnectOk);
        states := states - {telegramId};
        effect := Cancel(text == StartCommand);
        return text == StartCommand, effect;
      }
      if StartsWith(text, "/") {
        return true, PassOn;
      }
      passOn := false;
      effect := HandleStep(telegramId, state, text, net, db, manager, saved, encrypt, disconnectOk, replyFails);
    }

    /**
     * `authStateMachine`: a message without a sender or without text, or from a
     * user with no open attempt, goes on to the next middleware untouched; any
     * other is trimmed and handled.
     */
    method HandleUpdate(from: Option<int>, text: Option<string>, net: Network, db: Database,
                        manager: UserbotManager, saved: string, encrypt: string -> string,
                        disconnectOk: bool, replyFails: bool)
      returns (passOn: bool, effect: Effect)
      requires Valid() && db.Valid()
      modifies this, Flows(), Clients(), db, manager
      ensures Valid() && db.Valid()
      ensures db.vehicles == old(db.vehicles) && db.rentals == old(db.rentals)
      ensures db.notificationLog == old(db.notificationLog)
      ensures passOn <==> effect == PassOn || effect == Cancel(true)
      ensures Ignored(from, text, old(states)) ==> effect == PassOn && states == old(states)
      ensures Ignored(from, text, old(states)) ==> db.users == old(db.users) && manager.clients == old(manager.clients)
      ensures !Ignored(from, text, old(states)) ==>
        var state := old(states)[from.value];
        effect == Decide(state.step, Trim(text.value), StepResult(state.step, old(state.flow.client) != null, net))
      ensures !Ignored(from, text, old(states)) ==>
        Handled(from.value, old(states)[from.value], Trim(text.value), effect, db, manager, saved, encrypt, disconnectOk, replyFails)
    {
      if from.None? || text.None? || text.value == [] || from.value !in states {
        return true, PassOn;
      }
      var telegramId := from.value;
      var state := states[telegramId];
      assert state.flow in Flows() && state.flow.client in Clients();
      passOn, effect := HandleText(telegramId, state, Trim(text.value), net, db, manager, saved, encrypt, disconnectOk, replyFails);
    }
  }
}
