/**
 * One login attempt of a user account (packages/backend/src/services/auth-flow.ts):
 * the library client it opens and the code hash Telegram sent back. What the
 * network answers to connect, send-code, sign-in and the password check is a
 * parameter; the client is the one of module Userbot.
 */
module AuthFlows {
  import opened Common
  import opened Userbot

  /** `AuthResult`: `needs2FA` and `error` are optional fields. */
  datatype AuthResult = AuthResult(success: bool, needs2FA: bool, error: Option<string>)

  /** An error thrown by the library: its `errorMessage` field, if any, and `String(error)`. */
  datatype Failure = Failure(errorMessage: Option<string>, text: string)

  const NotStarted: string := "Auth not started"
  const PasswordNeeded: string := "SESSION_PASSWORD_NEEDED"
  const CodeExpired: string := "PHONE_CODE_EXPIRED"
  const CodeInvalid: string := "PHONE_CODE_INVALID"
  const CodeExpiredReply: string := "Код истёк. Нажми /connect и введи новый код быстрее."
  const CodeInvalidReply: string := "Неверный код. Проверь, что вводишь последний полученный код."

  function Succeeded(): AuthResult {
    AuthResult(true, false, None)
  }

  function Failed(error: string): AuthResult {
    AuthResult(false, false, Some(error))
  }

  /** What `startAuth` returns, given the connect error (if any) and what `sendCode` gave. */
  function StartResult(connectError: Option<string>, sendCode: Result<string, string>): AuthResult {
    if connectError.Some? then Failed(connectError.value)
    else if sendCode.Err? then Failed(sendCode.error)
    else Succeeded()
  }

  /** What `submitCode` returns: the sign-in's failure (if any) mapped to a result. */
  function CodeResult(started: bool, signIn: Option<Failure>): AuthResult {
    if !started then Failed(NotStarted)
    else if signIn.None? then Succeeded()
    else if signIn.value.errorMessage == Some(PasswordNeeded) then AuthResult(false, true, None)
    else if signIn.value.errorMessage == Some(CodeExpired) then Failed(CodeExpiredReply)
    else if signIn.value.errorMessage == Some(CodeInvalid) then Failed(CodeInvalidReply)
    else Failed(signIn.value.text)
  }

  /** What `submit2FA` returns: the password check's failure text, if any. */
  function PasswordResult(started: bool, check: Option<string>): AuthResult {
    if !started then Failed(NotStarted)
    else if check.None? then Succeeded()
    else Failed(check.value)
  }

  /** `startAuth` succeeds exactly when both calls go through, and a failure always says why. */
  lemma StartResultCases(connectError: Option<string>, sendCode: Result<string, string>)
    ensures StartResult(connectError, sendCode).success <==> connectError.None? && sendCode.Ok?
    ensures !StartResult(connectError, sendCode).needs2FA
    ensures StartResult(connectError, sendCode).error.Some? <==> !StartResult(connectError, sendCode).success
  {
  }

  /**
   * The sign-in mapping: success only when the call went through, the two-step
   * flag only for SESSION_PASSWORD_NEEDED (and never with an error), the two
   * code errors replaced by their fixed texts, anything else by the error's text.
   */
  lemma CodeResultCases(started: bool, signIn: Option<Failure>)
    ensures CodeResult(started, signIn).success <==> started && signIn.None?
    ensures CodeResult(started, signIn).needs2FA <==>
      started && signIn.Some? && signIn.value.errorMessage == Some(PasswordNeeded)
    ensures CodeResult(started, signIn).needs2FA ==> CodeResult(started, signIn).error.None?
    ensures CodeResult(started, signIn).error.Some? <==>
      !CodeResult(started, signIn).success && !CodeResult(started, signIn).needs2FA
    ensures !started ==> CodeResult(started, signIn).error == Some(NotStarted)
    ensures started && signIn.Some? && signIn.value.errorMessage == Some(CodeExpired) ==>
      CodeResult(started, signIn).error == Some(CodeExpiredReply)
    ensures started && signIn.Some? && signIn.value.errorMessage == Some(CodeInvalid) ==>
      CodeResult(started, signIn).error == Some(CodeInvalidReply)
    ensures started && signIn.Some? && signIn.value.errorMessage !in {Some(PasswordNeeded), Some(CodeExpired), Some(CodeInvalid)} ==>
      CodeResult(started, signIn).error == Some(signIn.value.text)
  {
    assert |PasswordNeeded| != |CodeExpired| && |PasswordNeeded| != |CodeInvalid|;
    assert CodeExpired != CodeInvalid by {
      assert CodeExpired[11] != CodeInvalid[11];
    }
  }

  /** The password step never asks for a second factor and succeeds only when the check went through. */
  lemma PasswordResultCases(started: bool, check: Option<string>)
    ensures PasswordResult(started, check).success <==> started && check.None?
    ensures !PasswordResult(started, check).needs2FA
    ensures PasswordResult(started, check).error.Some? <==> !PasswordResult(started, check).success
  {
  }

  class AuthFlow {
    var client: TelegramClient?
    var phoneCodeHash: string

    constructor()
      ensures client == null && phoneCodeHash == ""
    {
      client := null;
      phoneCodeHash := "";
    }

    /** `isStarted`: a client is open for this attempt and Telegram has sent a code. */
    predicate IsStarted()
      reads this
    {
      client != null && phoneCodeHash != ""
    }

    /**
     * `startAuth`: a new client with an empty session replaces the old one before
     * anything can fail, so a failed start still leaves a client behind; the code
     * hash is stored only when `sendCode` returned one.
     */
    method StartAuth(connectError: Option<string>, sendCode: Result<string, string>) returns (r: AuthResult)
      modifies this
      ensures r == StartResult(connectError, sendCode)
      ensures client != null && fresh(client) && client.session == ""
      ensures client.open <==> connectError.None?
      ensures r.success ==> phoneCodeHash == sendCode.value
      ensures !r.success ==> phoneCodeHash == old(phoneCodeHash)
    {
      var c := new TelegramClient("");
      client := c;
      c.Connect(connectError.None?);
      if connectError.Some? {
        return Failed(connectError.value);
      }
      if sendCode.Err? {
        return Failed(sendCode.error);
      }
      phoneCodeHash := sendCode.value;
      r := Succeeded();
    }

    /** `submitCode`: without a client it answers "Auth not started"; it changes no field either way. */
    method SubmitCode(signIn: Option<Failure>) returns (r: AuthResult)
      ensures r == CodeResult(client != null, signIn)
      ensures client == null ==> r == Failed(NotStarted)
    {
      if client == null {
        return Failed(NotStarted);
      }
      if signIn.None? {
        return Succeeded();
      }
      var msg := signIn.value.errorMessage;
      if msg == Some(PasswordNeeded) {
        return AuthResult(false, true, None);
      }
      if msg == Some(CodeExpired) {
        return Failed(CodeExpiredReply);
      }
      if msg == Some(CodeInvalid) {
        return Failed(CodeInvalidReply);
      }
      r := Failed(signIn.value.text);
    }

    /** `submit2FA`: as `submitCode`, with the password check's outcome. */
    method Submit2FA(check: Option<string>) returns (r: AuthResult)
      ensures r == PasswordResult(client != null, check)
      ensures client == null ==> r == Failed(NotStarted)
    {
      if client == null {
        return Failed(NotStarted);
      }
      if check.Some? {
        return Failed(check.value);
      }
      r := Succeeded();
    }

    /** `getSessionString`: throws exactly when there is no client; `saved` is what the library's session saves to. */
    method GetSessionString(saved: string) returns (r: Result<string, string>)
      ensures r.Err? <==> client == null
      ensures r.Err? ==> r.error == NotStarted
      ensures r.Ok? ==> r.value == saved
    {
      if client == null {
        return Err(NotStarted);
      }
      r := Ok(saved);
    }

    /**
     * `destroy`: disconnects and forgets the client. A failing disconnect is
     * rethrown (`thrown`) and keeps the client; without a client nothing happens,
     * so a second call after a successful one is a no-op.
     */
    method Destroy(disconnectOk: bool) returns (thrown: bool)
      modifies this, if client != null then {client} else {}
      ensures old(client) == null ==> client == null && !thrown
      ensures old(client) != null ==> thrown == !disconnectOk
      ensures old(client) != null ==> old(client).open == (old(client.open) && !disconnectOk)
      ensures client == if disconnectOk then null else old(client)
      ensures phoneCodeHash == old(phoneCodeHash)
    {
      thrown := false;
      if client != null {
        client.Disconnect(disconnectOk);
        if !disconnectOk {
          return true;
        }
        client := null;
      }
    }
  }
}
