/**
 * `TelegramService` (src/telegramService.js): the connector around one
 * messaging-client handle, and the login handshake turned into discrete
 * steps. The client library is not modelled: what it does is an input of
 * the method that waits on it (a connect error, the user record `getMe`
 * returns), and its callbacks into the service, which run while a
 * handshake is under way, are event methods (OnCodeRequested,
 * OnPasswordRequested, OnHandshakeSucceeded, OnHandshakeFailed).
 */
module Telegram {
  import opened Wrappers

  const NOT_CONNECTED: string := "Client not connected"
  const NO_CODE_RESOLVER: string := "No code resolver available"
  const NO_PASSWORD_RESOLVER: string := "No password resolver available"
  /** What the completion handler throws, and reports, when it reads the session of a client already dropped. */
  const NULL_SESSION_READ: string := "Cannot read properties of null (reading 'session')"

  /** How the handshake ended: `{step: 'success', session}` or `{step: 'error', error}`. */
  datatype Outcome = Success(session: string) | Failure(error: string)

  /** `authPromise`: none, created and not yet settled, or settled with an outcome. */
  datatype AuthPromise = NoPromise | Pending | Settled(outcome: Outcome)

  /** The first thing a new handshake asks for. */
  datatype Requirement = NeedsCode | NeedsPassword

  /** The `{step, ...}` objects `startAuth`, `submitCode` and `submitPassword` resolve with. */
  datatype Reply = CodeRequired | PasswordRequired | Finished(outcome: Outcome) | Waiting

  /** The `step` field of a reply. */
  function StepName(r: Reply): (step: string) {
    match r
    case CodeRequired => "code"
    case PasswordRequired => "password"
    case Finished(Success(_)) => "success"
    case Finished(Failure(_)) => "error"
    case Waiting => "waiting"
  }

  /** The promise once the handshake settles: only an unsettled promise takes the outcome. */
  function Settle(p: AuthPromise, o: Outcome): (r: AuthPromise)
    ensures p == Pending ==> r == Settled(o)
    ensures p != Pending ==> r == p
  {
    if p == Pending then Settled(o) else p
  }

  /**
   * What `await this.authPromise` yields: nothing without a promise, the
   * recorded outcome of a settled one, and of an unsettled one the outcome
   * the handshake eventually settles with.
   */
  function Awaited(p: AuthPromise, eventual: Outcome): (r: Option<Outcome>)
    ensures r.None? <==> p == NoPromise
    ensures p.Settled? ==> r == Some(p.outcome)
    ensures p == Pending ==> r == Some(eventual)
  {
    match p
    case NoPromise => None
    case Settled(o) => Some(o)
    case Pending => Some(eventual)
  }

  /** What the library's `getMe` returns, as far as the service reads it. */
  datatype User = User(firstName: Option<string>, lastName: Option<string>, username: Option<string>, id: int)

  /** What the service's `getMe` returns, without the avatar. */
  datatype Profile = Profile(
    displayName: string, username: Option<string>, firstName: Option<string>, lastName: Option<string>, id: int)

  /** `firstName || username || 'User'`: never empty. */
  function DisplayName(firstName: Option<string>, username: Option<string>): (name: string)
    ensures name != ""
    ensures Truthy(firstName) ==> name == firstName.value
    ensures !Truthy(firstName) && Truthy(username) ==> name == username.value
    ensures !Truthy(firstName) && !Truthy(username) ==> name == "User"
  {
    OrElse(firstName, OrElse(username, "User"))
  }

  function ProfileOf(me: User): (p: Profile)
    ensures p.displayName == DisplayName(me.firstName, me.username)
    ensures p.username == me.username && p.firstName == me.firstName && p.lastName == me.lastName && p.id == me.id
  {
    Profile(DisplayName(me.firstName, me.username), me.username, me.firstName, me.lastName, me.id)
  }

  /** The first and last name of one `account.UpdateProfile` request. */
  datatype NameWrite = NameWrite(firstName: string, lastName: string)

  /**
   * The request `updateProfile(firstName, lastName)` issues against the
   * current user: none when the current first name (a missing one read as
   * "") already equals `firstName`; otherwise one whose last name is
   * `lastName || current.lastName || ''`.
   */
  function PlannedWrite(current: User, firstName: string, lastName: string): (w: Option<NameWrite>)
    ensures w.None? <==> OrElse(current.firstName, "") == firstName
    ensures w.Some? ==> w.value.firstName == firstName
    ensures w.Some? && lastName != "" ==> w.value.lastName == lastName
    ensures w.Some? && lastName == "" ==> w.value.lastName == OrElse(current.lastName, "")
  {
    if OrElse(current.firstName, "") == firstName then None
    else Some(NameWrite(firstName, OrElse(Some(lastName), OrElse(current.lastName, ""))))
  }

  /** The user after a request took effect. */
  function Applied(u: User, w: NameWrite): (updated: User) {
    u.(firstName := Some(w.firstName), lastName := Some(w.lastName))
  }

  /** Once a request took effect, asking for the same first name again issues nothing. */
  lemma UpdateIdempotent(current: User, firstName: string, lastName: string, lastName': string)
    requires PlannedWrite(current, firstName, lastName).Some?
    ensures PlannedWrite(Applied(current, PlannedWrite(current, firstName, lastName).value), firstName, lastName') == None
  {
  }

  /** A request made with an empty last name keeps the account's last name. */
  lemma UpdateKeepsLastName(current: User, firstName: string)
    requires PlannedWrite(current, firstName, "").Some?
    ensures Applied(current, PlannedWrite(current, firstName, "").value).lastName == Some(OrElse(current.lastName, ""))
  {
  }

  class TelegramService {
    /** A client object exists (`this.client` is not null). */
    var client: bool
    /** What `session.save()` returns for the current string session. */
    var session: string
    /** `authResolvers.phoneCode` is set. */
    var phoneCodeSlot: bool
    /** `authResolvers.password` is set. */
    var passwordSlot: bool
    var authPromise: AuthPromise
    /** Every code and password handed to the handshake, in order. */
    ghost var codesSupplied: seq<string>
    ghost var passwordsSupplied: seq<string>
    /** Every `account.UpdateProfile` request issued, in order. */
    ghost var profileWrites: seq<NameWrite>

    constructor ()
      ensures !client && session == "" && !phoneCodeSlot && !passwordSlot && authPromise == NoPromise
      ensures codesSupplied == [] && passwordsSupplied == [] && profileWrites == []
    {
      client, session, phoneCodeSlot, passwordSlot, authPromise := false, "", false, false, NoPromise;
      codesSupplied, passwordsSupplied, profileWrites := [], [], [];
    }

    /**
     * `connect`: any old client is torn down (its errors swallowed) and a new
     * one takes its place before it connects, so the service holds a client
     * even when connecting fails. A non-empty session is probed with
     * `getMe`, and a failing probe fails the call. The handshake slots and
     * the promise are left as they were. `saved` is what the library's
     * `session.save()` reports for the session built from `sessionString`.
     */
    method Connect(sessionString: string, saved: string, connectError: Option<string>, probeError: Option<string>)
      returns (r: Result<bool>)
      modifies this
      ensures client && session == saved
      ensures phoneCodeSlot == old(phoneCodeSlot) && passwordSlot == old(passwordSlot) && authPromise == old(authPromise)
      ensures connectError.Some? ==> r == Err(connectError.value)
      ensures connectError.None? && sessionString != "" && probeError.Some? ==> r == Err(probeError.value)
      ensures connectError.None? && (sessionString == "" || probeError.None?) ==> r == Ok(true)
      ensures unchanged(this`codesSupplied) && unchanged(this`passwordsSupplied) && unchanged(this`profileWrites)
    {
      session := saved;
      client := true;
      if connectError.Some? {
        return Err(connectError.value);
      }
      if sessionString != "" && probeError.Some? {
        return Err(probeError.value);
      }
      return Ok(true);
    }

    /**
     * `startAuth`: without a client it fails; otherwise a new promise is
     * created and the call resolves with the step the handshake first asks
     * for, whose slot is then installed.
     */
    method StartAuth(first: Requirement) returns (r: Result<Reply>)
      modifies this
      ensures !old(client) ==> r == Err(NOT_CONNECTED) && unchanged(this)
      ensures old(client) ==> authPromise == Pending && client == old(client) && session == old(session)
      ensures old(client) && first == NeedsCode ==>
                r == Ok(CodeRequired) && phoneCodeSlot && passwordSlot == old(passwordSlot)
      ensures old(client) && first == NeedsPassword ==>
                r == Ok(PasswordRequired) && passwordSlot && phoneCodeSlot == old(phoneCodeSlot)
      ensures unchanged(this`codesSupplied) && unchanged(this`passwordsSupplied) && unchanged(this`profileWrites)
    {
      if !client {
        return Err(NOT_CONNECTED);
      }
      authPromise := Pending;
      match first
      case NeedsCode =>
        phoneCodeSlot := true;
        r := Ok(CodeRequired);
      case NeedsPassword =>
        passwordSlot := true;
        r := Ok(PasswordRequired);
    }

    /** The handshake's `phoneCode` callback, asking again after the first request. */
    method OnCodeRequested()
      modifies this`phoneCodeSlot
      ensures phoneCodeSlot
    {
      phoneCodeSlot := true;
    }

    /** The handshake's `password` callback, asking again after the first request. */
    method OnPasswordRequested()
      modifies this`passwordSlot
      ensures passwordSlot
    {
      passwordSlot := true;
    }

    /**
     * The handshake completed: the outcome is the saved session, or, if the
     * client was dropped meanwhile, the error of reading its session.
     */
    method OnHandshakeSucceeded(saved: string)
      modifies this`authPromise, this`session
      ensures old(client) ==> session == saved && authPromise == Settle(old(authPromise), Success(saved))
      ensures !old(client) ==> session == old(session) && authPromise == Settle(old(authPromise), Failure(NULL_SESSION_READ))
    {
      if client {
        session := saved;
        authPromise := Settle(authPromise, Success(saved));
      } else {
        authPromise := Settle(authPromise, Failure(NULL_SESSION_READ));
      }
    }

    /** The handshake failed with `message`. */
    method OnHandshakeFailed(message: string)
      modifies this`authPromise
      ensures authPromise == Settle(old(authPromise), Failure(message))
    {
      authPromise := Settle(authPromise, Failure(message));
    }

    /**
     * `submitCode`: without a code slot it fails and changes nothing.
     * Otherwise the code goes to the handshake and the slot is emptied; then,
     * after the one-second wait (during which the handshake may or may not
     * have asked for the password), it replies "password" if a password slot
     * is present, else the awaited outcome (the promise then cleared), else
     * "waiting".
     */
    method SubmitCode(code: string, passwordAskedMeanwhile: bool, eventual: Outcome) returns (r: Result<Reply>)
      modifies this
      ensures !old(phoneCodeSlot) ==> r == Err(NO_CODE_RESOLVER) && unchanged(this)
      ensures old(phoneCodeSlot) ==> !phoneCodeSlot && codesSupplied == old(codesSupplied) + [code]
      ensures old(phoneCodeSlot) ==> passwordSlot == (old(passwordSlot) || passwordAskedMeanwhile)
      ensures old(phoneCodeSlot) ==> client == old(client) && session == old(session)
      ensures old(phoneCodeSlot) && passwordSlot ==> r == Ok(PasswordRequired) && authPromise == old(authPromise)
      ensures old(phoneCodeSlot) && !passwordSlot ==>
                match Awaited(old(authPromise), eventual)
                case None => r == Ok(Waiting) && authPromise == NoPromise
                case Some(o) => r == Ok(Finished(o)) && authPromise == NoPromise
      ensures unchanged(this`passwordsSupplied) && unchanged(this`profileWrites)
    {
      if !phoneCodeSlot {
        return Err(NO_CODE_RESOLVER);
      }
      codesSupplied := codesSupplied + [code];
      phoneCodeSlot := false;
      if passwordAskedMeanwhile {
        passwordSlot := true;
      }
      if passwordSlot {
        return Ok(PasswordRequired);
      }
      r := AwaitCompletion(eventual);
    }

    /**
     * `submitPassword`: without a password slot it fails and changes
     * nothing; otherwise the password goes to the handshake, the slot is
     * emptied, and it replies with the awaited outcome (the promise then
     * cleared), or "waiting" when there is no promise.
     */
    method SubmitPassword(password: string, eventual: Outcome) returns (r: Result<Reply>)
      modifies this
      ensures !old(passwordSlot) ==> r == Err(NO_PASSWORD_RESOLVER) && unchanged(this)
      ensures old(passwordSlot) ==> !passwordSlot && passwordsSupplied == old(passwordsSupplied) + [password]
      ensures old(passwordSlot) ==> phoneCodeSlot == old(phoneCodeSlot) && authPromise == NoPromise
      ensures old(passwordSlot) ==> client == old(client) && session == old(session)
      ensures old(passwordSlot) ==>
                match Awaited(old(authPromise), eventual)
                case None => r == Ok(Waiting)
                case Some(o) => r == Ok(Finished(o))
      ensures unchanged(this`codesSupplied) && unchanged(this`profileWrites)
    {
      if !passwordSlot {
        return Err(NO_PASSWORD_RESOLVER);
      }
      passwordsSupplied := passwordsSupplied + [password];
      passwordSlot := false;
      r := AwaitCompletion(eventual);
    }

    /** The tail both submits share: await the promise if there is one, then drop it. */
    method AwaitCompletion(eventual: Outcome) returns (r: Result<Reply>)
      modifies this`authPromise
      ensures authPromise == NoPromise
      ensures match Awaited(old(authPromise), eventual)
              case None => r == Ok(Waiting)
              case Some(o) => r == Ok(Finished(o))
    {
      match Awaited(authPromise, eventual)
      case None =>
        r := Ok(Waiting);
      case Some(o) =>
        authPromise := NoPromise;
        r := Ok(Finished(o));
    }

    /** `getMe`: the profile of the user the library reports, with the display-name fallback. */
    method GetMe(me: User, fetchError: Option<string>) returns (r: Result<Profile>)
      ensures !client ==> r == Err(NOT_CONNECTED)
      ensures client && fetchError.Some? ==> r == Err(fetchError.value)
      ensures client && fetchError.None? ==> r.Ok? && r.value.displayName == DisplayName(me.firstName, me.username)
      ensures r.Ok? ==> r.value == ProfileOf(me) && r.value.displayName != ""
    {
      if !client {
        return Err(NOT_CONNECTED);
      }
      if fetchError.Some? {
        return Err(fetchError.value);
      }
      return Ok(ProfileOf(me));
    }

    /**
     * `updateProfile`: without a client it fails; a failing read of the
     * current user fails; a first name that already matches is skipped
     * (`Ok(true)`) with no request; otherwise the planned request is issued
     * and the call reports `Ok(false)` or the request's error.
     */
    method UpdateProfile(firstName: string, lastName: string, current: Result<User>, requestError: Option<string>)
      returns (r: Result<bool>)
      modifies this`profileWrites
      ensures !client ==> r == Err(NOT_CONNECTED) && profileWrites == old(profileWrites)
      ensures client && current.Err? ==> r == Err(current.message) && profileWrites == old(profileWrites)
      ensures client && current.Ok? ==>
                match PlannedWrite(current.value, firstName, lastName)
                case None => r == Ok(true) && profileWrites == old(profileWrites)
                case Some(w) => profileWrites == old(profileWrites) + [w]
                                && r == (if requestError.Some? then Err(requestError.value) else Ok(false))
    {
      if !client {
        return Err(NOT_CONNECTED);
      }
      if current.Err? {
        return Err(current.message);
      }
      var currentFirstName := OrElse(current.value.firstName, "");
      if currentFirstName == firstName {
        return Ok(true);
      }
      profileWrites := profileWrites + [NameWrite(firstName, OrElse(Some(lastName), OrElse(current.value.lastName, "")))];
      if requestError.Some? {
        return Err(requestError.value);
      }
      return Ok(false);
    }

    /**
     * `disconnect`: the client is disconnected and dropped, and both slots
     * and the promise are cleared. If disconnecting the client throws,
     * nothing is reset and the error propagates.
     */
    method Disconnect(teardownError: Option<string>) returns (error: Option<string>)
      modifies this
      ensures old(client) && teardownError.Some? ==> error == teardownError && unchanged(this)
      ensures !(old(client) && teardownError.Some?) ==>
                && error.None? && !client && !phoneCodeSlot && !passwordSlot && authPromise == NoPromise
                && session == old(session)
                && unchanged(this`codesSupplied) && unchanged(this`passwordsSupplied) && unchanged(this`profileWrites)
    {
      if client {
        if teardownError.Some? {
          return teardownError;
        }
        client := false;
      }
      phoneCodeSlot, passwordSlot, authPromise := false, false, NoPromise;
      return None;
    }

    /** `getSessionString`: the saved session while a client exists, "" otherwise. */
    method GetSessionString() returns (s: string)
      ensures client ==> s == session
      ensures !client ==> s == ""
    {
      s := if client then session else "";
    }
  }

  /**
   * A login that needs both a code and a 2FA password and fails on the
   * password, followed by the renderer's disconnect: the replies are
   * "code", "password", then "error"; afterwards the service holds nothing
   * and a late code is refused.
   */
  method PasswordFailureScenario() {
    var service := new TelegramService();
    var connected := service.Connect("", "", None, None);
    assert connected == Ok(true);
    var started := service.StartAuth(NeedsCode);
    assert started == Ok(CodeRequired) && StepName(started.value) == "code";
    var afterCode := service.SubmitCode("00000", true, Failure("unused"));
    assert afterCode == Ok(PasswordRequired) && StepName(afterCode.value) == "password";
    service.OnHandshakeFailed("PASSWORD_HASH_INVALID");
    var afterPassword := service.SubmitPassword("wrong", Success("unused"));
    assert afterPassword == Ok(Finished(Failure("PASSWORD_HASH_INVALID")));
    assert StepName(afterPassword.value) == "error";
    var error := service.Disconnect(None);
    assert !service.client && !service.phoneCodeSlot && !service.passwordSlot && service.authPromise == NoPromise;
    var again := service.Disconnect(None);
    assert again.None? && !service.client && service.authPromise == NoPromise;
    var late := service.SubmitCode("11111", false, Success("unused"));
    assert late == Err(NO_CODE_RESOLVER);
    var noSession := service.GetSessionString();
    assert noSession == "";
  }
}
