/**
 * The renderer's persisted settings (src/renderer/app.js): the defaults
 * filled in when config.json is read, the record written back, the API
 * credential check, and the two startup decisions that touch the settings.
 * Reading and writing the file and parsing JSON are not modelled; a record
 * whose fields may each be missing stands for the parsed JSON.
 */
module Config {
  import opened Wrappers
  import opened Strings
  import opened Nickname

  /** config.json as parsed: every field may be missing (or null). */
  datatype StoredConfig = StoredConfig(
    apiId: Option<string>,
    apiHash: Option<string>,
    session: Option<string>,
    autoUpdate: Option<bool>,
    timezone: Option<int>,
    startInTray: Option<bool>,
    autoStart: Option<bool>,
    originalNickname: Option<string>)

  /** The fields of the renderer's `state` that config.json holds. */
  datatype Settings = Settings(
    apiId: Option<string>,
    apiHash: Option<string>,
    session: Option<string>,
    autoUpdate: bool,
    timezone: int,
    startInTray: bool,
    autoStart: bool,
    originalNickname: Option<string>)

  /** The renderer's initial state, before any file is read. */
  const INITIAL: Settings := Settings(None, None, None, false, 0, false, false, None)

  const EMPTY_CONFIG: StoredConfig := StoredConfig(None, None, None, None, None, None, None, None)

  /** `x || false` for a stored flag. */
  function FlagOrFalse(x: Option<bool>): (b: bool)
    ensures b <==> x == Some(true)
  {
    x.Some? && x.value
  }

  /** `x || 0` for the stored offset: a missing offset and 0 both give 0. */
  function OffsetOrZero(x: Option<int>): (tz: int)
    ensures x.Some? ==> tz == x.value
    ensures x.None? ==> tz == 0
  {
    match x
    case Some(v) => v
    case None => 0
  }

  /** `loadConfig` once the file is parsed: credentials and session are copied, the rest defaulted. */
  function Load(c: StoredConfig): (s: Settings)
    ensures s.apiId == c.apiId && s.apiHash == c.apiHash && s.session == c.session
    ensures s.autoUpdate == (c.autoUpdate == Some(true))
    ensures s.startInTray == (c.startInTray == Some(true))
    ensures s.autoStart == (c.autoStart == Some(true))
    ensures s.timezone == (if c.timezone.Some? then c.timezone.value else 0)
    ensures s.originalNickname != Some("")
    ensures Truthy(c.originalNickname) ==> s.originalNickname == c.originalNickname
    ensures !Truthy(c.originalNickname) ==> s.originalNickname == None
  {
    Settings(
      c.apiId, c.apiHash, c.session,
      FlagOrFalse(c.autoUpdate),
      OffsetOrZero(c.timezone),
      FlagOrFalse(c.startInTray),
      FlagOrFalse(c.autoStart),
      Normalize(c.originalNickname))
  }

  /** The record `saveConfig` serialises. */
  function Save(s: Settings): (c: StoredConfig)
    ensures c.autoUpdate.Some? && c.timezone.Some? && c.startInTray.Some? && c.autoStart.Some?
    ensures c.originalNickname.Some? <==> Truthy(s.originalNickname)
  {
    StoredConfig(
      s.apiId, s.apiHash, s.session,
      Some(s.autoUpdate), Some(s.timezone), Some(s.startInTray), Some(s.autoStart),
      Normalize(s.originalNickname))
  }

  /** A file with no fields loads as the initial state. */
  lemma LoadEmpty()
    ensures Load(EMPTY_CONFIG) == INITIAL
  {
  }

  /** Saving and loading again gives back the settings, the empty nickname becoming absent. */
  lemma LoadSave(s: Settings)
    ensures Load(Save(s)) == s.(originalNickname := Normalize(s.originalNickname))
  {
  }

  /** A loaded state survives a save and a reload unchanged. */
  lemma LoadSaveLoad(c: StoredConfig)
    ensures Load(Save(Load(c))) == Load(c)
  {
    LoadSave(Load(c));
  }

  // ---------------------------------------------------------------------------
  // API credentials entered on the first screen

  predicate AllDigits(s: string) {
    forall i :: 0 <= i < |s| ==> IsDigit(s[i])
  }

  datatype CredentialCheck = Accepted | MissingField | NotNumeric

  /** `saveApiCredentials`' checks on the trimmed inputs: both filled in, the ID matching /^\d+$/. */
  function CheckCredentials(apiId: string, apiHash: string): (r: CredentialCheck)
    ensures r == Accepted <==> apiId != "" && apiHash != "" && AllDigits(apiId)
    ensures r == MissingField <==> apiId == "" || apiHash == ""
    ensures r == NotNumeric <==> apiId != "" && apiHash != "" && !AllDigits(apiId)
  {
    if apiId == "" || apiHash == "" then MissingField
    else if !AllDigits(apiId) then NotNumeric
    else Accepted
  }

  /** `saveApiCredentials`: accepted credentials are stored; a rejected pair leaves the settings alone. */
  function SaveCredentials(s: Settings, apiId: string, apiHash: string): (r: (Settings, CredentialCheck))
    ensures r.1 == CheckCredentials(apiId, apiHash)
    ensures r.1 == Accepted ==> r.0 == s.(apiId := Some(apiId), apiHash := Some(apiHash))
    ensures r.1 != Accepted ==> r.0 == s
  {
    var check := CheckCredentials(apiId, apiHash);
    if check == Accepted then (s.(apiId := Some(apiId), apiHash := Some(apiHash)), check) else (s, check)
  }

  // ---------------------------------------------------------------------------
  // Startup

  /** The first screen `init` shows, or that it connects with the stored session. */
  datatype Startup = AskCredentials | AskLogin | ConnectWithSession

  function StartupRoute(s: Settings): (r: Startup)
    ensures r == AskCredentials <==> !Truthy(s.apiId) || !Truthy(s.apiHash)
    ensures r == ConnectWithSession <==> Truthy(s.apiId) && Truthy(s.apiHash) && Truthy(s.session)
  {
    if !Truthy(s.apiId) || !Truthy(s.apiHash) then AskCredentials
    else if !Truthy(s.session) then AskLogin
    else ConnectWithSession
  }

  /** The texts that mark a stored session as dead when a startup error mentions one of them. */
  const SESSION_MARKERS: seq<string> := ["SESSION_PASSWORD_NEEDED", "AUTH_KEY", "401"]

  /** The error mentions SESSION_PASSWORD_NEEDED, AUTH_KEY or 401 anywhere in its text. */
  function IsSessionInvalid(message: string): (b: bool)
    ensures b <==> exists k :: 0 <= k < |SESSION_MARKERS| && Includes(message, SESSION_MARKERS[k])
  {
    Includes(message, SESSION_MARKERS[0]) || Includes(message, SESSION_MARKERS[1]) || Includes(message, SESSION_MARKERS[2])
  }

  /**
   * What a failed startup connection leaves: the settings, the renderer's
   * `state.client` mark, and whether `telegram:disconnect` is invoked.
   */
  datatype FailureRecovery = FailureRecovery(settings: Settings, client: bool, disconnect: bool)

  /**
   * A failed startup connection clears the stored session when the error
   * marks it dead, and then disconnects the service and drops the client
   * mark if one was set; any other error changes nothing.
   */
  function AfterStartupFailure(s: Settings, message: string, client: bool): (r: FailureRecovery)
    ensures IsSessionInvalid(message) ==> r.settings == s.(session := None) && !r.client && r.disconnect == client
    ensures !IsSessionInvalid(message) ==> r.settings == s && r.client == client && !r.disconnect
  {
    if IsSessionInvalid(message) then FailureRecovery(s.(session := None), false, client)
    else FailureRecovery(s, client, false)
  }

  /**
   * After a dead session is cleared and saved, the next start asks for an
   * interactive login instead of retrying the same session.
   */
  lemma DeadSessionNotRetried(s: Settings, message: string, client: bool)
    requires Truthy(s.apiId) && Truthy(s.apiHash)
    requires IsSessionInvalid(message)
    ensures StartupRoute(Load(Save(AfterStartupFailure(s, message, client).settings))) == AskLogin
  {
    LoadSave(AfterStartupFailure(s, message, client).settings);
  }

  /** Any other failure keeps the session, and the next start tries it again. */
  lemma OtherFailureRetried(s: Settings, message: string, client: bool)
    requires !IsSessionInvalid(message)
    ensures StartupRoute(Load(Save(AfterStartupFailure(s, message, client).settings))) == StartupRoute(s)
  {
    LoadSave(s);
  }

  /**
   * `init` with auto-refresh on but no base recorded: the base is recovered
   * from the profile's display name, which never leaves a " | " in it.
   */
  function RecoverBase(s: Settings, displayName: string): (r: Settings)
    ensures s.autoUpdate && !Truthy(s.originalNickname) ==> r == s.(originalNickname := Some(BaseOf(displayName)))
    ensures !(s.autoUpdate && !Truthy(s.originalNickname)) ==> r == s
    ensures r.originalNickname.Some? && r.originalNickname != s.originalNickname ==> !Includes(r.originalNickname.value, SEPARATOR)
  {
    if s.autoUpdate && !Truthy(s.originalNickname) then s.(originalNickname := Some(BaseOf(displayName))) else s
  }
}
