/** RUMService: the session state machine behind RaygunClient's real-user
    monitoring, with an enabled flag and an API-key check before sending. The
    application's Suspending and Resuming events reach it only while its handlers
    are attached. */
module RumService {
  import opened Common
  import opened Users
  import opened RumEvents
  import opened RumSessions

  class RUMService {
    /** RaygunSettings.ApiKey */
    const apiKey: Option<string>
    /** Whether the k-th HTTP request returns normally. */
    const transport: nat -> bool
    const host: Host
    /** Whether Application.Current exists. */
    const hasApplication: bool

    var applicationVersion: Option<string>
    var userInfo: RaygunUserInfo?
    var isEnabled: bool
    /** Whether the Resuming/Suspending handlers are attached. */
    var handlersAttached: bool
    var sessionId: Option<Guid>
    /** The number of GUIDs drawn so far. */
    var nextGuid: nat
    /** The messages handed to the transport, in order. */
    var posts: seq<RumMessage>

    constructor (apiKey: Option<string>, transport: nat -> bool, host: Host, hasApplication: bool)
      ensures this.apiKey == apiKey && this.transport == transport && this.host == host
      ensures this.hasApplication == hasApplication
      ensures applicationVersion.None? && userInfo == null && !isEnabled && !handlersAttached
      ensures State() == Session(None, 0, [])
    {
      this.apiKey := apiKey;
      this.transport := transport;
      this.host := host;
      this.hasApplication := hasApplication;
      applicationVersion := None;
      userInfo := null;
      isEnabled := false;
      handlersAttached := false;
      sessionId := None;
      nextGuid := 0;
      posts := [];
    }

    function State(): Session
      reads this
    {
      Session(sessionId, nextGuid, posts)
    }

    /** The context an operation at time `now` runs in. */
    function Ctx(now: int): Context
      reads this
    {
      Context(true, apiKey, transport, userInfo, applicationVersion, host, now)
    }

    /** The fields only the setters and Enable/Disable change. */
    twostate predicate SettingsUnchanged()
      reads this
    {
      applicationVersion == old(applicationVersion) && userInfo == old(userInfo) &&
      isEnabled == old(isEnabled) && handlersAttached == old(handlersAttached)
    }

    /** ValidateApiKey */
    method ValidateApiKey() returns (valid: bool)
      ensures valid == !IsNullOrEmpty(apiKey)
    {
      valid := !IsNullOrEmpty(apiKey);
    }

    /** SendRUMMessageAsync */
    method SendRUMMessage(m: RumMessage) returns (ok: bool)
      modifies this
      ensures Step(State(), ok) == Send(old(Ctx(0)), old(State()), m)
      ensures SettingsUnchanged()
    {
      var valid := ValidateApiKey();
      ok := true;
      if valid {
        ok := transport(|posts|);
        posts := posts + [m];
      }
    }

    method SendSessionEndEvent(now: int) returns (ok: bool)
      modifies this
      ensures Step(State(), ok) == End(old(Ctx(now)), old(State()))
      ensures SettingsUnchanged()
    {
      ok := true;
      if sessionId.Some? {
        var message := EventMessage(Ctx(now), SessionEnd, sessionId);
        sessionId := None;
        ok := SendRUMMessage(message);
      }
    }

    method SendSessionStartEvent(now: int) returns (ok: bool)
      modifies this
      ensures Step(State(), ok) == Start(old(Ctx(now)), old(State()))
      ensures SettingsUnchanged()
    {
      ok := SendSessionEndEvent(now);
      if !ok {
        return;
      }
      sessionId := Some(nextGuid);
      nextGuid := nextGuid + 1;
      var message := EventMessage(Ctx(now), SessionStart, sessionId);
      ok := SendRUMMessage(message);
    }

    method SendSessionTimingEvent(t: TimingType, name: Option<string>, milliseconds: int, now: int) returns (ok: bool)
      modifies this
      ensures Step(State(), ok) == TimingEvent(old(Ctx(now)), old(State()), t, name, milliseconds)
      ensures SettingsUnchanged()
    {
      ok := true;
      if sessionId.None? {
        ok := SendSessionStartEvent(now);
        if !ok {
          return;
        }
      }
      var message := TimingMessage(Ctx(now), sessionId, t, name, milliseconds);
      ok := SendRUMMessage(message);
    }

    method SetApplicationVersion(version: Option<string>)
      modifies this
      ensures applicationVersion == version
      ensures State() == old(State()) && userInfo == old(userInfo)
      ensures isEnabled == old(isEnabled) && handlersAttached == old(handlersAttached)
    {
      applicationVersion := version;
    }

    /** The UserInfo setter. The same reference changes nothing; another user is
        stored and, when monitoring is enabled and a previous user was set, the
        session is ended. The SessionEnd event is built after the new user is
        stored, so it carries the new user (or the default user). */
    method SetUserInfo(value: RaygunUserInfo?, now: int)
      modifies this
      ensures userInfo == value
      ensures applicationVersion == old(applicationVersion)
      ensures isEnabled == old(isEnabled) && handlersAttached == old(handlersAttached)
      ensures old(userInfo) == value || !old(isEnabled) || old(userInfo) == null ==> State() == old(State())
      ensures old(userInfo) != value && old(isEnabled) && old(userInfo) != null ==>
        State() == End(old(Ctx(now)).(user := value), old(State())).session
    {
      if userInfo != value {
        var previousUser := userInfo;
        userInfo := value;
        if isEnabled && previousUser != null {
          var _ := SendSessionEndEvent(now);
        }
      }
    }

    method Disable()
      modifies this
      ensures !isEnabled
      ensures handlersAttached == (old(handlersAttached) && !hasApplication)
      ensures State() == old(State()) && userInfo == old(userInfo) && applicationVersion == old(applicationVersion)
    {
      if hasApplication {
        handlersAttached := false;
      }
      isEnabled := false;
    }

    /** Enable: the handlers are attached once (detached first), a session is
        started at once, and monitoring is enabled. */
    method Enable(now: int)
      modifies this
      ensures isEnabled && handlersAttached == (hasApplication || old(handlersAttached))
      ensures userInfo == old(userInfo) && applicationVersion == old(applicationVersion)
      ensures State() == Start(old(Ctx(now)), old(State())).session
    {
      Disable();
      if hasApplication {
        handlersAttached := true;
      }
      var _ := SendSessionStartEvent(now);
      isEnabled := true;
    }

    /** The application suspends: the attached handler ends the session. */
    method Suspending(now: int)
      modifies this
      ensures SettingsUnchanged()
      ensures State() == (if handlersAttached then End(old(Ctx(now)), old(State())).session else old(State()))
    {
      if handlersAttached {
        var _ := SendSessionEndEvent(now);
      }
    }

    /** The application resumes: the attached handler starts a new session. */
    method Resuming(now: int)
      modifies this
      ensures SettingsUnchanged()
      ensures State() == (if handlersAttached then Start(old(Ctx(now)), old(State())).session else old(State()))
    {
      if handlersAttached {
        var _ := SendSessionStartEvent(now);
      }
    }
  }
}
