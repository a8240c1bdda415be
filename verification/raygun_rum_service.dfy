/** RaygunRUMService: the older session state machine. It has no enabled flag and
    sends every message without checking the API key; Enable and Disable only
    attach and detach the Suspending/Resuming handlers. */
module LegacyRumService {
  import opened Common
  import opened Users
  import opened RumEvents
  import opened RumSessions

  class RaygunRUMService {
    const apiKey: Option<string>
    /** Whether the k-th HTTP request returns normally. */
    const transport: nat -> bool
    const host: Host
    /** Whether Application.Current exists. */
    const hasApplication: bool

    var applicationVersion: Option<string>
    var userInfo: RaygunUserInfo?
    /** Whether the Resuming/Suspending handlers are attached. */
    var handlersAttached: bool
    var sessionId: Option<Guid>
    var nextGuid: nat
    var posts: seq<RumMessage>

    constructor (apiKey: Option<string>, transport: nat -> bool, host: Host, hasApplication: bool)
      ensures this.apiKey == apiKey && this.transport == transport && this.host == host
      ensures this.hasApplication == hasApplication
      ensures applicationVersion.None? && userInfo == null && !handlersAttached
      ensures State() == Session(None, 0, [])
    {
      this.apiKey := apiKey;
      this.transport := transport;
      this.host := host;
      this.hasApplication := hasApplication;
      applicationVersion := None;
      userInfo := null;
      handlersAttached := false;
      sessionId := None;
      nextGuid := 0;
      posts := [];
    }

    function State(): Session
      reads this
    {
      Session(sessionId, nextGuid, posts)
    }

    /** No API-key check: every message reaches the transport. */
    function Ctx(now: int): (c: Context)
      reads this
      ensures Transmits(c)
    {
      Context(false, apiKey, transport, userInfo, applicationVersion, host, now)
    }

    twostate predicate SettingsUnchanged()
      reads this
    {
      applicationVersion == old(applicationVersion) && userInfo == old(userInfo) &&
      handlersAttached == old(handlersAttached)
    }

    /** SendRUMMessageAsync: no API-key check. */
    method SendRUMMessage(m: RumMessage) returns (ok: bool)
      modifies this
      ensures Step(State(), ok) == Send(old(Ctx(0)), old(State()), m)
      ensures SettingsUnchanged()
    {
      ok := transport(|posts|);
      posts := posts + [m];
    }

    method SendSessionEndEvent(now: int) returns (ok: bool)
      modifies this
      ensures Step(State(), ok) == End(old(Ctx(now)), old(State()))
      ensures SettingsUnchanged()
    {
      ok := true;
      if sessionId.Some? {
        var message := EventMessage(Ctx(now), SessionEnd, sessionId);
        sessionId := None;
        ok := SendRUMMessage(message);
      }
    }

    method SendSessionStartEvent(now: int) returns (ok: bool)
      modifies this
      ensures Step(State(), ok) == Start(old(Ctx(now)), old(State()))
      ensures SettingsUnchanged()
    {
      ok := SendSessionEndEvent(now);
      if !ok {
        return;
      }
      sessionId := Some(nextGuid);
      nextGuid := nextGuid + 1;
      var message := EventMessage(Ctx(now), SessionStart, sessionId);
      ok := SendRUMMessage(message);
    }

    method SendSessionTimingEvent(t: TimingType, name: Option<string>, milliseconds: int, now: int) returns (ok: bool)
      modifies this
      ensures Step(State(), ok) == TimingEvent(old(Ctx(now)), old(State()), t, name, milliseconds)
      ensures SettingsUnchanged()
    {
      ok := true;
      if sessionId.None? {
        ok := SendSessionStartEvent(now);
        if !ok {
          return;
        }
      }
      var message := TimingMessage(Ctx(now), sessionId, t, name, milliseconds);
      ok := SendRUMMessage(message);
    }

    method SetApplicationVersion(version: Option<string>)
      modifies this
      ensures applicationVersion == version
      ensures State() == old(State()) && userInfo == old(userInfo) && handlersAttached == old(handlersAttached)
    {
      applicationVersion := version;
    }

    /** The UserInfo setter: another user ends the session whenever a previous user
        was set; the same reference changes nothing. */
    method SetUserInfo(value: RaygunUserInfo?, now: int)
      modifies this
      ensures userInfo == value
      ensures applicationVersion == old(applicationVersion) && handlersAttached == old(handlersAttached)
      ensures old(userInfo) == value || old(userInfo) == null ==> State() == old(State())
      ensures old(userInfo) != value && old(userInfo) != null ==>
        State() == End(old(Ctx(now)).(user := value), old(State())).session
    {
      if userInfo != value {
        var previousUser := userInfo;
        userInfo := value;
        if previousUser != null {
          var _ := SendSessionEndEvent(now);
        }
      }
    }

    /** Enable: handlers detached, then attached; no session is started. */
    method Enable()
      modifies this
      ensures handlersAttached == (hasApplication || old(handlersAttached))
      ensures State() == old(State()) && userInfo == old(userInfo) && applicationVersion == old(applicationVersion)
    {
      Disable();
      if hasApplication {
        handlersAttached := true;
      }
    }

    /** Disable: handlers detached; no session is ended. */
    method Disable()
      modifies this
      ensures handlersAttached == (old(handlersAttached) && !hasApplication)
      ensures State() == old(State()) && userInfo == old(userInfo) && applicationVersion == old(applicationVersion)
    {
      if hasApplication {
        handlersAttached := false;
      }
    }

    method Suspending(now: int)
      modifies this
      ensures SettingsUnchanged()
      ensures State() == (if handlersAttached then End(old(Ctx(now)), old(State())).session else old(State()))
    {
      if handlersAttached {
        var _ := SendSessionEndEvent(now);
      }
    }

    method Resuming(now: int)
      modifies this
      ensures SettingsUnchanged()
      ensures State() == (if handlersAttached then Start(old(Ctx(now)), old(State())).session else old(State()))
    {
      if handlersAttached {
        var _ := SendSessionStartEvent(now);
      }
    }
  }
}
