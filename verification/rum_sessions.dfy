/** The session state machine shared by RUMService and the older RaygunRUMService,
    as functions on a session state. Start ends the current session first, End
    does nothing without a session, and a timing event starts a session when there
    is none. Every message carries one event and is handed to the transport; a
    transport that raises stops the operation at that point. */
module RumSessions {
  import opened Common
  import opened Users
  import opened RumEvents

  /** What the event fields are read from: EnvironmentService and the default user. */
  datatype Host = Host(
    packageVersion: Option<string>,
    deviceName: Option<string>,
    os: Option<string>,
    osVersion: Option<string>,
    defaultUser: RaygunUserInfo?)

  /** What an operation reads and does not change. `requiresKey` says whether the
      service checks the API key before sending; `transport(k)` is whether the k-th
      HTTP request returns normally (false: it raises); `now` is DateTime.UtcNow. */
  datatype Context = Context(
    requiresKey: bool,
    apiKey: Option<string>,
    transport: nat -> bool,
    user: RaygunUserInfo?,
    applicationVersion: Option<string>,
    host: Host,
    now: int)

  /** The session id, the number of GUIDs drawn so far and the messages posted. */
  datatype Session = Session(sessionId: Option<Guid>, nextGuid: nat, posts: seq<RumMessage>)

  /** The state after an operation, and whether it ran to its end (false: an HTTP
      request raised and the rest of the operation was skipped). */
  datatype Step = Step(session: Session, ok: bool)

  /** Whether messages reach the transport: always for RaygunRUMService, only with a
      non-empty API key for RUMService. */
  predicate Transmits(c: Context) {
    !c.requiresKey || !IsNullOrEmpty(c.apiKey)
  }

  /** BuildSessionEventMessage: one event of the given type and session, for the
      current user (the default user when none is set) and the application version
      (the package version when that is null or white space). */
  function EventMessage(c: Context, t: EventType, sessionId: Option<Guid>): (m: RumMessage)
    ensures |m.eventData| == 1
    ensures m.eventData[0].sessionId == sessionId && m.eventData[0].eventType == t
    ensures m.eventData[0].user == (if c.user != null then c.user else c.host.defaultUser)
    ensures m.eventData[0].version ==
      (if IsNullOrWhiteSpace(c.applicationVersion) then c.host.packageVersion else c.applicationVersion)
    ensures m.eventData[0].data.None?
  {
    var user := if c.user != null then c.user else c.host.defaultUser;
    var version := if IsNullOrWhiteSpace(c.applicationVersion) then c.host.packageVersion else c.applicationVersion;
    RumMessage([RumEvent(sessionId, c.now, t, user, version, c.host.deviceName, c.host.os, c.host.osVersion, None)])
  }

  /** The timing message: the event's Data is a one-element array. */
  function TimingMessage(c: Context, sessionId: Option<Guid>, t: TimingType, name: Option<string>, milliseconds: int): RumMessage {
    var m := EventMessage(c, Timing, sessionId);
    RumMessage([m.eventData[0].(data := Some([TimingData(name, t, milliseconds)]))])
  }

  /** SendRUMMessageAsync */
  function Send(c: Context, s: Session, m: RumMessage): (r: Step)
    ensures r.session.sessionId == s.sessionId && r.session.nextGuid == s.nextGuid
  {
    if Transmits(c) then Step(s.(posts := s.posts + [m]), c.transport(|s.posts|)) else Step(s, true)
  }

  /** SendSessionEndEventAsync */
  function End(c: Context, s: Session): Step {
    if s.sessionId.None? then Step(s, true)
    else Send(c, s.(sessionId := None), EventMessage(c, SessionEnd, s.sessionId))
  }

  /** SendSessionStartEventAsync */
  function Start(c: Context, s: Session): Step {
    var e := End(c, s);
    if !e.ok then e
    else
      var id := e.session.nextGuid;
      Send(c, e.session.(sessionId := Some(id), nextGuid := id + 1), EventMessage(c, SessionStart, Some(id)))
  }

  /** SendSessionTimingEventAsync */
  function TimingEvent(c: Context, s: Session, t: TimingType, name: Option<string>, milliseconds: int): Step {
    var started := if s.sessionId.None? then Start(c, s) else Step(s, true);
    if !started.ok then started
    else Send(c, started.session, TimingMessage(c, started.session.sessionId, t, name, milliseconds))
  }

  // ---------------------------------------------------------------------------
  // Properties

  /** Every posted message holds exactly one event, and every session id in use or
      posted was drawn already. */
  predicate Valid(s: Session) {
    (s.sessionId.Some? ==> s.sessionId.value < s.nextGuid) &&
    forall i :: 0 <= i < |s.posts| ==>
      |s.posts[i].eventData| == 1 &&
      (s.posts[i].eventData[0].sessionId.Some? ==> s.posts[i].eventData[0].sessionId.value < s.nextGuid)
  }

  /** Whether the next `n` HTTP requests return normally. */
  predicate Delivers(c: Context, s: Session, n: nat) {
    forall k :: |s.posts| <= k < |s.posts| + n ==> c.transport(k)
  }

  /** End is a no-op without a session. Otherwise it posts a SessionEnd carrying the
      current id and clears the id; the id is cleared even when the post raises. */
  lemma EndShape(c: Context, s: Session)
    ensures s.sessionId.None? ==> End(c, s) == Step(s, true)
    ensures s.sessionId.Some? ==>
      var r := End(c, s);
      r.session.sessionId.None? && r.session.nextGuid == s.nextGuid &&
      r.session.posts == s.posts + (if Transmits(c) then [EventMessage(c, SessionEnd, s.sessionId)] else []) &&
      r.ok == (!Transmits(c) || c.transport(|s.posts|))
  {
  }

  /** Start ends the previous session first, so a SessionEnd with the old id is
      posted before the SessionStart, which carries a freshly drawn id. */
  lemma StartShape(c: Context, s: Session)
    requires Transmits(c) && Delivers(c, s, 2)
    ensures var r := Start(c, s);
      r.ok && r.session.sessionId == Some(s.nextGuid) && r.session.nextGuid == s.nextGuid + 1 &&
      r.session.posts == s.posts +
        (if s.sessionId.Some? then [EventMessage(c, SessionEnd, s.sessionId)] else []) +
        [EventMessage(c, SessionStart, Some(s.nextGuid))]
  {
    EndShape(c, s);
  }

  /** A Start whose SessionEnd post raises leaves no session behind. */
  lemma StartStopsAtFailedEnd(c: Context, s: Session)
    requires Transmits(c) && s.sessionId.Some? && !c.transport(|s.posts|)
    ensures var r := Start(c, s);
      !r.ok && r.session.sessionId.None? && r.session.nextGuid == s.nextGuid &&
      r.session.posts == s.posts + [EventMessage(c, SessionEnd, s.sessionId)]
  {
    EndShape(c, s);
  }

  /** The new session id differs from every id used before. */
  lemma StartIdIsFresh(c: Context, s: Session)
    requires Valid(s)
    ensures var r := Start(c, s);
      r.ok ==>
        r.session.sessionId == Some(s.nextGuid) &&
        s.sessionId != r.session.sessionId &&
        forall i :: 0 <= i < |s.posts| ==> s.posts[i].eventData[0].sessionId != r.session.sessionId
  {
    EndShape(c, s);
  }

  lemma EndValid(c: Context, s: Session)
    requires Valid(s)
    ensures Valid(End(c, s).session)
  {
    var r := End(c, s);
    forall i | 0 <= i < |r.session.posts|
      ensures |r.session.posts[i].eventData| == 1
    {
      if i >= |s.posts| {
        assert r.session.posts[i] == EventMessage(c, SessionEnd, s.sessionId);
      }
    }
  }

  lemma StartValid(c: Context, s: Session)
    requires Valid(s)
    ensures Valid(Start(c, s).session)
  {
    EndValid(c, s);
    var e := End(c, s);
    if e.ok {
      var id := e.session.nextGuid;
      var m := EventMessage(c, SessionStart, Some(id));
      var r := Start(c, s);
      assert r == Send(c, e.session.(sessionId := Some(id), nextGuid := id + 1), m);
      forall i | 0 <= i < |r.session.posts|
        ensures |r.session.posts[i].eventData| == 1
        ensures r.session.posts[i].eventData[0].sessionId.Some? ==>
          r.session.posts[i].eventData[0].sessionId.value < r.session.nextGuid
      {
        if i >= |e.session.posts| {
          assert r.session.posts[i] == m;
        }
      }
    }
  }

  /** A timing event always carries a session: it starts one when there is none,
      then posts one Timing event whose data is the single {name, type, duration}. */
  lemma TimingShape(c: Context, s: Session, t: TimingType, name: Option<string>, milliseconds: int)
    requires Transmits(c)
    ensures var r := TimingEvent(c, s, t, name, milliseconds);
      r.ok ==>
        r.session.sessionId.Some? &&
        (s.sessionId.Some? ==> r.session.sessionId == s.sessionId && r.session.posts == s.posts + [Last(r.session.posts)]) &&
        (s.sessionId.None? ==> r.session.sessionId == Some(s.nextGuid)) &&
        var last := Last(r.session.posts).eventData;
        |last| == 1 && last[0].eventType == Timing && last[0].sessionId == r.session.sessionId &&
        last[0].data == Some([TimingData(name, t, milliseconds)])
  {
    if s.sessionId.None? {
      EndShape(c, s);
    }
  }

  lemma TimingValid(c: Context, s: Session, t: TimingType, name: Option<string>, milliseconds: int)
    requires Valid(s)
    ensures Valid(TimingEvent(c, s, t, name, milliseconds).session)
  {
    var started := if s.sessionId.None? then Start(c, s) else Step(s, true);
    if s.sessionId.None? {
      StartValid(c, s);
      EndShape(c, s);
    }
    if started.ok {
      var m := TimingMessage(c, started.session.sessionId, t, name, milliseconds);
      var r := TimingEvent(c, s, t, name, milliseconds);
      assert r == Send(c, started.session, m);
      forall i | 0 <= i < |r.session.posts|
        ensures |r.session.posts[i].eventData| == 1
        ensures r.session.posts[i].eventData[0].sessionId.Some? ==>
          r.session.posts[i].eventData[0].sessionId.value < r.session.nextGuid
      {
        if i >= |started.session.posts| {
          assert r.session.posts[i] == m;
        }
      }
    }
  }

  function Last(s: seq<RumMessage>): RumMessage {
    if s == [] then RumMessage([]) else s[|s| - 1]
  }

  /** Two starts in a row give two different session ids, whether or not the
      client transmits. When it does (and its posts get through), the second start
      posts the end of the first session and then its own start. */
  lemma ConsecutiveStarts(c: Context, s: Session)
    ensures var first := Start(c, s);
      var second := Start(c, first.session);
      !Transmits(c) || Delivers(c, s, 4) ==>
        first.ok && second.ok &&
        first.session.sessionId.Some? && second.session.sessionId.Some? &&
        first.session.sessionId != second.session.sessionId &&
        second.session.posts == first.session.posts +
          (if Transmits(c)
           then [EventMessage(c, SessionEnd, first.session.sessionId), EventMessage(c, SessionStart, second.session.sessionId)]
           else [])
  {
    if Transmits(c) && Delivers(c, s, 4) {
      StartShape(c, s);
      var first := Start(c, s);
      assert |first.session.posts| <= |s.posts| + 2;
      assert Delivers(c, first.session, 2);
      StartShape(c, first.session);
    }
  }

  /** Without a usable API key nothing is posted, yet the session id still moves. */
  lemma SilentWithoutKey(c: Context, s: Session, t: TimingType, name: Option<string>, milliseconds: int)
    requires !Transmits(c)
    ensures End(c, s) == Step(s.(sessionId := None), true)
    ensures Start(c, s) == Step(s.(sessionId := Some(s.nextGuid), nextGuid := s.nextGuid + 1), true)
    ensures var r := TimingEvent(c, s, t, name, milliseconds);
      r.ok && r.session.posts == s.posts && r.session.sessionId.Some?
  {
  }
}
