/** The real-user-monitoring payload: event types and timing types with the tags
    they are written with, and the event and message records. */
module RumEvents {
  import opened Common
  import opened Users

  /** RaygunRUMEventType */
  datatype EventType = NoEvent | SessionStart | SessionEnd | Timing

  /** RaygunRUMEventTimingType */
  datatype TimingType = ViewLoaded | NetworkCall

  /** The wire value of an event type: its EnumMember value; the untagged `None`
      member is written by its name. */
  function EventTag(t: EventType): string {
    match t
    case NoEvent => "None"
    case SessionStart => "session_start"
    case SessionEnd => "session_end"
    case Timing => "mobile_event_timing"
  }

  /** The event type a wire value denotes, if any. */
  function EventTypeOfTag(s: string): (r: Option<EventType>)
    ensures r.Some? ==> EventTag(r.value) == s
    ensures r.None? ==> forall t: EventType :: EventTag(t) != s
  {
    if s == "None" then Some(NoEvent)
    else if s == "session_start" then Some(SessionStart)
    else if s == "session_end" then Some(SessionEnd)
    else if s == "mobile_event_timing" then Some(Timing)
    else None
  }

  /** Every event type is read back from its own tag, so no two share one. */
  lemma EventTagRoundTrip(t: EventType)
    ensures EventTypeOfTag(EventTag(t)) == Some(t)
  {
  }

  function TimingTag(t: TimingType): string {
    match t
    case ViewLoaded => "p"
    case NetworkCall => "n"
  }

  function TimingTypeOfTag(s: string): (r: Option<TimingType>)
    ensures r.Some? ==> TimingTag(r.value) == s
    ensures r.None? ==> forall t: TimingType :: TimingTag(t) != s
  {
    if s == "p" then Some(ViewLoaded)
    else if s == "n" then Some(NetworkCall)
    else None
  }

  lemma TimingTagRoundTrip(t: TimingType)
    ensures TimingTypeOfTag(TimingTag(t)) == Some(t)
  {
  }

  /** Guid.NewGuid(). GUIDs are modelled by the order in which they are drawn: the
      k-th GUID of the process is k, so two draws never coincide. */
  type Guid = nat

  /** RaygunRUMTimingData: a name with a timing type and a duration in milliseconds. */
  datatype TimingData = TimingData(name: Option<string>, timingType: TimingType, duration: int)

  /** RaygunRUMEventInfo. `data` is the timing array that the event's Data string
      serializes. */
  datatype RumEvent = RumEvent(
    sessionId: Option<Guid>,
    timestamp: int,
    eventType: EventType,
    user: RaygunUserInfo?,
    version: Option<string>,
    platform: Option<string>,
    os: Option<string>,
    osVersion: Option<string>,
    data: Option<seq<TimingData>>)

  /** RaygunRUMMessage */
  datatype RumMessage = RumMessage(eventData: seq<RumEvent>)
}
