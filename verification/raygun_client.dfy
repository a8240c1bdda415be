/** RaygunClient: builds crash reports, lets the SendingCrashReport hook adjust or
    cancel them, and sends them, or stores them in the offline folder when there is
    no connection or the send fails. Stored reports are replayed and deleted by
    the next flush. The client also holds the user and version its RUM service
    reports with.

    The HTTP transport, the folder listing order, the serializer, the hook and the
    host's facts are the client's fixed inputs; the connection state, the files
    whose read fails and the clock are the inputs of each call. */
module Client {
  import opened Common
  import opened Users
  import opened Exceptions
  import ErrorInfoBuilder
  import EnvironmentInfoBuilder
  import opened CrashReportBuilder
  import opened OfflineStore
  import RumEvents
  import RumSessions
  import RumService

  // ---------------------------------------------------------------------------
  // Wrapper exceptions

  /** The exception is of one of the wrapper types (compared exactly, not by
      subtype) and has an inner exception. */
  predicate IsWrapper(wrappers: seq<TypeInfo>, e: Exc) {
    e.exceptionType in wrappers && InnerException(e).Some?
  }

  /** StripWrapperExceptions: the exceptions reported for `e`. A wrapper aggregate
      yields the strips of its inner exceptions in order, any other wrapper the
      strip of its inner exception; everything else, null included, itself. */
  function Strip(wrappers: seq<TypeInfo>, e: Option<Exc>): (r: seq<Option<Exc>>)
    ensures |r| >= 1
    ensures e.None? || !IsWrapper(wrappers, e.value) ==> r == [e]
  {
    if e.None? then [e] else StripExc(wrappers, e.value)
  }

  function StripExc(wrappers: seq<TypeInfo>, e: Exc): (r: seq<Option<Exc>>)
    ensures |r| >= 1
    ensures !IsWrapper(wrappers, e) ==> r == [Some(e)]
    decreases e, 1
  {
    if IsWrapper(wrappers, e) then
      match e.causes
      case Aggregate(_) => StripFrom(wrappers, e, 0)
      case Single(inner) => StripExc(wrappers, inner.value)
    else [Some(e)]
  }

  /** The strips of the inner exceptions of an aggregate from index `i` on. */
  function StripFrom(wrappers: seq<TypeInfo>, owner: Exc, i: nat): (r: seq<Option<Exc>>)
    requires owner.causes.Aggregate?
    ensures i < |owner.causes.inners| ==> |r| >= 1
    decreases owner, 0, |owner.causes.inners| - i
  {
    if i < |owner.causes.inners| then
      StripExc(wrappers, owner.causes.inners[i]) + StripFrom(wrappers, owner, i + 1)
    else []
  }

  /** No reported exception is itself a wrapper: stripping any of them again
      yields just that exception. */
  lemma {:induction false} StripYieldsLeaves(wrappers: seq<TypeInfo>, e: Exc)
    ensures forall x :: x in StripExc(wrappers, e) ==> Strip(wrappers, x) == [x]
    decreases e, 1
  {
    if IsWrapper(wrappers, e) {
      match e.causes
      case Aggregate(_) => StripFromYieldsLeaves(wrappers, e, 0);
      case Single(inner) => StripYieldsLeaves(wrappers, inner.value);
    }
  }

  lemma {:induction false} StripFromYieldsLeaves(wrappers: seq<TypeInfo>, owner: Exc, i: nat)
    requires owner.causes.Aggregate?
    ensures forall x :: x in StripFrom(wrappers, owner, i) ==> Strip(wrappers, x) == [x]
    decreases owner, 0, |owner.causes.inners| - i
  {
    if i < |owner.causes.inners| {
      StripYieldsLeaves(wrappers, owner.causes.inners[i]);
      StripFromYieldsLeaves(wrappers, owner, i + 1);
    }
  }

  /** A wrapper aggregate yields the concatenated strips of its inner exceptions;
      a wrapper with a single cause yields the strip of that cause. */
  lemma StripWrapper(wrappers: seq<TypeInfo>, e: Exc)
    requires IsWrapper(wrappers, e)
    ensures e.causes.Aggregate? ==>
      Strip(wrappers, Some(e)) == StripFrom(wrappers, e, 0) &&
      Strip(wrappers, Some(e)) == Strip(wrappers, Some(e.causes.inners[0])) + StripFrom(wrappers, e, 1)
    ensures e.causes.Single? ==> Strip(wrappers, Some(e)) == Strip(wrappers, e.causes.inner)
  {
  }

  // ---------------------------------------------------------------------------
  // Inputs and state

  /** What the client reads from the host: process memory for native images, the
      platform lookups, the device's friendly name, the package and assembly
      versions and the default anonymous user. */
  datatype Host = Host(
    mem: ErrorInfoBuilder.Memory,
    platform: EnvironmentInfoBuilder.Platform,
    machineName: Option<string>,
    packageVersion: Option<string>,
    assemblyVersion: string,
    defaultUser: RaygunUserInfo?)

  /** What the SendingCrashReport handler does with the event arguments: the report
      as it leaves it, whether it set Cancel, and the exception it raised, if any. */
  datatype HookOutcome = HookOutcome(report: CrashReport, cancel: bool, raised: Option<Exc>)

  /** The inputs of one call: whether the internet is available, the stored files
      whose read raises, and DateTime.UtcNow. */
  datatype Env = Env(online: bool, unreadable: set<int>, now: int)

  /** Everything a send reads and does not change. */
  datatype Context = Context(
    apiKey: Option<string>,
    wrappers: seq<TypeInfo>,
    transport: nat -> bool,
    listing: Folder -> seq<int>,
    serialize: CrashReport -> string,
    hook: Option<(Option<Exc>, CrashReport) -> HookOutcome>,
    host: Host,
    user: RaygunUserInfo?,
    applicationVersion: Option<string>,
    env: Env)

  /** What a send changes: the offline folder, the payloads posted so far (the k-th
      post succeeds iff transport(k)), and the recursion guard of the hook. */
  datatype Store = Store(folder: Folder, posts: seq<string>, handling: bool)

  /** The folder lists each stored file exactly once. */
  ghost predicate ListingValid(c: Context) {
    forall f :: IsListing(c.listing(f), f)
  }

  /** The log `b` continues the log `a`. */
  predicate Extends(a: seq<string>, b: seq<string>) {
    |a| <= |b| && b[..|a|] == a
  }

  lemma ExtendsTrans(a: seq<string>, b: seq<string>, d: seq<string>)
    requires Extends(a, b) && Extends(b, d)
    ensures Extends(a, d)
  {
    assert d[..|a|] == d[..|b|][..|a|];
  }

  /** A step that keeps the guard, only appends posts and keeps the ring shape. */
  ghost predicate Steps(s: Store, r: Store) {
    r.handling == s.handling && Extends(s.posts, r.posts) &&
    (RingShape(s.folder.Keys) ==> RingShape(r.folder.Keys))
  }

  // ---------------------------------------------------------------------------
  // The crash report

  /** BuildCrashReport: the builder chain over the given exception. */
  function CrashReportFor(c: Context, e: Option<Exc>, tags: Option<seq<string>>, data: Option<Data>): (r: CrashReport)
    ensures r.occurredOn == c.env.now
    ensures r.details.version ==
      (if IsNullOrWhiteSpace(c.applicationVersion) then c.host.packageVersion else c.applicationVersion)
    ensures r.details.user == (if c.user != null then c.user else c.host.defaultUser)
    ensures r.details.error == (if e.Some? then Some(ErrorInfoBuilder.ErrorReportOf(c.host.mem, e.value)) else None)
    ensures r.details.environment == Some(EnvironmentInfoBuilder.EnvironmentOf(c.host.platform))
    ensures r.details.client == Some(NewClientInfo(c.host.assemblyVersion))
    ensures r.details.machineName == c.host.machineName
    ensures r.details.tags == tags && r.details.userCustomData == data
    ensures r.details.groupingKey.None? && r.details.breadcrumbs.None?
  {
    var version := if IsNullOrWhiteSpace(c.applicationVersion) then c.host.packageVersion else c.applicationVersion;
    var user := if c.user != null then c.user else c.host.defaultUser;
    var error := if e.Some? then Some(ErrorInfoBuilder.ErrorReportOf(c.host.mem, e.value)) else None;
    CrashReport(c.env.now, EmptyDetails.(
      environment := Some(EnvironmentInfoBuilder.EnvironmentOf(c.host.platform)),
      machineName := c.host.machineName,
      error := error,
      client := Some(NewClientInfo(c.host.assemblyVersion)),
      version := version,
      tags := tags,
      userCustomData := data,
      user := user))
  }

  // ---------------------------------------------------------------------------
  // Sending, saving and flushing

  /** HttpService.SendRequestAsync with the crash-reporting endpoint. */
  function Post(c: Context, s: Store, payload: string): (Store, bool) {
    (s.(posts := s.posts + [payload]), c.transport(|s.posts|))
  }

  /** SendCrashReportAsync: a failed post saves the payload when `saveOnFail`. */
  function SendCrashReportOf(c: Context, s: Store, payload: string, saveOnFail: bool): (r: Store)
    ensures Steps(s, r)
    ensures r.posts == s.posts + [payload]
    ensures r.folder == (if saveOnFail && !c.transport(|s.posts|) then Saved(s.folder, payload) else s.folder)
  {
    var (posted, ok) := Post(c, s, payload);
    if !ok && saveOnFail then
      SavedKeepsShape(s.folder, payload);
      posted.(folder := Saved(posted.folder, payload))
    else posted
  }

  /** SendStoredCrashReportsAsync: offline, nothing; online, every listed file is
      read and resent without saving on failure, then deleted, whatever happened,
      and the folder is deleted. */
  function FlushOf(c: Context, s: Store): (r: Store)
    requires ListingValid(c)
    ensures Steps(s, r)
    ensures !c.env.online ==> r == s
    ensures c.env.online ==>
      r.folder == map[] && r.posts == s.posts + Replayed(s.folder, c.listing(s.folder), c.env.unreadable)
  {
    if !c.env.online then s
    else
      var order := c.listing(s.folder);
      assert IsListing(order, s.folder);
      EmptyIsRing(map[]);
      s.(posts := s.posts + Replayed(s.folder, order, c.env.unreadable), folder := map[])
  }

  /** The recursion guard's position in the termination order. */
  function Level(s: Store): nat {
    if s.handling then 0 else 1
  }

  /** SendOrSaveCrashReportAsync */
  function SendOrSaveOf(c: Context, s: Store, original: Option<Exc>, report: CrashReport): (r: Store)
    requires ListingValid(c)
    ensures Steps(s, r)
    decreases Level(s), 2
  {
    if IsNullOrEmpty(c.apiKey) then s
    else
      var (s1, canSend, report1) := OnSendingOf(c, s, original, report);
      if !canSend then s1
      else
        var payload := c.serialize(report1);
        if c.env.online then
          var s2 := SendCrashReportOf(c, s1, payload, true);
          var r := FlushOf(c, s2);
          ExtendsTrans(s.posts, s1.posts, s2.posts);
          ExtendsTrans(s.posts, s2.posts, r.posts);
          r
        else
          SavedKeepsShape(s1.folder, payload);
          s1.(folder := Saved(s1.folder, payload))
  }

  /** OnSendingCrashReport: whether the report may be sent, and the report as the
      hook left it. The hook runs only outside a recursive send; an exception it
      raises is itself sent with the guard set, and the guard is cleared again. */
  function OnSendingOf(c: Context, s: Store, original: Option<Exc>, report: CrashReport): (r: (Store, bool, CrashReport))
    requires ListingValid(c)
    ensures Steps(s, r.0)
    ensures s.handling || c.hook.None? ==> r == (s, true, report)
    decreases Level(s), 1
  {
    if s.handling || c.hook.None? then (s, true, report)
    else
      var outcome := c.hook.value(original, report);
      if outcome.raised.Some? then
        var sent := StripAndSendOf(c, s.(handling := true), outcome.raised, None, None);
        (sent.(handling := false), !outcome.cancel, outcome.report)
      else (s, !outcome.cancel, outcome.report)
  }

  /** StripAndSend: one report per stripped exception, all stamped with the same
      time. */
  function StripAndSendOf(c: Context, s: Store, e: Option<Exc>, tags: Option<seq<string>>, data: Option<Data>): (r: Store)
    requires ListingValid(c)
    ensures Steps(s, r)
    decreases Level(s), 4
  {
    SendEachOf(c, s, Strip(c.wrappers, e), tags, data)
  }

  /** The sends for a list of stripped exceptions, in order. */
  function SendEachOf(c: Context, s: Store, es: seq<Option<Exc>>, tags: Option<seq<string>>, data: Option<Data>): (r: Store)
    requires ListingValid(c)
    ensures Steps(s, r)
    decreases Level(s), 3, |es|
  {
    if es == [] then s
    else
      var before := SendEachOf(c, s, es[..|es| - 1], tags, data);
      var e := es[|es| - 1];
      var r := SendOrSaveOf(c, before, e, CrashReportFor(c, e, tags, data));
      ExtendsTrans(s.posts, before.posts, r.posts);
      r
  }

  // ---------------------------------------------------------------------------
  // Properties of a send

  /** Without an API key nothing is sent or saved. */
  lemma NoApiKeyNoSend(c: Context, s: Store, original: Option<Exc>, report: CrashReport)
    requires ListingValid(c) && IsNullOrEmpty(c.apiKey)
    ensures SendOrSaveOf(c, s, original, report) == s
  {
  }

  /** A hook that cancels (without raising) stops the report: nothing is sent or
      saved. */
  lemma CancelNoSend(c: Context, s: Store, original: Option<Exc>, report: CrashReport)
    requires ListingValid(c) && !s.handling && c.hook.Some?
    requires c.hook.value(original, report).cancel && c.hook.value(original, report).raised.None?
    ensures SendOrSaveOf(c, s, original, report) == s
  {
  }

  /** Offline, a report the hook lets through (as it adjusted it) is saved in the
      next slot and never posted; one it cancels is dropped. Whatever the hook sent
      of its own stays as it left it. */
  /** The payloads of the crash reports for each of `es`, in order. */
  function PayloadsOf(c: Context, es: seq<Option<Exc>>, tags: Option<seq<string>>, data: Option<Data>): (r: seq<string>)
    ensures |r| == |es|
    ensures forall i :: 0 <= i < |es| ==> r[i] == c.serialize(CrashReportFor(c, es[i], tags, data))
  {
    seq(|es|, i requires 0 <= i < |es| => c.serialize(CrashReportFor(c, es[i], tags, data)))
  }

  /** Offline and with no SendingCrashReport handler, sending each exception saves
      the crash report of each, in order, and posts nothing. */
  lemma {:induction false} SendEachSavesInOrder(c: Context, s: Store, es: seq<Option<Exc>>, tags: Option<seq<string>>, data: Option<Data>)
    requires ListingValid(c) && !IsNullOrEmpty(c.apiKey) && !c.env.online && c.hook.None?
    ensures SendEachOf(c, s, es, tags, data) == s.(folder := SavedAll(s.folder, PayloadsOf(c, es, tags, data)))
    decreases |es|
  {
    if es != [] {
      var init, e := es[..|es| - 1], es[|es| - 1];
      SendEachSavesInOrder(c, s, init, tags, data);
      var before := SendEachOf(c, s, init, tags, data);
      SendEachLast(c, s, es, tags, data);
      SendOneSaves(c, before, e, tags, data);
      PayloadsOfLast(c, es, tags, data);
      SavedAllSnoc(s.folder, PayloadsOf(c, init, tags, data), c.serialize(CrashReportFor(c, e, tags, data)));
    }
  }

  lemma PayloadsOfLast(c: Context, es: seq<Option<Exc>>, tags: Option<seq<string>>, data: Option<Data>)
    requires es != []
    ensures PayloadsOf(c, es, tags, data) ==
      PayloadsOf(c, es[..|es| - 1], tags, data) + [c.serialize(CrashReportFor(c, es[|es| - 1], tags, data))]
  {
    var init := es[..|es| - 1];
    assert forall i :: 0 <= i < |init| ==> init[i] == es[i];
  }

  /** Sending a non-empty run is sending all but the last, then the last. */
  lemma SendEachLast(c: Context, s: Store, es: seq<Option<Exc>>, tags: Option<seq<string>>, data: Option<Data>)
    requires ListingValid(c) && es != []
    ensures SendEachOf(c, s, es, tags, data) ==
      SendOrSaveOf(c, SendEachOf(c, s, es[..|es| - 1], tags, data), es[|es| - 1], CrashReportFor(c, es[|es| - 1], tags, data))
  {
  }

  /** Offline and with no hook, one exception's report is saved as built. */
  lemma SendOneSaves(c: Context, s: Store, e: Option<Exc>, tags: Option<seq<string>>, data: Option<Data>)
    requires ListingValid(c) && !IsNullOrEmpty(c.apiKey) && !c.env.online && c.hook.None?
    ensures SendOrSaveOf(c, s, e, CrashReportFor(c, e, tags, data)) ==
      s.(folder := Saved(s.folder, c.serialize(CrashReportFor(c, e, tags, data))))
  {
    OfflineSaves(c, s, e, CrashReportFor(c, e, tags, data));
  }

  /** Offline and with no SendingCrashReport handler, Send saves the crash report of
      each exception that stripping the wrappers leaves, in order. */
  lemma StripAndSendSavesInOrder(c: Context, s: Store, e: Option<Exc>, tags: Option<seq<string>>, data: Option<Data>)
    requires ListingValid(c) && !IsNullOrEmpty(c.apiKey) && !c.env.online && c.hook.None?
    ensures StripAndSendOf(c, s, e, tags, data) ==
      s.(folder := SavedAll(s.folder, PayloadsOf(c, Strip(c.wrappers, e), tags, data)))
  {
    SendEachSavesInOrder(c, s, Strip(c.wrappers, e), tags, data);
  }

  /** With a null or empty API key, sending each exception changes nothing. */
  lemma {:induction false} SendEachWithoutKey(c: Context, s: Store, es: seq<Option<Exc>>, tags: Option<seq<string>>, data: Option<Data>)
    requires ListingValid(c) && IsNullOrEmpty(c.apiKey)
    ensures SendEachOf(c, s, es, tags, data) == s
    decreases |es|
  {
    if es != [] {
      SendEachWithoutKey(c, s, es[..|es| - 1], tags, data);
    }
  }

  lemma OfflineSaves(c: Context, s: Store, original: Option<Exc>, report: CrashReport)
    requires ListingValid(c) && !IsNullOrEmpty(c.apiKey) && !c.env.online
    ensures var (s1, go, rep) := OnSendingOf(c, s, original, report);
      SendOrSaveOf(c, s, original, report) == if go then s1.(folder := Saved(s1.folder, c.serialize(rep))) else s1
  {
  }

  /** Online, a report the hook lets through is posted first; a failed post saves
      it, and the flush that follows at once resends every stored report, the new
      one included, and empties the folder whatever the outcome. So online, nothing
      stays stored. */
  lemma OnlineSendsThenFlushes(c: Context, s: Store, original: Option<Exc>, report: CrashReport)
    requires ListingValid(c) && !IsNullOrEmpty(c.apiKey) && c.env.online
    ensures var (s1, go, rep) := OnSendingOf(c, s, original, report);
      var payload := c.serialize(rep);
      var kept := if c.transport(|s1.posts|) then s1.folder else Saved(s1.folder, payload);
      var r := SendOrSaveOf(c, s, original, report);
      (go ==> r.folder == map[] &&
              r.posts == s1.posts + [payload] + Replayed(kept, c.listing(kept), c.env.unreadable)) &&
      (!go ==> r == s1)
  {
  }

  /** A payload whose post fails while online is posted again by the flush right
      after it (when its file reads back). */
  lemma FailedPostIsRetriedAtOnce(c: Context, s: Store, original: Option<Exc>, report: CrashReport)
    requires ListingValid(c) && !IsNullOrEmpty(c.apiKey) && c.env.online
    ensures var (s1, go, rep) := OnSendingOf(c, s, original, report);
      var r := SendOrSaveOf(c, s, original, report);
      go && !c.transport(|s1.posts|) && FreeSlot(s1.folder) !in c.env.unreadable ==>
        |r.posts| > |s1.posts| && r.posts[|s1.posts|] == c.serialize(rep) &&
        c.serialize(rep) in r.posts[|s1.posts| + 1..]
  {
    OnlineSendsThenFlushes(c, s, original, report);
    var (s1, go, rep) := OnSendingOf(c, s, original, report);
    if go && !c.transport(|s1.posts|) && FreeSlot(s1.folder) !in c.env.unreadable {
      var payload := c.serialize(rep);
      var kept := Saved(s1.folder, payload);
      var order := c.listing(kept);
      assert IsListing(order, kept);
      var i :| 0 <= i < |order| && order[i] == FreeSlot(s1.folder);
      ReplayedContains(kept, order, c.env.unreadable, i);
      var replayed := Replayed(kept, order, c.env.unreadable);
      var r := SendOrSaveOf(c, s, original, report);
      assert r.posts[|s1.posts| + 1..] == replayed;
    }
  }

  /** Every readable listed file is among the replayed payloads. */
  lemma {:induction false} ReplayedContains(folder: Folder, order: seq<int>, unreadable: set<int>, i: nat)
    requires forall k :: 0 <= k < |order| ==> order[k] in folder
    requires i < |order| && order[i] !in unreadable
    ensures folder[order[i]] in Replayed(folder, order, unreadable)
  {
    if i < |order| - 1 {
      ReplayedContains(folder, order[..|order| - 1], unreadable, i);
    }
  }

  /** The hook runs outside a recursive send only; whatever it does, the guard is
      clear again afterwards, and an exception it raises is sent as a report of
      its own, past the hook. */
  lemma HookRaisesIsSent(c: Context, s: Store, original: Option<Exc>, report: CrashReport)
    requires ListingValid(c) && !s.handling && c.hook.Some?
    requires c.hook.value(original, report).raised.Some?
    ensures var outcome := c.hook.value(original, report);
      var r := OnSendingOf(c, s, original, report);
      !r.0.handling && r.1 == !outcome.cancel && r.2 == outcome.report &&
      r.0 == StripAndSendOf(c, s.(handling := true), outcome.raised, None, None).(handling := false)
  {
  }

  /** Starting from a folder of ring shape (an empty one, say), a send of any kind
      keeps at most ten stored files, numbered within 1..11. */
  lemma SendKeepsRing(c: Context, s: Store, e: Option<Exc>, tags: Option<seq<string>>, data: Option<Data>)
    requires ListingValid(c) && RingShape(s.folder.Keys)
    ensures var r := StripAndSendOf(c, s, e, tags, data);
      RingShape(r.folder.Keys) && |r.folder.Keys| <= 10 &&
      forall k :: k in r.folder ==> 1 <= k <= WrapSlot
  {
    RingBounded(StripAndSendOf(c, s, e, tags, data).folder.Keys);
  }

  // ---------------------------------------------------------------------------
  // The client object

  /** The static RaygunClient.Current. */
  class Registry {
    var current: RaygunClient?

    constructor ()
      ensures current == null
    {
      current := null;
    }

    /** Initialize: the first call creates the client, later calls return it. */
    method Initialize(apiKey: Option<string>, wrappers: seq<TypeInfo>, transport: nat -> bool,
                      listing: Folder -> seq<int>, serialize: CrashReport -> string, host: Host,
                      rum: RumSessions.Host, hasApplication: bool, folder: Folder)
      returns (client: RaygunClient)
      requires forall f :: IsListing(listing(f), f)
      modifies this
      ensures old(current) != null ==> client == old(current) && current == old(current)
      ensures old(current) == null ==> fresh(client) && current == client && client.apiKey == apiKey
    {
      if current == null {
        current := new RaygunClient(apiKey, wrappers, transport, listing, serialize, host, rum, hasApplication, folder);
      }
      client := current;
    }
  }

  class RaygunClient {
    /** RaygunSettings.ApiKey */
    const apiKey: Option<string>
    /** The wrapper exception types to strip. */
    const wrappers: seq<TypeInfo>
    /** Whether the k-th crash-report HTTP request returns normally. */
    const transport: nat -> bool
    /** GetFilesAsync: the order in which the folder lists its files. */
    const listing: Folder -> seq<int>
    /** JsonConvert.SerializeObject for crash reports. */
    const serialize: CrashReport -> string
    const host: Host
    /** Whether Application.Current exists. */
    const hasApplication: bool
    const rumService: RumService.RUMService

    /** The SendingCrashReport event's handler, if one is attached. */
    var sendingCrashReport: Option<(Option<Exc>, CrashReport) -> HookOutcome>
    var handlingRecursiveErrorSending: bool
    var applicationVersion: Option<string>
    var userInfo: RaygunUserInfo?
    /** Whether the UnhandledException handler is attached. */
    var crashReportingEnabled: bool
    /** The offline folder. */
    var folder: Folder
    /** The crash-report payloads posted, in order. */
    var posts: seq<string>

    constructor (apiKey: Option<string>, wrappers: seq<TypeInfo>, transport: nat -> bool,
                 listing: Folder -> seq<int>, serialize: CrashReport -> string, host: Host,
                 rum: RumSessions.Host, hasApplication: bool, folder: Folder)
      requires forall f :: IsListing(listing(f), f)
      ensures this.apiKey == apiKey && this.wrappers == wrappers && this.transport == transport
      ensures this.listing == listing && this.serialize == serialize && this.host == host
      ensures this.hasApplication == hasApplication && this.folder == folder && posts == []
      ensures sendingCrashReport.None? && !handlingRecursiveErrorSending && !crashReportingEnabled
      ensures applicationVersion.None? && userInfo == null
      ensures fresh(rumService) && rumService.apiKey == apiKey && rumService.State() == RumSessions.Session(None, 0, [])
      ensures Valid()
    {
      this.apiKey := apiKey;
      this.wrappers := wrappers;
      this.transport := transport;
      this.listing := listing;
      this.serialize := serialize;
      this.host := host;
      this.hasApplication := hasApplication;
      rumService := new RumService.RUMService(apiKey, transport, rum, hasApplication);
      sendingCrashReport := None;
      handlingRecursiveErrorSending := false;
      applicationVersion := None;
      userInfo := null;
      crashReportingEnabled := false;
      this.folder := folder;
      posts := [];
    }

    ghost predicate Valid()
      reads this
    {
      forall f :: IsListing(listing(f), f)
    }

    function Ctx(env: Env): (c: Context)
      reads this
      ensures Valid() ==> ListingValid(c)
    {
      Context(apiKey, wrappers, transport, listing, serialize, sendingCrashReport, host, userInfo, applicationVersion, env)
    }

    function Stored(): Store
      reads this
    {
      Store(folder, posts, handlingRecursiveErrorSending)
    }

    /** The fields a send does not change. */
    twostate predicate SettingsUnchanged()
      reads this
    {
      sendingCrashReport == old(sendingCrashReport) && applicationVersion == old(applicationVersion) &&
      userInfo == old(userInfo) && crashReportingEnabled == old(crashReportingEnabled)
    }

    // -------------------------------------------------------------------------
    // Settings

    /** The UserIdentifier getter. */
    function UserIdentifier(): (id: Option<string>)
      reads this, userInfo
      ensures userInfo == null ==> id.None?
      ensures userInfo != null ==> id == userInfo.identifier
    {
      if userInfo == null then None else userInfo.identifier
    }

    /** The UserIdentifier setter: null or white space clears the user, anything
        else becomes a new named user. */
    method SetUserIdentifier(value: Option<string>, now: int)
      modifies this, rumService
      ensures IsNullOrWhiteSpace(value) ==> userInfo == null && UserIdentifier().None?
      ensures !IsNullOrWhiteSpace(value) ==>
        userInfo != null && fresh(userInfo) && !userInfo.isAnonymous && UserIdentifier() == value
      ensures rumService.userInfo == userInfo
      ensures Stored() == old(Stored()) && applicationVersion == old(applicationVersion)
      ensures sendingCrashReport == old(sendingCrashReport) && crashReportingEnabled == old(crashReportingEnabled)
      ensures rumService.isEnabled == old(rumService.isEnabled)
      ensures rumService.handlersAttached == old(rumService.handlersAttached)
      ensures rumService.applicationVersion == old(rumService.applicationVersion)
      // the RUM session ends when monitoring is on and a different, previous user was set
      ensures old(rumService.userInfo) == userInfo || !old(rumService.isEnabled) || old(rumService.userInfo) == null ==>
        rumService.State() == old(rumService.State())
      ensures old(rumService.userInfo) != userInfo && old(rumService.isEnabled) && old(rumService.userInfo) != null ==>
        rumService.State() == RumSessions.End(old(rumService.Ctx(now)).(user := userInfo), old(rumService.State())).session
    {
      var user: RaygunUserInfo? := null;
      if !IsNullOrWhiteSpace(value) {
        user := new RaygunUserInfo(value);
      }
      SetUserInfo(user, now);
    }

    /** The UserInfo setter: stored here and passed on to the RUM service. */
    method SetUserInfo(value: RaygunUserInfo?, now: int)
      modifies this, rumService
      ensures userInfo == value && rumService.userInfo == value
      ensures Stored() == old(Stored()) && applicationVersion == old(applicationVersion)
      ensures sendingCrashReport == old(sendingCrashReport) && crashReportingEnabled == old(crashReportingEnabled)
      ensures rumService.isEnabled == old(rumService.isEnabled)
      ensures rumService.handlersAttached == old(rumService.handlersAttached)
      ensures rumService.applicationVersion == old(rumService.applicationVersion)
      // the RUM session ends when monitoring is on and a different, previous user was set
      ensures old(rumService.userInfo) == value || !old(rumService.isEnabled) || old(rumService.userInfo) == null ==>
        rumService.State() == old(rumService.State())
      ensures old(rumService.userInfo) != value && old(rumService.isEnabled) && old(rumService.userInfo) != null ==>
        rumService.State() == RumSessions.End(old(rumService.Ctx(now)).(user := value), old(rumService.State())).session
    {
      userInfo := value;
      rumService.SetUserInfo(userInfo, now);
    }

    /** The ApplicationVersion setter: stored here and passed on to the RUM service. */
    method SetApplicationVersion(value: Option<string>)
      modifies this, rumService
      ensures applicationVersion == value && rumService.applicationVersion == value
      ensures Stored() == old(Stored()) && userInfo == old(userInfo)
      ensures sendingCrashReport == old(sendingCrashReport) && crashReportingEnabled == old(crashReportingEnabled)
      ensures rumService.State() == old(rumService.State()) && rumService.userInfo == old(rumService.userInfo)
      ensures rumService.isEnabled == old(rumService.isEnabled)
      ensures rumService.handlersAttached == old(rumService.handlersAttached)
    {
      applicationVersion := value;
      rumService.SetApplicationVersion(value);
    }

    /** Attaches or detaches the SendingCrashReport handler. */
    method SetSendingCrashReport(handler: Option<(Option<Exc>, CrashReport) -> HookOutcome>)
      modifies this
      ensures sendingCrashReport == handler
      ensures Stored() == old(Stored()) && userInfo == old(userInfo) && applicationVersion == old(applicationVersion)
      ensures crashReportingEnabled == old(crashReportingEnabled)
    {
      sendingCrashReport := handler;
    }

    /** ValidateApiKey */
    method ValidateApiKey() returns (valid: bool)
      ensures valid == !IsNullOrEmpty(apiKey)
    {
      valid := !IsNullOrEmpty(apiKey);
    }

    // -------------------------------------------------------------------------
    // The offline folder

    /** SaveCrashReportAsync */
    method SaveCrashReport(payload: string)
      modifies this`folder
      ensures folder == Saved(old(folder), payload)
    {
      var number := 1;
      while true
        invariant number >= 1 && folder == old(folder)
        invariant forall k :: 1 <= k < number ==> k in folder
        decreases |Above(folder, number)|
      {
        var found := number in folder;
        if !found {
          // the next file, if there is one, is deleted
          folder := folder - {number + 1};
          break;
        }
        assert Above(folder, number + 1) == Above(folder, number) - {number};
        number := number + 1;
      }
      FreeSlotIs(old(folder), number);
      if number == WrapSlot {
        folder := folder - {1};
      }
      folder := folder[number := payload];
    }

    /** SendCrashReportAsync */
    method SendCrashReport(payload: string, saveOnFail: bool)
      modifies this`posts, this`folder
      ensures posts == old(posts) + [payload]
      ensures !saveOnFail || transport(|old(posts)|) ==> folder == old(folder)
      ensures saveOnFail && !transport(|old(posts)|) ==> folder == Saved(old(folder), payload)
    {
      var ok := transport(|posts|);
      posts := posts + [payload];
      if !ok && saveOnFail {
        SaveCrashReport(payload);
      }
    }

    /** SendStoredCrashReportsAsync */
    method SendStoredCrashReports(env: Env)
      requires Valid()
      modifies this
      ensures Stored() == FlushOf(old(Ctx(env)), old(Stored()))
      ensures SettingsUnchanged()
    {
      if !env.online {
        return;
      }
      var files := listing(folder);
      assert IsListing(files, folder);
      ReplayFiles(files, env.unreadable);
      folder := map[];
    }

    /** The loop of SendStoredCrashReportsAsync: each file is read and resent
        (unless its read raises), then deleted. */
    method ReplayFiles(files: seq<int>, unreadable: set<int>)
      requires forall i :: 0 <= i < |files| ==> files[i] in folder
      requires forall i, j :: 0 <= i < j < |files| ==> files[i] != files[j]
      modifies this`posts, this`folder
      ensures posts == old(posts) + Replayed(old(folder), files, unreadable)
      ensures folder == Deleted(old(folder), files)
    {
      ghost var posts0, folder0 := posts, folder;
      assert files[..0] == [];
      for i := 0 to |files|
        invariant posts == posts0 + Replayed(folder0, files[..i], unreadable)
        invariant folder == Deleted(folder0, files[..i])
      {
        ReplayNext(files, i, unreadable, posts0, folder0);
      }
      assert files[..|files|] == files;
    }

    /** The flush after file `i` of the listing: the first `i + 1` files resent and
        deleted. */
    method ReplayNext(files: seq<int>, i: nat, unreadable: set<int>, ghost posts0: seq<string>, ghost folder0: Folder)
      requires i < |files|
      requires forall k :: 0 <= k < |files| ==> files[k] in folder0
      requires forall k, j :: 0 <= k < j < |files| ==> files[k] != files[j]
      requires posts == posts0 + Replayed(folder0, files[..i], unreadable)
      requires folder == Deleted(folder0, files[..i])
      modifies this`posts, this`folder
      ensures posts == posts0 + Replayed(folder0, files[..i + 1], unreadable)
      ensures folder == Deleted(folder0, files[..i + 1])
    {
      ghost var before := (posts, folder);
      ReplayedStep(folder0, files, i, unreadable);
      ReplayFile(files[i], unreadable);
      ReplayedAfterStep(folder0, files, i, unreadable, posts0, before.0, posts, before.1, folder);
    }

    /** One file of the flush: resent unless its read raises, then deleted. */
    method ReplayFile(file: int, unreadable: set<int>)
      requires file in folder
      modifies this`posts, this`folder
      ensures posts == old(posts) + (if file in unreadable then [] else [old(folder)[file]])
      ensures folder == old(folder) - {file}
    {
      if file !in unreadable {
        var text := folder[file];
        SendCrashReport(text, false);
      }
      folder := folder - {file};
    }

    // -------------------------------------------------------------------------
    // Sending

    /** BuildCrashReport: the builder chain. */
    method BuildCrashReport(e: Option<Exc>, tags: Option<seq<string>>, data: Option<Data>, env: Env)
      returns (r: CrashReport)
      ensures r == CrashReportFor(Ctx(env), e, tags, data)
    {
      var now := env.now;
      var version := if IsNullOrWhiteSpace(applicationVersion) then host.packageVersion else applicationVersion;
      var user := if userInfo != null then userInfo else host.defaultUser;
      var builder := new CrashReportBuilder(now);
      builder := builder.SetEnvironmentInfo(host.platform);
      builder := builder.SetOccurredOn(now);
      builder := builder.SetMachineName(host.machineName);
      builder := builder.SetErrorInfo(host.mem, e);
      builder := builder.SetClientInfo(host.assemblyVersion);
      builder := builder.SetVersion(version);
      builder := builder.SetTags(tags);
      builder := builder.SetCustomData(data);
      builder := builder.SetUserInfo(user);
      r := builder.Build();
    }

    /** SendOrSaveCrashReportAsync */
    method SendOrSaveCrashReport(original: Option<Exc>, report: CrashReport, env: Env)
      requires Valid()
      modifies this
      ensures Stored() == SendOrSaveOf(old(Ctx(env)), old(Stored()), original, report)
      ensures SettingsUnchanged()
      decreases if handlingRecursiveErrorSending then 0 else 1, 2
    {
      var valid := ValidateApiKey();
      if valid {
        var canSend, adjusted := OnSendingCrashReport(original, report, env);
        if canSend {
          var payload := serialize(adjusted);
          if env.online {
            SendCrashReport(payload, true);
            SendStoredCrashReports(env);
          } else {
            SaveCrashReport(payload);
          }
        }
      }
    }

    /** OnSendingCrashReport */
    method OnSendingCrashReport(original: Option<Exc>, report: CrashReport, env: Env)
      returns (result: bool, adjusted: CrashReport)
      requires Valid()
      modifies this
      ensures (Stored(), result, adjusted) == OnSendingOf(old(Ctx(env)), old(Stored()), original, report)
      ensures SettingsUnchanged()
      decreases if handlingRecursiveErrorSending then 0 else 1, 1
    {
      result := true;
      adjusted := report;
      if !handlingRecursiveErrorSending {
        var handler := sendingCrashReport;
        if handler.Some? {
          var outcome := handler.value(original, report);
          adjusted := outcome.report;
          if outcome.raised.Some? {
            handlingRecursiveErrorSending := true;
            Send(outcome.raised, None, None, env);
            handlingRecursiveErrorSending := false;
          }
          result := !outcome.cancel;
        }
      }
    }

    /** Send(exception) and StripAndSend: every stripped exception is reported with
        the same time stamp. */
    method Send(exception: Option<Exc>, tags: Option<seq<string>>, data: Option<Data>, env: Env)
      requires Valid()
      modifies this
      ensures Stored() == StripAndSendOf(old(Ctx(env)), old(Stored()), exception, tags, data)
      ensures SettingsUnchanged()
      decreases if handlingRecursiveErrorSending then 0 else 1, 4
    {
      var stripped := Strip(wrappers, exception);
      ghost var c, s0 := Ctx(env), Stored();
      assert stripped[..0] == [];
      for i := 0 to |stripped|
        invariant SettingsUnchanged()
        invariant Stored() == SendEachOf(c, s0, stripped[..i], tags, data)
        invariant handlingRecursiveErrorSending == old(handlingRecursiveErrorSending)
      {
        SendStripped(stripped, i, tags, data, env, c, s0);
      }
      assert stripped[..|stripped|] == stripped;
    }

    /** The report for the stripped exception at `i`, sent or saved after the
        earlier ones. */
    method SendStripped(stripped: seq<Option<Exc>>, i: nat, tags: Option<seq<string>>, data: Option<Data>, env: Env,
                        ghost c: Context, ghost s0: Store)
      requires Valid() && c == Ctx(env) && i < |stripped|
      requires Stored() == SendEachOf(c, s0, stripped[..i], tags, data)
      modifies this
      ensures Stored() == SendEachOf(c, s0, stripped[..i + 1], tags, data)
      ensures SettingsUnchanged()
      decreases if handlingRecursiveErrorSending then 0 else 1, 3
    {
      assert stripped[..i + 1][..i] == stripped[..i];
      var e := stripped[i];
      var report := BuildCrashReport(e, tags, data, env);
      SendOrSaveCrashReport(e, report, env);
    }

    /** Send(RaygunCrashReport): a ready report, with no original exception. */
    method SendReport(report: CrashReport, env: Env)
      requires Valid()
      modifies this
      ensures Stored() == SendOrSaveOf(old(Ctx(env)), old(Stored()), None, report)
      ensures SettingsUnchanged()
    {
      SendOrSaveCrashReport(None, report, env);
    }

    // -------------------------------------------------------------------------
    // Enabling

    /** EnableCrashReporting: the unhandled-exception handler is attached once and
        the stored reports are flushed. */
    method EnableCrashReporting(env: Env)
      requires Valid()
      modifies this
      ensures crashReportingEnabled == (hasApplication || old(crashReportingEnabled))
      ensures Stored() == FlushOf(old(Ctx(env)), old(Stored()))
      ensures sendingCrashReport == old(sendingCrashReport)
      ensures userInfo == old(userInfo) && applicationVersion == old(applicationVersion)
    {
      DisableCrashReporting();
      if hasApplication {
        crashReportingEnabled := true;
      }
      SendStoredCrashReports(env);
    }

    method DisableCrashReporting()
      modifies this
      ensures crashReportingEnabled == (old(crashReportingEnabled) && !hasApplication)
      ensures Stored() == old(Stored()) && userInfo == old(userInfo) && applicationVersion == old(applicationVersion)
      ensures sendingCrashReport == old(sendingCrashReport)
    {
      if hasApplication {
        crashReportingEnabled := false;
      }
    }

    /** Application_UnhandledException: the exception is sent, when the handler is
        attached. */
    method UnhandledException(exception: Exc, env: Env)
      requires Valid()
      modifies this
      ensures Stored() == (if old(crashReportingEnabled)
        then StripAndSendOf(old(Ctx(env)), old(Stored()), Some(exception), None, None)
        else old(Stored()))
      ensures SettingsUnchanged()
    {
      if crashReportingEnabled {
        Send(Some(exception), None, None, env);
      }
    }

    method EnableRealUserMonitoring(now: int)
      modifies rumService
      ensures rumService.isEnabled
      ensures rumService.handlersAttached == (rumService.hasApplication || old(rumService.handlersAttached))
      ensures rumService.userInfo == old(rumService.userInfo)
      ensures rumService.applicationVersion == old(rumService.applicationVersion)
      ensures rumService.State() ==
        RumSessions.Start(old(rumService.Ctx(now)), old(rumService.State())).session
    {
      rumService.Enable(now);
    }

    method DisableRealUserMonitoring()
      modifies rumService
      ensures !rumService.isEnabled && rumService.State() == old(rumService.State())
      ensures rumService.handlersAttached == (old(rumService.handlersAttached) && !rumService.hasApplication)
      ensures rumService.userInfo == old(rumService.userInfo)
      ensures rumService.applicationVersion == old(rumService.applicationVersion)
    {
      rumService.Disable();
    }

    // -------------------------------------------------------------------------
    // RUM events sent on the application's behalf

    /** SendSessionStartEventAsync: any open session is ended, then a new one starts. */
    method SendSessionStartEvent(now: int)
      modifies rumService
      ensures rumService.State() == RumSessions.Start(old(rumService.Ctx(now)), old(rumService.State())).session
      ensures rumService.isEnabled == old(rumService.isEnabled) && rumService.userInfo == old(rumService.userInfo)
      ensures rumService.applicationVersion == old(rumService.applicationVersion)
      ensures rumService.handlersAttached == old(rumService.handlersAttached)
    {
      var _ := rumService.SendSessionStartEvent(now);
    }

    /** SendSessionTimingEventAsync: a session is started first when there is none. */
    method SendSessionTimingEvent(t: RumEvents.TimingType, name: Option<string>, milliseconds: int, now: int)
      modifies rumService
      ensures rumService.State() ==
        RumSessions.TimingEvent(old(rumService.Ctx(now)), old(rumService.State()), t, name, milliseconds).session
      ensures rumService.isEnabled == old(rumService.isEnabled) && rumService.userInfo == old(rumService.userInfo)
      ensures rumService.applicationVersion == old(rumService.applicationVersion)
      ensures rumService.handlersAttached == old(rumService.handlersAttached)
    {
      var _ := rumService.SendSessionTimingEvent(t, name, milliseconds, now);
    }

    /** SendSessionEndEventAsync: nothing happens without an open session. */
    method SendSessionEndEvent(now: int)
      modifies rumService
      ensures rumService.State() == RumSessions.End(old(rumService.Ctx(now)), old(rumService.State())).session
      ensures rumService.isEnabled == old(rumService.isEnabled) && rumService.userInfo == old(rumService.userInfo)
      ensures rumService.applicationVersion == old(rumService.applicationVersion)
      ensures rumService.handlersAttached == old(rumService.handlersAttached)
    {
      var _ := rumService.SendSessionEndEvent(now);
    }
  }
}
