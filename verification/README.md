# Raygun4UWP core, modelled in Dafny

This project models the core of Raygun4UWP. Raygun4UWP is the Raygun client library for
Universal Windows Platform applications. The model covers seven areas.

- **Crash-report building.** An exception tree becomes an error-info tree
  (`ErrorInfoBuilder`). Type names are formatted with their generic arguments. The managed
  stack-trace text is split into frames. Native frames are collected, and the PE images
  they point into are read once each for their CodeView debug records (`PeImage`). The
  environment facts (`EnvironmentInfoBuilder`), the client info, the user and the
  version are assembled by the fluent `CrashReportBuilder`.
- **Send, save and flush** (`Client`).
  - `RaygunClient` strips wrapper exceptions and builds one report per remaining
    exception.
  - It runs the `SendingCrashReport` hook under a recursion guard.
  - Online, it posts the report, saves it when the post fails, and then flushes the
    offline folder. Offline, it saves the report.
- **The offline store** (`OfflineStore`). This is a folder of numbered files
  `RaygunCrashReport<n>.txt`.
  - A save takes the lowest free number and deletes the file one number above it.
  - When the free number is 11, the save also deletes file 1.
  - So at most ten files are kept, numbered within 1..11.
  - A flush takes the files in the order the folder lists them. It reads each file,
    resends its text unless the read raises, and deletes the file at once. Then it
    deletes the folder.
- **Real user monitoring.** Session start, end and timing messages are shared by
  `RUMService` and the older `RaygunRUMService` as one state machine
  (`RumSessions`), with the wire tags of the event and timing enums (`RumEvents`).
- **Breadcrumbs.** A bounded log of the 25 most recent breadcrumbs (`Breadcrumbs`).
- **The default anonymous user**, read from or created in the roaming settings
  (`DefaultUsers`).
- **User info** (`Users`).

Each state-changing C# class is a Dafny `class` whose methods are proved against a pure
function of the old state (`Stored() == FlushOf(...)`, `State() == Start(...)`). The
properties are proved as lemmas about those functions.

What the code does in the places where a reader might expect otherwise:

- **Flush.** The flush replays files in the order the folder lists them. It carries on
  after a failed post, so every listed file is tried. It deletes each file after trying
  it and then deletes the folder, whether or not the posts succeeded. A file whose read
  raises is not sent, and it is deleted like the others.
- **Queue capacity.** The queue keeps at most ten files, in a ring of eleven numbers.
  A save into number 11 makes room by deleting file 1.
- **RUM start.** `RUMService.Enable` starts a session straight away.
- **User change.** When the RUM user changes, the SessionEnd it sends is built after the
  new user is stored, so it carries the new user.
- **The older RUM service** never checks the API key and has no enabled flag.

## Model

| member | source | states |
|---|---|---|
| Users.RaygunUserInfo.constructor | Raygun4UWP/Common/PayloadModels/RaygunUserInfo.cs:5-8 | a new user has the given identifier, which may be null, and is not anonymous |
| Users.RaygunUserInfo.Anonymous | Raygun4UWP/Common/DefaultUserService.cs:30 | the default user has the given identifier and is anonymous |
| Users.RaygunUserInfo.SetIdentifier | Raygun4UWP/Common/PayloadModels/RaygunUserInfo.cs:10 | the identifier becomes the value, null included; the anonymous flag is kept |
| Users.RaygunUserInfo.SetIsAnonymous | Raygun4UWP/Common/PayloadModels/RaygunUserInfo.cs:12 | the anonymous flag becomes the value; the identifier is kept |
| Exceptions.InnerException | Raygun4UWP/CrashReporting/Builders/RaygunErrorInfoBuilder.cs:77 | a single-cause exception's inner exception is its cause; an aggregate's exists exactly when it has causes |
| RumEvents.EventTypeOfTag | Raygun4UWP/RUM/PayloadModels/RaygunRUMEventType.cs:5-17 | a decoded wire tag names the type whose tag it is; an unknown tag is no type |
| RumEvents.EventTagRoundTrip | Raygun4UWP/RUM/PayloadModels/RaygunRUMEventType.cs:5-17 | every event type decodes back from its tag, so no two types share a tag |
| RumEvents.TimingTypeOfTag | Raygun4UWP/RUM/PayloadModels/RaygunRUMEventTimingType.cs:5-12 | a decoded timing tag ("p", "n") names the timing type whose tag it is; anything else is no type |
| RumEvents.TimingTagRoundTrip | Raygun4UWP/RUM/PayloadModels/RaygunRUMEventTimingType.cs:5-12 | every timing type decodes back from its tag |
| RumSessions.EventMessage | Raygun4UWP/RUM/RUMService.cs:172-193 | a message holds one event of the given type and session, for the set user or else the default user, with the set version or, when it is null or white space, the package version |
| RumSessions.Send | Raygun4UWP/RUM/RUMService.cs:195-214 | sending a message never changes the session id or the id counter |
| RumSessions.EndShape | Raygun4UWP/RUM/RUMService.cs:85-95 | without a session End does nothing; otherwise it posts a SessionEnd with the current id and clears the id even when the post raises |
| RumSessions.StartShape | Raygun4UWP/RUM/RUMService.cs:74-83 | with working transport, Start posts the SessionEnd of an open session, then a SessionStart with a freshly drawn id, which becomes the session id |
| RumSessions.StartStopsAtFailedEnd | Raygun4UWP/RUM/RUMService.cs:74-83 | a Start whose SessionEnd post raises posts no SessionStart and leaves no session |
| RumSessions.StartIdIsFresh | Raygun4UWP/RUM/RUMService.cs:74-83 | the id of a new session differs from the previous id and from every id already posted |
| RumSessions.EndValid | Raygun4UWP/RUM/RUMService.cs:85-95 | End keeps every message at one event and every posted id already drawn |
| RumSessions.StartValid | Raygun4UWP/RUM/RUMService.cs:74-83 | Start keeps every message at one event and every posted id already drawn |
| RumSessions.TimingShape | Raygun4UWP/RUM/RUMService.cs:97-124 | a completed timing event leaves a session (the open one, or a new one started first) and posts one Timing event in it whose data is the single name, type and duration |
| RumSessions.TimingValid | Raygun4UWP/RUM/RUMService.cs:97-124 | a timing event keeps every message at one event and every posted id already drawn |
| RumSessions.ConsecutiveStarts | Raygun4UWP.Tests/RUM/RUMServiceTests.cs:11-44 | two starts give two different session ids, with or without a usable API key; with one (and posts that get through) the second posts exactly the SessionEnd of the first and its own SessionStart, without one nothing is posted |
| RumSessions.SilentWithoutKey | Raygun4UWP/RUM/RUMService.cs:195-214 | without an API key End, Start and timing post nothing, yet the session id is still cleared, drawn or kept |
| RumService.RUMService.constructor | Raygun4UWP/RUM/RUMService.cs:22-25 | a new service is disabled, has no user, version or session, and has posted nothing |
| RumService.RUMService.ValidateApiKey | Raygun4UWP/RUM/RUMService.cs:205-214 | the key is valid exactly when it is neither null nor empty |
| RumService.RUMService.SendRUMMessage | Raygun4UWP/RUM/RUMService.cs:195-203 | the new state is the shared Send of the old one; settings unchanged |
| RumService.RUMService.SendSessionEndEvent | Raygun4UWP/RUM/RUMService.cs:85-95 | the new state and outcome are End of the old state |
| RumService.RUMService.SendSessionStartEvent | Raygun4UWP/RUM/RUMService.cs:74-83 | the new state and outcome are Start of the old state |
| RumService.RUMService.SendSessionTimingEvent | Raygun4UWP/RUM/RUMService.cs:97-124 | the new state and outcome are the timing event of the old state |
| RumService.RUMService.SetApplicationVersion | Raygun4UWP/RUM/RUMService.cs:27 | only the version changes |
| RumService.RUMService.SetUserInfo | Raygun4UWP/RUM/RUMService.cs:29-46 | the user is replaced; a different user, while enabled and after a previous user, ends the session with a message for the new user; otherwise the session is untouched |
| RumService.RUMService.Disable | Raygun4UWP/RUM/RUMService.cs:63-72 | the service is disabled, the handlers are detached and the session is not ended |
| RumService.RUMService.Enable | Raygun4UWP/RUM/RUMService.cs:48-61 | the service is enabled, the handlers are attached once, and a session is started at once |
| RumService.RUMService.Suspending | Raygun4UWP/RUM/RUMService.cs:216-219 | an attached handler ends the session; otherwise nothing changes |
| RumService.RUMService.Resuming | Raygun4UWP/RUM/RUMService.cs:221-224 | an attached handler starts a new session; otherwise nothing changes |
| LegacyRumService.RaygunRUMService.constructor | Raygun4UWP/RUM/RaygunRUMService.cs:16-19 | a new service has no handlers, user, version or session and has posted nothing |
| LegacyRumService.RaygunRUMService.Ctx | Raygun4UWP/RUM/RaygunRUMService.cs:142-147 | every message of this service reaches the transport: there is no API-key check |
| LegacyRumService.RaygunRUMService.SendRUMMessage | Raygun4UWP/RUM/RaygunRUMService.cs:142-147 | the new state is the shared Send of the old one |
| LegacyRumService.RaygunRUMService.SendSessionEndEvent | Raygun4UWP/RUM/RaygunRUMService.cs:73-83 | the new state and outcome are End of the old state |
| LegacyRumService.RaygunRUMService.SendSessionStartEvent | Raygun4UWP/RUM/RaygunRUMService.cs:62-71 | the new state and outcome are Start of the old state |
| LegacyRumService.RaygunRUMService.SendSessionTimingEvent | Raygun4UWP/RUM/RaygunRUMService.cs:85-112 | the new state and outcome are the timing event of the old state |
| LegacyRumService.RaygunRUMService.SetApplicationVersion | Raygun4UWP/RUM/RaygunRUMService.cs:21 | only the version changes |
| LegacyRumService.RaygunRUMService.SetUserInfo | Raygun4UWP/RUM/RaygunRUMService.cs:23-40 | the user is replaced; a different user after a previous one ends the session with a message for the new user |
| LegacyRumService.RaygunRUMService.Enable | Raygun4UWP/RUM/RaygunRUMService.cs:42-51 | the handlers are attached once; no session is started |
| LegacyRumService.RaygunRUMService.Disable | Raygun4UWP/RUM/RaygunRUMService.cs:53-60 | the handlers are detached; the session is not ended |
| LegacyRumService.RaygunRUMService.Suspending | Raygun4UWP/RUM/RaygunRUMService.cs:149-152 | an attached handler ends the session |
| LegacyRumService.RaygunRUMService.Resuming | Raygun4UWP/RUM/RaygunRUMService.cs:154-157 | an attached handler starts a new session |
| Breadcrumbs.Stored | Raygun4UWP/CrashReporting/Breadcrumbs/RaygunBreadcrumbs.cs:62-75 | the new breadcrumb is last; at exactly 25 items the oldest is dropped, otherwise the list grows by one, keeping order |
| Breadcrumbs.StoredBounded | Raygun4UWP/CrashReporting/Breadcrumbs/RaygunBreadcrumbs.cs:62-75 | a list of at most 25 items stays at most 25, and below 25 a store only appends |
| Breadcrumbs.StoredAllKeepsRecent | Raygun4UWP/CrashReporting/Breadcrumbs/RaygunBreadcrumbs.cs:62-75 | from at most 25 items, any run of stores keeps exactly the 25 most recent breadcrumbs in order |
| Breadcrumbs.RecentStep | Raygun4UWP/CrashReporting/Breadcrumbs/RaygunBreadcrumbs.cs:62-75 | one store followed by the rest keeps the same most recent 25 as storing all at once |
| Breadcrumbs.OversizedNeverTrimmed | Raygun4UWP/CrashReporting/Breadcrumbs/RaygunBreadcrumbs.cs:57-75 | a list passed in with more than 25 items is never trimmed: every store only appends |
| Breadcrumbs.InMemoryBreadcrumbStorage.constructor | Raygun4UWP/CrashReporting/Breadcrumbs/RaygunBreadcrumbs.cs:57-60 | the storage starts with the given list, or an empty one |
| Breadcrumbs.InMemoryBreadcrumbStorage.Store | Raygun4UWP/CrashReporting/Breadcrumbs/RaygunBreadcrumbs.cs:62-75 | the list becomes Stored of the old list |
| Breadcrumbs.InMemoryBreadcrumbStorage.Clear | Raygun4UWP/CrashReporting/Breadcrumbs/RaygunBreadcrumbs.cs:77-80 | the list is empty |
| Breadcrumbs.InMemoryBreadcrumbStorage.Size | Raygun4UWP/CrashReporting/Breadcrumbs/RaygunBreadcrumbs.cs:82-85 | the size is the number of stored items |
| Breadcrumbs.InMemoryBreadcrumbStorage.ToList | Raygun4UWP/CrashReporting/Breadcrumbs/RaygunBreadcrumbs.cs:87-96 | the result is a value copy of the list |
| Breadcrumbs.RaygunBreadcrumbs.constructor | Raygun4UWP/CrashReporting/Breadcrumbs/RaygunBreadcrumbs.cs:28 | the facade owns a fresh, empty storage |
| Breadcrumbs.RaygunBreadcrumbs.Record | Raygun4UWP/CrashReporting/Breadcrumbs/RaygunBreadcrumbs.cs:30-33 | recording stores into the storage |
| Breadcrumbs.RaygunBreadcrumbs.Clear | Raygun4UWP/CrashReporting/Breadcrumbs/RaygunBreadcrumbs.cs:35-38 | the storage is emptied |
| Breadcrumbs.RaygunBreadcrumbs.Size | Raygun4UWP/CrashReporting/Breadcrumbs/RaygunBreadcrumbs.cs:40-43 | the storage's size |
| Breadcrumbs.RaygunBreadcrumbs.ToList | Raygun4UWP/CrashReporting/Breadcrumbs/RaygunBreadcrumbs.cs:45-48 | the storage's list |
| CrashReportBuilder.NewClientInfo | Raygun4UWP/CrashReporting/PayloadModels/RaygunClientInfo.cs:7-12 | the client info names Raygun4UWP, its home page and the assembly version |
| CrashReportBuilder.CrashReportBuilder.constructor | Raygun4UWP/CrashReporting/Builders/RaygunCrashReportBuilder.cs:11-22 | a new report occurs now and every detail is null |
| CrashReportBuilder.CrashReportBuilder.Build | Raygun4UWP/CrashReporting/Builders/RaygunCrashReportBuilder.cs:24-27 | the report built so far |
| CrashReportBuilder.CrashReportBuilder.SetMachineName | Raygun4UWP/CrashReporting/Builders/RaygunCrashReportBuilder.cs:29-33 | only the machine name changes; the builder itself is returned |
| CrashReportBuilder.CrashReportBuilder.SetEnvironmentInfo | Raygun4UWP/CrashReporting/Builders/RaygunCrashReportBuilder.cs:35-39 | only the environment changes, to the one read from the platform |
| CrashReportBuilder.CrashReportBuilder.SetErrorInfo | Raygun4UWP/CrashReporting/Builders/RaygunCrashReportBuilder.cs:41-48 | a null exception changes nothing; otherwise only the error changes, to the error info of the exception |
| CrashReportBuilder.CrashReportBuilder.SetClientInfo | Raygun4UWP/CrashReporting/Builders/RaygunCrashReportBuilder.cs:50-54 | only the client info changes |
| CrashReportBuilder.CrashReportBuilder.SetCustomData | Raygun4UWP/CrashReporting/Builders/RaygunCrashReportBuilder.cs:56-60 | only the custom data changes |
| CrashReportBuilder.CrashReportBuilder.SetTags | Raygun4UWP/CrashReporting/Builders/RaygunCrashReportBuilder.cs:62-66 | only the tags change |
| CrashReportBuilder.CrashReportBuilder.SetUserInfo | Raygun4UWP/CrashReporting/Builders/RaygunCrashReportBuilder.cs:68-72 | only the user changes |
| CrashReportBuilder.CrashReportBuilder.SetVersion | Raygun4UWP/CrashReporting/Builders/RaygunCrashReportBuilder.cs:74-78 | only the version changes |
| CrashReportBuilder.CrashReportBuilder.SetOccurredOn | Raygun4UWP/CrashReporting/Builders/RaygunCrashReportBuilder.cs:80-84 | only the occurrence time changes |
| CrashReportBuilder.CrashReportBuilder.SetBreadcrumbs | Raygun4UWP/CrashReporting/Builders/RaygunCrashReportBuilder.cs:86-90 | only the breadcrumbs change |
| DefaultUsers.DefaultUserService.constructor | Raygun4UWP/Common/DefaultUserService.cs:11 | nothing is cached yet |
| DefaultUsers.DefaultUserService.DefaultUser | Raygun4UWP/Common/DefaultUserService.cs:13-40 | a cached user is returned untouched; an unreadable store or a failed write yields null; a stored string is the anonymous user's id; otherwise the new GUID without dashes is stored and used |
| DefaultUsers.GeneratedIdHasNoDash | Raygun4UWP/Common/DefaultUserService.cs:25 | the generated id contains no dash |
| EnvironmentInfoBuilder.ParseInt64 | Raygun4UWP/CrashReporting/Builders/RaygunEnvironmentInfoBuilder.cs:90-94 | a parsed value lies in the signed 64-bit range |
| EnvironmentInfoBuilder.ParseInt64RoundTrip | Raygun4UWP/CrashReporting/Builders/RaygunEnvironmentInfoBuilder.cs:90-94 | the decimal text of every 64-bit value parses back to it |
| EnvironmentInfoBuilder.Component | Raygun4UWP/CrashReporting/Builders/RaygunEnvironmentInfoBuilder.cs:96-99 | each version component lies in 0..65535 |
| EnvironmentInfoBuilder.OSVersionOf | Raygun4UWP/CrashReporting/Builders/RaygunEnvironmentInfoBuilder.cs:73-107 | a version is produced exactly when the device family version is present and parses as a 64-bit integer |
| EnvironmentInfoBuilder.Packed | Raygun4UWP/CrashReporting/Builders/RaygunEnvironmentInfoBuilder.cs:96-99 | four 16-bit components pack into a signed 64-bit value |
| EnvironmentInfoBuilder.ComponentsOfPacked | Raygun4UWP/CrashReporting/Builders/RaygunEnvironmentInfoBuilder.cs:96-99 | the shifts and masks recover each packed component |
| EnvironmentInfoBuilder.OSVersionRoundTrip | Raygun4UWP/CrashReporting/Builders/RaygunEnvironmentInfoBuilder.cs:73-107 | the text of a packed version formats as "major.minor.build.revision" of its components |
| EnvironmentInfoBuilder.FailureStaysInGroup | Raygun4UWP/CrashReporting/Builders/RaygunEnvironmentInfoBuilder.cs:17-68 | a failing lookup leaves only the fields of its own group null |
| EnvironmentInfoBuilder.Build | Raygun4UWP/CrashReporting/Builders/RaygunEnvironmentInfoBuilder.cs:13-71 | the environment info read from the platform |
| PeImage.BytesAt | Raygun4UWP/CrashReporting/Builders/RaygunErrorInfoBuilder.cs:305-306 | a read succeeds exactly inside the image and returns the bytes there |
| PeImage.Int16At | Raygun4UWP/CrashReporting/Builders/RaygunErrorInfoBuilder.cs:329-334 | a 16-bit read succeeds exactly inside the image, and its value is the low byte plus 256 times the high byte, read as a signed 16-bit value |
| PeImage.Int16RoundTrip | Raygun4UWP/CrashReporting/Builders/RaygunErrorInfoBuilder.cs:329-334 | a 16-bit value written anywhere in an image reads back unchanged |
| PeImage.Int32At | Raygun4UWP/CrashReporting/Builders/RaygunErrorInfoBuilder.cs:336-341 | a 32-bit read succeeds exactly inside the image and is a signed 32-bit value |
| PeImage.LittleEndianRoundTrip | Raygun4UWP/CrashReporting/Builders/RaygunErrorInfoBuilder.cs:336-341 | decoding the little-endian encoding of a value gives the value back |
| PeImage.Int32RoundTrip | Raygun4UWP/CrashReporting/Builders/RaygunErrorInfoBuilder.cs:336-341 | a 32-bit value written anywhere in an image reads back unchanged |
| PeImage.DebugInformation | Raygun4UWP/CrashReporting/Builders/RaygunErrorInfoBuilder.cs:292-327 | a record without the RSDS signature gives nothing; a found record's GUID is the 16 bytes after the signature and its PDB name the bytes from offset 24 up to the terminator |
| PeImage.CodeViewRoundTrip | Raygun4UWP/CrashReporting/Builders/RaygunErrorInfoBuilder.cs:292-327 | a CodeView record written into an image reads back as its GUID and name |
| PeImage.DebugEntry | Raygun4UWP/CrashReporting/Builders/RaygunErrorInfoBuilder.cs:271-286 | an entry yields debug information only when its type is CodeView, read from the record its address and size point at |
| PeImage.DebugInfosUpTo | Raygun4UWP/CrashReporting/Builders/RaygunErrorInfoBuilder.cs:267-289 | the table read succeeds exactly when every one of the first n entries reads, and then yields at most n debug infos |
| PeImage.InfosOf | Raygun4UWP/CrashReporting/Builders/RaygunErrorInfoBuilder.cs:267-289 | a run of entry reads succeeds exactly when each entry reads, and yields at most one info per entry |
| PeImage.InfosOfSnoc | Raygun4UWP/CrashReporting/Builders/RaygunErrorInfoBuilder.cs:269-287 | one more entry faults the run, adds nothing, or appends its info |
| PeImage.InfoPositionsSound | Raygun4UWP/CrashReporting/Builders/RaygunErrorInfoBuilder.cs:271-286 | the selected positions increase and each entry there yields an info |
| PeImage.InfoPositionsComplete | Raygun4UWP/CrashReporting/Builders/RaygunErrorInfoBuilder.cs:271-286 | every entry that yields an info is selected |
| PeImage.InfosInOrder | Raygun4UWP/CrashReporting/Builders/RaygunErrorInfoBuilder.cs:267-289 | a successful run lists, in order, the info of each selected entry and nothing else |
| PeImage.DebugInfosInOrder | Raygun4UWP/CrashReporting/Builders/RaygunErrorInfoBuilder.cs:267-289 | a successful table read lists, in table order, exactly the infos of the entries that yield one |
| PeImage.DebugInfosComplete | Raygun4UWP/CrashReporting/Builders/RaygunErrorInfoBuilder.cs:267-289 | every entry that yields an info has it in the successful table read |
| PeImage.ReadDebugDirectories | Raygun4UWP/CrashReporting/Builders/RaygunErrorInfoBuilder.cs:252-290 | the loop over the entries yields the debug infos of the first count entries, none when the count is negative |
| PeImage.DebugDataDirectory | Raygun4UWP/CrashReporting/Builders/RaygunErrorInfoBuilder.cs:229-250 | a zero virtual address gives no table; a fault on the address faults; otherwise the result is the table read of size/28 entries (truncated), faulting exactly when it faults |
| PeImage.ReadDebugDataDirectory | Raygun4UWP/CrashReporting/Builders/RaygunErrorInfoBuilder.cs:229-250 | the directory's debug infos |
| PeImage.DebugDirectoryOffset | Raygun4UWP/CrashReporting/Builders/RaygunErrorInfoBuilder.cs:206-210 | the Debug directory sits 144 bytes into a PE32 optional header and 160 bytes into any other |
| PeImage.ImageInfoOf | Raygun4UWP/CrashReporting/Builders/RaygunErrorInfoBuilder.cs:182-227 | an image info records the base, holds at least one debug info, and comes from a Debug directory that lies inside the optional header |
| PeImage.ReadImage | Raygun4UWP/CrashReporting/Builders/RaygunErrorInfoBuilder.cs:182-227 | the image info of the image |
| PeImage.PE32HeadersRead | Raygun4UWP/CrashReporting/Builders/RaygunErrorInfoBuilder.cs:182-210 | in an image starting with the built PE32 headers, the signature offset, optional-header size, magic and Debug directory fields read back as written |
| PeImage.CodeViewEntryRead | Raygun4UWP/CrashReporting/Builders/RaygunErrorInfoBuilder.cs:271-286 | a CodeView entry written into a table reads as the record its address and size name |
| PeImage.ImageInfoRoundTrip | Raygun4UWP/CrashReporting/Builders/RaygunErrorInfoBuilder.cs:182-327 | a PE32 image built with one CodeView entry and record reads back as an image info holding the base and that record's PDB name and GUID, whatever follows it |
| ErrorInfoBuilder.FormatTypeNameAgrees | Raygun4UWP/CrashReporting/Builders/RaygunErrorInfoBuilder.cs:85-105 | the type-name formatting as written raises exactly when some generic name has no backtick, and otherwise equals the corrected formatting |
| ErrorInfoBuilder.FormattedArguments | Raygun4UWP/CrashReporting/Builders/RaygunErrorInfoBuilder.cs:97-100 | one entry per type argument from the given one on, each that argument's short name formatted in turn |
| ErrorInfoBuilder.FormatTypeNameShape | Raygun4UWP/CrashReporting/Builders/RaygunErrorInfoBuilder.cs:85-105 | a non-generic name is written verbatim; a generic one is the name before its backtick, then "<", the formatted short names of its arguments joined by commas, and ">" |
| ErrorInfoBuilder.NestedGenericArgumentRaises | Raygun4UWP/CrashReporting/Builders/RaygunErrorInfoBuilder.cs:95 | for E<O<int>.I> the formatting as written raises, while the corrected one writes E<I<Int32>> |
| ErrorInfoBuilder.SplitLines | Raygun4UWP/CrashReporting/Builders/RaygunErrorInfoBuilder.cs:115 | splitting on line breaks drops empty entries |
| ErrorInfoBuilder.SplitJoinRoundTrip | Raygun4UWP/CrashReporting/Builders/RaygunErrorInfoBuilder.cs:115 | non-empty lines joined with line breaks split back into the same lines |
| ErrorInfoBuilder.ParseFrameShape | Raygun4UWP/CrashReporting/Builders/RaygunErrorInfoBuilder.cs:117-142 | a frame keeps the trimmed text after "at " as raw; class and method names are set together, exactly when "(" and a "." before it follow the start, and then they rebuild the raw text |
| ErrorInfoBuilder.StackTraceOf | Raygun4UWP/CrashReporting/Builders/RaygunErrorInfoBuilder.cs:107-147 | there are frames exactly when the stack trace is not null and has a non-empty line, one frame per line in order |
| ErrorInfoBuilder.BuildStackTrace | Raygun4UWP/CrashReporting/Builders/RaygunErrorInfoBuilder.cs:107-147 | the frames of the stack-trace text |
| ErrorInfoBuilder.ParseFrames | Raygun4UWP/CrashReporting/Builders/RaygunErrorInfoBuilder.cs:116-143 | the loop parses each line into its frame, in order |
| ErrorInfoBuilder.ImageCache.constructor | Raygun4UWP/CrashReporting/Builders/RaygunErrorInfoBuilder.cs:25 | the image cache starts empty |
| ErrorInfoBuilder.ImageCache.Contains | Raygun4UWP/CrashReporting/Builders/RaygunErrorInfoBuilder.cs:163 | the loop finds a base exactly when it is cached |
| ErrorInfoBuilder.ImageCache.Add | Raygun4UWP/CrashReporting/Builders/RaygunErrorInfoBuilder.cs:165-166 | the entry is appended |
| ErrorInfoBuilder.NativeScan | Raygun4UWP/CrashReporting/Builders/RaygunErrorInfoBuilder.cs:156-177 | a scan without a fault yields one native frame per frame with a native image, with its IP and image base; it faults exactly when some frame's image read faults, so when all images read it succeeds |
| ErrorInfoBuilder.NativeTraceOf | Raygun4UWP/CrashReporting/Builders/RaygunErrorInfoBuilder.cs:149-180 | no frames is a fault; with frames whose images all read it succeeds; without a fault there is a native trace exactly when some frame has a native image, and it lists them |
| ErrorInfoBuilder.BuildNativeStackTrace | Raygun4UWP/CrashReporting/Builders/RaygunErrorInfoBuilder.cs:149-180 | the native trace and the cache after it |
| ErrorInfoBuilder.NativeScanFaultStays | Raygun4UWP/CrashReporting/Builders/RaygunErrorInfoBuilder.cs:156-177 | after a faulting image read, the rest of the scan changes nothing |
| ErrorInfoBuilder.InnerInfosOf | Raygun4UWP/CrashReporting/Builders/RaygunErrorInfoBuilder.cs:66-76 | an aggregate yields one inner error per inner exception |
| ErrorInfoBuilder.ErrorInfoMirrors | Raygun4UWP/CrashReporting/Builders/RaygunErrorInfoBuilder.cs:37-83 | the error-info tree has the exception tree's shape: message, data, type name and stack trace copied; aggregates give InnerErrors in order, other exceptions at most an InnerError, never both |
| ErrorInfoBuilder.NativeScanFaultsWhenUnreadable | Raygun4UWP/CrashReporting/Builders/RaygunErrorInfoBuilder.cs:156-177 | with a valid cache, the scan faults exactly when some frame's image does not read |
| ErrorInfoBuilder.NativeTraceOfValid | Raygun4UWP/CrashReporting/Builders/RaygunErrorInfoBuilder.cs:149-180 | with a valid cache, the native trace faults exactly when there are no frames or some image does not read, and otherwise is the native frames when there are any, else none |
| ErrorInfoBuilder.ErrorInfoNativeTraces | Raygun4UWP/CrashReporting/Builders/RaygunErrorInfoBuilder.cs:37-83 | from a valid cache, every node's NativeStackTrace is its exception's native frames when the runtime gives frames, every image reads and some frame has one, and is unset otherwise |
| ErrorInfoBuilder.NativeScanCache | Raygun4UWP/CrashReporting/Builders/RaygunErrorInfoBuilder.cs:160-167 | a scan only grows the cache, keeps its bases distinct and stores each image as read |
| ErrorInfoBuilder.NativeTraceCache | Raygun4UWP/CrashReporting/Builders/RaygunErrorInfoBuilder.cs:149-180 | building a native trace only grows the cache and keeps it valid |
| ErrorInfoBuilder.ErrorInfoCache | Raygun4UWP/CrashReporting/Builders/RaygunErrorInfoBuilder.cs:37-83 | building a subtree only grows the shared cache and keeps it valid |
| ErrorInfoBuilder.InnerInfosCache | Raygun4UWP/CrashReporting/Builders/RaygunErrorInfoBuilder.cs:66-76 | building the inner errors only grows the shared cache and keeps it valid |
| ErrorInfoBuilder.PresentImages | Raygun4UWP/CrashReporting/Builders/RaygunErrorInfoBuilder.cs:31 | every listed image is an image info found in the cache, and every non-null info of the cache is listed |
| ErrorInfoBuilder.SomeIndicesSound | Raygun4UWP/CrashReporting/Builders/RaygunErrorInfoBuilder.cs:31 | the positions selected are increasing and each holds a non-null info |
| ErrorInfoBuilder.SomeIndicesComplete | Raygun4UWP/CrashReporting/Builders/RaygunErrorInfoBuilder.cs:31 | every position holding a non-null info is selected |
| ErrorInfoBuilder.PresentImagesInOrder | Raygun4UWP/CrashReporting/Builders/RaygunErrorInfoBuilder.cs:31 | the k-th listed image is the info at the k-th position holding one, so the list is the non-null infos in cache order |
| ErrorInfoBuilder.ErrorReportShape | Raygun4UWP/CrashReporting/Builders/RaygunErrorInfoBuilder.cs:23-35 | the root mirrors the exception, native traces included; Images is set exactly when some image was read, each base read once, and then holds the non-null image infos in the order they were read |
| ErrorInfoBuilder.BuildErrorInfo | Raygun4UWP/CrashReporting/Builders/RaygunErrorInfoBuilder.cs:37-83 | the subtree and the cache after it |
| ErrorInfoBuilder.BuildInnerErrors | Raygun4UWP/CrashReporting/Builders/RaygunErrorInfoBuilder.cs:66-76 | the array loop yields the inner errors in order and the cache after them |
| ErrorInfoBuilder.BuildInnerError | Raygun4UWP/CrashReporting/Builders/RaygunErrorInfoBuilder.cs:73-74 | slot i of the array is filled, the later slots are untouched, and the rest is still to be built |
| ErrorInfoBuilder.Build | Raygun4UWP/CrashReporting/Builders/RaygunErrorInfoBuilder.cs:23-35 | the error info of the exception, with the images it used |
| OfflineStore.FileName | Raygun4UWP/RaygunClient.cs:418 | the name is "RaygunCrashReport", the number's digits, then ".txt" |
| OfflineStore.FileNameInjective | Raygun4UWP/RaygunClient.cs:418 | distinct numbers name distinct files |
| OfflineStore.FirstFreeFrom | Raygun4UWP/RaygunClient.cs:371-404 | the lowest number from n upwards that has no file |
| OfflineStore.FreeSlot | Raygun4UWP/RaygunClient.cs:371-404 | the save number has no file, and every number from 1 below it has one |
| OfflineStore.FreeSlotIs | Raygun4UWP/RaygunClient.cs:371-404 | the save number is the unique number with that property |
| OfflineStore.Saved | Raygun4UWP/RaygunClient.cs:363-428 | the payload is stored under the free number; the file above it, and file 1 when the free number is 11, are deleted; every other file stays |
| OfflineStore.RingBounded | Raygun4UWP/RaygunClient.cs:371-420 | a folder of ring shape holds at most ten files, numbered 1 to 11 |
| OfflineStore.SavedWhileFilling | Raygun4UWP/RaygunClient.cs:371-420 | while files 1..k are stored, a save stores file k+1, and the eleventh number stays free |
| OfflineStore.SavedWhileCycling | Raygun4UWP/RaygunClient.cs:371-420 | once full, a save fills the gap and opens the next number, wrapping 11 to 1 |
| OfflineStore.SavedKeepsShape | Raygun4UWP/RaygunClient.cs:371-420 | a save keeps the ring shape |
| OfflineStore.SavesStayInRing | Raygun4UWP/RaygunClient.cs:371-420 | any run of saves from a ring-shaped folder keeps at most ten files numbered within 1..11 |
| OfflineStore.SavedAllSnoc | Raygun4UWP/RaygunClient.cs:371-420 | saving one more payload after a run of saves is one more save |
| OfflineStore.Deleted | Raygun4UWP/RaygunClient.cs:323-336 | exactly the listed files are removed; the others keep their payloads |
| OfflineStore.Replayed | Raygun4UWP/RaygunClient.cs:323-336 | at most one payload per listed file, exactly one each when every file reads |
| OfflineStore.ReplayedStep | Raygun4UWP/RaygunClient.cs:323-336 | one more file adds its payload unless its read raises, and it is still stored when reached |
| OfflineStore.ReplayedAfterStep | Raygun4UWP/RaygunClient.cs:323-336 | after each file, the posts are the replay so far and the folder has the files so far deleted |
| OfflineStore.ReplayedAll | Raygun4UWP/RaygunClient.cs:323-336 | with every file readable, file i of the listing is the i-th payload resent |
| OfflineStore.ReplayedSingle | Raygun4UWP/RaygunClient.cs:323-336 | a folder of one file resends that payload when it reads |
| Client.Strip | Raygun4UWP/RaygunClient.cs:470-497 | a null or non-wrapper exception is reported itself; the result is never empty |
| Client.StripYieldsLeaves | Raygun4UWP/RaygunClient.cs:470-497 | no reported exception is a wrapper: stripping it again gives it back |
| Client.StripWrapper | Raygun4UWP/RaygunClient.cs:470-497 | a wrapper aggregate yields its inner exceptions' strips in order; another wrapper yields its inner exception's strip |
| Client.CrashReportFor | Raygun4UWP/RaygunClient.cs:430-447 | the report occurs now, with the set version or else the package version, the set user or else the default user, the exception's error info, the environment, the client info, the machine name, the tags and data, and no grouping key or breadcrumbs |
| Client.SendCrashReportOf | Raygun4UWP/RaygunClient.cs:347-361 | the payload is posted; a failed post saves it when asked to |
| Client.FlushOf | Raygun4UWP/RaygunClient.cs:311-345 | offline nothing happens; online every readable listed file is resent in listing order and the folder ends empty |
| Client.OnSendingOf | Raygun4UWP/RaygunClient.cs:281-309 | during a recursive send, or without a hook, the report proceeds unchanged |
| Client.NoApiKeyNoSend | Raygun4UWP/RaygunClient.cs:240-278 | without an API key nothing is posted or saved |
| Client.CancelNoSend | Raygun4UWP/RaygunClient.cs:240-267 | a hook that cancels without raising stops the report: nothing is posted or saved |
| Client.OfflineSaves | Raygun4UWP/RaygunClient.cs:251-259 | offline, a report the hook lets through is saved, as the hook left it, under the free number and never posted; a cancelled one is dropped |
| Client.OnlineSendsThenFlushes | Raygun4UWP/RaygunClient.cs:251-259 | online, a report the hook lets through is posted first, as the hook left it, and saved if that fails; then every stored report is resent and the folder ends empty; a cancelled one changes nothing further |
| Client.FailedPostIsRetriedAtOnce | Raygun4UWP/RaygunClient.cs:251-255 | a report the hook lets through whose post fails online is posted again by the flush that follows, when its file reads back |
| Client.SendEachSavesInOrder | Raygun4UWP/RaygunClient.cs:449-456 | offline with no hook, sending each exception saves the report of each, in order, and posts nothing |
| Client.StripAndSendSavesInOrder | Raygun4UWP/RaygunClient.cs:449-456 | offline with no hook, the report of each stripped exception is saved, in order |
| Client.SendEachWithoutKey | Raygun4UWP/RaygunClient.cs:240-249 | with no API key, sending any exceptions changes nothing |
| Client.ReplayedContains | Raygun4UWP/RaygunClient.cs:323-336 | every readable listed file is among the resent payloads |
| Client.HookRaisesIsSent | Raygun4UWP/RaygunClient.cs:281-309 | an exception raised by the hook is sent as a report of its own under the guard, the guard is clear afterwards, and the hook's cancel and report take effect |
| Client.SendKeepsRing | Raygun4UWP/RaygunClient.cs:449-456 | any send from a ring-shaped folder keeps at most ten stored files numbered within 1..11 |
| Client.Registry.constructor | Raygun4UWP/RaygunClient.cs:55 | there is no current client yet |
| Client.Registry.Initialize | Raygun4UWP/RaygunClient.cs:42-50 | the first call creates the client with the key; later calls return the same client |
| Client.RaygunClient.constructor | Raygun4UWP/RaygunClient.cs:29-33 | a new client has the key, no hook, no user or version, reporting disabled, nothing posted, and a fresh RUM service with the same key |
| Client.RaygunClient.UserIdentifier | Raygun4UWP/RaygunClient.cs:65-69 | null without a user; otherwise the user's identifier, which may itself be null |
| Client.RaygunClient.SetUserIdentifier | Raygun4UWP/RaygunClient.cs:65-69 | null or white space clears the user; anything else sets a fresh, non-anonymous user with that identifier; the RUM service gets the same user, and ends its session for it when it was enabled and had a different previous user; everything else is unchanged |
| Client.RaygunClient.SetUserInfo | Raygun4UWP/RaygunClient.cs:74-83 | the user is stored here and passed to the RUM service, which ends its session for the new user when it was enabled and had a different previous user; everything else is unchanged |
| Client.RaygunClient.SetApplicationVersion | Raygun4UWP/RaygunClient.cs:88-97 | the version is stored here and in the RUM service; the session, the users, the flags and the stored reports are unchanged |
| Client.RaygunClient.SetSendingCrashReport | Raygun4UWP/RaygunClient.cs:101 | the hook is attached or detached; the flags, user, version, stored reports and RUM service are unchanged |
| Client.RaygunClient.ValidateApiKey | Raygun4UWP/RaygunClient.cs:269-278 | the key is valid exactly when it is neither null nor empty |
| Client.RaygunClient.SaveCrashReport | Raygun4UWP/RaygunClient.cs:363-428 | the folder becomes Saved of the old folder |
| Client.RaygunClient.SendCrashReport | Raygun4UWP/RaygunClient.cs:347-361 | the payload is posted; a failed post with saving asked for saves it; otherwise the folder is unchanged |
| Client.RaygunClient.SendStoredCrashReports | Raygun4UWP/RaygunClient.cs:311-345 | the new posts and folder are the flush of the old ones |
| Client.RaygunClient.ReplayFiles | Raygun4UWP/RaygunClient.cs:323-336 | the loop resends the listed files' payloads in order and deletes exactly those files |
| Client.RaygunClient.ReplayNext | Raygun4UWP/RaygunClient.cs:323-336 | one more loop step extends the replay and the deletion by one file |
| Client.RaygunClient.ReplayFile | Raygun4UWP/RaygunClient.cs:325-335 | the file is resent unless its read raises, then deleted |
| Client.RaygunClient.BuildCrashReport | Raygun4UWP/RaygunClient.cs:430-447 | the report of CrashReportFor |
| Client.RaygunClient.SendOrSaveCrashReport | Raygun4UWP/RaygunClient.cs:240-267 | the new posts and folder are SendOrSaveOf of the old ones |
| Client.RaygunClient.OnSendingCrashReport | Raygun4UWP/RaygunClient.cs:281-309 | the new state, the go-ahead and the adjusted report are OnSendingOf of the old state |
| Client.RaygunClient.Send | Raygun4UWP/RaygunClient.cs:449-456 | the loop sends one report per stripped exception, in order, all stamped with the same time |
| Client.RaygunClient.SendStripped | Raygun4UWP/RaygunClient.cs:452-455 | one more loop step sends the report of the next stripped exception |
| Client.RaygunClient.SendReport | Raygun4UWP/RaygunClient.cs:194-197 | a ready report is sent or saved with no original exception |
| Client.RaygunClient.EnableCrashReporting | Raygun4UWP/RaygunClient.cs:107-119 | the unhandled-exception handler is attached once, and the stored reports are flushed; the hook, user and version are unchanged |
| Client.RaygunClient.DisableCrashReporting | Raygun4UWP/RaygunClient.cs:124-130 | the handler is detached; nothing else changes |
| Client.RaygunClient.UnhandledException | Raygun4UWP/RaygunClient.cs:235-238 | with the handler attached the exception is stripped and sent; otherwise nothing happens |
| Client.RaygunClient.EnableRealUserMonitoring | Raygun4UWP/RaygunClient.cs:136-141 | the RUM service is enabled, its handlers attached when there is an application, and a session is started; its user and version are kept |
| Client.RaygunClient.DisableRealUserMonitoring | Raygun4UWP/RaygunClient.cs:146-149 | the RUM service is disabled, its handlers detached when there is an application; its session, user and version are kept |
| Client.RaygunClient.SendSessionStartEvent | Raygun4UWP/RaygunClient.cs:207-210 | the RUM state becomes Start of the old one; the service's user, version, enabled flag and handlers are kept |
| Client.RaygunClient.SendSessionTimingEvent | Raygun4UWP/RaygunClient.cs:219-222 | the RUM state becomes the timing event of the old one; the service's user, version, enabled flag and handlers are kept |
| Client.RaygunClient.SendSessionEndEvent | Raygun4UWP/RaygunClient.cs:228-231 | the RUM state becomes End of the old one; the service's user, version, enabled flag and handlers are kept |

## Left out

- Asynchrony. `async`/`await`, `Task.WhenAll` and `Task.Run` are modelled as sequential
  calls in program order. `StripAndSendAsync` is modelled as the synchronous
  `StripAndSend`. The `Wait(3000)` timeouts and the fire-and-forget flush are not
  modelled.
- Transport. HTTP is an input function that says whether the k-th request returns
  normally. Connectivity is a per-call input. The request body is an opaque serializer
  function (`JsonConvert` is not modelled).
- Storage. File I/O is a map from file number to payload. The folder listing order is
  an input. A file whose read raises is a per-call input. Failures to create the
  folder or a file, and the ordering of the folder deletion against concurrent saves,
  are not modelled.
- `Guid.NewGuid()` is a counter for the RUM session ids, and an input string for the
  default user. `DateTime` is an integer tick count.
- Client.OnSendingOf: the report for an exception raised by the SendingCrashReport
  handler is stamped with the same time as the report being sent. The source sends it
  through `Send(e)` (RaygunClient.cs:300), which reads `DateTime.UtcNow` again, so there
  it can carry a later time.
- Floating point: the window bounds and `UtcOffset` are not modelled. The
  environment model keeps only the lookups that can fail and the fields they fill.
- UTF-8 decoding of the PDB file name and the string formatting of the GUID are not
  modelled: both stay byte sequences.
- Aliasing of reports. The hook may mutate the report object it is given. The model
  passes reports as values, and the hook returns the adjusted report.
- `ListenToNavigation`, the `Stopwatch` and the navigation `Frame` events are not
  modelled. Neither are the view-loaded timings they produce.
- `EnvironmentService` facts, the machine name and the default user are host inputs.
  `Application.Current` is a boolean.
- `RaygunSettings`, the legacy `RaygunMessageBuilder` and the `Messages` payload models
  are not part of this model.
- String handling. String comparison is ordinal. No culture or Unicode case rules are
  modelled.
- PeImage.ImageInfoOf: the `IntPtr` address arithmetic on 64-bit processes is not
  wrapped. Only the 32-bit offset sums are.
- ErrorInfoBuilder.FormatTypeName: the corrected formatting is what the reports use. The
  exception the as-written code raises for a generic name without a backtick is modelled
  separately (see Findings). As written, that call is outside every `try` of
  `BuildErrorInfo`, so the whole crash-report build fails with it.
- The `_breadcrumbs == null` branches are not modelled, because the field is never null.
- Client.SendOrSaveOf, Client.StripAndSendOf and Client.SendEachOf: their own contracts
  state only that a send keeps the recursion guard, appends to the posts and keeps the
  ring shape. For one report, what is posted or saved is stated by `OfflineSaves`,
  `OnlineSendsThenFlushes`, `FailedPostIsRetriedAtOnce`, `CancelNoSend` and
  `NoApiKeyNoSend`. For several exceptions it is stated in two cases: with no API key
  (`SendEachWithoutKey`), and offline with no hook (`SendEachSavesInOrder`,
  `StripAndSendSavesInOrder`). With a hook, or online, the effect of sending several
  exceptions is given only by the definitions.
- Client.RaygunClient.EnableCrashReporting and Client.RaygunClient.EnableRealUserMonitoring
  return nothing. The source returns the static `Current` client (RaygunClient.cs:118 and
  140) so that calls can be chained; the model keeps no link from a client to the registry.
- Breadcrumbs.InMemoryBreadcrumbStorage.constructor: the storage keeps a value copy of
  the list it is given. The source keeps the caller's `List` by reference
  (RaygunBreadcrumbs.cs:57-60), so the caller's later changes to that list, and the
  storage's changes seen through it, are not modelled.
- Users.RaygunUserInfo: only `Identifier` and `IsAnonymous` are modelled. `Email`,
  `FullName`, `FirstName` and `UUID` are plain settable strings that nothing in the core
  reads.

## Findings

| source | as written | input that shows it | evidently intended | confidence | as-written member | corrected member |
|---|---|---|---|---|---|---|
| Raygun4UWP/CrashReporting/Builders/RaygunErrorInfoBuilder.cs:95 | a generic argument's name is cut at `IndexOf("`")`, so `Substring(0, -1)` raises when the name has no backtick | an exception type E<O<int>.I>, whose argument's short name "I" has no backtick | the name is written whole when it has no backtick, giving E<I<Int32>> | not executed | ErrorInfoBuilder.NestedGenericArgumentRaises | ErrorInfoBuilder.FormatTypeNameAgrees |
