/** RaygunCrashReportBuilder: a fluent builder over one crash report. Each setter
    assigns one field of the report (or of its details) and returns the builder
    itself; Build hands back the accumulated report. */
module CrashReportBuilder {
  import opened Common
  import opened Users
  import opened Exceptions
  import opened Breadcrumbs
  import ErrorInfoBuilder
  import EnvironmentInfoBuilder

  /** RaygunClientInfo: the name, assembly version and home page of this client. */
  datatype ClientInfo = ClientInfo(name: string, version: string, clientUrl: string)

  const ClientName := "Raygun4UWP"
  const ClientUrl := "https://github.com/MindscapeHQ/raygun4uwp"

  /** RaygunCrashReportDetails. Every field starts out null. */
  datatype Details = Details(
    machineName: Option<string>,
    groupingKey: Option<string>,
    version: Option<string>,
    error: Option<ErrorInfoBuilder.ErrorInfo>,
    environment: Option<EnvironmentInfoBuilder.EnvironmentInfo>,
    client: Option<ClientInfo>,
    tags: Option<seq<string>>,
    userCustomData: Option<Data>,
    user: RaygunUserInfo?,
    breadcrumbs: Option<seq<Breadcrumb>>)

  /** RaygunCrashReport: when the crash occurred (in ticks) and its details. */
  datatype CrashReport = CrashReport(occurredOn: int, details: Details)

  const EmptyDetails := Details(None, None, None, None, None, None, None, None, null, None)

  /** new RaygunCrashReport(): OccurredOn is the current time, Details is new. */
  function NewReport(now: int): CrashReport {
    CrashReport(now, EmptyDetails)
  }

  /** new RaygunClientInfo(): the fixed name and URL, and the assembly's version. */
  function NewClientInfo(assemblyVersion: string): (c: ClientInfo)
    ensures c.name == "Raygun4UWP" && c.version == assemblyVersion
    ensures c.clientUrl == "https://github.com/MindscapeHQ/raygun4uwp"
  {
    ClientInfo(ClientName, assemblyVersion, ClientUrl)
  }

  class CrashReportBuilder {
    /** The report being built. */
    var report: CrashReport

    /** RaygunCrashReportBuilder.New */
    constructor (now: int)
      ensures report.occurredOn == now && report.details == EmptyDetails
    {
      report := NewReport(now);
    }

    method Build() returns (r: CrashReport)
      ensures r == report
    {
      r := report;
    }

    method SetMachineName(machineName: Option<string>) returns (b: CrashReportBuilder)
      modifies this
      ensures b == this
      ensures report == old(report).(details := old(report).details.(machineName := machineName))
    {
      report := report.(details := report.details.(machineName := machineName));
      b := this;
    }

    /** The environment is read from the platform `p`. */
    method SetEnvironmentInfo(p: EnvironmentInfoBuilder.Platform) returns (b: CrashReportBuilder)
      modifies this
      ensures b == this
      ensures report == old(report).(details := old(report).details.(environment := Some(EnvironmentInfoBuilder.EnvironmentOf(p))))
    {
      var environment := EnvironmentInfoBuilder.Build(p);
      report := report.(details := report.details.(environment := Some(environment)));
      b := this;
    }

    /** A null exception leaves Error as it was. `mem` is the process memory the
        native images are read from. */
    method SetErrorInfo(mem: ErrorInfoBuilder.Memory, exception: Option<Exc>) returns (b: CrashReportBuilder)
      modifies this
      ensures b == this
      ensures exception.None? ==> report == old(report)
      ensures exception.Some? ==>
        report == old(report).(details := old(report).details.(error := Some(ErrorInfoBuilder.ErrorReportOf(mem, exception.value))))
    {
      if exception.Some? {
        var error := ErrorInfoBuilder.Build(mem, exception.value);
        report := report.(details := report.details.(error := Some(error)));
      }
      b := this;
    }

    method SetClientInfo(assemblyVersion: string) returns (b: CrashReportBuilder)
      modifies this
      ensures b == this
      ensures report == old(report).(details := old(report).details.(client := Some(NewClientInfo(assemblyVersion))))
    {
      report := report.(details := report.details.(client := Some(NewClientInfo(assemblyVersion))));
      b := this;
    }

    method SetCustomData(userCustomData: Option<Data>) returns (b: CrashReportBuilder)
      modifies this
      ensures b == this
      ensures report == old(report).(details := old(report).details.(userCustomData := userCustomData))
    {
      report := report.(details := report.details.(userCustomData := userCustomData));
      b := this;
    }

    method SetTags(tags: Option<seq<string>>) returns (b: CrashReportBuilder)
      modifies this
      ensures b == this
      ensures report == old(report).(details := old(report).details.(tags := tags))
    {
      report := report.(details := report.details.(tags := tags));
      b := this;
    }

    method SetUserInfo(user: RaygunUserInfo?) returns (b: CrashReportBuilder)
      modifies this
      ensures b == this
      ensures report == old(report).(details := old(report).details.(user := user))
    {
      report := report.(details := report.details.(user := user));
      b := this;
    }

    method SetVersion(version: Option<string>) returns (b: CrashReportBuilder)
      modifies this
      ensures b == this
      ensures report == old(report).(details := old(report).details.(version := version))
    {
      report := report.(details := report.details.(version := version));
      b := this;
    }

    method SetOccurredOn(occurredOn: int) returns (b: CrashReportBuilder)
      modifies this
      ensures b == this
      ensures report == old(report).(occurredOn := occurredOn)
    {
      report := report.(occurredOn := occurredOn);
      b := this;
    }

    method SetBreadcrumbs(breadcrumbs: Option<seq<Breadcrumb>>) returns (b: CrashReportBuilder)
      modifies this
      ensures b == this
      ensures report == old(report).(details := old(report).details.(breadcrumbs := breadcrumbs))
    {
      report := report.(details := report.details.(breadcrumbs := breadcrumbs));
      b := this;
    }
  }
}
