/**
 The A4 print/preview renderer (components/ReportPrintTemplate.tsx), with its
 output modelled as an abstract document: which layout was chosen, its title,
 its header line, its labelled cells in reading order, and the photo
 appendix. Styling and markup are not modelled.
 */
module PrintTemplate {
  import opened Types
  import opened Strings

  // ---------------------------------------------------------------------------
  // the date line
  // ---------------------------------------------------------------------------

  /** `parts[k] || placeholder` */
  function Segment(parts: seq<string>, k: nat, placeholder: string): (s: string)
    ensures k < |parts| && parts[k] != "" ==> s == parts[k]
    ensures (k >= |parts| || parts[k] == "") ==> s == placeholder
  {
    if k < |parts| then OrElse(parts[k], placeholder) else placeholder
  }

  /** `dateStr`: the `-`-separated year, month and day reassembled as
      `年/月/日`, each missing or empty segment replaced by its placeholder. */
  function FormatDate(date: string): string
  {
    var parts := Split(date, '-');
    Segment(parts, 0, "202X") + "年" + Segment(parts, 1, "XX") + "月" + Segment(parts, 2, "XX") + "日"
  }

  /** Whatever segments a date string is made of, the formatter shows the
      first three (each degraded to its placeholder on its own when absent or
      empty) and ignores the rest. */
  lemma FormatDateOfSegments(parts: seq<string>)
    requires |parts| >= 1
    requires forall i :: 0 <= i < |parts| ==> '-' !in parts[i]
    ensures FormatDate(Join(parts, '-')) ==
      Segment(parts, 0, "202X") + "年" + Segment(parts, 1, "XX") + "月" + Segment(parts, 2, "XX") + "日"
  {
    SplitJoin(parts, '-');
  }

  /** Every date string is the `-`-join of separator-free segments (its own
      split), so the description above covers every input. */
  lemma EveryDateHasSegments(date: string)
    ensures exists parts: seq<string> ::
      && |parts| >= 1
      && (forall i :: 0 <= i < |parts| ==> '-' !in parts[i])
      && Join(parts, '-') == date
  {
    JoinSplit(date, '-');
    var parts := Split(date, '-');
    assert Join(parts, '-') == date;
  }

  /** A well-formed `YYYY-MM-DD` date is shown as `YYYY年MM月DD日`. */
  lemma FormatDateWellFormed(y: string, m: string, d: string)
    requires y != "" && m != "" && d != ""
    requires '-' !in y && '-' !in m && '-' !in d
    ensures FormatDate(y + "-" + m + "-" + d) == y + "年" + m + "月" + d + "日"
  {
    var parts := [y, m, d];
    assert Join(parts, '-') == y + "-" + m + "-" + d by {
      assert parts[1..] == [m, d];
      assert [m, d][1..] == [d];
      assert Join([d], '-') == d;
      assert Join([m, d], '-') == m + ['-'] + d;
      assert Join(parts, '-') == y + ['-'] + (m + ['-'] + d);
    }
    FormatDateOfSegments(parts);
  }

  /** The worked cases: a full date, an empty one, and a year alone. */
  lemma FormatDateFullExample()
    ensures FormatDate("2025-03-07") == "2025年03月07日"
  {
    var y, m, d := "2025", "03", "07";
    assert y + "-" + m + "-" + d == "2025-03-07";
    FormatDateWellFormed(y, m, d);
    assert y + "年" + m + "月" + d + "日" == "2025年03月07日";
  }

  lemma FormatDateEmptyExample()
    ensures FormatDate("") == "202X年XX月XX日"
  {
  }

  lemma FormatDateYearOnlyExample()
    ensures FormatDate("2025") == "2025年XX月XX日"
  {
  }

  // ---------------------------------------------------------------------------
  // the document
  // ---------------------------------------------------------------------------

  /** The eleven layouts: ten dedicated ones and the generic fallback. */
  datatype Layout =
    | DailyLogLayout
    | SideStationLayout
    | NoticeLayout
    | SafetyInspectionLayout
    | SupervisionRulesLayout
    | MonthlyLayout
    | ExpenseLayout
    | MinutesLayout
    | MajorEventLayout
    | DangerousWorkLayout
    | GenericLayout

  /** A fixed heading, or (in the generic layout) the report type's own name. */
  datatype Title = Heading(text: string) | TypeName(reportType: ReportType)

  datatype Header =
    | TableHeader(projectName: string, date: string)     // 项目名称 / 日期
    | EventHeader(category: string, reportTime: string)  // 类型 / 报告时间
    | MonthHeader(year: string, month: string)           // (YYYY年MM月)
    | DateAuthorLine(date: string, author: string)       // 日期 / 填报人
    | NoHeader

  /** A cell's content: text, the amount field (shown through number
      formatting), the names of the attached files, or `a / b`. */
  datatype Value =
    | Text(text: string)
    | Amount(raw: string)
    | FileNames(names: seq<string>)
    | Slash(left: string, right: string)

  /** The printed label of a cell (the label column of a table row, or the
      heading above a block of text). `FreeText` is the unlabelled free text of
      the generic layout. */
  datatype Label =
    | WeatherTemp
    | Recorder
    | ProgressRecord
    | SupervisionRecord
    | KeyPart
    | Contractor
    | StartTime
    | EndTime
    | ProcessDetail
    | SideStationSupervisor
    | Addressee
    | Subject
    | ProblemFacts
    | Instructions
    | EngineerSignature
    | Recipient
    | InspectedPart
    | Hazards
    | SafetyInstructions
    | Inspector
    | Recheck
    | RuleTitle
    | RuleCategory
    | RuleSummary
    | Attachments
    | Compiler
    | ChiefOpinion
    | ProgressSummary
    | QualitySummary
    | SafetySummary
    | NextPlan
    | SupervisionDepartment
    | ChiefEngineer
    | Claimant
    | ExpenseCategory
    | AmountFigures
    | AmountWords
    | ExpenseReason
    | DepartmentReview
    | FinanceReview
    | ChiefApproval
    | MeetingTitle
    | Host
    | Attendees
    | Resolutions
    | EventDescription
    | EmergencyActions
    | Reporter
    | PartName
    | HazardLevel
    | PatrolFindings
    | MonitoringOpinion
    | FreeText

  /** The printed text of a label; only the free text prints none. */
  function LabelText(l: Label): (t: string)
    ensures t == "" <==> l == FreeText
  {
    match l
    case WeatherTemp => "天气/温度"
    case Recorder => "记录人"
    case ProgressRecord => "一、施工进展记录 (部位、人员、机具、进度)："
    case SupervisionRecord => "二、监理工作记录 (巡视、验收、质量控制)："
    case KeyPart => "旁站部位"
    case Contractor => "施工单位"
    case StartTime => "开始时间"
    case EndTime => "结束时间"
    case ProcessDetail => "旁站过程详细记录及质量控制结果："
    case SideStationSupervisor => "旁站监理人员"
    case Addressee => "主送单位"
    case Subject => "事由"
    case ProblemFacts => "存在问题事实描述："
    case Instructions => "监理指令及整改要求："
    case EngineerSignature => "专业监理工程师"
    case Recipient => "签收人"
    case InspectedPart => "检查部位"
    case Hazards => "现场安全隐患情况："
    case SafetyInstructions => "安全监理处置指令："
    case Inspector => "巡视人"
    case Recheck => "复查情况"
    case RuleTitle => "细则名称"
    case RuleCategory => "专业类别"
    case RuleSummary => "编制摘要及说明："
    case Attachments => "上报附件"
    case Compiler => "编制人"
    case ChiefOpinion => "总监审批意见"
    case ProgressSummary => "1. 工程进度情况总结"
    case QualitySummary => "2. 工程质量情况总结"
    case SafetySummary => "3. 安全生产总结"
    case NextPlan => "4. 下月监理计划"
    case SupervisionDepartment => "项目监理部"
    case ChiefEngineer => "总监理工程师"
    case Claimant => "报销人"
    case ExpenseCategory => "报销类别"
    case AmountFigures => "金额(小写)"
    case AmountWords => "金额(大写)"
    case ExpenseReason => "报销事由及费用明细说明："
    case DepartmentReview => "部门审核"
    case FinanceReview => "财务复核"
    case ChiefApproval => "总监批准"
    case MeetingTitle => "会议主题"
    case Host => "主持人"
    case Attendees => "参加单位人员"
    case Resolutions => "会议内容及形成的决议："
    case EventDescription => "一、事件详细经过描述："
    case EmergencyActions => "二、现场应急处置措施："
    case Reporter => "报告人"
    case PartName => "部位名称"
    case HazardLevel => "风险等级"
    case PatrolFindings => "专项巡视主要内容及发现问题："
    case MonitoringOpinion => "监理监控意见："
    case FreeText => ""
  }

  datatype Cell = Cell(caption: Label, value: Value)

  function CellLabels(cells: seq<Cell>): (labels: seq<Label>)
    ensures |labels| == |cells|
    ensures forall i :: 0 <= i < |cells| ==> labels[i] == cells[i].caption
  {
    seq(|cells|, i requires 0 <= i < |cells| => cells[i].caption)
  }

  datatype Body = Body(layout: Layout, title: Title, header: Header, cells: seq<Cell>)

  datatype Photo = Photo(image: string, caption: string)

  datatype Document = Document(body: Body, appendix: Option<seq<Photo>>)

  // ---------------------------------------------------------------------------
  // placeholders and captions
  // ---------------------------------------------------------------------------

  const ShortPlaceholder := "--"
  const NonePlaceholder := "无"
  const NoRecordPlaceholder := "无详细记录"
  const SignatureLine := "__________________"
  const ShortSignatureLine := "_________"
  const PhotoCaptionPrefix := "现场照片 "

  /** `d[key] || placeholder` */
  function FieldOr(d: Details, key: string, placeholder: string): (v: string)
    ensures key in d.fields && d.fields[key] != "" ==> v == d.fields[key]
    ensures (key !in d.fields || d.fields[key] == "") ==> v == placeholder
  {
    OrElse(Field(d, key), placeholder)
  }

  /** `d.reportMonth?.split('-')[k]`: nothing when the month or the segment
      is missing. */
  function MonthPart(d: Details, k: nat): string
  {
    if "reportMonth" in d.fields then
      var parts := Split(d.fields["reportMonth"], '-');
      if k < |parts| then parts[k] else ""
    else ""
  }

  function PhotoCaption(n: nat): string
  {
    PhotoCaptionPrefix + NatToString(n)
  }

  /** `renderPhotos`: nothing without images; otherwise one captioned entry
      per image, numbered from 1. */
  function Appendix(images: seq<string>): (a: Option<seq<Photo>>)
    ensures a.None? <==> |images| == 0
    ensures a.Some? ==> |a.value| == |images|
    ensures a.Some? ==> forall k :: 0 <= k < |images| ==>
      a.value[k].image == images[k] && a.value[k].caption == PhotoCaption(k + 1)
  {
    if |images| == 0 then None
    else Some(seq(|images|, k requires 0 <= k < |images| => Photo(images[k], PhotoCaption(k + 1))))
  }

  /** No two photos share a caption. */
  lemma PhotoCaptionsDistinct(m: nat, n: nat)
    requires m != n
    ensures PhotoCaption(m) != PhotoCaption(n)
  {
    NatToStringInjective(m, n);
    var p := PhotoCaptionPrefix;
    assert PhotoCaption(m)[|p|..] == NatToString(m);
    assert PhotoCaption(n)[|p|..] == NatToString(n);
  }

  // ---------------------------------------------------------------------------
  // layout dispatch
  // ---------------------------------------------------------------------------

  /** The report types with a layout of their own. */
  predicate HasDedicatedLayout(t: ReportType)
  {
    t in {DailyLog, SideStation, Notice, SafetyInspection, SupervisionRules,
          Monthly, ExpenseReimbursement, Minutes, MajorEvent, DangerousWork}
  }

  /** The label column of each layout, in reading order: the printed form
      every report of that layout shares. */
  function FormLabels(layout: Layout): seq<Label>
  {
    match layout
    case DailyLogLayout => [WeatherTemp, Recorder, ProgressRecord, SupervisionRecord]
    case SideStationLayout => [KeyPart, Contractor, StartTime, EndTime, ProcessDetail, SideStationSupervisor]
    case NoticeLayout => [Addressee, Subject, ProblemFacts, Instructions, EngineerSignature, Recipient]
    case SafetyInspectionLayout => [InspectedPart, Hazards, SafetyInstructions, Inspector, Recheck]
    case SupervisionRulesLayout => [RuleTitle, RuleCategory, RuleSummary, Attachments, Compiler, ChiefOpinion]
    case MonthlyLayout => [ProgressSummary, QualitySummary, SafetySummary, NextPlan, SupervisionDepartment, ChiefEngineer]
    case ExpenseLayout => [Claimant, ExpenseCategory, AmountFigures, AmountWords, ExpenseReason,
                           DepartmentReview, FinanceReview, ChiefApproval]
    case MinutesLayout => [MeetingTitle, Host, Recorder, Attendees, Resolutions]
    case MajorEventLayout => [EventDescription, EmergencyActions, Reporter]
    case DangerousWorkLayout => [PartName, HazardLevel, PatrolFindings, MonitoringOpinion]
    case GenericLayout => [FreeText]
  }

  /** Every cell of a dedicated form prints a label; only the generic
      layout's free text has none. */
  lemma OnlyGenericCellsUnlabelled(layout: Layout, i: nat)
    requires i < |FormLabels(layout)|
    ensures LabelText(FormLabels(layout)[i]) == "" <==> layout == GenericLayout
  {
    var l := FormLabels(layout)[i];
    if layout == GenericLayout {
      assert l == FreeText;
    } else {
      assert l != FreeText;
    }
  }

  /** A filled-in form: each label of the layout beside its value. */
  function Form(layout: Layout, values: seq<Value>): (cells: seq<Cell>)
    requires |values| == |FormLabels(layout)|
    ensures CellLabels(cells) == FormLabels(layout)
    ensures |cells| == |values| && forall i :: 0 <= i < |cells| ==> cells[i].value == values[i]
  {
    var labels := FormLabels(layout);
    seq(|labels|, i requires 0 <= i < |labels| => Cell(labels[i], values[i]))
  }

  // One function per layout. `author` is the report's author, `dateStr` the
  // formatted date and `projectName` what the shared header shows.

  function DailyLogBody(d: Details, author: string, dateStr: string, projectName: string): Body
  {
    Body(DailyLogLayout, Heading("监 理 日 志"), TableHeader(projectName, dateStr), Form(DailyLogLayout, [
      Slash(FieldOr(d, "weather", ShortPlaceholder), FieldOr(d, "temp", ShortPlaceholder)),
      Text(author),
      Text(FieldOr(d, "progress", NonePlaceholder)),
      Text(FieldOr(d, "supervision", NonePlaceholder))]))
  }

  function SideStationBody(d: Details, author: string, dateStr: string, projectName: string): Body
  {
    Body(SideStationLayout, Heading("旁 站 监 理 记 录"), TableHeader(projectName, dateStr), Form(SideStationLayout, [
      Text(Field(d, "keyPart")),
      Text(Field(d, "contractor")),
      Text(FieldOr(d, "startTime", ShortPlaceholder)),
      Text(FieldOr(d, "endTime", ShortPlaceholder)),
      Text(Field(d, "processDetail")),
      Text(author)]))
  }

  function NoticeBody(d: Details, author: string, dateStr: string, projectName: string): Body
  {
    Body(NoticeLayout, Heading("监 理 通 知 单"), TableHeader(projectName, dateStr), Form(NoticeLayout, [
      Text(Field(d, "contractor")),
      Text(Field(d, "noticeTitle")),
      Text(Field(d, "findings")),
      Text(Field(d, "requirements")),
      Text(author),
      Text("")]))
  }

  function SafetyInspectionBody(d: Details, author: string, dateStr: string, projectName: string): Body
  {
    Body(SafetyInspectionLayout, Heading("安全监理巡视记录表"), TableHeader(projectName, dateStr), Form(SafetyInspectionLayout, [
      Text(Field(d, "focus")),
      Text(Field(d, "findings")),
      Text(Field(d, "requirements")),
      Text(author),
      Text("待复查")]))
  }

  function SupervisionRulesBody(d: Details, author: string, dateStr: string, projectName: string): Body
  {
    Body(SupervisionRulesLayout, Heading("监理实施细则报审单"), TableHeader(projectName, dateStr), Form(SupervisionRulesLayout, [
      Text(Field(d, "ruleTitle")),
      Text(Field(d, "ruleCategory")),
      Text(Field(d, "description")),
      FileNames(seq(|d.files|, i requires 0 <= i < |d.files| => d.files[i].name)),
      Text(author),
      Text(SignatureLine)]))
  }

  function MonthlyBody(d: Details): Body
  {
    Body(MonthlyLayout, Heading("监 理 月 报"), MonthHeader(MonthPart(d, 0), MonthPart(d, 1)), Form(MonthlyLayout, [
      Text(Field(d, "progressSummary")),
      Text(Field(d, "qualitySummary")),
      Text(Field(d, "safetySummary")),
      Text(Field(d, "nextPlan")),
      Text(SignatureLine),
      Text(SignatureLine)]))
  }

  function ExpenseBody(d: Details, author: string): Body
  {
    Body(ExpenseLayout, Heading("费用报销申请单"), NoHeader, Form(ExpenseLayout, [
      Text(author),
      Text(Field(d, "category")),
      Amount(Field(d, "amount")),
      Text("人民币：整"),
      Text(Field(d, "reimbursementDesc")),
      Text(ShortSignatureLine),
      Text(ShortSignatureLine),
      Text(ShortSignatureLine)]))
  }

  function MinutesBody(d: Details, dateStr: string, projectName: string): Body
  {
    Body(MinutesLayout, Heading("会 议 纪 要"), TableHeader(projectName, dateStr), Form(MinutesLayout, [
      Text(Field(d, "meetingTitle")),
      Text(Field(d, "host")),
      Text(Field(d, "recorder")),
      Text(Field(d, "attendees")),
      Text(Field(d, "minutesBody"))]))
  }

  function MajorEventBody(d: Details, author: string, dateStr: string): Body
  {
    Body(MajorEventLayout, Heading("重大事项直报单"), EventHeader(Field(d, "eventCategory"), dateStr), Form(MajorEventLayout, [
      Text(Field(d, "eventDesc")),
      Text(Field(d, "actionsTaken")),
      Text(author)]))
  }

  function DangerousWorkBody(d: Details, dateStr: string, projectName: string): Body
  {
    Body(DangerousWorkLayout, Heading("危大工程专项巡视记录"), TableHeader(projectName, dateStr), Form(DangerousWorkLayout, [
      Text(Field(d, "partName")),
      Text(Field(d, "hazardLevel")),
      Text(Field(d, "findings")),
      Text(Field(d, "actions"))]))
  }

  /** The `default` branch: the type's own name, date and author, free text. */
  function GenericBody(r: Report, dateStr: string): Body
  {
    Body(GenericLayout, TypeName(r.reportType), DateAuthorLine(dateStr, r.authorName), Form(GenericLayout, [
      Text(OrElse(r.content, NoRecordPlaceholder))]))
  }

  /** `renderTableContent`: the switch over the report type. */
  function RenderBody(r: Report, d: Details, dateStr: string, projectName: string): Body
  {
    var author := r.authorName;
    match r.reportType
    case DailyLog => DailyLogBody(d, author, dateStr, projectName)
    case SideStation => SideStationBody(d, author, dateStr, projectName)
    case Notice => NoticeBody(d, author, dateStr, projectName)
    case SafetyInspection => SafetyInspectionBody(d, author, dateStr, projectName)
    case SupervisionRules => SupervisionRulesBody(d, author, dateStr, projectName)
    case Monthly => MonthlyBody(d)
    case ExpenseReimbursement => ExpenseBody(d, author)
    case Minutes => MinutesBody(d, dateStr, projectName)
    case MajorEvent => MajorEventBody(d, author, dateStr)
    case DangerousWork => DangerousWorkBody(d, dateStr, projectName)
    case _ => GenericBody(r, dateStr)
  }

  /** `details || {}` */
  function DetailsOf(r: Report): (d: Details)
    ensures r.details.Some? ==> d == r.details.value
    ensures r.details.None? ==> d == EmptyDetails
  {
    match r.details
    case Some(x) => x
    case None => EmptyDetails
  }

  /** The project name the header shows: nothing when it is not supplied. */
  function ShownName(projectName: Option<string>): (n: string)
    ensures projectName.Some? ==> n == projectName.value
    ensures projectName.None? ==> n == ""
  {
    match projectName
    case Some(n) => n
    case None => ""
  }

  /** `ReportPrintTemplate`: absent details read as an empty map; the body is
      the type's layout, followed by the photo appendix. */
  function Render(r: Report, projectName: Option<string>): (doc: Document)
    ensures doc.appendix.None? <==> (r.details.None? || |r.details.value.images| == 0)
  {
    var d := DetailsOf(r);
    Document(RenderBody(r, d, FormatDate(r.date), ShownName(projectName)), Appendix(d.images))
  }

  /** The body of a rendered document, in terms of its inputs. */
  lemma RenderedBody(r: Report, projectName: Option<string>)
    ensures Render(r, projectName).body ==
      RenderBody(r, DetailsOf(r), FormatDate(r.date), ShownName(projectName))
  {
  }

  /** Rendering is total: a report without details renders exactly like one
      with empty details. */
  lemma RenderAbsentDetails(r: Report, projectName: Option<string>)
    requires r.details.None?
    ensures Render(r, projectName) == Render(r.(details := Some(EmptyDetails)), projectName)
  {
  }

  // ---------------------------------------------------------------------------
  // properties of the dispatch
  // ---------------------------------------------------------------------------

  /** The form each report type is printed on. */
  function LayoutFor(t: ReportType): Layout
  {
    match t
    case DailyLog => DailyLogLayout
    case SideStation => SideStationLayout
    case Notice => NoticeLayout
    case SafetyInspection => SafetyInspectionLayout
    case SupervisionRules => SupervisionRulesLayout
    case Monthly => MonthlyLayout
    case ExpenseReimbursement => ExpenseLayout
    case Minutes => MinutesLayout
    case MajorEvent => MajorEventLayout
    case DangerousWork => DangerousWorkLayout
    case _ => GenericLayout
  }

  /** The dispatch picks the type's form whatever was filled in. */
  lemma RenderBodyLayout(r: Report, d: Details, dateStr: string, projectName: string)
    ensures RenderBody(r, d, dateStr, projectName).layout == LayoutFor(r.reportType)
  {
  }

  /** Exactly the ten listed types get a dedicated layout; every other type
      gets the generic one: its own name as title, the date and author line,
      and the free text (or "no detailed record"). */
  lemma GenericLayoutExactlyForOtherTypes(r: Report, d: Details, dateStr: string, projectName: string)
    ensures var b := RenderBody(r, d, dateStr, projectName);
      b.layout == GenericLayout <==> !HasDedicatedLayout(r.reportType)
    ensures var b := RenderBody(r, d, dateStr, projectName);
      !HasDedicatedLayout(r.reportType) ==>
        && b.title == TypeName(r.reportType)
        && b.header == DateAuthorLine(dateStr, r.authorName)
        && b.cells == [Cell(FreeText, Text(if r.content != "" then r.content else NoRecordPlaceholder))]
  {
  }

  /** Distinct dedicated types get distinct layouts. */
  lemma DedicatedLayoutsDistinct(r1: Report, r2: Report, d1: Details, d2: Details,
                                 s1: string, s2: string, n1: string, n2: string)
    requires HasDedicatedLayout(r1.reportType) && HasDedicatedLayout(r2.reportType)
    requires r1.reportType != r2.reportType
    ensures RenderBody(r1, d1, s1, n1).layout != RenderBody(r2, d2, s2, n2).layout
  {
    RenderBodyLayout(r1, d1, s1, n1);
    RenderBodyLayout(r2, d2, s2, n2);
  }

  /** The form of a layout (layout, title and cell labels) depends on the report
      type alone, never on what was filled in. */
  lemma LabelsDependOnTypeOnly(r1: Report, r2: Report, d1: Details, d2: Details,
                               s1: string, s2: string, n1: string, n2: string)
    requires r1.reportType == r2.reportType
    ensures var b1 := RenderBody(r1, d1, s1, n1); var b2 := RenderBody(r2, d2, s2, n2);
      && b1.layout == b2.layout && b1.title == b2.title
      && CellLabels(b1.cells) == CellLabels(b2.cells)
  {
    match r1.reportType
    case DailyLog =>
    case SideStation =>
    case Witness =>
    case Notice =>
    case Minutes =>
    case Monthly =>
    case MajorEvent =>
    case DangerousWork =>
    case ChiefInspection =>
    case ExpenseReimbursement =>
    case SafetyInspection =>
    case SafetyLog =>
    case JointSafetyCheck =>
    case SupervisionRules =>
  }

  /** The header of each layout, in terms of the formatted date and the
      shown project name. */
  lemma RenderBodyHeader(r: Report, d: Details, dateStr: string, projectName: string)
    ensures var h := RenderBody(r, d, dateStr, projectName).header;
      h.TableHeader? <==>
        r.reportType in {DailyLog, SideStation, Notice, SafetyInspection, SupervisionRules, Minutes, DangerousWork}
    ensures var h := RenderBody(r, d, dateStr, projectName).header;
      h.TableHeader? ==> h.date == dateStr && h.projectName == projectName
    ensures r.reportType == MajorEvent ==>
      RenderBody(r, d, dateStr, projectName).header == EventHeader(Field(d, "eventCategory"), dateStr)
  {
  }

  /** Layouts with the shared header show the supplied project name and the
      formatted date; the major-event layout shows that date as its report
      time. */
  lemma HeadersShowProjectAndDate(r: Report, projectName: Option<string>)
    ensures var h := Render(r, projectName).body.header;
      h.TableHeader? <==>
        r.reportType in {DailyLog, SideStation, Notice, SafetyInspection, SupervisionRules, Minutes, DangerousWork}
    ensures var h := Render(r, projectName).body.header;
      h.TableHeader? ==>
        h.date == FormatDate(r.date) &&
        h.projectName == (if projectName.Some? then projectName.value else "")
    ensures r.reportType == MajorEvent ==>
      Render(r, projectName).body.header.EventHeader? &&
      Render(r, projectName).body.header.reportTime == FormatDate(r.date)
  {
    RenderedBody(r, projectName);
    RenderBodyHeader(r, DetailsOf(r), FormatDate(r.date), ShownName(projectName));
  }

  /** `d[key] || placeholder` on one field: the field when it is filled in,
      the placeholder when it is absent or empty. */
  predicate ShowsOr(shown: string, d: Details, key: string, placeholder: string)
  {
    && (Field(d, key) == "" ==> shown == placeholder)
    && (Field(d, key) != "" ==> shown == Field(d, key))
  }

  /** The daily log's short and long fields fall back one by one. */
  lemma DailyLogPlaceholders(r: Report, d: Details, dateStr: string, projectName: string)
    requires r.reportType == DailyLog
    ensures var c := RenderBody(r, d, dateStr, projectName).cells;
      && |c| == 4 && c[0].value.Slash? && c[2].value.Text? && c[3].value.Text?
      && ShowsOr(c[0].value.left, d, "weather", ShortPlaceholder)
      && ShowsOr(c[0].value.right, d, "temp", ShortPlaceholder)
      && ShowsOr(c[2].value.text, d, "progress", NonePlaceholder)
      && ShowsOr(c[3].value.text, d, "supervision", NonePlaceholder)
  {
  }

  /** The side-station record's start and end time fall back one by one. */
  lemma SideStationPlaceholders(r: Report, d: Details, dateStr: string, projectName: string)
    requires r.reportType == SideStation
    ensures var c := RenderBody(r, d, dateStr, projectName).cells;
      && |c| == 6 && c[2].value.Text? && c[3].value.Text?
      && ShowsOr(c[2].value.text, d, "startTime", ShortPlaceholder)
      && ShowsOr(c[3].value.text, d, "endTime", ShortPlaceholder)
  {
  }

  /** Each missing short field shows `--` and a missing daily-log progress or
      supervision record shows `无`, field by field: a missing field gets its
      placeholder whatever the other fields hold, and a filled-in one is
      shown as it is. */
  lemma PlaceholdersForMissingFields(r: Report, projectName: Option<string>)
    ensures r.reportType == DailyLog ==>
      var d := DetailsOf(r); var c := Render(r, projectName).body.cells;
      && |c| == 4 && c[0].value.Slash? && c[2].value.Text? && c[3].value.Text?
      && ShowsOr(c[0].value.left, d, "weather", ShortPlaceholder)
      && ShowsOr(c[0].value.right, d, "temp", ShortPlaceholder)
      && ShowsOr(c[2].value.text, d, "progress", NonePlaceholder)
      && ShowsOr(c[3].value.text, d, "supervision", NonePlaceholder)
    ensures r.reportType == SideStation ==>
      var d := DetailsOf(r); var c := Render(r, projectName).body.cells;
      && |c| == 6 && c[2].value.Text? && c[3].value.Text?
      && ShowsOr(c[2].value.text, d, "startTime", ShortPlaceholder)
      && ShowsOr(c[3].value.text, d, "endTime", ShortPlaceholder)
  {
    RenderedBody(r, projectName);
    var d, dateStr, name := DetailsOf(r), FormatDate(r.date), ShownName(projectName);
    if r.reportType == DailyLog {
      DailyLogPlaceholders(r, d, dateStr, name);
    } else if r.reportType == SideStation {
      SideStationPlaceholders(r, d, dateStr, name);
    }
  }

  /** The appendix holds one photo per image, in order, captioned 现场照片 1,
      现场照片 2, ..., and no caption repeats. */
  lemma AppendixCaptions(r: Report, projectName: Option<string>, k: nat, j: nat)
    requires r.details.Some?
    requires k < |r.details.value.images| && j < |r.details.value.images| && k != j
    ensures var a := Render(r, projectName).appendix;
      && a.Some?
      && a.value[k] == Photo(r.details.value.images[k], PhotoCaptionPrefix + NatToString(k + 1))
      && a.value[k].caption != a.value[j].caption
  {
    PhotoCaptionsDistinct(k + 1, j + 1);
  }
}
