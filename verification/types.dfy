/**
 The records the views exchange. The repository's `types.ts` is not part of
 this model; the enumerations below are the variants the views and
 `constants.tsx` name, and the records hold the fields the views read.
 */
module Types {

  datatype Option<+T> = None | Some(value: T)

  /** The fourteen kinds of supervision document. */
  datatype ReportType =
    | DailyLog
    | SideStation
    | Witness
    | Notice
    | Minutes
    | Monthly
    | MajorEvent
    | DangerousWork
    | ChiefInspection
    | ExpenseReimbursement
    | SafetyInspection
    | SafetyLog
    | JointSafetyCheck
    | SupervisionRules

  /** Every report type, in the order the icon table lists them. */
  const AllReportTypes: seq<ReportType> := [
    DailyLog, SideStation, Witness, Notice, Minutes, Monthly, MajorEvent,
    DangerousWork, ChiefInspection, ExpenseReimbursement, SafetyInspection,
    SafetyLog, JointSafetyCheck, SupervisionRules
  ]

  /** Every report type appears in the list. */
  lemma AllReportTypesComplete(t: ReportType)
    ensures t in AllReportTypes
  {
  }

  datatype UserRole = Assistant | Engineer | Chief | Leader

  datatype ReportStatus = Pending | Approved | Rejected

  /** An attached document: name, size, MIME type and data URL. */
  datatype FileMeta = FileMeta(name: string, size: int, mimeType: string, data: string)

  /** The type-specific payload of a report. `fields` holds the text entries
      (a key that is absent is `undefined`); `images` and `files` are the
      attachment lists, whose absence every reader treats like emptiness. */
  datatype Details = Details(fields: map<string, string>, images: seq<string>, files: seq<FileMeta>)

  /** `{ images: [], files: [] }` */
  const EmptyDetails := Details(map[], [], [])

  /** `details[key]` rendered as text: `undefined` renders as nothing. */
  function Field(d: Details, key: string): (v: string)
    ensures key in d.fields ==> v == d.fields[key]
    ensures key !in d.fields ==> v == ""
  {
    if key in d.fields then d.fields[key] else ""
  }

  datatype Report = Report(
    id: string,
    reportType: ReportType,
    projectId: string,
    authorId: string,
    authorName: string,
    content: string,
    details: Option<Details>,
    date: string,
    status: ReportStatus,
    isImportant: bool,
    auditComment: Option<string>)

  datatype User = User(
    id: string,
    name: string,
    username: string,
    password: string,
    role: UserRole,
    projectId: Option<string>)

  datatype ProjectStatus = InProgress | Completed

  datatype Project = Project(id: string, name: string, location: string, status: ProjectStatus)

  datatype Announcement = Announcement(
    id: string,
    title: string,
    content: string,
    images: seq<string>,
    publishDate: string,
    author: string)

  /** One clock event. `kind` is `CLOCK_IN` or another marker; `time` is a
      lexically sortable timestamp string. */
  datatype AttendanceRecord = AttendanceRecord(
    userId: string,
    userName: string,
    projectId: string,
    time: string,
    kind: string,
    location: string)
}
