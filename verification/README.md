# CHENGHUI supervision platform — a verified model of its core rules

CHENGHUI is a mobile web application for a construction-supervision company.
Field staff (assistants, specialist engineers, chief engineers) file
supervision reports of fourteen types. Chiefs review the pending ones.
Reports print as A4 forms. The company's leaders administer projects, staff
and announcements, and watch a live attendance board.

This project models in Dafny the deterministic rules inside that UI code and
proves properties about them:

- `FieldWork` (`field_work.dfy`): the report console. It covers which role
  may write which report type, the initial tab, the editor operations (open,
  set a field, apply an AI draft, add or remove attachments) and how a
  submitted report is assembled. It also covers the review queue and the
  approve/reject decisions.
- `PrintTemplate` (`print_template.dfy`): the print/preview renderer. A
  report becomes an abstract document: a layout, a title, a header, labelled
  cells and a captioned photo appendix. It includes the tolerant
  `年/月/日` date formatter.
- `Attendance` (`attendance.dfy`): the administrator's attendance monitor.
  It groups today's clock-in records by project, counts distinct people
  present and assigned staff, sorts rows by presence, computes the progress
  bar ratio, and finds each person's first and latest record.
- `AdminConsole` (`admin_console.dfy`): the administrator's list
  maintenance. Saving a project or a person edits in place or prepends.
  Announcements are published, deleted by id, and their photos edited. The
  leader decides on important reports.
- `Dashboard` (`dashboard.dfy`): the home screen. It shows the three latest
  announcements and the role-dependent quick actions, and dispatches clicks.
- Supporting modules:
  - `Types` (`types.dfy`): the records and enumerations.
  - `Strings` (`strings.dfy`): JavaScript's `||` on strings, `split`/`join`,
    `startsWith`, code-point order and decimal rendering.
  - `Seqs` (`seqs.dfy`): `filter`, index removal, and insertion-ordered sets.
  - `Sorting` (`sorting.dfy`): `Array.prototype.sort` with a comparator,
    modelled as a stable insertion sort, with sortedness and stability proved
    for strict weak orders.

The clock, generated ids, remote writes, confirmation dialogs and the parsing
of dates into timestamps are parameters of the operations that use them
(`today`, `freshId`, `writeOk`, `confirmed`, `dateOf`).

## Model

| member | source | states |
|---|---|---|
| FieldWork.WritableTypesByRole | views/FieldWork.tsx:31-52 | an assistant may write exactly daily log, safety log, safety inspection, side station and witness; an engineer everything but expense reimbursement and chief inspection; a chief everything but supervision rules; a leader everything |
| FieldWork.CanWriteMonotone | views/FieldWork.tsx:31-52 | whatever an assistant may write, an engineer, a chief and a leader may write too |
| FieldWork.WritableTiles | views/FieldWork.tsx:532 | the write tab offers a tile for a type exactly when the role may write it |
| FieldWork.InitialTabShown | views/FieldWork.tsx:26 | the console opens on the review tab exactly for a chief, and always on a tab whose button the role sees (the review button of lines 524-526 is shown to chiefs and leaders only): a leader can switch to the review list but starts on the tiles, the other roles never see it |
| FieldWork.OpenThenSubmit | views/FieldWork.tsx:128-145 | a form opened from a tile (line 533: the type set, empty details and content, preview off) and submitted at once files a PENDING report of that type with empty details and content "详见附件", important exactly for the four important types, and leaves the editor closed on a cleared form |
| FieldWork.UpdateDetail | views/FieldWork.tsx:86-88 | setting a field changes that key only; other keys, attachments, content and type are kept |
| FieldWork.AssistFieldTableTotal | views/FieldWork.tsx:60-75 | the AI draft table has a non-empty target field for every one of the fourteen report types |
| FieldWork.ApplyDraft | views/FieldWork.tsx:54-84 | with no type chosen the editor is unchanged; the type and visibility never change |
| FieldWork.ApplyDraftLandsInField | views/FieldWork.tsx:60-82 | a draft always lands in the type's target field, other fields and the free text stay as they were |
| FieldWork.AppendPhoto | views/FieldWork.tsx:96-99 | a finished image read appends exactly one data URL; fields, documents and content are kept |
| FieldWork.AppendFile | views/FieldWork.tsx:111-114 | a finished document read appends exactly one file description; fields, images and content are kept |
| FieldWork.RemovePhoto | views/FieldWork.tsx:120-122 | only position `index` is removed and the rest keep their order; an out-of-range index changes nothing; other details are kept |
| FieldWork.RemoveFile | views/FieldWork.tsx:124-126 | the same removal rule for documents |
| FieldWork.FirstNonEmpty | views/FieldWork.tsx:136 | reference definition of a chain of `||`: the first non-empty candidate, else the fallback |
| FieldWork.SubmittedContentPriority | views/FieldWork.tsx:136 | the submitted content is the first non-empty of content, description, progress and findings, else "详见附件"; it is never empty and non-empty content wins |
| FieldWork.ReportProjectId | views/FieldWork.tsx:133 | the author's project when it is set and non-empty, otherwise "P001" |
| FieldWork.Submit | views/FieldWork.tsx:128-145 | with no type chosen nothing is submitted and the editor is unchanged; otherwise one PENDING report of that type is built, its content the first non-empty of the free text, description, progress and findings (else "详见附件"), important exactly for major event, dangerous work, notice and supervision rules, with the details passed through, and the editor is closed and cleared |
| FieldWork.ReviewQueue | views/FieldWork.tsx:543 | the review list holds exactly the pending reports |
| FieldWork.ReviewQueueOrder | views/FieldWork.tsx:543 | the review list keeps input order: the list of a concatenation is the concatenation of the lists |
| FieldWork.Approve | views/FieldWork.tsx:554 | approval sets the status to approved, takes the report out of the pending state and changes nothing else |
| FieldWork.Reject | views/FieldWork.tsx:657 | rejection sets the status to rejected and changes nothing else |
| FieldWork.DecisionLeavesQueue | views/FieldWork.tsx:657-658 | after a decision the report leaves the review list and the other entries keep their order |
| PrintTemplate.Segment | components/ReportPrintTemplate.tsx:19 | a date segment is shown when present and non-empty, otherwise its placeholder |
| PrintTemplate.FormatDateOfSegments | components/ReportPrintTemplate.tsx:18-19 | for any `-`-separated date the first three segments are shown, each replaced by 202X or XX when missing or empty, and further segments are ignored |
| PrintTemplate.EveryDateHasSegments | components/ReportPrintTemplate.tsx:18 | every date string is the `-`-join of separator-free segments, so the segment-wise description of the date line covers every input |
| PrintTemplate.FormatDateWellFormed | components/ReportPrintTemplate.tsx:18-19 | a date `y-m-d` with three non-empty segments is shown as `y年m月d日` |
| PrintTemplate.FormatDateFullExample | components/ReportPrintTemplate.tsx:18-19 | "2025-03-07" is shown as "2025年03月07日" |
| PrintTemplate.FormatDateEmptyExample | components/ReportPrintTemplate.tsx:18-19 | an empty date is shown as "202X年XX月XX日" |
| PrintTemplate.FormatDateYearOnlyExample | components/ReportPrintTemplate.tsx:18-19 | "2025" is shown as "2025年XX月XX日" |
| PrintTemplate.FieldOr | components/ReportPrintTemplate.tsx:61 | a details field is shown when present and non-empty, otherwise its placeholder |
| PrintTemplate.Appendix | components/ReportPrintTemplate.tsx:34-49 | the photo appendix is absent exactly when there are no images; otherwise one photo per image in order, the k-th captioned "现场照片 k+1" |
| PrintTemplate.PhotoCaptionsDistinct | components/ReportPrintTemplate.tsx:43 | no two photo numbers give the same caption |
| PrintTemplate.Render | components/ReportPrintTemplate.tsx:381-396 | the printed document has an appendix exactly when the report has images |
| PrintTemplate.RenderAbsentDetails | components/ReportPrintTemplate.tsx:13 | `details \|\| {}`: rendering is total, and a report without details renders exactly like one with empty details, photo appendix included |
| PrintTemplate.GenericLayoutExactlyForOtherTypes | components/ReportPrintTemplate.tsx:52-377 | the generic layout is used exactly for the four types without a dedicated one, and then shows the type name as title, the date, the author and the content or "无详细记录" |
| PrintTemplate.RenderBodyLayout | components/ReportPrintTemplate.tsx:52-377 | the layout a document uses is fixed by its report type through one type-to-layout table, whatever was filled in |
| PrintTemplate.DedicatedLayoutsDistinct | components/ReportPrintTemplate.tsx:52-369 | distinct types with a dedicated layout get distinct layouts |
| PrintTemplate.LabelsDependOnTypeOnly | components/ReportPrintTemplate.tsx:52-377 | the layout, title and cell labels of a document depend on the report type only, never on the report's data |
| PrintTemplate.OnlyGenericCellsUnlabelled | components/ReportPrintTemplate.tsx:52-377 | every cell of the ten dedicated forms prints a label; only the generic layout's free text has none |
| PrintTemplate.RenderBodyHeader | components/ReportPrintTemplate.tsx:21-29 | the shared table header appears exactly for its seven report types and carries the date and project name handed to the dispatch; the major-event form has its own header with the event category and date |
| PrintTemplate.HeadersShowProjectAndDate | components/ReportPrintTemplate.tsx:21-29 | the shared table header is used exactly by its seven layouts and shows the supplied project name (nothing when none is supplied) and the formatted date; the major-event form shows that date as its report time |
| PrintTemplate.DailyLogPlaceholders | components/ReportPrintTemplate.tsx:61-70 | in the daily log, weather and temperature each show `--` and progress and supervision each show 无 when that one field is absent or empty, whatever the others hold, and the field itself otherwise |
| PrintTemplate.SideStationPlaceholders | components/ReportPrintTemplate.tsx:92-94 | in the side-station record, start and end time each show `--` when that one field is absent or empty, and the field itself otherwise |
| PrintTemplate.PlaceholdersForMissingFields | components/ReportPrintTemplate.tsx:53-94 | the same field-by-field fallbacks hold for the rendered document of a report, its details read through `\|\| {}` |
| PrintTemplate.AppendixCaptions | components/ReportPrintTemplate.tsx:40-45 | in a rendered document the k-th photo holds the k-th image captioned "现场照片 k+1", and no two captions are equal |
| Attendance.TodayRecords | views/Admin.tsx:85 | a record is counted today exactly when its time starts with today's date |
| Attendance.ProjectRecords | views/Admin.tsx:86-88 | a project's bucket receives exactly the records of the day that name it, each as many times as it occurs among them |
| Attendance.ProjectRecordsInOrder | views/Admin.tsx:85-88 | the bucket keeps arrival order: the bucket of a concatenation is the concatenation of the buckets, and a single record goes in exactly when it names the project |
| Attendance.AssignedCount | views/Admin.tsx:80 | the assigned count is the number of users whose project is the project's id; so it is at most the number of users, and zero exactly when nobody is assigned |
| Attendance.LastIndexOf | views/Admin.tsx:74-82 | the data kept under a project id is that of the last project with that id |
| Attendance.Summarize | views/Admin.tsx:74-95 | a row shows the name and location of the last project with its id and the number of users assigned to that id; it holds the day's records for its project in arrival order; its present people are exactly their user ids, without repetition; the count is the number of distinct people, at most the number of records, and zero exactly when there are none |
| Attendance.SummariesFor | views/Admin.tsx:92-95 | one row per requested id, in order, each the summary of that id |
| Attendance.Unsorted | views/Admin.tsx:92-95 | before sorting there is one row per distinct project id, in first-insertion order |
| Attendance.AttendanceByProject | views/Admin.tsx:92-96 | the sorted rows are a permutation of the unsorted ones |
| Attendance.OneRowPerProject | views/Admin.tsx:74-96 | every project gets exactly one row, whether or not anybody clocked in, and every row belongs to a project |
| Attendance.RowsAreSummaries | views/Admin.tsx:74-96 | every sorted row is the summary of its own project |
| Attendance.RowsByCountDescending | views/Admin.tsx:96 | the rows are ordered by presence count, highest first |
| Attendance.EqualCountsKeepProjectOrder | views/Admin.tsx:96 | rows with equal counts keep the project-list order, which for distinct ids is exactly the input order |
| Attendance.RecordContributesIff | views/Admin.tsx:85-90 | a record lands in some row exactly when it is from today and names a known project; all others are dropped |
| Attendance.PresentTotal | views/Admin.tsx:386 | the header total is the number of distinct people among all of today's records, unknown projects included |
| Attendance.CountWithinPresentTotal | views/Admin.tsx:386 | while the date the memoised rows were computed on (line 64) is the date the header reads, no project counts more people than the header total |
| Attendance.StaleRowsCanExceedTotal | views/Admin.tsx:63-97 | the rows are recomputed only when the lists change, so after a change of date the board's row can still count a person of the day before while the header total is zero |
| Attendance.BarWidth | views/Admin.tsx:446 | the bar is 0% when nobody is assigned, otherwise count/assigned × 100, and at most 100% exactly when the count does not exceed the assigned number |
| Attendance.CompleteIffFull | views/Admin.tsx:445-446 | the bar is green exactly when it is at 100% |
| Attendance.LaterFirstIsStrictWeakOrder | views/Admin.tsx:462 | "later time first" is a strict weak order, so the per-person sort is well defined |
| Attendance.UserTimeline | views/Admin.tsx:462 | a person's timeline holds exactly that person's records |
| Attendance.TimelineEnds | views/Admin.tsx:463-464 | in a timeline sorted newest first the head has the greatest time and the last entry the least |
| Attendance.UserLineOf | views/Admin.tsx:461-464 | for a present person, `latest` and `first` are their own records with the greatest and the least time |
| AdminConsole.ReplaceById | views/Admin.tsx:113 | an edit replaces every element with the edited id, keeps every other one and keeps the length |
| AdminConsole.ReplaceByIdIdempotent | views/Admin.tsx:113 | saving the same edit twice equals saving it once |
| AdminConsole.DeleteById | views/Admin.tsx:187 | deleting keeps exactly the elements whose id differs |
| AdminConsole.DeleteByIdParts | views/Admin.tsx:187 | deleting distributes over concatenation, so the survivors keep their order |
| AdminConsole.DeleteAbsentId | views/Admin.tsx:187 | deleting an id nobody has changes nothing |
| AdminConsole.DeleteUndoesCreate | views/Admin.tsx:112-115 | deleting a just-created element with a fresh id restores the list |
| AdminConsole.SaveProject | views/Admin.tsx:100-124 | refused before any write exactly when the name or location is empty; a failed write leaves the list alone; an edit replaces the same-id project in place with "项目更新成功"; a create prepends the new project with "项目创建成功" |
| AdminConsole.ResaveProjectUnchanged | views/Admin.tsx:108-117 | the pencil button loads a project into the form (line 345); when no other project shares its id, saving that form unchanged leaves the list as it was |
| AdminConsole.ResaveOverwritesSharedId | views/Admin.tsx:113 | saving a project's edit form replaces every project with the same id by it, so a different project sharing the id is overwritten and the list changes |
| AdminConsole.DeleteProject | views/Admin.tsx:346 | a declined dialog or failed delete changes nothing; otherwise exactly the projects with that id go |
| AdminConsole.BlankFormsRefused | views/Admin.tsx:47-49 | the blank project, person and announcement forms are each refused with their own alert before any write |
| AdminConsole.SaveUser | views/Admin.tsx:127-151 | refused exactly when name, username or password is empty; a failed write leaves the list alone; edit in place with "人员信息更新成功", create prepends with "人员录入成功" |
| AdminConsole.DeleteUser | views/Admin.tsx:372 | a declined dialog or failed delete changes nothing; otherwise exactly the people with that id go |
| AdminConsole.SaveAnnouncement | views/Admin.tsx:154-179 | published exactly when title and content are set and the write succeeds, as a new announcement with the fresh id, today's date, author 管理总部 and the form's text and images; otherwise the matching alert |
| AdminConsole.DeleteAnnouncement | views/Admin.tsx:182-195 | a declined dialog or failed delete changes nothing; otherwise exactly the announcements with that id go |
| AdminConsole.AppendAnnouncementPhoto | views/Admin.tsx:204-207 | an upload appends one image and keeps title and content |
| AdminConsole.RemoveAnnouncementPhoto | views/Admin.tsx:213-218 | only position `index` is removed, an out-of-range index changes nothing, title and content are kept |
| AdminConsole.RemoveUndoesAppend | views/Admin.tsx:197-218 | removing the photo just uploaded restores the form |
| AdminConsole.ApproveImportant | views/Admin.tsx:319 | the leader's approval sets the status to approved and changes nothing else |
| AdminConsole.RejectImportant | views/Admin.tsx:320 | the leader's rejection sets the status to rejected with the fixed comment "需补充现场照片和具体防范方案" and changes nothing else |
| Dashboard.NewerFirstIsStrictWeakOrder | views/Dashboard.tsx:20-23 | the announcement comparator (date descending, then id descending) is a strict weak order |
| Dashboard.ByNewest | views/Dashboard.tsx:20-23 | the sorted copy is a permutation of the announcements |
| Dashboard.LatestAnnouncements | views/Dashboard.tsx:20-24 | at most three announcements are shown, min(3, n) of them, each taken from the input |
| Dashboard.LatestOrdered | views/Dashboard.tsx:20-23 | the shown announcements are newest first, equal dates in descending id order |
| Dashboard.LatestAreTop | views/Dashboard.tsx:20-24 | the shown ones are a prefix of the sorted copy and no announcement left out outranks a shown one |
| Dashboard.QuickActions | views/Dashboard.tsx:26-45 | every role gets four actions; the leader's have no callback and only the leader's may open admin pages |
| Dashboard.QuickActionCaptions | views/Dashboard.tsx:26-45 | the leader sees 风险预警/全员考勤/发布公告/档案管理, the chief 待办审批/项目台账/现场办公/智慧考勤, everybody else 现场填报/数字台账/入场签到/修改密码 |
| Dashboard.RolesExclusive | views/Dashboard.tsx:16-17 | the leader and chief tests never both hold; a leader gets the leader's list, a chief the chief's, and every other role the same default list |
| Dashboard.Click | views/Dashboard.tsx:83-89 | an admin page opens exactly when the action has one and the admin navigation is available; otherwise its tab opens when it has one; otherwise the callback runs; nothing happens only when none applies |
| Dashboard.EveryActionResponds | views/Dashboard.tsx:83-89 | with admin navigation every action opens an admin page or a tab, except the default list's 修改密码, whose action is the empty function, so that button changes nothing for any role other than leader and chief; without admin navigation exactly the leader's two admin shortcuts do nothing |
| Sorting.SortBySorted | views/Admin.tsx:96 | under a strict weak order the comparator sort yields a sorted sequence |
| Sorting.SortByStable | views/Admin.tsx:96 | the sort is stable: elements the comparator does not separate keep their input order |
| Seqs.RemoveAtSlices | views/FieldWork.tsx:121 | removing by index keeps everything before and after the index, in order |
| Seqs.DedupSize | views/Admin.tsx:95 | the size of an insertion-ordered set is the number of distinct values added |

Five behaviours of the code worth knowing:

- The chief's own rejection (views/FieldWork.tsx:657) sets no audit comment.
  Only the leader's rejection of an important report attaches one
  (views/Admin.tsx:320). `FieldWork.Reject` and `AdminConsole.RejectImportant`
  are therefore different operations.
- The attendance board has one row per distinct project id, not one row per
  project. When two projects share an id, the row sits at the first one's
  position and shows the last one's name and location. This is how
  assignment to an object key works.
- Saving a project edit replaces every project with the edited id
  (views/Admin.tsx:113). When two projects share an id, re-saving one of
  them unchanged overwrites the other (`AdminConsole.ResaveOverwritesSharedId`);
  only for a unique id is it a no-op (`AdminConsole.ResaveProjectUnchanged`).
- The attendance rows are memoised on the project, user and record lists
  (views/Admin.tsx:63-97) and read the date once per recomputation, while the
  header total reads it on every render (views/Admin.tsx:386). After the date
  changes with the lists unchanged, the rows still count the day before.
  `Attendance.AttendanceByProject` takes the date the rows were computed on
  and `Attendance.PresentTotal` the date of the render;
  `Attendance.StaleRowsCanExceedTotal` shows a row above the header total.
- The 修改密码 quick action of every role other than leader and chief has the
  empty function as its action (views/Dashboard.tsx:43), and the
  `onUpdatePassword` property (views/Dashboard.tsx:15) is never called, so
  that button changes nothing (`Dashboard.EveryActionResponds`).

## Left out

- Network and storage calls (`dbService`) are reduced to a boolean `writeOk`.
  The error text of a failed announcement delete (views/Admin.tsx:190) comes
  from the exception and is not modelled. Neither are the toasts after a
  delete.
- The AI calls (`generateReportDraft`, `summarizeSafetyHazards`) are left
  out. A generated draft is an arbitrary string input to `FieldWork.ApplyDraft`.
- FieldWork.ApplyDraft: one editor state stands for both moments of the
  request. The source reads the report type before and after awaiting the
  draft from that first call's closure (views/FieldWork.tsx:55-58, 77) but
  writes into the details current when the draft arrives (line 79). If the user opens another form meanwhile, the
  draft lands in that form under the first type's field. The interleaving of
  the request with other user actions is not modelled.
- The `FileReader` callbacks complete in an unspecified order. Only the
  append each one performs is modelled (`AppendPhoto`, `AppendFile`,
  `AppendAnnouncementPhoto`).
- The clock and id generation (`Date.now()`, `toISOString()`) are parameters:
  `today`, `reportId`, `freshId`.
- Parsing a publish date into a timestamp (`new Date(...).getTime()`,
  including NaN for an unparsable date) is the parameter `dateOf`.
- Dashboard.NewerFirstIsStrictWeakOrder: an integer-valued `dateOf` is
  assumed. With NaN timestamps the comparator is not a strict weak order,
  and the engine's resulting order is not modelled.
- `localeCompare` is modelled as code-point order (`Strings.LexLess`). Locale
  collation is not modelled.
- PrintTemplate.ExpenseBody: the amount cell keeps the raw string.
  `Number(...).toLocaleString()` (floating point and locale grouping) is not
  modelled.
- Attendance.CountWithinPresentTotal: the bound is stated for the case where
  the memoised rows and the header read the same date; after a change of
  date it can fail (`Attendance.StaleRowsCanExceedTotal`).
- Attendance.RecordContributesIff: the statistics are a plain object, so a
  record whose project id names a property every object inherits
  (`constructor`, `toString`, ...) and no project finds that inherited
  function. The `add` call then throws and the board fails to render. The
  model drops such a record like any other unknown id.
- Attendance.OneRowPerProject: a project whose id is `__proto__` replaces the
  statistics object's prototype instead of adding a key, so the board shows
  no row for it. The model gives it a row. Ids that name inherited
  properties are not modelled.
- Attendance.BarWidth: the width is computed in exact rational arithmetic.
  The source divides and multiplies in double precision, so the width of
  1 of 3 is rounded there; the rounding is not modelled.
- Attendance.Unsorted: the rows follow the insertion order of the project
  ids. JavaScript objects list integer-like keys (such as "12") first, in
  numeric order. Such ids are not modelled.
- JSX markup, styles, modals, the preview/print toggle, the dashboard banner
  and statistics cards, the important-report card texts
  (views/Admin.tsx:311-317) and display truncations are not modelled.
  Display truncations are the time split in the detail lines, the first
  three present users' initials and the first-character avatars.
- Login, password change and the embedded credentials are not modelled.
- `types.ts` is not part of this model. The enumerations are declared in
  `types.dfy` from their uses in views/FieldWork.tsx, views/Admin.tsx,
  views/Dashboard.tsx and components/ReportPrintTemplate.tsx.
