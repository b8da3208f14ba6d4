/**
 The field-work console (views/FieldWork.tsx): which report types a role may
 author, the editor's state and its transitions (open, AI draft, attachment
 add/remove, submit), the review queue, and the approver's decision.
 */
module FieldWork {
  import opened Types
  import opened Strings
  import opened Seqs

  // ---------------------------------------------------------------------------
  // role gating
  // ---------------------------------------------------------------------------

  /** `canWrite(type)` for the signed-in user's role. */
  predicate CanWrite(role: UserRole, t: ReportType)
  {
    if role == Assistant then
      t in {DailyLog, SafetyLog, SafetyInspection, SideStation, Witness}
    else if role == Engineer then
      t != ExpenseReimbursement && t != ChiefInspection
    else if role == Chief then
      t != SupervisionRules
    else
      true
  }

  /** The tiles offered on the "write" tab: every report type the role may
      author. */
  function WritableTiles(role: UserRole): (tiles: seq<ReportType>)
    ensures forall t :: t in tiles <==> CanWrite(role, t)
  {
    var tiles := Keep(AllReportTypes, t => CanWrite(role, t));
    forall t ensures t in tiles <==> CanWrite(role, t) {
      AllReportTypesComplete(t);
      KeepMember(AllReportTypes, t => CanWrite(role, t), t);
    }
    tiles
  }

  /** The permission table, role by role: an assistant writes exactly the five
      basic logs, an engineer everything but expense claims and chief
      inspections, a chief everything but supervision rules, anyone else
      everything. */
  lemma WritableTypesByRole(t: ReportType)
    ensures CanWrite(Assistant, t) <==>
              t == DailyLog || t == SafetyLog || t == SafetyInspection || t == SideStation || t == Witness
    ensures CanWrite(Engineer, t) <==> t != ExpenseReimbursement && t != ChiefInspection
    ensures CanWrite(Chief, t) <==> t != SupervisionRules
    ensures CanWrite(Leader, t)
  {
  }

  /** Permissions grow with seniority: whatever an assistant may write, every
      other role may write too. */
  lemma CanWriteMonotone(t: ReportType)
    requires CanWrite(Assistant, t)
    ensures CanWrite(Engineer, t) && CanWrite(Chief, t) && CanWrite(Leader, t)
  {
  }

  // ---------------------------------------------------------------------------
  // the editor
  // ---------------------------------------------------------------------------

  datatype Tab = Write | Review

  /** The console opens on the review tab for a chief and on the write tab
      for everyone else. */
  function InitialTab(role: UserRole): (tab: Tab)
    ensures tab == Review <==> role == Chief
  {
    if role == Chief then Review else Write
  }

  /** The review tab's button is shown to chiefs and leaders only. */
  predicate ReviewTabShown(role: UserRole)
  {
    role == Chief || role == Leader
  }

  /** The write tab's button is always there; the review tab's only for the
      roles above. */
  predicate TabShown(role: UserRole, tab: Tab)
  {
    tab == Write || ReviewTabShown(role)
  }

  /** The console always opens on a tab whose button the role can see: a
      chief starts on the review list, a leader may switch to it but starts
      on the tiles, and the other roles never see it at all. */
  lemma InitialTabShown(role: UserRole)
    ensures TabShown(role, InitialTab(role))
    ensures InitialTab(role) == Review ==> ReviewTabShown(role)
    ensures !ReviewTabShown(role) ==> InitialTab(role) == Write
    ensures role == Leader ==> ReviewTabShown(role) && InitialTab(role) == Write
  {
  }

  datatype Editor = Editor(
    showEditor: bool,
    editingType: Option<ReportType>,
    details: Details,
    content: string,
    previewMode: bool)

  /** Clicking a tile: a fresh form of that type. */
  function OpenEditor(t: ReportType): (ed: Editor)
    ensures ed.showEditor && ed.editingType == Some(t)
    ensures ed.details == EmptyDetails && ed.content == "" && !ed.previewMode
  {
    Editor(true, Some(t), EmptyDetails, "", false)
  }

  /** `updateDetail(key, value)` */
  function UpdateDetail(ed: Editor, key: string, value: string): (ed': Editor)
    ensures Field(ed'.details, key) == value
    ensures forall k :: k != key ==> Field(ed'.details, k) == Field(ed.details, k)
    ensures ed'.details.images == ed.details.images && ed'.details.files == ed.details.files
    ensures ed'.content == ed.content && ed'.editingType == ed.editingType
  {
    ed.(details := ed.details.(fields := ed.details.fields[key := value]))
  }

  // ---------------------------------------------------------------------------
  // AI assistance
  // ---------------------------------------------------------------------------

  /** `typeFieldMap` of `handleAISuggest`: the detail field a generated draft
      is written into, per report type. */
  const AssistFieldTable: map<ReportType, string> := map[
    DailyLog := "supervision",
    SafetyLog := "briefing",
    SafetyInspection := "findings",
    Notice := "requirements",
    SideStation := "processDetail",
    DangerousWork := "findings",
    Witness := "witnessResult",
    ChiefInspection := "evaluation",
    MajorEvent := "eventDesc",
    JointSafetyCheck := "rectification",
    Minutes := "minutesBody",
    Monthly := "qualitySummary",
    SupervisionRules := "description",
    ExpenseReimbursement := "reimbursementDesc"
  ]

  /** The table has an entry for every report type. */
  lemma AssistFieldTableTotal(t: ReportType)
    ensures t in AssistFieldTable && AssistFieldTable[t] != ""
  {
  }

  /** Storing a generated `draft`: into the type's target field when the
      table has one, otherwise into the free-text content. With no type being
      edited nothing happens. */
  function ApplyDraft(ed: Editor, draft: string): (ed': Editor)
    ensures ed.editingType.None? ==> ed' == ed
    ensures ed'.editingType == ed.editingType && ed'.showEditor == ed.showEditor
  {
    match ed.editingType
    case None => ed
    case Some(t) =>
      if t in AssistFieldTable then
        ed.(details := ed.details.(fields := ed.details.fields[AssistFieldTable[t] := draft]))
      else
        ed.(content := draft)
  }

  /** Because the table is total, a draft always lands in the type's detail
      field and never overwrites the free-text content or the attachments. */
  lemma ApplyDraftLandsInField(ed: Editor, t: ReportType, draft: string)
    requires ed.editingType == Some(t)
    ensures var ed' := ApplyDraft(ed, draft);
      && ed'.content == ed.content
      && Field(ed'.details, AssistFieldTable[t]) == draft
      && (forall k :: k != AssistFieldTable[t] ==> Field(ed'.details, k) == Field(ed.details, k))
      && ed'.details.images == ed.details.images
      && ed'.details.files == ed.details.files
  {
  }

  // ---------------------------------------------------------------------------
  // attachments
  // ---------------------------------------------------------------------------

  /** A finished image read appends its data URL to `images`. */
  function AppendPhoto(ed: Editor, dataUrl: string): (ed': Editor)
    ensures ed'.details.images == ed.details.images + [dataUrl]
    ensures ed'.details.fields == ed.details.fields && ed'.details.files == ed.details.files
    ensures ed'.content == ed.content && ed'.editingType == ed.editingType
  {
    ed.(details := ed.details.(images := ed.details.images + [dataUrl]))
  }

  /** A finished document read appends its description to `files`. */
  function AppendFile(ed: Editor, file: FileMeta): (ed': Editor)
    ensures ed'.details.files == ed.details.files + [file]
    ensures ed'.details.fields == ed.details.fields && ed'.details.images == ed.details.images
    ensures ed'.content == ed.content && ed'.editingType == ed.editingType
  {
    ed.(details := ed.details.(files := ed.details.files + [file]))
  }

  /** `removePhoto(index)`: only position `index` goes, the rest keep their
      order, an index outside the list changes nothing, and no other part of
      the form is touched. */
  function RemovePhoto(ed: Editor, index: int): (ed': Editor)
    ensures var imgs := ed.details.images;
      if 0 <= index < |imgs| then ed'.details.images == imgs[..index] + imgs[index + 1..]
      else ed'.details.images == imgs
    ensures ed'.details.fields == ed.details.fields && ed'.details.files == ed.details.files
    ensures ed'.content == ed.content && ed'.editingType == ed.editingType
  {
    RemoveAtSlices(ed.details.images, index);
    ed.(details := ed.details.(images := RemoveAt(ed.details.images, index)))
  }

  /** `removeFile(index)`, the same rule for documents. */
  function RemoveFile(ed: Editor, index: int): (ed': Editor)
    ensures var fs := ed.details.files;
      if 0 <= index < |fs| then ed'.details.files == fs[..index] + fs[index + 1..]
      else ed'.details.files == fs
    ensures ed'.details.fields == ed.details.fields && ed'.details.images == ed.details.images
    ensures ed'.content == ed.content && ed'.editingType == ed.editingType
  {
    RemoveAtSlices(ed.details.files, index);
    ed.(details := ed.details.(files := RemoveAt(ed.details.files, index)))
  }

  // ---------------------------------------------------------------------------
  // submission
  // ---------------------------------------------------------------------------

  /** The content written when nothing else is available: "see attachment". */
  const SeeAttachment := "详见附件"

  /** The project a report is filed under when the author has none. */
  const DefaultProjectId := "P001"

  /** Reference definition: the first non-empty candidate, else `fallback`. */
  function FirstNonEmpty(candidates: seq<string>, fallback: string): (r: string)
    ensures (forall i :: 0 <= i < |candidates| ==> candidates[i] == "") ==> r == fallback
    ensures forall k :: (0 <= k < |candidates| && candidates[k] != "" &&
                         (forall j :: 0 <= j < k ==> candidates[j] == "")) ==> r == candidates[k]
  {
    if |candidates| == 0 then fallback
    else if candidates[0] != "" then candidates[0]
    else FirstNonEmpty(candidates[1..], fallback)
  }

  /** `content || details.description || details.progress || details.findings || '详见附件'` */
  function SubmittedContent(content: string, d: Details): string
  {
    OrElse(content, OrElse(Field(d, "description"), OrElse(Field(d, "progress"),
      OrElse(Field(d, "findings"), SeeAttachment))))
  }

  /** The submitted content is the first non-empty one of the free text and the
      description, progress and findings fields, else "see attachment"; so it
      is never empty, and non-empty free text always wins. */
  lemma SubmittedContentPriority(content: string, d: Details)
    ensures SubmittedContent(content, d) ==
      FirstNonEmpty([content, Field(d, "description"), Field(d, "progress"), Field(d, "findings")],
                    SeeAttachment)
    ensures SubmittedContent(content, d) != ""
    ensures content != "" ==> SubmittedContent(content, d) == content
  {
    var c := [content, Field(d, "description"), Field(d, "progress"), Field(d, "findings")];
    var r := FirstNonEmpty(c, SeeAttachment);
    if c[0] != "" {
      assert r == c[0];
    } else if c[1] != "" {
      assert r == c[1];
    } else if c[2] != "" {
      assert r == c[2];
    } else if c[3] != "" {
      assert r == c[3];
    } else {
      assert forall i :: 0 <= i < |c| ==> c[i] == "";
    }
  }

  /** The report types that are flagged for the leaders' attention. */
  predicate IsImportantType(t: ReportType)
  {
    t in {MajorEvent, DangerousWork, Notice, SupervisionRules}
  }

  /** `user.projectId || 'P001'` */
  function ReportProjectId(user: User): (p: string)
    ensures p != ""
    ensures user.projectId.Some? && user.projectId.value != "" ==> p == user.projectId.value
    ensures (user.projectId.None? || user.projectId.value == "") ==> p == DefaultProjectId
  {
    match user.projectId
    case Some(p) => OrElse(p, DefaultProjectId)
    case None => DefaultProjectId
  }

  datatype SubmitOutcome = SubmitOutcome(submitted: Option<Report>, editor: Editor)

  /** `handleSubmit`: with no type chosen nothing happens; otherwise one new
      PENDING report is handed on and the editor is closed and cleared.
      `reportId` and `today` stand for the clock-derived id and date. */
  function Submit(ed: Editor, user: User, reportId: string, today: string): (out: SubmitOutcome)
    ensures ed.editingType.None? <==> out.submitted.None?
    ensures ed.editingType.None? ==> out.editor == ed
    ensures ed.editingType.Some? ==>
      var r := out.submitted.value;
      && r.reportType == ed.editingType.value
      && r.status == Pending
      && r.details == Some(ed.details)
      && r.content == FirstNonEmpty([ed.content, Field(ed.details, "description"),
                                     Field(ed.details, "progress"), Field(ed.details, "findings")],
                                    SeeAttachment)
      && r.content != ""
      && (ed.content != "" ==> r.content == ed.content)
      && (r.isImportant <==> r.reportType in {MajorEvent, DangerousWork, Notice, SupervisionRules})
      && r.projectId == ReportProjectId(user)
      && r.authorId == user.id && r.authorName == user.name
      && r.id == reportId && r.date == today && r.auditComment.None?
    ensures ed.editingType.Some? ==>
      out.editor == ed.(showEditor := false, details := EmptyDetails, content := "")
  {
    match ed.editingType
    case None => SubmitOutcome(None, ed)
    case Some(t) =>
      SubmittedContentPriority(ed.content, ed.details);
      var r := Report(reportId, t, ReportProjectId(user), user.id, user.name,
                      SubmittedContent(ed.content, ed.details), Some(ed.details), today,
                      Pending, IsImportantType(t), None);
      SubmitOutcome(Some(r), ed.(showEditor := false, details := EmptyDetails, content := ""))
  }

  /** Submitting a form straight after opening it files a PENDING report of
      that type with empty details and the "see attachment" content, flagged
      exactly when the type is an important one, and closes the editor on a
      cleared form. */
  lemma OpenThenSubmit(t: ReportType, user: User, reportId: string, today: string)
    ensures var out := Submit(OpenEditor(t), user, reportId, today);
      && out.submitted == Some(Report(reportId, t, ReportProjectId(user), user.id, user.name,
                                      SeeAttachment, Some(EmptyDetails), today, Pending,
                                      IsImportantType(t), None))
      && !out.editor.showEditor && out.editor.editingType == Some(t)
      && out.editor.details == EmptyDetails && out.editor.content == ""
  {
    var ed := OpenEditor(t);
    SubmittedContentPriority(ed.content, ed.details);
  }

  // ---------------------------------------------------------------------------
  // review
  // ---------------------------------------------------------------------------

  function IsPending(r: Report): bool
  {
    r.status == Pending
  }

  /** The review tab's list: the pending reports, in the order given. */
  function ReviewQueue(reports: seq<Report>): (q: seq<Report>)
    ensures forall r :: r in q <==> r in reports && r.status == Pending
    ensures |q| <= |reports|
  {
    forall r ensures r in Keep(reports, IsPending) <==> r in reports && r.status == Pending {
      KeepMember(reports, IsPending, r);
    }
    Keep(reports, IsPending)
  }

  /** The queue keeps input order: the queue of a concatenation is the
      concatenation of the queues, and one report is queued iff pending. */
  lemma ReviewQueueOrder(a: seq<Report>, b: seq<Report>, r: Report)
    ensures ReviewQueue(a + b) == ReviewQueue(a) + ReviewQueue(b)
    ensures ReviewQueue([r]) == if r.status == Pending then [r] else []
  {
    KeepConcat(a, b, IsPending);
    assert [r][1..] == [];
  }

  /** The approver's sign-off. */
  function Approve(r: Report): (r': Report)
    ensures r'.status == Approved && !IsPending(r')
    ensures r'.(status := r.status) == r
  {
    r.(status := Approved)
  }

  /** Returning a report for correction: only the status changes. */
  function Reject(r: Report): (r': Report)
    ensures r'.status == Rejected && !IsPending(r')
    ensures r'.(status := r.status) == r
  {
    r.(status := Rejected)
  }

  /** A decided report leaves the review queue and the rest of the queue
      keeps its order. */
  lemma {:induction false} DecisionLeavesQueue(before: seq<Report>, r: Report, after: seq<Report>, approve: bool)
    ensures var decided := if approve then Approve(r) else Reject(r);
      ReviewQueue(before + [decided] + after) == ReviewQueue(before) + ReviewQueue(after)
  {
    var decided := if approve then Approve(r) else Reject(r);
    ReviewQueueOrder(before + [decided], after, decided);
    ReviewQueueOrder(before, [decided], decided);
  }
}
