/**
 The list maintenance of the administration console (views/Admin.tsx):
 saving a project or a person (edit in place, or prepend on create),
 publishing an announcement, deleting by id, the announcement photo list,
 and the leader's decision on an important report. The remote write, the
 confirmation dialog, the clock and the generated id are parameters.
 */
module AdminConsole {
  import opened Types
  import opened Seqs

  /** What a save or delete leaves behind: the form was refused before any
      write, the remote write failed (the list is untouched), or the write
      went through and the list was updated. */
  datatype Outcome<T> =
    | Invalid(alert: string)
    | WriteFailed(alert: string)
    | Saved(items: seq<T>, toast: string)

  // ---------------------------------------------------------------------------
  // list updates shared by every kind of record
  // ---------------------------------------------------------------------------

  /** `prev.map(p => p.id === x.id ? x : p)` */
  function ReplaceById<T>(items: seq<T>, x: T, id: T -> string): (r: seq<T>)
    ensures |r| == |items|
    ensures forall i :: 0 <= i < |items| && id(items[i]) != id(x) ==> r[i] == items[i]
    ensures forall i :: 0 <= i < |items| && id(items[i]) == id(x) ==> r[i] == x
  {
    seq(|items|, i requires 0 <= i < |items| => if id(items[i]) == id(x) then x else items[i])
  }

  /** `prev.filter(it => it.id !== gone)` */
  function DeleteById<T(==,!new)>(items: seq<T>, gone: string, id: T -> string): (r: seq<T>)
    ensures |r| <= |items|
    ensures forall x :: x in r <==> x in items && id(x) != gone
  {
    KeepMembers(items, x => id(x) != gone);
    Keep(items, x => id(x) != gone)
  }

  /** Deleting keeps every other element, in order: deleting from a
      concatenation deletes from each part. */
  lemma DeleteByIdParts<T(!new)>(a: seq<T>, b: seq<T>, gone: string, id: T -> string)
    ensures DeleteById(a + b, gone, id) == DeleteById(a, gone, id) + DeleteById(b, gone, id)
  {
    KeepConcat(a, b, x => id(x) != gone);
  }

  /** Deleting an id nobody has changes nothing. */
  lemma DeleteAbsentId<T(!new)>(items: seq<T>, gone: string, id: T -> string)
    requires forall i :: 0 <= i < |items| ==> id(items[i]) != gone
    ensures DeleteById(items, gone, id) == items
  {
    KeepAll(items, x => id(x) != gone);
  }

  /** Deleting what was just created restores the list. */
  lemma DeleteUndoesCreate<T(!new)>(items: seq<T>, x: T, id: T -> string)
    requires forall i :: 0 <= i < |items| ==> id(items[i]) != id(x)
    ensures DeleteById([x] + items, id(x), id) == items
  {
    DeleteByIdParts([x], items, id(x), id);
    DeleteAbsentId(items, id(x), id);
    assert DeleteById([x], id(x), id) == [];
  }

  /** Saving the same edit twice is saving it once; after an edit every
      element with that id is the saved one. */
  lemma ReplaceByIdIdempotent<T>(items: seq<T>, x: T, id: T -> string)
    ensures ReplaceById(ReplaceById(items, x, id), x, id) == ReplaceById(items, x, id)
    ensures forall i :: 0 <= i < |items| ==>
      (ReplaceById(items, x, id)[i] == x || id(ReplaceById(items, x, id)[i]) != id(x))
  {
  }

  // ---------------------------------------------------------------------------
  // projects
  // ---------------------------------------------------------------------------

  /** The project form; an empty id means a new project. */
  datatype ProjectForm = ProjectForm(id: string, name: string, location: string, status: ProjectStatus)

  const EmptyProjectForm := ProjectForm("", "", "", InProgress)

  /** The pencil button loads the project itself into the form. */
  function EditProjectForm(p: Project): (f: ProjectForm)
    ensures f.id == p.id && f.name == p.name && f.location == p.location && f.status == p.status
  {
    ProjectForm(p.id, p.name, p.location, p.status)
  }

  const ProjectIncomplete := "请完整填写项目名称和地理位置"
  const ProjectWriteFailed := "保存项目档案失败，请重试"
  const ProjectUpdated := "项目更新成功"
  const ProjectCreated := "项目创建成功"

  function ProjectKey(p: Project): string
  {
    p.id
  }

  /** `handleSaveProject`. `freshId` is the `P<timestamp>` id a new project
      receives; `writeOk` is whether the remote save succeeded. */
  function SaveProject(projects: seq<Project>, form: ProjectForm, freshId: string, writeOk: bool): (o: Outcome<Project>)
    ensures o.Invalid? <==> form.name == "" || form.location == ""
    ensures o.WriteFailed? <==> form.name != "" && form.location != "" && !writeOk
    ensures o.Saved? && form.id != "" ==>
      && |o.items| == |projects|
      && o.toast == ProjectUpdated
      && forall i :: 0 <= i < |projects| ==>
           o.items[i] == (if projects[i].id == form.id
                          then Project(form.id, form.name, form.location, form.status)
                          else projects[i])
    ensures o.Saved? && form.id == "" ==>
      && o.items == [Project(freshId, form.name, form.location, form.status)] + projects
      && o.toast == ProjectCreated
  {
    if form.name == "" || form.location == "" then Invalid(ProjectIncomplete)
    else
      var p := Project(if form.id != "" then form.id else freshId, form.name, form.location, form.status);
      if !writeOk then WriteFailed(ProjectWriteFailed)
      else if form.id != "" then Saved(ReplaceById(projects, p, ProjectKey), ProjectUpdated)
      else Saved([p] + projects, ProjectCreated)
  }

  /** Re-saving a project unchanged from its edit form leaves the list as it
      was. */
  lemma ResaveProjectUnchanged(projects: seq<Project>, k: nat, freshId: string)
    requires k < |projects|
    requires projects[k].id != "" && projects[k].name != "" && projects[k].location != ""
    requires forall i :: 0 <= i < |projects| && projects[i].id == projects[k].id ==> i == k
    ensures SaveProject(projects, EditProjectForm(projects[k]), freshId, true) == Saved(projects, ProjectUpdated)
  {
  }

  /** Re-saving a project from its edit form replaces every project with the
      same id by it: another project sharing the id is overwritten, so the
      list changes exactly when such a project differs from the saved one. */
  lemma ResaveOverwritesSharedId(projects: seq<Project>, k: nat, j: nat, freshId: string)
    requires k < |projects| && j < |projects|
    requires projects[k].id != "" && projects[k].name != "" && projects[k].location != ""
    requires projects[j].id == projects[k].id
    ensures var o := SaveProject(projects, EditProjectForm(projects[k]), freshId, true);
      && o.Saved?
      && o.items[j] == projects[k]
      && (projects[j] != projects[k] ==> o != Saved(projects, ProjectUpdated))
  {
    var o := SaveProject(projects, EditProjectForm(projects[k]), freshId, true);
    assert o.items[j] == projects[k];
  }

  /** `confirm(...)` then delete; a declined dialog or a failed remote delete
      leaves the list untouched. */
  function DeleteProject(projects: seq<Project>, id: string, confirmed: bool, writeOk: bool): (r: seq<Project>)
    ensures !(confirmed && writeOk) ==> r == projects
    ensures confirmed && writeOk ==> forall p :: p in r <==> p in projects && p.id != id
  {
    if confirmed && writeOk then
      DeleteById(projects, id, ProjectKey)
    else projects
  }

  // ---------------------------------------------------------------------------
  // people
  // ---------------------------------------------------------------------------

  /** The person form; an empty id means a new person. The project select
      starts at the empty choice. */
  datatype UserForm = UserForm(
    id: string, name: string, username: string, password: string,
    role: UserRole, projectId: Option<string>)

  const EmptyUserForm := UserForm("", "", "", "", Engineer, Some(""))

  const UserIncomplete := "请填写完整的人员姓名、工号和初始密码"
  const UserWriteFailed := "录入人员信息失败，请检查工号是否重复"
  const UserUpdated := "人员信息更新成功"
  const UserCreated := "人员录入成功"

  function UserKey(u: User): string
  {
    u.id
  }

  /** `handleSaveUser`. */
  function SaveUser(users: seq<User>, form: UserForm, freshId: string, writeOk: bool): (o: Outcome<User>)
    ensures o.Invalid? <==> form.name == "" || form.username == "" || form.password == ""
    ensures o.WriteFailed? <==> form.name != "" && form.username != "" && form.password != "" && !writeOk
    ensures o.Saved? && form.id != "" ==>
      && |o.items| == |users|
      && o.toast == UserUpdated
      && forall i :: 0 <= i < |users| ==>
           o.items[i] == (if users[i].id == form.id
                          then User(form.id, form.name, form.username, form.password, form.role, form.projectId)
                          else users[i])
    ensures o.Saved? && form.id == "" ==>
      && o.items == [User(freshId, form.name, form.username, form.password, form.role, form.projectId)] + users
      && o.toast == UserCreated
  {
    if form.name == "" || form.username == "" || form.password == "" then Invalid(UserIncomplete)
    else
      var u := User(if form.id != "" then form.id else freshId, form.name, form.username, form.password, form.role, form.projectId);
      if !writeOk then WriteFailed(UserWriteFailed)
      else if form.id != "" then Saved(ReplaceById(users, u, UserKey), UserUpdated)
      else Saved([u] + users, UserCreated)
  }

  function DeleteUser(users: seq<User>, id: string, confirmed: bool, writeOk: bool): (r: seq<User>)
    ensures !(confirmed && writeOk) ==> r == users
    ensures confirmed && writeOk ==> forall u :: u in r <==> u in users && u.id != id
  {
    if confirmed && writeOk then
      DeleteById(users, id, UserKey)
    else users
  }

  // ---------------------------------------------------------------------------
  // announcements
  // ---------------------------------------------------------------------------

  datatype AnnouncementForm = AnnouncementForm(title: string, content: string, images: seq<string>)

  const EmptyAnnouncementForm := AnnouncementForm("", "", [])

  const AnnouncementIncomplete := "请填写公告标题和正文内容"
  const AnnouncementWriteFailed := "公告发布失败，请检查网络连接"
  const AnnouncementPublished := "公告已全员同步发布"
  const Headquarters := "管理总部"

  /** The result of `handleSaveAnn`: the announcement handed to the parent
      for publication with the toast shown, or the alert shown instead. */
  datatype Publication = Refused(alert: string) | Published(announcement: Announcement, toast: string)

  /** `handleSaveAnn`: every publication is a new announcement with a fresh
      id, today's date and the headquarters as author. */
  function SaveAnnouncement(form: AnnouncementForm, freshId: string, today: string, writeOk: bool): (p: Publication)
    ensures p.Published? <==> form.title != "" && form.content != "" && writeOk
    ensures form.title == "" || form.content == "" ==> p == Refused(AnnouncementIncomplete)
    ensures form.title != "" && form.content != "" && !writeOk ==> p == Refused(AnnouncementWriteFailed)
    ensures p.Published? ==>
      && p.announcement.id == freshId
      && p.announcement.publishDate == today
      && p.announcement.author == Headquarters
      && p.announcement.title == form.title
      && p.announcement.content == form.content
      && p.announcement.images == form.images
      && p.toast == AnnouncementPublished
  {
    if form.title == "" || form.content == "" then Refused(AnnouncementIncomplete)
    else if !writeOk then Refused(AnnouncementWriteFailed)
    else Published(Announcement(freshId, form.title, form.content, form.images, today, Headquarters), AnnouncementPublished)
  }

  function AnnouncementKey(a: Announcement): string
  {
    a.id
  }

  /** `handleDeleteAnn`. */
  function DeleteAnnouncement(anns: seq<Announcement>, id: string, confirmed: bool, writeOk: bool): (r: seq<Announcement>)
    ensures !(confirmed && writeOk) ==> r == anns
    ensures confirmed && writeOk ==> forall a :: a in r <==> a in anns && a.id != id
  {
    if confirmed && writeOk then
      DeleteById(anns, id, AnnouncementKey)
    else anns
  }

  /** A finished photo upload appends its data URL. */
  function AppendAnnouncementPhoto(form: AnnouncementForm, image: string): (f: AnnouncementForm)
    ensures f.images == form.images + [image]
    ensures f.title == form.title && f.content == form.content
  {
    form.(images := form.images + [image])
  }

  /** `removeAnnPhoto(index)`: only that position goes; title and content stay. */
  function RemoveAnnouncementPhoto(form: AnnouncementForm, index: int): (f: AnnouncementForm)
    ensures 0 <= index < |form.images| ==> f.images == form.images[..index] + form.images[index + 1..]
    ensures !(0 <= index < |form.images|) ==> f.images == form.images
    ensures f.title == form.title && f.content == form.content
  {
    RemoveAtSlices(form.images, index);
    form.(images := RemoveAt(form.images, index))
  }

  /** Removing a photo just uploaded restores the list. */
  lemma RemoveUndoesAppend(form: AnnouncementForm, image: string)
    ensures RemoveAnnouncementPhoto(AppendAnnouncementPhoto(form, image), |form.images|) == form
  {
  }

  // ---------------------------------------------------------------------------
  // the blank forms
  // ---------------------------------------------------------------------------

  /** Each "new" button opens a blank form, and saving a blank form is refused
      with the form's own alert before any write, whatever the write would
      have done. */
  lemma BlankFormsRefused(projects: seq<Project>, users: seq<User>, freshId: string, today: string, writeOk: bool)
    ensures SaveProject(projects, EmptyProjectForm, freshId, writeOk) == Invalid(ProjectIncomplete)
    ensures SaveUser(users, EmptyUserForm, freshId, writeOk) == Invalid(UserIncomplete)
    ensures SaveAnnouncement(EmptyAnnouncementForm, freshId, today, writeOk) == Refused(AnnouncementIncomplete)
  {
  }

  // ---------------------------------------------------------------------------
  // the leader's decision on an important report
  // ---------------------------------------------------------------------------

  /** The leader's approval: only the status changes. */
  function ApproveImportant(r: Report): (r': Report)
    ensures r'.status == Approved
    ensures r'.(status := r.status) == r
  {
    r.(status := Approved)
  }

  /** The leader's rejection carries a fixed request for more evidence. */
  const RejectionComment := "需补充现场照片和具体防范方案"

  function RejectImportant(r: Report): (r': Report)
    ensures r'.status == Rejected && r'.auditComment == Some(RejectionComment)
    ensures r'.(status := r.status, auditComment := r.auditComment) == r
  {
    r.(status := Rejected, auditComment := Some(RejectionComment))
  }
}
