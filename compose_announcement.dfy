/**
 * The announcement editor: a form record, per-field edits that clear that field's error,
 * attachment upload and removal, and the rules a form must meet before it is submitted.
 */
module ComposeAnnouncement {
  import opened Optional
  import opened Text
  import opened FormRules

  datatype Attachment = Attachment(name: string, size: int)

  /** The form record; recipients are the chosen group values ('all', 'admins', ...). */
  datatype ComposeForm = ComposeForm(
    title: string,
    content: string,
    category: string,
    priority: string,
    recipients: seq<string>,
    scheduled: bool,
    scheduledDate: string,
    attachments: seq<Attachment>)

  datatype Field = Title | Content | Category | Priority | Recipients | Scheduled | ScheduledDate | Attachments

  /** One `handleInputChange(field, value)` call, with a value of that field's type. */
  datatype Change =
    | SetTitle(title: string)
    | SetContent(content: string)
    | SetCategory(category: string)
    | SetPriority(priority: string)
    | SetRecipients(recipients: seq<string>)
    | SetScheduled(scheduled: bool)
    | SetScheduledDate(scheduledDate: string)
  {
    function FieldOf(): Field {
      match this
      case SetTitle(_) => Title
      case SetContent(_) => Content
      case SetCategory(_) => Category
      case SetPriority(_) => Priority
      case SetRecipients(_) => Recipients
      case SetScheduled(_) => Scheduled
      case SetScheduledDate(_) => ScheduledDate
    }
  }

  /** The form after a new post and after a successful submit. */
  const DefaultForm := ComposeForm("", "", "general", "normal", [], false, "", [])

  /** `x || fallback` on strings: the empty string is falsy. */
  function OrElse(x: string, fallback: string): (r: string)
    ensures x != "" ==> r == x
    ensures x == "" ==> r == fallback
  {
    if x != "" then x else fallback
  }

  /** The fields an announcement being edited carries into the form. */
  datatype Seed = Seed(
    title: string,
    content: string,
    category: string,
    priority: string,
    recipients: seq<string>,
    scheduled: bool,
    scheduledDate: string)

  /**
   * The initial form: each field from the announcement being edited or its default.
   * Attachments always start empty, so editing an announcement does not carry its attachments.
   */
  function SeedForm(editing: Option<Seed>): (f: ComposeForm)
    ensures editing.None? ==> f == DefaultForm
    ensures f.attachments == []
    ensures f.category != "" && f.priority != ""
    ensures editing.Some? ==>
      (&& f.title == editing.value.title && f.content == editing.value.content
       && f.recipients == editing.value.recipients && f.scheduled == editing.value.scheduled
       && f.scheduledDate == editing.value.scheduledDate)
    ensures editing.Some? && editing.value.category != "" ==> f.category == editing.value.category
    ensures editing.Some? && editing.value.priority != "" ==> f.priority == editing.value.priority
  {
    match editing
    case None => DefaultForm
    case Some(e) =>
      ComposeForm(
        OrElse(e.title, ""), OrElse(e.content, ""), OrElse(e.category, "general"), OrElse(e.priority, "normal"),
        e.recipients, e.scheduled, OrElse(e.scheduledDate, ""), [])
  }

  /** The form with one field replaced. */
  function ApplyChange(f: ComposeForm, c: Change): (r: ComposeForm)
    ensures c.FieldOf() != Title ==> r.title == f.title
    ensures c.FieldOf() != Content ==> r.content == f.content
    ensures c.FieldOf() != Category ==> r.category == f.category
    ensures c.FieldOf() != Priority ==> r.priority == f.priority
    ensures c.FieldOf() != Recipients ==> r.recipients == f.recipients
    ensures c.FieldOf() != Scheduled ==> r.scheduled == f.scheduled
    ensures c.FieldOf() != ScheduledDate ==> r.scheduledDate == f.scheduledDate
    ensures r.attachments == f.attachments
  {
    match c
    case SetTitle(v) => f.(title := v)
    case SetContent(v) => f.(content := v)
    case SetCategory(v) => f.(category := v)
    case SetPriority(v) => f.(priority := v)
    case SetRecipients(v) => f.(recipients := v)
    case SetScheduled(v) => f.(scheduled := v)
    case SetScheduledDate(v) => f.(scheduledDate := v)
  }

  /** Applying a change and reading the field back gives the new value. */
  lemma ChangeTakesEffect(f: ComposeForm, c: Change)
    ensures c.SetTitle? ==> ApplyChange(f, c).title == c.title
    ensures c.SetContent? ==> ApplyChange(f, c).content == c.content
    ensures c.SetRecipients? ==> ApplyChange(f, c).recipients == c.recipients
    ensures c.SetScheduled? ==> ApplyChange(f, c).scheduled == c.scheduled
    ensures c.SetScheduledDate? ==> ApplyChange(f, c).scheduledDate == c.scheduledDate
    ensures ApplyChange(ApplyChange(f, c), c) == ApplyChange(f, c)
  {
  }

  /** `attachments.filter((_, i) => i !== index)`: every position except `index`. */
  function RemoveAt<T>(s: seq<T>, index: int): (r: seq<T>)
    ensures 0 <= index < |s| ==> |r| == |s| - 1
    ensures !(0 <= index < |s|) ==> r == s
    ensures 0 <= index < |s| ==> forall j :: 0 <= j < index ==> r[j] == s[j]
    ensures 0 <= index < |s| ==> forall j :: index <= j < |r| ==> r[j] == s[j + 1]
  {
    if 0 <= index < |s| then s[..index] + s[index + 1..] else s
  }

  /** Removing the attachment just uploaded restores the earlier list. */
  lemma RemoveUploaded<T>(s: seq<T>, x: T)
    ensures RemoveAt(s + [x], |s|) == s
  {
  }

  // ---------------------------------------------------------------------
  // Validation

  const TitleRequired := "Title is required"
  const ContentRequired := "Content is required"
  const RecipientsRequired := "Please select at least one recipient"
  const ScheduledDateRequired := "Scheduled date is required"

  /** The message map `validateForm` produces. */
  function ComposeErrors(f: ComposeForm): (e: map<Field, string>)
    ensures Title in e <==> IsBlank(f.title)
    ensures Content in e <==> IsBlank(f.content)
    ensures Recipients in e <==> |f.recipients| == 0
    ensures ScheduledDate in e <==> f.scheduled && f.scheduledDate == ""
    ensures e.Keys <= {Title, Content, Recipients, ScheduledDate}
  {
    var e1: map<Field, string> := if IsBlank(f.title) then map[Title := TitleRequired] else map[];
    var e2 := if IsBlank(f.content) then e1[Content := ContentRequired] else e1;
    var e3 := if |f.recipients| == 0 then e2[Recipients := RecipientsRequired] else e2;
    if f.scheduled && f.scheduledDate == "" then e3[ScheduledDate := ScheduledDateRequired] else e3
  }

  /** Each failed rule shows its own message. */
  lemma ComposeMessages(f: ComposeForm)
    ensures var e := ComposeErrors(f);
      && (Title in e ==> e[Title] == TitleRequired)
      && (Content in e ==> e[Content] == ContentRequired)
      && (Recipients in e ==> e[Recipients] == RecipientsRequired)
      && (ScheduledDate in e ==> e[ScheduledDate] == ScheduledDateRequired)
  {
  }

  /** The four rules, stated on the characters of the fields. */
  predicate ComposeValid(f: ComposeForm) {
    && (exists i :: 0 <= i < |f.title| && !IsSpace(f.title[i]))
    && (exists i :: 0 <= i < |f.content| && !IsSpace(f.content[i]))
    && |f.recipients| > 0
    && (f.scheduled ==> f.scheduledDate != "")
  }

  /**
   * The form passes exactly when title and content hold a non-space character, a recipient is
   * chosen, and a scheduled post has a date; the date is needed only for scheduled posts.
   */
  lemma ComposeValidIff(f: ComposeForm)
    ensures ComposeErrors(f) == map[] <==> ComposeValid(f)
  {
    BlankIffAllSpace(f.title);
    BlankIffAllSpace(f.content);
    var e := ComposeErrors(f);
    if !ComposeValid(f) {
      if !(exists i :: 0 <= i < |f.title| && !IsSpace(f.title[i])) {
        assert Title in e;
      } else if !(exists i :: 0 <= i < |f.content| && !IsSpace(f.content[i])) {
        assert Content in e;
      } else if |f.recipients| == 0 {
        assert Recipients in e;
      } else {
        assert ScheduledDate in e;
      }
    }
  }

  /** An unscheduled post never needs a date. */
  lemma UnscheduledNeedsNoDate(f: ComposeForm)
    requires !f.scheduled
    ensures ScheduledDate !in ComposeErrors(f)
  {
  }

  /** The empty default form fails on title, content and recipients, but not on the date. */
  lemma DefaultFormErrors()
    ensures ComposeErrors(DefaultForm).Keys == {Title, Content, Recipients}
  {
    assert IsBlank(DefaultForm.title);
  }

  // ---------------------------------------------------------------------
  // The component state

  class Composer {
    var form: ComposeForm
    var errors: map<Field, string>

    /** The state is created once, from the `editingAnnouncement` prop at that moment. */
    constructor (editing: Option<Seed>)
      ensures form == SeedForm(editing) && errors == map[]
    {
      form := SeedForm(editing);
      errors := map[];
    }

    /** `handleInputChange`: sets that field and clears only that field's message. */
    method InputChange(c: Change)
      modifies this
      ensures form == ApplyChange(old(form), c)
      ensures errors == ClearFieldError(old(errors), c.FieldOf())
    {
      form := ApplyChange(form, c);
      errors := ClearFieldError(errors, c.FieldOf());
    }

    /** `handleFileUpload`: the chosen files go after the existing attachments, in order. */
    method UploadFiles(files: seq<Attachment>)
      modifies this
      ensures form == old(form).(attachments := old(form).attachments + files)
      ensures errors == old(errors)
    {
      form := form.(attachments := form.attachments + files);
    }

    /** `removeAttachment(index)`. */
    method RemoveAttachment(index: int)
      modifies this
      ensures form == old(form).(attachments := RemoveAt(old(form).attachments, index))
      ensures errors == old(errors)
    {
      form := form.(attachments := RemoveAt(form.attachments, index));
    }

    /** `validateForm`: builds the message map rule by rule and stores it. */
    method Validate() returns (valid: bool)
      modifies this
      ensures form == old(form)
      ensures errors == ComposeErrors(form)
      ensures valid <==> ComposeValid(form)
    {
      var newErrors: map<Field, string> := map[];
      if IsBlank(form.title) {
        newErrors := newErrors[Title := TitleRequired];
      }
      if IsBlank(form.content) {
        newErrors := newErrors[Content := ContentRequired];
      }
      if |form.recipients| == 0 {
        newErrors := newErrors[Recipients := RecipientsRequired];
      }
      if form.scheduled && form.scheduledDate == "" {
        newErrors := newErrors[ScheduledDate := ScheduledDateRequired];
      }
      errors := newErrors;
      valid := |newErrors| == 0;
      ComposeValidIff(form);
      if valid {
        assert newErrors == map[];
      } else {
        assert newErrors != map[];
      }
    }

    /** The reset after a successful submit. */
    method Reset()
      modifies this
      ensures form == DefaultForm && errors == old(errors)
    {
      form := DefaultForm;
    }
  }
}
