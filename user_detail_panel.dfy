/**
 * The user detail panel: a form loaded from the open user, per-field edits that clear that
 * field's error, the notification switches, and the name, e-mail and role rules checked
 * before the form is handed back to the page.
 */
module UserDetailPanel {
  import opened Optional
  import opened Text
  import opened FormRules
  import opened UserManagement

  /** The fields with an input; only name, e-mail and role ever carry an error. */
  datatype Field = Name | Email | Phone | Bio | Role | Status | Skills | Availability

  /** One `handleInputChange(field, value)` call. */
  datatype Change =
    | SetName(name: string)
    | SetEmail(email: string)
    | SetPhone(phone: string)
    | SetBio(bio: string)
    | SetRole(role: string)
    | SetStatus(status: string)
    | SetSkills(skills: seq<string>)
    | SetAvailability(availability: seq<string>)
  {
    function FieldOf(): Field {
      match this
      case SetName(_) => Name
      case SetEmail(_) => Email
      case SetPhone(_) => Phone
      case SetBio(_) => Bio
      case SetRole(_) => Role
      case SetStatus(_) => Status
      case SetSkills(_) => Skills
      case SetAvailability(_) => Availability
    }
  }

  /** E-mail and push notifications on, SMS off. */
  const DefaultNotifications := Notifications(true, false, true)

  /** The form before any user is loaded. */
  const DefaultForm := UserForm("", "", "", "", "", [], [], DefaultNotifications, "")

  /** A user record as the panel reads it: any field may be missing. */
  datatype UserRecord = UserRecord(
    name: Option<string>,
    email: Option<string>,
    phone: Option<string>,
    role: Option<string>,
    status: Option<string>,
    skills: Option<seq<string>>,
    availability: Option<seq<string>>,
    notifications: Option<Notifications>,
    bio: Option<string>)

  /** The record of a user of the page, where every field is present. */
  function RecordOf(u: User): UserRecord {
    UserRecord(Some(u.name), Some(u.email), Some(u.phone), Some(u.role), Some(u.status),
               Some(u.skills), Some(u.availability), Some(u.notifications), Some(u.bio))
  }

  /**
   * The user-load effect: each field from the record, a missing one from the defaults: empty
   * texts and lists, and e-mail on, SMS off, push on. An empty text falls back to the empty
   * text and lists and objects are never falsy, so a present field is always taken.
   */
  function LoadedForm(r: UserRecord): (f: UserForm)
    ensures r.name.Some? ==> f.name == r.name.value
    ensures r.email.Some? ==> f.email == r.email.value
    ensures r.role.Some? ==> f.role == r.role.value
    ensures r.skills.Some? ==> f.skills == r.skills.value
    ensures r.notifications.Some? ==> f.notifications == r.notifications.value
    ensures r.name.None? ==> f.name == ""
    ensures r.email.None? ==> f.email == ""
    ensures r.role.None? ==> f.role == ""
    ensures r.skills.None? ==> f.skills == []
    ensures r.notifications.None? ==> f.notifications == DefaultNotifications
  {
    UserForm(r.name.GetOr(""), r.email.GetOr(""), r.phone.GetOr(""), r.role.GetOr(""), r.status.GetOr(""),
             r.skills.GetOr([]), r.availability.GetOr([]), r.notifications.GetOr(DefaultNotifications),
             r.bio.GetOr(""))
  }

  /** A record with nothing in it loads the default form. */
  lemma EmptyRecordLoadsDefaults()
    ensures LoadedForm(UserRecord(None, None, None, None, None, None, None, None, None)) == DefaultForm
  {
  }

  /** A user of the page loads as its own fields, so saving the loaded form changes nothing. */
  lemma LoadThenSaveIsIdentity(u: User)
    ensures LoadedForm(RecordOf(u)) == FormOf(u)
    ensures Merge(u, LoadedForm(RecordOf(u))) == u
  {
    MergeOwnForm(u);
  }

  /** The form with one field replaced. */
  function ApplyChange(f: UserForm, c: Change): (r: UserForm)
    ensures c.FieldOf() != Name ==> r.name == f.name
    ensures c.FieldOf() != Email ==> r.email == f.email
    ensures c.FieldOf() != Phone ==> r.phone == f.phone
    ensures c.FieldOf() != Bio ==> r.bio == f.bio
    ensures c.FieldOf() != Role ==> r.role == f.role
    ensures c.FieldOf() != Status ==> r.status == f.status
    ensures c.FieldOf() != Skills ==> r.skills == f.skills
    ensures c.FieldOf() != Availability ==> r.availability == f.availability
    ensures r.notifications == f.notifications
  {
    match c
    case SetName(v) => f.(name := v)
    case SetEmail(v) => f.(email := v)
    case SetPhone(v) => f.(phone := v)
    case SetBio(v) => f.(bio := v)
    case SetRole(v) => f.(role := v)
    case SetStatus(v) => f.(status := v)
    case SetSkills(v) => f.(skills := v)
    case SetAvailability(v) => f.(availability := v)
  }

  /** The change takes effect: the field reads back as the new value. */
  lemma ChangeTakesEffect(f: UserForm, c: Change)
    ensures c.SetName? ==> ApplyChange(f, c).name == c.name
    ensures c.SetEmail? ==> ApplyChange(f, c).email == c.email
    ensures c.SetRole? ==> ApplyChange(f, c).role == c.role
    ensures c.SetSkills? ==> ApplyChange(f, c).skills == c.skills
    ensures ApplyChange(ApplyChange(f, c), c) == ApplyChange(f, c)
  {
  }

  datatype Channel = EmailChannel | SmsChannel | PushChannel

  /** `handleNotificationChange(type, checked)`: only the named switch takes the new value. */
  function SetChannel(n: Notifications, ch: Channel, checked: bool): (r: Notifications)
    ensures r.email == (if ch == EmailChannel then checked else n.email)
    ensures r.sms == (if ch == SmsChannel then checked else n.sms)
    ensures r.push == (if ch == PushChannel then checked else n.push)
  {
    match ch
    case EmailChannel => n.(email := checked)
    case SmsChannel => n.(sms := checked)
    case PushChannel => n.(push := checked)
  }

  /** Switching a channel back restores the switches. */
  lemma SetChannelUndo(n: Notifications, ch: Channel, checked: bool)
    ensures ch == EmailChannel ==> SetChannel(SetChannel(n, ch, checked), ch, n.email) == n
    ensures ch == SmsChannel ==> SetChannel(SetChannel(n, ch, checked), ch, n.sms) == n
    ensures ch == PushChannel ==> SetChannel(SetChannel(n, ch, checked), ch, n.push) == n
  {
  }

  // ---------------------------------------------------------------------
  // Validation

  /** The message map `validateForm` produces; the status is not checked. */
  function PanelErrors(f: UserForm): (e: map<Field, string>)
    ensures Name in e <==> IsBlank(f.name)
    ensures Email in e <==> EmailError(f.email).Some?
    ensures Role in e <==> f.role == ""
    ensures e.Keys <= {Name, Email, Role}
    ensures Name in e ==> e[Name] == NameRequired
    ensures Email in e ==> e[Email] == EmailError(f.email).value
    ensures Role in e ==> e[Role] == RoleRequired
  {
    var e1: map<Field, string> := if IsBlank(f.name) then map[Name := NameRequired] else map[];
    var e2 := match EmailError(f.email) case Some(m) => e1[Email := m] case None => e1;
    if f.role == "" then e2[Role := RoleRequired] else e2
  }

  /** The three rules, on the characters and the pattern: the status plays no part. */
  ghost predicate PanelValid(f: UserForm) {
    && (exists i :: 0 <= i < |f.name| && !IsSpace(f.name[i]))
    && PatternOccurs(f.email)
    && f.role != ""
  }

  /** The form passes exactly when the name has a non-space character, the address matches and a role is set. */
  lemma PanelValidIff(f: UserForm)
    ensures PanelErrors(f) == map[] <==> PanelValid(f)
  {
    BlankIffAllSpace(f.name);
    EmailAccepted(f.email);
    var e := PanelErrors(f);
    if !PanelValid(f) {
      if !(exists i :: 0 <= i < |f.name| && !IsSpace(f.name[i])) {
        assert Name in e;
      } else if !PatternOccurs(f.email) {
        assert Email in e;
      } else {
        assert Role in e;
      }
    }
  }

  /** A blank address is reported as missing, never as badly formed. */
  lemma BlankEmailIsMissing(f: UserForm)
    requires IsBlank(f.email)
    ensures PanelErrors(f)[Email] == EmailRequired
  {
  }

  /** Editing the status never changes the outcome of the check. */
  lemma StatusNotChecked(f: UserForm, s: string)
    ensures PanelErrors(f.(status := s)) == PanelErrors(f)
  {
  }

  class Panel {
    var form: UserForm
    var errors: map<Field, string>

    constructor ()
      ensures form == DefaultForm && errors == map[]
    {
      form := DefaultForm;
      errors := map[];
    }

    /** The effect on a new `user` prop: a user fills the form; without one the form stays. */
    method LoadUser(user: Option<UserRecord>)
      modifies this
      ensures user.Some? ==> form == LoadedForm(user.value)
      ensures user.None? ==> form == old(form)
      ensures errors == old(errors)
    {
      if user.Some? {
        form := LoadedForm(user.value);
      }
    }

    /** `handleInputChange`: sets that field and clears only that field's message. */
    method InputChange(c: Change)
      modifies this
      ensures form == ApplyChange(old(form), c)
      ensures errors == ClearFieldError(old(errors), c.FieldOf())
    {
      form := ApplyChange(form, c);
      errors := ClearFieldError(errors, c.FieldOf());
    }

    method NotificationChange(ch: Channel, checked: bool)
      modifies this
      ensures form == old(form).(notifications := SetChannel(old(form).notifications, ch, checked))
      ensures errors == old(errors)
    {
      form := form.(notifications := SetChannel(form.notifications, ch, checked));
    }

    /** `validateForm`: builds the message map rule by rule and stores it. */
    method Validate() returns (valid: bool)
      modifies this
      ensures form == old(form)
      ensures errors == PanelErrors(form)
      ensures valid <==> PanelValid(form)
    {
      var newErrors: map<Field, string> := map[];
      if IsBlank(form.name) {
        newErrors := newErrors[Name := NameRequired];
      }
      if IsBlank(form.email) {
        newErrors := newErrors[Email := EmailRequired];
      } else if !EmailLooksValid(form.email) {
        newErrors := newErrors[Email := InvalidEmailFormat];
      }
      if form.role == "" {
        newErrors := newErrors[Role := RoleRequired];
      }
      errors := newErrors;
      valid := |newErrors| == 0;
      PanelValidIff(form);
      if valid {
        assert newErrors == map[];
      } else {
        assert newErrors != map[];
      }
    }

    /**
     * `handleSave`: a valid form is handed to `onSave` and the panel asks to close; an invalid
     * one is kept with its messages and nothing is handed over.
     */
    method Save() returns (saved: Option<UserForm>)
      modifies this
      ensures form == old(form) && errors == PanelErrors(form)
      ensures saved.Some? <==> PanelValid(form)
      ensures saved.Some? ==> saved.value == form
    {
      var valid := Validate();
      if valid {
        saved := Some(form);
      } else {
        saved := None;
      }
    }
  }
}
