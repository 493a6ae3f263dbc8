/**
 * The invitation dialog: an e-mail, name and role form with a welcome switch and a message,
 * the same three rules as the detail panel, and the submit and close paths that reset it.
 */
module InviteUserModal {
  import opened Optional
  import opened Text
  import opened FormRules

  datatype InviteForm = InviteForm(email: string, name: string, role: string, sendWelcome: bool, customMessage: string)

  datatype Field = Email | Name | Role | SendWelcome | CustomMessage

  /** One `handleInputChange(field, value)` call. */
  datatype Change =
    | SetEmail(email: string)
    | SetName(name: string)
    | SetRole(role: string)
    | SetSendWelcome(sendWelcome: bool)
    | SetCustomMessage(customMessage: string)
  {
    function FieldOf(): Field {
      match this
      case SetEmail(_) => Email
      case SetName(_) => Name
      case SetRole(_) => Role
      case SetSendWelcome(_) => SendWelcome
      case SetCustomMessage(_) => CustomMessage
    }
  }

  /** The empty form, with the welcome e-mail switched on. */
  const DefaultInvite := InviteForm("", "", "", true, "")

  function ApplyChange(f: InviteForm, c: Change): (r: InviteForm)
    ensures c.FieldOf() != Email ==> r.email == f.email
    ensures c.FieldOf() != Name ==> r.name == f.name
    ensures c.FieldOf() != Role ==> r.role == f.role
    ensures c.FieldOf() != SendWelcome ==> r.sendWelcome == f.sendWelcome
    ensures c.FieldOf() != CustomMessage ==> r.customMessage == f.customMessage
  {
    match c
    case SetEmail(v) => f.(email := v)
    case SetName(v) => f.(name := v)
    case SetRole(v) => f.(role := v)
    case SetSendWelcome(v) => f.(sendWelcome := v)
    case SetCustomMessage(v) => f.(customMessage := v)
  }

  /** The message map `validateForm` produces: e-mail first, then name, then role. */
  function InviteErrors(f: InviteForm): (e: map<Field, string>)
    ensures Email in e <==> EmailError(f.email).Some?
    ensures Name in e <==> IsBlank(f.name)
    ensures Role in e <==> f.role == ""
    ensures e.Keys <= {Email, Name, Role}
    ensures Email in e ==> e[Email] == EmailError(f.email).value
    ensures Name in e ==> e[Name] == NameRequired
    ensures Role in e ==> e[Role] == RoleRequired
  {
    var e1: map<Field, string> := match EmailError(f.email) case Some(m) => map[Email := m] case None => map[];
    var e2 := if IsBlank(f.name) then e1[Name := NameRequired] else e1;
    if f.role == "" then e2[Role := RoleRequired] else e2
  }

  ghost predicate InviteValid(f: InviteForm) {
    && PatternOccurs(f.email)
    && (exists i :: 0 <= i < |f.name| && !IsSpace(f.name[i]))
    && f.role != ""
  }

  /** The invitation passes exactly when the address matches, the name has a non-space character and a role is chosen. */
  lemma InviteValidIff(f: InviteForm)
    ensures InviteErrors(f) == map[] <==> InviteValid(f)
  {
    BlankIffAllSpace(f.name);
    EmailAccepted(f.email);
    var e := InviteErrors(f);
    if !InviteValid(f) {
      if !PatternOccurs(f.email) {
        assert Email in e;
      } else if !(exists i :: 0 <= i < |f.name| && !IsSpace(f.name[i])) {
        assert Name in e;
      } else {
        assert Role in e;
      }
    }
  }

  /** The welcome switch and the message are never checked; the empty form fails all three rules. */
  lemma InviteRulesScope(f: InviteForm, b: bool, m: string)
    ensures InviteErrors(f.(sendWelcome := b, customMessage := m)) == InviteErrors(f)
    ensures InviteErrors(DefaultInvite).Keys == {Email, Name, Role}
    ensures InviteErrors(DefaultInvite)[Email] == EmailRequired
  {
    assert IsBlank(DefaultInvite.email);
    assert IsBlank(DefaultInvite.name);
  }

  class Modal {
    var form: InviteForm
    var errors: map<Field, string>

    constructor ()
      ensures form == DefaultInvite && errors == map[]
    {
      form := DefaultInvite;
      errors := map[];
    }

    /** `handleInputChange`: sets that field and clears only that field's message. */
    method InputChange(c: Change)
      modifies this
      ensures form == ApplyChange(old(form), c)
      ensures errors == ClearFieldError(old(errors), c.FieldOf())
    {
      form := ApplyChange(form, c);
      errors := ClearFieldError(errors, c.FieldOf());
    }

    /** `validateForm`: builds the message map rule by rule and stores it. */
    method Validate() returns (valid: bool)
      modifies this
      ensures form == old(form)
      ensures errors == InviteErrors(form)
      ensures valid <==> InviteValid(form)
    {
      var newErrors: map<Field, string> := map[];
      if IsBlank(form.email) {
        newErrors := newErrors[Email := EmailRequired];
      } else if !EmailLooksValid(form.email) {
        newErrors := newErrors[Email := InvalidEmailFormat];
      }
      if IsBlank(form.name) {
        newErrors := newErrors[Name := NameRequired];
      }
      if form.role == "" {
        newErrors := newErrors[Role := RoleRequired];
      }
      errors := newErrors;
      valid := |newErrors| == 0;
      InviteValidIff(form);
      if valid {
        assert newErrors == map[];
      } else {
        assert newErrors != map[];
      }
    }

    /**
     * `handleSubmit`: an invalid form stops before `onInvite`. Otherwise the form is handed to
     * `onInvite`; `inviteFails` is whether that call throws. On success the form resets and the
     * dialog closes; on failure both stay.
     */
    method Submit(inviteFails: bool) returns (invited: Option<InviteForm>, closed: bool)
      modifies this
      ensures !InviteValid(old(form)) ==> invited.None? && !closed && form == old(form)
      ensures InviteValid(old(form)) ==> invited == Some(old(form))
      ensures InviteValid(old(form)) && !inviteFails ==> form == DefaultInvite && closed
      ensures InviteValid(old(form)) && inviteFails ==> form == old(form) && !closed
      ensures errors == InviteErrors(old(form))
    {
      var valid := Validate();
      invited, closed := None, false;
      if !valid {
        return;
      }
      invited := Some(form);
      if !inviteFails {
        form := DefaultInvite;
        closed := true;
      }
    }

    /** `handleClose`: the form resets and every message is cleared. */
    method Close()
      modifies this
      ensures form == DefaultInvite && errors == map[]
    {
      form := DefaultInvite;
      errors := map[];
    }
  }
}
