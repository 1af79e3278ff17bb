/** The registration dialog (register-modal.jsx): the form for a participant or a
    community, its validation, the `register` request it sends and the status it
    shows afterwards. */
module RegisterModal {
  import C = Common
  import Text

  /** The two tabs; `RoleName` is the text the tab sets and the request carries. */
  datatype Role = Participant | Community

  function RoleName(role: Role): (r: string)
    ensures r == "participant" <==> role == Participant
    ensures r == "community" <==> role == Community
  {
    match role
    case Participant => "participant"
    case Community => "community"
  }

  /** The three inputs, named as their `name` attributes. */
  datatype Field = ParticipantName | CommunityName | InitialToken

  datatype FormData = FormData(participantName: string, communityName: string, initialToken: string)

  const EmptyForm: FormData := FormData("", "", "")

  /** `handleInputChange`: the named field takes the value; the other two are kept. */
  function SetField(form: FormData, field: Field, value: string): (r: FormData)
    ensures Get(r, field) == value
    ensures forall other: Field :: other != field ==> Get(r, other) == Get(form, other)
  {
    match field
    case ParticipantName => form.(participantName := value)
    case CommunityName => form.(communityName := value)
    case InitialToken => form.(initialToken := value)
  }

  function Get(form: FormData, field: Field): string
  {
    match field
    case ParticipantName => form.participantName
    case CommunityName => form.communityName
    case InitialToken => form.initialToken
  }

  /** `!value.trim()`: the input holds nothing but white space. */
  predicate Blank(s: string)
  {
    Text.Trim(s) == ""
  }

  /** The validation: a participant needs a name, a community both its name and its
      initial token, each with something other than white space in it. */
  function Validate(role: Role, form: FormData): (valid: bool)
    ensures valid <==> (role == Participant ==> !Text.AllWhitespace(form.participantName))
                       && (role == Community ==> !Text.AllWhitespace(form.communityName)
                                                 && !Text.AllWhitespace(form.initialToken))
  {
    Text.TrimEmpty(form.participantName);
    Text.TrimEmpty(form.communityName);
    Text.TrimEmpty(form.initialToken);
    match role
    case Participant => !Blank(form.participantName)
    case Community => !Blank(form.communityName) && !Blank(form.initialToken)
  }

  /** The argument of the backend's `register`. */
  datatype RegisterRequest = RegisterRequest(name: string, registerAs: string)

  /** The request as written: the name is always the participant name, whatever the role. */
  function RequestAsWritten(role: Role, form: FormData): (r: RegisterRequest)
    ensures r.registerAs == RoleName(role)
    ensures r.name == form.participantName
  {
    RegisterRequest(form.participantName, RoleName(role))
  }

  /** A community whose own fields pass the validation registers with an empty name:
      the participant name is the one the dialog leaves empty on that tab. */
  lemma CommunityRegistersWithoutName()
    ensures var form := FormData("", "Green Town", "100");
            Validate(Community, form) && RequestAsWritten(Community, form).name == ""
  {
    var form := FormData("", "Green Town", "100");
    assert !Text.IsWhitespace(form.communityName[0]);
    assert !Text.IsWhitespace(form.initialToken[0]);
  }

  /** The request with the name of the role being registered. */
  function Request(role: Role, form: FormData): (r: RegisterRequest)
    ensures r.registerAs == RoleName(role)
    ensures r.name == (if role == Participant then form.participantName else form.communityName)
  {
    RegisterRequest(if role == Participant then form.participantName else form.communityName, RoleName(role))
  }

  /** A request that passes the validation always carries a name with something in it. */
  lemma ValidRequestIsNamed(role: Role, form: FormData)
    requires Validate(role, form)
    ensures !Text.AllWhitespace(Request(role, form).name)
  {
  }

  /** For a participant the corrected request is the written one. */
  lemma ParticipantRequestUnchanged(form: FormData)
    ensures Request(Participant, form) == RequestAsWritten(Participant, form)
  {
  }

  /** The status line: none yet, success or error. */
  datatype Status = NoStatus | Success | Error

  /** The register button is disabled while loading and after a success. */
  function RegisterDisabled(isLoading: bool, status: Status): (r: bool)
    ensures !r <==> !isLoading && status != Success
  {
    isLoading || status == Success
  }

  /** The dialog's state. */
  class Modal {
    var isLoading: bool
    var status: Status
    var role: Role
    var form: FormData

    constructor ()
      ensures !isLoading && status == NoStatus && role == Participant && form == EmptyForm
    {
      isLoading := false;
      status := NoStatus;
      role := Participant;
      form := EmptyForm;
    }

    /** The tabs' `onValueChange`. */
    method SetRole(r: Role)
      modifies this
      ensures role == r
      ensures isLoading == old(isLoading) && status == old(status) && form == old(form)
    {
      role := r;
    }

    /** `handleInputChange`. */
    method HandleInputChange(field: Field, value: string)
      modifies this
      ensures form == SetField(old(form), field, value)
      ensures isLoading == old(isLoading) && status == old(status) && role == old(role)
    {
      form := SetField(form, field, value);
    }

    /** Closing the dialog clears the status and the form (after the fade-out); the
        role stays on the tab last chosen. */
    method Close()
      modifies this
      ensures status == NoStatus && form == EmptyForm
      ensures isLoading == old(isLoading) && role == old(role)
    {
      status := NoStatus;
      form := EmptyForm;
    }

    /** `handleRegister`, with the outcome of the backend call as a parameter. An
        invalid form sends nothing and shows the error. A valid one sends the request
        as written, which names the participant whatever the role; the reply decides
        between success, with the redirect, and the error. The call is not guarded, so
        when it throws the dialog stays loading with no status. */
    method HandleRegister(outcome: C.CallOutcome) returns (sent: C.Option<RegisterRequest>, redirect: bool)
      modifies this
      ensures sent.Some? <==> Validate(role, form)
      ensures sent.Some? ==> sent.value == RequestAsWritten(role, form)
      ensures sent.Some? && role == Participant ==>
                sent.value == Request(role, form) && !Text.AllWhitespace(sent.value.name)
      ensures redirect <==> sent.Some? && outcome.Replied? && outcome.reply.Ok?
      ensures isLoading <==> sent.Some? && outcome.Threw?
      ensures status == (if redirect then Success else if isLoading then NoStatus else Error)
      ensures role == old(role) && form == old(form)
    {
      isLoading := true;
      status := NoStatus;
      var isValid := true;
      if role == Participant && Blank(form.participantName) {
        isValid := false;
      } else if role == Community && (Blank(form.communityName) || Blank(form.initialToken)) {
        isValid := false;
      }
      if !isValid {
        status := Error;
        isLoading := false;
        return C.None, false;
      }
      sent := C.Some(RequestAsWritten(role, form));
      if role == Participant {
        ParticipantRequestUnchanged(form);
      }
      match outcome
      case Threw =>
        redirect := false;
      case Replied(Ok(_)) =>
        status := Success;
        isLoading := false;
        redirect := true;
      case Replied(Err(_)) =>
        status := Error;
        isLoading := false;
        redirect := false;
    }
  }
}
