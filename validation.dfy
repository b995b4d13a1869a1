/**
 * Field validators for the three request bodies. Each validator runs a
 * fixed list of checks in order and collects one message per failing
 * check; the result is success exactly when no check failed.
 *
 * Bodies are parsed JSON, so every field may be absent (`None`).
 */
module Validation {
  import opened Wrappers
  import opened Strings
  import opened Models

  // ---------------------------------------------------------------------
  // Request bodies
  // ---------------------------------------------------------------------

  datatype UserInput = UserInput(
    name: Option<string>,
    email: Option<string>,
    password: Option<string>,
    role: Option<string>)

  datatype CustomerInput = CustomerInput(
    name: Option<string>,
    contactTitle: Option<string>,
    email: Option<string>,
    phone: Option<string>,
    agentId: Option<string>)

  /** A JSON `callDuration`: absent, a number, or some other JSON value (string, null, ...). */
  datatype DurationInput = Undefined | Number(seconds: int) | NotANumber

  datatype InteractionInput = InteractionInput(
    customerId: Option<string>,
    agentId: Option<string>,
    callDuration: DurationInput,
    followUpStatus: Option<string>,
    note: Option<string>,
    supervisorComment: Option<string>,
    callStatus: Option<string>,
    date: Option<Millis>)

  /** Every message a validator can report. */
  datatype Error =
    | NameRequired
    | NameTooLong
    | InvalidEmail
    | PasswordTooShort
    | InvalidRole
    | CustomerNameRequired
    | CustomerNameTooLong
    | ContactTitleTooLong
    | PhoneTooLong
    | AgentIdRequired
    | CustomerIdRequired
    | DurationInvalid
    | InvalidFollowUp
    | NoteTooLong
    | CommentTooLong
    | InvalidCallStatus

  /** The text of each message, as it appears in a 400 response. */
  function Message(e: Error): string {
    match e
    case NameRequired => "Name is required"
    case NameTooLong => "Name must be less than 100 characters"
    case InvalidEmail => "Invalid email address"
    case PasswordTooShort => "Password must be at least 6 characters"
    case InvalidRole => "Invalid role"
    case CustomerNameRequired => "Customer name is required"
    case CustomerNameTooLong => "Customer name must be less than 100 characters"
    case ContactTitleTooLong => "Contact title must be less than 100 characters"
    case PhoneTooLong => "Phone number must be less than 20 characters"
    case AgentIdRequired => "Agent ID is required"
    case CustomerIdRequired => "Customer ID is required"
    case DurationInvalid => "Call duration must be a positive number"
    case InvalidFollowUp => "Invalid follow-up status"
    case NoteTooLong => "Note must be less than 1000 characters"
    case CommentTooLong => "Supervisor comment must be less than 1000 characters"
    case InvalidCallStatus => "Invalid call status"
  }

  /** What a validator returns: `{ success: true }` or `{ success: false, errors }`. */
  datatype Verdict = Success | Failure(errors: seq<Error>)

  function VerdictOf(errors: seq<Error>): (r: Verdict)
    ensures r.Success? <==> errors == []
    ensures r.Failure? ==> r.errors == errors && |r.errors| > 0
  {
    if |errors| > 0 then Failure(errors) else Success
  }

  // ---------------------------------------------------------------------
  // The e-mail pattern  ^[^\s@]+@[^\s@]+\.[^\s@]+$
  // ---------------------------------------------------------------------

  /** A character of the class `[^\s@]`. */
  predicate EmailChar(c: char) {
    !IsJsWhitespace(c) && c != '@'
  }

  /** A run `[^\s@]+`. */
  predicate Segment(s: string) {
    |s| > 0 && forall k :: 0 <= k < |s| ==> EmailChar(s[k])
  }

  /** The language of the regular expression: three runs joined by `@` and `.`. */
  ghost predicate MatchesEmailPattern(s: string) {
    exists i, j :: 0 < i < j < |s| && s[i] == '@' && s[j] == '.'
      && Segment(s[..i]) && Segment(s[i + 1..j]) && Segment(s[j + 1..])
  }

  /**
   * The executable test: no white space, exactly one `@` with something
   * before it, and a `.` in the domain with something on each side.
   */
  predicate IsEmail(s: string) {
    && (forall k :: 0 <= k < |s| ==> !IsJsWhitespace(s[k]))
    && exists i :: 0 < i < |s| && s[i] == '@'
         && (forall k :: 0 <= k < |s| && k != i ==> s[k] != '@')
         && exists j :: i + 1 < j < |s| - 1 && s[j] == '.'
  }

  /** A slice all of whose characters are of the class `[^\s@]` is a run. */
  lemma SliceIsSegment(s: string, lo: int, hi: int)
    requires 0 <= lo < hi <= |s|
    requires forall k :: lo <= k < hi ==> EmailChar(s[k])
    ensures Segment(s[lo..hi])
  {
    forall k | 0 <= k < hi - lo
      ensures EmailChar(s[lo..hi][k])
    {
      assert s[lo..hi][k] == s[lo + k];
    }
  }

  /** Every string the executable test accepts matches the regular expression. */
  lemma IsEmailSound(s: string)
    requires IsEmail(s)
    ensures MatchesEmailPattern(s)
  {
    var i :| 0 < i < |s| && s[i] == '@'
       && (forall k :: 0 <= k < |s| && k != i ==> s[k] != '@')
       && exists j :: i + 1 < j < |s| - 1 && s[j] == '.';
    var j :| i + 1 < j < |s| - 1 && s[j] == '.';
    SliceIsSegment(s, 0, i);
    SliceIsSegment(s, i + 1, j);
    SliceIsSegment(s, j + 1, |s|);
    assert s[..i] == s[0..i];
    assert s[j + 1..] == s[j + 1..|s|];
  }

  /** Every string the regular expression matches passes the executable test. */
  lemma IsEmailComplete(s: string)
    requires MatchesEmailPattern(s)
    ensures IsEmail(s)
  {
    var i, j :| 0 < i < j < |s| && s[i] == '@' && s[j] == '.'
      && Segment(s[..i]) && Segment(s[i + 1..j]) && Segment(s[j + 1..]);
    forall k | 0 <= k < |s|
      ensures !IsJsWhitespace(s[k]) && (k != i ==> s[k] != '@')
    {
      if k < i {
        assert s[k] == s[..i][k];
      } else if i < k < j {
        assert s[k] == s[i + 1..j][k - i - 1];
      } else if j < k {
        assert s[k] == s[j + 1..][k - j - 1];
      }
    }
    assert |s[i + 1..j]| > 0 && |s[j + 1..]| > 0;
    assert i + 1 < j < |s| - 1;
  }

  /** The executable test accepts exactly the strings the regular expression matches. */
  lemma IsEmailMatchesPattern(s: string)
    ensures IsEmail(s) <==> MatchesEmailPattern(s)
  {
    if IsEmail(s) {
      IsEmailSound(s);
    }
    if MatchesEmailPattern(s) {
      IsEmailComplete(s);
    }
  }

  // ---------------------------------------------------------------------
  // Collecting messages
  // ---------------------------------------------------------------------

  /** `if (failed) errors.push(e)` */
  function Push(errors: seq<Error>, failed: bool, e: Error): (r: seq<Error>)
    ensures forall m :: m in r <==> m in errors || (failed && m == e)
    ensures |r| == |errors| + (if failed then 1 else 0)
  {
    if failed then errors + [e] else errors
  }

  // ---------------------------------------------------------------------
  // Shared field tests
  // ---------------------------------------------------------------------

  /** An absent, empty or all-white-space field. */
  predicate MissingOrBlank(x: Option<string>) {
    !Truthy(x) || IsBlank(x.value)
  }

  /** `!x || x.trim().length === 0` */
  function TrimsToNothing(x: Option<string>): (r: bool)
    ensures r == MissingOrBlank(x)
  {
    !Truthy(x) || (TrimEmptyIffBlank(x.value); |Trim(x.value)| == 0)
  }

  /** `x && x.length > n` */
  predicate LongerThan(x: Option<string>, n: nat) {
    Truthy(x) && Utf16Length(x.value) > n
  }

  // ---------------------------------------------------------------------
  // validateUser
  // ---------------------------------------------------------------------

  /** The outcome of each test validateUser makes, in the order it makes them. */
  datatype UserChecks = UserChecks(
    nameMissing: bool, nameTooLong: bool, emailInvalid: bool, passwordTooShort: bool, roleInvalid: bool)

  /** The tests as validateUser writes them; the length test is the `else` of the blank test. */
  function CheckUser(d: UserInput): UserChecks {
    var nameMissing := TrimsToNothing(d.name);
    UserChecks(
      nameMissing,
      !nameMissing && Utf16Length(d.name.value) > 100,
      !Truthy(d.email) || !IsEmail(d.email.value),
      !Truthy(d.password) || Utf16Length(d.password.value) < 6,
      !Truthy(d.role) || ParseRole(d.role.value).None?)
  }

  /** The messages of the failing tests, in the order validateUser pushes them. */
  function UserErrors(c: UserChecks): seq<Error> {
    var errors := Push([], c.nameMissing, NameRequired);
    var errors := Push(errors, c.nameTooLong, NameTooLong);
    var errors := Push(errors, c.emailInvalid, InvalidEmail);
    var errors := Push(errors, c.passwordTooShort, PasswordTooShort);
    Push(errors, c.roleInvalid, InvalidRole)
  }

  /** validateUser */
  method ValidateUser(d: UserInput) returns (r: Verdict)
    ensures r == VerdictOf(UserErrors(CheckUser(d)))
  {
    var c := CheckUser(d);
    var errors: seq<Error> := [];
    if c.nameMissing {
      errors := errors + [NameRequired];
    } else if c.nameTooLong {
      errors := errors + [NameTooLong];
    }
    if c.emailInvalid {
      errors := errors + [InvalidEmail];
    }
    if c.passwordTooShort {
      errors := errors + [PasswordTooShort];
    }
    if c.roleInvalid {
      errors := errors + [InvalidRole];
    }
    r := VerdictOf(errors);
  }

  /** Which messages validateUser reports, in terms of the tests that fail. */
  lemma UserErrorsMembership(c: UserChecks)
    ensures NameRequired in UserErrors(c) <==> c.nameMissing
    ensures NameTooLong in UserErrors(c) <==> c.nameTooLong
    ensures InvalidEmail in UserErrors(c) <==> c.emailInvalid
    ensures PasswordTooShort in UserErrors(c) <==> c.passwordTooShort
    ensures InvalidRole in UserErrors(c) <==> c.roleInvalid
  {
  }

  /** What validateUser accepts and rejects, message by message. */
  lemma UserErrorsExactly(d: UserInput)
    ensures NameRequired in UserErrors(CheckUser(d)) <==> MissingOrBlank(d.name)
    ensures NameTooLong in UserErrors(CheckUser(d)) <==> !MissingOrBlank(d.name) && Utf16Length(d.name.value) > 100
    ensures InvalidEmail in UserErrors(CheckUser(d)) <==> !Truthy(d.email) || !MatchesEmailPattern(d.email.value)
    ensures PasswordTooShort in UserErrors(CheckUser(d)) <==> !Truthy(d.password) || Utf16Length(d.password.value) < 6
    ensures InvalidRole in UserErrors(CheckUser(d))
      <==> !Truthy(d.role) || d.role.value !in ["admin", "supervisor", "agent"]
  {
    var c := CheckUser(d);
    UserErrorsMembership(c);
    if Truthy(d.email) {
      IsEmailMatchesPattern(d.email.value);
    }
  }

  /**
   * The limits count UTF-16 code units: three characters beyond U+FFFF are a
   * long enough password, and sixty of them are too long a name.
   */
  lemma LimitsCountCodeUnits(d: UserInput)
    requires d.password == Some(seq(3, _ => '\U{1F600}'))
    requires d.name == Some(seq(60, _ => '\U{1F600}'))
    ensures PasswordTooShort !in UserErrors(CheckUser(d))
    ensures NameTooLong in UserErrors(CheckUser(d))
  {
    Utf16LengthIsDouble(d.password.value);
    Utf16LengthIsDouble(d.name.value);
    assert !IsJsWhitespace(d.name.value[0]);
    UserErrorsExactly(d);
  }

  // ---------------------------------------------------------------------
  // validateCustomer
  // ---------------------------------------------------------------------

  /** The outcome of each test validateCustomer makes, in the order it makes them. */
  datatype CustomerChecks = CustomerChecks(
    nameMissing: bool, nameTooLong: bool, titleTooLong: bool, emailInvalid: bool,
    phoneTooLong: bool, agentMissing: bool)

  /**
   * The tests as validateCustomer writes them. Contact title, e-mail and
   * phone are optional: each is tested only when it is present and non-empty.
   */
  function CheckCustomer(d: CustomerInput): CustomerChecks {
    var nameMissing := TrimsToNothing(d.name);
    CustomerChecks(
      nameMissing,
      !nameMissing && Utf16Length(d.name.value) > 100,
      LongerThan(d.contactTitle, 100),
      Truthy(d.email) && !IsEmail(d.email.value),
      LongerThan(d.phone, 20),
      TrimsToNothing(d.agentId))
  }

  /** The messages of the failing tests, in the order validateCustomer pushes them. */
  function CustomerErrors(c: CustomerChecks): seq<Error> {
    var errors := Push([], c.nameMissing, CustomerNameRequired);
    var errors := Push(errors, c.nameTooLong, CustomerNameTooLong);
    var errors := Push(errors, c.titleTooLong, ContactTitleTooLong);
    var errors := Push(errors, c.emailInvalid, InvalidEmail);
    var errors := Push(errors, c.phoneTooLong, PhoneTooLong);
    Push(errors, c.agentMissing, AgentIdRequired)
  }

  /** validateCustomer */
  method ValidateCustomer(d: CustomerInput) returns (r: Verdict)
    ensures r == VerdictOf(CustomerErrors(CheckCustomer(d)))
  {
    var c := CheckCustomer(d);
    var errors: seq<Error> := [];
    if c.nameMissing {
      errors := errors + [CustomerNameRequired];
    } else if c.nameTooLong {
      errors := errors + [CustomerNameTooLong];
    }
    if c.titleTooLong {
      errors := errors + [ContactTitleTooLong];
    }
    if c.emailInvalid {
      errors := errors + [InvalidEmail];
    }
    if c.phoneTooLong {
      errors := errors + [PhoneTooLong];
    }
    if c.agentMissing {
      errors := errors + [AgentIdRequired];
    }
    r := VerdictOf(errors);
  }

  /** Which messages validateCustomer reports, in terms of the tests that fail. */
  lemma CustomerErrorsMembership(c: CustomerChecks)
    ensures CustomerNameRequired in CustomerErrors(c) <==> c.nameMissing
    ensures CustomerNameTooLong in CustomerErrors(c) <==> c.nameTooLong
    ensures ContactTitleTooLong in CustomerErrors(c) <==> c.titleTooLong
    ensures InvalidEmail in CustomerErrors(c) <==> c.emailInvalid
    ensures PhoneTooLong in CustomerErrors(c) <==> c.phoneTooLong
    ensures AgentIdRequired in CustomerErrors(c) <==> c.agentMissing
  {
  }

  /** What validateCustomer accepts and rejects, message by message. */
  lemma CustomerErrorsExactly(d: CustomerInput)
    ensures CustomerNameRequired in CustomerErrors(CheckCustomer(d)) <==> MissingOrBlank(d.name)
    ensures CustomerNameTooLong in CustomerErrors(CheckCustomer(d))
      <==> !MissingOrBlank(d.name) && Utf16Length(d.name.value) > 100
    ensures ContactTitleTooLong in CustomerErrors(CheckCustomer(d))
      <==> d.contactTitle.Some? && Utf16Length(d.contactTitle.value) > 100
    ensures InvalidEmail in CustomerErrors(CheckCustomer(d))
      <==> Truthy(d.email) && !MatchesEmailPattern(d.email.value)
    ensures PhoneTooLong in CustomerErrors(CheckCustomer(d)) <==> d.phone.Some? && Utf16Length(d.phone.value) > 20
    ensures AgentIdRequired in CustomerErrors(CheckCustomer(d)) <==> MissingOrBlank(d.agentId)
  {
    CustomerErrorsMembership(CheckCustomer(d));
    if Truthy(d.email) {
      IsEmailMatchesPattern(d.email.value);
    }
  }

  /** A customer with a name and an agent, and no optional field, passes. */
  lemma MinimalCustomerIsValid(name: string, agentId: string)
    requires !IsBlank(name) && Utf16Length(name) <= 100 && !IsBlank(agentId)
    ensures CustomerErrors(CheckCustomer(CustomerInput(Some(name), None, None, None, Some(agentId)))) == []
  {
  }

  // ---------------------------------------------------------------------
  // validateInteraction
  // ---------------------------------------------------------------------

  /** The outcome of each test validateInteraction makes, in the order it makes them. */
  datatype InteractionChecks = InteractionChecks(
    customerMissing: bool, agentMissing: bool, durationInvalid: bool, followUpInvalid: bool,
    noteTooLong: bool, commentTooLong: bool, callStatusInvalid: bool)

  /**
   * `callDuration !== undefined && (typeof callDuration !== 'number' || callDuration < 0)`:
   * an absent duration passes, a present one must be a non-negative number.
   */
  predicate BadDuration(x: DurationInput) {
    match x
    case Undefined => false
    case Number(n) => n < 0
    case NotANumber => true
  }

  /**
   * The tests as validateInteraction writes them. Follow-up status, note,
   * comment and call status are tested only when present and non-empty.
   */
  function CheckInteraction(d: InteractionInput): InteractionChecks {
    InteractionChecks(
      TrimsToNothing(d.customerId),
      TrimsToNothing(d.agentId),
      BadDuration(d.callDuration),
      Truthy(d.followUpStatus) && ParseFollowUp(d.followUpStatus.value).None?,
      LongerThan(d.note, 1000),
      LongerThan(d.supervisorComment, 1000),
      Truthy(d.callStatus) && ParseCallStatus(d.callStatus.value).None?)
  }

  /** The messages of the failing tests, in the order validateInteraction pushes them. */
  function InteractionErrors(c: InteractionChecks): seq<Error> {
    var errors := Push([], c.customerMissing, CustomerIdRequired);
    var errors := Push(errors, c.agentMissing, AgentIdRequired);
    var errors := Push(errors, c.durationInvalid, DurationInvalid);
    var errors := Push(errors, c.followUpInvalid, InvalidFollowUp);
    var errors := Push(errors, c.noteTooLong, NoteTooLong);
    var errors := Push(errors, c.commentTooLong, CommentTooLong);
    Push(errors, c.callStatusInvalid, InvalidCallStatus)
  }

  /** validateInteraction */
  method ValidateInteraction(d: InteractionInput) returns (r: Verdict)
    ensures r == VerdictOf(InteractionErrors(CheckInteraction(d)))
  {
    var c := CheckInteraction(d);
    var errors: seq<Error> := [];
    if c.customerMissing {
      errors := errors + [CustomerIdRequired];
    }
    if c.agentMissing {
      errors := errors + [AgentIdRequired];
    }
    if c.durationInvalid {
      errors := errors + [DurationInvalid];
    }
    if c.followUpInvalid {
      errors := errors + [InvalidFollowUp];
    }
    if c.noteTooLong {
      errors := errors + [NoteTooLong];
    }
    if c.commentTooLong {
      errors := errors + [CommentTooLong];
    }
    if c.callStatusInvalid {
      errors := errors + [InvalidCallStatus];
    }
    r := VerdictOf(errors);
  }

  /** The messages of the three tests every body must pass. */
  lemma InteractionRequiredMembership(c: InteractionChecks)
    ensures CustomerIdRequired in InteractionErrors(c) <==> c.customerMissing
    ensures AgentIdRequired in InteractionErrors(c) <==> c.agentMissing
    ensures DurationInvalid in InteractionErrors(c) <==> c.durationInvalid
  {
  }

  /** The messages of the tests on the optional fields. */
  lemma InteractionOptionalMembership(c: InteractionChecks)
    ensures InvalidFollowUp in InteractionErrors(c) <==> c.followUpInvalid
    ensures NoteTooLong in InteractionErrors(c) <==> c.noteTooLong
    ensures CommentTooLong in InteractionErrors(c) <==> c.commentTooLong
    ensures InvalidCallStatus in InteractionErrors(c) <==> c.callStatusInvalid
  {
  }

  /** The two identifiers and the duration: what validateInteraction demands of every body. */
  lemma InteractionRequiredFields(d: InteractionInput)
    ensures CustomerIdRequired in InteractionErrors(CheckInteraction(d)) <==> MissingOrBlank(d.customerId)
    ensures AgentIdRequired in InteractionErrors(CheckInteraction(d)) <==> MissingOrBlank(d.agentId)
    ensures DurationInvalid in InteractionErrors(CheckInteraction(d))
      <==> d.callDuration.NotANumber? || (d.callDuration.Number? && d.callDuration.seconds < 0)
  {
    InteractionRequiredMembership(CheckInteraction(d));
  }

  /** The optional fields: each is rejected only when present and out of range. */
  lemma InteractionOptionalFields(d: InteractionInput)
    ensures InvalidFollowUp in InteractionErrors(CheckInteraction(d))
      <==> (Truthy(d.followUpStatus)
           && d.followUpStatus.value !in ["pending", "in-progress", "completed", "closed"])
    ensures NoteTooLong in InteractionErrors(CheckInteraction(d)) <==> d.note.Some? && Utf16Length(d.note.value) > 1000
    ensures CommentTooLong in InteractionErrors(CheckInteraction(d))
      <==> d.supervisorComment.Some? && Utf16Length(d.supervisorComment.value) > 1000
    ensures InvalidCallStatus in InteractionErrors(CheckInteraction(d))
      <==> (Truthy(d.callStatus)
           && d.callStatus.value !in ["called", "not-reached", "busy", "voicemail", "scheduled"])
  {
    InteractionOptionalMembership(CheckInteraction(d));
  }
}
