/**
 * The three stored record shapes (users, customers, interactions) and
 * their enumerations. Ids are strings and every timestamp is an integer
 * number of milliseconds.
 */
module Models {
  import opened Wrappers

  type Id = string
  type Millis = int

  /** A user's role; a stored user always has one of these three. */
  datatype Role = Admin | Supervisor | Agent

  /** The wire name of a role. */
  function RoleName(r: Role): string {
    match r
    case Admin => "admin"
    case Supervisor => "supervisor"
    case Agent => "agent"
  }

  /** Reads a role from its wire name; any other string is no role. */
  function ParseRole(s: string): (r: Option<Role>)
    ensures r.Some? ==> RoleName(r.value) == s
    ensures r.None? <==> s != "admin" && s != "supervisor" && s != "agent"
  {
    if s == "admin" then Some(Admin)
    else if s == "supervisor" then Some(Supervisor)
    else if s == "agent" then Some(Agent)
    else None
  }

  /** Every role survives a trip through its wire name. */
  lemma RoleNameRoundTrip(r: Role)
    ensures ParseRole(RoleName(r)) == Some(r)
  {
  }

  /** The follow-up state of an interaction. */
  datatype FollowUpStatus = Pending | InProgress | Completed | Closed

  function FollowUpName(f: FollowUpStatus): string {
    match f
    case Pending => "pending"
    case InProgress => "in-progress"
    case Completed => "completed"
    case Closed => "closed"
  }

  function ParseFollowUp(s: string): (r: Option<FollowUpStatus>)
    ensures r.Some? ==> FollowUpName(r.value) == s
    ensures r.None? <==> s !in ["pending", "in-progress", "completed", "closed"]
  {
    if s == "pending" then Some(Pending)
    else if s == "in-progress" then Some(InProgress)
    else if s == "completed" then Some(Completed)
    else if s == "closed" then Some(Closed)
    else None
  }

  lemma FollowUpNameRoundTrip(f: FollowUpStatus)
    ensures ParseFollowUp(FollowUpName(f)) == Some(f)
  {
  }

  /** A follow-up still needs work: pending or in progress. */
  predicate IsOpen(f: FollowUpStatus) {
    f == Pending || f == InProgress
  }

  /** The outcome of the call an interaction records. */
  datatype CallStatus = Called | NotReached | Busy | Voicemail | Scheduled

  function CallStatusName(c: CallStatus): string {
    match c
    case Called => "called"
    case NotReached => "not-reached"
    case Busy => "busy"
    case Voicemail => "voicemail"
    case Scheduled => "scheduled"
  }

  function ParseCallStatus(s: string): (r: Option<CallStatus>)
    ensures r.Some? ==> CallStatusName(r.value) == s
    ensures r.None? <==> s !in ["called", "not-reached", "busy", "voicemail", "scheduled"]
  {
    if s == "called" then Some(Called)
    else if s == "not-reached" then Some(NotReached)
    else if s == "busy" then Some(Busy)
    else if s == "voicemail" then Some(Voicemail)
    else if s == "scheduled" then Some(Scheduled)
    else None
  }

  lemma CallStatusNameRoundTrip(c: CallStatus)
    ensures ParseCallStatus(CallStatusName(c)) == Some(c)
  {
  }

  datatype User = User(
    id: Id,
    name: string,
    email: string,
    passwordHash: string,
    role: Role,
    createdAt: Millis,
    updatedAt: Millis)

  /** A customer always has a name and an owning agent; the contact fields are optional. */
  datatype Customer = Customer(
    id: Id,
    name: string,
    contactTitle: Option<string>,
    email: Option<string>,
    phone: Option<string>,
    agentId: Id,
    createdAt: Millis,
    updatedAt: Millis)

  /** One recorded call: exactly one customer and one agent; duration in seconds. */
  datatype Interaction = Interaction(
    id: Id,
    customerId: Id,
    agentId: Id,
    callDuration: Option<int>,
    followUpStatus: FollowUpStatus,
    note: Option<string>,
    supervisorComment: Option<string>,
    callStatus: CallStatus,
    date: Millis,
    createdAt: Millis,
    updatedAt: Millis)
}
