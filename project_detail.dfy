/** The project detail page (project-detail-page.jsx): the project and the signed-in
    participant's own submission as fetched from the backend, the per-status
    configuration, the evidence upload, and joining the project. */
module ProjectDetail {
  import C = Common
  import Text
  import B = Backend
  import PM = ProjectManagement

  type byte = bv8

  /** The project as the page keeps it; dates are whole milliseconds. */
  datatype Detail = Detail(
    id: nat,
    title: string,
    description: string,
    category: string,
    createdAt: int,
    startDate: int,
    expiredAt: int,
    reward: nat,
    status: int,
    maxParticipants: nat,
    participants: seq<B.Participant>,
    address: string,
    impact: string)

  function ToDetail(p: B.Project): Detail
  {
    Detail(p.id, p.title, p.description, p.category, PM.NsToMs(p.createdAt), PM.NsToMs(p.startDate),
           PM.NsToMs(p.expiredAt), p.reward, p.status, p.maxParticipants, p.participants, p.address, p.impact)
  }

  /** What the page says about evidence when it cannot be submitted: nothing (it can),
      the project is closed, it opens on the start date, or the project is inactive. */
  datatype EvidenceNote = NoNote | ClosedNote | OpensAtStart | InactiveNote

  datatype StatusConfig = StatusConfig(
    kind: PM.StatusLabel,
    message: string,
    canJoin: bool,
    canSubmitEvidence: bool,
    evidenceNote: EvidenceNote)

  const ClosedMessage: string := "This project is closed and no longer accepting participants."
  const UpcomingMessage: string := "This project hasn't started yet. You can join now to be ready when it begins."
  const ActiveMessage: string := "This project is active and accepting participants."
  const InactiveMessage: string := "This project is inactive."

  /** `getStatusConfig`: closed (3), upcoming (2), active (1); every other code,
      including 0 and the distributed code 4, falls to the inactive case. */
  function GetStatusConfig(status: int): (r: StatusConfig)
    ensures r.canJoin <==> status == 1 || status == 2
    ensures r.canSubmitEvidence <==> status == 1
    ensures r.evidenceNote.NoNote? <==> r.canSubmitEvidence
    ensures status == 2 ==> r.evidenceNote == OpensAtStart
    ensures r.kind == PM.Inactive <==> !(1 <= status <= 3)
    ensures 1 <= status <= 3 ==> r.kind == PM.RenderProjectStatus(status)
  {
    match status
    case 3 => StatusConfig(PM.Closed, ClosedMessage, false, false, ClosedNote)
    case 2 => StatusConfig(PM.Upcoming, UpcomingMessage, true, false, OpensAtStart)
    case 1 => StatusConfig(PM.Active, ActiveMessage, true, true, NoNote)
    case _ => StatusConfig(PM.Inactive, InactiveMessage, false, false, InactiveNote)
  }

  /** Whoever may submit evidence may also join. */
  lemma CanSubmitImpliesCanJoin(status: int)
    ensures GetStatusConfig(status).canSubmitEvidence ==> GetStatusConfig(status).canJoin
  {
  }

  /** The "Project Status:" heading: 0, 1 and 2 by name, every other code "Closed". */
  function StatusHeading(status: int): (r: PM.StatusLabel)
    ensures r in {PM.Inactive, PM.Active, PM.Upcoming, PM.Closed}
    ensures 0 <= status <= 3 ==> r == PM.RenderProjectStatus(status)
    ensures r == PM.Closed <==> !(0 <= status <= 2)
  {
    if status == 0 then PM.Inactive
    else if status == 1 then PM.Active
    else if status == 2 then PM.Upcoming
    else PM.Closed
  }

  /** A distributed project is headed "Closed" while its configuration is the inactive one. */
  lemma DistributedHeadingDisagrees()
    ensures StatusHeading(4) == PM.Closed && GetStatusConfig(4).kind == PM.Inactive
  {
  }

  /** A file of the participant's submission as the page lists it. */
  datatype SubmissionFile = SubmissionFile(name: string, blob: seq<byte>)

  datatype UserSubmission = UserSubmission(
    id: nat,
    status: string,
    submittedAt: int,
    evidence: string,
    files: seq<SubmissionFile>,
    feedback: string)

  const EvidenceNamePrefix: string := "Evidence "

  /** The display name of the file at `index`: numbered from 1. */
  function EvidenceFileName(index: nat): (r: string)
    ensures |r| > |EvidenceNamePrefix| && r[..|EvidenceNamePrefix|] == EvidenceNamePrefix
    ensures forall i :: |EvidenceNamePrefix| <= i < |r| ==> '0' <= r[i] <= '9'
    ensures Text.ParseDecimal(r[|EvidenceNamePrefix|..]) == index + 1
  {
    var digits := Text.DecimalString(index + 1);
    Text.DecimalRoundTrip(index + 1);
    assert (EvidenceNamePrefix + digits)[|EvidenceNamePrefix|..] == digits;
    EvidenceNamePrefix + digits
  }

  /** No two files of a submission get the same name. */
  lemma EvidenceFileNamesDistinct(i: nat, j: nat)
    requires i != j
    ensures EvidenceFileName(i) != EvidenceFileName(j)
  {
  }

  /** The submission built from the participant's evidence record. */
  function ToSubmission(e: B.EvidenceRecord): (r: UserSubmission)
    ensures |r.files| == |e.imageData|
    ensures forall i :: 0 <= i < |r.files| ==> r.files[i].blob == e.imageData[i]
    ensures forall i, j :: 0 <= i < j < |r.files| ==> r.files[i].name != r.files[j].name
    ensures r.id == e.id && r.status == e.status && r.evidence == e.description && r.feedback == e.feedback
  {
    var files := seq(|e.imageData|, i requires 0 <= i < |e.imageData| => SubmissionFile(EvidenceFileName(i), e.imageData[i]));
    forall i, j | 0 <= i < j < |files|
      ensures files[i].name != files[j].name
    {
      EvidenceFileNamesDistinct(i, j);
    }
    UserSubmission(e.id, e.status, PM.NsToMs(e.timestamp), e.description, files, e.feedback)
  }

  /** `evidence.find`: the first record whose participant is `userId`. */
  function FindEvidence(evidence: seq<B.EvidenceRecord>, userId: string): (r: C.Option<B.EvidenceRecord>)
    ensures r.None? <==> forall i :: 0 <= i < |evidence| ==> evidence[i].participantId != userId
    ensures r.Some? ==> exists i :: 0 <= i < |evidence| && evidence[i] == r.value
                          && r.value.participantId == userId
                          && forall j :: 0 <= j < i ==> evidence[j].participantId != userId
    decreases |evidence|
  {
    if evidence == [] then C.None
    else if evidence[0].participantId == userId then C.Some(evidence[0])
    else
      var r := FindEvidence(evidence[1..], userId);
      if r.Some? then
        var k :| 0 <= k < |evidence[1..]| && evidence[1..][k] == r.value && r.value.participantId == userId
                 && forall j :: 0 <= j < k ==> evidence[1..][j].participantId != userId;
        assert evidence[k + 1] == r.value;
        r
      else r
  }

  /** `participants.some`: the user is among the participants. */
  predicate HasParticipant(participants: seq<B.Participant>, userId: string)
  {
    exists i :: 0 <= i < |participants| && participants[i].id == userId
  }

  /** The bytes of the files that could be read, in order; a file whose read failed
      is skipped. */
  function Successes(fileReads: seq<C.Result<seq<byte>, string>>): (r: seq<seq<byte>>)
    ensures |r| <= |fileReads|
    decreases |fileReads|
  {
    if fileReads == [] then []
    else
      var last := fileReads[|fileReads| - 1];
      Successes(fileReads[..|fileReads| - 1]) + (if last.Ok? then [last.value] else [])
  }

  /** No bytes are collected exactly when every read failed. */
  lemma {:induction false} SuccessesEmpty(fileReads: seq<C.Result<seq<byte>, string>>)
    ensures Successes(fileReads) == [] <==> forall i :: 0 <= i < |fileReads| ==> fileReads[i].Err?
    decreases |fileReads|
  {
    if fileReads != [] {
      var front := fileReads[..|fileReads| - 1];
      SuccessesEmpty(front);
      assert forall i :: 0 <= i < |front| ==> front[i] == fileReads[i];
    }
  }

  /** Every read that succeeded is collected, and the collected count is the count of
      successful reads. */
  lemma {:induction false} SuccessesCount(fileReads: seq<C.Result<seq<byte>, string>>)
    ensures |Successes(fileReads)| == C.Count(fileReads, (x: C.Result<seq<byte>, string>) => x.Ok?)
    decreases |fileReads|
  {
    var ok := (x: C.Result<seq<byte>, string>) => x.Ok?;
    C.FilterLength(fileReads, ok);
    if fileReads != [] {
      var front := fileReads[..|fileReads| - 1];
      SuccessesCount(front);
      C.FilterLength(front, ok);
      C.FilterAppend(front, [fileReads[|fileReads| - 1]], ok);
      assert front + [fileReads[|fileReads| - 1]] == fileReads;
    }
  }

  /** The loop of `handleSubmitEvidence` over the selected files: each file's bytes are
      appended when its read succeeds, and a failed read is passed over. */
  method CollectImageBlobs(fileReads: seq<C.Result<seq<byte>, string>>) returns (blobs: seq<seq<byte>>)
    ensures blobs == Successes(fileReads)
  {
    blobs := [];
    var i := 0;
    while i < |fileReads|
      invariant 0 <= i <= |fileReads|
      invariant blobs == Successes(fileReads[..i])
    {
      assert fileReads[..i + 1][..i] == fileReads[..i];
      if fileReads[i].Ok? {
        blobs := blobs + [fileReads[i].value];
      }
      i := i + 1;
    }
    assert fileReads[..|fileReads|] == fileReads;
  }

  /** What `submitEvidence` receives. */
  datatype EvidenceRequest = EvidenceRequest(projectId: int, description: string, imageData: seq<seq<byte>>)

  /** As written, the join button is disabled while joining or when the project is
      closed (3); it stays enabled for an inactive or distributed project. */
  function JoinButtonDisabled(isJoining: bool, status: int): (r: bool)
    ensures r <==> isJoining || status == 3
  {
    isJoining || status == 3
  }

  /** The status configuration forbids joining an inactive project, yet its join
      button is enabled. */
  lemma InactiveProjectJoinButtonEnabled()
    ensures !GetStatusConfig(0).canJoin && !JoinButtonDisabled(false, 0)
    ensures !GetStatusConfig(4).canJoin && !JoinButtonDisabled(false, 4)
  {
  }

  /** The join button as the status configuration intends it: enabled exactly when no
      join is under way and the configuration allows joining. */
  function JoinEnabled(isJoining: bool, status: int): (r: bool)
    ensures r <==> !isJoining && (status == 1 || status == 2)
  {
    !isJoining && GetStatusConfig(status).canJoin
  }

  /** The intended button is enabled only where the written one is. */
  lemma JoinEnabledWithinWritten(isJoining: bool, status: int)
    ensures JoinEnabled(isJoining, status) ==> !JoinButtonDisabled(isJoining, status)
    ensures status == 0 ==> !JoinEnabled(isJoining, status) && !JoinButtonDisabled(false, status)
  {
  }

  /** What the "Submit Evidence" tab holds. */
  datatype SubmitPanel =
    | Hidden
    | SubmissionView(canResubmit: bool)
    | EvidenceFormPanel
    | Unavailable(note: EvidenceNote)

  /** The tab exists for a signed-in participant who has joined; it shows their
      submission when there is one, otherwise the form when the project accepts
      evidence, otherwise the reason it does not. */
  function SubmitPanelFor(isAuthenticated: bool, hasJoined: bool, submission: C.Option<UserSubmission>, status: int)
    : (r: SubmitPanel)
    ensures r.Hidden? <==> !(isAuthenticated && hasJoined)
    ensures r.EvidenceFormPanel? <==> isAuthenticated && hasJoined && submission.None? && status == 1
    ensures r.SubmissionView? <==> isAuthenticated && hasJoined && submission.Some?
    ensures r.SubmissionView? ==> (r.canResubmit <==> submission.value.status == "Rejected")
    ensures r.Unavailable? ==> r.note == GetStatusConfig(status).evidenceNote && r.note != NoNote
  {
    if !(isAuthenticated && hasJoined) then Hidden
    else if submission.Some? then SubmissionView(submission.value.status == "Rejected")
    else if GetStatusConfig(status).canSubmitEvidence then EvidenceFormPanel
    else Unavailable(GetStatusConfig(status).evidenceNote)
  }

  /** The page's state. */
  class Page {
    var project: C.Option<Detail>
    var isLoading: bool
    var isJoining: bool
    var isSubmittingEvidence: bool
    var userSubmission: C.Option<UserSubmission>
    var hasJoined: bool

    constructor ()
      ensures project == C.None && isLoading && !isJoining && !isSubmittingEvidence
      ensures userSubmission == C.None && !hasJoined
    {
      project := C.None;
      isLoading := true;
      isJoining := false;
      isSubmittingEvidence := false;
      userSubmission := C.None;
      hasJoined := false;
    }

    /** The loaded project's join button as written: enabled unless a join is under
        way or the project is closed, whatever the status configuration says. The
        intended button (`JoinEnabled`) is enabled only where this one is. */
    function JoinButtonEnabled(): (r: bool)
      reads this
      ensures r <==> project.Some? && !isJoining && project.value.status != 3
      ensures project.Some? && JoinEnabled(isJoining, project.value.status) ==> r
    {
      project.Some? && !JoinButtonDisabled(isJoining, project.value.status)
    }

    /** `fetchProject`. On a reply the project is stored first; looking up the user's
        evidence reads the user's id, which throws when nobody is signed in and the
        project has evidence, and then, as on an error reply, the page leaves for the
        project list (`leave`). The submission is replaced only when one is found, and
        the joined flag only when a user is signed in. */
    method FetchProject(response: C.Result<B.Project, string>, userId: C.Option<string>, isAuthenticated: bool)
      returns (leave: bool)
      modifies this
      ensures response.Ok? ==> project == C.Some(ToDetail(response.value))
      ensures response.Err? ==> project == old(project)
      ensures leave <==> response.Err? || (userId.None? && response.value.evidence != [])
      ensures userSubmission ==
                if !leave && userId.Some? && FindEvidence(response.value.evidence, userId.value).Some?
                then C.Some(ToSubmission(FindEvidence(response.value.evidence, userId.value).value))
                else old(userSubmission)
      ensures hasJoined ==
                if !leave && isAuthenticated && userId.Some?
                then HasParticipant(response.value.participants, userId.value)
                else old(hasJoined)
      ensures !isLoading
      ensures isJoining == old(isJoining) && isSubmittingEvidence == old(isSubmittingEvidence)
    {
      isLoading := true;
      leave := false;
      if response.Err? {
        leave := true;
      } else {
        var p := response.value;
        project := C.Some(ToDetail(p));
        if userId.None? && p.evidence != [] {
          leave := true;
        } else {
          if userId.Some? {
            var found := FindEvidence(p.evidence, userId.value);
            if found.Some? {
              userSubmission := C.Some(ToSubmission(found.value));
            }
          }
          if isAuthenticated && userId.Some? {
            hasJoined := HasParticipant(p.participants, userId.value);
          }
        }
      }
      isLoading := false;
    }

    /** `handleSubmitEvidence`: nothing is sent without a login or when no file could
        be read; otherwise the readable files go out, and an accepted submission makes
        the page fetch the project again. */
    method HandleSubmitEvidence(hasIdentity: bool, projectId: int, description: string,
                                fileReads: seq<C.Result<seq<byte>, string>>, response: C.Result<(), string>)
      returns (sent: C.Option<EvidenceRequest>, refetch: bool)
      modifies this
      ensures sent.Some? <==> hasIdentity && exists i :: 0 <= i < |fileReads| && fileReads[i].Ok?
      ensures sent.Some? ==> sent.value == EvidenceRequest(projectId, description, Successes(fileReads))
      ensures refetch <==> sent.Some? && response.Ok?
      ensures !isSubmittingEvidence
      ensures project == old(project) && isLoading == old(isLoading) && isJoining == old(isJoining)
      ensures userSubmission == old(userSubmission) && hasJoined == old(hasJoined)
    {
      isSubmittingEvidence := true;
      sent, refetch := C.None, false;
      if hasIdentity {
        var blobs := CollectImageBlobs(fileReads);
        SuccessesEmpty(fileReads);
        if blobs != [] {
          sent := C.Some(EvidenceRequest(projectId, description, blobs));
          refetch := response.Ok?;
        }
      }
      isSubmittingEvidence := false;
    }

    /** `handleJoinProject`: without a login it asks for one and stays "joining"; a
        reply ends the join and an accepted one marks the user as joined; a call that
        throws leaves the page "joining". */
    method HandleJoinProject(isAuthenticated: bool, outcome: C.CallOutcome) returns (loginRequested: bool)
      modifies this
      ensures loginRequested <==> !isAuthenticated
      ensures isJoining <==> !isAuthenticated || outcome.Threw?
      ensures hasJoined == (isAuthenticated && outcome.Replied? && outcome.reply.Ok?) || old(hasJoined)
      ensures project == old(project) && userSubmission == old(userSubmission)
      ensures isLoading == old(isLoading) && isSubmittingEvidence == old(isSubmittingEvidence)
    {
      isJoining := true;
      if !isAuthenticated {
        return true;
      }
      loginRequested := false;
      if outcome.Replied? {
        isJoining := false;
        if outcome.reply.Ok? {
          hasJoined := true;
        }
      }
    }

    /** "Submit New Evidence", offered under a rejected submission: the submission is
        cleared so the tab shows the form again. */
    method SubmitNewEvidence()
      requires userSubmission.Some? && userSubmission.value.status == "Rejected"
      modifies this
      ensures userSubmission == C.None
      ensures project == old(project) && hasJoined == old(hasJoined) && isLoading == old(isLoading)
      ensures isJoining == old(isJoining) && isSubmittingEvidence == old(isSubmittingEvidence)
    {
      userSubmission := C.None;
    }
  }

  /** After a rejected submission is cleared, a joined participant of an active project
      sees the form again. */
  lemma ResubmitShowsForm(isAuthenticated: bool, hasJoined: bool, rejected: UserSubmission, status: int)
    requires isAuthenticated && hasJoined && rejected.status == "Rejected" && status == 1
    ensures SubmitPanelFor(isAuthenticated, hasJoined, C.Some(rejected), status) == SubmissionView(true)
    ensures SubmitPanelFor(isAuthenticated, hasJoined, C.None, status) == EvidenceFormPanel
  {
  }
}
