/** The administrator's submission review (submission-review.jsx): a list of seeded
    submissions, a review dialog for one of them, and the approve and reject actions
    that record a verdict with the reviewer's feedback. */
module SubmissionReview {
  import C = Common

  datatype ReviewStatus = Pending | Approved | Rejected

  /** A submission as listed; the evidence summary, the long description and the
      avatar initials are display text and are not kept. */
  datatype Submission = Submission(
    id: nat,
    title: string,
    userName: string,
    challenge: string,
    submittedAt: string,
    status: ReviewStatus,
    feedback: C.Option<string>)

  const Seed1: Submission := Submission(1, "Zero Waste Week - Day 7 Completion", "Alex Johnson",
    "Zero Waste Week", "2025-05-08T14:32:00", Pending, C.None)
  const Seed2: Submission := Submission(2, "Bike to Work Month - Week 3", "Maria Rodriguez",
    "Bike to Work Month", "2025-04-22T08:15:00", Approved, C.None)
  const Seed3: Submission := Submission(3, "Plastic-Free Challenge - Week 2", "Sam Taylor",
    "Plastic-Free Challenge", "2025-05-29T16:45:00", Pending, C.None)
  const Seed4: Submission := Submission(4, "Energy Conservation - Mid-month Report", "Jordan Lee",
    "Energy Conservation", "2025-05-15T11:20:00", Pending, C.None)
  const Seed5: Submission := Submission(5, "Water Saving Challenge - Final Submission", "Taylor Wilson",
    "Water Saving Challenge", "2025-04-30T09:10:00", Rejected,
    C.Some("The water bill shows only a 15% reduction, not the required 30%. Please resubmit with additional evidence of water-saving measures."))
  const Seed6: Submission := Submission(6, "Local Food Only - Week 1", "Jamie Rivera",
    "Local Food Only", "2025-06-07T13:25:00", Pending, C.None)
  const Seed7: Submission := Submission(7, "Public Transport Only - Final Report", "Casey Morgan",
    "Public Transport Only", "2025-03-31T17:50:00", Approved, C.None)

  /** The seven submissions the component starts with, numbered 1 to 7. */
  function Seeded(): (r: seq<Submission>)
    ensures |r| == 7
    ensures forall i :: 0 <= i < |r| ==> r[i].id == i + 1
  {
    [Seed1, Seed2, Seed3, Seed4, Seed5, Seed6, Seed7]
  }

  predicate UniqueIds(subs: seq<Submission>)
  {
    forall i, j :: 0 <= i < j < |subs| ==> subs[i].id != subs[j].id
  }

  /** The approve and reject handlers: every submission with the reviewed id gets the
      verdict and the feedback; the others are kept as they are, in the same order. */
  function Review(subs: seq<Submission>, id: nat, verdict: ReviewStatus, feedback: string): (r: seq<Submission>)
    ensures |r| == |subs|
    ensures forall i :: 0 <= i < |r| ==> r[i].id == subs[i].id
    ensures forall i :: 0 <= i < |r| && subs[i].id == id ==>
              r[i] == subs[i].(status := verdict, feedback := C.Some(feedback))
    ensures forall i :: 0 <= i < |r| && subs[i].id != id ==> r[i] == subs[i]
    decreases |subs|
  {
    if subs == [] then []
    else
      var head := if subs[0].id == id then subs[0].(status := verdict, feedback := C.Some(feedback)) else subs[0];
      [head] + Review(subs[1..], id, verdict, feedback)
  }

  /** The submissions a tab lists: those with the tab's status. */
  function Tab(subs: seq<Submission>, status: ReviewStatus): (r: seq<Submission>)
    ensures C.IsSubsequence(r, subs)
    ensures forall i :: 0 <= i < |r| ==> r[i].status == status
    ensures forall i :: 0 <= i < |subs| && subs[i].status == status ==> subs[i] in r
  {
    C.FilterIsSubsequence(subs, (s: Submission) => s.status == status);
    C.Filter(subs, (s: Submission) => s.status == status)
  }

  /** Reviewing keeps the ids, so unique ids stay unique. */
  lemma ReviewKeepsUniqueIds(subs: seq<Submission>, id: nat, verdict: ReviewStatus, feedback: string)
    ensures UniqueIds(subs) ==> UniqueIds(Review(subs, id, verdict, feedback))
  {
  }

  /** A second review of the same submission overrides the first. */
  lemma {:induction false} LaterReviewWins(subs: seq<Submission>, id: nat, v1: ReviewStatus, f1: string,
                                           v2: ReviewStatus, f2: string)
    ensures Review(Review(subs, id, v1, f1), id, v2, f2) == Review(subs, id, v2, f2)
    decreases |subs|
  {
    if subs != [] {
      LaterReviewWins(subs[1..], id, v1, f1, v2, f2);
      assert Review(subs, id, v1, f1)[1..] == Review(subs[1..], id, v1, f1);
    }
  }

  /** Approving or rejecting takes the reviewed submission, and nothing else, out of
      the pending tab. */
  lemma {:induction false} ReviewLeavesPendingTab(subs: seq<Submission>, id: nat, verdict: ReviewStatus, feedback: string)
    requires verdict != Pending
    ensures Tab(Review(subs, id, verdict, feedback), Pending)
            == C.Filter(subs, (s: Submission) => s.status == Pending && s.id != id)
    decreases |subs|
  {
    if subs != [] {
      ReviewLeavesPendingTab(subs[1..], id, verdict, feedback);
      assert Review(subs, id, verdict, feedback)[1..] == Review(subs[1..], id, verdict, feedback);
    }
  }

  /** Every submission sits in exactly one of the Pending, Approved and Rejected tabs. */
  lemma {:induction false} TabsPartition(subs: seq<Submission>)
    ensures |Tab(subs, Pending)| + |Tab(subs, Approved)| + |Tab(subs, Rejected)| == |subs|
    decreases |subs|
  {
    if subs != [] {
      TabsPartition(subs[1..]);
    }
  }

  /** The review component's state. */
  class Reviewer {
    var submissions: seq<Submission>
    var selected: C.Option<Submission>
    var reviewFeedback: string
    var isReviewDialogOpen: bool

    /** The seeded submissions have distinct ids. */
    ghost predicate Valid()
      reads this
    {
      UniqueIds(submissions)
    }

    constructor ()
      ensures submissions == Seeded() && Valid()
      ensures selected == C.None && reviewFeedback == "" && !isReviewDialogOpen
    {
      submissions := Seeded();
      selected := C.None;
      reviewFeedback := "";
      isReviewDialogOpen := false;
    }

    /** `handleReviewSubmission`: select the submission, clear the feedback, open the dialog. */
    method HandleReviewSubmission(submission: Submission)
      modifies this
      ensures selected == C.Some(submission) && reviewFeedback == "" && isReviewDialogOpen
      ensures submissions == old(submissions)
    {
      selected := C.Some(submission);
      reviewFeedback := "";
      isReviewDialogOpen := true;
    }

    /** The feedback text area. */
    method SetReviewFeedback(text: string)
      modifies this
      ensures reviewFeedback == text
      ensures submissions == old(submissions) && selected == old(selected)
      ensures isReviewDialogOpen == old(isReviewDialogOpen)
    {
      reviewFeedback := text;
    }

    /** `handleApproveSubmission` and `handleRejectSubmission`: record the verdict and
        the feedback on the selected submission and close the dialog. */
    method Decide(verdict: ReviewStatus)
      requires selected.Some? && verdict != Pending
      modifies this
      ensures submissions == Review(old(submissions), old(selected).value.id, verdict, old(reviewFeedback))
      ensures !isReviewDialogOpen
      ensures selected == old(selected) && reviewFeedback == old(reviewFeedback)
      ensures old(Valid()) ==> Valid()
    {
      ReviewKeepsUniqueIds(submissions, selected.value.id, verdict, reviewFeedback);
      submissions := Review(submissions, selected.value.id, verdict, reviewFeedback);
      isReviewDialogOpen := false;
    }
  }
}
