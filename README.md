# Lumora: the face-recognition canister's endpoint layer and the web client's rules

Lumora rewards sustainability work. Communities publish projects and challenges. Participants join them, submit photographic evidence and earn LUM tokens. Administrators review the evidence and distribute the rewards. This Dafny project models two parts of the system.

- **The face-recognition canister's endpoint layer** (`src/face_recognition/src/lib.rs`):
  - The user registry kept in `USERS`, with create, get, update and delete by id.
  - How `detect`, `recognize`, `add` and `setup_models` wrap the face pipeline's results into the reply variants.
  - How the four chunk-upload endpoints are routed to the two model files.
  - The canister is a class whose `users` and `files` fields the endpoints update. Its invariant (ids pairwise distinct) is preserved by every endpoint.
- **The rules embedded in the React client**:
  - The evidence-file validator and the file-size label.
  - The project, event and NFT-collection searches and filters.
  - The status badges and the project-status capability table.
  - The "latest four projects" showcase and the newest-first order.
  - Submission review and reward distribution by id.
  - Challenge creation with generated ids.
  - Project deletion by id.
  - The notification read state.
  - The registration form.
  - The millisecond/nanosecond conversions and the community-level reward ceiling.

Each React component that keeps state becomes a class whose fields are its `useState` values. Each handler becomes a method that states the component's whole new state. The pure filters, switches and folds are functions, and lemmas relate them to their partners: inverse functions, reference definitions and preserved invariants. A backend call enters a method as a parameter holding its reply. Where a thrown exception behaves differently from an error reply, the parameter is a `CallOutcome`.

Files (one module each):
- `common.dfy`: `Option`, `Result`, the order-preserving `Filter`, `Count` and `IsSubsequence`, and lemmas about them.
- `text.dfy`: ASCII `toLowerCase`, `includes`, `trim` and decimal rendering, with their lemmas.
- `backend.dfy`: the backend's project and evidence records as the client receives them.
- `face_recognition.dfy`: the canister.
- `project_order.dfy`: the newest-first order used by the home page and the project list.
- One module per React component: `evidence_form`, `project_management`, `my_projects`, `project_detail`, `submission_review`, `reward_management`, `challenge_management`, `project_management_enhanced`, `admin_notifications`, `home_page`, `project_list`, `event_list`, `nft_list` and `register_modal`.

The face pipeline's errors are of several kinds (no models loaded, an image that does not decode, no face found and so on). `lib.rs` flattens every one of them to its display string with `err.to_string()`, so the replies modelled here carry only `Error(message)`.

## Model

| member | source | states |
|---|---|---|
| FaceRecognition.Detect | src/face_recognition/src/lib.rs:76-86 | the reply carries the detection's bounding box (the first component of the pipeline's result) or the pipeline's error message, unchanged |
| FaceRecognition.Recognize | src/face_recognition/src/lib.rs:91-100 | the reply reads back as the pipeline's recognition of the given image (the closest person and the distance), and it is an error iff recognition failed, with the failure's message |
| FaceRecognition.Add | src/face_recognition/src/lib.rs:104-113 | the reply reads back as the pipeline's result of recording the image under the given label, and on success it carries that result |
| FaceRecognition.WrapInjective | src/face_recognition/src/lib.rs:93-98 | wrapping loses nothing: two pipeline results with the same reply are equal |
| FaceRecognition.ChunkedUpload | src/face_recognition/src/lib.rs:131-141 | appending chunks one call at a time leaves the file holding its old bytes followed by the chunks' concatenation in order, and no other file changes |
| FaceRecognition.ClearThenUpload | src/face_recognition/src/lib.rs:117-141 | clearing a model file and then uploading it in chunks leaves exactly the uploaded bytes |
| FaceRecognition.SetupModels | src/face_recognition/src/lib.rs:146-152 | setup runs on the detection file's bytes first and the recognition file's bytes second; it succeeds iff setup succeeds, and an error is "Failed to setup model: " followed by setup's message |
| FaceRecognition.SetupErrorCause | src/face_recognition/src/lib.rs:151 | a setup error message starts with the prefix, and the rest of it is setup's own message |
| FaceRecognition.FirstIndex | src/face_recognition/src/lib.rs:226 | the index of the first user with the id, or the registry's length when no user has it; no earlier user has the id |
| FaceRecognition.FindUser | src/face_recognition/src/lib.rs:224-227 | `get_user` finds a user iff some user has the id; the user found has the id, and no earlier user has it |
| FaceRecognition.FindAppended | src/face_recognition/src/lib.rs:208-226 | a user appended under a fresh id is exactly what looking that id up returns |
| FaceRecognition.RenameFirstChangesOnlyName | src/face_recognition/src/lib.rs:232-240 | `update_user` keeps the length and every id; only the first user with the id gets the new name, and every other user is kept |
| FaceRecognition.RenameUnique | src/face_recognition/src/lib.rs:234-235 | with distinct ids, renaming keeps ids distinct, and the one user with the id is renamed |
| FaceRecognition.RemoveIdUnique | src/face_recognition/src/lib.rs:249 | `retain` keeps ids distinct and leaves no user with the deleted id |
| FaceRecognition.RemoveIdShrinks | src/face_recognition/src/lib.rs:248-254 | the registry shrinks exactly when some user has the id |
| FaceRecognition.Canister.constructor | src/face_recognition/src/lib.rs:25 | the registry starts empty (ids trivially distinct) and no model file has been written |
| FaceRecognition.Canister.CreateUser | src/face_recognition/src/lib.rs:170-220 | a present id gives "User with this ID already exists." and changes nothing; a fresh id appends one user with the given fields and status `Unverify`, keeping every earlier user; distinct ids stay distinct; model files are untouched |
| FaceRecognition.Canister.GetUser | src/face_recognition/src/lib.rs:224-227 | a user is returned iff one has the id; the returned user has the id and is in the registry |
| FaceRecognition.Canister.UpdateUser | src/face_recognition/src/lib.rs:230-241 | succeeds iff the id is present; on success the first matching user is renamed and nothing else changes; otherwise the result is "User not found" and the registry is unchanged; distinct ids stay distinct |
| FaceRecognition.Canister.DeleteUser | src/face_recognition/src/lib.rs:244-256 | every user with the id is removed and the others keep their order; the result is `Ok` iff the registry shrank, iff the id was present, otherwise "User not found"; distinct ids stay distinct |
| FaceRecognition.Canister.ClearFaceDetectionModelBytes | src/face_recognition/src/lib.rs:117-120 | only the detection model file is emptied; users are unchanged |
| FaceRecognition.Canister.ClearFaceRecognitionModelBytes | src/face_recognition/src/lib.rs:124-127 | only the recognition model file is emptied; users are unchanged |
| FaceRecognition.Canister.AppendFaceDetectionModelBytes | src/face_recognition/src/lib.rs:131-134 | the chunk is appended to the detection file; the recognition file and the users are unchanged |
| FaceRecognition.Canister.AppendFaceRecognitionModelBytes | src/face_recognition/src/lib.rs:138-141 | the chunk is appended to the recognition file; the detection file and the users are unchanged |
| FaceRecognition.CreateThenGet | src/face_recognition/src/lib.rs:199-227 | after creating a user under a fresh id, `get_user` returns that user with the fields it was created with and status `Unverify` |
| Text.IncludesAt | src/frontend/src/core/components/community/project-management.jsx:160 | `includes` holds iff the query occurs at some position of the text |
| Text.TrimEmpty | src/frontend/src/core/components/community/submit-evidence-form.jsx:59 | `trim()` gives the empty string iff the text is nothing but white space |
| Text.DecimalRoundTrip | src/frontend/src/pages/project/project-detail-page.jsx:65 | the decimal rendering of a number parses back to the number |
| EvidenceForm.CheckSelection | src/frontend/src/core/components/community/submit-evidence-form.jsx:14-36 | the checks run in order: more than 2 files in all is refused first; then any file over 250 KiB (naming every oversized file); then any type outside png/jpeg/jpg (naming every such file); the selection is accepted iff all three pass |
| EvidenceForm.FormatFileSize | src/frontend/src/core/components/community/submit-evidence-form.jsx:50-54 | bytes below 1024, KB below 1048576, MB otherwise; the shown tenths are the size in the unit rounded to the nearest tenth, ties up |
| EvidenceForm.KilobyteLabelReaches1024 | src/frontend/src/core/components/community/submit-evidence-form.jsx:52 | one byte below a megabyte is shown as "1024.0 KB" |
| EvidenceForm.Form.constructor | src/frontend/src/core/components/community/submit-evidence-form.jsx:11-12 | empty description and no files |
| EvidenceForm.Form.HandleFileChange | src/frontend/src/core/components/community/submit-evidence-form.jsx:14-39 | the rejection is the first failing check; an accepted selection is appended to the files, a refused one leaves them unchanged; at most two files are ever held |
| EvidenceForm.Form.RemoveFile | src/frontend/src/core/components/community/submit-evidence-form.jsx:41-48 | exactly the file at the index is removed, the others keep their order, and the list is one shorter |
| EvidenceForm.Form.HandleSubmit | src/frontend/src/core/components/community/submit-evidence-form.jsx:56-70 | nothing is submitted iff the description is blank and no file is selected; otherwise the current description and files are submitted |
| ProjectManagement.MsNsRoundTrip | src/frontend/src/core/components/community/project-management.jsx:107-108 | a millisecond date sent as nanoseconds reads back as the same millisecond |
| ProjectManagement.NsToMsTruncates | src/frontend/src/core/components/community/project-management.jsx:63-64 | reading a nanosecond timestamp drops only the sub-millisecond part |
| ProjectManagement.FilteredProjects | src/frontend/src/core/components/community/project-management.jsx:158-174 | the order-preserving subsequence of the projects that pass the search, status and category filters; every project that passes is in it |
| ProjectManagement.InitialFiltersShowAll | src/frontend/src/core/components/community/project-management.jsx:24-26 | with the initial filters (empty search, "all", "all") every project is listed |
| ProjectManagement.SearchMatchesOccurrence | src/frontend/src/core/components/community/project-management.jsx:160 | a project matches iff the query is empty or occurs, ignoring ASCII case, in the title or description |
| ProjectManagement.StatusFilterExact | src/frontend/src/core/components/community/project-management.jsx:163-168 | a code filter keeps exactly that status; a status outside 0..3 (a distributed project) passes only "all" |
| ProjectManagement.RenderProjectStatus | src/frontend/src/core/components/community/project-management.jsx:176-222 | the badge is Unknown iff the status is outside 0..4 |
| ProjectManagement.RenderProjectStatusInverse | src/frontend/src/core/components/community/project-management.jsx:176-222 | each known code 0..4 gets its own badge: Inactive, Active, Upcoming, Closed, Distributed |
| ProjectManagement.GetMaxReward | src/frontend/src/core/components/community/project-management.jsx:239-252 | silver gives 500, gold 1000, diamond 2000, and bronze or any unknown level 100 |
| ProjectManagement.MaxRewardMonotone | src/frontend/src/core/components/community/project-management.jsx:239-252 | one level's ceiling is below another's iff its rank is (bronze, or an unknown level, < silver < gold < diamond), and equal ranks share a ceiling |
| ProjectManagement.EncodeImage | src/frontend/src/core/components/community/project-management.jsx:133 | the image is sent as an option of at most one byte array |
| ProjectManagement.ImageRoundTrip | src/frontend/src/core/components/community/project-management.jsx:111-133 | an absent image is sent as `[]` and a present one as `[bytes]`, and both read back unchanged |
| ProjectManagement.CreateRequest | src/frontend/src/core/components/community/project-management.jsx:97-138 | without a login the result is "Please login first"; an unreadable image gives "Failed to process image: " and the reason; otherwise every field comes from the form, dates read back as the form's milliseconds, and the image reads back as the form's |
| ProjectManagement.Page.constructor | src/frontend/src/core/components/community/project-management.jsx:19-26 | no projects, loading, dialog closed, filters empty/"all"/"all" |
| ProjectManagement.Page.SetFilters | src/frontend/src/core/components/community/project-management.jsx:85-95 | the filters take the new values and the list shown is the projects under them; nothing else changes |
| ProjectManagement.Page.FetchProjects | src/frontend/src/core/components/community/project-management.jsx:52-83 | a reply replaces the list with the converted projects; an error keeps it; loading ends either way |
| ProjectManagement.Page.HandleCreateProject | src/frontend/src/core/components/community/project-management.jsx:97-156 | the request is sent iff it can be built; an accepted creation closes the dialog and refetches; submitting ends either way; the list is untouched |
| MyProjects.CalculateEarnedRewards | src/frontend/src/pages/my-project-page.jsx:125-129 | for a draw in [0, 1) the earned reward lies in [0, reward - 1] when the reward is at least 1, and is 0 for a zero reward |
| MyProjects.FoldEarnedIsSum | src/frontend/src/pages/my-project-page.jsx:155-157 | the `reduce` from 0 equals the sum of the earned rewards |
| MyProjects.TotalEarnedBounds | src/frontend/src/pages/my-project-page.jsx:155-157 | the total is between 0 and the sum of the rewards on offer when each earned reward is within its reward |
| MyProjects.ActiveProjectsCount | src/frontend/src/pages/my-project-page.jsx:159-161 | the number of joined projects with status 1, never more than the joined projects |
| MyProjects.GetNextDeadline | src/frontend/src/pages/my-project-page.jsx:111-123 | "Completed" iff the status is 3, otherwise the expiry date |
| MyProjects.RenderProjectStatus | src/frontend/src/pages/my-project-page.jsx:15-54 | Unknown iff the status is outside 0..3 |
| MyProjects.BadgesAgreeExceptDistributed | src/frontend/src/pages/my-project-page.jsx:15-54 | this page's badge equals the management page's badge except on status 4, which it shows as Unknown |
| MyProjects.ActiveActionNeverShown | src/frontend/src/pages/my-project-page.jsx:319 | a numeric status is never strictly equal to "Active", so that action never renders |
| MyProjects.FilteredProjects | src/frontend/src/pages/my-project-page.jsx:175-191 | the order-preserving subsequence of the joined projects passing the same three filters as the management page |
| MyProjects.Page.constructor | src/frontend/src/pages/my-project-page.jsx:60-64 | no projects, loading, filters empty/"all"/"all" |
| MyProjects.Page.SetFilters | src/frontend/src/pages/my-project-page.jsx:163-173 | the filters take the new values and the list shown is the joined projects under them |
| MyProjects.Page.FetchProjects | src/frontend/src/pages/my-project-page.jsx:72-109 | a reply replaces the joined projects, one random draw each; an error keeps them; loading ends |
| ProjectDetail.GetStatusConfig | src/frontend/src/pages/project/project-detail-page.jsx:102-155 | joining is allowed iff the status is 1 or 2, evidence iff it is 1; without evidence there is a note, for 2 that it opens at the start date; 0, 4 and any other code are the inactive case |
| ProjectDetail.CanSubmitImpliesCanJoin | src/frontend/src/pages/project/project-detail-page.jsx:102-155 | whoever may submit evidence may also join |
| ProjectDetail.StatusHeading | src/frontend/src/pages/project/project-detail-page.jsx:417 | 0, 1, 2 by name and every other code "Closed"; for 0..3 it equals the badge |
| ProjectDetail.DistributedHeadingDisagrees | src/frontend/src/pages/project/project-detail-page.jsx:417 | a distributed project (4) is headed "Closed" while its configuration is the inactive one |
| ProjectDetail.EvidenceFileName | src/frontend/src/pages/project/project-detail-page.jsx:65 | "Evidence " followed by the digits of the index plus one, which parse back to it |
| ProjectDetail.EvidenceFileNamesDistinct | src/frontend/src/pages/project/project-detail-page.jsx:64-67 | different indexes give different file names |
| ProjectDetail.ToSubmission | src/frontend/src/pages/project/project-detail-page.jsx:58-70 | one file per blob in order, blobs kept, names pairwise distinct; id, status, description and feedback from the record |
| ProjectDetail.FindEvidence | src/frontend/src/pages/project/project-detail-page.jsx:56 | none iff no record is the user's; otherwise the first record whose participant is the user |
| ProjectDetail.SuccessesEmpty | src/frontend/src/pages/project/project-detail-page.jsx:170-197 | no blob is collected iff every file read failed, the case in which nothing is sent |
| ProjectDetail.SuccessesCount | src/frontend/src/pages/project/project-detail-page.jsx:173-188 | the number of blobs collected is the number of reads that succeeded |
| ProjectDetail.CollectImageBlobs | src/frontend/src/pages/project/project-detail-page.jsx:170-188 | the loop collects the bytes of every readable file in order and skips the failed ones |
| ProjectDetail.JoinButtonDisabled | src/frontend/src/pages/project/project-detail-page.jsx:581 | as written: disabled iff joining or the status is 3 |
| ProjectDetail.InactiveProjectJoinButtonEnabled | src/frontend/src/pages/project/project-detail-page.jsx:581 | for status 0 and 4 the configuration forbids joining, yet the written button is enabled |
| ProjectDetail.JoinEnabled | src/frontend/src/pages/project/project-detail-page.jsx:141-153 | intended: enabled iff not joining and the status is 1 or 2 |
| ProjectDetail.JoinEnabledWithinWritten | src/frontend/src/pages/project/project-detail-page.jsx:581 | the intended button is enabled only where the written one is, and never for an inactive project |
| ProjectDetail.SubmitPanelFor | src/frontend/src/pages/project/project-detail-page.jsx:469-552 | the tab exists iff signed in and joined; it shows the submission when there is one (resubmission iff rejected), else the form iff the status is 1, else the status's note |
| ProjectDetail.ResubmitShowsForm | src/frontend/src/pages/project/project-detail-page.jsx:531-540 | a rejected submission offers resubmission, and once cleared an active project shows the form |
| ProjectDetail.Page.constructor | src/frontend/src/pages/project/project-detail-page.jsx:21-26 | no project, loading, not joining, no submission, not joined |
| ProjectDetail.Page.JoinButtonEnabled | src/frontend/src/pages/project/project-detail-page.jsx:581 | as written: the loaded project's button is enabled iff no join is under way and the status is not 3, so it is enabled for status 0 and 4 too; the intended button is enabled only where this one is |
| ProjectDetail.Page.FetchProject | src/frontend/src/pages/project/project-detail-page.jsx:28-96 | a reply stores the converted project; the page leaves iff the reply is an error or nobody is signed in while evidence exists; otherwise the user's first evidence becomes the submission and, when signed in, the joined flag says whether the user is a participant; loading ends |
| ProjectDetail.Page.HandleSubmitEvidence | src/frontend/src/pages/project/project-detail-page.jsx:157-231 | a request is sent iff logged in and some file was readable; it carries the project id, the description and the readable files' bytes; an accepted one refetches |
| ProjectDetail.Page.HandleJoinProject | src/frontend/src/pages/project/project-detail-page.jsx:233-266 | without a login it asks for one and stays joining; a reply ends joining and an accepted one marks the user joined; a thrown call stays joining |
| ProjectDetail.Page.SubmitNewEvidence | src/frontend/src/pages/project/project-detail-page.jsx:531-536 | the rejected submission is cleared and nothing else changes |
| SubmissionReview.Seeded | src/frontend/src/core/components/community/submission-review.jsx:27-128 | seven submissions numbered 1 to 7 |
| SubmissionReview.Review | src/frontend/src/core/components/community/submission-review.jsx:136-152 | same length and ids; each submission with the reviewed id takes the verdict and the feedback, and every other one is unchanged |
| SubmissionReview.Tab | src/frontend/src/core/components/community/submission-review.jsx:229-230 | a tab lists exactly the submissions with its status, in order |
| SubmissionReview.ReviewKeepsUniqueIds | src/frontend/src/core/components/community/submission-review.jsx:136-152 | reviewing keeps distinct ids distinct |
| SubmissionReview.LaterReviewWins | src/frontend/src/core/components/community/submission-review.jsx:136-141 | a second review of the same submission overrides the first |
| SubmissionReview.ReviewLeavesPendingTab | src/frontend/src/core/components/community/submission-review.jsx:229-230 | after approving or rejecting, the pending tab is the old pending tab without the reviewed submission |
| SubmissionReview.TabsPartition | src/frontend/src/core/components/community/submission-review.jsx:229-230 | every submission is in exactly one of the Pending, Approved and Rejected tabs |
| SubmissionReview.Reviewer.constructor | src/frontend/src/core/components/community/submission-review.jsx:27-128 | the seeded submissions with distinct ids, nothing selected, no feedback, dialog closed |
| SubmissionReview.Reviewer.HandleReviewSubmission | src/frontend/src/core/components/community/submission-review.jsx:130-134 | selects the submission, clears the feedback, opens the dialog |
| SubmissionReview.Reviewer.SetReviewFeedback | src/frontend/src/core/components/community/submission-review.jsx:485 | only the feedback changes |
| SubmissionReview.Reviewer.Decide | src/frontend/src/core/components/community/submission-review.jsx:136-152 | approve or reject: the selected id is reviewed with the current feedback, the dialog closes, and ids stay distinct |
| RewardManagement.Seeded | src/frontend/src/core/components/community/reward-management.jsx:26-104 | seven rewards numbered 1 to 7, each with the dates its status calls for and total = recipients × individual amount |
| RewardManagement.MessageNamesRewardAndAmount | src/frontend/src/core/components/community/reward-management.jsx:106-112 | the pre-filled message contains the reward's name and its individual amount in decimal, at their places |
| RewardManagement.DatePart | src/frontend/src/core/components/community/reward-management.jsx:121 | the longest prefix without a "T", stopping at the first "T" |
| RewardManagement.DatePartOfTimestamp | src/frontend/src/core/components/community/reward-management.jsx:121 | the date of date + "T" + time is the date |
| RewardManagement.Distribute | src/frontend/src/core/components/community/reward-management.jsx:114-128 | same length; each reward with the id is marked distributed on the given day with no due date, and every other reward is unchanged |
| RewardManagement.DistributeKeepsWellFormed | src/frontend/src/core/components/community/reward-management.jsx:117-123 | distribution keeps every reward well formed and changes no amount |
| RewardManagement.Tab | src/frontend/src/core/components/community/reward-management.jsx:212-213 | a tab lists exactly the rewards with its status, in order |
| RewardManagement.DistributeLeavesPendingTab | src/frontend/src/core/components/community/reward-management.jsx:212-213 | after confirming, the pending tab is the old one without the distributed reward |
| RewardManagement.DistributeAgain | src/frontend/src/core/components/community/reward-management.jsx:117-123 | confirming again only refreshes the distribution date |
| RewardManagement.Manager.constructor | src/frontend/src/core/components/community/reward-management.jsx:26-104 | the seeded, well-formed rewards, nothing selected, empty message, dialog closed |
| RewardManagement.Manager.HandleDistributeReward | src/frontend/src/core/components/community/reward-management.jsx:106-112 | selects the reward, pre-fills its message, opens the dialog; rewards unchanged |
| RewardManagement.Manager.SetDistributionMessage | src/frontend/src/core/components/community/reward-management.jsx:446 | only the message changes |
| RewardManagement.Manager.HandleConfirmDistribution | src/frontend/src/core/components/community/reward-management.jsx:114-128 | the selected id is distributed on the date part of the current instant, the dialog closes, rewards stay well formed |
| ChallengeManagement.Seeded | src/frontend/src/core/components/community/challenge-management.jsx:24-123 | seven challenges with consecutive ids 1 to 7 |
| ChallengeManagement.ConsecutiveIdsUnique | src/frontend/src/core/components/community/challenge-management.jsx:130 | consecutive ids are distinct |
| ChallengeManagement.Create | src/frontend/src/core/components/community/challenge-management.jsx:125-135 | one challenge appended, earlier ones unchanged; its id is the old length plus one, with no participants, no progress and not verified; every other field comes from the form |
| ChallengeManagement.CreateKeepsConsecutiveIds | src/frontend/src/core/components/community/challenge-management.jsx:130 | creation keeps ids consecutive, hence distinct |
| ChallengeManagement.Tab | src/frontend/src/core/components/community/challenge-management.jsx:340-341 | a tab (Active; Draft or Pending; Completed) lists exactly its challenges, in order |
| ChallengeManagement.TabsDisjoint | src/frontend/src/core/components/community/challenge-management.jsx:414-415 | a challenge is in at most one tab |
| ChallengeManagement.TabsCoverAtMostAll | src/frontend/src/core/components/community/challenge-management.jsx:472-473 | the three tabs together list no challenge twice |
| ChallengeManagement.CreatedChallengeTab | src/frontend/src/core/components/community/challenge-management.jsx:125-137 | a new challenge appears at the end of the tab its status selects and changes no other tab |
| ChallengeManagement.Board.constructor | src/frontend/src/core/components/community/challenge-management.jsx:23-24 | the seeded challenges, dialog closed |
| ChallengeManagement.Board.OpenCreateDialog | src/frontend/src/core/components/community/challenge-management.jsx:213-219 | the dialog opens; challenges unchanged |
| ChallengeManagement.Board.HandleCreateChallenge | src/frontend/src/core/components/community/challenge-management.jsx:125-137 | the challenge is created from the form and the dialog closes; ids stay consecutive and distinct |
| ProjectManagementEnhanced.Seeded | src/frontend/src/core/components/community/project-management-enhanced.jsx:16-82 | five projects numbered 1 to 5 |
| ProjectManagementEnhanced.DeleteProject | src/frontend/src/core/components/community/project-management-enhanced.jsx:84-86 | an order-preserving subsequence without the id that keeps every other project; one shorter for each project with the id |
| ProjectManagementEnhanced.DeleteAbsent | src/frontend/src/core/components/community/project-management-enhanced.jsx:85 | deleting an absent id changes nothing |
| ProjectManagementEnhanced.DeleteIdempotent | src/frontend/src/core/components/community/project-management-enhanced.jsx:85 | deleting twice is deleting once |
| ProjectManagementEnhanced.DeleteShrinksIffPresent | src/frontend/src/core/components/community/project-management-enhanced.jsx:85 | the list shrinks iff a project has the id |
| ProjectManagementEnhanced.ActiveTab | src/frontend/src/core/components/community/project-management-enhanced.jsx:264-265 | exactly the projects with status "Active", in order |
| ProjectManagementEnhanced.DeleteCommutesWithActiveTab | src/frontend/src/core/components/community/project-management-enhanced.jsx:264-265 | the active tab after a deletion is the old active tab with that deletion |
| ProjectManagementEnhanced.View.constructor | src/frontend/src/core/components/community/project-management-enhanced.jsx:16 | the seeded projects |
| ProjectManagementEnhanced.View.HandleDeleteProject | src/frontend/src/core/components/community/project-management-enhanced.jsx:84-86 | the projects become the list without the id |
| AdminNotifications.Seeded | src/frontend/src/core/components/community/admin-notifications.jsx:10-39 | four notifications, only the last one read |
| AdminNotifications.UnreadCount | src/frontend/src/core/components/community/admin-notifications.jsx:41 | the number of notifications not yet read |
| AdminNotifications.UnreadPositiveIff | src/frontend/src/core/components/community/admin-notifications.jsx:52 | the count is positive iff some notification is unread (the badge and the button show) |
| AdminNotifications.SeededUnread | src/frontend/src/core/components/community/admin-notifications.jsx:10-41 | the seeded notifications have three unread |
| AdminNotifications.MarkAllAsRead | src/frontend/src/core/components/community/admin-notifications.jsx:43-45 | every notification is read, with its other fields and its place unchanged |
| AdminNotifications.MarkAllLeavesNoneUnread | src/frontend/src/core/components/community/admin-notifications.jsx:41-45 | afterwards the unread count is 0 |
| AdminNotifications.MarkAllIdempotent | src/frontend/src/core/components/community/admin-notifications.jsx:44 | marking all twice is marking all once |
| AdminNotifications.Bell.constructor | src/frontend/src/core/components/community/admin-notifications.jsx:10 | the seeded notifications |
| AdminNotifications.Bell.MarkAll | src/frontend/src/core/components/community/admin-notifications.jsx:43-45 | every notification is marked read and the badge disappears |
| ProjectOrder.Insert | src/frontend/src/pages/project/project-list-page.jsx:42 | one project inserted: one longer, same multiset plus the project |
| ProjectOrder.InsertKeepsOrder | src/frontend/src/pages/project/project-list-page.jsx:42 | inserting into a newest-first list keeps it newest first |
| ProjectOrder.SortNewestFirst | src/frontend/src/pages/project/project-list-page.jsx:42 | a permutation of the projects ordered by non-increasing creation time |
| ProjectOrder.SortKeepsOrderedInput | src/frontend/src/pages/project/project-list-page.jsx:42 | an input already newest first is left exactly as it is |
| ProjectOrder.Latest4 | src/frontend/src/pages/home-page.jsx:64-66 | min(4, n) projects, newest first, all from the input |
| ProjectOrder.Latest4SplitsInput | src/frontend/src/pages/home-page.jsx:64-66 | the selection and the rest make up the input, and no left-out project is newer than a selected one |
| HomePage.Page.constructor | src/frontend/src/pages/home-page.jsx:52-54 | no projects, loading, no error |
| HomePage.Page.FetchProjects | src/frontend/src/pages/home-page.jsx:58-76 | a reply shows the latest four; an error is kept and the list unchanged; loading ends |
| HomePage.ShowcaseProperties | src/frontend/src/pages/home-page.jsx:64-66 | after a reply the showcase has min(4, n) projects, newest first, from the reply, none older than a project left out |
| ProjectList.Search | src/frontend/src/pages/project/project-list-page.jsx:61 | the order-preserving subsequence whose lower-cased title or description contains the lower-cased query |
| ProjectList.MatchesAgreesWithManagementSearch | src/frontend/src/pages/project/project-list-page.jsx:61 | this search agrees with the management page's, whose empty-query case is therefore redundant |
| ProjectList.EmptyQueryKeepsAll | src/frontend/src/pages/project/project-list-page.jsx:61 | an empty query keeps every project |
| ProjectList.SearchKeepsNewestFirst | src/frontend/src/pages/project/project-list-page.jsx:61 | the filtered list of a newest-first list is newest first |
| ProjectList.Page.constructor | src/frontend/src/pages/project/project-list-page.jsx:28-32 | no projects, loading, no error, empty query |
| ProjectList.Page.FetchProjects | src/frontend/src/pages/project/project-list-page.jsx:36-53 | a reply makes both lists the projects newest first; an error is kept and the lists unchanged; loading ends |
| ProjectList.Page.HandleSearchChange | src/frontend/src/pages/project/project-list-page.jsx:58-72 | the query is stored and the filtered list is the search of the projects |
| EventList.FilterEvents | src/frontend/src/pages/event/event-list-page.jsx:126-139 | the order-preserving subsequence of events in the category (or "all") that match the query (or it is empty) |
| EventList.CategoryThenQuery | src/frontend/src/pages/event/event-list-page.jsx:129-136 | filtering by category and then by query is filtering by both |
| EventList.FilterOrderIrrelevant | src/frontend/src/pages/event/event-list-page.jsx:129-136 | the two filters give the same result in either order |
| EventList.CategoryStep | src/frontend/src/pages/event/event-list-page.jsx:129-131 | the effect's category step is the category filter |
| EventList.QueryStep | src/frontend/src/pages/event/event-list-page.jsx:133-136 | the effect's search step with a non-empty query is the search filter |
| EventList.NarrowEvents | src/frontend/src/pages/event/event-list-page.jsx:126-139 | the effect's step-by-step narrowing yields the events both filters keep |
| EventList.ResetShowsAll | src/frontend/src/pages/event/event-list-page.jsx:290-293 | with "all" and an empty query every event is shown |
| EventList.Page.constructor | src/frontend/src/pages/event/event-list-page.jsx:111-113 | every event, filter "all", empty query |
| EventList.Page.ApplyFilters | src/frontend/src/pages/event/event-list-page.jsx:126-139 | the shown events are the events under the current filter and query |
| EventList.Page.SetActiveFilter | src/frontend/src/pages/event/event-list-page.jsx:238 | the category changes and the shown events follow |
| EventList.Page.SetSearchQuery | src/frontend/src/pages/event/event-list-page.jsx:193 | the query changes and the shown events follow |
| EventList.Page.ResetFilters | src/frontend/src/pages/event/event-list-page.jsx:290-293 | back to "all" and an empty query, showing every event |
| NftList.FilteredCollections | src/frontend/src/pages/nft/nft-list-page.jsx:158-165 | the order-preserving subsequence matching the search and the category, which is "all" or equal case-sensitively |
| NftList.EmptyQueryMatchesAll | src/frontend/src/pages/nft/nft-list-page.jsx:159-163 | with an empty query and "all" every collection is listed |
| NftList.HardWiredRoleCannotView | src/frontend/src/pages/nft/nft-list-page.jsx:147-155 | the hard-wired role "Participant" is not strictly equal to "participant" |
| NftList.ScreenAsWritten | src/frontend/src/pages/nft/nft-list-page.jsx:189 | as written: the access-required screen iff `canViewNFTs` |
| NftList.GateInverted | src/frontend/src/pages/nft/nft-list-page.jsx:189 | a "participant" role is locked out, a "community" role gets in, and the page's own role sees the collections |
| NftList.IntendedScreen | src/frontend/src/pages/nft/nft-list-page.jsx:154-155 | intended: the collections iff the role is participant in either capitalisation |
| NftList.GateCorrected | src/frontend/src/pages/nft/nft-list-page.jsx:189 | the intended gate admits the page's role and "participant" and keeps out "community", the opposite of the written gate for the latter two |
| NftList.PageScreen | src/frontend/src/pages/nft/nft-list-page.jsx:147 | the page's own role sees the collections |
| NftList.GetRarityColor | src/frontend/src/pages/nft/nft-list-page.jsx:167-182 | one of the five classes; slate iff the rarity is not Uncommon, Rare, Epic or Legendary |
| NftList.RarityColorsDistinct | src/frontend/src/pages/nft/nft-list-page.jsx:167-182 | Uncommon, Rare, Epic and Legendary have distinct colours |
| NftList.Page.constructor | src/frontend/src/pages/nft/nft-list-page.jsx:148-149 | empty search, category "all" |
| NftList.Page.SetFilters | src/frontend/src/pages/nft/nft-list-page.jsx:265-268 | the search and the category change and the list shown follows |
| RegisterModal.RoleName | src/frontend/src/core/components/auth/register-modal.jsx:17 | "participant" and "community" name the two roles, one each |
| RegisterModal.SetField | src/frontend/src/core/components/auth/register-modal.jsx:47-53 | the named field takes the value and the other two are unchanged |
| RegisterModal.Validate | src/frontend/src/core/components/auth/register-modal.jsx:59-65 | a participant needs a name with a non-white-space character; a community needs both its name and its initial token so |
| RegisterModal.RequestAsWritten | src/frontend/src/core/components/auth/register-modal.jsx:74-77 | as written: the name sent is always the participant name, with the role |
| RegisterModal.CommunityRegistersWithoutName | src/frontend/src/core/components/auth/register-modal.jsx:74-77 | a community form that passes the validation sends an empty name |
| RegisterModal.Request | src/frontend/src/core/components/auth/register-modal.jsx:74-77 | intended: the name of the role being registered, with the role |
| RegisterModal.ValidRequestIsNamed | src/frontend/src/core/components/auth/register-modal.jsx:60-77 | a request that passes the validation carries a name that is not blank |
| RegisterModal.ParticipantRequestUnchanged | src/frontend/src/core/components/auth/register-modal.jsx:74-77 | for a participant the intended request is the written one |
| RegisterModal.RegisterDisabled | src/frontend/src/core/components/auth/register-modal.jsx:174 | the button is enabled iff not loading and not after a success |
| RegisterModal.Modal.constructor | src/frontend/src/core/components/auth/register-modal.jsx:14-22 | not loading, no status, participant tab, empty form |
| RegisterModal.Modal.SetRole | src/frontend/src/core/components/auth/register-modal.jsx:119 | only the role changes |
| RegisterModal.Modal.HandleInputChange | src/frontend/src/core/components/auth/register-modal.jsx:47-53 | only the named form field changes |
| RegisterModal.Modal.Close | src/frontend/src/core/components/auth/register-modal.jsx:34-45 | the status and the form are reset |
| RegisterModal.Modal.HandleRegister | src/frontend/src/core/components/auth/register-modal.jsx:55-87 | an invalid form sends nothing and shows the error; a valid one sends the request as written, named by the participant field whatever the role (non-blank, and the intended request, for a participant); an `Ok` reply gives success and the redirect, an `Err` reply the error; a thrown call leaves the dialog loading with no status |

## Left out

- The face pipeline and the byte store (`onnx.rs`, `storage.rs`) are not part of this model. `onnx::detect` enters as the result it returns. `onnx::recognize`, `onnx::add` and `setup` enter as function parameters. The store is a map from file name to bytes. The model assumes that clearing a file stores the empty sequence and that appending concatenates; `storage.rs`'s own code is not modelled.
- The canister's `init` and `post_upgrade` (the WASI polyfill and the stable-memory manager), the `thread_local!`/`RefCell` plumbing and Candid serialisation are left out. None of them changes the registry.
- Backend calls, `Actor.agentOf(...).replaceIdentity`, toasts, console output and navigation are left out. Replies are parameters; navigation away is a returned flag where it matters (`leave`, `redirect`). Where a handler catches an exception, the exception is treated as an error reply. The exceptions are `ProjectDetail.Page.HandleJoinProject`, whose catch differs from its error branch, and `RegisterModal.Modal.HandleRegister`, which has no catch. For both, the outcome parameter can be a thrown call.
- ProjectManagement.MsNsRoundTrip: the conversion is on unbounded integers. It does not model the double-precision rounding of `Number(...)` and of `ms * 1_000_000` for values above 2^53.
- MyProjects.CalculateEarnedRewards: `Math.random()` is a rational draw in [0, 1) supplied by the caller, and floating-point multiplication is not modelled.
- EvidenceForm.FormatFileSize: `toFixed(1)` is modelled on the exact quotient. This agrees with ECMAScript except where the binary quotient is not exact, which cannot happen for a divisor that is a power of two.
- `toLowerCase` is modelled on ASCII letters only. Unicode case mapping is not modelled.
- Locale date formatting (`toLocaleDateString`, `toLocaleString`) is left out. Deadlines and submission times are kept as millisecond values. The current instant's ISO text is a parameter of `RewardManagement.Manager.HandleConfirmDistribution`.
- Timers are left out: the search `debounce` (modelled as immediate), the dialog fade-out `setTimeout` (the reset is immediate), the events page's simulated loading, and the visibility animation.
- ProjectOrder.SortNewestFirst: the sort is modelled on a sequence, not in place on the backend's array. The in-place mutation is not observable afterwards. The model places equal timestamps in arrival order, as the stable `Array.prototype.sort` does, but no lemma states stability. The comparator converts `createdAt` with `Number(...)`, so two nanosecond timestamps above 2^53 that round to the same double compare equal in the source and keep their arrival order. The model compares the exact integers and orders them.
- EvidenceForm.Form.RemoveFile: requires a valid index. The source would throw on reading `.preview` of a missing entry, and the list only offers existing indexes.
- Display-only data is not kept: colours, icons and badge classes (except the rarity colour); submission descriptions, evidence summaries and avatars; event times, rewards and images; NFT items, view mode and the detail dialog; the detail page's `imageUrl`, `communityId` and `communityName`.
- A Candid category variant (`{ [name]: null }`) is represented by its name. The community-level fetch is represented by the level passed to `GetMaxReward`.
- The challenge form itself is left out. Only the shape of the data it submits is kept (`ChallengeDraft`).
- RegisterModal.Request: `initialToken` is validated but never sent, in the source and in the corrected request alike. The backend's `register` is not part of this model, so where the token belongs is not known.
- The NFT page's collections are a constant. No lemma evaluates the filter on the constant itself, because unfolding the long literal is too costly. The lemmas are stated for every list of collections.

## Findings

| source | as written | input that shows it | evidently intended | confidence | as-written member | corrected member |
|---|---|---|---|---|---|---|
| src/frontend/src/pages/project/project-detail-page.jsx:581 | the join button is disabled only while joining or when the status is 3 | status 0 (inactive) or 4 (distributed), not joining: `getStatusConfig` says `canJoin: false`, yet the button is enabled and calls `joinProject` | enabled only when the status configuration allows joining (status 1 or 2) and no join is under way | medium, not executed | ProjectDetail.JoinButtonDisabled, ProjectDetail.InactiveProjectJoinButtonEnabled, ProjectDetail.Page.JoinButtonEnabled | ProjectDetail.JoinEnabled, ProjectDetail.JoinEnabledWithinWritten |
| src/frontend/src/pages/nft/nft-list-page.jsx:189 | `if (canViewNFTs)` returns the "Participant Access Required" screen, and `canViewNFTs` compares case-sensitively with "participant" while the role is "Participant" | role "participant": access required; role "community": collections shown | the collections for a participant and the access screen for everyone else, as the comment at line 154 and the screen's text say | high, not executed | NftList.ScreenAsWritten, NftList.GateInverted | NftList.IntendedScreen, NftList.GateCorrected |
| src/frontend/src/core/components/auth/register-modal.jsx:74-77 | `register` is always sent `name: formData.participantName` | role community with participant name "", community name "Green Town", initial token "100": validation passes and the name sent is "" | the community's name is sent when registering a community | medium, not executed | RegisterModal.RequestAsWritten, RegisterModal.CommunityRegistersWithoutName, RegisterModal.Modal.HandleRegister | RegisterModal.Request, RegisterModal.ValidRequestIsNamed |
