/** The administrator's reward management (reward-management.jsx): seeded rewards,
    the distribution dialog with its pre-filled message, and the confirmation that
    marks a reward distributed as of today's date. */
module RewardManagement {
  import C = Common
  import Text

  datatype RewardKind = Challenge | Project
  datatype RewardStatus = Pending | Distributed

  /** A reward; a pending one carries its due date, a distributed one the date it went out. */
  datatype Reward = Reward(
    id: nat,
    title: string,
    kind: RewardKind,
    name: string,
    recipients: nat,
    totalAmount: nat,
    individualAmount: nat,
    status: RewardStatus,
    dueDate: C.Option<string>,
    distributedDate: C.Option<string>)

  /** The dates a reward carries match its status, and its total is what every
      recipient receives together. */
  predicate WellFormed(r: Reward)
  {
    (r.status == Pending ==> r.dueDate.Some? && r.distributedDate.None?)
    && (r.status == Distributed ==> r.distributedDate.Some? && r.dueDate.None?)
    && r.totalAmount == r.recipients * r.individualAmount
  }

  function PendingReward(id: nat, title: string, kind: RewardKind, name: string, recipients: nat,
                         total: nat, each: nat, due: string): Reward
  {
    Reward(id, title, kind, name, recipients, total, each, Pending, C.Some(due), C.None)
  }

  function DistributedReward(id: nat, title: string, kind: RewardKind, name: string, recipients: nat,
                             total: nat, each: nat, date: string): Reward
  {
    Reward(id, title, kind, name, recipients, total, each, Distributed, C.None, C.Some(date))
  }

  /** The seven rewards the component starts with, numbered 1 to 7, each well formed. */
  function Seeded(): (r: seq<Reward>)
    ensures |r| == 7
    ensures forall i :: 0 <= i < |r| ==> r[i].id == i + 1 && WellFormed(r[i])
  {
    [ PendingReward(1, "Zero Waste Week Completion", Challenge, "Zero Waste Week", 124, 62000, 500, "2025-05-10"),
      DistributedReward(2, "Bike to Work Month Completion", Challenge, "Bike to Work Month", 87, 65250, 750, "2025-05-01"),
      PendingReward(3, "Community Garden Initiative Q2 Milestone", Project, "Community Garden Initiative", 45, 22500, 500, "2025-06-15"),
      DistributedReward(4, "Water Saving Challenge Completion", Challenge, "Water Saving Challenge", 93, 37200, 400, "2025-05-01"),
      DistributedReward(5, "Solar Panel Collective Q1 Milestone", Project, "Solar Panel Collective", 32, 32000, 1000, "2025-04-15"),
      DistributedReward(6, "Public Transport Only Completion", Challenge, "Public Transport Only", 112, 78400, 700, "2025-04-01"),
      PendingReward(7, "Reforestation Project Q2 Milestone", Project, "Reforestation Project", 72, 36000, 500, "2025-06-30") ]
  }

  const MessageStart: string := "Congratulations on completing the "
  const MessageMiddle: string := "! You've earned "
  const MessageEnd: string := " LUM tokens for your contribution to sustainability."

  /** The message `handleDistributeReward` pre-fills. */
  function DistributionMessage(r: Reward): string
  {
    MessageStart + r.name + MessageMiddle + Text.DecimalString(r.individualAmount) + MessageEnd
  }

  /** The message names the reward and the amount each recipient earns. */
  lemma MessageNamesRewardAndAmount(r: Reward)
    ensures Text.OccursAt(DistributionMessage(r), r.name, |MessageStart|)
    ensures Text.OccursAt(DistributionMessage(r), Text.DecimalString(r.individualAmount),
                          |MessageStart| + |r.name| + |MessageMiddle|)
    ensures Text.Includes(DistributionMessage(r), Text.DecimalString(r.individualAmount))
  {
    var m := DistributionMessage(r);
    var amount := Text.DecimalString(r.individualAmount);
    var k := |MessageStart| + |r.name| + |MessageMiddle|;
    assert m[|MessageStart|..|MessageStart| + |r.name|] == r.name;
    assert m[k..k + |amount|] == amount;
    assert Text.OccursAt(m, amount, k);
    Text.IncludesAt(m, amount);
  }

  /** `split("T")[0]`: the text before the first "T", or all of it when there is none. */
  function DatePart(iso: string): (r: string)
    ensures |r| <= |iso| && r == iso[..|r|]
    ensures forall i :: 0 <= i < |r| ==> r[i] != 'T'
    ensures |r| < |iso| ==> iso[|r|] == 'T'
    decreases |iso|
  {
    if iso == [] || iso[0] == 'T' then [] else [iso[0]] + DatePart(iso[1..])
  }

  /** The date of an ISO timestamp `date` + "T" + time is `date`. */
  lemma {:induction false} DatePartOfTimestamp(date: string, time: string)
    requires forall i :: 0 <= i < |date| ==> date[i] != 'T'
    ensures DatePart(date + "T" + time) == date
    decreases |date|
  {
    if date != [] {
      DatePartOfTimestamp(date[1..], time);
      assert (date + "T" + time)[1..] == date[1..] + "T" + time;
    } else {
      assert (date + "T" + time)[0] == 'T';
    }
  }

  /** `handleConfirmDistribution`: the reward with the chosen id is marked distributed
      today and loses its due date; every other reward is kept. */
  function Distribute(rewards: seq<Reward>, id: nat, today: string): (r: seq<Reward>)
    ensures |r| == |rewards|
    ensures forall i :: 0 <= i < |r| && rewards[i].id == id ==>
              r[i] == rewards[i].(status := Distributed, distributedDate := C.Some(today), dueDate := C.None)
    ensures forall i :: 0 <= i < |r| && rewards[i].id != id ==> r[i] == rewards[i]
    decreases |rewards|
  {
    if rewards == [] then []
    else
      var head := if rewards[0].id == id
                  then rewards[0].(status := Distributed, distributedDate := C.Some(today), dueDate := C.None)
                  else rewards[0];
      [head] + Distribute(rewards[1..], id, today)
  }

  /** Distribution keeps every reward well formed and changes no amount. */
  lemma DistributeKeepsWellFormed(rewards: seq<Reward>, id: nat, today: string)
    requires forall i :: 0 <= i < |rewards| ==> WellFormed(rewards[i])
    ensures forall i :: 0 <= i < |rewards| ==> WellFormed(Distribute(rewards, id, today)[i])
    ensures forall i :: 0 <= i < |rewards| ==>
              Distribute(rewards, id, today)[i].totalAmount == rewards[i].totalAmount
              && Distribute(rewards, id, today)[i].individualAmount == rewards[i].individualAmount
  {
  }

  /** The rewards a tab lists: those with the tab's status. */
  function Tab(rewards: seq<Reward>, status: RewardStatus): (r: seq<Reward>)
    ensures C.IsSubsequence(r, rewards)
    ensures forall i :: 0 <= i < |r| ==> r[i].status == status
    ensures forall i :: 0 <= i < |rewards| && rewards[i].status == status ==> rewards[i] in r
  {
    C.FilterIsSubsequence(rewards, (x: Reward) => x.status == status);
    C.Filter(rewards, (x: Reward) => x.status == status)
  }

  /** Confirming a distribution takes that reward, and nothing else, out of the
      pending tab. */
  lemma {:induction false} DistributeLeavesPendingTab(rewards: seq<Reward>, id: nat, today: string)
    ensures Tab(Distribute(rewards, id, today), Pending)
            == C.Filter(rewards, (x: Reward) => x.status == Pending && x.id != id)
    decreases |rewards|
  {
    if rewards != [] {
      DistributeLeavesPendingTab(rewards[1..], id, today);
      assert Distribute(rewards, id, today)[1..] == Distribute(rewards[1..], id, today);
    }
  }

  /** Confirming twice, even on another day, leaves the date of the second confirmation. */
  lemma {:induction false} DistributeAgain(rewards: seq<Reward>, id: nat, d1: string, d2: string)
    ensures Distribute(Distribute(rewards, id, d1), id, d2) == Distribute(rewards, id, d2)
    decreases |rewards|
  {
    if rewards != [] {
      DistributeAgain(rewards[1..], id, d1, d2);
      assert Distribute(rewards, id, d1)[1..] == Distribute(rewards[1..], id, d1);
    }
  }

  /** The component's state. */
  class Manager {
    var rewards: seq<Reward>
    var selected: C.Option<Reward>
    var distributionMessage: string
    var isDistributeDialogOpen: bool

    ghost predicate Valid()
      reads this
    {
      forall i :: 0 <= i < |rewards| ==> WellFormed(rewards[i])
    }

    constructor ()
      ensures rewards == Seeded() && Valid()
      ensures selected == C.None && distributionMessage == "" && !isDistributeDialogOpen
    {
      rewards := Seeded();
      selected := C.None;
      distributionMessage := "";
      isDistributeDialogOpen := false;
    }

    /** `handleDistributeReward`: select the reward, pre-fill the message, open the dialog. */
    method HandleDistributeReward(reward: Reward)
      modifies this
      ensures selected == C.Some(reward) && distributionMessage == DistributionMessage(reward)
      ensures isDistributeDialogOpen && rewards == old(rewards)
    {
      selected := C.Some(reward);
      distributionMessage := DistributionMessage(reward);
      isDistributeDialogOpen := true;
    }

    /** The message text area; the edited message is not used by the confirmation. */
    method SetDistributionMessage(text: string)
      modifies this
      ensures distributionMessage == text
      ensures rewards == old(rewards) && selected == old(selected)
      ensures isDistributeDialogOpen == old(isDistributeDialogOpen)
    {
      distributionMessage := text;
    }

    /** `handleConfirmDistribution`, with the current instant's ISO text as a parameter. */
    method HandleConfirmDistribution(nowIso: string)
      requires selected.Some?
      modifies this
      ensures rewards == Distribute(old(rewards), old(selected).value.id, DatePart(nowIso))
      ensures !isDistributeDialogOpen
      ensures selected == old(selected) && distributionMessage == old(distributionMessage)
      ensures old(Valid()) ==> Valid()
    {
      if Valid() {
        DistributeKeepsWellFormed(rewards, selected.value.id, DatePart(nowIso));
      }
      rewards := Distribute(rewards, selected.value.id, DatePart(nowIso));
      isDistributeDialogOpen := false;
    }
  }
}
