/** The meeting sidebar's unread indicators (frontend/app/components/MeetingSidebar.tsx):
    each tab keeps a counter of items that arrived while another tab was shown, and a
    record of the list length the counter last saw. */
module Sidebar {
  import opened Common
  import opened Registry
  import MeetingRoom

  const ChatTab: string := "chat"
  const ParticipantsTab: string := "participants"

  /** One indicator: the unread count and the `prev…Count` ref. */
  datatype Counter = Counter(unread: nat, prev: nat)

  /** One run of an unread effect for the tab `watched`, with the list now `len` long. */
  function Observe(c: Counter, watched: string, activeTab: string, len: nat): (d: Counter)
    ensures d.prev == len
    ensures activeTab == watched ==> d.unread == 0
    ensures activeTab != watched && len > c.prev ==> d.unread == c.unread + (len - c.prev)
    ensures activeTab != watched && len <= c.prev ==> d.unread == c.unread
  {
    var unread := if activeTab == watched then 0
                  else if len > c.prev then c.unread + (len - c.prev)
                  else c.unread;
    Counter(unread, len)
  }

  /** Runs of the effect for successive list lengths, all on the same tab. */
  function ObserveAll(c: Counter, watched: string, activeTab: string, lens: seq<nat>): Counter
    decreases |lens|
  {
    if lens == [] then c
    else ObserveAll(Observe(c, watched, activeTab, lens[0]), watched, activeTab, lens[1..])
  }

  /** The total growth of a list observed at the lengths `lens`, starting from `prev`;
      shrinking steps count nothing. */
  function Rises(prev: nat, lens: seq<nat>): nat
    decreases |lens|
  {
    if lens == [] then 0
    else (if lens[0] > prev then lens[0] - prev else 0) + Rises(lens[0], lens[1..])
  }

  /** On another tab the counter adds up every increase it observes and ends up
      recording the last length. */
  lemma {:induction false} ObserveAllSpec(c: Counter, watched: string, activeTab: string, lens: seq<nat>)
    requires activeTab != watched
    ensures ObserveAll(c, watched, activeTab, lens).unread == c.unread + Rises(c.prev, lens)
    ensures ObserveAll(c, watched, activeTab, lens).prev == if lens == [] then c.prev else lens[|lens| - 1]
    decreases |lens|
  {
    if lens != [] {
      ObserveAllSpec(Observe(c, watched, activeTab, lens[0]), watched, activeTab, lens[1..]);
    }
  }

  /** While the list only grows, the unread count grows by exactly the number of new
      items. */
  lemma {:induction false} RisesOfGrowth(prev: nat, lens: seq<nat>)
    requires lens != [] && prev <= lens[0]
    requires forall i | 0 <= i < |lens| - 1 :: lens[i] <= lens[i + 1]
    ensures Rises(prev, lens) == lens[|lens| - 1] - prev
    decreases |lens|
  {
    if |lens| > 1 {
      RisesOfGrowth(lens[0], lens[1..]);
    }
  }

  /** Looking at the tab clears its indicator whatever came before. */
  lemma {:induction false} VisitClears(c: Counter, watched: string, lens: seq<nat>)
    requires lens != []
    ensures ObserveAll(c, watched, watched, lens).unread == 0
    ensures ObserveAll(c, watched, watched, lens).prev == lens[|lens| - 1]
    decreases |lens|
  {
    if |lens| > 1 {
      VisitClears(Observe(c, watched, watched, lens[0]), watched, lens[1..]);
    }
  }

  /** `People (${participants.length + 1})`. */
  function PeopleCount(ps: seq<Participant>): nat {
    |ps| + 1
  }

  /** The People count is the number of tiles the meeting page shows: the local user
      and one per participant. */
  lemma PeopleCountIsTiles(userName: string, isMuted: bool, isVideoOn: bool,
                           local: Option<StreamRef>, ps: seq<Participant>)
    ensures PeopleCount(ps) == |MeetingRoom.AllTiles(userName, isMuted, isVideoOn, local, ps)|
    ensures PeopleCount(ps) >= 1
  {
  }

  class Panel {
    var activeTab: string
    var unreadMessages: nat
    var unreadParticipants: nat
    var prevMessagesCount: nat
    var prevParticipantsCount: nat

    function Messages(): Counter
      reads this
    {
      Counter(unreadMessages, prevMessagesCount)
    }

    function Participants(): Counter
      reads this
    {
      Counter(unreadParticipants, prevParticipantsCount)
    }

    /** The first render: no unread items, the refs hold the initial lengths. */
    constructor (activeTab: string, messagesLength: nat, participantsLength: nat)
      ensures this.activeTab == activeTab
      ensures Messages() == Counter(0, messagesLength)
      ensures Participants() == Counter(0, participantsLength)
    {
      this.activeTab := activeTab;
      unreadMessages, unreadParticipants := 0, 0;
      prevMessagesCount, prevParticipantsCount := messagesLength, participantsLength;
    }

    /** `onValueChange`; the two effects then run again with the new tab. */
    method SetActiveTab(tab: string)
      modifies this
      ensures activeTab == tab
      ensures Messages() == old(Messages()) && Participants() == old(Participants())
    {
      activeTab := tab;
    }

    /** The unread message effect, run when `messages.length` or the tab changed. */
    method MessagesEffect(messagesLength: nat)
      modifies this
      ensures Messages() == Observe(old(Messages()), ChatTab, activeTab, messagesLength)
      ensures activeTab == old(activeTab) && Participants() == old(Participants())
    {
      if activeTab == ChatTab {
        unreadMessages := 0;
      } else if messagesLength > prevMessagesCount {
        unreadMessages := unreadMessages + (messagesLength - prevMessagesCount);
      }
      prevMessagesCount := messagesLength;
    }

    /** The unread participant effect, the same rule for the participants tab. */
    method ParticipantsEffect(participantsLength: nat)
      modifies this
      ensures Participants() == Observe(old(Participants()), ParticipantsTab, activeTab, participantsLength)
      ensures activeTab == old(activeTab) && Messages() == old(Messages())
    {
      if activeTab == ParticipantsTab {
        unreadParticipants := 0;
      } else if participantsLength > prevParticipantsCount {
        unreadParticipants := unreadParticipants + (participantsLength - prevParticipantsCount);
      }
      prevParticipantsCount := participantsLength;
    }
  }
}
