/** The session lookup page: the record the contract returns for a session
    id, the view the page renders from it (phase label, the timestamp rows
    the phase allows, candidate results, voter vote status, the messages for
    empty lists) and the page state that a lookup updates. */
module SessionView {
  import opened Options
  import opened Text

  /** `details`, a positional tuple:
      [0] session id, [1] name, [2] phase, [3] registration time,
      [4] voting time, [5] close time (seconds since the epoch). */
  datatype SessionRecord = SessionRecord(
    id: nat, name: string, phase: nat,
    registrationTime: int, votingTime: int, closeTime: int)

  /** An element of `candidateDetails`:
      [0] id, [1] name, [2] description, [3] image reference, [4] vote count. */
  datatype Candidate = Candidate(
    id: nat, name: string, description: string, imageRef: string, voteCount: nat)

  /** An element of `voterDetails`: [0] id, [1] account address. */
  datatype Voter = Voter(id: nat, address: string)

  /** An element of `voterVSDetails`, parallel to `voterDetails`:
      [0] weight, [1] id of the candidate voted for, 0 when there is no vote.
      The sentinel 0 cannot be told apart from a candidate whose id is 0;
      the page reads 0 as "no vote" whatever the candidate ids are. */
  datatype VoterVote = VoterVote(weight: nat, votedCandidateId: nat)

  /** What the session lookup returns when the session exists. */
  datatype SessionDetails = SessionDetails(
    details: SessionRecord,
    candidateDetails: seq<Candidate>,
    voterDetails: seq<Voter>,
    voterVSDetails: seq<VoterVote>,
    winnerCandidateIds: seq<nat>)

  /** The phase cell: 0 and 1 have their own names, every other value reads
      "Close"; the three labels are different strings. */
  function PhaseLabel(phase: nat): (r: string)
    ensures r == "Registration" <==> phase == 0
    ensures r == "Voting" <==> phase == 1
    ensures r == "Close" <==> phase >= 2
  {
    assert "Voting" != "Registration" && "Close" != "Registration" && "Voting" != "Close" by {
      assert "Voting"[0] != "Registration"[0] && "Close"[0] != "Registration"[0];
      assert "Voting"[0] != "Close"[0];
    }
    if phase == 0 then "Registration" else if phase == 1 then "Voting" else "Close"
  }

  /** The voting-time row is rendered in phases 1 and 2: past registration,
      and for no phase value beyond the three a session can be in. */
  function ShowsVotingTime(phase: nat): (r: bool)
    ensures r <==> phase <= 2 && PhaseLabel(phase) != "Registration"
  {
    phase == 1 || phase == 2
  }

  /** The close-time row is rendered only in phase 2, and never without the
      voting-time row. */
  function ShowsCloseTime(phase: nat): (r: bool)
    ensures r <==> phase <= 2 && PhaseLabel(phase) == "Close"
    ensures r ==> ShowsVotingTime(phase)
  {
    phase == 2
  }

  /** For the three phases a session can be in, the rows follow the label:
      no later timestamp in "Registration", the voting time from "Voting"
      on, the close time only when "Close"; the close row never appears
      without the voting row. */
  lemma PhaseRowsFollowLabel(phase: nat)
    requires phase <= 2
    ensures ShowsVotingTime(phase) <==> PhaseLabel(phase) != "Registration"
    ensures ShowsCloseTime(phase) <==> PhaseLabel(phase) == "Close"
    ensures ShowsCloseTime(phase) ==> ShowsVotingTime(phase)
  {
  }

  /** Any phase value above 2 is labelled "Close" but shows neither later
      timestamp row. */
  lemma OutOfRangePhase(phase: nat)
    requires phase > 2
    ensures PhaseLabel(phase) == "Close"
    ensures !ShowsVotingTime(phase) && !ShowsCloseTime(phase)
  {
  }

  /** The candidate status cell. */
  datatype CandidateStatus = Won | Lose | Undetermined {
    function Label(): string {
      match this
      case Won => "Won"
      case Lose => "Lose"
      case Undetermined => "-"
    }
  }

  /** The `for` loop over `winnerCandidateIds` with its early return: does the
      list hold the id? */
  function IsWinner(winnerCandidateIds: seq<nat>, id: nat): (r: bool)
    ensures r <==> id in winnerCandidateIds
  {
    if winnerCandidateIds == [] then false
    else if winnerCandidateIds[0] == id then true
    else IsWinner(winnerCandidateIds[1..], id)
  }

  /** Only a session in phase 2 shows results: there a candidate has won iff
      its id is among the winners (several winners allowed); in any other
      phase the status is "-", whatever the winner list holds. */
  function StatusOf(phase: nat, candidateId: nat, winnerCandidateIds: seq<nat>): (r: CandidateStatus)
    ensures phase != 2 ==> r == Undetermined
    ensures phase == 2 ==> (r == Won <==> candidateId in winnerCandidateIds)
    ensures phase == 2 ==> r != Undetermined
  {
    if phase == 2 then
      if IsWinner(winnerCandidateIds, candidateId) then Won else Lose
    else Undetermined
  }

  /** The order of the winner list, and repetitions in it, do not matter. */
  lemma StatusIgnoresWinnerOrder(phase: nat, candidateId: nat, w1: seq<nat>, w2: seq<nat>)
    requires (set x | x in w1) == (set x | x in w2)
    ensures StatusOf(phase, candidateId, w1) == StatusOf(phase, candidateId, w2)
  {
    var s1, s2 := set x | x in w1, set x | x in w2;
    assert candidateId in w1 <==> candidateId in s1;
    assert candidateId in w2 <==> candidateId in s2;
    var r1, r2 := StatusOf(phase, candidateId, w1), StatusOf(phase, candidateId, w2);
    if phase == 2 {
      assert r1 == Won <==> r2 == Won;
    }
  }

  /** The voted-candidate cell. */
  datatype VoteStatus = NoVote | Voted(candidateId: nat) {
    function Label(): string {
      match this
      case NoVote => "No Vote"
      case Voted(n) => "Voted: " + DecimalString(n)
    }
  }

  /** 0 is read as "no vote"; any other id as a vote for that candidate. */
  function VoteStatusOf(votedCandidateId: nat): (r: VoteStatus)
    ensures r.NoVote? <==> votedCandidateId == 0
    ensures r.Voted? ==> r.candidateId == votedCandidateId
  {
    if votedCandidateId == 0 then NoVote else Voted(votedCandidateId)
  }

  /** The label reads "No Vote" exactly for the sentinel, and two voters'
      labels agree only when they voted for the same id: the label loses
      nothing. */
  lemma VoteLabelIdentifiesVote(a: nat, b: nat)
    ensures VoteStatusOf(a).Label() == "No Vote" <==> a == 0
    ensures VoteStatusOf(a).Label() == VoteStatusOf(b).Label() ==> a == b
  {
    if a != 0 {
      assert VoteStatusOf(a).Label()[0] == 'V';
    }
    if b != 0 {
      assert VoteStatusOf(b).Label()[0] == 'V';
    }
    if a != 0 && b != 0 && VoteStatusOf(a).Label() == VoteStatusOf(b).Label() {
      var p := "Voted: ";
      assert VoteStatusOf(a).Label()[|p|..] == DecimalString(a);
      assert VoteStatusOf(b).Label()[|p|..] == DecimalString(b);
      DecimalInjective(a, b);
    }
  }

  /** A row of the candidate table. */
  datatype CandidateRow = CandidateRow(
    id: nat, name: string, description: string, imageRef: string, voteCount: nat,
    status: CandidateStatus)

  /** The candidate table, or the message that stands in for an empty one. */
  datatype CandidateSection = NoCandidates | CandidateTable(rows: seq<CandidateRow>) {
    function Message(): string
      requires NoCandidates?
    {
      "There are no candidates registered."
    }
  }

  /** A row of the voter table: id and address from `voterDetails[i]`,
      weight and vote status from the parallel `voterVSDetails[i]`. */
  datatype VoterRow = VoterRow(id: nat, address: string, weight: nat, status: VoteStatus)

  datatype VoterSection = NoVoters | VoterTable(rows: seq<VoterRow>) {
    function Message(): string
      requires NoVoters?
    {
      "There are no voter accounts registered."
    }
  }

  /** Everything the page renders for a session that exists. */
  datatype View = View(
    sessionId: nat, name: string, phaseLabel: string,
    registrationTime: int, votingTime: Option<int>, closeTime: Option<int>,
    candidates: CandidateSection, voters: VoterSection)

  function CandidateRowOf(c: Candidate, phase: nat, winnerCandidateIds: seq<nat>): CandidateRow {
    CandidateRow(c.id, c.name, c.description, c.imageRef, c.voteCount,
                 StatusOf(phase, c.id, winnerCandidateIds))
  }

  /** The candidate table keeps one row per candidate, in order, or is the
      message when there is none. */
  function CandidateSectionOf(d: SessionDetails): (r: CandidateSection)
    ensures r.NoCandidates? <==> |d.candidateDetails| == 0
    ensures r.CandidateTable? ==>
      && |r.rows| == |d.candidateDetails|
      && forall i :: 0 <= i < |r.rows| ==> r.rows[i].id == d.candidateDetails[i].id
  {
    if |d.candidateDetails| > 0 then
      CandidateTable(seq(|d.candidateDetails|, i requires 0 <= i < |d.candidateDetails| =>
        CandidateRowOf(d.candidateDetails[i], d.details.phase, d.winnerCandidateIds)))
    else NoCandidates
  }

  /** The voter rows, or None when `voterVSDetails` has no entry for some
      voter: rendering that row reads a field of `undefined` and throws. */
  function VoterSectionOf(d: SessionDetails): (r: Option<VoterSection>)
    ensures r.None? <==> 0 < |d.voterDetails| && |d.voterVSDetails| < |d.voterDetails|
    ensures r == Some(NoVoters) <==> |d.voterDetails| == 0
    ensures r.Some? && r.value.VoterTable? ==> |r.value.rows| == |d.voterDetails|
  {
    if |d.voterDetails| == 0 then Some(NoVoters)
    else if |d.voterVSDetails| < |d.voterDetails| then None
    else Some(VoterTable(seq(|d.voterDetails|, i requires 0 <= i < |d.voterDetails| =>
      VoterRow(d.voterDetails[i].id, d.voterDetails[i].address,
               d.voterVSDetails[i].weight, VoteStatusOf(d.voterVSDetails[i].votedCandidateId)))))
  }

  /** The view of a session record, None when rendering it throws; the
      header shows the session's own id and name and the label of its phase. */
  function Project(d: SessionDetails): (r: Option<View>)
    ensures r.Some? <==> VoterSectionOf(d).Some?
    ensures r.Some? ==>
      && r.value.sessionId == d.details.id && r.value.name == d.details.name
      && r.value.phaseLabel == PhaseLabel(d.details.phase)
  {
    match VoterSectionOf(d)
    case None => None
    case Some(voters) =>
      var s := d.details;
      Some(View(
        s.id, s.name, PhaseLabel(s.phase), s.registrationTime,
        if ShowsVotingTime(s.phase) then Some(s.votingTime) else None,
        if ShowsCloseTime(s.phase) then Some(s.closeTime) else None,
        CandidateSectionOf(d), voters))
  }

  /** Rendering fails only when a voter has no parallel vote entry. */
  lemma ProjectDefined(d: SessionDetails)
    ensures Project(d).Some? <==> |d.voterDetails| <= |d.voterVSDetails|
  {
  }

  /** A timestamp is shown only once its phase has been reached, and then it
      is the record's own timestamp. */
  lemma ProjectGatesTimestamps(d: SessionDetails)
    requires Project(d).Some?
    ensures var v := Project(d).value;
      && v.registrationTime == d.details.registrationTime
      && (v.votingTime.Some? <==> d.details.phase == 1 || d.details.phase == 2)
      && (v.votingTime.Some? ==> v.votingTime.value == d.details.votingTime)
      && (v.closeTime.Some? <==> d.details.phase == 2)
      && (v.closeTime.Some? ==> v.closeTime.value == d.details.closeTime)
  {
  }

  /** The candidate table lists every candidate in order; in phase 2 each is
      marked won iff its id is a winner id, and before that no result is
      shown. An empty candidate list gives the message instead. */
  lemma ProjectCandidates(d: SessionDetails)
    requires Project(d).Some?
    ensures var c := Project(d).value.candidates;
      && (c.NoCandidates? <==> |d.candidateDetails| == 0)
      && (c.CandidateTable? ==> |c.rows| == |d.candidateDetails|)
      && (c.CandidateTable? ==> forall i :: 0 <= i < |c.rows| ==>
            c.rows[i].id == d.candidateDetails[i].id
            && c.rows[i].voteCount == d.candidateDetails[i].voteCount
            && (d.details.phase != 2 ==> c.rows[i].status == Undetermined)
            && (d.details.phase == 2 ==>
                  (c.rows[i].status == Won <==> d.candidateDetails[i].id in d.winnerCandidateIds)))
  {
  }

  /** The voter table pairs each voter with the vote entry at the same index;
      "No Vote" exactly for the sentinel. An empty voter list gives the
      message instead. */
  lemma ProjectVoters(d: SessionDetails)
    requires Project(d).Some?
    ensures var v := Project(d).value.voters;
      && (v.NoVoters? <==> |d.voterDetails| == 0)
      && (v.VoterTable? ==> |v.rows| == |d.voterDetails|)
      && (v.VoterTable? ==> forall i :: 0 <= i < |v.rows| ==>
            v.rows[i].id == d.voterDetails[i].id
            && v.rows[i].weight == d.voterVSDetails[i].weight
            && (v.rows[i].status.NoVote? <==> d.voterVSDetails[i].votedCandidateId == 0)
            && (v.rows[i].status.Voted? ==>
                  v.rows[i].status.candidateId == d.voterVSDetails[i].votedCandidateId))
  {
  }

  /** The worked example: winners {2, 5} among candidates 1, 2, 3, 5. */
  lemma WinnerExample()
    ensures StatusOf(2, 1, [2, 5]) == Lose && StatusOf(2, 2, [2, 5]) == Won
    ensures StatusOf(2, 3, [2, 5]) == Lose && StatusOf(2, 5, [2, 5]) == Won
    ensures StatusOf(1, 2, [2, 5]) == Undetermined && StatusOf(1, 5, [2, 5]) == Undetermined
  {
  }

  const NotFoundPrefix: string := "Voting Session with ID "
  const NotFoundSuffix: string := " does not exist."

  /** The not-found message for the id the user submitted: the id as typed,
      between a fixed prefix and a fixed suffix. */
  function NotFoundMessage(submittedId: string): (r: string)
    ensures |r| == |NotFoundPrefix| + |submittedId| + |NotFoundSuffix|
    ensures r[..|NotFoundPrefix|] == NotFoundPrefix
    ensures r[|NotFoundPrefix|..|NotFoundPrefix| + |submittedId|] == submittedId
    ensures r[|NotFoundPrefix| + |submittedId|..] == NotFoundSuffix
  {
    NotFoundPrefix + submittedId + NotFoundSuffix
  }

  /** The message names the submitted id: two ids give the same message
      only when they are the same text; and the message is never empty. */
  lemma NotFoundMessageNamesId(a: string, b: string)
    ensures NotFoundMessage(a) == NotFoundMessage(b) ==> a == b
    ensures NotFoundMessage(a) != ""
  {
    if NotFoundMessage(a) == NotFoundMessage(b) {
      var m := NotFoundMessage(a);
      assert |a| == |b|;
      assert a == m[|NotFoundPrefix|..|NotFoundPrefix| + |a|];
    }
  }

  /** The lookup page's state: the last lookup result and the error message. */
  class SessionLookupPage {
    var details: Option<SessionDetails>
    var errorMessage: string

    constructor ()
      ensures details == None && errorMessage == ""
      ensures !ShowsDetails() && !ShowsError()
    {
      details := None;
      errorMessage := "";
    }

    /** The error paragraph needs a message and no details. */
    function ShowsError(): (r: bool)
      reads this
      ensures r ==> details.None? && errorMessage != ""
    {
      errorMessage != "" && details.None?
    }

    /** The details table is rendered whenever details are held, and then
      the error paragraph is not, whatever message is left over. */
    function ShowsDetails(): (r: bool)
      reads this
      ensures r <==> details.Some?
      ensures r ==> !ShowsError()
    {
      details.Some?
    }

    /** The lookup for `submittedId` answered with `result`, None when the
        session does not exist. The details are replaced by the result; a
        missing session sets the not-found message, a found one clears it.
        Afterwards exactly one of the two blocks is rendered. */
    method LookupAnswered(submittedId: string, result: Option<SessionDetails>)
      modifies this
      ensures details == result
      ensures result.None? ==> errorMessage == NotFoundMessage(submittedId)
      ensures result.Some? ==> errorMessage == ""
      ensures ShowsDetails() <==> result.Some?
      ensures ShowsError() <==> result.None?
      ensures !(ShowsDetails() && ShowsError())
    {
      details := result;
      if result.None? {
        errorMessage := NotFoundMessage(submittedId);
        return;
      }
      errorMessage := "";
    }
  }
}
