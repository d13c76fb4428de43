/** The voter's "My Voting Sessions" page: the state its View button loads
    and the status cell of each row. Its role guard is in module Roles. */
module MySessions {
  import opened Options
  import opened Text
  import opened SessionView

  /** How the voter-record call ended: it threw, or it returned the record
      whose element [2] lists the ids of the voter's sessions. */
  datatype VoterLookup = Threw | Returned(votingSessionIds: seq<nat>)

  /** `isLoaded` and `votingSessionDetailsArray`. The array holds one entry
      per session id, the session lookup started for that id; the model keeps
      the id each entry was requested for. */
  class MySessionsPage {
    var isLoaded: bool
    var sessions: Option<seq<nat>>

    /** An array is only ever held once the page has loaded. */
    predicate Valid()
      reads this
    {
      sessions.Some? ==> isLoaded
    }

    constructor ()
      ensures !isLoaded && sessions == None
      ensures Valid() && !ShowsTable()
    {
      isLoaded := false;
      sessions := None;
    }

    /** The table is rendered only when loaded and the array is not `null`;
        while the page is valid the array alone decides it. */
    function ShowsTable(): (r: bool)
      reads this
      ensures r ==> sessions.Some?
      ensures Valid() ==> (r <==> sessions.Some?)
    {
      isLoaded && sessions.Some?
    }

    /** The View button's handler. On success the array becomes one entry per
        session id (for an empty list the `null` set first is overwritten at
        once by the empty array) and the page is marked loaded; when the call
        throws the array becomes `null` and `isLoaded` keeps its value. So the
        table is shown iff the last submit succeeded. */
    method Submit(outcome: VoterLookup)
      requires Valid()
      modifies this
      ensures Valid()
      ensures outcome.Returned? ==> isLoaded && sessions == Some(outcome.votingSessionIds)
      ensures outcome.Threw? ==> isLoaded == old(isLoaded) && sessions == None
      ensures ShowsTable() <==> outcome.Returned?
    {
      match outcome
      case Threw =>
        sessions := None;
      case Returned(ids) =>
        if |ids| == 0 {
          sessions := None;
        }
        sessions := Some(ids);
        isLoaded := true;
    }
  }

  /** A row of the table for the session at position `index` of the array:
      id, name, and the weight and vote status that the row reads from
      `voterVSDetails[index]` of that session. */
  datatype SessionRow = SessionRow(sessionId: nat, name: string, weight: nat, status: VoteStatus)

  /** The row, or None when `voterVSDetails` has no entry at `index` and the
      render throws. Its status cell reads "No Vote" exactly for the
      sentinel 0. */
  function RowOf(d: SessionDetails, index: nat): (r: Option<SessionRow>)
    ensures r.Some? <==> index < |d.voterVSDetails|
    ensures r.Some? ==>
      && r.value.sessionId == d.details.id && r.value.name == d.details.name
      && r.value.weight == d.voterVSDetails[index].weight
      && (r.value.status.Label() == "No Vote" <==> d.voterVSDetails[index].votedCandidateId == 0)
      && (r.value.status.Voted? ==> r.value.status.candidateId == d.voterVSDetails[index].votedCandidateId)
  {
    if index < |d.voterVSDetails| then
      var vote := d.voterVSDetails[index];
      VoteLabelIdentifiesVote(vote.votedCandidateId, vote.votedCandidateId);
      Some(SessionRow(d.details.id, d.details.name, vote.weight, VoteStatusOf(vote.votedCandidateId)))
    else None
  }
}
