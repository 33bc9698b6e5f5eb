/**
 * Election bookkeeping: OElectionReply, OElection and OElectionContext. An
 * election keeps, in arrival order, the replies tagged with its own term; the
 * context keeps one election per database.
 */
module Elections {
  import opened Wrappers
  import opened Bytes
  import opened Identities
  import LogIds
  import LastOpIdResponses

  /**
   * OElectionReply: two final fields set by the constructor. The Java class
   * defines no `equals`, so two replies with the same contents are still two
   * different objects; a class (reference identity) models that.
   */
  class ElectionReply {
    const sender: NodeId
    const id: Option<LogIds.LogId>

    constructor (sender: NodeId, id: Option<LogIds.LogId>)
      ensures this.sender == sender && this.id == id
    {
      this.sender := sender;
      this.id := id;
    }
  }

  /** OElection: a term, a quorum and the replies received for that term. */
  class Election {
    // Neither is ever assigned after construction.
    const term: int32
    const quorum: int32
    var replies: seq<ElectionReply>

    /** `new OElection(quorum, term)`: note the parameter order. */
    constructor (quorum: int32, term: int32)
      ensures this.quorum == quorum && this.term == term
      ensures replies == []
    {
      this.quorum := quorum;
      this.term := term;
      replies := [];
    }

    /**
     * `addReply(sender, term, id)`: a reply for this election's term is appended,
     * as a new object, after all earlier ones; a reply for any other term is
     * dropped.
     */
    method AddReply(sender: NodeId, term: int32, id: Option<LogIds.LogId>)
      modifies this
      ensures term == this.term ==>
        && |replies| == |old(replies)| + 1
        && replies[..|old(replies)|] == old(replies)
        && fresh(replies[|old(replies)|])
        && replies[|old(replies)|].sender == sender
        && replies[|old(replies)|].id == id
      ensures term != this.term ==> replies == old(replies)
    {
      if this.term == term {
        var reply := new ElectionReply(sender, id);
        replies := replies + [reply];
      }
    }

    /**
     * `checkElection()`: when more than `quorum` replies are in, it walks over them,
     * but the loop body is empty, so no winner is ever chosen.
     */
    method CheckElection() returns (winner: Option<ElectionReply>)
      ensures winner == None
    {
      if |replies| > quorum {
        for i := 0 to |replies| {
        }
      }
      winner := None;
    }
  }

  /** OElectionContext: the current election of each database, by name. */
  class ElectionContext {
    var elections: map<string, Election>

    /** Different databases never share an election object. */
    ghost predicate Valid()
      reads this
    {
      forall a, b :: a in elections && b in elections && a != b ==> elections[a] != elections[b]
    }

    constructor ()
      ensures Valid() && elections == map[]
    {
      elections := map[];
    }

    /**
     * `startElection(name, quorum)`: puts a fresh election under `name`, replacing
     * any earlier one, and returns the constant term 1. It calls
     * `new OElection(term, quorum)` against the constructor's `(quorum, term)`
     * order, so the stored election has term `quorum` and quorum 1.
     */
    method StartElection(name: string, quorum: int32) returns (term: int32)
      requires Valid()
      modifies this
      ensures Valid()
      ensures term == 1
      ensures name in elections && fresh(elections[name])
      ensures elections[name].term == quorum && elections[name].quorum == 1 && elections[name].replies == []
      ensures elections == old(elections)[name := elections[name]]
    {
      term := 1;
      var election := new Election(term, quorum);
      elections := elections[name := election];
    }

    /**
     * `received(sender, database, term, id)`: hands the reply to the election of
     * `database`; with no election under that name, `elections.get` yields null and
     * the call throws NullPointerException.
     */
    method Received(sender: NodeId, database: string, term: int32, id: Option<LogIds.LogId>)
      returns (failure: Option<Exception>)
      requires Valid()
      modifies if database in elections then {elections[database]} else {}
      ensures failure.Some? <==> database !in elections
      ensures failure.Some? ==> failure.value == NullDereference
      ensures database in elections ==> var e := elections[database];
        if term == e.term then
          && |e.replies| == |old(e.replies)| + 1
          && e.replies[..|old(e.replies)|] == old(e.replies)
          && fresh(e.replies[|old(e.replies)|])
          && e.replies[|old(e.replies)|].sender == sender
          && e.replies[|old(e.replies)|].id == id
        else e.replies == old(e.replies)
      ensures forall n :: n in elections && n != database ==> elections[n].replies == old(elections[n].replies)
    {
      if database !in elections {
        failure := Some(NullDereference);
        return;
      }
      var election := elections[database];
      election.AddReply(sender, term, id);
      failure := None;
    }
  }

  /**
   * A database's election started with quorum `q`, followed by one answer tagged
   * with the term `startElection` returned: the answer is counted only when
   * `q == 1`, because the stored election's term is `q` while the returned term
   * is always 1.
   */
  method ReplyToReturnedTerm(q: int32, sender: NodeId) returns (counted: nat)
    ensures counted == if q == 1 then 1 else 0
  {
    var context := new ElectionContext();
    var term := context.StartElection("db1", q);
    var answer := LastOpIdResponses.LastOpIdResponse("db1", term, None);
    var notice := LastOpIdResponses.Apply(answer, sender);
    var failure := context.Received(notice.sender, notice.database, notice.term, notice.id);
    counted := |context.elections["db1"].replies|;
  }

  /**
   * `startElection("db1", 1)` returns term 1; an answer tagged with term 0 is
   * dropped, one tagged with term 1 is counted, and a second answer from the same
   * sender is kept as a separate reply.
   */
  method StaleVoteIgnored(sender: NodeId, last: Option<LogIds.LogId>) returns (replies: seq<ElectionReply>)
    ensures |replies| == 2
    ensures replies[0] != replies[1]
    ensures replies[0].sender == replies[1].sender == sender && replies[0].id == replies[1].id == last
  {
    var context := new ElectionContext();
    var term := context.StartElection("db1", 1);
    var failure := context.Received(sender, "db1", 0, last);
    assert |context.elections["db1"].replies| == 0;
    failure := context.Received(sender, "db1", term, last);
    failure := context.Received(sender, "db1", term, last);
    replies := context.elections["db1"].replies;
  }

  /** An answer for a database with no election fails and records nothing. */
  method AnswerWithoutElection(sender: NodeId) returns (failure: Option<Exception>)
    ensures failure == Some(NullDereference)
  {
    var context := new ElectionContext();
    var term := context.StartElection("db1", 1);
    failure := context.Received(sender, "db2", term, None);
  }
}
