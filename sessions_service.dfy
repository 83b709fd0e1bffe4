/**
 * The session service: every call goes to the injected repository and comes back
 * unchanged, so each method carries exactly the repository method's contract.
 */
module Sessions {
  import opened Models
  import Ids
  import opened SessionsRepository

  class SessionsService {
    const repository: SessionsArrayRepository

    ghost predicate Valid()
      reads this, repository
    {
      repository.Valid()
    }

    constructor (repository: SessionsArrayRepository)
      requires repository.Valid()
      ensures this.repository == repository && Valid()
    {
      this.repository := repository;
    }

    method Create(userIds: seq<int>) returns (session: Session)
      requires Valid()
      modifies repository
      ensures Valid() && fresh(session)
      ensures session.id == |old(repository.sessions)| + 1
      ensures session.userIds == userIds && session.messages == []
      ensures repository.sessions == old(repository.sessions) + [session]
      ensures forall k :: 0 <= k < |old(repository.sessions)| ==>
                repository.sessions[k].messages == old(repository.sessions[k].messages)
    {
      session := repository.Create(userIds);
    }

    method AddMessage(sessionId: int, message: Message) returns (outcome: Outcome)
      requires Valid()
      modifies repository.sessions
      ensures Valid() && repository.sessions == old(repository.sessions)
      ensures outcome == if 1 <= sessionId <= |repository.sessions| then Pass else Fail(SessionNotFound)
      ensures outcome.Pass? ==>
                repository.sessions[sessionId - 1].messages == old(repository.sessions[sessionId - 1].messages) + [message]
      ensures forall k :: 0 <= k < |repository.sessions| && k != sessionId - 1 ==>
                repository.sessions[k].messages == old(repository.sessions[k].messages)
    {
      outcome := repository.AddMessage(sessionId, message);
    }

    method FindAll() returns (all: seq<Session>)
      ensures all == repository.sessions
    {
      all := repository.FindAll();
    }

    method FindMessages(sessionId: int) returns (r: Result<seq<Message>>)
      requires Valid()
      ensures r.Ok? <==> 1 <= sessionId <= |repository.sessions|
      ensures r.Ok? ==> r.value == repository.sessions[sessionId - 1].messages
      ensures r.Err? ==> r.error == SessionNotFound
    {
      r := repository.FindMessages(sessionId);
    }
  }
}
