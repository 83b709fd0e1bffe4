/** The array-backed session repository: an ordered, append-only list of sessions. */
module SessionsRepository {
  import opened Models
  import Ids

  class SessionsArrayRepository {
    var sessions: seq<Session>

    /** The session at position k has id k + 1 (hence the session objects are distinct). */
    ghost predicate Valid()
      reads this
    {
      Ids.Dense(SessionIds(sessions))
    }

    constructor ()
      ensures Valid() && sessions == []
    {
      sessions := [];
    }

    /** Appends a new session with id "count + 1", the given participants and no messages. */
    method Create(userIds: seq<int>) returns (session: Session)
      requires Valid()
      modifies this
      ensures Valid() && fresh(session)
      ensures session.id == |old(sessions)| + 1
      ensures session.userIds == userIds && session.messages == []
      ensures sessions == old(sessions) + [session]
      ensures forall k :: 0 <= k < |old(sessions)| ==> sessions[k].messages == old(sessions[k].messages)
    {
      session := new Session(|sessions| + 1, userIds);
      sessions := sessions + [session];
    }

    /**
     * The linear scan for the first session whose id equals `sessionId`. Under the
     * dense-id invariant it finds exactly position sessionId - 1, when that exists.
     */
    method FindIndex(sessionId: int) returns (found: Option<nat>)
      ensures found.None? ==> forall k :: 0 <= k < |sessions| ==> sessions[k].id != sessionId
      ensures found.Some? ==> found.value < |sessions| && sessions[found.value].id == sessionId
      ensures found.Some? ==> forall k :: 0 <= k < found.value ==> sessions[k].id != sessionId
      ensures Valid() ==> found == if 1 <= sessionId <= |sessions| then Some(sessionId - 1) else None
    {
      var i := 0;
      while i < |sessions|
        invariant 0 <= i <= |sessions|
        invariant forall k :: 0 <= k < i ==> sessions[k].id != sessionId
        invariant Valid() && 1 <= sessionId <= |sessions| ==> i < sessionId
      {
        if sessions[i].id == sessionId {
          return Some(i);
        }
        i := i + 1;
      }
      found := None;
    }

    /**
     * Appends `message` to the transcript of the session with id `sessionId`; fails with
     * SessionNotFound, changing nothing, when there is none. No other session changes.
     */
    method AddMessage(sessionId: int, message: Message) returns (outcome: Outcome)
      requires Valid()
      modifies sessions
      ensures Valid() && sessions == old(sessions)
      ensures outcome == if 1 <= sessionId <= |sessions| then Pass else Fail(SessionNotFound)
      ensures outcome.Pass? ==> sessions[sessionId - 1].messages == old(sessions[sessionId - 1].messages) + [message]
      ensures forall k :: 0 <= k < |sessions| && k != sessionId - 1 ==> sessions[k].messages == old(sessions[k].messages)
    {
      var found := FindIndex(sessionId);
      if found.None? {
        return Fail(SessionNotFound);
      }
      var session := sessions[found.value];
      session.messages := session.messages + [message];
      outcome := Pass;
    }

    /** Every session, in creation order. */
    method FindAll() returns (all: seq<Session>)
      ensures all == sessions
    {
      all := sessions;
    }

    /** The transcript of the session with id `sessionId`, or SessionNotFound. */
    method FindMessages(sessionId: int) returns (r: Result<seq<Message>>)
      requires Valid()
      ensures r.Ok? <==> 1 <= sessionId <= |sessions|
      ensures r.Ok? ==> r.value == sessions[sessionId - 1].messages
      ensures r.Err? ==> r.error == SessionNotFound
    {
      var found := FindIndex(sessionId);
      if found.None? {
        return Err(SessionNotFound);
      }
      r := Ok(sessions[found.value].messages);
    }
  }
}
