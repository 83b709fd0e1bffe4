/** Entities of the chat backend and the one failure the session store reports. */
module Models {

  /** A chat message: `{id, text, userId}`. `userId` is a bare reference, never checked. */
  datatype Message = Message(id: int, text: string, userId: int)

  /** A user: `{id, name}`. */
  datatype User = User(id: int, name: string)

  /** The only error of the core: a session id that no stored session carries. */
  datatype Error = SessionNotFound

  /** What a lookup-or-throw operation returns: the value, or the error it throws. */
  datatype Result<T> = Ok(value: T) | Err(error: Error)

  /** What a `void` operation that may throw returns. */
  datatype Outcome = Pass | Fail(error: Error)

  datatype Option<T> = None | Some(value: T)

  /**
   * A session. Its id and participants are fixed at creation; its transcript is an
   * array that the repository grows in place, so every holder of the object sees it grow.
   */
  class Session {
    const id: int
    const userIds: seq<int>
    var messages: seq<Message>

    constructor (id: int, userIds: seq<int>)
      ensures this.id == id && this.userIds == userIds && messages == []
    {
      this.id := id;
      this.userIds := userIds;
      messages := [];
    }
  }

  function MessageIds(ms: seq<Message>): (ids: seq<int>)
    ensures |ids| == |ms| && forall k :: 0 <= k < |ms| ==> ids[k] == ms[k].id
  {
    seq(|ms|, k requires 0 <= k < |ms| => ms[k].id)
  }

  function UserIds(us: seq<User>): (ids: seq<int>)
    ensures |ids| == |us| && forall k :: 0 <= k < |us| ==> ids[k] == us[k].id
  {
    seq(|us|, k requires 0 <= k < |us| => us[k].id)
  }

  /** The ids of a list of sessions; ids are constant, so this reads no heap. */
  function SessionIds(ss: seq<Session>): (ids: seq<int>)
    ensures |ids| == |ss| && forall k :: 0 <= k < |ss| ==> ids[k] == ss[k].id
  {
    seq(|ss|, k requires 0 <= k < |ss| => ss[k].id)
  }
}
