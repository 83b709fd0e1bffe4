/**
 * The behaviour the repository's own test files expect, each run on fresh stores
 * and proved from the stores' contracts alone.
 */
module Scenarios {
  import opened Models
  import opened SessionsRepository
  import opened Sessions
  import opened Messages
  import opened Users

  method NewSessionsService() returns (service: SessionsService)
    ensures fresh(service) && fresh(service.repository)
    ensures service.Valid() && service.repository.sessions == []
  {
    var repository := new SessionsArrayRepository();
    service := new SessionsService(repository);
  }

  /** A first session gets id 1, keeps its participants and starts with no messages. */
  method CreateFirstSession() returns (id: int, userIds: seq<int>, messages: seq<Message>)
    ensures id == 1 && userIds == [1, 2] && messages == []
  {
    var service := NewSessionsService();
    var session := service.Create([1, 2]);
    id, userIds, messages := session.id, session.userIds, session.messages;
  }

  /** A message added through the service shows up in the session object returned by create. */
  method AddMessageSeenThroughSession() returns (messages: seq<Message>)
    ensures |messages| == 1 && messages[0].text == "Hello, world!"
  {
    var service := NewSessionsService();
    var session := service.Create([1, 2]);
    var outcome := service.AddMessage(session.id, Message(1, "Hello, world!", 1));
    messages := session.messages;
  }

  /** Two sessions are listed in creation order, each with its own participants. */
  method FindAllInCreationOrder() returns (sessions: seq<Session>)
    ensures |sessions| == 2
    ensures sessions[0].userIds == [1, 2] && sessions[1].userIds == [2, 3]
    ensures sessions[0].messages == [] && sessions[1].messages == []
  {
    var service := NewSessionsService();
    var first := service.Create([1, 2]);
    var second := service.Create([2, 3]);
    sessions := service.FindAll();
  }

  /** Two messages added to one session come back in the order they were added. */
  method FindMessagesInAddOrder() returns (r: Result<seq<Message>>)
    ensures r == Ok([Message(1, "Hello, world!", 1), Message(2, "Hi, there!", 2)])
  {
    var service := NewSessionsService();
    var session := service.Create([1, 2]);
    var o1 := service.AddMessage(session.id, Message(1, "Hello, world!", 1));
    var o2 := service.AddMessage(session.id, Message(2, "Hi, there!", 2));
    assert session.messages == [Message(1, "Hello, world!", 1), Message(2, "Hi, there!", 2)];
    r := service.FindMessages(session.id);
  }

  /** Looking up or appending to a session id nobody holds fails, and the present session is untouched. */
  method UnknownSessionFails() returns (found: Result<seq<Message>>, added: Outcome, messages: seq<Message>)
    ensures found == Err(SessionNotFound) && added == Fail(SessionNotFound) && messages == []
  {
    var service := NewSessionsService();
    var session := service.Create([1, 2]);
    added := service.AddMessage(999, Message(0, "lost", 1));
    found := service.FindMessages(999);
    messages := session.messages;
  }

  /** The first message created gets id 1 and keeps its text and author. */
  method CreateFirstMessage() returns (message: Message)
    ensures message == Message(1, "Hello, world!", 1)
  {
    var service := new MessagesService();
    message := service.Create("Hello, world!", 1);
  }

  /** Two messages are listed in insertion order with ids 1 and 2. */
  method FindAllMessagesInOrder() returns (messages: seq<Message>)
    ensures messages == [Message(1, "Hello, world!", 1), Message(2, "Hi, there!", 2)]
  {
    var service := new MessagesService();
    var first := service.Create("Hello, world!", 1);
    var second := service.Create("Hi, there!", 2);
    messages := service.FindAll();
  }

  /** The first user created gets id 1 and keeps its name. */
  method CreateFirstUser() returns (user: User)
    ensures user == User(1, "John Doe")
  {
    var service := new UsersService();
    user := service.Create("John Doe");
  }

  /** Two users are listed in insertion order with ids 1 and 2. */
  method FindAllUsersInOrder() returns (users: seq<User>)
    ensures users == [User(1, "John Doe"), User(2, "Jane Doe")]
  {
    var service := new UsersService();
    var first := service.Create("John Doe");
    var second := service.Create("Jane Doe");
    users := service.FindAll();
  }
}
