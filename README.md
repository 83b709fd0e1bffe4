# In-memory stores of the chat backend

This project models the in-memory stores behind the chat backend's HTTP layer, and proves properties about them:

- the session repository (`SessionsArrayRepository`), which owns an ordered list of sessions;
- the session service (`SessionsService`), which forwards every call to that repository;
- the flat message store (`MessagesService`);
- the user store (`UsersService`).

Every store hands out ids as "current length + 1" and only appends. So the entity at position `k` always has id `k + 1`. The module `Ids` names this invariant (`Ids.Dense`), and each store's `Valid()` states it for that store's list. Every mutating method preserves it.

A session is a class. Its `id` and `userIds` are fixed when it is created. Its `messages` transcript is grown in place. As a result, the object returned by `Create` sees later `AddMessage` calls, as the session tests expect.

The repository and the service throw `Session not found` when a session id is missing. In the model that failure is a value instead: `Fail(SessionNotFound)` from `AddMessage`, and `Err(SessionNotFound)` from `FindMessages`. The lookup is the source's linear `find` scan (`FindIndex`). Its contract gives the first-match semantics. It also proves that, under the dense-id invariant, the match is exactly the session at position `sessionId - 1`, and that the match exists exactly when `1 <= sessionId <= count`.

The module `Scenarios` replays the repository's test files on fresh stores. It proves the expected results from the stores' contracts alone.

## Model

| member | source | states |
|---|---|---|
| Ids.DenseAppend | src/messages/messages.service.ts:10-15 | an empty store satisfies the id-equals-position invariant, and appending id "length + 1" preserves it |
| Ids.DenseUnique | src/sessions/sessions.repository.array.ts:13-18 | under the invariant, two positions holding the same id are the same position, so ids are never reused |
| Ids.DenseMember | src/sessions/sessions.repository.array.ts:24 | under the invariant, an id is present if and only if it is in 1..n, and it then sits at position id - 1 |
| Models.Session.constructor | src/sessions/session.model.ts:3-7 | a session holds the given id and participants and an empty transcript |
| SessionsRepository.SessionsArrayRepository.constructor | src/sessions/sessions.repository.array.ts:9 | the repository starts with no sessions |
| SessionsRepository.SessionsArrayRepository.Create | src/sessions/sessions.repository.array.ts:11-21 | returns a fresh session whose id is the old count + 1, whose userIds are exactly the argument, and whose messages are empty; appends exactly that session at the end; earlier sessions keep their transcripts; the invariant is kept |
| SessionsRepository.SessionsArrayRepository.FindIndex | src/sessions/sessions.repository.array.ts:24 | returns the first position whose id matches, or none when no session matches; under the invariant the result is position sessionId - 1 exactly when 1 <= sessionId <= count |
| SessionsRepository.SessionsArrayRepository.AddMessage | src/sessions/sessions.repository.array.ts:23-31 | on an existing id, appends the message to the end of that session's transcript; on a missing id, fails with SessionNotFound; in both cases the list of sessions and every other transcript are unchanged |
| SessionsRepository.SessionsArrayRepository.FindAll | src/sessions/sessions.repository.array.ts:33-35 | returns the stored sessions in creation order and changes nothing |
| SessionsRepository.SessionsArrayRepository.FindMessages | src/sessions/sessions.repository.array.ts:37-45 | succeeds if and only if the id is in 1..count, returning that session's transcript in append order; otherwise fails with SessionNotFound; changes nothing |
| Sessions.SessionsService.constructor | src/sessions/sessions.service.ts:8 | the service holds the injected repository |
| Sessions.SessionsService.Create | src/sessions/sessions.service.ts:10-12 | the repository's Create contract: the same result and the same change to the repository |
| Sessions.SessionsService.AddMessage | src/sessions/sessions.service.ts:14-16 | the repository's AddMessage contract: the same effect and the same failure on a missing session |
| Sessions.SessionsService.FindAll | src/sessions/sessions.service.ts:18-20 | returns the repository's session list unchanged |
| Sessions.SessionsService.FindMessages | src/sessions/sessions.service.ts:22-24 | returns the repository's result: the transcript, or SessionNotFound when the repository fails |
| Messages.MessagesService.constructor | src/messages/messages.service.ts:6 | the message store starts empty |
| Messages.MessagesService.Create | src/messages/messages.service.ts:8-18 | returns a message whose id is the old count + 1 and whose text and userId are the arguments; appends exactly it at the end; keeps the invariant |
| Messages.MessagesService.FindAll | src/messages/messages.service.ts:20-22 | returns all messages in insertion order; their ids are 1..n; changes nothing |
| Users.UsersService.constructor | src/users/users.service.ts:6 | the user store starts empty |
| Users.UsersService.Create | src/users/users.service.ts:8-17 | returns a user whose id is the old count + 1 and whose name is the argument, the empty string included; appends exactly it at the end; keeps the invariant |
| Users.UsersService.FindAll | src/users/users.service.ts:19-21 | returns all users in insertion order; their ids are 1..n; changes nothing |
| Scenarios.NewSessionsService | src/sessions/sessions.service.spec.ts:9-21 | a service wired to a fresh array repository starts valid and empty |
| Scenarios.CreateFirstSession | src/sessions/sessions.service.spec.ts:27-33 | on a fresh service, create([1,2]) yields id 1, userIds [1,2] and no messages |
| Scenarios.AddMessageSeenThroughSession | src/sessions/sessions.service.spec.ts:35-43 | after addMessage, the session object returned by create holds exactly one message, with text "Hello, world!" |
| Scenarios.FindAllInCreationOrder | src/sessions/sessions.service.spec.ts:45-54 | two creates followed by findAll give two sessions with userIds [1,2] and [2,3], in that order, both with no messages |
| Scenarios.FindMessagesInAddOrder | src/sessions/sessions.service.spec.ts:56-65 | two addMessage calls on one session, then findMessages, return both messages in call order |
| Scenarios.UnknownSessionFails | src/sessions/sessions.repository.array.ts:37-42 | with only session 1 present, addMessage(999, ...) and findMessages(999) both fail with SessionNotFound, and session 1 is untouched |
| Scenarios.CreateFirstMessage | src/messages/messages.service.spec.ts:19-25 | the first message created is {id 1, "Hello, world!", userId 1} |
| Scenarios.FindAllMessagesInOrder | src/messages/messages.service.spec.ts:27-36 | two creates, then findAll, give both messages in insertion order with ids 1 and 2 |
| Scenarios.CreateFirstUser | src/users/users.service.spec.ts:19-24 | the first user created is {id 1, "John Doe"} |
| Scenarios.FindAllUsersInOrder | src/users/users.service.spec.ts:26-35 | two creates, then findAll, give both users in insertion order with ids 1 and 2 |

## Left out

- The repository interface `ISessionsRepository` (src/sessions/sessions.repository.ts:4-9) is not a separate type in the model. `SessionsService` holds the array repository directly. Each service method carries the same contract as the repository method it forwards to. Swapping in another backend is therefore not modelled.
- Sessions.SessionsService.Create and Sessions.SessionsService.AddMessage: the service's contracts speak of the array repository's state, not of an arbitrary implementation of the interface.
- `FindAll` and `FindMessages` (repository and service), and `FindAll` of the message and user stores, return the list as a value at the time of the call. The source returns the live array, so later appends would show through a list obtained earlier. The session objects inside a returned list are live references, as in the source.
- Thrown errors are modelled as returned `Outcome` and `Result` values. The message text `Session not found` is represented by the single error `SessionNotFound`.
- Controllers (src/sessions/sessions.controller.ts, src/messages/messages.controller.ts, src/users/users.controller.ts) are HTTP routing and are left out. This includes:
  - the placeholder message id `0` that the sessions controller passes to `addMessage`;
  - the route `sessionId`, which reaches the repository without parsing and may be a string compared with `===`.
- Module wiring and dependency injection (src/sessions/sessions.module.ts, src/app.module.ts, the `Symbol` token) are left out. They are framework composition with no behaviour.
- JavaScript `number` semantics (floating point, NaN) are not modelled. Ids and user ids are unbounded integers.
- Concurrency is not modelled. Every operation in the source is synchronous.
- message.model.ts and user.model.ts are not part of this model. The entity shapes are taken from the object literals at src/messages/messages.service.ts:9-13 and src/users/users.service.ts:9-12.
