/** The users collection and the three handlers that touch a user's log:
    POST /api/users, POST /api/users/:_id/exercises and
    GET /api/users/:_id/logs. The document store is an in-memory map from
    identifiers to users; the standalone exercise records are a sequence. */
module UserStore {
  import opened Wrappers
  import opened LogQuery

  /** A user identifier, assigned by the store. */
  type Id = nat

  /** A user document: its name and its embedded log, oldest entry first. */
  datatype User = User(username: string, log: seq<Entry>)

  /** A standalone exercise document, carrying the same fields as the log
      entry written beside it. */
  datatype ExerciseRecord = ExerciseRecord(username: string, description: string, duration: int, date: Timestamp)

  /** The errors a handler reports: 404 "User not found" and 500
      "Internal server error". */
  datatype Error = NotFound | ServerError

  /** The reply of POST /api/users. */
  datatype UserReply = UserReply(username: string, id: Id)

  /** The reply of POST /api/users/:_id/exercises. */
  datatype ExerciseReply = ExerciseReply(username: string, description: string, duration: int, date: string, id: Id)

  /** The reply of GET /api/users/:_id/logs. */
  datatype LogsReply = LogsReply(username: string, count: nat, id: Id, log: seq<LogItem>)

  /** The date of a new entry: `new Date(date)` when the body's date is
      truthy, the current time `now` otherwise. */
  function EntryDate(date: Option<string>, now: int, rt: Runtime): Timestamp {
    if Truthy(date) then rt.parseDate(date.value) else Some(now)
  }

  /** The date a log entry holds. The user schema types a log entry's date
      as `String`, so the Date is stored as its text form, which carries whole
      seconds, and `new Date(log.date)` reads back the time value floored to
      the second. */
  function WholeSeconds(ms: int): (r: int)
    ensures r % 1000 == 0
    ensures r <= ms < r + 1000
  {
    ms - ms % 1000
  }

  /** What every stored log entry's date is: a valid Date in whole seconds. */
  predicate StoredDate(date: Timestamp) {
    date.Some? && date.value % 1000 == 0
  }

  /** Users are never removed or renamed, and a log only ever grows at its
      end. */
  ghost predicate Grows(before: map<Id, User>, after: map<Id, User>) {
    forall id :: id in before ==>
      id in after && after[id].username == before[id].username && before[id].log <= after[id].log
  }

  class Store {
    /** The users collection. */
    var users: map<Id, User>
    /** The exercises collection. */
    var exercises: seq<ExerciseRecord>
    /** The next identifier the store hands out. */
    var nextId: Id

    /** Every stored identifier was handed out before, every stored user
        passed the schema's `required` check on `username`, and every stored
        log entry has a valid date in whole seconds. */
    ghost predicate Valid()
      reads this
    {
      forall id :: id in users ==>
        id < nextId && users[id].username != "" &&
        forall i :: 0 <= i < |users[id].log| ==> StoredDate(users[id].log[i].date)
    }

    /** An empty store. */
    constructor ()
      ensures Valid() && users == map[] && exercises == []
    {
      users := map[];
      exercises := [];
      nextId := 0;
    }

    /** POST /api/users: stores a new user with an empty log under a fresh
        identifier. A missing or empty `username` fails the schema's
        `required` check, so `save` rejects, nothing is stored and the
        handler, which catches nothing, never answers: that is `None`. */
    method CreateUser(username: Option<string>) returns (r: Option<UserReply>)
      requires Valid()
      modifies this
      ensures Valid() && Grows(old(users), users)
      ensures exercises == old(exercises)
      ensures !Truthy(username) ==> r == None && users == old(users)
      ensures Truthy(username) ==>
                r.Some? && r.value.username == username.value &&
                r.value.id !in old(users) &&
                users == old(users)[r.value.id := User(username.value, [])]
    {
      if !Truthy(username) {
        return None;
      }
      var id := nextId;
      nextId := nextId + 1;
      users := users[id := User(username.value, [])];
      r := Some(UserReply(username.value, id));
    }

    /** POST /api/users/:_id/exercises. An unknown user is NotFound. A
        missing description or duration fails the exercise schema's
        `required` checks, and a body date that parses to an Invalid Date
        fails its `Date` cast; either way the exercise's save rejects before
        the user is saved: ServerError, and nothing is stored. Otherwise
        exactly one entry is appended to that user's log and one exercise
        record is stored, both with the body's fields and the date defaulted
        to `now`; the log entry keeps that date in whole seconds. */
    method AddExercise(id: Id, description: Option<string>, duration: Option<int>,
                       date: Option<string>, now: int, rt: Runtime)
      returns (r: Result<ExerciseReply, Error>)
      requires Valid()
      modifies this
      ensures Valid() && Grows(old(users), users)
      ensures id !in old(users) ==>
                r == Failure(NotFound) && users == old(users) && exercises == old(exercises)
      ensures id in old(users) &&
              !(Truthy(description) && duration.Some? && EntryDate(date, now, rt).Some?) ==>
                r == Failure(ServerError) && users == old(users) && exercises == old(exercises)
      ensures id in old(users) && Truthy(description) && duration.Some? && EntryDate(date, now, rt).Some? ==>
                var u := old(users)[id];
                var d := EntryDate(date, now, rt);
                var e := Entry(description.value, duration.value, Some(WholeSeconds(d.value)));
                && users == old(users)[id := User(u.username, u.log + [e])]
                && exercises == old(exercises) + [ExerciseRecord(u.username, e.description, e.duration, d)]
                && r == Success(ExerciseReply(u.username, e.description, e.duration, RenderDate(d, rt), id))
    {
      var d := EntryDate(date, now, rt);
      if id !in users {
        return Failure(NotFound);
      }
      var u := users[id];
      if !(Truthy(description) && duration.Some? && d.Some?) {
        return Failure(ServerError);
      }
      var e := Entry(description.value, duration.value, Some(WholeSeconds(d.value)));
      exercises := exercises + [ExerciseRecord(u.username, e.description, e.duration, d)];
      users := users[id := User(u.username, u.log + [e])];
      r := Success(ExerciseReply(u.username, e.description, e.duration, RenderDate(d, rt), id));
    }

    /** GET /api/users/:_id/logs: NotFound exactly for an unknown user;
        otherwise the user's name and the query's page of the stored log. */
    method GetLogs(id: Id, q: Query, rt: Runtime) returns (r: Result<LogsReply, Error>)
      ensures r == Failure(NotFound) <==> id !in users
      ensures id in users ==>
                r.Success? && r.value.username == users[id].username && r.value.id == id &&
                r.value.count == |r.value.log| <= |users[id].log| &&
                r.value.log == QueryLog(users[id].log, q, rt).log
    {
      if id !in users {
        return Failure(NotFound);
      }
      var user := users[id];
      var page := QueryLog(user.log, q, rt);
      r := Success(LogsReply(user.username, page.count, id, page.log));
    }
  }

  /** Two exercises added to a new user show up, in order, in the user's
      unfiltered log. */
  method TwoExercisesScenario(now: int, rt: Runtime)
  {
    var store := new Store();
    var created := store.CreateUser(Some("alice"));
    var id := created.value.id;
    var first := store.AddExercise(id, Some("run"), Some(5), None, now, rt);
    var second := store.AddExercise(id, Some("swim"), Some(30), Some(""), now, rt);
    assert first.Success? && second.Success?;
    var reply := store.GetLogs(id, Query(None, None, None), rt);
    QueryLogUnfiltered(store.users[id].log, Query(None, None, None), rt);
    assert reply.value.count == 2;
    assert reply.value.log[0] == LogItem("run", 5, rt.toDateString(WholeSeconds(now)));
    assert reply.value.log[1] == LogItem("swim", 30, rt.toDateString(WholeSeconds(now)));
    var missing := store.GetLogs(id + 1, Query(None, None, None), rt);
    assert missing == Failure(NotFound);
  }
}
