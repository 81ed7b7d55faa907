/**
 * The customer logic of the simulator.  Each arriving user takes the next
 * id, looks for a server, and (since the loss assumption is off) joins the
 * FIFO waiting queue when there is none.  Once it proceeds it is classified
 * as blocked or accepted; a served user is listed as active during its hold
 * and, on release, reactivates at most one waiting user, the oldest.  The
 * module-level counters of the source are the fields of `UserState`.
 */
module Users {
  import opened Wrappers

  /** user_count, prev_id, the waiting queue (as user ids) and active_users (id to start time). */
  datatype UserState = UserState(userCount: nat, prevId: int, waiting: seq<nat>, activeUsers: map<nat, real>)

  function InitialUsers(): (s: UserState)
    ensures s.userCount == 0 && s.prevId == -1 && s.waiting == [] && s.activeUsers == map[]
  {
    UserState(0, -1, [], map[])
  }

  /** A new user's id and the state after it arrives; `waits` when it had to queue. */
  datatype Arrival = Arrival(id: nat, state: UserState, waits: bool)

  /** The arrival step: take the next id and queue when no server was found. */
  function Arrive(s: UserState, server: Option<nat>): (r: Arrival)
    ensures r.id == s.userCount && r.state.userCount == s.userCount + 1
    ensures r.waits <==> server.None?
    ensures r.waits ==> r.state.waiting == s.waiting + [r.id]
    ensures !r.waits ==> r.state.waiting == s.waiting
    ensures r.state.prevId == s.prevId && r.state.activeUsers == s.activeUsers
  {
    var id := s.userCount;
    var s' := s.(userCount := s.userCount + 1);
    if server.None? then Arrival(id, s'.(waiting := s.waiting + [id]), true)
    else Arrival(id, s', false)
  }

  /** The ids a run of arrivals receives. */
  function ArrivalIds(s: UserState, servers: seq<Option<nat>>): (r: seq<nat>)
    ensures |r| == |servers|
    decreases |servers|
  {
    if |servers| == 0 then []
    else
      var a := Arrive(s, servers[0]);
      [a.id] + ArrivalIds(a.state, servers[1..])
  }

  /** Ids are issued consecutively from user_count, so they strictly increase. */
  lemma {:induction false} IdsConsecutive(s: UserState, servers: seq<Option<nat>>)
    ensures forall i :: 0 <= i < |servers| ==> ArrivalIds(s, servers)[i] == s.userCount + i
    decreases |servers|
  {
    if |servers| > 0 {
      IdsConsecutive(Arrive(s, servers[0]).state, servers[1..]);
    }
  }

  /** The messages the source only prints. */
  datatype Warning = NotFcfs | ReactivatedWithoutServer | LongWait

  /** What a proceeding user records. */
  datatype UserRecord = UserRecord(
    waitTime: real, numServers: nat, blocked: int,
    accepted: Option<real>, lost: Option<real>, warnings: seq<Warning>)

  const LongWaitSeconds: real := 600.0

  /**
   * The user proceeds (directly, or after being reactivated from the queue
   * when `waited`): record the wait, the cluster size and whether it is
   * blocked; the service time goes to the lost stream exactly when there is
   * no server.  The warnings are printed, never raised, and prev_id always
   * becomes the user's id.
   */
  function Proceed(s: UserState, id: nat, arrivalTime: real, now: real, waited: bool,
                   server: Option<nat>, stime: real, clusterSize: nat): (r: (UserState, UserRecord))
    ensures r.0 == s.(prevId := id)
    ensures r.1.waitTime == now - arrivalTime && r.1.numServers == clusterSize
    ensures r.1.blocked == 1 <==> server.None?
    ensures r.1.blocked == 0 <==> server.Some?
    ensures server.None? ==> r.1.lost == Some(stime) && r.1.accepted == None
    ensures server.Some? ==> r.1.accepted == Some(stime) && r.1.lost == None
    ensures NotFcfs in r.1.warnings <==> id <= s.prevId
    ensures ReactivatedWithoutServer in r.1.warnings <==> waited && server.None?
    ensures LongWait in r.1.warnings <==> now - arrivalTime >= LongWaitSeconds
  {
    var w1 := if waited && server.None? then [ReactivatedWithoutServer] else [];
    var w2 := if id <= s.prevId then [NotFcfs] else [];
    var wait := now - arrivalTime;
    var w3 := if wait >= LongWaitSeconds then [LongWait] else [];
    var rec := if server.None? then UserRecord(wait, clusterSize, 1, None, Some(stime), w1 + w2 + w3)
               else UserRecord(wait, clusterSize, 0, Some(stime), None, w1 + w2 + w3);
    (s.(prevId := id), rec)
  }

  /**
   * Obtaining the server must take no simulated time; the user is then
   * listed as active from that moment.
   */
  function Serve(s: UserState, id: nat, requestedAt: real, grantedAt: real): (r: Result<UserState>)
    ensures r.Err? <==> grantedAt != requestedAt
    ensures r.Err? ==> r.error == RuntimeError
    ensures r.Ok? ==> r.value == s.(activeUsers := s.activeUsers[id := grantedAt])
  {
    if grantedAt != requestedAt then Err(RuntimeError)
    else Ok(s.(activeUsers := s.activeUsers[id := grantedAt]))
  }

  /**
   * The end of the hold: the user leaves active_users and, on release, the
   * oldest waiting user (if any) is taken off the queue and reactivated.
   */
  function Release(s: UserState, id: nat): (r: (UserState, Option<nat>))
    requires id in s.activeUsers
    ensures id !in r.0.activeUsers
    ensures forall u :: u != id ==> (u in r.0.activeUsers <==> u in s.activeUsers)
    ensures |s.waiting| == 0 ==> r.1 == None && r.0.waiting == []
    ensures |s.waiting| > 0 ==> r.1 == Some(s.waiting[0]) && r.0.waiting == s.waiting[1..]
  {
    var s' := s.(activeUsers := s.activeUsers - {id});
    if |s.waiting| == 0 then (s', None)
    else (s'.(waiting := s.waiting[1..]), Some(s.waiting[0]))
  }

  /**
   * A user is listed as active exactly during its hold: serving and then
   * releasing it leaves active_users as it was.
   */
  lemma ServeThenRelease(s: UserState, id: nat, t: real)
    requires id !in s.activeUsers
    ensures Serve(s, id, t, t).Ok?
    ensures id in Serve(s, id, t, t).value.activeUsers
    ensures Release(Serve(s, id, t, t).value, id).0.activeUsers == s.activeUsers
  {
    var m := Serve(s, id, t, t).value.activeUsers;
    assert m - {id} == s.activeUsers;
  }

  /**
   * Users who find no server are reactivated in the order they queued:
   * queuing a user and then releasing as many times as there are users in
   * front of it reactivates that user last.
   */
  function Drain(s: UserState, holders: seq<nat>): (r: (UserState, seq<nat>))
    requires forall i :: 0 <= i < |holders| ==> holders[i] in s.activeUsers
    requires forall i, j :: 0 <= i < j < |holders| ==> holders[i] != holders[j]
    decreases |holders|
  {
    if |holders| == 0 then (s, [])
    else
      var (s', woken) := Release(s, holders[0]);
      var rest := Drain(s', holders[1..]);
      (rest.0, (if woken.Some? then [woken.value] else []) + rest.1)
  }

  lemma {:induction false} DrainIsFifo(s: UserState, holders: seq<nat>)
    requires forall i :: 0 <= i < |holders| ==> holders[i] in s.activeUsers
    requires forall i, j :: 0 <= i < j < |holders| ==> holders[i] != holders[j]
    requires |holders| <= |s.waiting|
    ensures Drain(s, holders).1 == s.waiting[..|holders|]
    ensures Drain(s, holders).0.waiting == s.waiting[|holders|..]
    decreases |holders|
  {
    if |holders| > 0 {
      var s' := Release(s, holders[0]).0;
      assert forall i :: 0 <= i < |holders| - 1 ==> holders[1..][i] == holders[i + 1];
      DrainIsFifo(s', holders[1..]);
      assert s.waiting[..|holders|] == [s.waiting[0]] + s'.waiting[..|holders| - 1];
      assert s'.waiting[|holders| - 1..] == s.waiting[|holders|..];
    }
  }
}
