/** The authority's table of users and its cleaning schedule (go/auth/credential_authority.go:249-310). */
module CredentialAuthority {

  type UID = nat
  type Time = int

  /** Eight hours, in milliseconds. */
  const CacheTimeout: Time := 8 * 60 * 60 * 1000

  /** A user object, by its identity, and when it was last asked for. */
  datatype Wrapper = Wrapper(user: nat, atime: Time)

  datatype CleanItem = CleanItem(uid: UID, ctime: Time)

  /** The leading items of the schedule that are due: cleaning stops at the first that is too recent. */
  function Due(sched: seq<CleanItem>, cutoff: Time): (n: nat)
    ensures n <= |sched|
    ensures forall i :: 0 <= i < n ==> sched[i].ctime <= cutoff
    ensures n < |sched| ==> sched[n].ctime > cutoff
  {
    if sched == [] || sched[0].ctime > cutoff then 0 else 1 + Due(sched[1..], cutoff)
  }

  /** Some item says that the user has not been asked for since. */
  ghost predicate Covered(users: map<UID, Wrapper>, items: seq<CleanItem>, uid: UID) {
    uid in users && exists e :: e in items && e.uid == uid && users[uid].atime <= e.ctime
  }

  /** users without those that items cover. */
  ghost predicate Cleaned(users: map<UID, Wrapper>, items: seq<CleanItem>, users': map<UID, Wrapper>) {
    && (forall uid :: uid in users' <==> uid in users && !Covered(users, items, uid))
    && (forall uid :: uid in users' ==> users'[uid] == users[uid])
  }

  /** Cleaning never evicts a user that was asked for within the cache timeout. */
  lemma EvictedWasIdle(users: map<UID, Wrapper>, sched: seq<CleanItem>, now: Time, users': map<UID, Wrapper>, uid: UID)
    requires Cleaned(users, sched[..Due(sched, now - CacheTimeout)], users') && uid in users && uid !in users'
    ensures now - users[uid].atime >= CacheTimeout
  {
    hide Due;
    var items := sched[..Due(sched, now - CacheTimeout)];
    var e :| e in items && e.uid == uid && users[uid].atime <= e.ctime;
  }

  class Authority {
    var users: map<UID, Wrapper>
    var cleanSchedule: seq<CleanItem>
    var made: nat

    /** Every user object in the table was made here, and no two entries share one. */
    ghost predicate Valid()
      reads this
    {
      && (forall uid :: uid in users ==> users[uid].user < made)
      && (forall u, v :: u in users && v in users && u != v ==> users[u].user != users[v].user)
    }

    constructor ()
      ensures Valid() && users == map[] && cleanSchedule == []
    {
      users, cleanSchedule, made := map[], [], 0;
    }

    method MakeUser(uid: UID, now: Time) returns (u: nat)
      requires Valid()
      modifies this
      ensures Valid() && cleanSchedule == old(cleanSchedule)
      ensures users == old(users)[uid := Wrapper(u, now)]
      ensures u == if uid in old(users) then old(users)[uid].user else old(made)
    {
      if uid !in users {
        users := users[uid := Wrapper(made, now)];
        made := made + 1;
      } else {
        users := users[uid := Wrapper(users[uid].user, now)];
      }
      u := users[uid].user;
    }

    method Invalidate(uid: UID)
      requires Valid()
      modifies this`users
      ensures Valid() && users == old(users) - {uid}
    {
      if uid in users { users := users - {uid}; }
    }

    method Schedule(item: CleanItem)
      requires Valid()
      modifies this`cleanSchedule
      ensures Valid() && cleanSchedule == old(cleanSchedule) + [item]
    {
      cleanSchedule := cleanSchedule + [item];
    }

    method Clean(now: Time)
      requires Valid()
      modifies this`users, this`cleanSchedule
      ensures Valid()
      ensures var n := Due(old(cleanSchedule), now - CacheTimeout);
        Cleaned(old(users), old(cleanSchedule)[..n], users) && cleanSchedule == old(cleanSchedule)[n..]
    {
      hide Due, Cleaned;
      var cutoff := now - CacheTimeout;
      ghost var n := Due(cleanSchedule, cutoff);
      CleanNone(users);
      assert cleanSchedule[..0] == [];
      for i := 0 to |cleanSchedule|
        invariant i <= n && cleanSchedule == old(cleanSchedule) && Valid()
        invariant Cleaned(old(users), old(cleanSchedule)[..i], users)
      {
        var e := cleanSchedule[i];
        if e.ctime > cutoff {
          cleanSchedule := cleanSchedule[i..];
          return;
        }
        CleanNext(old(users), cleanSchedule, i, users);
        if e.uid in users && users[e.uid].atime <= e.ctime { users := users - {e.uid}; }
      }
      cleanSchedule := [];
    }
  }

  lemma CleanNone(users: map<UID, Wrapper>)
    ensures Cleaned(users, [], users)
  {
  }

  lemma CleanNext(users: map<UID, Wrapper>, sched: seq<CleanItem>, i: nat, users': map<UID, Wrapper>)
    requires i < |sched| && Cleaned(users, sched[..i], users')
    ensures var e := sched[i];
      Cleaned(users, sched[..i + 1], if e.uid in users' && users'[e.uid].atime <= e.ctime then users' - {e.uid} else users')
  {
    assert sched[..i + 1] == sched[..i] + [sched[i]];
  }

  /** No scheduled item is later than the last time the user was asked for. */
  ghost predicate Uncovered(users: map<UID, Wrapper>, sched: seq<CleanItem>, uid: UID) {
    uid in users && forall e :: e in sched && e.uid == uid ==> e.ctime < users[uid].atime
  }

  /** A user asked for after every item scheduled for it is never cleaned, however long it stays idle,
      unless a further load schedules it again. */
  lemma AskedAgainIsNeverCleaned(users: map<UID, Wrapper>, sched: seq<CleanItem>, now: Time, users': map<UID, Wrapper>, uid: UID)
    requires Cleaned(users, sched[..Due(sched, now - CacheTimeout)], users') && Uncovered(users, sched, uid)
    ensures uid in users' && users'[uid] == users[uid] && Uncovered(users', sched[Due(sched, now - CacheTimeout)..], uid)
  {
    hide Due;
    assert !Covered(users, sched[..Due(sched, now - CacheTimeout)], uid);
  }
}
