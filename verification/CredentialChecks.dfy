/** What a check decides from the cached user (go/auth/credential_authority.go:319-402, 436-475). */
module CredentialChecks {
  import opened Wrappers
  import opened Credential

  datatype Arg = Arg(username: Option<string>, kid: Option<KID>, sibkeys: Option<seq<KID>>, subkeys: Option<seq<KID>>, loadDeleted: bool)

  datatype Verdict = Accepted | UserDeleted | BadUsername | BadKey | KeysNotEqual

  predicate CompareKeys(keys: seq<KID>, expected: set<KID>) {
    |keys| == |expected| && forall k :: k in keys ==> k in expected
  }

  /** The first failing check decides. */
  function Decide(u: User, a: Arg): Verdict {
    if !a.loadDeleted && u.isDeleted then UserDeleted
    else if a.username.Some? && a.username.value != u.username then BadUsername
    else if a.kid.Some? && a.kid.value !in u.sibkeys && a.kid.value !in u.subkeys then BadKey
    else if a.sibkeys.Some? && !CompareKeys(a.sibkeys.value, u.sibkeys) then KeysNotEqual
    else if a.subkeys.Some? && !CompareKeys(a.subkeys.value, u.subkeys) then KeysNotEqual
    else Accepted
  }

  /** Which check refuses: deletion before the name, the name before the key, the key before the key lists. */
  lemma RefusalIs(u: User, a: Arg)
    ensures Decide(u, a).UserDeleted? <==> u.isDeleted && !a.loadDeleted
    ensures Decide(u, a).BadUsername? <==> !(u.isDeleted && !a.loadDeleted) && a.username.Some? && a.username != Some(u.username)
    ensures Decide(u, a).BadKey? <==>
      !(u.isDeleted && !a.loadDeleted) && (a.username.None? || a.username == Some(u.username)) &&
      a.kid.Some? && a.kid.value !in u.sibkeys + u.subkeys
    ensures Decide(u, a).KeysNotEqual? ==> a.sibkeys.Some? || a.subkeys.Some?
  {
  }

  /******* Comparing key lists *******/

  ghost predicate NoDuplicates(ks: seq<KID>) {
    forall i, j :: 0 <= i < j < |ks| ==> ks[i] != ks[j]
  }

  lemma NoDuplicatesNext(ks: seq<KID>, k: KID)
    ensures NoDuplicates(ks + [k]) <==> NoDuplicates(ks) && k !in ks
  {
    var r := ks + [k];
    if NoDuplicates(r) {
      assert forall i :: 0 <= i < |ks| ==> r[i] == ks[i] && r[i] != r[|ks|];
    }
  }

  lemma {:induction false} KeysSize(ks: seq<KID>)
    ensures |Keys(ks)| <= |ks|
    ensures |Keys(ks)| == |ks| <==> NoDuplicates(ks)
  {
    if ks != [] {
      hide NoDuplicates;
      var n := |ks| - 1;
      var front, k := ks[..n], ks[n];
      assert ks == front + [k];
      KeysSize(front);
      NoDuplicatesNext(front, k);
      assert Keys(ks) == Keys(front) + {k};
      assert k in Keys(front) <==> k in front;
    }
  }

  lemma SubsetBySize(a: set<KID>, b: set<KID>)
    requires a <= b && |a| == |b|
    ensures a == b
  {
    assert |b| == |a| + |b - a|;
  }

  /** Comparing lengths and membership is set equality exactly for lists without duplicates. */
  lemma CompareKeysIff(keys: seq<KID>, expected: set<KID>)
    ensures CompareKeys(keys, expected) ==> (Keys(keys) == expected <==> NoDuplicates(keys))
    ensures Keys(keys) == expected ==> (CompareKeys(keys, expected) <==> NoDuplicates(keys))
  {
    hide NoDuplicates;
    KeysSize(keys);
    if CompareKeys(keys, expected) && NoDuplicates(keys) { SubsetBySize(Keys(keys), expected); }
  }

  lemma DuplicatesPass()
    ensures CompareKeys([1, 1], {1, 2}) && Keys([1, 1]) != {1, 2}
  {
    assert 2 !in Keys([1, 1]);
  }

  /******* Which keys a cached user has *******/

  ghost predicate Listed(h: seq<Past>, k: KID, sib: bool) {
    exists i :: 0 <= i < |h| && h[i].Done? && k in (if sib then h[i].load.reply.sibkeys else h[i].load.reply.subkeys)
  }

  /** Every key that any finished load listed. */
  lemma {:induction false} KeysAccumulate(h: seq<Past>, k: KID)
    ensures k in After(h).sibkeys <==> Listed(h, k, true)
    ensures k in After(h).subkeys <==> Listed(h, k, false)
  {
    if h != [] {
      var n := |h| - 1;
      KeysAccumulate(h[..n], k);
      assert forall i :: 0 <= i < n ==> h[..n][i] == h[i];
    }
  }

  /** The sets equal the latest reply exactly when that reply still lists every key ever listed. */
  lemma LatestReplyIff(h: seq<Past>, l: Load)
    ensures After(h + [Done(l)]).sibkeys == Keys(l.reply.sibkeys) <==> forall k :: Listed(h, k, true) ==> k in l.reply.sibkeys
    ensures After(h + [Done(l)]).subkeys == Keys(l.reply.subkeys) <==> forall k :: Listed(h, k, false) ==> k in l.reply.subkeys
    ensures After(h + [Done(l)]).username == l.reply.username && After(h + [Done(l)]).isDeleted == l.reply.isDeleted
  {
    hide After, Listed;
    AfterNext(h, Done(l));
    forall k ensures k in After(h).sibkeys <==> Listed(h, k, true) { KeysAccumulate(h, k); }
    forall k ensures k in After(h).subkeys <==> Listed(h, k, false) { KeysAccumulate(h, k); }
  }

  /** A key the latest reply dropped is accepted for as long as this user object lives. */
  lemma DroppedKeyStillAccepted(h: seq<Past>, k: KID)
    requires Listed(h, k, true) && !After(h).isDeleted
    ensures Decide(After(h), Arg(None, Some(k), None, None, false)) == Accepted
  {
    KeysAccumulate(h, k);
  }

  /** The reply of the last successful load. */
  function LastReply(h: seq<Past>): Reply
    requires Latest(h).Some?
  {
    if h[|h| - 1].Done? then h[|h| - 1].load.reply else LastReply(h[..|h| - 1])
  }

  lemma {:induction false} AfterLast(h: seq<Past>)
    requires Latest(h).Some?
    ensures After(h).username == LastReply(h).username && After(h).isDeleted == LastReply(h).isDeleted
  {
    if !h[|h| - 1].Done? { AfterLast(h[..|h| - 1]); }
  }

  /** What the argument asks for, in terms of the server's replies: name and deletion as last replied, the key
      as replied ever. */
  ghost predicate Meets(h: seq<Past>, a: Arg)
    requires Latest(h).Some?
  {
    && (a.loadDeleted || !LastReply(h).isDeleted)
    && (a.username.Some? ==> a.username.value == LastReply(h).username)
    && (a.kid.Some? ==> Listed(h, a.kid.value, true) || Listed(h, a.kid.value, false))
    && (a.sibkeys.Some? ==> CompareKeys(a.sibkeys.value, After(h).sibkeys))
    && (a.subkeys.Some? ==> CompareKeys(a.subkeys.value, After(h).subkeys))
  }

  lemma AcceptedIff(h: seq<Past>, a: Arg)
    requires Latest(h).Some?
    ensures Decide(After(h), a).Accepted? <==> Meets(h, a)
  {
    hide After, Latest, LastReply, Listed, CompareKeys;
    AfterLast(h);
    if a.kid.Some? { KeysAccumulate(h, a.kid.value); }
  }

  /** Across every interleaving, a check accepts exactly what the loads finished before its read support, the
      latest of which was fresh when the check looked. */
  lemma CheckMeans(states: seq<State>, n: nat, m: nat, t: Thread)
    requires IsRun(states, n) && m < |states| && t < |states[m].pcs| && states[m].pcs[t].Finished?
    ensures var h, pc := states[m].past, states[m].pcs[t];
      && pc.loads <= |h| && FreshAt(h[..pc.loads], pc.at) && pc.seen == After(h[..pc.loads])
      && forall a :: Decide(pc.seen, a).Accepted? <==> Meets(h[..pc.loads], a)
  {
    hide IsRun, After, Latest, Meets, Decide;
    ChecksReadFinishedLoads(states, n, m, t);
    var h, pc := states[m].past, states[m].pcs[t];
    forall a ensures Decide(pc.seen, a).Accepted? <==> Meets(h[..pc.loads], a) { AcceptedIff(h[..pc.loads], a); }
  }

  /** The number of loads a check records is the number that had finished when it read, and never changes. */
  lemma ReadRecordsLoads(s: State, t: Thread, t': Thread, reply: Option<Reply>)
    requires t < |s.pcs| && t' < |s.pcs|
    ensures s.pcs[t].Reading? ==> Act(s, t, reply).pcs[t] == Releasing(s.user, s.pcs[t].at, |s.past|)
    ensures s.pcs[t'].Finished? ==> Act(s, t, reply).pcs[t'] == s.pcs[t']
    ensures s.pcs[t'].Releasing? ==>
      var pc := s.pcs[t']; var pc' := Act(s, t, reply).pcs[t']; pc' == pc || pc' == Finished(pc.seen, pc.at, pc.loads)
  {
  }
}

/** The user object, changed in place under its lock (go/auth/credential_authority.go:319-402, 436-475). */
module CredentialUserObject {
  import opened Wrappers
  import opened C = Credential
  import K = CredentialChecks

  /** One call of repopulate without interference; the clock is read at each look. */
  function Repopulated(u: User, first: Time, second: Time, reply: Option<Reply>): User {
    if Populated(u, first) || Populated(u, second) then u
    else if reply.None? then u.(isOK := false)
    else Loaded(u, Load(second, reply.value))
  }

  /** The user is left alone if it was loaded no more than three hours before either look; otherwise the server is
      asked, and a failure makes the user not OK while a reply adds its keys and replaces the rest. */
  lemma RepopulatesIff(u: User, first: Time, second: Time, reply: Option<Reply>)
    ensures var r := Repopulated(u, first, second, reply);
      if u.isOK && (first <= u.ctime + 10800000 || second <= u.ctime + 10800000) then r == u
      else if reply.None? then r == u.(isOK := false)
      else
        && r.username == reply.value.username && r.isOK && r.isDeleted == reply.value.isDeleted && r.ctime == second
        && (forall k :: k in r.sibkeys <==> k in u.sibkeys || k in reply.value.sibkeys)
        && (forall k :: k in r.subkeys <==> k in u.subkeys || k in reply.value.subkeys)
  {
  }

  class CachedUser {
    var username: string
    var sibkeys: set<KID>
    var subkeys: set<KID>
    var isOK: bool
    var isDeleted: bool
    var ctime: Time

    function Abs(): User
      reads this
    {
      User(username, sibkeys, subkeys, isOK, isDeleted, ctime)
    }

    constructor ()
      ensures Abs() == NewUser
    {
      username, sibkeys, subkeys, isOK, isDeleted, ctime := "", {}, {}, false, false, 0;
    }

    method Repopulate(first: Time, second: Time, reply: Option<Reply>) returns (ok: bool)
      modifies this
      ensures Abs() == Repopulated(old(Abs()), first, second, reply)
      ensures ok ==> isOK
      ensures !ok <==> !Populated(old(Abs()), first) && !Populated(old(Abs()), second) && reply.None?
    {
      if isOK && first - ctime <= UserTimeout { return true; }
      if isOK && second - ctime <= UserTimeout { return true; }
      if reply.None? {
        isOK := false;
        return false;
      }
      username := reply.value.username;
      AddSibkeys(reply.value.sibkeys);
      AddSubkeys(reply.value.subkeys);
      isOK := true;
      ctime := second;
      isDeleted := reply.value.isDeleted;
      ok := true;
    }

    method AddSibkeys(ks: seq<KID>)
      modifies this`sibkeys
      ensures sibkeys == old(sibkeys) + Keys(ks)
    {
      for i := 0 to |ks|
        invariant sibkeys == old(sibkeys) + Keys(ks[..i])
      {
        assert ks[..i + 1] == ks[..i] + [ks[i]];
        sibkeys := sibkeys + {ks[i]};
      }
      assert ks[..|ks|] == ks;
    }

    method AddSubkeys(ks: seq<KID>)
      modifies this`subkeys
      ensures subkeys == old(subkeys) + Keys(ks)
    {
      for i := 0 to |ks|
        invariant subkeys == old(subkeys) + Keys(ks[..i])
      {
        assert ks[..i + 1] == ks[..i] + [ks[i]];
        subkeys := subkeys + {ks[i]};
      }
      assert ks[..|ks|] == ks;
    }

    method CompareKeys(keys: seq<KID>, expected: set<KID>) returns (ok: bool)
      ensures ok == K.CompareKeys(keys, expected)
    {
      if |keys| != |expected| { return false; }
      for i := 0 to |keys|
        invariant forall k :: k in keys[..i] ==> k in expected
      {
        if keys[i] !in expected { return false; }
      }
      assert keys[..|keys|] == keys;
      ok := true;
    }

    method CheckAfterPopulated(a: K.Arg) returns (v: K.Verdict)
      ensures v == K.Decide(Abs(), a)
    {
      if !a.loadDeleted && isDeleted { return K.UserDeleted; }
      if a.username.Some? && a.username.value != username { return K.BadUsername; }
      if a.kid.Some? && a.kid.value !in sibkeys && a.kid.value !in subkeys { return K.BadKey; }
      if a.sibkeys.Some? {
        var same := CompareKeys(a.sibkeys.value, sibkeys);
        if !same { return K.KeysNotEqual; }
      }
      if a.subkeys.Some? {
        var same := CompareKeys(a.subkeys.value, subkeys);
        if !same { return K.KeysNotEqual; }
      }
      v := K.Accepted;
    }
  }
}
