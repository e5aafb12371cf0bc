/**
 What LoginServer and GameServer have in common: any number of session tasks around one registry.

 A session task is split where another thread can run.  It first polls its kick token (`Poll`); if
 the token is not cancelled it is `Armed`, and only then does it handle the event it has
 chosen.  A kick can land in between.  When its loop breaks it is `Exiting`, and in a later
 step it leaves the registry and drops its inner channel.
 */
module SessionServer {
  import opened Prelude
  import opened R = RegistrySpec

  datatype Phase = Ready | Armed | Exiting

  /**
   `core` is the state the handlers own and `inner` the channel that brings task results back.
   `received` counts the messages taken out of `inner`, `late` the events handled after the kick
   token was cancelled; both are history.
   */
  datatype Session<C, M> = Session(phase: Phase, core: C, inner: seq<M>, received: nat, late: nat)

  /**
   `auths` and `cancelled` are history: every (session, user) the registry was asked to authenticate,
   in order, and the sessions whose kick token was cancelled from outside the registry's own logic.
   */
  datatype Server<C, M> = Server(
    registry: Registry,
    sessions: map<nat, Session<C, M>>,
    lastId: nat,
    auths: seq<(nat, string)>,
    cancelled: set<nat>)

  function Init<C, M>(): Server<C, M> {
    Server(R.EMPTY, map[], 0, [], {})
  }

  // ---------------------------------------------------------------- steps

  datatype Lifecycle<C> =
    | Connect(core: C, cancelled: bool, greeted: bool) // a fresh session; `greeted`: its first send succeeded
    | Cancel(id: nat)   // AdminApi, a writer error or server shutdown cancels the kick token
    | Poll(id: nat)     // the select! polls the kick token, which it does first
    | Repoll(id: nat)   // nothing else was ready; it was woken and polls again
    | Quit(id: nat)     // end of stream, a receive error or the keep-alive timer
    | Leave(id: nat)    // it removes itself from the registry

  ghost predicate Can<C, M>(s: Server<C, M>, e: Lifecycle<C>) {
    match e
    case Connect(_, _, _) => true
    case Cancel(id) => true
    case Poll(id) => id in s.sessions && s.sessions[id].phase == Ready
    case Repoll(id) => id in s.sessions && s.sessions[id].phase == Armed
    case Quit(id) => id in s.sessions && s.sessions[id].phase == Armed
    case Leave(id) => id in s.sessions && s.sessions[id].phase == Exiting
  }

  function WithPhase<C, M>(s: Server<C, M>, id: nat, phase: Phase): Server<C, M>
    requires id in s.sessions
  {
    s.(sessions := s.sessions[id := s.sessions[id].(phase := phase)])
  }

  function Do<C, M>(s: Server<C, M>, e: Lifecycle<C>): Server<C, M>
    requires Can(s, e)
  {
    match e
    case Connect(core, cancelled, greeted) =>
      var id := s.lastId + 1;
      s.(registry := R.Register(s.registry, id, cancelled),
         sessions := s.sessions[id := Session(if greeted then Ready else Exiting, core, [], 0, 0)],
         lastId := id,
         cancelled := if cancelled then s.cancelled + {id} else s.cancelled)
    case Cancel(id) =>
      s.(registry := R.Kick(s.registry, id), cancelled := if id in s.sessions then s.cancelled + {id} else s.cancelled)
    case Poll(id) => WithPhase(s, id, if id in s.registry.kicked then Exiting else Armed)
    case Repoll(id) => WithPhase(s, id, Ready)
    case Quit(id) => WithPhase(s, id, Exiting)
    case Leave(id) => s.(registry := R.Remove(s.registry, id), sessions := s.sessions - {id})
  }

  /** A task sends its result: it joins the session's channel, or is dropped if the session is gone. */
  function Deliver<C, M>(s: Server<C, M>, id: nat, message: M): Server<C, M> {
    if id in s.sessions
    then s.(sessions := s.sessions[id := s.sessions[id].(inner := s.sessions[id].inner + [message])])
    else s
  }

  /** An armed session handles an event; `pops` if it came from `inner`, `auth` if it authenticated. */
  function Handle<C, M>(s: Server<C, M>, id: nat, core: C, flow: Flow, auth: Option<string>, pops: bool): Server<C, M>
    requires id in s.sessions && s.sessions[id].phase == Armed
    requires pops ==> s.sessions[id].inner != []
  {
    var before := s.sessions[id];
    var session := Session(
      if flow == Continue then Ready else Exiting,
      core,
      if pops then before.inner[1..] else before.inner,
      if pops then before.received + 1 else before.received,
      if id in s.registry.kicked then before.late + 1 else before.late);
    s.(sessions := s.sessions[id := session],
       registry := if auth.Some? then R.Authenticate(s.registry, id, auth.value) else s.registry,
       auths := if auth.Some? then s.auths + [(id, auth.value)] else s.auths)
  }

  // ---------------------------------------------------------------- history

  /** The user a session last authenticated as. */
  function LastUser(auths: seq<(nat, string)>, id: nat): Option<string> {
    if auths == [] then None
    else if Last(auths).0 == id then Some(Last(auths).1)
    else LastUser(Front(auths), id)
  }

  /** The session that last authenticated as a user. */
  function LastAuthenticator(auths: seq<(nat, string)>, user: string): Option<nat> {
    if auths == [] then None
    else if Last(auths).1 == user then Some(Last(auths).0)
    else LastAuthenticator(Front(auths), user)
  }

  lemma OnAppend(auths: seq<(nat, string)>, id: nat, user: string)
    ensures forall x :: LastUser(auths + [(id, user)], x) == if x == id then Some(user) else LastUser(auths, x)
    ensures forall u :: LastAuthenticator(auths + [(id, user)], u) ==
                        if u == user then Some(id) else LastAuthenticator(auths, u)
  {
    assert Front(auths + [(id, user)]) == auths;
  }

  lemma {:induction false} AuthenticatorHasUser(auths: seq<(nat, string)>, user: string)
    ensures LastAuthenticator(auths, user).Some? ==>
              LastUser(auths, LastAuthenticator(auths, user).value).Some? &&
              (exists i :: 0 <= i < |auths| && auths[i] == (LastAuthenticator(auths, user).value, user))
  {
    if auths == [] {
    } else if Last(auths).1 == user {
      assert auths[|auths| - 1] == (Last(auths).0, user);
    } else {
      AuthenticatorHasUser(Front(auths), user);
    }
  }

  lemma {:induction false} UserIsRecorded(auths: seq<(nat, string)>, id: nat)
    ensures LastUser(auths, id).Some? ==>
              exists i :: 0 <= i < |auths| && auths[i] == (id, LastUser(auths, id).value)
    ensures LastUser(auths, id).None? ==> forall i | 0 <= i < |auths| :: auths[i].0 != id
  {
    if auths == [] {
    } else if Last(auths).0 == id {
      assert auths[|auths| - 1] == (id, Last(auths).1);
    } else {
      UserIsRecorded(Front(auths), id);
      if LastUser(auths, id).Some? {
        var i :| 0 <= i < |Front(auths)| && Front(auths)[i] == (id, LastUser(auths, id).value);
        assert auths[i] == (id, LastUser(auths, id).value);
      } else {
        forall i | 0 <= i < |auths| ensures auths[i].0 != id {
          assert i < |auths| - 1 ==> auths[i] == Front(auths)[i];
        }
      }
    }
  }

  /** Another session authenticated as a user whose last authenticator `id` was. */
  predicate Superseded(auths: seq<(nat, string)>, id: nat) {
    auths != [] &&
    (Superseded(Front(auths), id) ||
     (Last(auths).0 != id && LastAuthenticator(Front(auths), Last(auths).1) == Some(id)))
  }

  lemma {:induction false} SupersededWasThere(auths: seq<(nat, string)>, id: nat)
    ensures Superseded(auths, id) ==> LastUser(auths, id).Some?
  {
    if auths == [] {
    } else {
      SupersededWasThere(Front(auths), id);
      AuthenticatorHasUser(Front(auths), Last(auths).1);
    }
  }

  // ---------------------------------------------------------------- invariants

  /** The live sessions whose kick token is cancelled: from outside, or by a duplicate login; no others. */
  ghost predicate KicksExact<C, M>(s: Server<C, M>) {
    && (forall id | id in s.cancelled :: id <= s.lastId)
    && (forall id: nat {:trigger KickExact(s.registry.kicked, s.sessions.Keys, s.cancelled, s.auths, id)} ::
          KickExact(s.registry.kicked, s.sessions.Keys, s.cancelled, s.auths, id))
  }

  predicate KickExact(kicked: set<nat>, live: set<nat>, cancelled: set<nat>, auths: seq<(nat, string)>, id: nat) {
    id in kicked <==> id in live && (id in cancelled || Superseded(auths, id))
  }

  ghost predicate Tracked<C, M>(s: Server<C, M>) {
    && s.sessions.Keys == s.registry.sessions.Keys
    && s.registry.kicked <= s.sessions.Keys
    && (forall id | id in s.sessions :: id <= s.lastId)
    && (forall i | 0 <= i < |s.auths| :: s.auths[i].0 <= s.lastId)
    && (forall id | id in s.sessions :: s.registry.sessions[id] == LastUser(s.auths, id))
  }

  /** At most one event is handled after the kick, and the next poll sees the kick. */
  ghost predicate KicksHeeded<C, M>(s: Server<C, M>) {
    forall id | id in s.sessions ::
      && s.sessions[id].late <= 1
      && (s.sessions[id].phase == Armed ==> s.sessions[id].late == 0)
      && (s.sessions[id].late == 1 ==> id in s.registry.kicked)
  }

  /**
   The user map in full: a user maps to the session that last authenticated as that user, unless
   that session has left while still carrying the user.
   */
  predicate MapsRight(authenticated: map<string, nat>, auths: seq<(nat, string)>, live: set<nat>,
                      user: string, id: nat)
  {
    Get(authenticated, user) == Some(id) <==>
    LastAuthenticator(auths, user) == Some(id) && (id in live || LastUser(auths, id) != Some(user))
  }

  ghost predicate IndexExact<C, M>(s: Server<C, M>) {
    forall user, id: nat {:trigger MapsRight(s.registry.authenticated, s.auths, s.sessions.Keys, user, id)} ::
      MapsRight(s.registry.authenticated, s.auths, s.sessions.Keys, user, id)
  }

  ghost predicate Inv<C, M>(s: Server<C, M>) {
    Tracked(s) && KicksHeeded(s) && KicksExact(s) && Exclusive(s.registry) && IndexExact(s)
  }

  lemma InitInv<C, M>()
    ensures Inv(Init<C, M>())
  {
  }

  lemma FreshIdUnknown<C, M>(s: Server<C, M>, user: string)
    requires Tracked(s)
    ensures LastUser(s.auths, s.lastId + 1).None?
    ensures LastAuthenticator(s.auths, user) != Some(s.lastId + 1)
  {
    UserIsRecorded(s.auths, s.lastId + 1);
    AuthenticatorHasUser(s.auths, user);
  }

  lemma LifecycleInv<C, M>(s: Server<C, M>, e: Lifecycle<C>)
    requires Inv(s) && Can(s, e)
    ensures Inv(Do(s, e))
  {
    match e
    case Connect(core, cancelled, greeted) => ConnectInv(s, core, cancelled, greeted);
    case Cancel(id) => CancelInv(s, id);
    case Leave(id) => LeaveInv(s, id);
    case _ => PhaseInv(s, e);
  }

  lemma ConnectInv<C, M>(s: Server<C, M>, core: C, cancelled: bool, greeted: bool)
    requires Inv(s)
    ensures Inv(Do(s, Connect(core, cancelled, greeted)))
  {
    ExclusivityKept(s.registry, s.lastId + 1, "", cancelled);
    ConnectTracked(s, core, cancelled, greeted);
    ConnectKeepsKicks(s, core, cancelled, greeted);
    ConnectKeepsIndex(s, core, cancelled, greeted);
  }

  lemma ConnectTracked<C, M>(s: Server<C, M>, core: C, cancelled: bool, greeted: bool)
    requires Tracked(s) && KicksHeeded(s)
    ensures Tracked(Do(s, Connect(core, cancelled, greeted))) && KicksHeeded(Do(s, Connect(core, cancelled, greeted)))
  {
    FreshIdUnknown(s, "");
  }

  lemma ConnectKeepsKicks<C, M>(s: Server<C, M>, core: C, cancelled: bool, greeted: bool)
    requires Tracked(s) && KicksExact(s)
    ensures KicksExact(Do(s, Connect(core, cancelled, greeted)))
  {
    var s' := Do(s, Connect(core, cancelled, greeted));
    FreshIdUnknown(s, "");
    SupersededWasThere(s.auths, s.lastId + 1);
    forall id: nat ensures KickExact(s'.registry.kicked, s'.sessions.Keys, s'.cancelled, s'.auths, id) {
      assert KickExact(s.registry.kicked, s.sessions.Keys, s.cancelled, s.auths, id);
    }
  }

  lemma ConnectKeepsIndex<C, M>(s: Server<C, M>, core: C, cancelled: bool, greeted: bool)
    requires Tracked(s) && IndexExact(s)
    ensures IndexExact(Do(s, Connect(core, cancelled, greeted)))
  {
    var s' := Do(s, Connect(core, cancelled, greeted));
    forall user, id: nat
      ensures MapsRight(s'.registry.authenticated, s'.auths, s'.sessions.Keys, user, id)
    {
      FreshIdUnknown(s, user);
      assert MapsRight(s.registry.authenticated, s.auths, s.sessions.Keys, user, id);
    }
  }

  lemma CancelInv<C, M>(s: Server<C, M>, id: nat)
    requires Inv(s)
    ensures Inv(Do(s, Lifecycle<C>.Cancel(id)))
  {
    ExclusivityKept(s.registry, id, "", false);
    var s' := Do(s, Lifecycle<C>.Cancel(id));
    forall x: nat ensures KickExact(s'.registry.kicked, s'.sessions.Keys, s'.cancelled, s'.auths, x) {
      assert KickExact(s.registry.kicked, s.sessions.Keys, s.cancelled, s.auths, x);
    }
  }

  lemma PhaseInv<C, M>(s: Server<C, M>, e: Lifecycle<C>)
    requires Inv(s) && Can(s, e) && (e.Poll? || e.Repoll? || e.Quit?)
    ensures Inv(Do(s, e))
  {
    var s' := Do(s, e);
    assert s'.registry == s.registry && s'.auths == s.auths && s'.sessions.Keys == s.sessions.Keys;
    assert Tracked(s');
    PhaseKicks(s, e);
    assert IndexExact(s');
  }

  lemma PhaseKicks<C, M>(s: Server<C, M>, e: Lifecycle<C>)
    requires KicksHeeded(s) && Can(s, e) && (e.Poll? || e.Repoll? || e.Quit?)
    ensures KicksHeeded(Do(s, e))
  {
    var s' := Do(s, e);
    forall x | x in s'.sessions
      ensures s'.sessions[x].late <= 1
      ensures s'.sessions[x].phase == Armed ==> s'.sessions[x].late == 0
      ensures s'.sessions[x].late == 1 ==> x in s'.registry.kicked
    {
      assert x in s.sessions;
    }
  }

  lemma LeaveInv<C, M>(s: Server<C, M>, id: nat)
    requires Inv(s) && Can(s, Lifecycle<C>.Leave(id))
    ensures Inv(Do(s, Lifecycle<C>.Leave(id)))
  {
    ExclusivityKept(s.registry, id, "", false);
    LeaveKeepsIndex(s, id);
    var s' := Do(s, Lifecycle<C>.Leave(id));
    forall x: nat ensures KickExact(s'.registry.kicked, s'.sessions.Keys, s'.cancelled, s'.auths, x) {
      assert KickExact(s.registry.kicked, s.sessions.Keys, s.cancelled, s.auths, x);
    }
  }

  lemma LeaveKeepsIndex<C, M>(s: Server<C, M>, gone: nat)
    requires Inv(s) && Can(s, Lifecycle<C>.Leave(gone))
    ensures IndexExact(Do(s, Lifecycle<C>.Leave(gone)))
  {
    var s' := Do(s, Lifecycle<C>.Leave(gone));
    assert s.registry.sessions[gone] == LastUser(s.auths, gone);
    forall user, id: nat
      ensures MapsRight(s'.registry.authenticated, s'.auths, s'.sessions.Keys, user, id)
    {
      assert MapsRight(s.registry.authenticated, s.auths, s.sessions.Keys, user, id);
    }
  }

  lemma DeliverInv<C, M>(s: Server<C, M>, id: nat, message: M)
    requires Inv(s)
    ensures Inv(Deliver(s, id, message))
  {
  }

  lemma HandleInv<C, M>(s: Server<C, M>, id: nat, core: C, flow: Flow, auth: Option<string>, pops: bool)
    requires Inv(s)
    requires id in s.sessions && s.sessions[id].phase == Armed
    requires pops ==> s.sessions[id].inner != []
    ensures Inv(Handle(s, id, core, flow, auth, pops))
  {
    var s' := Handle(s, id, core, flow, auth, pops);
    HandleTracked(s, id, core, flow, auth, pops);
    HandleKicks(s, id, core, flow, auth, pops);
    if auth.Some? {
      ExclusivityKept(s.registry, id, auth.value, false);
      AuthenticateKeepsIndex(s, id, core, flow, auth.value, pops);
      AuthenticateKeepsKicks(s, id, core, flow, auth.value, pops);
    } else {
      assert s'.registry == s.registry && s'.auths == s.auths && s'.sessions.Keys == s.sessions.Keys;
    }
  }

  lemma HandleTracked<C, M>(s: Server<C, M>, id: nat, core: C, flow: Flow, auth: Option<string>, pops: bool)
    requires Tracked(s)
    requires id in s.sessions && s.sessions[id].phase == Armed
    requires pops ==> s.sessions[id].inner != []
    ensures Tracked(Handle(s, id, core, flow, auth, pops))
  {
    if auth.Some? {
      OnAppend(s.auths, id, auth.value);
    }
  }

  lemma HandleKicks<C, M>(s: Server<C, M>, id: nat, core: C, flow: Flow, auth: Option<string>, pops: bool)
    requires KicksHeeded(s)
    requires id in s.sessions && s.sessions[id].phase == Armed
    requires pops ==> s.sessions[id].inner != []
    ensures KicksHeeded(Handle(s, id, core, flow, auth, pops))
  {
    var s' := Handle(s, id, core, flow, auth, pops);
    assert s.registry.kicked <= s'.registry.kicked;
    forall x | x in s'.sessions
      ensures s'.sessions[x].late <= 1
      ensures s'.sessions[x].phase == Armed ==> s'.sessions[x].late == 0
      ensures s'.sessions[x].late == 1 ==> x in s'.registry.kicked
    {
      assert x in s.sessions;
    }
  }

  lemma AuthenticateKeepsIndex<C, M>(s: Server<C, M>, arrival: nat, core: C, flow: Flow, name: string, pops: bool)
    requires Inv(s)
    requires arrival in s.sessions && s.sessions[arrival].phase == Armed
    requires pops ==> s.sessions[arrival].inner != []
    ensures IndexExact(Handle(s, arrival, core, flow, Some(name), pops))
  {
    var s' := Handle(s, arrival, core, flow, Some(name), pops);
    OnAppend(s.auths, arrival, name);
    forall user, id: nat
      ensures MapsRight(s'.registry.authenticated, s'.auths, s'.sessions.Keys, user, id)
    {
      assert MapsRight(s.registry.authenticated, s.auths, s.sessions.Keys, user, id);
    }
  }

  lemma AuthenticateKeepsKicks<C, M>(s: Server<C, M>, arrival: nat, core: C, flow: Flow, name: string, pops: bool)
    requires Inv(s)
    requires arrival in s.sessions && s.sessions[arrival].phase == Armed
    requires pops ==> s.sessions[arrival].inner != []
    ensures KicksExact(Handle(s, arrival, core, flow, Some(name), pops))
  {
    var s' := Handle(s, arrival, core, flow, Some(name), pops);
    assert Front(s'.auths) == s.auths;
    forall id: nat ensures KickExact(s'.registry.kicked, s'.sessions.Keys, s'.cancelled, s'.auths, id) {
      assert KickExact(s.registry.kicked, s.sessions.Keys, s.cancelled, s.auths, id);
      assert MapsRight(s.registry.authenticated, s.auths, s.sessions.Keys, name, id);
      KickedExactly(s.registry, arrival, name, false, id);
    }
  }

  // ---------------------------------------------------------------- consequences

  /** A user is stale when its last authenticator has since authenticated as somebody else. */
  ghost predicate Stale(auths: seq<(nat, string)>, user: string) {
    LastAuthenticator(auths, user).Some? && LastUser(auths, LastAuthenticator(auths, user).value) != Some(user)
  }

  lemma MappedTo<C, M>(s: Server<C, M>, user: string, id: nat)
    requires Inv(s)
    ensures Get(s.registry.authenticated, user) == Some(id) <==>
            LastAuthenticator(s.auths, user) == Some(id) && (id in s.sessions || LastUser(s.auths, id) != Some(user))
  {
    assert MapsRight(s.registry.authenticated, s.auths, s.sessions.Keys, user, id);
  }

  /** Every mapping points to a live session carrying the user exactly when no user is stale. */
  lemma IndexAgreesIffNoneStale<C, M>(s: Server<C, M>)
    requires Inv(s)
    ensures IndexAgrees(s.registry) <==> forall user :: !Stale(s.auths, user)
  {
    if forall user :: !Stale(s.auths, user) {
      forall user | user in s.registry.authenticated
        ensures s.registry.authenticated[user] in s.registry.sessions &&
                s.registry.sessions[s.registry.authenticated[user]] == Some(user)
      {
        MappedTo(s, user, s.registry.authenticated[user]);
        assert !Stale(s.auths, user);
      }
    } else {
      var user :| Stale(s.auths, user);
      MappedTo(s, user, LastAuthenticator(s.auths, user).value);
    }
  }

  /** Once every session has left, the user map is empty exactly when no user is stale. */
  lemma EmptyIffNoneStale<C, M>(s: Server<C, M>)
    requires Inv(s) && s.sessions == map[]
    ensures s.registry.sessions == map[] && s.registry.kicked == {}
    ensures s.registry.authenticated == map[] <==> forall user :: !Stale(s.auths, user)
  {
    assert s.registry.sessions.Keys == {};
    IndexAgreesIffNoneStale(s);
    if s.registry.authenticated != map[] {
      var user :| user in s.registry.authenticated;
      assert s.registry.authenticated[user] !in s.registry.sessions;
    }
  }

  ghost predicate OneAuthPerSession(auths: seq<(nat, string)>) {
    forall i, j | 0 <= i < j < |auths| :: auths[i].0 != auths[j].0
  }

  lemma OneAuthMeansNoneStale(auths: seq<(nat, string)>, user: string)
    requires OneAuthPerSession(auths)
    ensures !Stale(auths, user)
  {
    AuthenticatorHasUser(auths, user);
    if LastAuthenticator(auths, user).Some? {
      var id := LastAuthenticator(auths, user).value;
      UserIsRecorded(auths, id);
      var i :| 0 <= i < |auths| && auths[i] == (id, user);
      var j :| 0 <= j < |auths| && auths[j] == (id, LastUser(auths, id).value);
      assert i == j;
    }
  }

  /**
   When every session authenticates at most once, a user maps to its most recent authenticator
   while that session is registered and to nothing afterwards.
   */
  lemma IndexIsLastAuthenticator<C, M>(s: Server<C, M>, user: string)
    requires Inv(s) && OneAuthPerSession(s.auths)
    ensures Get(s.registry.authenticated, user) ==
            match LastAuthenticator(s.auths, user) {
              case Some(id) => if id in s.sessions then Some(id) else None
              case None => None
            }
    ensures s.sessions == map[] ==> s.registry.authenticated == map[]
  {
    OneAuthMeansNoneStale(s.auths, user);
    if Get(s.registry.authenticated, user).Some? {
      MappedTo(s, user, s.registry.authenticated[user]);
    } else if LastAuthenticator(s.auths, user).Some? {
      MappedTo(s, user, LastAuthenticator(s.auths, user).value);
    }
    if s.sessions == map[] {
      forall u { OneAuthMeansNoneStale(s.auths, u); }
      EmptyIffNoneStale(s);
    }
  }

  /**
   Whom an authentication kicks: a registered session that is the last authenticator of the user,
   whether or not it still carries that user.  Every other session is as it was, the newcomer included.
   */
  lemma WhoIsKicked<C, M>(s: Server<C, M>, id: nat, core: C, flow: Flow, user: string, pops: bool, other: nat)
    requires Inv(s) && id in s.sessions && s.sessions[id].phase == Armed && (pops ==> s.sessions[id].inner != [])
    ensures other in Handle(s, id, core, flow, Some(user), pops).registry.kicked <==>
            other in s.registry.kicked ||
            (other in s.sessions && other != id && LastAuthenticator(s.auths, user) == Some(other))
  {
    MappedTo(s, user, other);
    KickedExactly(s.registry, id, user, false, other);
  }

  /**
   A live session is kicked if and only if its token was cancelled from outside or another session
   authenticated as a user whose last authenticator it was.
   */
  lemma KickedIff<C, M>(s: Server<C, M>, id: nat)
    requires Inv(s) && id in s.sessions
    ensures id in s.registry.kicked <==> id in s.cancelled || Superseded(s.auths, id)
  {
    assert KickExact(s.registry.kicked, s.sessions.Keys, s.cancelled, s.auths, id);
  }

  lemma {:induction false} SupersededIsNotLast(auths: seq<(nat, string)>, id: nat, user: string)
    requires OneAuthPerSession(auths) && Superseded(auths, id)
    ensures LastAuthenticator(auths, user) != Some(id)
  {
    var n := |auths| - 1;
    assert forall i | 0 <= i < n :: Front(auths)[i] == auths[i];
    AuthenticatorHasUser(Front(auths), user);
    AuthenticatorHasUser(Front(auths), auths[n].1);
    if Superseded(Front(auths), id) {
      SupersededIsNotLast(Front(auths), id, user);
      SupersededWasThere(Front(auths), id);
      UserIsRecorded(Front(auths), id);
    }
  }

  /**
   When every session authenticates at most once and its token is not cancelled from outside, the
   live session that a user maps to is active: it carries the user and has not been kicked.
   */
  lemma MappedIsActive<C, M>(s: Server<C, M>, user: string, id: nat)
    requires Inv(s) && OneAuthPerSession(s.auths) && id !in s.cancelled
    requires Get(s.registry.authenticated, user) == Some(id)
    ensures Active(s.registry, id, user)
  {
    MappedTo(s, user, id);
    OneAuthMeansNoneStale(s.auths, user);
    KickedIff(s, id);
    if Superseded(s.auths, id) {
      SupersededIsNotLast(s.auths, id, user);
    }
  }

  // ---------------------------------------------------------------- when a loop ends

  /**
   Why a session's loop ends: its poll saw the kick, its input ended or its timer fired, or its
   greeting failed.  Once it has ended it only leaves.
   */
  lemma WhyExiting<C, M>(s: Server<C, M>, e: Lifecycle<C>, id: nat)
    requires Tracked(s) && Can(s, e) && id in Do(s, e).sessions
    ensures Do(s, e).sessions[id].phase == Exiting <==>
            || (id in s.sessions && s.sessions[id].phase == Exiting)
            || (e == Lifecycle<C>.Poll(id) && id in s.registry.kicked)
            || e == Lifecycle<C>.Quit(id)
            || (id !in s.sessions && e.Connect? && !e.greeted)
    ensures id in s.sessions ==>
              && Do(s, e).sessions[id].core == s.sessions[id].core
              && Do(s, e).sessions[id].inner == s.sessions[id].inner
  {
  }

  /** A handler ends the loop exactly by breaking it, and touches no other session. */
  lemma WhyHandled<C, M>(s: Server<C, M>, id: nat, core: C, flow: Flow, auth: Option<string>, pops: bool, other: nat)
    requires id in s.sessions && s.sessions[id].phase == Armed && (pops ==> s.sessions[id].inner != [])
    ensures var s' := Handle(s, id, core, flow, auth, pops);
            && s'.sessions[id].core == core && (s'.sessions[id].phase == Exiting <==> flow == Break)
            && (other != id ==> Get(s'.sessions, other) == Get(s.sessions, other))
  {
  }
}
