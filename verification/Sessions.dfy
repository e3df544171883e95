/** Device sessions: one device at a time on plans without multi-device, and never a lock-out. Times are in seconds. */
module Sessions {
  import opened Options

  type Id = nat

  const IDLE := 900
  const TOUCH_EVERY := 60

  datatype Session = Session(email: string, lastSeen: int, revoked: bool)

  datatype State = State(sessions: map<Id, Session>, now: int)

  predicate IsLive(x: Session, now: int) {
    !x.revoked && x.lastSeen > now - IDLE
  }

  function Unrevoked(s: State, email: string): set<Id> {
    set i | i in s.sessions && s.sessions[i].email == email && !s.sessions[i].revoked
  }

  function LiveOf(s: State, email: string): set<Id> {
    set i | i in s.sessions && s.sessions[i].email == email && IsLive(s.sessions[i], s.now)
  }

  // ----- the operations

  function RevokeAll(s: State, email: string): State {
    s.(sessions := map i | i in s.sessions ::
         if s.sessions[i].email == email then s.sessions[i].(revoked := true) else s.sessions[i])
  }

  function RevokeOne(s: State, id: Id): State {
    if id in s.sessions then s.(sessions := s.sessions[id := s.sessions[id].(revoked := true)]) else s
  }

  function Create(s: State, email: string, id: Id): State {
    s.(sessions := s.sessions[id := Session(email, s.now, false)])
  }

  /** A sign-in is refused when a single-device account still has a live session and does not force. */
  predicate Blocked(s: State, email: string, multiDevice: bool, force: bool) {
    !multiDevice && !force && LiveOf(s, email) != {}
  }

  function Start(s: State, email: string, multiDevice: bool, force: bool, id: Id): State {
    if Blocked(s, email, multiDevice, force) then s
    else Create(if multiDevice then s else RevokeAll(s, email), email, id)
  }

  /** A request marks its session as seen, at most once a minute. */
  function Touch(s: State, id: Id): State {
    if id in s.sessions && !s.sessions[id].revoked && s.sessions[id].lastSeen < s.now - TOUCH_EVERY then
      s.(sessions := s.sessions[id := s.sessions[id].(lastSeen := s.now)])
    else s
  }

  // ----- steps

  /** `FirstSignIn` opens the session of an account made by accepting an invitation, without the gate. */
  datatype Step =
    | SignIn(email: string, multiDevice: bool, force: bool, id: Id)
    | FirstSignIn(email: string, id: Id)
    | Request(id: Id)
    | SignOut(id: Id)
    | SignOutEverywhere(email: string)
    | Tick(now: int)

  /** New sessions have new ids, an account's first sign-in finds no session, and time does not go back. */
  predicate Allowed(s: State, step: Step) {
    match step
    case SignIn(_, _, _, id) => id !in s.sessions
    case FirstSignIn(email, id) => id !in s.sessions && Unrevoked(s, email) == {}
    case Tick(now) => now >= s.now
    case _ => true
  }

  function Next(s: State, step: Step): State {
    match step
    case SignIn(email, multiDevice, force, id) => Start(s, email, multiDevice, force, id)
    case FirstSignIn(email, id) => Create(s, email, id)
    case Request(id) => Touch(s, id)
    case SignOut(id) => RevokeOne(s, id)
    case SignOutEverywhere(email) => RevokeAll(s, email)
    case Tick(now) => s.(now := now)
  }

  ghost predicate IsRun(states: seq<State>, steps: seq<Step>) {
    && |states| == |steps| + 1
    && forall i :: 0 <= i < |steps| ==> Allowed(states[i], steps[i]) && states[i + 1] == Next(states[i], steps[i])
  }

  // ----- one device at a time

  predicate AtMostOne(s: State, email: string) {
    forall i, j :: i in Unrevoked(s, email) && j in Unrevoked(s, email) ==> i == j
  }

  /** The account signs in to a workspace whose plan allows several devices. */
  predicate OnManyDevices(step: Step, email: string) {
    step.SignIn? && step.email == email && step.multiDevice
  }

  lemma StepKeepsOne(s: State, step: Step, email: string)
    requires Allowed(s, step) && AtMostOne(s, email) && !OnManyDevices(step, email)
    ensures AtMostOne(Next(s, step), email)
  {
    var t := Next(s, step);
    if step.SignIn? && step.email == email && t != s {
      assert Unrevoked(t, email) == {step.id};
    } else if step.FirstSignIn? && step.email == email {
      assert Unrevoked(t, email) == {step.id};
    } else {
      assert Unrevoked(t, email) <= Unrevoked(s, email);
    }
  }

  /** An account that signs in on single-device plans only never has two unrevoked sessions. */
  lemma {:induction false} OneSessionOnEveryRun(states: seq<State>, steps: seq<Step>, k: nat, email: string)
    requires IsRun(states, steps) && k < |states| && AtMostOne(states[0], email)
    requires forall i :: 0 <= i < k ==> !OnManyDevices(steps[i], email)
    ensures AtMostOne(states[k], email)
  {
    if k > 0 {
      OneSessionOnEveryRun(states, steps, k - 1, email);
      StepKeepsOne(states[k - 1], steps[k - 1], email);
    }
  }

  // ----- what a sign-in opens

  /** The only difference is the new session of this account, open and seen now. */
  predicate Opens(s: State, t: State, email: string, id: Id) {
    && t.now == s.now && t.sessions.Keys == s.sessions.Keys + {id}
    && t.sessions[id].email == email && !t.sessions[id].revoked && t.sessions[id].lastSeen == s.now
  }

  /**
   * A sign-in is refused exactly when the plan allows one device, it does not force, and a session of the account was
   * seen in the last 15 minutes. Otherwise it opens a session that is live. With several devices no other session
   * changes; with one, every other session of the account is revoked and no other account's changes.
   */
  lemma SignInOpensSession(s: State, email: string, multiDevice: bool, force: bool, id: Id)
    ensures var t := Next(s, SignIn(email, multiDevice, force, id));
      var refused := !multiDevice && !force
        && (exists i :: i in s.sessions && s.sessions[i].email == email && !s.sessions[i].revoked
                        && s.now - s.sessions[i].lastSeen < 900);
      && (refused <==> Blocked(s, email, multiDevice, force))
      && (refused ==> t == s)
      && (!refused ==>
            && Opens(s, t, email, id) && IsLive(t.sessions[id], t.now)
            && (forall i :: i in s.sessions && i != id && (multiDevice || s.sessions[i].email != email) ==>
                  t.sessions[i] == s.sessions[i])
            && (forall i :: i in s.sessions && i != id && !multiDevice && s.sessions[i].email == email ==>
                  t.sessions[i].revoked && t.sessions[i] == s.sessions[i].(revoked := true)))
  {
    forall i | i in s.sessions && s.sessions[i].email == email && IsLive(s.sessions[i], s.now)
      ensures i in LiveOf(s, email)
    {
    }
  }

  /** The first sign-in of a new account opens its session and touches no other. */
  lemma FirstSignInOpensSession(s: State, email: string, id: Id)
    ensures var t := Next(s, FirstSignIn(email, id));
      && Opens(s, t, email, id) && IsLive(t.sessions[id], t.now)
      && forall i :: i in s.sessions && i != id ==> t.sessions[i] == s.sessions[i]
  {
  }

  // ----- who can end a session

  /** What ends an unrevoked session: its own sign-out, the account's, or a sign-in that takes over. */
  predicate Ends(s: State, step: Step, id: Id)
    requires id in s.sessions
  {
    match step
    case SignOut(i) => i == id
    case SignOutEverywhere(email) => email == s.sessions[id].email
    case SignIn(email, multiDevice, force, _) =>
      email == s.sessions[id].email && !multiDevice && (force || LiveOf(s, email) == {})
    case _ => false
  }

  lemma EndsExactly(s: State, step: Step, id: Id)
    requires Allowed(s, step) && id in s.sessions && !s.sessions[id].revoked
    ensures id in Next(s, step).sessions && Next(s, step).sessions[id].email == s.sessions[id].email
    ensures Next(s, step).sessions[id].revoked <==> Ends(s, step, id)
  {
  }

  /** Ended on purpose: signed out, or replaced by a sign-in that forces its way. */
  predicate EndsOnPurpose(step: Step, id: Id, email: string) {
    match step
    case SignOut(i) => i == id
    case SignOutEverywhere(e) => e == email
    case SignIn(e, multiDevice, force, _) => e == email && !multiDevice && force
    case _ => false
  }

  /** A live session ends exactly on purpose. */
  lemma LiveEndsOnPurpose(s: State, step: Step, id: Id)
    requires Allowed(s, step) && id in s.sessions && IsLive(s.sessions[id], s.now)
    ensures Next(s, step).sessions[id].revoked <==> EndsOnPurpose(step, id, s.sessions[id].email)
  {
    EndsExactly(s, step, id);
    assert id in LiveOf(s, s.sessions[id].email);
  }

  /** Seen no earlier than a minute before `t`, and not revoked. */
  predicate SeenSince(s: State, id: Id, email: string, t: int) {
    && id in s.sessions && s.sessions[id].email == email && !s.sessions[id].revoked
    && s.sessions[id].lastSeen >= t - TOUCH_EVERY
  }

  lemma StepKeepsSeen(s: State, step: Step, id: Id, email: string, t: int)
    requires Allowed(s, step) && SeenSince(s, id, email, t) && !EndsOnPurpose(step, id, email)
    requires s.now < t + IDLE - TOUCH_EVERY
    requires t <= s.now
    ensures SeenSince(Next(s, step), id, email, t)
  {
    assert id in LiveOf(s, email);
    EndsExactly(s, step, id);
  }

  lemma {:induction false} SeenOnRun(states: seq<State>, steps: seq<Step>, from: nat, k: nat, id: Id)
    requires IsRun(states, steps) && from < k < |states|
    requires id in states[from].sessions && !states[from].sessions[id].revoked && steps[from] == Request(id)
    requires forall i :: from < i < k ==> !EndsOnPurpose(steps[i], id, states[from].sessions[id].email)
    requires states[k].now < states[from].now + IDLE - TOUCH_EVERY
    ensures SeenSince(states[k], id, states[from].sessions[id].email, states[from].now)
    ensures states[from].now <= states[k].now
  {
    if k > from + 1 {
      assert states[(k - 1) + 1] == Next(states[k - 1], steps[k - 1]);
      SeenOnRun(states, steps, from, k - 1, id);
      StepKeepsSeen(states[k - 1], steps[k - 1], id, states[from].sessions[id].email, states[from].now);
    } else {
      assert states[from + 1] == Next(states[from], steps[from]);
    }
  }

  /**
   * A session with a request in the last 14 minutes is live, although requests are recorded only once a minute:
   * unless it was signed out, only a forced sign-in replaces it, and every other single-device sign-in is refused.
   */
  lemma RecentRequestKeepsSession(states: seq<State>, steps: seq<Step>, from: nat, k: nat, id: Id, force: bool)
    requires IsRun(states, steps) && from < k < |states|
    requires id in states[from].sessions && !states[from].sessions[id].revoked && steps[from] == Request(id)
    requires forall i :: from < i < k ==> !EndsOnPurpose(steps[i], id, states[from].sessions[id].email)
    requires states[k].now - states[from].now < 840
    ensures id in states[k].sessions && IsLive(states[k].sessions[id], states[k].now)
    ensures Blocked(states[k], states[from].sessions[id].email, false, force) <==> !force
  {
    SeenOnRun(states, steps, from, k, id);
    assert id in LiveOf(states[k], states[from].sessions[id].email);
  }

  /** After exactly 14 minutes that can fail: a request that was not recorded may lie a minute after the last one. */
  lemma FourteenMinutesCanBeTooLong(email: string)
    ensures var s := State(map[1 := Session(email, 0, false)], 60);
            var t := Next(Next(s, Request(1)), Tick(900));
            && t.now - s.now == 840 && !IsLive(t.sessions[1], t.now)
            && Next(t, SignIn(email, false, false, 2)).sessions[1].revoked
  {
    var s := State(map[1 := Session(email, 0, false)], 60);
    var t := Next(Next(s, Request(1)), Tick(900));
    assert t.sessions == s.sessions;
    assert LiveOf(t, email) == {};
  }

  /** Leaving no open session of the account, and nothing else changed, is revoking all of them. */
  lemma NoneOpen(s: State, t: State, email: string)
    requires t.now == s.now && t.sessions.Keys == s.sessions.Keys && Unrevoked(t, email) == {}
    requires forall i :: i in t.sessions && t.sessions[i].email != email ==> t.sessions[i] == s.sessions[i]
    requires forall i :: i in t.sessions ==> t.sessions[i] == s.sessions[i].(revoked := t.sessions[i].revoked)
    ensures t == RevokeAll(s, email)
  {
    forall i | i in t.sessions
      ensures t.sessions[i] == RevokeAll(s, email).sessions[i]
    {
      assert i !in Unrevoked(t, email);
    }
  }

  // ----- the table

  class Table {
    var sessions: map<Id, Session>
    var now: int

    constructor (now: int)
      ensures Current() == State(map[], now)
    {
      sessions, this.now := map[], now;
    }

    function Current(): State
      reads this
    {
      State(sessions, now)
    }

    /** The row is one of these, and none of them was seen later. */
    ghost predicate LatestOf(rows: set<Id>, row: Id)
      reads this
    {
      rows <= sessions.Keys && row in rows && forall i :: i in rows ==> sessions[i].lastSeen <= sessions[row].lastSeen
    }

    /** The account's live session seen last, if it has a live one. */
    method GetLiveSessionForEmail(email: string) returns (found: Option<Id>)
      ensures found.None? <==> LiveOf(Current(), email) == {}
      ensures found.Some? ==> LatestOf(LiveOf(Current(), email), found.value)
    {
      var rows := LiveOf(Current(), email);
      var todo := rows;
      found := None;
      while todo != {}
        invariant todo <= rows
        invariant if found.None? then todo == rows else LatestOf(rows - todo, found.value)
        decreases todo
      {
        var i :| i in todo;
        if found.None? || sessions[i].lastSeen > sessions[found.value].lastSeen {
          found := Some(i);
        }
        todo := todo - {i};
      }
    }

    /** Afterwards the account has no open session; nothing else moves, and `affected` counts what did. */
    method RevokeSessionsForEmail(email: string) returns (affected: nat)
      modifies `sessions
      ensures Unrevoked(Current(), email) == {} && sessions.Keys == old(sessions).Keys
      ensures forall i :: i in sessions && sessions[i].email != email ==> sessions[i] == old(sessions)[i]
      ensures forall i :: i in sessions ==> sessions[i] == old(sessions)[i].(revoked := sessions[i].revoked)
      ensures affected == |set i | i in sessions && sessions[i] != old(sessions)[i]|
    {
      affected := |Unrevoked(Current(), email)|;
      sessions := map i | i in sessions ::
        if sessions[i].email == email && !sessions[i].revoked then sessions[i].(revoked := true) else sessions[i];
      assert Unrevoked(old(Current()), email) == set i | i in sessions && sessions[i] != old(sessions)[i];
    }

    method RevokeSession(id: Id) returns (affected: nat)
      modifies `sessions
      ensures sessions.Keys == old(sessions).Keys
      ensures id in sessions ==> sessions[id] == old(sessions)[id].(revoked := true)
      ensures forall i :: i in sessions && i != id ==> sessions[i] == old(sessions)[i]
      ensures Current() == Next(old(Current()), SignOut(id))
      ensures affected == if id in old(sessions) && !old(sessions)[id].revoked then 1 else 0
    {
      affected := 0;
      if id in sessions && !sessions[id].revoked {
        sessions := sessions[id := sessions[id].(revoked := true)];
        affected := 1;
      }
    }

    /** An open session counts as seen no longer than a minute ago; only its time moves, and only when it was older. */
    method TouchSession(id: Id)
      modifies `sessions
      ensures sessions.Keys == old(sessions).Keys
      ensures id in sessions && !sessions[id].revoked ==> sessions[id].lastSeen >= now - TOUCH_EVERY
      ensures forall i :: i in sessions && sessions[i] != old(sessions)[i] ==>
        && i == id && !sessions[i].revoked && old(sessions)[i].lastSeen < now - TOUCH_EVERY
        && sessions[i] == old(sessions)[i].(lastSeen := now)
      ensures Current() == Next(old(Current()), Request(id))
    {
      if id in sessions && !sessions[id].revoked && sessions[id].lastSeen < now - TOUCH_EVERY {
        sessions := sessions[id := sessions[id].(lastSeen := now)];
      }
    }

    /** The gate of every sign-in; `live` is the session in the way of a refused one. */
    method StartSession(email: string, multiDevice: bool, force: bool, id: Id) returns (blocked: bool, live: Option<Id>)
      modifies `sessions
      ensures blocked <==>
        && !multiDevice && !force
        && (exists i :: i in old(sessions) && old(sessions)[i].email == email && !old(sessions)[i].revoked
                        && now - old(sessions)[i].lastSeen < 900)
      ensures Current() == Next(old(Current()), SignIn(email, multiDevice, force, id))
      ensures blocked ==> sessions == old(sessions) && live.Some? && live.value in LiveOf(Current(), email)
      ensures !blocked ==>
        id in sessions && sessions[id].email == email && !sessions[id].revoked && sessions[id].lastSeen == now
      ensures !blocked ==> forall i :: i in sessions && i != id ==>
        && i in old(sessions)
        && sessions[i] == old(sessions)[i].(
             revoked := old(sessions)[i].revoked || (!multiDevice && old(sessions)[i].email == email))
    {
      SignInOpensSession(Current(), email, multiDevice, force, id);
      live := None;
      if !multiDevice {
        if !force {
          live := GetLiveSessionForEmail(email);
          if live.Some? {
            return true, live;
          }
        }
        var affected := RevokeSessionsForEmail(email);
        NoneOpen(old(Current()), Current(), email);
      }
      sessions := sessions[id := Session(email, now, false)];
      blocked := false;
    }
  }
}
