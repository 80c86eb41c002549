/**
  The admin-user routes and the guard that keeps one active superadmin.  A request edits rows in its
  session first and commits at the end; a rejection raised in between rolls those edits back.
 */
module AdminUsers {
  import opened Wrappers
  import opened Text

  datatype Role = Superadmin | Lesser(name: string)

  datatype User = User(username: string, role: Role, active: bool, password: string)

  /** `me` is the login name the request's session carries; updates leave absent fields alone. */
  datatype Request =
    | Create(me: string, username: string, role: Role, password: string)
    | Update(me: string, id: int, newRole: Option<Role>, newActive: Option<bool>, newPassword: Option<string>)
    | Delete(me: string, id: int)

  datatype Outcome = Accepted | NotFound | Conflict | Unprocessable

  datatype Table = Table(users: map<int, User>, nextId: int)

  predicate Valid(t: Table) {
    && (forall id :: id in t.users ==> id < t.nextId)
    && (forall a, b :: a in t.users && b in t.users && t.users[a].username == t.users[b].username ==> a == b)
  }

  predicate IsActiveSuperadmin(u: User) {
    u.role.Superadmin? && u.active
  }

  function ActiveSuperadmins(users: map<int, User>): set<int> {
    set id | id in users && IsActiveSuperadmin(users[id])
  }

  predicate AllowedChar(c: char) {
    'a' <= c <= 'z' || '0' <= c <= '9' || c in "._@-"
  }

  /** None is the 422 of a malformed name. */
  function NormaliseUsername(raw: string): Option<string> {
    var norm := Lower(Trim(raw));
    if 3 <= |norm| <= 128 && forall i :: 0 <= i < |norm| ==> AllowedChar(norm[i]) then Some(norm) else None
  }

  function SelfUsername(me: string): Option<string> {
    var norm := Lower(Trim(me));
    if norm == "" then None else Some(norm)
  }

  // ----- what a request asks for, and when it is refused -----

  function Edited(u: User, req: Request): User
    requires req.Update?
  {
    User(u.username, req.newRole.GetOr(u.role), req.newActive.GetOr(u.active), req.newPassword.GetOr(u.password))
  }

  predicate IsSelf(u: User, me: string) {
    SelfUsername(me) == Some(u.username)
  }

  /** Nobody takes their own superadmin role or their own access away. */
  predicate SelfRefused(u: User, req: Request)
    requires req.Update?
  {
    && IsSelf(u, req.me)
    && ((req.newRole.Some? && req.newRole.value != u.role && !req.newRole.value.Superadmin?)
        || (u.active && !Edited(u, req).active))
  }

  /** The guard on the count of active superadmins, as the code asks it. */
  predicate LastRefused(users: map<int, User>, u: User, req: Request)
    requires req.Update?
  {
    && |ActiveSuperadmins(users)| <= 1
    && ((u.role.Superadmin? && !Edited(u, req).role.Superadmin?)
        || (Edited(u, req).role.Superadmin? && u.active && !Edited(u, req).active))
  }

  predicate NoChange(u: User, req: Request)
    requires req.Update?
  {
    Edited(u, req).role == u.role && Edited(u, req).active == u.active && req.newPassword.None?
  }

  function UpdateOutcome(t: Table, req: Request): Outcome
    requires req.Update?
  {
    if req.id !in t.users then NotFound
    else if SelfRefused(t.users[req.id], req) || LastRefused(t.users, t.users[req.id], req) then Conflict
    else if NoChange(t.users[req.id], req) then Unprocessable
    else Accepted
  }

  function DeleteOutcome(t: Table, req: Request): Outcome
    requires req.Delete?
  {
    if req.id !in t.users then NotFound
    else if IsSelf(t.users[req.id], req.me) then Conflict
    else if IsActiveSuperadmin(t.users[req.id]) && |ActiveSuperadmins(t.users)| <= 1 then Conflict
    else Accepted
  }

  predicate NameTaken(users: map<int, User>, name: string) {
    exists id :: id in users && users[id].username == name
  }

  function CreateOutcome(t: Table, req: Request): Outcome
    requires req.Create?
  {
    match NormaliseUsername(req.username)
    case None => Unprocessable
    case Some(name) => if NameTaken(t.users, name) then Conflict else Accepted
  }

  function Answer(t: Table, req: Request): Outcome {
    match req
    case Create(_, _, _, _) => CreateOutcome(t, req)
    case Update(_, _, _, _, _) => UpdateOutcome(t, req)
    case Delete(_, _) => DeleteOutcome(t, req)
  }

  /** The committed table after a request. */
  function After(t: Table, req: Request): Table {
    if !Answer(t, req).Accepted? then t else
    match req
    case Create(_, raw, role, password) =>
      Table(t.users[t.nextId := User(NormaliseUsername(raw).value, role, true, password)], t.nextId + 1)
    case Update(_, id, _, _, _) => t.(users := t.users[id := Edited(t.users[id], req)])
    case Delete(_, id) => t.(users := t.users - {id})
  }

  function Run(t: Table, requests: seq<Request>): Table
    decreases |requests|
  {
    if requests == [] then t else Run(After(t, requests[0]), requests[1..])
  }

  // ----- the routes -----

  class Service {
    var committed: Table
    /** The rows as this worker's session sees them: the committed rows plus edits not yet committed. */
    var session: Table

    constructor (t: Table)
      requires Valid(t)
      ensures committed == t && session == t
    {
      committed, session := t, t;
    }

    /** The session does not flush before it queries, so the count never sees the request's own edits. */
    method CountActiveSuperadmins() returns (count: nat)
      ensures count == |ActiveSuperadmins(committed.users)|
    {
      count := |ActiveSuperadmins(committed.users)|;
    }

    method Rollback()
      modifies this
      ensures committed == old(committed) && session == committed
    {
      session := committed;
    }

    method Commit()
      modifies this
      ensures committed == old(session) && session == committed
    {
      committed := session;
    }

    method CreateUser(req: Request) returns (outcome: Outcome)
      requires req.Create? && session == committed && Valid(committed)
      modifies this
      ensures outcome == Answer(old(committed), req) && committed == After(old(committed), req)
      ensures session == committed && Valid(committed)
    {
      hide NormaliseUsername;
      var norm := NormaliseUsername(req.username);
      if norm.None? {
        return Unprocessable;
      }
      if NameTaken(committed.users, norm.value) {
        return Conflict;
      }
      session := Table(session.users[session.nextId := User(norm.value, req.role, true, req.password)],
                       session.nextId + 1);
      Commit();
      outcome := Accepted;
    }

    method UpdateUser(req: Request) returns (outcome: Outcome)
      requires req.Update? && session == committed && Valid(committed)
      modifies this
      ensures outcome == Answer(old(committed), req) && committed == After(old(committed), req)
      ensures session == committed && Valid(committed)
    {
      AfterIsValid(committed, req);
      hide SelfUsername, ActiveSuperadmins, Valid;
      var id := req.id;
      if id !in session.users {
        return NotFound;
      }
      ghost var loaded := session.users[id];
      var isSelf := SelfUsername(req.me) == Some(session.users[id].username);
      var changed := false;
      if req.newRole.Some? && req.newRole.value != session.users[id].role {
        if isSelf && !req.newRole.value.Superadmin? {
          return Conflict;
        }
        if session.users[id].role.Superadmin? && !req.newRole.value.Superadmin? {
          var count := CountActiveSuperadmins();
          if count <= 1 {
            return Conflict;
          }
        }
        changed := true;
        session := session.(users := session.users[id := session.users[id].(role := req.newRole.value)]);
      }
      if req.newActive.Some? && req.newActive.value != session.users[id].active {
        if isSelf && !req.newActive.value {
          Rollback();
          return Conflict;
        }
        if session.users[id].role.Superadmin? && session.users[id].active && !req.newActive.value {
          var count := CountActiveSuperadmins();
          if count <= 1 {
            Rollback();
            return Conflict;
          }
        }
        changed := true;
        session := session.(users := session.users[id := session.users[id].(active := req.newActive.value)]);
      }
      if req.newPassword.Some? {
        changed := true;
        session := session.(users := session.users[id := session.users[id].(password := req.newPassword.value)]);
      }
      assert session.users[id] == Edited(loaded, req);
      if !changed {
        return Unprocessable;
      }
      assert session.users == old(committed.users)[id := Edited(loaded, req)];
      Commit();
      outcome := Accepted;
    }

    method DeleteUser(req: Request) returns (outcome: Outcome)
      requires req.Delete? && session == committed && Valid(committed)
      modifies this
      ensures outcome == Answer(old(committed), req) && committed == After(old(committed), req)
      ensures session == committed && Valid(committed)
    {
      hide SelfUsername, ActiveSuperadmins;
      var id := req.id;
      if id !in session.users {
        return NotFound;
      }
      var user := session.users[id];
      if SelfUsername(req.me) == Some(user.username) {
        return Conflict;
      }
      if user.role.Superadmin? && user.active {
        var count := CountActiveSuperadmins();
        if count <= 1 {
          return Conflict;
        }
      }
      session := session.(users := session.users - {id});
      Commit();
      outcome := Accepted;
    }
  }

  // ----- the guard works -----

  predicate HasSuperadmin(t: Table) {
    exists id :: id in t.users && IsActiveSuperadmin(t.users[id])
  }

  lemma AnotherMember<T>(s: set<T>, x: T) returns (y: T)
    requires |s| > 1
    ensures y in s && y != x
  {
    var rest := s - {x};
    assert |rest| >= |s| - 1;
    y :| y in rest;
  }

  lemma AfterIsValid(t: Table, req: Request)
    requires Valid(t)
    ensures Valid(After(t, req))
  {
    hide NormaliseUsername, SelfRefused, LastRefused;
  }

  /** An active superadmin whose row a request leaves alone is still one. */
  lemma OthersStay(t: Table, req: Request, other: int)
    requires Valid(t) && other in ActiveSuperadmins(t.users) && (req.Create? || req.id != other)
    ensures other in ActiveSuperadmins(After(t, req).users)
  {
    hide NormaliseUsername, SelfRefused, LastRefused;
  }

  lemma StillThere(t: Table, id: int)
    requires id in ActiveSuperadmins(t.users)
    ensures HasSuperadmin(t)
  {
  }

  lemma GuardHolds(t: Table, req: Request)
    requires Valid(t) && HasSuperadmin(t)
    ensures HasSuperadmin(After(t, req))
  {
    hide NormaliseUsername, SelfRefused;
    var supers := ActiveSuperadmins(t.users);
    var one :| one in t.users && IsActiveSuperadmin(t.users[one]);
    if req.Create? || req.id != one {
      OthersStay(t, req, one);
      StillThere(After(t, req), one);
    } else if |supers| > 1 {
      var other := AnotherMember(supers, one);
      OthersStay(t, req, other);
      StillThere(After(t, req), other);
    } else {
      // the request names the only active superadmin: refused, or still one afterwards
      StillThere(After(t, req), one);
    }
  }

  /**
    Once an active superadmin exists, one exists after every sequence of create, update and delete requests,
    role and activation changes combined in one request included.
   */
  lemma {:induction false} RunsKeepASuperadmin(t: Table, requests: seq<Request>)
    requires Valid(t) && HasSuperadmin(t)
    ensures Valid(Run(t, requests)) && HasSuperadmin(Run(t, requests))
    decreases |requests|
  {
    if requests != [] {
      hide Valid, HasSuperadmin, After;
      AfterIsValid(t, requests[0]);
      GuardHolds(t, requests[0]);
      RunsKeepASuperadmin(After(t, requests[0]), requests[1..]);
    }
  }

  /** A superadmin cannot lose the role, the access or the account through a request of their own. */
  lemma OwnRequestsAreSafe(t: Table, req: Request, id: int)
    requires Valid(t) && id in ActiveSuperadmins(t.users) && IsSelf(t.users[id], req.me)
    ensures id in ActiveSuperadmins(After(t, req).users)
  {
    hide NormaliseUsername, SelfUsername, LastRefused;
    if req.Create? || req.id != id {
      OthersStay(t, req, id);
    }
  }

  /**
    The count guard refuses more than it must: with an active superadmin in place, the refused update would
    have left none exactly when its target is an active superadmin.  Demoting an inactive superadmin, or
    promoting and deactivating someone in one request, is refused although nothing would be lost.
   */
  lemma RefusalIsNeededIff(t: Table, req: Request)
    requires Valid(t) && HasSuperadmin(t) && req.Update? && req.id in t.users
            && LastRefused(t.users, t.users[req.id], req)
    ensures !HasSuperadmin(t.(users := t.users[req.id := Edited(t.users[req.id], req)])) <==>
              IsActiveSuperadmin(t.users[req.id])
  {
    var supers := ActiveSuperadmins(t.users);
    var after := t.users[req.id := Edited(t.users[req.id], req)];
    var one :| one in t.users && IsActiveSuperadmin(t.users[one]);
    if IsActiveSuperadmin(t.users[req.id]) {
      if exists other :: other in supers && other != req.id {
        var other :| other in supers && other != req.id;
        assert {req.id, other} <= supers;
        assert |supers - {req.id}| == |supers| - 1;
      }
      assert supers == {req.id};
      forall id | id in after ensures !IsActiveSuperadmin(after[id]) {
        assert id != req.id ==> id !in supers;
      }
    } else {
      assert after[one] == t.users[one];
    }
  }

  // ----- what each request answers and does -----

  /** The login name the session carries is this user's, letter case and surrounding blanks aside. */
  ghost predicate SignedInAs(me: string, u: User) {
    Lower(Trim(me)) != "" && Lower(Trim(me)) == u.username
  }

  /** Whoever else could still administer. */
  ghost predicate AnotherSuperadmin(t: Table, id: int) {
    exists other :: other in t.users && other != id && t.users[other].role.Superadmin? && t.users[other].active
  }

  /**
    A user is created exactly when the trimmed name in lower case has 3 to 128 characters of the permitted
    ones and nobody has it; the new row is active, with the role and password asked for, and the only change.
   */
  lemma CreateIs(t: Table, req: Request)
    requires Valid(t) && req.Create?
    ensures var name, after := Lower(Trim(req.username)), After(t, req);
            var ok := && 3 <= |name| <= 128
                      && (forall c :: c in name ==> 'a' <= c <= 'z' || '0' <= c <= '9' || c in {'.', '_', '@', '-'})
                      && (forall id :: id in t.users ==> t.users[id].username != name);
            && (Answer(t, req) == Accepted <==> ok)
            && (ok ==> after.users == t.users[t.nextId := User(name, req.role, true, req.password)])
            && (!ok ==> after == t)
  {
    var name := Lower(Trim(req.username));
    hide Lower, Trim, Valid;
    assert forall i :: 0 <= i < |name| ==> name[i] in name;
    assert forall c :: c in "._@-" <==> c in {'.', '_', '@', '-'};
  }

  /**
    An account is deleted exactly when it is there, is not the caller's own, and is not the last active
    superadmin; nothing else changes.
   */
  lemma DeleteIs(t: Table, req: Request)
    requires Valid(t) && req.Delete?
    ensures var ok := && req.id in t.users && !SignedInAs(req.me, t.users[req.id])
                      && (t.users[req.id].role.Superadmin? && t.users[req.id].active ==> AnotherSuperadmin(t, req.id));
            && (Answer(t, req) == Accepted <==> ok)
            && After(t, req).users == if ok then t.users - {req.id} else t.users
  {
    hide Lower, Trim, Valid;
    if req.id in t.users && IsActiveSuperadmin(t.users[req.id]) {
      CountsAnother(t, req.id);
      hide ActiveSuperadmins;
    }
  }

  /** The guard's count tells whether another active superadmin is there. */
  lemma CountsAnother(t: Table, id: int)
    requires id in t.users && IsActiveSuperadmin(t.users[id])
    ensures |ActiveSuperadmins(t.users)| > 1 <==> AnotherSuperadmin(t, id)
  {
    var supers := ActiveSuperadmins(t.users);
    assert id in supers;
    if |supers| > 1 {
      var other := AnotherMember(supers, id);
      assert t.users[other].role.Superadmin?;
    }
    if other :| other in t.users && other != id && IsActiveSuperadmin(t.users[other]) {
      assert {id, other} <= supers;
      assert |supers| == |supers - {id, other}| + |{id, other}|;
    }
  }

  ghost predicate AtMostOneSuperadmin(t: Table) {
    forall a, b ::
      && a in t.users && t.users[a].role.Superadmin? && t.users[a].active
      && b in t.users && t.users[b].role.Superadmin? && t.users[b].active
      ==> a == b
  }

  lemma AtMostOne(t: Table)
    requires |ActiveSuperadmins(t.users)| <= 1
    ensures AtMostOneSuperadmin(t)
  {
    var supers := ActiveSuperadmins(t.users);
    forall a, b | a in supers && b in supers ensures a == b {
      assert {a, b} <= supers;
      assert |supers| == |supers - {a, b}| + |{a, b}|;
    }
    assert forall id :: id in t.users && t.users[id].role.Superadmin? && t.users[id].active ==> id in supers;
  }

  /**
    An update that goes through sets exactly the fields it was given, and never leaves the table without
    the caller's own standing or without a superadmin.  One that asks for a change is refused only where the
    caller would take their own role or access away, or where at most one active superadmin is counted.
   */
  lemma UpdateIs(t: Table, req: Request)
    requires Valid(t) && req.Update?
    ensures Answer(t, req) == NotFound <==> req.id !in t.users
    ensures Answer(t, req) == Accepted ==>
              var u := t.users[req.id];
              After(t, req).users
              == t.users[req.id := User(u.username, if req.newRole.Some? then req.newRole.value else u.role,
                                        if req.newActive.Some? then req.newActive.value else u.active,
                                        if req.newPassword.Some? then req.newPassword.value else u.password)]
    ensures Answer(t, req) == Conflict ==>
              var u := t.users[req.id];
              || (SignedInAs(req.me, u)
                  && ((req.newRole.Some? && !req.newRole.value.Superadmin?) || req.newActive == Some(false)))
              || (AtMostOneSuperadmin(t)
                  && ((u.role.Superadmin? && req.newRole.Some? && !req.newRole.value.Superadmin?)
                      || (u.active && req.newActive == Some(false))))
    ensures Answer(t, req) == Unprocessable ==>
              var u := t.users[req.id];
              && req.newPassword.None? && (req.newRole.None? || req.newRole.value == u.role)
              && (req.newActive.None? || req.newActive.value == u.active)
    ensures Answer(t, req) != Accepted ==> After(t, req) == t
  {
    hide Lower, Trim, Valid;
    if |ActiveSuperadmins(t.users)| <= 1 {
      AtMostOne(t);
    }
  }
}
