/** Space membership in porte/spaces: the role ladder, the guard, and what guarded changes of roles can do. */
module Spaces {
  import opened Wrappers

  type Role = string

  const MEMBER := "member"
  const ADMIN := "admin"
  const OWNER := "owner"

  datatype Error = NotMember | UnknownRole | Forbidden | SoleOwner | Broken

  datatype Result<T> = Ok(value: T) | Err(error: Error)

  datatype Membership = Row(space: string, user: string, role: Role)

  // Resolved where the guard made it; an empty space stands for what belongs to the user alone.
  datatype Scope = Scope(user: string, space: string, role: Role, resolved: bool)

  /******* The ladder *******/

  function Index(roles: seq<Role>, role: Role): (i: int)
    ensures -1 <= i < |roles| && (i >= 0 ==> roles[i] == role)
    ensures i >= 0 <==> role in roles
    ensures forall j :: 0 <= j < i ==> roles[j] != role
  {
    if roles == [] then -1
    else if roles[0] == role then 0
    else
      var i := Index(roles[1..], role);
      if i < 0 then -1 else i + 1
  }

  datatype Ladder = Ladder(ascending: seq<Role>, built: bool) {
    predicate Valid(role: Role) {
      role in ascending
    }

    // No relation on roles that are not ranked.
    predicate AtLeast(have: Role, min: Role) {
      var held, floor := Index(ascending, have), Index(ascending, min);
      held >= 0 && floor >= 0 && held >= floor
    }

    function Top(): Role {
      if ascending == [] then "" else ascending[|ascending| - 1]
    }
  }

  // Roles not empty, each at the place it first appears.
  function Ranked(roles: seq<Role>): seq<Role> {
    if roles == [] then []
    else
      var rest, last := Ranked(roles[..|roles| - 1]), roles[|roles| - 1];
      if last != "" && last !in rest then rest + [last] else rest
  }

  method NewLadder(ascending: seq<Role>) returns (l: Ladder)
    ensures l == Ladder(Ranked(ascending), true)
  {
    var order := [];
    for k := 0 to |ascending|
      invariant order == Ranked(ascending[..k])
    {
      assert ascending[..k + 1][..k] == ascending[..k];
      if ascending[k] != "" && ascending[k] !in order {
        order := order + [ascending[k]];
      }
    }
    assert ascending[..|ascending|] == ascending;
    l := Ladder(order, true);
  }

  ghost predicate Distinct(roles: seq<Role>) {
    forall i, j :: 0 <= i < j < |roles| ==> roles[i] != roles[j]
  }

  /** A built ladder ranks exactly the roles named, once each. */
  lemma {:induction false} RankedMeans(roles: seq<Role>)
    ensures Distinct(Ranked(roles)) && "" !in Ranked(roles)
    ensures forall r :: r in Ranked(roles) <==> r in roles && r != ""
  {
    if roles != [] {
      RankedMeans(roles[..|roles| - 1]);
      assert roles == roles[..|roles| - 1] + [roles[|roles| - 1]];
    }
  }

  /** And in the order they were first named. */
  lemma {:induction false} RankedOrder(roles: seq<Role>, r: Role, s: Role)
    requires r in Ranked(roles) && s in Ranked(roles)
    ensures Index(Ranked(roles), r) < Index(Ranked(roles), s) <==> Index(roles, r) < Index(roles, s)
  {
    var rest, last := roles[..|roles| - 1], roles[|roles| - 1];
    RankedMeans(roles);
    RankedMeans(rest);
    assert roles == rest + [last];
    IndexOfMore(rest, last);
    IndexOfMore(Ranked(rest), last);
    if r in rest && s in rest {
      RankedOrder(rest, r, s);
    }
  }

  lemma IndexOfMore(roles: seq<Role>, last: Role)
    ensures forall r :: r in roles ==> Index(roles + [last], r) == Index(roles, r)
    ensures last !in roles ==> Index(roles + [last], last) == |roles|
  {
    forall r | r in roles
      ensures Index(roles + [last], r) == Index(roles, r)
    {
      assert forall k :: 0 <= k < |roles| ==> (roles + [last])[k] == roles[k];
    }
  }

  /** On the roles it ranks, AtLeast is a total order with Top its greatest; it relates no other role. */
  lemma AtLeastIsTotal(l: Ladder, a: Role, b: Role, c: Role)
    ensures l.AtLeast(a, b) || l.AtLeast(b, a) <==> l.Valid(a) && l.Valid(b)
    ensures l.AtLeast(a, b) && l.AtLeast(b, a) ==> a == b
    ensures l.AtLeast(a, b) && l.AtLeast(b, c) ==> l.AtLeast(a, c)
    ensures Distinct(l.ascending) && l.Valid(a) ==> l.AtLeast(l.Top(), a)
  {
    if l.Valid(a) && Distinct(l.ascending) {
      assert l.Top() in l.ascending;
    }
  }

  /** And it is the order they are ranked in. */
  lemma AtLeastFollowsOrder(l: Ladder, i: nat, j: nat)
    requires Distinct(l.ascending) && i < |l.ascending| && j < |l.ascending|
    ensures l.AtLeast(l.ascending[j], l.ascending[i]) <==> i <= j
  {
    var a, b := Index(l.ascending, l.ascending[i]), Index(l.ascending, l.ascending[j]);
    assert l.ascending[a] == l.ascending[i] && l.ascending[b] == l.ascending[j];
  }

  /******* The guard *******/

  const DEFAULT := Ladder([MEMBER, ADMIN, OWNER], true)

  function LadderOf(configured: Ladder): Ladder {
    if configured.built then configured else DEFAULT
  }

  /** What Resolve makes of the store's answer: a row that does not carry both ids asked for is no membership. */
  function Vetted(l: Ladder, user: string, space: string, row: Result<Membership>): (r: Result<Scope>)
    ensures r.Ok? <==>
      row.Ok? && row.value.space == space && row.value.user == user && l.Valid(row.value.role)
    ensures r.Ok? ==> r.value == Scope(user, space, row.value.role, true)
  {
    if row.Err? then Err(row.error)
    else if row.value.space != space || row.value.user != user then Err(NotMember)
    else if !l.Valid(row.value.role) then Err(UnknownRole)
    else Ok(Scope(user, space, row.value.role, true))
  }

  // The check for somebody new to the space: the actor's rank is no lower than what is given.
  predicate AssignableBy(l: Ladder, actor: Scope, target: Role) {
    actor.resolved && actor.space != "" && l.AtLeast(actor.role, target)
  }

  // The check for a member: nor is it lower than what is taken away.
  predicate AssignableOver(l: Ladder, actor: Scope, current: Role, target: Role) {
    l.Valid(current) && AssignableBy(l, actor, current) && AssignableBy(l, actor, target)
  }

  /** Checking the grant alone is not enough: it passes on anyone, the top included. */
  lemma AssignableByIsNarrower(l: Ladder, actor: Scope, current: Role, target: Role)
    ensures AssignableOver(l, actor, current, target) <==>
      AssignableBy(l, actor, target) && l.AtLeast(actor.role, current)
    ensures !actor.resolved || actor.space == "" ==> !AssignableBy(l, actor, target)
    ensures actor.resolved && actor.space != "" ==> (AssignableBy(l, actor, target) <==> l.AtLeast(actor.role, target))
  {
  }

  /******* The store *******/

  function Find(rows: seq<Membership>, space: string, user: string): Option<Membership> {
    if rows == [] then None
    else if rows[0].space == space && rows[0].user == user then Some(rows[0])
    else Find(rows[1..], space, user)
  }

  function RoleOf(rows: seq<Membership>, space: string, user: string): Option<Role> {
    var m := Find(rows, space, user);
    if m.Some? then Some(m.value.role) else None
  }

  function Seeded(rows: seq<Membership>, m: Membership): seq<Membership> {
    if rows == [] then [m]
    else if rows[0].space == m.space && rows[0].user == m.user then [m] + rows[1..]
    else [rows[0]] + Seeded(rows[1..], m)
  }

  function Removed(rows: seq<Membership>, space: string, user: string): seq<Membership> {
    if rows == [] then []
    else if rows[0].space == space && rows[0].user == user then Removed(rows[1..], space, user)
    else [rows[0]] + Removed(rows[1..], space, user)
  }

  function Count(rows: seq<Membership>, space: string, role: Role): nat {
    if rows == [] then 0
    else (if rows[0].space == space && rows[0].role == role then 1 else 0) + Count(rows[1..], space, role)
  }

  ghost predicate Unique(rows: seq<Membership>) {
    forall i, j :: 0 <= i < j < |rows| ==> rows[i].space != rows[j].space || rows[i].user != rows[j].user
  }

  lemma {:induction false} FindMeans(rows: seq<Membership>, space: string, user: string)
    ensures Find(rows, space, user).None? <==> forall m :: m in rows ==> m.space != space || m.user != user
    ensures Find(rows, space, user).Some? ==>
      var m := Find(rows, space, user).value; m in rows && m.space == space && m.user == user
    ensures Unique(rows) ==>
      forall m :: m in rows && m.space == space && m.user == user ==> Find(rows, space, user) == Some(m)
  {
    if rows != [] {
      FindMeans(rows[1..], space, user);
      assert rows == [rows[0]] + rows[1..];
    }
  }

  lemma UniqueFirst(first: Membership, rest: seq<Membership>)
    ensures Unique([first] + rest) <==>
      Unique(rest) && forall k :: k in rest ==> k.space != first.space || k.user != first.user
  {
    if Unique([first] + rest) {
      UniqueRest(first, rest);
    } else {
      var rows := [first] + rest;
      var i, j :| 0 <= i < j < |rows| && rows[i].space == rows[j].space && rows[i].user == rows[j].user;
      assert rows[j] == rest[j - 1] && rest[j - 1] in rest;
      if i > 0 {
        assert rows[i] == rest[i - 1];
      }
    }
  }

  lemma UniqueRest(first: Membership, rest: seq<Membership>)
    requires Unique([first] + rest)
    ensures Unique(rest) && forall k :: k in rest ==> k.space != first.space || k.user != first.user
  {
    var rows := [first] + rest;
    forall i, j | 0 <= i < j < |rest|
      ensures rest[i].space != rest[j].space || rest[i].user != rest[j].user
    {
      assert rows[i + 1] == rest[i] && rows[j + 1] == rest[j];
    }
    forall k | k in rest
      ensures k.space != first.space || k.user != first.user
    {
      var j :| 0 <= j < |rest| && rest[j] == k;
      assert rows[0] == first && rows[j + 1] == k;
    }
  }

  lemma OneIsUnique(m: Membership)
    ensures Unique([m])
  {
  }

  // A member's row after another's was seeded or removed.
  function After(rows: seq<Membership>, m: Membership, row: Option<Membership>, space: string, user: string):
    Option<Membership>
  {
    if space == m.space && user == m.user then row else Find(rows, space, user)
  }

  lemma {:induction false} SeededMeans(rows: seq<Membership>, m: Membership)
    ensures forall s, u :: Find(Seeded(rows, m), s, u) == After(rows, m, Some(m), s, u)
    ensures forall k :: k in Seeded(rows, m) ==> k == m || k in rows
    ensures Unique(rows) ==> Unique(Seeded(rows, m))
  {
    hide Unique;
    if rows != [] {
      SeededMeans(rows[1..], m);
      assert rows == [rows[0]] + rows[1..];
      var rest := Seeded(rows[1..], m);
      assert ([rows[0]] + rest)[1..] == rest && ([m] + rows[1..])[1..] == rows[1..];
      UniqueFirst(rows[0], rows[1..]);
      UniqueFirst(rows[0], rest);
      UniqueFirst(m, rows[1..]);
    } else {
      assert Seeded(rows, m)[1..] == [];
      OneIsUnique(m);
    }
  }

  lemma {:induction false} SeededAt(rows: seq<Membership>, m: Membership, i: nat)
    requires i <= |rows| && forall j :: 0 <= j < i ==> rows[j].space != m.space || rows[j].user != m.user
    requires i < |rows| ==> rows[i].space == m.space && rows[i].user == m.user
    ensures Seeded(rows, m) == if i < |rows| then rows[i := m] else rows + [m]
  {
    if i > 0 {
      SeededAt(rows[1..], m, i - 1);
      assert rows == [rows[0]] + rows[1..];
    }
  }

  lemma {:induction false} RemovedMeans(rows: seq<Membership>, gone: Membership)
    ensures var left := Removed(rows, gone.space, gone.user);
      && (forall s, u :: Find(left, s, u) == After(rows, gone, None, s, u))
      && (forall k :: k in left ==> k in rows)
      && (Unique(rows) ==> Unique(left))
  {
    if rows != [] {
      RemovedMeans(rows[1..], gone);
      assert rows == [rows[0]] + rows[1..];
      var rest := Removed(rows[1..], gone.space, gone.user);
      assert ([rows[0]] + rest)[1..] == rest;
      UniqueFirst(rows[0], rows[1..]);
      UniqueFirst(rows[0], rest);
    }
  }

  lemma {:induction false} CountRemoved(rows: seq<Membership>, m: Membership)
    requires Unique(rows) && m in rows
    ensures Count(rows, m.space, m.role) == Count(Removed(rows, m.space, m.user), m.space, m.role) + 1
  {
    assert rows == [rows[0]] + rows[1..];
    UniqueFirst(rows[0], rows[1..]);
    if rows[0] == m {
      RemovedAbsent(rows[1..], m.space, m.user);
    } else {
      CountRemoved(rows[1..], m);
      var rest := Removed(rows[1..], m.space, m.user);
      assert ([rows[0]] + rest)[1..] == rest;
    }
  }

  lemma {:induction false} RemovedAbsent(rows: seq<Membership>, space: string, user: string)
    requires forall m :: m in rows ==> m.space != space || m.user != user
    ensures Removed(rows, space, user) == rows
  {
    if rows != [] {
      RemovedAbsent(rows[1..], space, user);
    }
  }

  /** A row counts for one where its space and role are those asked for, and rows count together. */
  lemma {:induction false} CountAdds(rows: seq<Membership>, next: seq<Membership>, m: Membership, space: string,
                                     role: Role)
    ensures Count([m], space, role) == if m.space == space && m.role == role then 1 else 0
    ensures Count(rows + next, space, role) == Count(rows, space, role) + Count(next, space, role)
  {
    assert [m][1..] == [];
    if rows == [] {
      assert rows + next == next;
    } else {
      assert (rows + next)[1..] == rows[1..] + next;
      CountAdds(rows[1..], next, m, space, role);
    }
  }

  lemma {:induction false} CountMeans(rows: seq<Membership>, space: string, role: Role)
    ensures Count(rows, space, role) > 0 <==> exists m :: m in rows && m.space == space && m.role == role
  {
    if rows != [] {
      CountMeans(rows[1..], space, role);
      assert rows == [rows[0]] + rows[1..];
      if Count(rows[1..], space, role) > 0 {
        var m :| m in rows[1..] && m.space == space && m.role == role;
        assert m in rows;
      } else if rows[0].space == space && rows[0].role == role {
        assert rows[0] in rows;
      }
    }
  }

  /** The in-memory store; everyone else's must answer like it. */
  class Memory {
    var rows: seq<Membership>

    ghost predicate Valid()
      reads this
    {
      Unique(rows)
    }

    constructor ()
      ensures Valid() && rows == []
    {
      rows := [];
    }

    method Seed(m: Membership)
      requires Valid()
      modifies this
      ensures Valid() && rows == Seeded(old(rows), m)
    {
      SeededMeans(rows, m);
      for i := 0 to |rows|
        invariant rows == old(rows)
        invariant forall j :: 0 <= j < i ==> rows[j].space != m.space || rows[j].user != m.user
      {
        if rows[i].space == m.space && rows[i].user == m.user {
          SeededAt(rows, m, i);
          rows := rows[i := m];
          return;
        }
      }
      SeededAt(rows, m, |rows|);
      rows := rows + [m];
    }

    method Membership(space: string, user: string) returns (m: Result<Membership>)
      ensures m == if Find(rows, space, user).Some? then Ok(Find(rows, space, user).value) else Err(NotMember)
    {
      for i := 0 to |rows|
        invariant Find(rows, space, user) == Find(rows[i..], space, user)
      {
        assert rows[i..][1..] == rows[i + 1..];
        if rows[i].space == space && rows[i].user == user {
          return Ok(rows[i]);
        }
      }
      m := Err(NotMember);
    }

    method Memberships(user: string) returns (list: seq<Membership>)
      ensures list == OfUser(rows, user)
    {
      list := [];
      for i := 0 to |rows|
        invariant list == OfUser(rows[..i], user)
      {
        assert rows[..i + 1][..i] == rows[..i];
        if rows[i].user == user {
          list := list + [rows[i]];
        }
      }
      assert rows[..|rows|] == rows;
    }

    method CountRole(space: string, role: Role) returns (count: nat)
      ensures count == Count(rows, space, role)
    {
      count := 0;
      for i := 0 to |rows|
        invariant Count(rows, space, role) == count + Count(rows[i..], space, role)
      {
        assert rows[i..][1..] == rows[i + 1..];
        if rows[i].space == space && rows[i].role == role {
          count := count + 1;
        }
      }
    }

    // An app deletes a member's row.
    method Remove(space: string, user: string)
      requires Valid()
      modifies this
      ensures Valid() && rows == Removed(old(rows), space, user)
    {
      RemovedMeans(rows, Row(space, user, ""));
      rows := Removed(rows, space, user);
    }
  }

  function OfUser(rows: seq<Membership>, user: string): seq<Membership> {
    if rows == [] then []
    else
      var rest, last := OfUser(rows[..|rows| - 1], user), rows[|rows| - 1];
      if last.user == user then rest + [last] else rest
  }

  /******* The guard's questions *******/

  // A resolved scope with a space is a membership in it; without one it is the user's own data.
  function Resolved(l: Ladder, rows: seq<Membership>, user: string, space: string): Result<Scope> {
    if user == "" then Err(NotMember)
    else if space == "" then Ok(Scope(user, "", "", true))
    else
      var m := Find(rows, space, user);
      Vetted(l, user, space, if m.Some? then Ok(m.value) else Err(NotMember))
  }

  function Leaving(l: Ladder, rows: seq<Membership>, user: string, space: string): Option<Error> {
    if space == "" then Some(NotMember)
    else
      var scope := Resolved(l, rows, user, space);
      if scope.Err? then Some(scope.error)
      else if scope.value.role == l.Top() && Count(rows, space, l.Top()) <= 1 then Some(SoleOwner)
      else None
  }

  /** Who is resolved: the user alone where no space is named, and else a ranked member. */
  lemma ResolvedExactly(l: Ladder, rows: seq<Membership>, user: string, space: string)
    ensures var role := RoleOf(rows, space, user);
      Resolved(l, rows, user, space) ==
        if user == "" then Err(NotMember)
        else if space == "" then Ok(Scope(user, "", "", true))
        else if role.None? then Err(NotMember)
        else if role.value in l.ascending then Ok(Scope(user, space, role.value, true)) else Err(UnknownRole)
  {
    FindMeans(rows, space, user);
  }

  /** Only the last member of the top rank may not leave: somebody who holds it in a space where nobody else does. */
  lemma LeavingMeans(l: Ladder, rows: seq<Membership>, user: string, space: string)
    requires Unique(rows)
    ensures Leaving(l, rows, user, space) == Some(SoleOwner) <==> SoleTop(l, rows, user, space)
    ensures Leaving(l, rows, user, space).None? <==>
      RankedMember(l, rows, user, space) && !SoleTop(l, rows, user, space)
    ensures Leaving(l, rows, user, space) == Some(UnknownRole) <==>
      user != "" && space != "" && RoleOf(rows, space, user).Some? && !RankedMember(l, rows, user, space)
    ensures Leaving(l, rows, user, space) == Some(NotMember) <==>
      user == "" || space == "" || RoleOf(rows, space, user).None?
  {
    FindMeans(rows, space, user);
    var held := Find(rows, space, user);
    if held.Some? && held.value.role == l.Top() {
      var m := held.value;
      var left := Removed(rows, space, user);
      CountRemoved(rows, m);
      CountMeans(left, space, l.Top());
      RemovedMeans(rows, m);
      FindMeans(left, space, user);
      forall k | k in rows && k.space == space && k.role == l.Top() && k.user != user
        ensures k in left
      {
        FindMeans(rows, space, k.user);
        FindMeans(left, space, k.user);
      }
    }
  }

  ghost predicate RankedMember(l: Ladder, rows: seq<Membership>, user: string, space: string) {
    user != "" && space != "" && RoleOf(rows, space, user).Some? && l.Valid(RoleOf(rows, space, user).value)
  }

  ghost predicate SoleTop(l: Ladder, rows: seq<Membership>, user: string, space: string) {
    && RankedMember(l, rows, user, space) && RoleOf(rows, space, user).value == l.Top()
    && forall m :: m in rows && m.space == space && m.role == l.Top() ==> m.user == user
  }

  predicate Shows(l: Ladder, user: string, m: Membership) {
    m.user == user && m.space != "" && l.Valid(m.role)
  }

  // The rows a user is shown of a list, in the list's order.
  function Shown(l: Ladder, user: string, rows: seq<Membership>): seq<Membership> {
    if rows == [] then []
    else
      var rest, last := Shown(l, user, rows[..|rows| - 1]), rows[|rows| - 1];
      if Shows(l, user, last) then rest + [last] else rest
  }

  /** Each row that shows, as often as it is listed, and no other. */
  lemma {:induction false} ShownMeans(l: Ladder, user: string, rows: seq<Membership>)
    ensures forall m ::
      multiset(Shown(l, user, rows))[m] ==
      if m.user == user && m.space != "" && m.role in l.ascending then multiset(rows)[m] else 0
  {
    if rows != [] {
      ShownMeans(l, user, rows[..|rows| - 1]);
      assert rows == rows[..|rows| - 1] + [rows[|rows| - 1]];
    }
  }

  /** What comes first in the list is shown first. */
  lemma {:induction false} ShownInOrder(l: Ladder, user: string, first: seq<Membership>, next: seq<Membership>)
    ensures Shown(l, user, first + next) == Shown(l, user, first) + Shown(l, user, next)
  {
    if next == [] {
      assert first + next == first;
    } else {
      assert (first + next)[..|first + next| - 1] == first + next[..|next| - 1];
      ShownInOrder(l, user, first, next[..|next| - 1]);
    }
  }

  /** The store's list is each row of the user, as often as it is stored. */
  lemma {:induction false} OfUserMeans(rows: seq<Membership>, user: string)
    ensures forall m :: multiset(OfUser(rows, user))[m] == if m.user == user then multiset(rows)[m] else 0
  {
    if rows != [] {
      OfUserMeans(rows[..|rows| - 1], user);
      assert rows == rows[..|rows| - 1] + [rows[|rows| - 1]];
    }
  }

  // Asking a store for the user's rows alone hides none of them.
  lemma {:induction false} ShownOfUser(l: Ladder, user: string, rows: seq<Membership>)
    ensures Shown(l, user, OfUser(rows, user)) == Shown(l, user, rows)
  {
    if rows != [] {
      var rest, last := rows[..|rows| - 1], rows[|rows| - 1];
      ShownOfUser(l, user, rest);
      if last.user == user {
        assert OfUser(rows, user)[..|OfUser(rows, user)| - 1] == OfUser(rest, user);
      }
    }
  }

  class Guard {
    const store: Memory
    const configured: Ladder

    constructor (over: Memory, ladder: Ladder)
      ensures store == over && configured == ladder
    {
      store, configured := over, ladder;
    }

    method Resolve(user: string, space: string) returns (r: Result<Scope>)
      ensures r == Resolved(LadderOf(configured), store.rows, user, space)
    {
      if user == "" {
        return Err(NotMember);
      }
      if space == "" {
        return Ok(Scope(user, "", "", true));
      }
      FindMeans(store.rows, space, user);
      var m := store.Membership(space, user);
      r := Vetted(LadderOf(configured), user, space, m);
    }

    /** A scope only for a member of a named space whose role ranks at least so high. */
    method Require(user: string, space: string, min: Role) returns (r: Result<Scope>)
      ensures var role := RoleOf(store.rows, space, user);
        && (r.Ok? <==>
              user != "" && space != "" && role.Some? && LadderOf(configured).AtLeast(role.value, min))
        && (r.Ok? ==> r.value == Scope(user, space, role.value, true))
      ensures r == Err(Forbidden) <==>
        && user != "" && space != "" && RoleOf(store.rows, space, user).Some?
        && LadderOf(configured).Valid(min) && LadderOf(configured).Valid(RoleOf(store.rows, space, user).value)
        && !LadderOf(configured).AtLeast(RoleOf(store.rows, space, user).value, min)
    {
      if !LadderOf(configured).Valid(min) {
        return Err(UnknownRole);
      }
      if space == "" {
        return Err(NotMember);
      }
      r := Resolve(user, space);
      FindMeans(store.rows, space, user);
      if r.Err? {
        return;
      }
      if !LadderOf(configured).AtLeast(r.value.role, min) {
        r := Err(Forbidden);
      }
    }

    /** Refuses those who are no ranked members, and the only one of the top rank; it lets every other member go. */
    method CanLeave(user: string, space: string) returns (err: Option<Error>)
      ensures err == Leaving(LadderOf(configured), store.rows, user, space)
      ensures store.Valid() ==> (err == Some(SoleOwner) <==> SoleTop(LadderOf(configured), store.rows, user, space))
      ensures store.Valid() && err.None? ==> RankedMember(LadderOf(configured), store.rows, user, space)
      ensures store.Valid() && RankedMember(LadderOf(configured), store.rows, user, space) ==>
        err.None? || err == Some(SoleOwner)
    {
      if Unique(store.rows) {
        LeavingMeans(LadderOf(configured), store.rows, user, space);
      }
      if space == "" {
        return Some(NotMember);
      }
      var scope := Resolve(user, space);
      if scope.Err? {
        return Some(scope.error);
      }
      if scope.value.role != LadderOf(configured).Top() {
        return None;
      }
      var owners := store.CountRole(space, LadderOf(configured).Top());
      err := if owners <= 1 then Some(SoleOwner) else None;
    }

    /** Of whatever list a store answers, the user's own ranked rows, each as often as listed, in its order. */
    method Kept(user: string, all: seq<Membership>) returns (kept: seq<Membership>)
      ensures kept == Shown(LadderOf(configured), user, all)
    {
      kept := [];
      for i := 0 to |all|
        invariant kept == Shown(LadderOf(configured), user, all[..i])
      {
        assert all[..i + 1][..i] == all[..i];
        if Shows(LadderOf(configured), user, all[i]) {
          kept := kept + [all[i]];
        }
      }
      assert all[..|all|] == all;
    }

    /** Exactly the user's ranked rows of the store. */
    method Spaces(user: string) returns (kept: Result<seq<Membership>>)
      ensures kept == if user == "" then Err(NotMember) else Ok(Shown(LadderOf(configured), user, store.rows))
    {
      if user == "" {
        return Err(NotMember);
      }
      var all := store.Memberships(user);
      ShownOfUser(LadderOf(configured), user, store.rows);
      var list := Kept(user, all);
      kept := Ok(list);
    }
  }
}
