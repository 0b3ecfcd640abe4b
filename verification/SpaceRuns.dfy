/** What every run of guarded role changes keeps, each change atomic with its check. */
module SpaceRuns {
  import opened Wrappers
  import opened Spaces

  // An invitation, a change on the member screen, a member leaving.
  datatype Op =
    | Add(actor: string, space: string, user: string, role: Role)
    | Change(actor: string, space: string, user: string, role: Role)
    | Leave(actor: string, space: string)

  function Step(l: Ladder, rows: seq<Membership>, op: Op): seq<Membership> {
    match op
    case Add(actor, space, user, role) =>
      var scope := Resolved(l, rows, actor, space);
      if scope.Ok? && AssignableBy(l, scope.value, role) && Find(rows, space, user).None?
      then Seeded(rows, Row(space, user, role))
      else rows
    case Change(actor, space, user, role) =>
      var scope, current := Resolved(l, rows, actor, space), RoleOf(rows, space, user);
      if scope.Ok? && current.Some? && AssignableOver(l, scope.value, current.value, role)
      then Seeded(rows, Row(space, user, role))
      else rows
    case Leave(actor, space) =>
      if Leaving(l, rows, actor, space).None? then Removed(rows, space, actor) else rows
  }

  function Run(l: Ladder, rows: seq<Membership>, ops: seq<Op>): seq<Membership>
    decreases |ops|
  {
    if ops == [] then rows else Run(l, Step(l, rows, ops[0]), ops[1..])
  }

  // An app that checks and changes under one lock.
  method Execute(guard: Guard, ops: seq<Op>)
    requires guard.store.Valid()
    modifies guard.store
    ensures guard.store.Valid()
    ensures guard.store.rows == Run(LadderOf(guard.configured), old(guard.store.rows), ops)
  {
    var l := LadderOf(guard.configured);
    ghost var start := guard.store.rows;
    assert ops[0..] == ops;
    for k := 0 to |ops|
      invariant guard.store.Valid()
      invariant Run(l, guard.store.rows, ops[k..]) == Run(l, start, ops)
    {
      assert ops[k..][0] == ops[k] && ops[k..][1..] == ops[k + 1..];
      Do(guard, ops[k]);
    }
  }

  method Do(guard: Guard, op: Op)
    requires guard.store.Valid()
    modifies guard.store
    ensures guard.store.Valid() && guard.store.rows == Step(LadderOf(guard.configured), old(guard.store.rows), op)
  {
    var l := LadderOf(guard.configured);
    match op
    case Add(actor, space, user, role) =>
      var scope := guard.Resolve(actor, space);
      var held := guard.store.Membership(space, user);
      if scope.Ok? && AssignableBy(l, scope.value, role) && held.Err? {
        guard.store.Seed(Row(space, user, role));
      }
    case Change(actor, space, user, role) =>
      var scope := guard.Resolve(actor, space);
      var held := guard.store.Membership(space, user);
      if scope.Ok? && held.Ok? && AssignableOver(l, scope.value, held.value.role, role) {
        guard.store.Seed(Row(space, user, role));
      }
    case Leave(actor, space) =>
      var refused := guard.CanLeave(actor, space);
      if refused.None? {
        guard.store.Remove(space, actor);
      }
  }

  // What the guard lets each operation do, on the memberships it starts from.
  ghost predicate Lets(l: Ladder, rows: seq<Membership>, op: Op) {
    && RankedMember(l, rows, op.actor, op.space)
    && var own := RoleOf(rows, op.space, op.actor).value;
       match op
       case Add(_, space, user, role) => RoleOf(rows, space, user).None? && l.AtLeast(own, role)
       case Change(_, space, user, role) =>
         RoleOf(rows, space, user).Some? && l.AtLeast(own, RoleOf(rows, space, user).value) && l.AtLeast(own, role)
       case Leave(_, _) => !SoleTop(l, rows, op.actor, op.space)
  }

  /**
   An operation changes one membership, exactly if the guard lets it: nobody gives or takes what ranks above themselves,
   an addition needs somebody new and a change a member, and the sole top member stays.
   */
  lemma StepExactly(l: Ladder, rows: seq<Membership>, op: Op, space: string, user: string)
    requires Unique(rows)
    ensures RoleOf(Step(l, rows, op), space, user) ==
      if !Lets(l, rows, op) || space != op.space || user != (if op.Leave? then op.actor else op.user) then
        RoleOf(rows, space, user)
      else if op.Leave? then None
      else Some(op.role)
  {
    hide Seeded, Removed, Find, Count, Unique;
    FindMeans(rows, op.space, op.actor);
    ResolvedExactly(l, rows, op.actor, op.space);
    if op.Leave? {
      LeavingMeans(l, rows, op.actor, op.space);
      RemovedMeans(rows, Row(op.space, op.actor, ""));
    } else {
      SeededMeans(rows, Row(op.space, op.user, op.role));
    }
  }

  /******* Nobody climbs *******/

  // A member's rank; -1 without a ranked membership.
  function Rank(l: Ladder, rows: seq<Membership>, space: string, user: string): int {
    var role := RoleOf(rows, space, user);
    if role.Some? then Index(l.ascending, role.value) else -1
  }

  // In this space, only members up to a rank act.
  predicate ActsUpTo(l: Ladder, rows: seq<Membership>, op: Op, space: string, rank: int) {
    op.space == space ==> Rank(l, rows, space, op.actor) <= rank
  }

  predicate AllActUpTo(l: Ladder, rows: seq<Membership>, ops: seq<Op>, space: string, rank: int)
    decreases |ops|
  {
    ops == [] ||
    (ActsUpTo(l, rows, ops[0], space, rank) && AllActUpTo(l, Step(l, rows, ops[0]), ops[1..], space, rank))
  }

  // The members above a rank are the same, with the same rows.
  ghost predicate SameAbove(l: Ladder, rows: seq<Membership>, rows': seq<Membership>, space: string, rank: int) {
    forall user ::
      (Rank(l, rows, space, user) > rank || Rank(l, rows', space, user) > rank) ==>
        Find(rows', space, user) == Find(rows, space, user)
  }

  lemma StepSameAbove(l: Ladder, rows: seq<Membership>, op: Op, space: string, rank: int)
    requires rank >= 0 && ActsUpTo(l, rows, op, space, rank)
    ensures SameAbove(l, rows, Step(l, rows, op), space, rank)
  {
    hide Seeded, Removed, Find, Count;
    match op
    case Add(actor, s, user, role) =>
      FindMeans(rows, s, actor);
      SeededMeans(rows, Row(s, user, role));
    case Change(actor, s, user, role) =>
      FindMeans(rows, s, actor);
      SeededMeans(rows, Row(s, user, role));
    case Leave(actor, s) =>
      RemovedMeans(rows, Row(s, actor, ""));
  }

  /**
   If nobody ranked above a role acts in a space, then whatever adds, changes and leaves are tried there, every
   member above it keeps their row and nobody else rises above it.
   */
  lemma {:induction false} NobodyClimbs(l: Ladder, rows: seq<Membership>, ops: seq<Op>, space: string, role: Role)
    requires l.Valid(role) && AllActUpTo(l, rows, ops, space, Index(l.ascending, role))
    ensures SameAbove(l, rows, Run(l, rows, ops), space, Index(l.ascending, role))
    decreases |ops|
  {
    if ops != [] {
      StepSameAbove(l, rows, ops[0], space, Index(l.ascending, role));
      hide Step, Rank, Find;
      NobodyClimbs(l, Step(l, rows, ops[0]), ops[1..], space, role);
    }
  }

  /******* A space keeps its top *******/

  ghost predicate HasTop(l: Ladder, rows: seq<Membership>, space: string) {
    exists user :: RoleOf(rows, space, user) == Some(l.Top())
  }

  // The only member of the top rank gives itself a lower one.
  ghost predicate StepsDown(l: Ladder, rows: seq<Membership>, op: Op, space: string) {
    && op.Change? && op.space == space && op.actor == op.user && SoleTop(l, rows, op.user, space)
    && l.Valid(op.role) && op.role != l.Top()
  }

  ghost predicate NobodyStepsDown(l: Ladder, rows: seq<Membership>, ops: seq<Op>, space: string)
    decreases |ops|
  {
    ops == [] || (!StepsDown(l, rows, ops[0], space) && NobodyStepsDown(l, Step(l, rows, ops[0]), ops[1..], space))
  }

  lemma TopRanksLast(l: Ladder, have: Role)
    requires Distinct(l.ascending) && l.AtLeast(have, l.Top())
    ensures have == l.Top()
  {
    AtLeastIsTotal(l, l.Top(), have, have);
  }

  lemma HoldsTop(l: Ladder, rows: seq<Membership>, space: string, user: string)
    requires RoleOf(rows, space, user) == Some(l.Top())
    ensures HasTop(l, rows, space)
  {
  }

  lemma ChangeKeepsTop(l: Ladder, rows: seq<Membership>, op: Op, space: string)
    requires Unique(rows) && Distinct(l.ascending) && HasTop(l, rows, space) && !op.Leave?
    requires !StepsDown(l, rows, op, space)
    ensures HasTop(l, Step(l, rows, op), space)
  {
    hide Seeded, Find, Unique, Distinct;
    var user :| RoleOf(rows, space, user) == Some(l.Top());
    FindMeans(rows, op.space, op.actor);
    SeededMeans(rows, Row(op.space, op.user, op.role));
    var next := Step(l, rows, op);
    if op.Change? && next != rows && op.space == space && op.user == user && op.role != l.Top() {
      TopRanksLast(l, RoleOf(rows, op.space, op.actor).value);
      if op.actor != user {
        HoldsTop(l, next, space, op.actor);
      } else {
        var m :| m in rows && m.space == space && m.role == l.Top() && m.user != user;
        FindMeans(rows, space, m.user);
        HoldsTop(l, next, space, m.user);
      }
    } else {
      HoldsTop(l, next, space, user);
    }
  }

  lemma StepsDownLosesTop(l: Ladder, rows: seq<Membership>, op: Op, space: string)
    requires Unique(rows) && Distinct(l.ascending) && StepsDown(l, rows, op, space)
    ensures !HasTop(l, Step(l, rows, op), space)
  {
    hide Seeded, Find, Unique, Distinct;
    FindMeans(rows, space, op.user);
    AtLeastIsTotal(l, op.role, op.role, op.role);
    AtLeastIsTotal(l, l.Top(), op.role, op.role);
    SeededMeans(rows, Row(space, op.user, op.role));
    var next := Step(l, rows, op);
    forall user
      ensures RoleOf(next, space, user) != Some(l.Top())
    {
      FindMeans(rows, space, user);
    }
  }

  lemma StepKeepsUnique(l: Ladder, rows: seq<Membership>, op: Op)
    requires Unique(rows)
    ensures Unique(Step(l, rows, op))
  {
    hide Unique, Seeded, Removed;
    if op.Leave? {
      RemovedMeans(rows, Row(op.space, op.actor, ""));
    } else {
      SeededMeans(rows, Row(op.space, op.user, op.role));
    }
  }

  // Nobody gives what nobody has.
  lemma NoTopComesBack(l: Ladder, rows: seq<Membership>, op: Op, space: string)
    requires Unique(rows) && Distinct(l.ascending) && !HasTop(l, rows, space)
    ensures !HasTop(l, Step(l, rows, op), space)
  {
    hide Seeded, Removed, Find, Unique, Distinct;
    var next := Step(l, rows, op);
    FindMeans(rows, op.space, op.actor);
    if op.Leave? {
      RemovedMeans(rows, Row(op.space, op.actor, ""));
    } else {
      SeededMeans(rows, Row(op.space, op.user, op.role));
      if next != rows && op.space == space && op.role == l.Top() {
        TopRanksLast(l, RoleOf(rows, op.space, op.actor).value);
        HoldsTop(l, rows, space, op.actor);
        assert false;
      }
    }
    forall user
      ensures RoleOf(next, space, user) != Some(l.Top())
    {
      assert RoleOf(rows, space, user) != Some(l.Top());
    }
  }

  lemma LeaveKeepsTop(l: Ladder, rows: seq<Membership>, op: Op, space: string)
    requires Unique(rows) && HasTop(l, rows, space) && op.Leave?
    ensures HasTop(l, Step(l, rows, op), space)
  {
    hide Removed, Find, Unique, Count;
    var user :| RoleOf(rows, space, user) == Some(l.Top());
    var gone := Row(op.space, op.actor, "");
    RemovedMeans(rows, gone);
    var left := Step(l, rows, op);
    if left != rows && op.space == space && op.actor == user {
      FindMeans(rows, space, user);
      CountRemoved(rows, Find(rows, space, user).value);
      CountMeans(left, space, l.Top());
      var m :| m in left && m.space == space && m.role == l.Top();
      FindMeans(left, space, m.user);
      assert RoleOf(left, space, m.user) == Some(l.Top());
    } else {
      assert RoleOf(left, space, user) == Some(l.Top());
    }
  }

  /** A space loses its last member of the top rank exactly when that member takes the rank from itself. */
  lemma TopIsLostExactly(l: Ladder, rows: seq<Membership>, op: Op, space: string)
    requires Unique(rows) && Distinct(l.ascending) && HasTop(l, rows, space)
    ensures !HasTop(l, Step(l, rows, op), space) <==> StepsDown(l, rows, op, space)
  {
    if StepsDown(l, rows, op, space) {
      StepsDownLosesTop(l, rows, op, space);
    } else if op.Leave? {
      LeaveKeepsTop(l, rows, op, space);
    } else {
      ChangeKeepsTop(l, rows, op, space);
    }
  }

  /** So over any run a space that has one at the start has one at the end if and only if no step is of that kind. */
  lemma {:induction false} TopIsKept(l: Ladder, rows: seq<Membership>, ops: seq<Op>, space: string)
    requires Unique(rows) && Distinct(l.ascending) && HasTop(l, rows, space)
    ensures HasTop(l, Run(l, rows, ops), space) <==> NobodyStepsDown(l, rows, ops, space)
    decreases |ops|
  {
    if ops != [] {
      var next := Step(l, rows, ops[0]);
      TopIsLostExactly(l, rows, ops[0], space);
      StepKeepsUnique(l, rows, ops[0]);
      hide Step, HasTop, Unique, Distinct, StepsDown;
      if HasTop(l, next, space) {
        TopIsKept(l, next, ops[1..], space);
      } else {
        NoTopInRun(l, next, ops[1..], space);
      }
    }
  }

  lemma {:induction false} NoTopInRun(l: Ladder, rows: seq<Membership>, ops: seq<Op>, space: string)
    requires Unique(rows) && Distinct(l.ascending) && !HasTop(l, rows, space)
    ensures !HasTop(l, Run(l, rows, ops), space)
    decreases |ops|
  {
    if ops != [] {
      NoTopComesBack(l, rows, ops[0], space);
      StepKeepsUnique(l, rows, ops[0]);
      hide Step, HasTop, Unique, Distinct;
      NoTopInRun(l, Step(l, rows, ops[0]), ops[1..], space);
    }
  }

  /** Nothing in the guard forbids that: the only member of the top rank may step down. */
  lemma LastTopMayStepDown(l: Ladder, space: string, user: string, role: Role)
    requires Distinct(l.ascending) && l.Valid(role) && role != l.Top() && space != "" && user != ""
    ensures var rows := [Row(space, user, l.Top())];
      HasTop(l, rows, space) && !HasTop(l, Step(l, rows, Change(user, space, user, role)), space)
  {
    var rows := [Row(space, user, l.Top())];
    assert RoleOf(rows, space, user) == Some(l.Top());
    AtLeastIsTotal(l, role, role, role);
    AtLeastIsTotal(l, l.Top(), l.Top(), role);
    OneRowCounts(rows[0]);
    OneRowCounts(Row(space, user, role));
    assert l.Top() in l.ascending;
    assert Step(l, rows, Change(user, space, user, role)) == [Row(space, user, role)];
  }

  lemma OneRowCounts(m: Membership)
    ensures Count([m], m.space, m.role) == 1
    ensures forall space, user :: Removed([m], space, user) == if m.space == space && m.user == user then [] else [m]
    ensures forall space, user :: Find([m], space, user) == if m.space == space && m.user == user then Some(m) else None
  {
    assert [m][1..] == [];
    forall space, user
      ensures Removed([m], space, user) == if m.space == space && m.user == user then [] else [m]
      ensures Find([m], space, user) == if m.space == space && m.user == user then Some(m) else None
    {
      assert Removed([m][1..], space, user) == [] && Find([m][1..], space, user) == None;
    }
  }

  /** So is the lock: two members of the top rank who both ask before either leaves are both let go. */
  lemma ChecksApartLoseBoth(l: Ladder, space: string, one: string, other: string)
    requires l.ascending != [] && space != "" && one != "" && other != "" && one != other
    ensures var rows := [Row(space, one, l.Top()), Row(space, other, l.Top())];
      && Leaving(l, rows, one, space).None? && Leaving(l, rows, other, space).None?
      && Removed(Removed(rows, space, one), space, other) == []
      && Run(l, rows, [Leave(one, space), Leave(other, space)]) == [Row(space, other, l.Top())]
  {
    var a, b := Row(space, one, l.Top()), Row(space, other, l.Top());
    var rows := [a, b];
    assert rows[1..] == [b];
    OneRowCounts(b);
    assert l.Top() in l.ascending;
    assert Count(rows, space, l.Top()) == 2 && Removed(rows, space, one) == [b];
    assert Find(rows, space, one) == Some(a) && Find(rows, space, other) == Some(b);
    var ops := [Leave(one, space), Leave(other, space)];
    assert ops[1..] == [Leave(other, space)] && ops[1..][1..] == [];
    assert Step(l, rows, ops[0]) == [b];
    assert Leaving(l, [b], other, space) == Some(SoleOwner);
    assert Run(l, [b], ops[1..]) == [b];
  }
}
