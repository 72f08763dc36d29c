/** Refresh sessions: logging in, exchanging a refresh token for its successor, logging
    out. Each operation is one database transaction; claims are about every sequence of
    them, by any number of users, including transactions that roll back and
    transactions that commit while the caller sees an error. */
module Sessions {
  import opened Prelude

  datatype Row = Row(id: string, user: string, hash: string, expiresAt: int, revoked: bool, rotatedTo: Option<string>)

  /** The session table, in the order rows were inserted. */
  type Table = seq<Row>

  datatype Result = Issued(id: string) | NoSession | Reused | Expired | Failed | Done

  datatype Op =
    | Login(user: string, known: bool, id: string, raw: string, expiresAt: int, delivery: Delivery)
    | Rotate(raw: string, now: int, id: string, next: string, expiresAt: int, delivery: Delivery)
    | Revoke(raw: string, delivery: Delivery)

  /** How raw tokens are hashed; nothing below needs it to be free of collisions. */
  type Hashing = string -> string

  // ----- the statements -----

  /** The row with this hash, or the number of rows. */
  function Find(t: Table, hash: string): (i: nat)
    ensures i <= |t| && (i < |t| ==> t[i].hash == hash)
    ensures forall j :: 0 <= j < i ==> t[j].hash != hash
  {
    if t == [] || t[0].hash == hash then 0 else 1 + Find(t[1..], hash)
  }

  /** A primary key or a unique hash is already taken. */
  predicate Conflicts(t: Table, id: string, hash: string) {
    exists i :: 0 <= i < |t| && (t[i].id == id || t[i].hash == hash)
  }

  function RevokeUser(t: Table, user: string): (r: Table)
    ensures |r| == |t|
    ensures forall i :: 0 <= i < |t| ==> r[i] == if t[i].user == user then t[i].(revoked := true) else t[i]
  {
    if t == [] then [] else [if t[0].user == user then t[0].(revoked := true) else t[0]] + RevokeUser(t[1..], user)
  }

  // ----- the transactions -----

  /** What a transaction does when it commits, and what it answers. */
  function Apply(h: Hashing, t: Table, op: Op): (Table, Result) {
    match op
    case Login(user, known, id, raw, expiresAt, _) =>
      if !known || Conflicts(t, id, h(raw)) then (t, Failed)
      else (t + [Row(id, user, h(raw), expiresAt, false, None)], Issued(id))
    case Rotate(raw, now, id, next, expiresAt, _) =>
      var i := Find(t, h(raw));
      if i == |t| then (t, NoSession)
      else if t[i].revoked || t[i].rotatedTo.Some? then (RevokeUser(t, t[i].user), Reused)
      else if t[i].expiresAt < now then (t, Expired)
      else if Conflicts(t, id, h(next)) then (t, Failed)
      else (t[i := t[i].(revoked := true, rotatedTo := Some(id))] + [Row(id, t[i].user, h(next), expiresAt, false, None)],
            Issued(id))
    case Revoke(raw, _) =>
      var i := Find(t, h(raw));
      (if i < |t| then t[i := t[i].(revoked := true)] else t, Done)
  }

  function Step(h: Hashing, t: Table, op: Op): (Table, Result) {
    var (after, result) := Apply(h, t, op);
    match op.delivery
    case Delivered => (after, result)
    case Lost => (t, Failed)
    case AppliedButErrored => (after, Failed)
  }

  function Run(h: Hashing, ops: seq<Op>): Table {
    if ops == [] then [] else Step(h, Run(h, ops[..|ops| - 1]), ops[|ops| - 1]).0
  }

  /** What the n-th operation answered. */
  function Answer(h: Hashing, ops: seq<Op>, n: nat): Result
    requires n < |ops|
  {
    Step(h, Run(h, ops[..n]), ops[n]).1
  }

  /** What the n-th operation did, or would have done had it not been lost. */
  function Outcome(h: Hashing, ops: seq<Op>, n: nat): Result
    requires n < |ops|
  {
    Apply(h, Run(h, ops[..n]), ops[n]).1
  }

  // ----- what every table satisfies -----

  ghost predicate Unique(t: Table) {
    && (forall i, j :: 0 <= i < j < |t| ==> t[i].id != t[j].id)
    && forall i, j :: 0 <= i < j < |t| ==> t[i].hash != t[j].hash
  }

  /** Session j replaced session i. */
  ghost predicate Replaced(t: Table, i: int, j: int)
    requires 0 <= i < |t| && 0 <= j < |t|
  {
    t[i].rotatedTo == Some(t[j].id)
  }

  /** A rotated session is revoked, and its successor is a later session of the same user. */
  ghost predicate Rotated(t: Table, i: int)
    requires 0 <= i < |t|
  {
    t[i].rotatedTo.Some? ==> t[i].revoked && exists j :: i < j < |t| && Replaced(t, i, j) && t[j].user == t[i].user
  }

  ghost predicate AtMostOnePredecessor(t: Table) {
    forall i, j, k :: 0 <= i < |t| && 0 <= j < |t| && 0 <= k < |t| && Replaced(t, i, k) && Replaced(t, j, k) ==> i == j
  }

  ghost predicate Chained(t: Table) {
    && Unique(t)
    && (forall i :: 0 <= i < |t| ==> Rotated(t, i))
    && AtMostOnePredecessor(t)
  }

  lemma AppendChained(t: Table, row: Row)
    requires Chained(t) && !Conflicts(t, row.id, row.hash) && row.rotatedTo.None?
    ensures Chained(t + [row])
  {
    var r := t + [row];
    assert forall i :: 0 <= i < |t| ==> r[i] == t[i];
    forall i | 0 <= i < |r| ensures Rotated(r, i) {
      if i < |t| && t[i].rotatedTo.Some? {
        assert Rotated(t, i);
        var j :| i < j < |t| && Replaced(t, i, j) && t[j].user == t[i].user;
        assert Replaced(r, i, j);
      }
    }
    forall i, j, k | 0 <= i < |r| && 0 <= j < |r| && 0 <= k < |r| && Replaced(r, i, k) && Replaced(r, j, k) ensures i == j {
      assert Rotated(t, i) && Rotated(t, j);
      assert k < |t|;
      assert Replaced(t, i, k) && Replaced(t, j, k);
    }
  }

  /** Only marks rows revoked. */
  ghost predicate OnlyRevokes(t: Table, r: Table) {
    |r| == |t| && forall i :: 0 <= i < |t| ==> r[i] == t[i] || r[i] == t[i].(revoked := true)
  }

  lemma RevokingKeepsChained(t: Table, r: Table)
    requires Chained(t) && OnlyRevokes(t, r)
    ensures Chained(r)
  {
    forall i | 0 <= i < |r| ensures Rotated(r, i) {
      assert Rotated(t, i);
      if t[i].rotatedTo.Some? {
        var j :| i < j < |t| && Replaced(t, i, j) && t[j].user == t[i].user;
        assert Replaced(r, i, j);
      }
    }
    forall i, j, k | 0 <= i < |r| && 0 <= j < |r| && 0 <= k < |r| && Replaced(r, i, k) && Replaced(r, j, k) ensures i == j {
      assert Replaced(t, i, k) && Replaced(t, j, k);
    }
  }

  /** Linking a row to the newest one, which nothing links to yet. */
  lemma LinkingKeepsChained(t: Table, i: nat, last: nat)
    requires Chained(t) && i < last == |t| - 1 && t[i].rotatedTo.None? && t[last].user == t[i].user
    requires forall j :: 0 <= j < |t| ==> !Replaced(t, j, last)
    ensures Chained(t[i := t[i].(revoked := true, rotatedTo := Some(t[last].id))])
  {
    var r := t[i := t[i].(revoked := true, rotatedTo := Some(t[last].id))];
    assert Replaced(r, i, last);
    forall k | 0 <= k < |r| ensures Rotated(r, k) {
      assert Rotated(t, k);
      if k != i && t[k].rotatedTo.Some? {
        var j :| k < j < |t| && Replaced(t, k, j) && t[j].user == t[k].user;
        assert Replaced(r, k, j);
      }
    }
    forall p, q, k | 0 <= p < |r| && 0 <= q < |r| && 0 <= k < |r| && Replaced(r, p, k) && Replaced(r, q, k) ensures p == q {
      assert k != last ==> Replaced(t, p, k) && Replaced(t, q, k);
      assert k == last ==> !Replaced(t, p, last) && !Replaced(t, q, last);
    }
  }

  lemma NothingLinksToANewId(t: Table, row: Row)
    requires Chained(t) && !Conflicts(t, row.id, row.hash) && row.rotatedTo.None?
    ensures forall j :: 0 <= j <= |t| ==> !Replaced(t + [row], j, |t|)
  {
    var r := t + [row];
    forall j | 0 <= j <= |t| ensures !Replaced(r, j, |t|) {
      if j < |t| { assert Rotated(t, j); }
    }
  }

  lemma RotatingKeepsChained(t: Table, i: nat, row: Row)
    requires Chained(t) && !Conflicts(t, row.id, row.hash) && row.rotatedTo.None?
    requires i < |t| && t[i].rotatedTo.None? && row.user == t[i].user
    ensures Chained(t[i := t[i].(revoked := true, rotatedTo := Some(row.id))] + [row])
  {
    AppendChained(t, row);
    NothingLinksToANewId(t, row);
    LinkingKeepsChained(t + [row], i, |t|);
    assert t[i := t[i].(revoked := true, rotatedTo := Some(row.id))] + [row]
           == (t + [row])[i := t[i].(revoked := true, rotatedTo := Some(row.id))];
  }

  lemma RotateKeepsChained(h: Hashing, t: Table, op: Op)
    requires Chained(t) && op.Rotate?
    ensures Chained(Apply(h, t, op).0)
  {
    var i := Find(t, h(op.raw));
    if i < |t| {
      if t[i].revoked || t[i].rotatedTo.Some? {
        RevokingKeepsChained(t, RevokeUser(t, t[i].user));
      } else if op.now <= t[i].expiresAt && !Conflicts(t, op.id, h(op.next)) {
        RotatingKeepsChained(t, i, Row(op.id, t[i].user, h(op.next), op.expiresAt, false, None));
      }
    }
  }

  lemma StepKeepsChained(h: Hashing, t: Table, op: Op)
    requires Chained(t)
    ensures Chained(Step(h, t, op).0)
  {
    match op {
      case Login(user, known, id, raw, expiresAt, _) =>
        if known && !Conflicts(t, id, h(raw)) { AppendChained(t, Row(id, user, h(raw), expiresAt, false, None)); }
      case Rotate(_, _, _, _, _, _) => RotateKeepsChained(h, t, op);
      case Revoke(raw, _) =>
        RevokingKeepsChained(t, Apply(h, t, op).0);
    }
  }

  /** In every reachable table identifiers and hashes are unique, a rotated session is
      revoked and has one later successor of the same user, and no session is the
      successor of two. */
  lemma {:induction false} RunIsChained(h: Hashing, ops: seq<Op>)
    ensures Chained(Run(h, ops))
  {
    if ops != [] {
      RunIsChained(h, ops[..|ops| - 1]);
      StepKeepsChained(h, Run(h, ops[..|ops| - 1]), ops[|ops| - 1]);
    }
  }

  // ----- a token is exchanged at most once, ever -----

  /** The session with this hash has been rotated, revoked or swept up by a replay. */
  ghost predicate Spent(t: Table, hash: string) {
    exists i :: 0 <= i < |t| && t[i].hash == hash && t[i].revoked
  }

  lemma StepKeepsSpent(h: Hashing, t: Table, op: Op, hash: string)
    requires Spent(t, hash)
    ensures Spent(Step(h, t, op).0, hash)
  {
    var r := Step(h, t, op).0;
    var i :| 0 <= i < |t| && t[i].hash == hash && t[i].revoked;
    assert i < |r| && r[i].hash == hash && r[i].revoked;
  }

  lemma {:induction false} RunKeepsSpent(h: Hashing, ops: seq<Op>, n: nat, hash: string)
    requires n <= |ops| && Spent(Run(h, ops[..n]), hash)
    ensures Spent(Run(h, ops), hash)
  {
    if n == |ops| {
      assert ops[..n] == ops;
    } else {
      var before := ops[..|ops| - 1];
      assert before[..n] == ops[..n];
      RunKeepsSpent(h, before, n, hash);
      StepKeepsSpent(h, Run(h, before), ops[|ops| - 1], hash);
    }
  }

  lemma SpentIsFound(t: Table, hash: string)
    requires Unique(t) && Spent(t, hash)
    ensures var i := Find(t, hash); i < |t| && t[i].revoked
  {
  }

  lemma ExchangeSpends(h: Hashing, t: Table, op: Op)
    requires op.Rotate? && !op.delivery.Lost? && Apply(h, t, op).1.Issued?
    ensures Spent(Step(h, t, op).0, h(op.raw))
  {
    var i := Find(t, h(op.raw));
    assert Step(h, t, op).0[i].revoked;
  }

  lemma AnswerToASpentToken(h: Hashing, ops: seq<Op>, i: nat, j: nat)
    requires i <= j < |ops| && ops[j].Rotate? && Spent(Run(h, ops[..i]), h(ops[j].raw))
    ensures Outcome(h, ops, j) == Reused
    ensures Answer(h, ops, j) == if ops[j].delivery.Delivered? then Reused else Failed
  {
    var before := ops[..j];
    assert before[..i] == ops[..i];
    RunKeepsSpent(h, before, i, h(ops[j].raw));
    RunIsChained(h, before);
    SpentIsFound(Run(h, before), h(ops[j].raw));
  }

  lemma RunOfPrefix(h: Hashing, ops: seq<Op>, i: nat)
    requires i < |ops|
    ensures Run(h, ops[..i + 1]) == Step(h, Run(h, ops[..i]), ops[i]).0
  {
    assert ops[..i + 1][..i] == ops[..i];
  }

  /** Once a token has been exchanged, whether or not its holder was told, no later attempt
      exchanges it: each is a replay, and is answered as one unless its answer is lost. */
  lemma ExchangedAtMostOnce(h: Hashing, ops: seq<Op>, i: nat, j: nat)
    requires i < j < |ops| && ops[i].Rotate? && ops[j].Rotate? && ops[i].raw == ops[j].raw
    requires !ops[i].delivery.Lost? && Outcome(h, ops, i).Issued?
    ensures Outcome(h, ops, j) == Reused
    ensures Answer(h, ops, j) == if ops[j].delivery.Delivered? then Reused else Failed
  {
    ExchangeSpends(h, Run(h, ops[..i]), ops[i]);
    RunOfPrefix(h, ops, i);
    AnswerToASpentToken(h, ops, i + 1, j);
  }

  /** A session is issued for a presented token exactly when a live one with its hash
      exists and the new identifier and hash are free; the user does not change. */
  lemma ExchangeNeedsALiveSession(h: Hashing, t: Table, op: Op)
    requires Chained(t) && op.Rotate?
    ensures Step(h, t, op).1.Issued? <==>
              && op.delivery.Delivered? && !Conflicts(t, op.id, h(op.next))
              && exists i :: 0 <= i < |t| && t[i].hash == h(op.raw) && !t[i].revoked && op.now <= t[i].expiresAt
    ensures Step(h, t, op).1.Issued? ==>
              var r := Step(h, t, op).0;
              && |r| == |t| + 1 && r[|t|].user == t[Find(t, h(op.raw))].user && !r[|t|].revoked
              && Replaced(r, Find(t, h(op.raw)), |t|)
  {
    var i := Find(t, h(op.raw));
    if i < |t| { assert Rotated(t, i); }
    assert forall k :: 0 <= k < |t| && t[k].hash == h(op.raw) ==> k == i;
  }

  // ----- a replay ends everything the user had -----

  ghost predicate NoneLive(t: Table, user: string) {
    forall i :: 0 <= i < |t| && t[i].user == user ==> t[i].revoked
  }

  /** Presenting a spent token leaves its user without a live session, whatever the
      caller is told, and touches nobody else. */
  lemma ReplayRevokesTheUser(h: Hashing, t: Table, op: Op)
    requires Unique(t) && op.Rotate? && Spent(t, h(op.raw)) && !op.delivery.Lost?
    ensures var user := t[Find(t, h(op.raw))].user;
            var r := Step(h, t, op).0;
            && NoneLive(r, user) && |r| == |t|
            && forall i :: 0 <= i < |t| && t[i].user != user ==> r[i] == t[i]
  {
  }

  /** After a replay, whether or not anyone was told, no token the user had been given can be
      exchanged again. */
  lemma ReplayEndsEverySession(h: Hashing, ops: seq<Op>, i: nat, j: nat, k: nat)
    requires i < j < |ops| && ops[i].Rotate? && ops[j].Rotate?
    requires !ops[i].delivery.Lost? && Outcome(h, ops, i) == Reused
    requires var t := Run(h, ops[..i]);
             var f := Find(t, h(ops[i].raw));
             f < |t| && k < |t| && t[k].user == t[f].user && t[k].hash == h(ops[j].raw)
    ensures Outcome(h, ops, j) == Reused
    ensures Answer(h, ops, j) == if ops[j].delivery.Delivered? then Reused else Failed
  {
    RunOfPrefix(h, ops, i);
    assert Spent(Run(h, ops[..i + 1]), h(ops[j].raw)) by {
      assert Run(h, ops[..i + 1])[k].revoked;
    }
    AnswerToASpentToken(h, ops, i + 1, j);
  }

  // ----- what each transaction does -----

  /** Each answer to a presented token, exactly when it is due. */
  lemma RotateOutcomes(h: Hashing, t: Table, op: Op)
    requires Chained(t) && op.Rotate?
    ensures var result, hash := Apply(h, t, op).1, h(op.raw);
            && (result == NoSession <==> forall i :: 0 <= i < |t| ==> t[i].hash != hash)
            && (result == Reused <==> Spent(t, hash))
            && (result == Expired <==>
                  exists i :: 0 <= i < |t| && t[i].hash == hash && !t[i].revoked && t[i].expiresAt < op.now)
            && (result == Issued(op.id) <==>
                  !Conflicts(t, op.id, h(op.next))
                  && exists i :: 0 <= i < |t| && t[i].hash == hash && !t[i].revoked && op.now <= t[i].expiresAt)
            && (result.Issued? ==> result.id == op.id)
  {
    var i := Find(t, h(op.raw));
    if i < |t| { assert Rotated(t, i); }
    assert forall k :: 0 <= k < |t| && t[k].hash == h(op.raw) ==> k == i;
  }

  /** A login is issued if and only if the user is known and nothing conflicts. */
  lemma LoginIff(h: Hashing, t: Table, op: Op)
    requires op.Login?
    ensures var (r, result) := Apply(h, t, op);
            && (result.Issued? <==> op.known && !Conflicts(t, op.id, h(op.raw)))
            && (result.Issued? ==>
                  result.id == op.id && r == t + [Row(op.id, op.user, h(op.raw), op.expiresAt, false, None)])
            && (!result.Issued? ==> r == t)
  {
  }

  function TokenOf(op: Op): string
    requires op.Login? || op.Rotate?
  {
    if op.Login? then op.raw else op.next
  }

  /** A token that has just been handed out, by a login or an exchange, can be exchanged for as
      long as it has not expired, under any free names. */
  lemma NewTokenWorks(h: Hashing, t: Table, op: Op, next: Op)
    requires Chained(t) && (op.Login? || op.Rotate?) && Apply(h, t, op).1.Issued?
    requires next.Rotate? && h(next.raw) == h(TokenOf(op)) && !Conflicts(Apply(h, t, op).0, next.id, h(next.next))
    ensures Apply(h, Apply(h, t, op).0, next).1 == if next.now <= op.expiresAt then Issued(next.id) else Expired
  {
    var r := Apply(h, t, op).0;
    assert r[|t|].hash == h(next.raw) && !r[|t|].revoked && r[|t|].rotatedTo.None? && r[|t|].expiresAt == op.expiresAt;
    assert forall i :: 0 <= i < |t| ==> r[i].hash == t[i].hash;
    assert Find(r, h(next.raw)) == |t|;
  }

  lemma OneRowPerHash(t: Table, k: nat)
    requires Unique(t) && k < |t|
    ensures Find(t, t[k].hash) == k
  {
  }

  /** The transaction revokes a session that has not been revoked before it. */
  predicate Ends(h: Hashing, t: Table, op: Op, row: Row) {
    || (op.Revoke? && h(op.raw) == row.hash)
    || (op.Rotate? && Apply(h, t, op).1.Issued? && h(op.raw) == row.hash)
    || (op.Rotate? && Apply(h, t, op).1 == Reused && t[Find(t, h(op.raw))].user == row.user)
  }

  /** Exactly which transactions end a live session: its own logout, its own exchange, and any
      replay of a token of the same user. Nothing else about a session ever changes, but for
      the link to its successor. */
  lemma RevokedExactlyBy(h: Hashing, t: Table, op: Op, k: nat)
    requires Chained(t) && k < |t| && !t[k].revoked
    ensures var r := Apply(h, t, op).0;
            k < |r| && t[k] == r[k].(revoked := false, rotatedTo := t[k].rotatedTo) && (r[k].revoked <==> Ends(h, t, op, t[k]))
  {
    OneRowPerHash(t, k);
    match op {
      case Login(_, _, _, _, _, _) =>
      case Rotate(_, _, _, _, _, _) => RotateEnds(h, t, op, k);
      case Revoke(_, _) =>
    }
  }

  lemma RotateEnds(h: Hashing, t: Table, op: Op, k: nat)
    requires Unique(t) && op.Rotate? && k < |t| && !t[k].revoked && Find(t, t[k].hash) == k
    ensures var r := Apply(h, t, op).0;
            k < |r| && t[k] == r[k].(revoked := false, rotatedTo := t[k].rotatedTo) && (r[k].revoked <==> Ends(h, t, op, t[k]))
  {
    var i := Find(t, h(op.raw));
    if i < |t| {
      if t[i].revoked || t[i].rotatedTo.Some? {
        assert Apply(h, t, op) == (RevokeUser(t, t[i].user), Reused);
      } else if op.now <= t[i].expiresAt && !Conflicts(t, op.id, h(op.next)) {
        assert t[k].hash == h(op.raw) <==> k == i;
        assert Apply(h, t, op).0[k] == if k == i then t[k].(revoked := true, rotatedTo := Some(op.id)) else t[k];
      }
    }
  }

  /** The n-th operation took effect and ended this session. */
  predicate EndedBy(h: Hashing, ops: seq<Op>, n: nat, row: Row)
    requires n < |ops|
  {
    !ops[n].delivery.Lost? && Ends(h, Run(h, ops[..n]), ops[n], row)
  }

  /** A live session stays as it is for as long as nothing ends it. */
  lemma {:induction false} LiveUntilEnded(h: Hashing, ops: seq<Op>, i: nat, j: nat, k: nat)
    requires i <= j <= |ops| && k < |Run(h, ops[..i])| && !Run(h, ops[..i])[k].revoked
    requires forall n :: i <= n < j ==> !EndedBy(h, ops, n, Run(h, ops[..i])[k])
    ensures k < |Run(h, ops[..j])| && Run(h, ops[..j])[k] == Run(h, ops[..i])[k]
    decreases j
  {
    if i < j {
      LiveUntilEnded(h, ops, i, j - 1, k);
      RunOfPrefix(h, ops, j - 1);
      var t, op := Run(h, ops[..j - 1]), ops[j - 1];
      assert !EndedBy(h, ops, j - 1, t[k]);
      RunIsChained(h, ops[..j - 1]);
      RevokedExactlyBy(h, t, op, k);
      OnlyExchangesLink(h, t, op, k);
    }
  }

  lemma OnlyExchangesLink(h: Hashing, t: Table, op: Op, k: nat)
    requires k < |t|
    ensures var r := Apply(h, t, op).0;
            k < |r| && (r[k].rotatedTo != t[k].rotatedTo ==> op.Rotate? && Apply(h, t, op).1.Issued? && t[k].hash == h(op.raw))
  {
  }

  /** Every token handed out, by a login or an exchange, works until something ends its session:
      presented with free names for its successor, it is exchanged exactly until it expires. */
  lemma TokenWorksUntilEnded(h: Hashing, ops: seq<Op>, i: nat, j: nat)
    requires i < j < |ops| && (ops[i].Login? || ops[i].Rotate?) && ops[j].Rotate?
    requires !ops[i].delivery.Lost? && Outcome(h, ops, i).Issued? && h(ops[j].raw) == h(TokenOf(ops[i]))
    requires !Conflicts(Run(h, ops[..j]), ops[j].id, h(ops[j].next))
    requires var k := |Run(h, ops[..i])|; var t := Run(h, ops[..i + 1]);
             k < |t| ==> forall n :: i < n < j ==> !EndedBy(h, ops, n, t[k])
    ensures Outcome(h, ops, j) == if ops[j].now <= ops[i].expiresAt then Issued(ops[j].id) else Expired
  {
    var k := |Run(h, ops[..i])|;
    RunOfPrefix(h, ops, i);
    NewRow(h, Run(h, ops[..i]), ops[i]);
    LiveUntilEnded(h, ops, i + 1, j, k);
    RunIsChained(h, ops[..j]);
    LiveRowAnswers(h, Run(h, ops[..j]), ops[j], k);
  }

  lemma NewRow(h: Hashing, t: Table, op: Op)
    requires (op.Login? || op.Rotate?) && !op.delivery.Lost? && Apply(h, t, op).1.Issued?
    ensures var r := Step(h, t, op).0;
            && |r| == |t| + 1 && r[|t|].hash == h(TokenOf(op)) && r[|t|].expiresAt == op.expiresAt
            && !r[|t|].revoked && r[|t|].rotatedTo.None?
  {
  }

  lemma LiveRowAnswers(h: Hashing, t: Table, op: Op, k: nat)
    requires Unique(t) && k < |t| && !t[k].revoked && t[k].rotatedTo.None?
    requires op.Rotate? && h(op.raw) == t[k].hash && !Conflicts(t, op.id, h(op.next))
    ensures Apply(h, t, op).1 == if op.now <= t[k].expiresAt then Issued(op.id) else Expired
  {
    OneRowPerHash(t, k);
  }

  /** A logout spends its token and leaves every other session as it was. */
  lemma LogoutSpends(h: Hashing, t: Table, op: Op)
    requires Unique(t) && op.Revoke? && !op.delivery.Lost?
    ensures var r := Step(h, t, op).0;
            && |r| == |t| && (Find(t, h(op.raw)) < |t| ==> Spent(r, h(op.raw)))
            && forall i :: 0 <= i < |t| ==> r[i] == if t[i].hash == h(op.raw) then t[i].(revoked := true) else t[i]
  {
    var i, r := Find(t, h(op.raw)), Step(h, t, op).0;
    assert forall k :: 0 <= k < |t| && t[k].hash == h(op.raw) ==> k == i;
    if i < |t| { assert r[i].hash == h(op.raw) && r[i].revoked; }
  }

  /** Once logged out, a token is never exchanged again. */
  lemma LoggedOutForGood(h: Hashing, ops: seq<Op>, i: nat, j: nat)
    requires i < j < |ops| && ops[i].Revoke? && !ops[i].delivery.Lost? && ops[j].Rotate? && ops[i].raw == ops[j].raw
    requires var t := Run(h, ops[..i]); Find(t, h(ops[i].raw)) < |t|
    ensures Outcome(h, ops, j) == Reused
    ensures Answer(h, ops, j) == if ops[j].delivery.Delivered? then Reused else Failed
  {
    RunIsChained(h, ops[..i]);
    LogoutSpends(h, Run(h, ops[..i]), ops[i]);
    RunOfPrefix(h, ops, i);
    AnswerToASpentToken(h, ops, i + 1, j);
  }

  // ----- live sessions and logins -----

  function Live(t: Table, user: string): nat {
    if t == [] then 0 else Live(t[..|t| - 1], user) + if t[|t| - 1].user == user && !t[|t| - 1].revoked then 1 else 0
  }

  function Logins(h: Hashing, ops: seq<Op>, user: string): nat {
    if ops == [] then 0
    else
      var before, op := ops[..|ops| - 1], ops[|ops| - 1];
      Logins(h, before, user)
      + if op.Login? && op.user == user && !op.delivery.Lost? && Apply(h, Run(h, before), op).1.Issued? then 1 else 0
  }

  lemma {:induction false} LiveOnlyShrinks(t: Table, r: Table, user: string)
    requires OnlyRevokes(t, r)
    ensures Live(r, user) <= Live(t, user)
  {
    if t != [] { LiveOnlyShrinks(t[..|t| - 1], r[..|r| - 1], user); }
  }

  lemma {:induction false} LiveUpdate(t: Table, i: nat, row: Row, user: string)
    requires i < |t| && row.user == t[i].user && row.revoked && !t[i].revoked
    ensures Live(t[i := row], user) == Live(t, user) - if t[i].user == user then 1 else 0
  {
    var last := |t| - 1;
    if i == last {
      assert t[i := row][..last] == t[..last];
    } else {
      assert t[i := row][..last] == t[..last][i := row];
      LiveUpdate(t[..last], i, row, user);
    }
  }

  lemma LiveAppend(t: Table, row: Row, user: string)
    ensures Live(t + [row], user) == Live(t, user) + if row.user == user && !row.revoked then 1 else 0
  {
  }

  lemma RotateAddsNoLive(h: Hashing, t: Table, op: Op, user: string)
    requires op.Rotate?
    ensures Live(Apply(h, t, op).0, user) <= Live(t, user)
  {
    var i := Find(t, h(op.raw));
    if i < |t| {
      if t[i].revoked || t[i].rotatedTo.Some? {
        LiveOnlyShrinks(t, RevokeUser(t, t[i].user), user);
      } else if op.now <= t[i].expiresAt && !Conflicts(t, op.id, h(op.next)) {
        var spent := t[i].(revoked := true, rotatedTo := Some(op.id));
        LiveUpdate(t, i, spent, user);
        LiveAppend(t[i := spent], Row(op.id, t[i].user, h(op.next), op.expiresAt, false, None), user);
      }
    }
  }

  lemma StepAddsLiveOnlyByLogin(h: Hashing, t: Table, op: Op, user: string)
    ensures Live(Apply(h, t, op).0, user)
            <= Live(t, user) + if op.Login? && op.user == user && Apply(h, t, op).1.Issued? then 1 else 0
  {
    match op {
      case Login(u, known, id, raw, expiresAt, _) =>
        if known && !Conflicts(t, id, h(raw)) { LiveAppend(t, Row(id, u, h(raw), expiresAt, false, None), user); }
      case Rotate(_, _, _, _, _, _) => RotateAddsNoLive(h, t, op, user);
      case Revoke(raw, _) => LiveOnlyShrinks(t, Apply(h, t, op).0, user);
    }
  }

  /** A user never has more live sessions than that user's logins. */
  lemma {:induction false} LiveAtMostLogins(h: Hashing, ops: seq<Op>, user: string)
    ensures Live(Run(h, ops), user) <= Logins(h, ops, user)
  {
    if ops != [] {
      LiveAtMostLogins(h, ops[..|ops| - 1], user);
      StepAddsLiveOnlyByLogin(h, Run(h, ops[..|ops| - 1]), ops[|ops| - 1], user);
    }
  }

  // ----- one live session per login -----

  /** The session that session i replaced. */
  ghost function Predecessor(t: Table, i: nat): (p: Option<nat>)
    requires i < |t|
    ensures p.Some? ==> p.value < i && Replaced(t, p.value, i)
    ensures p.None? ==> forall k :: 0 <= k < i ==> !Replaced(t, k, i)
  {
    if k: nat :| k < i && Replaced(t, k, i) then Some(k) else None
  }

  /** The session of the login that session i descends from. */
  ghost function Origin(t: Table, i: nat): (o: nat)
    requires i < |t|
    ensures o <= i
  {
    var p := Predecessor(t, i);
    if p.None? then i else Origin(t, p.value)
  }

  /** Session i is j or was exchanged, in one or more exchanges, for j. */
  ghost predicate Leads(t: Table, i: nat, j: nat)
    requires j < |t|
    decreases j
  {
    i == j || (Predecessor(t, j).Some? && Leads(t, i, Predecessor(t, j).value))
  }

  lemma {:induction false} LeadsThroughItsSuccessor(t: Table, p: nat, i: nat) returns (x: nat)
    requires i < |t| && p != i && Leads(t, p, i)
    ensures p < x <= i && Replaced(t, p, x)
    decreases i
  {
    var q := Predecessor(t, i).value;
    if q == p { x := i; } else { x := LeadsThroughItsSuccessor(t, p, q); }
  }

  /** Two sessions of one login lie on one chain of exchanges. */
  lemma {:induction false} SameLoginSameChain(t: Table, i: nat, j: nat)
    requires Unique(t) && i < j < |t| && Origin(t, i) == Origin(t, j)
    ensures Leads(t, i, j)
    decreases j
  {
    var p := Predecessor(t, j).value;
    if i < p {
      SameLoginSameChain(t, i, p);
    } else if p < i {
      SameLoginSameChain(t, p, i);
      var x := LeadsThroughItsSuccessor(t, p, i);
    }
  }

  /** Of all the sessions that descend from one login, at most one is live: the newest. */
  lemma OneLiveSessionPerLogin(h: Hashing, ops: seq<Op>, i: nat, j: nat)
    requires i < j < |Run(h, ops)| && Origin(Run(h, ops), i) == Origin(Run(h, ops), j)
    ensures Run(h, ops)[i].revoked
  {
    var t := Run(h, ops);
    RunIsChained(h, ops);
    SameLoginSameChain(t, i, j);
    var x := LeadsThroughItsSuccessor(t, i, j);
    assert Rotated(t, i);
  }

  // ----- the store -----

  /** A new row is refused exactly when it would repeat an identifier or a hash; when it is
      taken, the table stays chained, its token leads to it, and its user has one live
      session more. */
  lemma InsertedIffUnique(t: Table, row: Row)
    requires Chained(t) && row.rotatedTo.None?
    ensures !Conflicts(t, row.id, row.hash) <==> Unique(t + [row])
    ensures !Conflicts(t, row.id, row.hash) ==>
              && Chained(t + [row]) && Find(t + [row], row.hash) == |t|
              && (!row.revoked ==> Live(t + [row], row.user) == Live(t, row.user) + 1)
  {
    var r := t + [row];
    assert forall i :: 0 <= i < |t| ==> r[i] == t[i];
    assert r[|t|] == row;
    if Conflicts(t, row.id, row.hash) {
      var i :| 0 <= i < |t| && (t[i].id == row.id || t[i].hash == row.hash);
      assert r[i].id == r[|t|].id || r[i].hash == r[|t|].hash;
    } else {
      AppendChained(t, row);
      LiveAppend(t, row, row.user);
    }
  }

  class SessionStore {
    const hash: Hashing
    var rows: Table

    constructor (hash: Hashing)
      ensures this.hash == hash && rows == []
    {
      this.hash := hash;
      rows := [];
    }

    /** Inserts a session into a transaction's copy of the table. */
    method Insert(tx: Table, user: string, known: bool, id: string, raw: string, expiresAt: int)
      returns (after: Table, ok: bool)
      ensures ok <==> known && !Conflicts(tx, id, hash(raw))
      ensures after == if ok then tx + [Row(id, user, hash(raw), expiresAt, false, None)] else tx
    {
      ok := known && !Conflicts(tx, id, hash(raw));
      after := if ok then tx + [Row(id, user, hash(raw), expiresAt, false, None)] else tx;
    }

    method Create(user: string, known: bool, id: string, raw: string, expiresAt: int, delivery: Delivery)
      returns (result: Result)
      modifies this
      ensures (rows, result) == Step(hash, old(rows), Login(user, known, id, raw, expiresAt, delivery))
    {
      if delivery.Lost? { return Failed; }
      var tx, ok := Insert(rows, user, known, id, raw, expiresAt);
      rows := tx;
      return if ok && delivery.Delivered? then Issued(id) else Failed;
    }

    /** The exchange, on a copy of the table that replaces it when the transaction commits. */
    method Rotate(raw: string, now: int, id: string, next: string, expiresAt: int, delivery: Delivery)
      returns (result: Result)
      modifies this
      ensures (rows, result) == Step(hash, old(rows), Op.Rotate(raw, now, id, next, expiresAt, delivery))
    {
      if delivery.Lost? { return Failed; }
      var told := delivery.Delivered?;
      var i := Find(rows, hash(raw));
      if i == |rows| { return if told then NoSession else Failed; }
      var row := rows[i];
      if row.revoked || row.rotatedTo.Some? {
        rows := RevokeUser(rows, row.user);
        return if told then Reused else Failed;
      }
      if row.expiresAt < now { return if told then Expired else Failed; }
      var tx, ok := Insert(rows, row.user, true, id, next, expiresAt);
      if !ok { return Failed; }
      tx := tx[i := row.(rotatedTo := Some(id), revoked := true)];
      assert tx == rows[i := row.(rotatedTo := Some(id), revoked := true)] + [tx[|rows|]];
      rows := tx;
      return if told then Issued(id) else Failed;
    }

    /** Ends one session; an unknown token is not an error. */
    method Revoke(raw: string, delivery: Delivery) returns (result: Result)
      modifies this
      ensures (rows, result) == Step(hash, old(rows), Op.Revoke(raw, delivery))
    {
      if delivery.Lost? { return Failed; }
      var i := Find(rows, hash(raw));
      if i < |rows| && !rows[i].revoked { rows := rows[i := rows[i].(revoked := true)]; }
      assert i < |rows| ==> old(rows)[i := old(rows)[i].(revoked := true)] == rows;
      return if delivery.Delivered? then Done else Failed;
    }
  }
}
