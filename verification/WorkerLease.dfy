/**
 Worker leases: one expiring, owner-matched row per job, three single-statement
 steps, and any number of holders whose statements arrive late or never.
 Database statements are atomic and read one monotone clock.
 */
module WorkerLease {
  import opened Wrappers

  /** Minted fresh for every acquisition. */
  type Token = int

  datatype Row = Row(holder: Token, workerId: Option<string>, acquiredAt: int, renewedAt: int, expiresAt: int)

  type Rows = map<string, Row>

  predicate Live(rows: Rows, job: string, now: int) {
    job in rows && now < rows[job].expiresAt
  }

  predicate Owns(rows: Rows, job: string, token: Token, now: int) {
    Live(rows, job, now) && rows[job].holder == token
  }

  // The three statements

  function AcquireRow(rows: Rows, job: string, token: Token, workerId: Option<string>, ttl: int, now: int): Rows {
    if Live(rows, job, now) then rows else rows[job := Row(token, workerId, now, now, now + ttl)]
  }

  function RenewRow(rows: Rows, job: string, token: Token, ttl: int, now: int): Rows {
    if Owns(rows, job, token, now) then rows[job := rows[job].(expiresAt := now + ttl, renewedAt := now)] else rows
  }

  function ReleaseRow(rows: Rows, job: string, token: Token, now: int): Rows {
    if Owns(rows, job, token, now) then rows[job := rows[job].(expiresAt := now)] else rows
  }

  // One acquisition, as its own process sees it

  /** `Asking` until the answer to ACQUIRE arrives; `Lost` has aborted its signal. */
  datatype Phase = Asking | Held | Lost | Released

  datatype Reply = Renewed | NoRow | Unreachable

  function Answered(p: Phase, reply: Reply): Phase { if p.Held? && !reply.Renewed? then Lost else p }

  function Finished(p: Phase): Phase { if p.Held? then Released else p }

  // Every process and the table together

  /** `lastExec` is when the token's last statement that extended the row ran. */
  datatype Holder = Holder(job: string, ttl: int, phase: Phase, lastExec: int)

  datatype State = State(now: int, rows: Rows, holders: map<Token, Holder>, used: set<Token>)

  datatype Event =
    | Tick(elapsed: nat)
    | AcquireRuns(token: Token, job: string, workerId: Option<string>, ttl: int)
    | AcquireAnswered(token: Token)
    | RenewRuns(token: Token)
    | RenewAnswered(token: Token, reply: Reply)
    | ReleaseCalled(token: Token)
    | ReleaseRuns(token: Token)

  /**
   Events that cannot happen leave the state alone. A renewal may run long after it was sent; a release is sent
   only by a holder.
   */
  function Next(s: State, e: Event): State {
    match e
    case Tick(elapsed) => s.(now := s.now + elapsed)
    case AcquireRuns(token, job, workerId, ttl) =>
      if token in s.used then s
      else if Live(s.rows, job, s.now) then s.(used := s.used + {token})
      else s.(used := s.used + {token}, rows := AcquireRow(s.rows, job, token, workerId, ttl, s.now),
              holders := s.holders[token := Holder(job, ttl, Asking, s.now)])
    case AcquireAnswered(token) =>
      if token !in s.holders || !s.holders[token].phase.Asking? then s else SetPhase(s, token, Held)
    case RenewRuns(token) =>
      if token !in s.holders || s.holders[token].phase.Asking? then s
      else
        var h := s.holders[token];
        s.(rows := RenewRow(s.rows, h.job, token, h.ttl, s.now),
           holders := if !Owns(s.rows, h.job, token, s.now) then s.holders
                      else s.holders[token := h.(lastExec := s.now)])
    case RenewAnswered(token, reply) =>
      if token !in s.holders then s else SetPhase(s, token, Answered(s.holders[token].phase, reply))
    case ReleaseCalled(token) =>
      if token !in s.holders then s else SetPhase(s, token, Finished(s.holders[token].phase))
    case ReleaseRuns(token) =>
      if token !in s.holders || !s.holders[token].phase.Released? then s
      else s.(rows := ReleaseRow(s.rows, s.holders[token].job, token, s.now))
  }

  function SetPhase(s: State, token: Token, p: Phase): State
    requires token in s.holders
  {
    s.(holders := s.holders[token := s.holders[token].(phase := p)])
  }

  function Start(now: int): State { State(now, map[], map[], {}) }

  /** The state after the first `i` events. */
  function After(start: int, run: seq<Event>, i: nat): State
    requires i <= |run|
  {
    if i == 0 then Start(start) else Next(After(start, run, i - 1), run[i - 1])
  }

  predicate Owner(s: State, job: string, token: Token) { Owns(s.rows, job, token, s.now) }

  predicate IsHeld(s: State, job: string, token: Token) {
    token in s.holders && s.holders[token].job == job && s.holders[token].phase.Held?
  }

  /** The token's next renewal is late: its TTL ran out with no further renewal. */
  predicate Overdue(s: State, token: Token)
    requires token in s.holders
  {
    s.holders[token].lastExec + s.holders[token].ttl <= s.now
  }

  // What every step keeps

  /** The row is its holder's: that holder's job, and never longer than its last extension allows. */
  predicate RowOk(s: State, job: string) {
    job in s.rows ==>
      && s.rows[job].holder in s.holders
      && s.holders[s.rows[job].holder].job == job
      && s.rows[job].expiresAt <= s.holders[s.rows[job].holder].lastExec + s.holders[s.rows[job].holder].ttl
  }

  /** Until it lets go, a token's row stands exactly as it last extended it, unless it is overdue. */
  predicate HolderOk(s: State, token: Token) {
    token in s.holders ==>
      var h := s.holders[token];
      && token in s.used
      && (h.phase.Asking? || h.phase.Held? ==>
            Overdue(s, token)
            || (h.job in s.rows && s.rows[h.job].holder == token && s.rows[h.job].expiresAt == h.lastExec + h.ttl))
  }

  ghost predicate Inv(s: State) {
    && (forall job :: RowOk(s, job))
    && (forall token :: HolderOk(s, token))
  }

  lemma StepKeepsRow(s: State, e: Event, job: string)
    requires Inv(s)
    ensures RowOk(Next(s, e), job)
  {
    assert RowOk(s, job);
    if job in s.rows {
      assert HolderOk(s, s.rows[job].holder);
    }
  }

  lemma StepKeepsHolder(s: State, e: Event, token: Token)
    requires Inv(s)
    ensures HolderOk(Next(s, e), token)
  {
    assert HolderOk(s, token);
    if token in s.holders {
      assert RowOk(s, s.holders[token].job);
    }
  }

  lemma {:induction false} Reachable(start: int, run: seq<Event>, i: nat)
    requires i <= |run|
    ensures Inv(After(start, run, i))
  {
    if i > 0 {
      hide Next, RowOk, HolderOk;
      var s := After(start, run, i - 1);
      Reachable(start, run, i - 1);
      forall job ensures RowOk(After(start, run, i), job) {
        StepKeepsRow(s, run[i - 1], job);
      }
      forall token ensures HolderOk(After(start, run, i), token) {
        StepKeepsHolder(s, run[i - 1], token);
      }
    }
  }

  // Ownership in database time

  lemma StepNeverReturns(s: State, e: Event, job: string, token: Token)
    requires token in s.used && !Owner(s, job, token)
    ensures token in Next(s, e).used && !Owner(Next(s, e), job, token)
  {
  }

  /** A token that has owned, or tried to, never owns again once it does not. */
  lemma {:induction false} NeverReturns(start: int, run: seq<Event>, j: nat, k: nat, job: string, token: Token)
    requires j <= k <= |run|
    requires token in After(start, run, j).used && !Owner(After(start, run, j), job, token)
    ensures token in After(start, run, k).used && !Owner(After(start, run, k), job, token)
  {
    if j < k {
      hide Next, Owner;
      NeverReturns(start, run, j, k - 1, job, token);
      StepNeverReturns(After(start, run, k - 1), run[k - 1], job, token);
    }
  }

  lemma OwnersAreUsed(start: int, run: seq<Event>, i: nat, job: string, token: Token)
    requires i <= |run| && Owner(After(start, run, i), job, token)
    ensures token in After(start, run, i).used
  {
    hide After;
    Reachable(start, run, i);
    assert RowOk(After(start, run, i), job);
    assert HolderOk(After(start, run, i), token);
  }

  /**
   Over any run, however statements interleave and whoever crashes: a token owns a job
   over one stretch of database time, and no other token owns it within that stretch.
   */
  lemma OwnershipIntervalsDisjoint(start: int, run: seq<Event>, i: nat, j: nat, k: nat, job: string, a: Token, b: Token)
    requires i <= j <= k <= |run| && a != b
    requires Owner(After(start, run, i), job, a) && Owner(After(start, run, k), job, a)
    ensures Owner(After(start, run, j), job, a) && !Owner(After(start, run, j), job, b)
  {
    hide After, Next;
    if !Owner(After(start, run, j), job, a) {
      UsedForever(start, run, i, j, a) by { OwnersAreUsed(start, run, i, job, a); }
      NeverReturns(start, run, j, k, job, a);
      assert false;
    }
  }

  lemma {:induction false} UsedForever(start: int, run: seq<Event>, i: nat, j: nat, token: Token)
    requires i <= j <= |run| && token in After(start, run, i).used
    ensures token in After(start, run, j).used
  {
    if i < j {
      UsedForever(start, run, i, j - 1, token);
    }
  }

  /** From the moment a token has lost its job, every renewal or release it still sends leaves the table alone. */
  lemma LostForever(start: int, run: seq<Event>, i: nat, j: nat, k: nat, job: string, token: Token, ttl: int)
    requires i <= j <= k <= |run|
    requires Owner(After(start, run, i), job, token) && !Owner(After(start, run, j), job, token)
    ensures var s := After(start, run, k);
      RenewRow(s.rows, job, token, ttl, s.now) == s.rows && ReleaseRow(s.rows, job, token, s.now) == s.rows
  {
    hide After, Next;
    OwnersAreUsed(start, run, i, job, token);
    UsedForever(start, run, i, j, token);
    NeverReturns(start, run, j, k, job, token);
  }

  // What `isHeld` is worth

  /** While it says held, a token owns its job exactly until it is overdue. */
  lemma HeldOwnsUntilOverdue(start: int, run: seq<Event>, i: nat, job: string, token: Token)
    requires i <= |run| && IsHeld(After(start, run, i), job, token)
    ensures Owner(After(start, run, i), job, token) <==> !Overdue(After(start, run, i), token)
  {
    hide After, Next;
    Reachable(start, run, i);
    assert HolderOk(After(start, run, i), token);
    assert RowOk(After(start, run, i), job);
  }

  /** Two processes believe they hold one job only while one of them is overdue. */
  lemma TwoHeldMeansOverdue(start: int, run: seq<Event>, i: nat, job: string, a: Token, b: Token)
    requires i <= |run| && a != b
    requires IsHeld(After(start, run, i), job, a) && IsHeld(After(start, run, i), job, b)
    ensures Overdue(After(start, run, i), a) || Overdue(After(start, run, i), b)
  {
    hide After, Next, Overdue;
    HeldOwnsUntilOverdue(start, run, i, job, a);
    HeldOwnsUntilOverdue(start, run, i, job, b);
  }

  predicate IsHeldSomewhere(s: State, token: Token) { token in s.holders && s.holders[token].phase.Held? }

  /** Every holder renews, loses or releases within the TTL of its last extension. */
  ghost predicate Timely(start: int, run: seq<Event>) {
    forall i, token :: 0 <= i <= |run| && IsHeldSomewhere(After(start, run, i), token) ==>
        !Overdue(After(start, run, i), token)
  }

  lemma AtMostOneHeld(start: int, run: seq<Event>, i: nat, job: string, a: Token, b: Token)
    requires Timely(start, run) && i <= |run|
    requires IsHeld(After(start, run, i), job, a) && IsHeld(After(start, run, i), job, b)
    ensures a == b
  {
    hide After, Next, Overdue;
    if a != b {
      TwoHeldMeansOverdue(start, run, i, job, a, b);
      assert false;
    }
  }

  /** Without that, two can: a holder that sleeps through its TTL finds out only at its next renewal. */
  lemma LateRenewalLetsTwoHold(job: string, ttl: nat)
    ensures var run := [AcquireRuns(1, job, None, ttl), AcquireAnswered(1), Tick(ttl),
        AcquireRuns(2, job, None, ttl), AcquireAnswered(2)];
      IsHeld(After(0, run, 5), job, 1) && IsHeld(After(0, run, 5), job, 2)
  {
    var run := [AcquireRuns(1, job, None, ttl), AcquireAnswered(1), Tick(ttl), AcquireRuns(2, job, None, ttl),
        AcquireAnswered(2)];
    var h1 := Holder(job, ttl, Held, 0);
    assert After(0, run, 1) == State(0, map[job := Row(1, None, 0, 0, ttl)], map[1 := h1.(phase := Asking)], {1});
    assert After(0, run, 2) == State(0, map[job := Row(1, None, 0, 0, ttl)], map[1 := h1], {1});
    assert After(0, run, 3) == State(ttl, map[job := Row(1, None, 0, 0, ttl)], map[1 := h1], {1});
    assert After(0, run, 4).holders == map[1 := h1, 2 := Holder(job, ttl, Asking, ttl)];
  }

  // When `isHeld` ends

  /**
   What makes a holder stop saying held: a release it asked for, or a renewal answered without a row or not at
   all.
   */
  predicate LetsGo(e: Event, token: Token) {
    e == ReleaseCalled(token) || (e.RenewAnswered? && e.token == token && e.reply != Renewed)
  }

  lemma StepHolds(s: State, e: Event, job: string, token: Token)
    requires token in s.used && token in s.holders
    ensures token in Next(s, e).used && token in Next(s, e).holders
    ensures Next(s, e).holders[token].job == s.holders[token].job
    ensures IsHeld(s, job, token) ==> (IsHeld(Next(s, e), job, token) <==> !LetsGo(e, token))
    ensures s.holders[token].phase.Lost? || s.holders[token].phase.Released? ==>
              Next(s, e).holders[token].phase == s.holders[token].phase
  {
  }

  /**
   A held token is held at a later moment exactly if nothing between made it let go; once it has, it never is
   again.
   */
  lemma {:induction false} HeldUntilLetGo(start: int, run: seq<Event>, i: nat, j: nat, job: string, token: Token)
    requires i <= j <= |run| && IsHeld(After(start, run, i), job, token)
    ensures var s := After(start, run, j);
      && token in s.used && token in s.holders
      && (IsHeld(s, job, token) <==> forall k :: i <= k < j ==> !LetsGo(run[k], token))
      && (!IsHeld(s, job, token) ==> s.holders[token].phase.Lost? || s.holders[token].phase.Released?)
  {
    hide Next, LetsGo;
    if i == j {
      Reachable(start, run, i);
      assert HolderOk(After(start, run, i), token);
    } else {
      var s, e := After(start, run, j - 1), run[j - 1];
      HeldUntilLetGo(start, run, i, j - 1, job, token);
      StepHolds(s, e, job, token);
      if IsHeld(s, job, token) && LetsGo(e, token) {
        StepSettles(s, e, job, token);
      }
    }
  }

  lemma StepSettles(s: State, e: Event, job: string, token: Token)
    requires IsHeld(s, job, token) && token in s.used && LetsGo(e, token)
    ensures Next(s, e).holders[token].phase.Lost? || Next(s, e).holders[token].phase.Released?
  {
  }

  // Progress

  /** A holder that releases while it owns its job frees it at once. */
  lemma ReleaseFrees(s: State, job: string, token: Token)
    requires token in s.holders && s.holders[token].job == job && s.holders[token].phase.Released?
    ensures Owner(s, job, token) ==> !Live(Next(s, ReleaseRuns(token)).rows, job, s.now)
    ensures !Owner(s, job, token) ==> Next(s, ReleaseRuns(token)).rows == s.rows
  {
  }

  /** A fresh acquisition takes the job exactly when nobody owns it. */
  lemma AcquireTakesFreeJob(
      start: int, run: seq<Event>, i: nat, job: string, token: Token, workerId: Option<string>, ttl: nat)
    requires i <= |run| && token !in After(start, run, i).used && ttl > 0
    ensures var s := After(start, run, i);
      Owner(Next(s, AcquireRuns(token, job, workerId, ttl)), job, token) <==> !Live(s.rows, job, s.now)
  {
    hide After;
    Reachable(start, run, i);
    assert RowOk(After(start, run, i), job) && HolderOk(After(start, run, i), token);
  }

  /** A crashed holder blocks its job for at most one TTL after its last extension. */
  lemma CrashBlocksOneTtl(start: int, run: seq<Event>, i: nat, job: string)
    requires i <= |run| && job in After(start, run, i).rows
    ensures After(start, run, i).rows[job].holder in After(start, run, i).holders
    ensures Overdue(After(start, run, i), After(start, run, i).rows[job].holder) ==>
        !Live(After(start, run, i).rows, job, After(start, run, i).now)
  {
    hide After, Next;
    Reachable(start, run, i);
    assert RowOk(After(start, run, i), job);
  }

  // The code's own objects

  class LeaseTable {
    var rows: Rows

    constructor ()
      ensures rows == map[]
    {
      rows := map[];
    }

    /** `returning holder` yields a row exactly when one was written. */
    method Acquire(job: string, token: Token, workerId: Option<string>, ttl: int, now: int) returns (granted: bool)
      modifies this
      ensures rows == AcquireRow(old(rows), job, token, workerId, ttl, now)
      ensures granted <==> job !in old(rows) || old(rows)[job].expiresAt <= now
      ensures rows == if granted then old(rows)[job := Row(token, workerId, now, now, now + ttl)] else old(rows)
    {
      if job in rows && rows[job].expiresAt > now {
        return false;
      }
      rows := rows[job := Row(token, workerId, now, now, now + ttl)];
      return true;
    }

    method Renew(job: string, token: Token, ttl: int, now: int) returns (renewed: bool)
      modifies this
      ensures rows == RenewRow(old(rows), job, token, ttl, now)
      ensures renewed <==> job in old(rows) && old(rows)[job].holder == token && now < old(rows)[job].expiresAt
      ensures renewed ==> rows == old(rows)[job := old(rows)[job].(expiresAt := now + ttl, renewedAt := now)]
      ensures !renewed ==> rows == old(rows)
    {
      renewed := job in rows && rows[job].holder == token && rows[job].expiresAt > now;
      if renewed {
        rows := rows[job := rows[job].(expiresAt := now + ttl, renewedAt := now)];
      }
    }

    /** Expires the row rather than deleting it. */
    method Release(job: string, token: Token, now: int) returns (released: bool)
      modifies this
      ensures rows == ReleaseRow(old(rows), job, token, now)
      ensures released <==> job in old(rows) && old(rows)[job].holder == token && now < old(rows)[job].expiresAt
      ensures released ==> job in rows && rows == old(rows)[job := old(rows)[job].(expiresAt := now)]
      ensures !released ==> rows == old(rows)
    {
      released := job in rows && rows[job].holder == token && rows[job].expiresAt > now;
      if released {
        rows := rows[job := rows[job].(expiresAt := now)];
      }
    }
  }

  datatype Report = LeaseLost(job: string, reason: Reply) | ReleaseFailed(job: string)

  /** What `tryAcquire` hands back: each await splits a method in two. */
  class HeldLease {
    const job: string
    const token: Token
    const ttl: int
    var held: bool
    var timer: bool
    var aborted: bool
    var reports: seq<Report>

    ghost predicate Valid()
      reads this
    {
      timer == held && !(held && aborted)
    }

    ghost function GetPhase(): Phase
      reads this
    {
      if held then Held else if aborted then Lost else Released
    }

    constructor (job: string, token: Token, ttl: int)
      ensures Valid() && GetPhase() == Held && reports == []
      ensures this.job == job && this.token == token && this.ttl == ttl
    {
      this.job, this.token, this.ttl := job, token, ttl;
      held, timer, aborted, reports := true, true, false, [];
    }

    method Lose(reason: Reply)
      requires Valid()
      modifies this
      ensures Valid() && !held && !timer && aborted == (old(aborted) || old(held))
      ensures reports == old(reports) + if old(held) then [LeaseLost(job, reason)] else []
    {
      if !held {
        return;
      }
      held, timer := false, false;
      reports := reports + [LeaseLost(job, reason)];
      aborted := true;
    }

    /** The renewal timer fires: a RENEW is sent only while held. */
    method BeginRenewal() returns (send: bool)
      ensures send == held
    {
      send := held;
    }

    /** The renewal's answer, or its failure, arrives: possibly after a release or a loss. */
    method FinishRenewal(reply: Reply)
      requires Valid()
      modifies this
      ensures Valid() && GetPhase() == Answered(old(GetPhase()), reply)
      ensures !reply.Renewed? ==> !held && !timer && aborted == (old(aborted) || old(held))
      ensures reply.Renewed? ==> held == old(held) && timer == old(timer) && aborted == old(aborted)
      ensures reports == old(reports) + if old(held) && !reply.Renewed? then [LeaseLost(job, reply)] else []
    {
      if !reply.Renewed? {
        Lose(reply);
      }
    }

    method BeginRelease() returns (send: bool)
      requires Valid()
      modifies this
      ensures Valid() && GetPhase() == Finished(old(GetPhase()))
      ensures !held && !timer && aborted == old(aborted) && reports == old(reports)
      ensures send == old(held)
    {
      send := held;
      held, timer := false, false;
    }

    method FinishRelease(failed: bool)
      requires Valid()
      modifies this`reports
      ensures Valid() && reports == old(reports) + if failed then [ReleaseFailed(job)] else []
    {
      if failed {
        reports := reports + [ReleaseFailed(job)];
      }
    }
  }

  /** Null when someone else holds an unexpired lease. */
  method TryAcquire(
      db: LeaseTable, job: string, token: Token, workerId: Option<string>, ttl: int, now: int)
    returns (lease: HeldLease?)
    modifies db
    ensures db.rows == AcquireRow(old(db.rows), job, token, workerId, ttl, now)
    ensures lease == null <==> job in old(db.rows) && now < old(db.rows)[job].expiresAt
    ensures lease != null ==>
              && fresh(lease) && lease.Valid() && lease.GetPhase() == Held
              && lease.job == job && lease.token == token
    ensures lease != null && ttl > 0 ==> Owns(db.rows, job, token, now)
  {
    var granted := db.Acquire(job, token, workerId, ttl, now);
    if !granted {
      return null;
    }
    lease := new HeldLease(job, token, ttl);
  }
}
