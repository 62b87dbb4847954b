/**
 Idempotency claims: replay records claimed, taken over once expired, completed,
 released and purged by statements that interleave freely on one table.
 Claim times and expiry are read from one clock.
 */
module Idempotency {
  import opened Wrappers

  const KEY_TTL_MS: int := 24 * 3600 * 1000
  const CLAIM_ATTEMPTS := 3

  /** A JSON object's `v`, as far as its version is compared: a number, the text of one, null, or anything else. */
  datatype Version = NumberV(n: int) | TextV(n: int) | NullV | OtherV(json: string)

  /** `Null` is SQL NULL: a null body is stored as no body at all. */
  datatype Json = Null | Object(v: Option<Version>, body: Option<Json>, rest: string) | Other(json: string)

  datatype Rec = Rec(requestHash: string, status: Option<int>, body: Json, createdAt: int, expiresAt: int)

  type Rows = map<string, Rec>

  datatype Claim = Claim(key: string, claimedAt: int)

  // Shapes of a stored body

  predicate VersionedRecord(stored: Json, version: int) {
    stored.Object? && stored.v == Some(NumberV(version)) && stored.body.Some?
  }

  /** What `intercept` stores for a handler's body; None is a handler that returned nothing. */
  function Stored(version: Option<int>, body: Option<Json>): Json {
    match version
    case None => (match body case None => Null case Some(b) => b)
    case Some(v) => Object(Some(NumberV(v)), body, "")
  }

  /** SQL's three truth values. */
  datatype Truth = True | False | Unknown

  function And3(a: Truth, b: Truth): Truth {
    if a == False || b == False then False else if a == True && b == True then True else Unknown
  }

  function Not3(a: Truth): Truth { match a case True => False case False => True case Unknown => Unknown }

  function Truly(b: bool): Truth { if b then True else False }

  function IsObject(j: Json): Truth {
    match j case Null => Unknown case Object(_, _, _) => True case Other(_) => False
  }

  /** `response_body->>'v' = $version`: text is compared, and a missing or null `v` is unknown. */
  function VersionText(j: Json, version: int): Truth {
    if !j.Object? || j.v.None? then Unknown
    else match j.v.value
      case NumberV(n) => Truly(n == version)
      case TextV(n) => Truly(n == version)
      case NullV => Unknown
      case OtherV(_) => False
  }

  function HasBody(j: Json): Truth {
    match j case Null => Unknown case Object(_, body, _) => Truly(body.Some?) case Other(_) => False
  }

  /** The purge's shape test: a row is touched only where this is true. */
  function Unversioned(j: Json, version: int): Truth {
    Not3(And3(And3(IsObject(j), VersionText(j, version)), HasBody(j)))
  }

  // The statements

  function Fresh(requestHash: string, claimedAt: int): Rec {
    Rec(requestHash, None, Null, claimedAt, claimedAt + KEY_TTL_MS)
  }

  predicate Claimable(rows: Rows, key: string, now: int) {
    key !in rows || rows[key].expiresAt <= now
  }

  function ClaimRow(rows: Rows, key: string, requestHash: string, claimedAt: int, now: int): Rows {
    if Claimable(rows, key, now) then rows[key := Fresh(requestHash, claimedAt)] else rows
  }

  predicate OwnClaim(rows: Rows, c: Claim) {
    c.key in rows && rows[c.key].createdAt == c.claimedAt && rows[c.key].status.None?
  }

  function ReleaseRow(rows: Rows, c: Claim): Rows {
    if OwnClaim(rows, c) then rows - {c.key} else rows
  }

  function CompleteRow(rows: Rows, c: Claim, status: int, body: Json): Rows {
    if OwnClaim(rows, c) then rows[c.key := rows[c.key].(status := Some(status), body := body)] else rows
  }

  function PurgeExpiredRows(rows: Rows, now: int): Rows {
    map key | key in rows && rows[key].expiresAt >= now :: rows[key]
  }

  predicate UnversionedRow(rows: Rows, key: string, version: int) {
    key in rows && rows[key].status.Some? && Unversioned(rows[key].body, version).True?
  }

  function PurgeRow(rows: Rows, key: string, version: int): Rows {
    if UnversionedRow(rows, key, version) then rows - {key} else rows
  }

  function AdoptRow(rows: Rows, key: string, version: int, adopted: Json): Rows {
    if !UnversionedRow(rows, key, version) then rows
    else rows[key := rows[key].(body := Stored(Some(version), Some(adopted)))]
  }

  // What `beginIdempotent` answers for a row it could not claim

  datatype Answer =
    | KeyReused
    | InFlight
    | Replays(status: int, body: Json)
    | Adopts(status: int, body: Json)
    | Purges

  function AnswerFor(
      existing: Rec, requestHash: string, version: Option<int>, adoptLegacy: Json -> Option<Json>): Answer {
    if existing.requestHash != requestHash then KeyReused
    else if existing.status.None? then InFlight
    else match version
      case None => Replays(existing.status.value, existing.body)
      case Some(v) =>
        if VersionedRecord(existing.body, v) then Replays(existing.status.value, existing.body.body.value)
        else match adoptLegacy(existing.body)
          case Some(adopted) => Adopts(existing.status.value, adopted)
          case None => Purges
  }

  /** No legacy body is adopted. */
  function AdoptNothing(): Json -> Option<Json> { _ => None }

  /**
   A completed record answers its retry with the first status and body, except where a versioned
   route's handler returned nothing: that record carries no body and is purged as if unversioned.
   */
  lemma ReplayReturnsFirstAnswer(hash: string, version: Option<int>, status: int, body: Option<Json>, claimedAt: int)
    ensures var first := Fresh(hash, claimedAt).(status := Some(status), body := Stored(version, body));
      AnswerFor(first, hash, version, AdoptNothing()) == Replays(status, body.GetOr(Null)) <==>
          version.None? || body.Some?
    ensures version.Some? && body.None? ==> Unversioned(Stored(version, body), version.value).True?
  {
  }

  /** A legacy record, once adopted, is replayed by its route with the adopted body, and no purge touches it again. */
  lemma AdoptedIsReplayed(
      rows: Rows, key: string, version: int, adopted: Json, legacy: Json -> Option<Json>)
    requires UnversionedRow(rows, key, version)
    ensures var after := AdoptRow(rows, key, version, adopted);
      && after.Keys == rows.Keys && (forall k :: k in rows && k != key ==> after[k] == rows[k])
      && AnswerFor(after[key], rows[key].requestHash, Some(version), legacy) == Replays(rows[key].status.value, adopted)
      && after[key].createdAt == rows[key].createdAt && after[key].expiresAt == rows[key].expiresAt
      && PurgeRow(after, key, version) == after && AdoptRow(after, key, version, adopted) == after
  {
  }

  /** A body that is neither replayed as versioned nor matched by the purge. */
  predicate StuckBody(j: Json, version: int) {
    j.Null? || (j.Object? && j.body.Some? && (j.v.None? || j.v.value.NullV? || j.v.value == TextV(version)))
  }

  /**
   The two shape tests agree except on a body that is missing, or an object with a body whose `v` is
   missing, null or textual: such a record is not replayed and not purged either, until it expires.
   */
  lemma PurgeMissesExactly(j: Json, version: int)
    requires !VersionedRecord(j, version)
    ensures Unversioned(j, version).True? <==> !StuckBody(j, version)
  {
  }

  lemma VersionedIsKept(j: Json, version: int)
    requires VersionedRecord(j, version)
    ensures Unversioned(j, version) == False
  {
  }

  // Every claimant together

  /** `at` is when the claim's statement ran; `claimedAt` was read before it. */
  datatype Installed = Installed(claim: Claim, at: int)

  /** A mutation that committed: the claimant that ran it, and the claim whose record it completed. */
  datatype Commit = Commit(claimant: int, row: int)

  /**
   `owner` is the claim whose statement wrote the row. A claimant sends one completion at most, then one
   release at most, and nothing after it: `completed` and `released` are those whose statement has run.
   */
  datatype State = State(
    now: int, rows: Rows, owner: map<string, int>, claims: map<int, Installed>,
    completed: set<int>, released: set<int>, commits: seq<Commit>)

  datatype Event =
    | Tick(elapsed: nat)
    | ClaimRuns(id: int, key: string, requestHash: string, claimedAt: int)
    | CommitRuns(id: int, status: int, body: Json)
    | ReleaseRuns(id: int)
    | PurgeExpired
    | PurgeUnversioned(key: string, version: int)
    | AdoptRuns(key: string, version: int, adopted: Json)

  predicate MayComplete(s: State, id: int) { id in s.claims && id !in s.completed && id !in s.released }

  predicate MayRelease(s: State, id: int) { id in s.claims && id !in s.released }

  function OwnerOf(s: State, key: string): int { if key in s.owner then s.owner[key] else 0 }

  /**
   `CommitRuns` is a mutation whose own transaction completes the claim, and rolls back when the completion
   matches nothing.
   */
  function Next(s: State, e: Event): State {
    match e
    case Tick(elapsed) => s.(now := s.now + elapsed)
    case ClaimRuns(id, key, hash, claimedAt) =>
      if id in s.claims || claimedAt > s.now || !Claimable(s.rows, key, s.now) then s
      else s.(rows := ClaimRow(s.rows, key, hash, claimedAt, s.now), owner := s.owner[key := id],
              claims := s.claims[id := Installed(Claim(key, claimedAt), s.now)])
    case CommitRuns(id, status, body) =>
      if !MayComplete(s, id) then s
      else if !OwnClaim(s.rows, s.claims[id].claim) then s.(completed := s.completed + {id})
      else s.(rows := CompleteRow(s.rows, s.claims[id].claim, status, body), completed := s.completed + {id},
              commits := s.commits + [Commit(id, OwnerOf(s, s.claims[id].claim.key))])
    case ReleaseRuns(id) =>
      if !MayRelease(s, id) then s
      else s.(rows := ReleaseRow(s.rows, s.claims[id].claim), released := s.released + {id})
    case PurgeExpired => s.(rows := PurgeExpiredRows(s.rows, s.now))
    case PurgeUnversioned(key, version) => s.(rows := PurgeRow(s.rows, key, version))
    case AdoptRuns(key, version, adopted) => s.(rows := AdoptRow(s.rows, key, version, adopted))
  }

  function Start(now: int): State { State(now, map[], map[], map[], {}, {}, []) }

  function After(start: int, run: seq<Event>, i: nat): State
    requires i <= |run|
  {
    if i == 0 then Start(start) else Next(After(start, run, i - 1), run[i - 1])
  }

  /** A row is exactly what its owner's claim installed, completed or not. */
  predicate RowOk(s: State, key: string) {
    key in s.rows ==>
      && key in s.owner && s.owner[key] in s.claims
      && s.claims[s.owner[key]].claim == Claim(key, s.rows[key].createdAt)
      && s.rows[key].expiresAt == s.rows[key].createdAt + KEY_TTL_MS
  }

  ghost predicate RowsOk(s: State) { forall key :: RowOk(s, key) }

  lemma StepKeepsRow(s: State, e: Event, key: string)
    requires RowsOk(s)
    ensures RowOk(Next(s, e), key)
  {
    assert RowOk(s, key);
  }

  lemma {:induction false} Reachable(start: int, run: seq<Event>, i: nat)
    requires i <= |run|
    ensures RowsOk(After(start, run, i))
  {
    if i > 0 {
      hide Next, RowOk;
      Reachable(start, run, i - 1);
      forall key ensures RowOk(After(start, run, i), key) {
        StepKeepsRow(After(start, run, i - 1), run[i - 1], key);
      }
    }
  }

  lemma StepKeepsClaims(s: State, e: Event, id: int)
    ensures id in s.claims ==> id in Next(s, e).claims && Next(s, e).claims[id] == s.claims[id]
  {
  }

  lemma {:induction false} ClaimsStay(start: int, run: seq<Event>, i: nat, j: nat, id: int)
    requires i <= j <= |run| && id in After(start, run, i).claims
    ensures id in After(start, run, j).claims && After(start, run, j).claims[id] == After(start, run, i).claims[id]
  {
    if i < j {
      hide Next;
      ClaimsStay(start, run, i, j - 1, id);
      StepKeepsClaims(After(start, run, j - 1), run[j - 1], id);
    }
  }

  // Late statements

  /** A claimant's completion is its last but for one release, and its release is its last: whatever runs meanwhile. */
  lemma {:induction false} OneStatementEach(start: int, run: seq<Event>, i: nat, j: nat, id: int)
    requires i < j <= |run| && id in After(start, run, i).claims
    ensures id in After(start, run, j).claims
    ensures run[i].CommitRuns? && run[i].id == id ==> !MayComplete(After(start, run, j), id)
    ensures run[i] == ReleaseRuns(id) ==>
              !MayComplete(After(start, run, j), id) && !MayRelease(After(start, run, j), id)
  {
    if i + 1 < j {
      OneStatementEach(start, run, i, j - 1, id);
      StepKeepsPhase(After(start, run, j - 1), run[j - 1], id);
    } else {
      StepSpends(After(start, run, i), run[i], id);
    }
  }

  lemma StepKeepsPhase(s: State, e: Event, id: int)
    requires id in s.claims
    ensures id in Next(s, e).claims
    ensures !MayComplete(s, id) ==> !MayComplete(Next(s, e), id)
    ensures !MayRelease(s, id) ==> !MayRelease(Next(s, e), id)
  {
  }

  lemma StepSpends(s: State, e: Event, id: int)
    requires id in s.claims
    ensures id in Next(s, e).claims
    ensures e.CommitRuns? && e.id == id ==> !MayComplete(Next(s, e), id)
    ensures e == ReleaseRuns(id) ==> !MayComplete(Next(s, e), id) && !MayRelease(Next(s, e), id)
  {
  }

  /** Another claim owns the row of this one's key. */
  predicate Superseded(s: State, id: int) {
    && id in s.claims && s.claims[id].claim.key in s.rows && s.claims[id].claim.key in s.owner
    && s.owner[s.claims[id].claim.key] != id && s.owner[s.claims[id].claim.key] in s.claims
  }

  /** The claim that superseded it carries the same millisecond and is still in flight. */
  predicate Confused(s: State, id: int)
    requires Superseded(s, id)
  {
    var c := s.claims[id].claim;
    s.claims[s.owner[c.key]].claim.claimedAt == c.claimedAt && s.rows[c.key].status.None?
  }

  /** Whether a stale claimant's statement matches its successor's row: exactly where the two share a millisecond. */
  lemma StaleTouchesOnlySameMillisecond(start: int, run: seq<Event>, i: nat, id: int, status: int, body: Json)
    requires i <= |run| && Superseded(After(start, run, i), id)
    ensures var s := After(start, run, i);
      var c := s.claims[id].claim;
      && (MayRelease(s, id) ==> (Next(s, ReleaseRuns(id)).rows != s.rows <==> Confused(s, id)))
      && (MayComplete(s, id) ==> (Next(s, CommitRuns(id, status, body)).commits != s.commits <==> Confused(s, id)))
      && (!Confused(s, id) ==> CompleteRow(s.rows, c, status, body) == s.rows)
  {
    hide After;
    Reachable(start, run, i);
    var s := After(start, run, i);
    var c := s.claims[id].claim;
    assert RowOk(s, c.key);
    assert c.key in s.rows && c.key !in s.rows - {c.key};
    assert |s.commits + [Commit(id, s.owner[c.key])]| == |s.commits| + 1;
  }

  /** The event deletes a completed record of the key before its day is over. */
  predicate PurgesCompleted(s: State, e: Event, key: string) {
    e.PurgeUnversioned? && e.key == key && UnversionedRow(s.rows, key, e.version)
  }

  /** No instance purges a completed record of the key. */
  ghost predicate NeverPurged(start: int, run: seq<Event>, key: string) {
    forall i :: 0 <= i < |run| ==> !PurgesCompleted(After(start, run, i), run[i], key)
  }

  /** Each claim's statement runs within a day of the moment its time was read. */
  ghost predicate Prompt(s: State, key: string) {
    forall id :: id in s.claims && s.claims[id].claim.key == key ==>
        s.claims[id].at < s.claims[id].claim.claimedAt + KEY_TTL_MS
  }

  /** A claim that can still send something owns its row, or its day was over before the row's next owner came. */
  predicate Outlasted(s: State, key: string, id: int) {
    id in s.claims && s.claims[id].claim.key == key && id !in s.released ==>
      || (key in s.rows && OwnerOf(s, key) == id)
      || (&& s.claims[id].claim.claimedAt + KEY_TTL_MS <= s.now
          && (key in s.rows && OwnerOf(s, key) in s.claims ==>
                s.claims[id].claim.claimedAt + KEY_TTL_MS <= s.claims[OwnerOf(s, key)].at))
  }

  ghost predicate LateInv(s: State, key: string) {
    RowOk(s, key) && Prompt(s, key) && forall id :: Outlasted(s, key, id)
  }

  lemma StepKeepsOutlasted(s: State, e: Event, key: string, id: int)
    requires LateInv(s, key) && !PurgesCompleted(s, e, key)
    ensures Outlasted(Next(s, e), key, id)
  {
    hide Unversioned, Stored;
    assert Outlasted(s, key, id);
    if e.ReleaseRuns? {
      assert Outlasted(s, key, e.id);
    }
  }

  lemma PromptEarlier(start: int, run: seq<Event>, i: nat, key: string)
    requires i <= |run| && Prompt(After(start, run, |run|), key)
    ensures Prompt(After(start, run, i), key)
  {
    hide After, Next;
    var s := After(start, run, i);
    forall id | id in s.claims && s.claims[id].claim.key == key
      ensures s.claims[id].at < s.claims[id].claim.claimedAt + KEY_TTL_MS
    {
      ClaimsStay(start, run, i, |run|, id);
    }
  }

  lemma NothingOutlasted(start: int, key: string)
    ensures forall id :: Outlasted(Start(start), key, id)
  {
  }

  lemma {:induction false} LateReachable(start: int, run: seq<Event>, i: nat, key: string)
    requires i <= |run| && NeverPurged(start, run, key) && Prompt(After(start, run, |run|), key)
    ensures LateInv(After(start, run, i), key)
  {
    hide Next, RowOk, Outlasted, PurgesCompleted, Prompt;
    Reachable(start, run, i);
    PromptEarlier(start, run, i, key);
    assert RowOk(After(start, run, i), key);
    if i == 0 {
      NothingOutlasted(start, key);
    } else {
      LateReachable(start, run, i - 1, key);
      forall id ensures Outlasted(After(start, run, i), key, id) {
        StepKeepsOutlasted(After(start, run, i - 1), run[i - 1], key, id);
      }
    }
  }

  /**
   Whatever a superseded claimant may still send touches nothing, in every run in which claims are prompt
   and no completed record of the key is purged. The two runs below show that neither can be dropped.
   */
  lemma LateStatementsTouchNothing(start: int, run: seq<Event>, i: nat, id: int, status: int, body: Json)
    requires i <= |run| && Superseded(After(start, run, i), id)
    requires var key := After(start, run, i).claims[id].claim.key;
      NeverPurged(start, run, key) && Prompt(After(start, run, |run|), key)
    ensures var s := After(start, run, i);
      && Next(s, ReleaseRuns(id)).rows == s.rows
      && Next(s, CommitRuns(id, status, body)).rows == s.rows
      && Next(s, CommitRuns(id, status, body)).commits == s.commits
  {
    hide After, Outlasted, Confused;
    var s := After(start, run, i);
    var key := s.claims[id].claim.key;
    LateReachable(start, run, i, key);
    assert Outlasted(s, key, id);
    if id !in s.released {
      NotConfused(s, id);
      StaleTouchesOnlySameMillisecond(start, run, i, id, status, body);
    }
  }

  lemma NotConfused(s: State, id: int)
    requires Superseded(s, id) && id !in s.released
    requires var key := s.claims[id].claim.key; Prompt(s, key) && RowOk(s, key) && Outlasted(s, key, id)
    ensures !Confused(s, id)
  {
    var key := s.claims[id].claim.key;
    assert s.claims[s.owner[key]].at < s.claims[s.owner[key]].claim.claimedAt + KEY_TTL_MS;
  }

  /**
   A completion whose answer was lost is followed by a release. Another instance purged the record meanwhile,
   and a request that had read its claim time in the same millisecond claimed the key: its row is deleted.
   */
  lemma LateReleaseDeletesSuccessor(key: string, version: int)
    ensures var run := [ClaimRuns(1, key, "", 0), Tick(1), CommitRuns(1, 201, Other("{}")),
                        PurgeUnversioned(key, version), ClaimRuns(2, key, "", 0), ReleaseRuns(1)];
      && After(0, run, 5).rows == map[key := Fresh("", 0)] && OwnerOf(After(0, run, 5), key) == 2
      && After(0, run, 6).rows == map[] && 2 !in After(0, run, 6).released
  {
    var run := [ClaimRuns(1, key, "", 0), Tick(1), CommitRuns(1, 201, Other("{}")), PurgeUnversioned(key, version),
                ClaimRuns(2, key, "", 0), ReleaseRuns(1)];
    var c1, c2, log := Installed(Claim(key, 0), 0), Installed(Claim(key, 0), 1), [Commit(1, 1)];
    var done := Fresh("", 0).(status := Some(201), body := Other("{}"));
    assert After(0, run, 1) == State(0, map[key := Fresh("", 0)], map[key := 1], map[1 := c1], {}, {}, []);
    assert After(0, run, 2) == After(0, run, 1).(now := 1);
    assert After(0, run, 3) == State(1, map[key := done], map[key := 1], map[1 := c1], {1}, {}, log);
    assert After(0, run, 4) == After(0, run, 3).(rows := map[]);
    assert After(0, run, 5) == State(1, map[key := Fresh("", 0)], map[key := 2], map[1 := c1, 2 := c2], {1}, {}, log);
  }

  /**
   A claim statement that ran a day late takes over in the millisecond of the first claim, whose late completion
   takes its row.
   */
  lemma LateCompletionTakesSuccessor(key: string)
    ensures var run := [ClaimRuns(1, key, "", 0), Tick(KEY_TTL_MS), ClaimRuns(2, key, "", 0), CommitRuns(1, 201, Null)];
      OwnerOf(After(0, run, 3), key) == 2 && After(0, run, 4).commits == [Commit(1, 2)]
  {
    var run := [ClaimRuns(1, key, "", 0), Tick(KEY_TTL_MS), ClaimRuns(2, key, "", 0), CommitRuns(1, 201, Null)];
    var c1, c2 := Installed(Claim(key, 0), 0), Installed(Claim(key, 0), KEY_TTL_MS);
    assert After(0, run, 1) == State(0, map[key := Fresh("", 0)], map[key := 1], map[1 := c1], {}, {}, []);
    assert After(0, run, 2) == After(0, run, 1).(now := KEY_TTL_MS);
    assert After(0, run, 3) ==
           State(KEY_TTL_MS, map[key := Fresh("", 0)], map[key := 2], map[1 := c1, 2 := c2], {}, {}, []);
  }

  // At most once a day

  /**
   Which single step makes the key of a completed, unexpired record claimable again: only a purge of that
   key whose shape test matches the stored body.
   */
  lemma OnlyPurgeFreesCompleted(start: int, run: seq<Event>, i: nat, e: Event, key: string)
    requires i <= |run| && !e.Tick?
    requires var s := After(start, run, i); key in s.rows && s.rows[key].status.Some? && s.now < s.rows[key].expiresAt
    ensures var s := After(start, run, i);
      Claimable(Next(s, e).rows, key, s.now) <==>
        e.PurgeUnversioned? && e.key == key && Unversioned(s.rows[key].body, e.version).True?
  {
    hide After, Unversioned;
    Reachable(start, run, i);
    assert RowOk(After(start, run, i), key);
  }

  predicate Committed(s: State, key: string, row: int) {
    (exists c :: c in s.commits && c.row == row) && row in s.claims && s.claims[row].claim.key == key
  }

  /** Its record still answers retries, or its day is over. */
  predicate Kept(s: State, key: string, row: int) {
    Committed(s, key, row) ==>
      if key in s.rows && key in s.owner && s.owner[key] == row then s.rows[key].status.Some?
      else s.claims[row].claim.claimedAt + KEY_TTL_MS <= s.now
  }

  /** Whoever owns the row now claimed it a day or more after that commit's claim. */
  predicate OwnerLater(s: State, key: string, row: int) {
    Committed(s, key, row) && key in s.rows && key in s.owner && s.owner[key] != row && s.owner[key] in s.claims ==>
      s.claims[row].claim.claimedAt + KEY_TTL_MS <= s.claims[s.owner[key]].at
  }

  /** A commit completed a record of its own claimant's very claim: same key, same time. */
  predicate LogOk(s: State) {
    forall c :: c in s.commits ==>
      c.row in s.claims && c.claimant in s.claims && s.claims[c.row].claim == s.claims[c.claimant].claim
  }

  ghost predicate DayInv(s: State, key: string) {
    RowsOk(s) && LogOk(s) && forall row :: Kept(s, key, row) && OwnerLater(s, key, row)
  }

  /** The event is a mutation of the key that commits. */
  predicate Commits(s: State, e: Event, key: string) {
    e.CommitRuns? && MayComplete(s, e.id) && s.claims[e.id].claim.key == key && OwnClaim(s.rows, s.claims[e.id].claim)
  }

  lemma StepKeepsLog(s: State, e: Event)
    requires RowsOk(s) && LogOk(s)
    ensures LogOk(Next(s, e))
  {
    if e.CommitRuns? && MayComplete(s, e.id) {
      assert RowOk(s, s.claims[e.id].claim.key);
    }
  }

  lemma StepCommits(s: State, e: Event, key: string, row: int)
    requires RowsOk(s) && LogOk(s) && Committed(Next(s, e), key, row)
    ensures Committed(s, key, row) || (Commits(s, e, key) && row == OwnerOf(s, key))
  {
    var c :| c in Next(s, e).commits && c.row == row;
    if c in s.commits {
      StepKeepsClaims(s, e, row);
    } else {
      assert e.CommitRuns? && MayComplete(s, e.id) && OwnClaim(s.rows, s.claims[e.id].claim);
      assert RowOk(s, s.claims[e.id].claim.key);
    }
  }

  lemma CommittedStays(s: State, e: Event, key: string, row: int)
    requires Committed(s, key, row)
    ensures Next(s, e).claims[row] == s.claims[row]
  {
    StepKeepsClaims(s, e, row);
  }

  lemma StepKeepsDay(s: State, e: Event, key: string, row: int)
    requires DayInv(s, key) && !PurgesCompleted(s, e, key)
    ensures Kept(Next(s, e), key, row) && OwnerLater(Next(s, e), key, row)
  {
    hide Unversioned, Committed, Stored, LogOk;
    assert Kept(s, key, row) && OwnerLater(s, key, row) && RowOk(s, key);
    if Committed(Next(s, e), key, row) {
      StepCommits(s, e, key, row);
      CommittedInClaims(Next(s, e), key, row);
      if Committed(s, key, row) {
        CommittedInClaims(s, key, row);
        StepKeepsClaims(s, e, row);
      }
    }
  }

  lemma CommittedInClaims(s: State, key: string, row: int)
    requires Committed(s, key, row)
    ensures row in s.claims && s.claims[row].claim.key == key
  {
  }

  lemma {:induction false} DayReachable(start: int, run: seq<Event>, i: nat, key: string)
    requires i <= |run| && NeverPurged(start, run, key)
    ensures DayInv(After(start, run, i), key)
  {
    Reachable(start, run, i);
    if i > 0 {
      hide Next, RowsOk, Kept, OwnerLater, PurgesCompleted, LogOk;
      DayReachable(start, run, i - 1, key);
      StepKeepsLog(After(start, run, i - 1), run[i - 1]);
      forall row ensures Kept(After(start, run, i), key, row) && OwnerLater(After(start, run, i), key, row) {
        StepKeepsDay(After(start, run, i - 1), run[i - 1], key, row);
      }
    }
  }

  /** The claim of the commit at `j` was made a day or more after the claim of the commit at `i`. */
  predicate DayApart(s: State, key: string, i: nat, j: nat) {
    i < j < |s.commits| && Committed(s, key, s.commits[i].row) && Committed(s, key, s.commits[j].row) ==>
      s.claims[s.commits[i].row].claim.claimedAt + KEY_TTL_MS <= s.claims[s.commits[j].row].at
  }

  lemma StepKeepsApart(s: State, e: Event, key: string, i: nat, j: nat)
    requires DayInv(s, key) && DayApart(s, key, i, j)
    ensures DayApart(Next(s, e), key, i, j)
  {
    hide Kept, OwnerLater, Unversioned, Stored;
    var t := Next(s, e);
    if i < j < |t.commits| && Committed(t, key, t.commits[i].row) && Committed(t, key, t.commits[j].row) {
      assert t.commits[i] == s.commits[i] && s.commits[i] in s.commits;
      StepKeepsClaims(s, e, s.commits[i].row);
      if j < |s.commits| {
        assert t.commits[j] == s.commits[j] && s.commits[j] in s.commits;
        StepKeepsClaims(s, e, s.commits[j].row);
      } else {
        NewCommitOnKey(s, e, key);
        NewCommitApart(s, e, key, s.commits[i].row);
      }
    }
  }

  lemma NewCommitOnKey(s: State, e: Event, key: string)
    requires RowsOk(s) && LogOk(s) && |Next(s, e).commits| > |s.commits|
    requires Committed(Next(s, e), key, Next(s, e).commits[|s.commits|].row)
    ensures Commits(s, e, key) && Next(s, e).commits[|s.commits|].row == OwnerOf(s, key)
  {
    hide Committed;
    CommittedInClaims(Next(s, e), key, Next(s, e).commits[|s.commits|].row);
    assert RowOk(s, s.claims[e.id].claim.key);
  }

  /**
   A mutation commits on a record of another claim than any that committed before, and its claim is a day or
   more later.
   */
  lemma NewCommitApart(s: State, e: Event, key: string, row: int)
    requires DayInv(s, key) && Commits(s, e, key) && Committed(s, key, row)
    ensures OwnerOf(s, key) in s.claims && OwnerOf(s, key) != row
    ensures s.claims[row].claim.claimedAt + KEY_TTL_MS <= s.claims[OwnerOf(s, key)].at
  {
    hide Committed;
    CommittedInClaims(s, key, row);
    assert RowOk(s, key) && Kept(s, key, row) && OwnerLater(s, key, row);
  }

  /**
   At most once a day: over any interleaving of claims, takeovers, completions, releases and expiry in which no
   completed record of the key is purged as unversioned, two mutations that committed under one key have claims
   at least 24 hours apart.
   */
  lemma {:induction false} CommittedADayApart(start: int, run: seq<Event>, n: nat, key: string, i: nat, j: nat)
    requires n <= |run| && NeverPurged(start, run, key)
    ensures DayApart(After(start, run, n), key, i, j)
  {
    if n > 0 {
      hide Next, DayInv, DayApart;
      CommittedADayApart(start, run, n - 1, key, i, j);
      DayReachable(start, run, n - 1, key);
      StepKeepsApart(After(start, run, n - 1), run[n - 1], key, i, j);
    }
  }

  /**
   A rollout breaks it: the record an unversioned instance completed is purged, and the mutation commits again
   at once.
   */
  lemma RolloutCommitsTwice(key: string, version: int)
    ensures var run := [ClaimRuns(1, key, "", 0), CommitRuns(1, 201, Other("{}")), PurgeUnversioned(key, version),
                        Tick(1), ClaimRuns(2, key, "", 1), CommitRuns(2, 201, Stored(Some(version), Some(Null)))];
      After(0, run, 6).commits == [Commit(1, 1), Commit(2, 2)] && !DayApart(After(0, run, 6), key, 0, 1)
  {
    var run := [ClaimRuns(1, key, "", 0), CommitRuns(1, 201, Other("{}")), PurgeUnversioned(key, version), Tick(1),
                ClaimRuns(2, key, "", 1), CommitRuns(2, 201, Stored(Some(version), Some(Null)))];
    var c1, c2 := Installed(Claim(key, 0), 0), Installed(Claim(key, 1), 1);
    var done := Fresh("", 0).(status := Some(201), body := Other("{}"));
    assert After(0, run, 1) == State(0, map[key := Fresh("", 0)], map[key := 1], map[1 := c1], {}, {}, []);
    assert After(0, run, 2) == State(0, map[key := done], map[key := 1], map[1 := c1], {1}, {}, [Commit(1, 1)]);
    assert After(0, run, 3) == After(0, run, 2).(rows := map[]);
    assert After(0, run, 4) == After(0, run, 3).(now := 1);
    assert After(0, run, 5) ==
           State(1, map[key := Fresh("", 1)], map[key := 2], map[1 := c1, 2 := c2], {1}, {}, [Commit(1, 1)]);
    TwoWithinADay(After(0, run, 6), key, c1, c2);
  }

  lemma TwoWithinADay(s: State, key: string, c1: Installed, c2: Installed)
    requires s.commits == [Commit(1, 1), Commit(2, 2)] && s.claims == map[1 := c1, 2 := c2]
    requires c1.claim.key == key && c2.claim.key == key && c2.at < c1.claim.claimedAt + KEY_TTL_MS
    ensures !DayApart(s, key, 0, 1)
  {
    assert s.commits[0] in s.commits && s.commits[1] in s.commits;
  }

  /** A body no purge of the route's own version can match. */
  predicate Storable(version: Option<int>, body: Json) {
    version.None? || VersionedRecord(body, version.value)
  }

  /** Every instance runs one version of the route, and stores and purges by it. */
  predicate SameRoute(key: string, version: Option<int>, s: State, e: Event) {
    match e
    case CommitRuns(id, _, body) => id in s.claims && s.claims[id].claim.key == key ==> Storable(version, body)
    case PurgeUnversioned(k, v) => k == key ==> version == Some(v)
    case AdoptRuns(k, v, _) => k == key ==> version == Some(v)
    case _ => true
  }

  predicate BodyOk(s: State, key: string, version: Option<int>) {
    key in s.rows && s.rows[key].status.Some? ==> Storable(version, s.rows[key].body)
  }

  lemma StepKeepsBody(s: State, e: Event, key: string, version: Option<int>)
    requires BodyOk(s, key, version) && SameRoute(key, version, s, e)
    ensures BodyOk(Next(s, e), key, version) && !PurgesCompleted(s, e, key)
  {
  }

  ghost predicate OneVersion(start: int, run: seq<Event>, key: string, version: Option<int>) {
    forall k :: 0 <= k < |run| ==> SameRoute(key, version, After(start, run, k), run[k])
  }

  lemma {:induction false} BodiesStorable(start: int, run: seq<Event>, i: nat, key: string, version: Option<int>)
    requires i <= |run| && OneVersion(start, run, key, version)
    ensures BodyOk(After(start, run, i), key, version)
  {
    if i > 0 {
      hide Next, BodyOk, PurgesCompleted, SameRoute;
      BodiesStorable(start, run, i - 1, key, version);
      StepKeepsBody(After(start, run, i - 1), run[i - 1], key, version);
    }
  }

  /** Instances of one version that store a body with every answer never purge a completed record. */
  lemma OneVersionNeverPurges(start: int, run: seq<Event>, key: string, version: Option<int>)
    requires OneVersion(start, run, key, version)
    ensures NeverPurged(start, run, key)
  {
    hide Next, After, BodyOk, PurgesCompleted, SameRoute;
    forall k | 0 <= k < |run| ensures !PurgesCompleted(After(start, run, k), run[k], key) {
      BodiesStorable(start, run, k, key, version);
      StepKeepsBody(After(start, run, k), run[k], key, version);
    }
  }

  // The code's own loop

  datatype Scope = Scope(storedKey: string, requestHash: string)

  datatype Begun =
    | Owned(claim: Claim)
    | Replay(status: int, body: Json)
    | Reused
    | StillInFlight(retryable: bool)

  /** One call with the table to itself. */
  function BegunAlone(
      rows: Rows, now: int, scope: Scope, version: Option<int>, adoptLegacy: Json -> Option<Json>): (Rows, Begun) {
    var claimed := (ClaimRow(rows, scope.storedKey, scope.requestHash, now, now), Owned(Claim(scope.storedKey, now)));
    if Claimable(rows, scope.storedKey, now) then claimed
    else match AnswerFor(rows[scope.storedKey], scope.requestHash, version, adoptLegacy)
      case KeyReused => (rows, Reused)
      case InFlight => (rows, StillInFlight(false))
      case Replays(status, body) => (rows, Replay(status, body))
      case Adopts(status, body) => (AdoptRow(rows, scope.storedKey, version.GetOr(0), body), Replay(status, body))
      case Purges =>
        if Unversioned(rows[scope.storedKey].body, version.GetOr(0)).True? then
          (rows[scope.storedKey := Fresh(scope.requestHash, now)], Owned(Claim(scope.storedKey, now)))
        else (rows, StillInFlight(true))
  }

  /** A call that has gone round `attempt` times alone: it purged a record once, or it is facing one it cannot purge. */
  predicate AloneAfter(
      before: Rows, rows: Rows, now: int, attempt: nat, scope: Scope, version: Option<int>,
      adoptLegacy: Json -> Option<Json>) {
    if attempt == 0 then rows == before
    else
      && !Claimable(before, scope.storedKey, now) && version.Some?
      && AnswerFor(before[scope.storedKey], scope.requestHash, version, adoptLegacy) == Purges
      && (if Unversioned(before[scope.storedKey].body, version.value).True?
          then attempt == 1 && rows == before - {scope.storedKey}
          else rows == before)
  }

  /** A completed record of the same request on a versioned route, with such a body that is not adopted either. */
  predicate StuckRecord(rows: Rows, scope: Scope, version: Option<int>, adoptLegacy: Json -> Option<Json>) {
    && scope.storedKey in rows && version.Some?
    && rows[scope.storedKey].requestHash == scope.requestHash && rows[scope.storedKey].status.Some?
    && StuckBody(rows[scope.storedKey].body, version.value) && adoptLegacy(rows[scope.storedKey].body).None?
  }

  /** Alone, a call is refused as retryable exactly for an unexpired record with a stuck body. */
  lemma StuckExactly(rows: Rows, now: int, scope: Scope, version: Option<int>, adoptLegacy: Json -> Option<Json>)
    ensures BegunAlone(rows, now, scope, version, adoptLegacy).1 == StillInFlight(true) <==>
      StuckRecord(rows, scope, version, adoptLegacy) && now < rows[scope.storedKey].expiresAt
    ensures BegunAlone(rows, now, scope, version, adoptLegacy).1 == StillInFlight(true) ==>
      BegunAlone(rows, now, scope, version, adoptLegacy).0 == rows
  {
    hide Unversioned, ClaimRow, AdoptRow;
    if scope.storedKey in rows && version.Some? {
      var body := rows[scope.storedKey].body;
      if VersionedRecord(body, version.value) {
        assert !StuckBody(body, version.value);
      } else {
        PurgeMissesExactly(body, version.value);
      }
    }
  }

  /**
   A legacy answer is given as adopted, with its status; every later call before expiry gets the same, from the
   record itself wherever the migration could reach it.
   */
  lemma LegacyIsAdopted(
      rows: Rows, now: int, later: int, scope: Scope, version: int, legacy: Json -> Option<Json>, adopted: Json)
    requires scope.storedKey in rows && now <= later < rows[scope.storedKey].expiresAt
    requires var r := rows[scope.storedKey];
      r.requestHash == scope.requestHash && r.status.Some? && !VersionedRecord(r.body, version)
      && legacy(r.body) == Some(adopted)
    ensures var (after, answer) := BegunAlone(rows, now, scope, Some(version), legacy);
      && answer == Replay(rows[scope.storedKey].status.value, adopted)
      && after.Keys == rows.Keys && (forall k :: k in rows && k != scope.storedKey ==> after[k] == rows[k])
      && BegunAlone(after, later, scope, Some(version), legacy) == (after, answer)
      && (!StuckBody(rows[scope.storedKey].body, version) ==>
            VersionedRecord(after[scope.storedKey].body, version) && after[scope.storedKey].body.body == Some(adopted))
  {
    hide Unversioned, Stored;
    PurgeMissesExactly(rows[scope.storedKey].body, version);
    if UnversionedRow(rows, scope.storedKey, version) {
      AdoptedIsReplayed(rows, scope.storedKey, version, adopted, legacy);
      StoredIsVersioned(version, adopted);
    }
  }

  lemma StoredIsVersioned(version: int, body: Json)
    ensures VersionedRecord(Stored(Some(version), Some(body)), version)
    ensures Stored(Some(version), Some(body)).body == Some(body)
  {
  }

  /** Calls one after the other, each with the table to itself: the table they leave and their answers. */
  function CallsAlone(
      rows: Rows, times: seq<int>, scope: Scope, version: Option<int>,
      adoptLegacy: Json -> Option<Json>): (Rows, seq<Begun>) {
    if times == [] then (rows, [])
    else
      var before := CallsAlone(rows, times[..|times| - 1], scope, version, adoptLegacy);
      var last := BegunAlone(before.0, times[|times| - 1], scope, version, adoptLegacy);
      (last.0, before.1 + [last.1])
  }

  /**
   Once a record is stuck, every call before it expires gets the same 409 and leaves the table alone; the first
   one after claims the key.
   */
  lemma {:induction false} StuckUntilExpiry(
      rows: Rows, times: seq<int>, scope: Scope, version: Option<int>, adoptLegacy: Json -> Option<Json>)
    requires StuckRecord(rows, scope, version, adoptLegacy)
    requires forall i :: 0 <= i < |times| ==> times[i] < rows[scope.storedKey].expiresAt
    ensures var (after, answers) := CallsAlone(rows, times, scope, version, adoptLegacy);
      && after == rows && |answers| == |times| && (forall a :: a in answers ==> a == StillInFlight(true))
      && forall now :: now >= rows[scope.storedKey].expiresAt ==>
           BegunAlone(after, now, scope, version, adoptLegacy).1 == Owned(Claim(scope.storedKey, now))
  {
    hide StuckRecord;
    if times != [] {
      var n := |times| - 1;
      StuckUntilExpiry(rows, times[..n], scope, version, adoptLegacy);
      StuckExactly(rows, times[n], scope, version, adoptLegacy);
    }
  }

  /**
   First request, completion, retry: while the record lives, a retry with the same body gets the first answer
   and another body is refused; once it has expired, or the claim was released, the key is claimed anew.
   */
  lemma RetryFollowsFirst(
      rows: Rows, now: int, later: int, scope: Scope, other: string, version: Option<int>, status: int,
      body: Option<Json>)
    requires Claimable(rows, scope.storedKey, now) && now <= later && other != scope.requestHash
    requires version.Some? ==> body.Some?
    ensures var (claimed, begun) := BegunAlone(rows, now, scope, version, AdoptNothing());
      var done := CompleteRow(claimed, begun.claim, status, Stored(version, body));
      var released := ReleaseRow(claimed, begun.claim);
      && begun == Owned(Claim(scope.storedKey, now)) && OwnClaim(claimed, begun.claim)
      && BegunAlone(claimed, later, scope, version, AdoptNothing()).1
         == (if later < now + KEY_TTL_MS then StillInFlight(false) else Owned(Claim(scope.storedKey, later)))
      && BegunAlone(done, later, scope, version, AdoptNothing()).1
         == (if later < now + KEY_TTL_MS then Replay(status, body.GetOr(Null))
             else Owned(Claim(scope.storedKey, later)))
      && BegunAlone(done, later, Scope(scope.storedKey, other), version, AdoptNothing()).1
         == (if later < now + KEY_TTL_MS then Reused else Owned(Claim(scope.storedKey, later)))
      && BegunAlone(released, later, scope, version, AdoptNothing()).1 == Owned(Claim(scope.storedKey, later))
  {
    hide Unversioned;
    var claimed := ClaimRow(rows, scope.storedKey, scope.requestHash, now, now);
    var claim := Claim(scope.storedKey, now);
    var done := CompleteRow(claimed, claim, status, Stored(version, body));
    assert OwnClaim(claimed, claim);
    assert done[scope.storedKey] ==
           Fresh(scope.requestHash, now).(status := Some(status), body := Stored(version, body));
    ReplayReturnsFirstAnswer(scope.requestHash, version, status, body, now);
    assert scope.storedKey !in ReleaseRow(claimed, claim);
  }

  class IdempotencyTable {
    var rows: Rows
    var now: int

    constructor (now: int)
      ensures rows == map[] && this.now == now
    {
      rows, this.now := map[], now;
    }

    /** Whatever other requests and the retention job do between two statements; nothing when no one else is `busy`. */
    method Others(busy: bool)
      modifies this
      ensures now >= old(now)
      ensures !busy ==> rows == old(rows) && now == old(now)
    {
      if busy {
        var later :| later >= now;
        now := later;
        rows := *;
      }
    }

    method InsertOrTakeOver(scope: Scope, claimedAt: int) returns (claimed: bool)
      modifies this`rows
      ensures claimed <==> Claimable(old(rows), scope.storedKey, now)
      ensures rows == ClaimRow(old(rows), scope.storedKey, scope.requestHash, claimedAt, now)
    {
      claimed := scope.storedKey !in rows || rows[scope.storedKey].expiresAt <= now;
      if claimed {
        rows := rows[scope.storedKey := Rec(scope.requestHash, None, Null, claimedAt, claimedAt + KEY_TTL_MS)];
      }
    }

    /**
     Claims the key or answers from the record some moment of the call saw (`seen`, the last row read).
     Whatever the others do, execution is granted only by a claim this call just installed.
     */
    method Begin(
        scope: Scope, version: Option<int>, adoptLegacy: Json -> Option<Json>, busy: bool)
      returns (begun: Begun, ghost seen: Option<Rec>)
      modifies this
      ensures now >= old(now)
      ensures begun.Owned? ==>
        && begun.claim.key == scope.storedKey && old(now) <= begun.claim.claimedAt <= now
        && scope.storedKey in rows && rows[scope.storedKey] == Fresh(scope.requestHash, begun.claim.claimedAt)
      ensures begun.Replay? ==> seen.Some? && AnswerFor(seen.value, scope.requestHash, version, adoptLegacy)
                                in {Replays(begun.status, begun.body), Adopts(begun.status, begun.body)}
      ensures begun.Reused? ==> seen.Some? && seen.value.requestHash != scope.requestHash
      ensures begun == StillInFlight(false) ==>
                seen.Some? && seen.value.requestHash == scope.requestHash && seen.value.status.None?
      ensures begun == StillInFlight(true) ==>
        seen.None? || AnswerFor(seen.value, scope.requestHash, version, adoptLegacy) == Purges
      ensures !busy ==> (rows, begun) == BegunAlone(old(rows), old(now), scope, version, adoptLegacy)
    {
      seen := None;
      for attempt := 0 to CLAIM_ATTEMPTS
        invariant now >= old(now)
        invariant seen.None? || AnswerFor(seen.value, scope.requestHash, version, adoptLegacy) == Purges
        invariant !busy ==> now == old(now)
        invariant !busy ==> AloneAfter(old(rows), rows, now, attempt, scope, version, adoptLegacy)
      {
        var claimedAt := now;
        Others(busy);
        var claimed := InsertOrTakeOver(scope, claimedAt);
        if claimed {
          assert !busy ==> rows == old(rows)[scope.storedKey := Fresh(scope.requestHash, claimedAt)];
          return Owned(Claim(scope.storedKey, claimedAt)), seen;
        }
        Others(busy);
        if scope.storedKey !in rows {
          continue;
        }
        var existing := rows[scope.storedKey];
        seen := Some(existing);
        if existing.requestHash != scope.requestHash {
          return Reused, seen;
        }
        if existing.status.None? {
          return StillInFlight(false), seen;
        }
        if version.None? {
          return Replay(existing.status.value, existing.body), seen;
        }
        if VersionedRecord(existing.body, version.value) {
          return Replay(existing.status.value, existing.body.body.value), seen;
        }
        Others(busy);
        var adopted := adoptLegacy(existing.body);
        if adopted.Some? {
          rows := AdoptRow(rows, scope.storedKey, version.value, adopted.value);
          return Replay(existing.status.value, adopted.value), seen;
        }
        rows := PurgeRow(rows, scope.storedKey, version.value);
      }
      return StillInFlight(true), seen;
    }

    method Release(claim: Claim)
      modifies this`rows
      ensures rows == ReleaseRow(old(rows), claim)
    {
      if claim.key in rows && rows[claim.key].createdAt == claim.claimedAt && rows[claim.key].status.None? {
        rows := rows - {claim.key};
      }
    }

    /** `done` false: the claim is gone, and a caller inside a transaction must roll back. */
    method CompleteWithin(claim: Claim, status: int, body: Json) returns (done: bool)
      modifies this`rows
      ensures done <==> OwnClaim(old(rows), claim)
      ensures rows == CompleteRow(old(rows), claim, status, body)
    {
      done := claim.key in rows && rows[claim.key].createdAt == claim.claimedAt && rows[claim.key].status.None?;
      if done {
        rows := rows[claim.key := rows[claim.key].(status := Some(status), body := body)];
      }
    }

    method PurgeExpiredKeys()
      modifies this`rows
      ensures rows == PurgeExpiredRows(old(rows), now)
      ensures forall key :: key in rows <==> key in old(rows) && now <= old(rows)[key].expiresAt
      ensures forall key :: key in rows ==> rows[key] == old(rows)[key]
    {
      rows := map key | key in rows && rows[key].expiresAt >= now :: rows[key];
    }
  }
}
