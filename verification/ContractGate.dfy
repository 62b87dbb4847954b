/**
 The contract gate: a breaking-change report is admitted only when each of its
 errors consumes a recorded exception of its own for these exact contract bytes.
 */
module ContractGate {
  import opened Wrappers
  import opened Sums

  datatype Severity = Error | Warning | Info

  datatype Finding = Finding(severity: Severity, text: string)

  datatype Exception = Exception(id: string, baseSha256: string, revisionSha256: string, diagnostic: string)

  /** One line of the report, as the severity and summary patterns read it. */
  datatype Line =
    | Opens(severity: Severity, text: string)
    | Counts(error: nat, warning: nat, info: nat)
    | Blank
    | Continues(text: string)

  datatype Summary = Summary(error: nat, warning: nat, info: nat)

  // The report

  /** The last finding takes a continuation line; before any finding it belongs to nothing. */
  function Extend(findings: seq<Finding>, line: Line): seq<Finding> {
    match line
    case Opens(severity, text) => findings + [Finding(severity, text)]
    case Continues(text) =>
      if findings == [] then []
      else findings[|findings| - 1 := findings[|findings| - 1].(text := findings[|findings| - 1].text + "\n" + text)]
    case _ => findings
  }

  function Findings(lines: seq<Line>): seq<Finding> {
    if lines == [] then [] else Extend(Findings(lines[..|lines| - 1]), lines[|lines| - 1])
  }

  function LastSummary(lines: seq<Line>): Option<Summary> {
    if lines == [] then None
    else match lines[|lines| - 1]
      case Counts(e, w, i) => Some(Summary(e, w, i))
      case _ => LastSummary(lines[..|lines| - 1])
  }

  method ParseReport(lines: seq<Line>) returns (summary: Option<Summary>, findings: seq<Finding>)
    ensures summary == LastSummary(lines) && findings == Findings(lines)
  {
    summary, findings := None, [];
    for i := 0 to |lines|
      invariant summary == LastSummary(lines[..i]) && findings == Findings(lines[..i])
    {
      assert lines[..i + 1][..i] == lines[..i];
      match lines[i] {
        case Opens(severity, text) => findings := findings + [Finding(severity, text)];
        case Counts(e, w, n) => summary := Some(Summary(e, w, n));
        case Blank =>
        case Continues(text) =>
          if findings != [] {
            var last := findings[|findings| - 1];
            findings := findings[|findings| - 1 := last.(text := last.text + "\n" + text)];
          }
      }
    }
    assert lines[..|lines|] == lines;
  }

  function CountOf(findings: seq<Finding>, s: Severity): nat {
    if findings == [] then 0
    else CountOf(findings[..|findings| - 1], s) + if findings[|findings| - 1].severity == s then 1 else 0
  }

  function Openings(lines: seq<Line>, s: Severity): nat {
    if lines == [] then 0
    else
      var last := lines[|lines| - 1];
      Openings(lines[..|lines| - 1], s) + if last.Opens? && last.severity == s then 1 else 0
  }

  /** Every severity opens its own finding: none is swallowed as the continuation of another, and none is invented. */
  lemma {:induction false} EachOpeningIsAFinding(lines: seq<Line>, s: Severity)
    ensures CountOf(Findings(lines), s) == Openings(lines, s)
  {
    if lines != [] {
      var n := |lines| - 1;
      var before, after := Findings(lines[..n]), Findings(lines);
      EachOpeningIsAFinding(lines[..n], s);
      if lines[n].Opens? {
        assert after[..|before|] == before;
      } else if lines[n].Continues? && before != [] {
        assert after[..|before| - 1] == before[..|before| - 1];
      }
    }
  }

  /** The text of a finding that opens with `text`, and what the lines after it add up to the next opening. */
  function TextFrom(text: string, after: seq<Line>): string
    decreases |after|
  {
    if after == [] then text
    else match after[0]
      case Opens(_, _) => text
      case Continues(more) => TextFrom(text + "\n" + more, after[1..])
      case _ => TextFrom(text, after[1..])
  }

  predicate NoneOpens(lines: seq<Line>) { forall line :: line in lines ==> !line.Opens? }

  function AllOpenings(lines: seq<Line>): nat {
    if lines == [] then 0 else AllOpenings(lines[..|lines| - 1]) + if lines[|lines| - 1].Opens? then 1 else 0
  }

  lemma {:induction false} TextSnoc(text: string, after: seq<Line>, line: Line)
    ensures TextFrom(text, after + [line]) ==
            TextFrom(text, after) + if line.Continues? && NoneOpens(after) then "\n" + line.text else ""
    decreases |after|
  {
    if after == [] {
      assert (after + [line])[1..] == [];
    } else {
      assert (after + [line])[1..] == after[1..] + [line];
      assert after == [after[0]] + after[1..];
      match after[0]
      case Opens(_, _) => assert after[0] in after;
      case Continues(more) => TextSnoc(text + "\n" + more, after[1..], line);
      case _ => TextSnoc(text, after[1..], line);
    }
  }

  lemma {:induction false} FindingsCount(lines: seq<Line>)
    ensures |Findings(lines)| == AllOpenings(lines)
  {
    if lines != [] {
      FindingsCount(lines[..|lines| - 1]);
    }
  }

  lemma {:induction false} OpeningsBetween(lines: seq<Line>, i: nat)
    requires i < |lines| && lines[i].Opens?
    ensures AllOpenings(lines[..i]) < AllOpenings(lines)
    ensures AllOpenings(lines[..i]) + 1 == AllOpenings(lines) <==> NoneOpens(lines[i + 1..])
  {
    var n := |lines| - 1;
    if i == n {
      assert lines[i + 1..] == [];
    } else {
      assert lines[..n][..i] == lines[..i];
      OpeningsBetween(lines[..n], i);
      assert lines[i + 1..] == lines[..n][i + 1..] + [lines[n]];
    }
  }

  /**
   The line at `i` opens a finding of its severity, whose text is that line and its continuations up to the next
   opening.
   */
  lemma {:induction false} FindingSays(lines: seq<Line>, i: nat)
    requires i < |lines| && lines[i].Opens?
    ensures AllOpenings(lines[..i]) < |Findings(lines)|
    ensures Findings(lines)[AllOpenings(lines[..i])] ==
        Finding(lines[i].severity, TextFrom(lines[i].text, lines[i + 1..]))
  {
    hide AllOpenings, TextFrom;
    var n := |lines| - 1;
    FindingsCount(lines);
    OpeningsBetween(lines, i);
    if i == n {
      assert lines[i + 1..] == [];
      FindingsCount(lines[..n]);
      NothingAfter(lines[i].text);
    } else {
      var before := lines[..n];
      FindingSays(before, i);
      FindingsCount(before);
      OpeningsBetween(before, i);
      assert before[..i] == lines[..i];
      assert lines[i + 1..] == before[i + 1..] + [lines[n]];
      TextSnoc(lines[i].text, before[i + 1..], lines[n]);
    }
  }

  lemma NothingAfter(text: string)
    ensures TextFrom(text, []) == text
  {
  }

  /** The summary is the last one the report has. */
  lemma {:induction false} LastSummaryExact(lines: seq<Line>, s: Summary)
    ensures LastSummary(lines) == Some(s) <==>
            exists i :: 0 <= i < |lines| && lines[i] == Counts(s.error, s.warning, s.info)
                        && forall j :: i < j < |lines| ==> !lines[j].Counts?
  {
    if lines != [] {
      var n := |lines| - 1;
      LastSummaryExact(lines[..n], s);
      if i :| 0 <= i < n && lines[i] == Counts(s.error, s.warning, s.info)
              && forall j :: i < j < |lines| ==> !lines[j].Counts?
      {
        assert lines[..n][i] == lines[i] && !lines[n].Counts?;
      }
      if !lines[n].Counts? && LastSummary(lines[..n]) == Some(s) {
        var i :| 0 <= i < n && lines[..n][i] == Counts(s.error, s.warning, s.info)
                 && forall j :: i < j < n ==> !lines[..n][j].Counts?;
        assert lines[i] == lines[..n][i];
        forall j | i < j < |lines| ensures !lines[j].Counts? {
          assert j < n ==> lines[..n][j] == lines[j];
        }
      }
    }
  }

  // Admission

  /** What JavaScript's `\s` matches. */
  predicate IsSpace(c: char) {
    || '\t' <= c <= '\r'
    || c == ' ' || c == '\U{00A0}' || c == '\U{1680}' || c == '\U{2028}' || c == '\U{2029}'
    || c == '\U{202F}' || c == '\U{205F}' || c == '\U{3000}' || c == '\U{FEFF}'
    || '\U{2000}' <= c <= '\U{200A}'
  }

  /** By code point: the white space and the line terminators of ECMAScript, sections 12.2 and 12.3. */
  lemma SpacesExactly(c: char)
    ensures IsSpace(c) <==>
            var n := c as int;
            9 <= n <= 13 || 8192 <= n <= 8202 || n in {32, 160, 5760, 8232, 8233, 8239, 8287, 12288, 65279}
  {
  }

  /** Every run of white space as one space. */
  function Collapse(text: string): string {
    if text == "" then ""
    else if !IsSpace(text[0]) then [text[0]] + Collapse(text[1..])
    else if |text| > 1 && IsSpace(text[1]) then Collapse(text[1..])
    else " " + Collapse(text[1..])
  }

  function TrimLeft(text: string): string {
    if text != "" && IsSpace(text[0]) then TrimLeft(text[1..]) else text
  }

  function TrimRight(text: string): string {
    if text != "" && IsSpace(text[|text| - 1]) then TrimRight(text[..|text| - 1]) else text
  }

  function NormaliseSpace(text: string): string {
    TrimRight(TrimLeft(Collapse(text)))
  }

  predicate StandsAt(part: string, text: string, i: int) {
    0 <= i <= |text| - |part| && text[i..i + |part|] == part
  }

  predicate Includes(text: string, part: string) {
    exists i | 0 <= i <= |text| :: StandsAt(part, text, i)
  }

  lemma IncludesExactly(text: string, part: string)
    ensures Includes(text, part) <==> exists before, after :: text == before + part + after
  {
    if Includes(text, part) {
      var i :| 0 <= i <= |text| && StandsAt(part, text, i);
      assert text == text[..i] + part + text[i + |part|..];
    }
    if before, after :| text == before + part + after {
      assert StandsAt(part, text, |before|);
    }
  }

  predicate AllSpace(text: string) {
    forall i :: 0 <= i < |text| ==> IsSpace(text[i])
  }

  lemma {:induction false} CollapseSpaces(gap: string, rest: string)
    requires gap != "" && AllSpace(gap)
    ensures Collapse(gap + rest) == Collapse(" " + rest)
  {
    var text := gap + rest;
    if |gap| == 1 {
      assert text[1..] == rest && (" " + rest)[1..] == rest;
      assert |rest| > 0 ==> text[1] == rest[0] == (" " + rest)[1];
    } else {
      assert text[1..] == gap[1..] + rest;
      CollapseSpaces(gap[1..], rest);
    }
  }

  lemma {:induction false} CollapseGap(front: string, gap: string, rest: string)
    requires gap != "" && AllSpace(gap)
    ensures Collapse(front + gap + rest) == Collapse(front + " " + rest)
  {
    if front == "" {
      assert front + gap + rest == gap + rest && front + " " + rest == " " + rest;
      CollapseSpaces(gap, rest);
    } else {
      var one, other := front + gap + rest, front + " " + rest;
      assert one[1..] == front[1..] + gap + rest && other[1..] == front[1..] + " " + rest;
      CollapseGap(front[1..], gap, rest);
      assert |front| > 1 ==> one[1] == front[1] == other[1];
      assert |front| == 1 ==> one[1] == gap[0] && other[1] == ' ';
    }
  }

  /** Where the report breaks its lines, and how deep it indents them, does not decide whether an exception applies. */
  lemma LineBreaksAdmitAlike(
      e: Exception, severity: Severity, front: string, gap: string, other: string, rest: string, g: Gate)
    requires gap != "" && AllSpace(gap) && other != "" && AllSpace(other)
    ensures Admits(e, Finding(severity, front + gap + rest), g) <==>
        Admits(e, Finding(severity, front + other + rest), g)
  {
    CollapseGap(front, gap, rest);
    CollapseGap(front, other, rest);
  }

  /** Every white space is a space, and no two are next to each other. */
  predicate Singles(text: string) {
    && (forall i :: 0 <= i < |text| && IsSpace(text[i]) ==> text[i] == ' ')
    && (forall i :: 0 < i < |text| ==> !IsSpace(text[i - 1]) || !IsSpace(text[i]))
  }

  /** And none is at either end. */
  predicate Normal(text: string) {
    Singles(text) && (text != "" ==> !IsSpace(text[0]) && !IsSpace(text[|text| - 1]))
  }

  lemma {:induction false} CollapseKeepsSingles(text: string)
    requires Singles(text)
    ensures Collapse(text) == text
  {
    if text != "" {
      assert |text| > 1 ==> !IsSpace(text[0]) || !IsSpace(text[1]);
      forall i | 0 < i < |text| - 1 ensures !IsSpace(text[1..][i - 1]) || !IsSpace(text[1..][i]) {
        assert !IsSpace(text[i]) || !IsSpace(text[i + 1]);
      }
      CollapseKeepsSingles(text[1..]);
      assert text == [text[0]] + text[1..];
    }
  }

  lemma NormalStays(text: string)
    requires Normal(text)
    ensures NormaliseSpace(text) == text
  {
    CollapseKeepsSingles(text);
  }

  lemma {:induction false} CollapseSingles(text: string)
    ensures Singles(Collapse(text))
    ensures Collapse(text) == "" <==> text == ""
    ensures text != "" ==> (IsSpace(Collapse(text)[0]) <==> IsSpace(text[0]))
  {
    if text != "" {
      var rest := Collapse(text[1..]);
      CollapseSingles(text[1..]);
      var r := Collapse(text);
      if !IsSpace(text[0]) || |text| == 1 || !IsSpace(text[1]) {
        assert r == [r[0]] + rest;
        forall i | 0 < i < |r| ensures !IsSpace(r[i - 1]) || !IsSpace(r[i]) {
          assert r[i] == rest[i - 1] && (i > 1 ==> r[i - 1] == rest[i - 2]);
        }
      }
    }
  }

  lemma {:induction false} TrimLeftNormal(text: string)
    requires Singles(text)
    ensures var r := TrimLeft(text); Singles(r) && (r != "" ==> !IsSpace(r[0]))
  {
    if text != "" && IsSpace(text[0]) {
      forall i | 0 < i < |text| - 1 ensures !IsSpace(text[1..][i - 1]) || !IsSpace(text[1..][i]) {
        assert text[1..][i - 1] == text[i] && text[1..][i] == text[i + 1];
      }
      TrimLeftNormal(text[1..]);
    }
  }

  lemma {:induction false} TrimRightNormal(text: string)
    requires Singles(text) && (text != "" ==> !IsSpace(text[0]))
    ensures Normal(TrimRight(text))
  {
    if text != "" && IsSpace(text[|text| - 1]) {
      TrimRightNormal(text[..|text| - 1]);
    }
  }

  /** What is compared has single spaces and none at its ends, so normalising it again changes nothing. */
  lemma NormalisedIsNormal(text: string)
    ensures Normal(NormaliseSpace(text)) && NormaliseSpace(NormaliseSpace(text)) == NormaliseSpace(text)
  {
    CollapseSingles(text);
    TrimLeftNormal(Collapse(text));
    TrimRightNormal(TrimLeft(Collapse(text)));
    NormalStays(NormaliseSpace(text));
  }

  /** The contract bytes compared, and the exceptions on record. */
  datatype Gate = Gate(base: string, revision: string, exceptions: seq<Exception>)

  predicate Admits(e: Exception, f: Finding, g: Gate) {
    && e.baseSha256 == g.base
    && e.revisionSha256 == g.revision
    && Includes(NormaliseSpace(f.text), NormaliseSpace(e.diagnostic))
  }

  /** Whether the exception recorded at place `p` admits the finding. */
  predicate Fits(p: nat, f: Finding, g: Gate) {
    p < |g.exceptions| && Admits(g.exceptions[p], f, g)
  }

  /** The pool: indices into the recorded exceptions, each at most once. */
  ghost predicate PoolOk(pool: seq<nat>, n: nat) {
    && (forall k :: 0 <= k < |pool| ==> pool[k] < n)
    && (forall i, j :: 0 <= i < j < |pool| ==> pool[i] != pool[j])
  }

  /** The place in the pool, from `k` on, of the first exception that admits the finding. */
  function FindIndex(pool: seq<nat>, k: nat, f: Finding, g: Gate): (r: Option<nat>)
    requires PoolOk(pool, |g.exceptions|) && k <= |pool|
    ensures r.Some? ==> k <= r.value < |pool| && Fits(pool[r.value], f, g)
    ensures r.None? ==> forall i :: k <= i < |pool| ==> !Fits(pool[i], f, g)
    decreases |pool| - k
  {
    if k == |pool| then None
    else if Fits(pool[k], f, g) then Some(k)
    else FindIndex(pool, k + 1, f, g)
  }

  function Splice(pool: seq<nat>, k: nat): seq<nat>
    requires k < |pool|
  {
    pool[..k] + pool[k + 1..]
  }

  /** What each error was admitted by, if anything, and what is left of the pool. */
  datatype Admission = Admission(used: seq<Option<nat>>, pool: seq<nat>)

  /** No exception is used twice, none that is used is left, and none disappears unused. */
  ghost predicate Accounted(a: Admission, n: nat) {
    && PoolOk(a.pool, n)
    && (forall u :: 0 <= u < |a.used| && a.used[u].Some? ==> a.used[u].value < n && a.used[u].value !in a.pool)
    && (forall u, v :: 0 <= u < v < |a.used| && a.used[u].Some? ==> a.used[u] != a.used[v])
    && (forall p: nat :: p < n ==> p in a.pool || Some(p) in a.used)
  }

  function AdmitOne(a: Admission, f: Finding, g: Gate): Admission
    requires PoolOk(a.pool, |g.exceptions|)
  {
    match FindIndex(a.pool, 0, f, g)
    case None => Admission(a.used + [None], a.pool)
    case Some(k) => Admission(a.used + [Some(a.pool[k])], Splice(a.pool, k))
  }

  lemma SpliceKeepsPool(pool: seq<nat>, k: nat, n: nat)
    requires PoolOk(pool, n) && k < |pool|
    ensures PoolOk(Splice(pool, k), n) && pool[k] !in Splice(pool, k)
    ensures forall p: nat :: p in pool ==> p == pool[k] || p in Splice(pool, k)
    ensures forall p: nat :: p in Splice(pool, k) ==> p in pool
  {
    var rest := Splice(pool, k);
    forall p: nat | p in pool && p != pool[k] ensures p in rest {
      var i :| 0 <= i < |pool| && pool[i] == p;
      assert rest[if i < k then i else i - 1] == p;
    }
  }

  lemma AdmitOneAccounts(a: Admission, f: Finding, g: Gate)
    requires Accounted(a, |g.exceptions|)
    ensures var b := AdmitOne(a, f, g);
      && Accounted(b, |g.exceptions|) && |b.used| == |a.used| + 1 && b.used[..|a.used|] == a.used
      && (match b.used[|a.used|]
          case Some(p) => p in a.pool && Fits(p, f, g)
          case None => forall p :: p in a.pool ==> !Fits(p, f, g))
  {
    hide Admits, FindIndex, Splice;
    var found := FindIndex(a.pool, 0, f, g);
    if found.Some? {
      SpliceKeepsPool(a.pool, found.value, |g.exceptions|);
    }
    var b := AdmitOne(a, f, g);
    forall p: nat | p < |g.exceptions| ensures p in b.pool || Some(p) in b.used {
      assert p in a.pool || Some(p) in a.used;
      assert b.used[|a.used|] in b.used;
    }
  }

  function AllOf(n: nat): seq<nat> { seq(n, i requires 0 <= i < n => i) }

  function AdmitAll(errors: seq<Finding>, g: Gate): (a: Admission)
    ensures PoolOk(a.pool, |g.exceptions|)
  {
    if errors == [] then Admission([], AllOf(|g.exceptions|))
    else
      var a := AdmitAll(errors[..|errors| - 1], g);
      var b := AdmitOne(a, errors[|errors| - 1], g);
      AdmitOneKeepsPool(a, errors[|errors| - 1], g);
      b
  }

  lemma AdmitOneKeepsPool(a: Admission, f: Finding, g: Gate)
    requires PoolOk(a.pool, |g.exceptions|)
    ensures PoolOk(AdmitOne(a, f, g).pool, |g.exceptions|)
  {
    var found := FindIndex(a.pool, 0, f, g);
    if found.Some? {
      SpliceKeepsPool(a.pool, found.value, |g.exceptions|);
    }
  }

  lemma AllAccounted(n: nat)
    ensures Accounted(Admission([], AllOf(n)), n)
  {
    forall p: nat | p < n ensures p in AllOf(n) {
      assert AllOf(n)[p] == p;
    }
  }

  lemma {:induction false} AdmitAllAccounts(errors: seq<Finding>, g: Gate)
    ensures var a := AdmitAll(errors, g);
      && Accounted(a, |g.exceptions|) && |a.used| == |errors|
      && forall u :: 0 <= u < |errors| && a.used[u].Some? ==> Fits(a.used[u].value, errors[u], g)
  {
    if errors == [] {
      AllAccounted(|g.exceptions|);
    } else {
      hide AdmitOne, Admits;
      var n := |errors| - 1;
      AdmitAllAccounts(errors[..n], g);
      AdmitOneAccounts(AdmitAll(errors[..n], g), errors[n], g);
    }
  }

  /** Each error has an exception of its own. */
  ghost predicate OneToOne(choice: seq<nat>, errors: seq<Finding>, g: Gate) {
    && |choice| == |errors|
    && (forall u :: 0 <= u < |choice| ==> Fits(choice[u], errors[u], g))
    && (forall u, v :: 0 <= u < v < |choice| ==> choice[u] != choice[v])
  }

  predicate Refused(a: Admission) { None in a.used }

  function Values(used: seq<Option<nat>>): seq<nat>
    requires None !in used
  {
    seq(|used|, i requires 0 <= i < |used| => used[i].GetOr(0))
  }

  /** When nothing is refused, the exceptions consumed assign the errors one to one. */
  lemma AdmittedOneToOne(errors: seq<Finding>, g: Gate)
    requires !Refused(AdmitAll(errors, g))
    ensures OneToOne(Values(AdmitAll(errors, g).used), errors, g)
  {
    hide AdmitAll, Admits;
    AdmitAllAccounts(errors, g);
    var used := AdmitAll(errors, g).used;
    forall u | 0 <= u < |used| ensures used[u].Some? {
      assert used[u] in used;
    }
  }

  /** Any two errors are covered by the same exceptions, or by none in common. */
  ghost predicate Partitioned(errors: seq<Finding>, g: Gate) {
    forall u, v, p: nat, q: nat ::
      0 <= u < |errors| && 0 <= v < |errors| && Fits(p, errors[u], g) && Fits(q, errors[u], g) && Fits(p, errors[v], g)
      ==> Fits(q, errors[v], g)
  }

  /** Then nothing is refused exactly when some one-to-one assignment exists. */
  lemma PartitionedExactly(errors: seq<Finding>, g: Gate)
    requires Partitioned(errors, g)
    ensures !Refused(AdmitAll(errors, g)) <==> exists choice :: OneToOne(choice, errors, g)
  {
    if !Refused(AdmitAll(errors, g)) {
      AdmittedOneToOne(errors, g);
    }
    if choice :| OneToOne(choice, errors, g) {
      var followed := FollowGreedy(errors, g, choice, |errors|);
      assert errors[..|errors|] == errors;
    }
  }

  /** The first `n` errors were admitted by what `choice` assigns them. */
  ghost predicate Follows(choice: seq<nat>, errors: seq<Finding>, g: Gate, n: nat) {
    && n <= |errors| && OneToOne(choice, errors, g)
    && |AdmitAll(errors[..n], g).used| == n
    && forall u :: 0 <= u < n ==> AdmitAll(errors[..n], g).used[u] == Some(choice[u])
  }

  /** Any assignment can be exchanged, error by error, for one that takes the first exception that fits. */
  lemma {:induction false} FollowGreedy(errors: seq<Finding>, g: Gate, choice: seq<nat>, n: nat) returns (c: seq<nat>)
    requires Partitioned(errors, g) && OneToOne(choice, errors, g) && n <= |errors|
    ensures Follows(c, errors, g, n)
  {
    if n == 0 {
      c := choice;
    } else {
      hide Partitioned, OneToOne, AdmitAll, Fits, Accounted;
      var k := n - 1;
      var before := FollowGreedy(errors, g, choice, k);
      c := ExchangeOne(errors, g, before, k);
    }
  }

  lemma AdmitNext(errors: seq<Finding>, g: Gate, k: nat)
    requires k < |errors|
    ensures AdmitAll(errors[..k + 1], g) == AdmitOne(AdmitAll(errors[..k], g), errors[k], g)
  {
    assert errors[..k + 1][..k] == errors[..k];
  }

  lemma ExchangeOne(errors: seq<Finding>, g: Gate, before: seq<nat>, k: nat) returns (c: seq<nat>)
    requires Partitioned(errors, g) && k < |errors| && Follows(before, errors, g, k)
    ensures Follows(c, errors, g, k + 1)
  {
    hide AdmitAll, AdmitOne, Admits;
    var a := AdmitAll(errors[..k], g);
    var b := AdmitAll(errors[..k + 1], g);
    AdmitAllAccounts(errors[..k], g);
    AdmitNext(errors, g, k);
    AdmitOneAccounts(a, errors[k], g);
    assert before[k] in a.pool by {
      StillInPool(a, |g.exceptions|, before);
    }
    var p := b.used[k].value;
    if m :| k < m < |before| && before[m] == p {
      c := before[k := p][m := before[k]];
    } else {
      c := before[k := p];
    }
  }

  lemma StillInPool(a: Admission, n: nat, choice: seq<nat>)
    requires Accounted(a, n) && |a.used| < |choice| && choice[|a.used|] < n
    requires forall u :: 0 <= u < |a.used| ==> a.used[u] == Some(choice[u])
    requires forall u, v :: 0 <= u < v < |choice| ==> choice[u] != choice[v]
    ensures choice[|a.used|] in a.pool
  {
    var p := choice[|a.used|];
    assert p in a.pool || Some(p) in a.used;
  }

  /** Without that, any two overlapping errors can be ordered so that the first spends what the second needed. */
  lemma OverlapCanRefuse(
      first: Finding, second: Finding, shared: Exception, spare: Exception, base: string, revision: string)
    requires var g := Gate(base, revision, [shared, spare]);
      Admits(shared, first, g) && Admits(spare, first, g) && Admits(shared, second, g) && !Admits(spare, second, g)
    ensures var g := Gate(base, revision, [shared, spare]);
      Refused(AdmitAll([first, second], g)) && OneToOne([1, 0], [first, second], g)
  {
    hide Admits;
    var g := Gate(base, revision, [shared, spare]);
    var errors := [first, second];
    assert errors[..1] == [first] && errors[..1][..0] == [];
    assert AdmitAll(errors[..1][..0], g) == Admission([], [0, 1]);
    assert Splice([0, 1], 0) == [1];
    assert AdmitAll(errors[..1], g) == Admission([Some(0)], [1]);
    assert FindIndex([1], 0, second, g) == None;
    assert AdmitAll(errors, g).used == [Some(0), None];
  }

  lemma TwoWords(a: string, b: string)
    requires a != "" && b != "" && forall c :: c in a || c in b ==> !IsSpace(c)
    ensures NormaliseSpace(a + " " + b) == a + " " + b && NormaliseSpace(b) == b
  {
    var text := a + " " + b;
    forall i | 0 <= i < |text| && i != |a| ensures !IsSpace(text[i]) {
      assert text[i] in a || text[i] in b;
    }
    NormalStays(text);
    NormalStays(b);
  }

  /** The two errors as the report prints them. */
  lemma SampleTexts()
    ensures NormaliseSpace("error A") == "error A" && NormaliseSpace("error AB") == "error AB"
    ensures NormaliseSpace("A") == "A" && NormaliseSpace("AB") == "AB"
  {
    hide NormaliseSpace;
    TwoWords("error", "A");
    TwoWords("error", "AB");
    assert "error" + " " + "A" == "error A" && "error" + " " + "AB" == "error AB";
  }

  lemma SampleIncludes()
    ensures Includes("error A", "A") && Includes("error AB", "A") && Includes("error AB", "AB")
        && !Includes("error A", "AB")
  {
    assert StandsAt("A", "error A", 6) && StandsAt("A", "error AB", 6) && StandsAt("AB", "error AB", 6);
    assert forall i :: StandsAt("AB", "error A", i) ==> "error A"[i..i + 2][1] == "AB"[1] == 'B';
  }

  /** For one: exceptions for "A" and "AB", and errors reading AB and A. */
  lemma OrderCanRefuse(base: string, revision: string)
    ensures var errors := [Finding(Error, "error AB"), Finding(Error, "error A")];
      var g := Gate(base, revision, [Exception("1", base, revision, "A"), Exception("2", base, revision, "AB")]);
      Refused(AdmitAll(errors, g)) && OneToOne([1, 0], errors, g)
  {
    hide AdmitAll, NormaliseSpace, Includes, Refused, OneToOne;
    SampleTexts();
    SampleIncludes();
    var shared, spare := Exception("1", base, revision, "A"), Exception("2", base, revision, "AB");
    OverlapCanRefuse(Finding(Error, "error AB"), Finding(Error, "error A"), shared, spare, base, revision);
  }

  // The verdict

  /** The report, by the sentences the gate looks for before it parses any line. */
  datatype Report = NoChangesAlone | NoChangesAmongOthers | Clean | Lines(lines: seq<Line>)

  /** `Pass` names the exceptions used; the others exit with code 1 and code 2. */
  datatype Verdict = Pass(ids: seq<string>) | Breaking | CannotTell

  function IsError(): Finding -> bool { (f: Finding) => f.severity.Error? }

  predicate Agrees(s: Summary, findings: seq<Finding>) {
    s == Summary(CountOf(findings, Error), CountOf(findings, Warning), CountOf(findings, Info))
  }

  function IdsOf(used: seq<nat>, exceptions: seq<Exception>): seq<string>
    requires forall u :: 0 <= u < |used| ==> used[u] < |exceptions|
  {
    seq(|used|, i requires 0 <= i < |used| => exceptions[used[i]].id)
  }

  function Judge(report: Report, g: Gate, completed: bool, expected: Option<string>): Verdict {
    if !completed || report.NoChangesAmongOthers? || (report.NoChangesAlone? && g.base != g.revision) then CannotTell
    else
      var findings := if report.Lines? then Findings(report.lines) else [];
      var summary := if report.Lines? then LastSummary(report.lines) else Some(Summary(0, 0, 0));
      if summary.None? || !Agrees(summary.value, findings) then CannotTell
      else
        var errors := Filter(findings, IsError());
        if errors == [] then if expected.Some? then Breaking else Pass([])
        else
          var a := AdmitAll(errors, g);
          if Refused(a) then Breaking
          else
            AdmittedOneToOne(errors, g);
            var ids := IdsOf(Values(a.used), g.exceptions);
            if expected.Some? && multiset(ids)[expected.value] != 1 then Breaking else Pass(ids)
  }

  /**
   The gate passes only a report it could read, in which every error has a recorded exception of its own for
   these bytes.
   */
  lemma PassMeansEveryErrorAdmitted(report: Report, g: Gate, completed: bool, expected: Option<string>)
    requires Judge(report, g, completed, expected).Pass?
    ensures completed && (g.base != g.revision ==> !report.NoChangesAlone?)
    ensures report.Lines? ==>
      var errors := Filter(Findings(report.lines), IsError());
      && |errors| == Openings(report.lines, Error)
      && exists choice :: OneToOne(choice, errors, g)
                            && Judge(report, g, completed, expected).ids == IdsOf(choice, g.exceptions)
    ensures expected.Some? ==>
      multiset(Judge(report, g, completed, expected).ids)[expected.value] == 1
  {
    hide AdmitAll, Findings, LastSummary, Filter, Openings, CountOf, OneToOne, IdsOf;
    if report.Lines? {
      var errors := Filter(Findings(report.lines), IsError());
      EachOpeningIsAFinding(report.lines, Error);
      ErrorsCounted(Findings(report.lines));
      var choice := if errors == [] then [] else Values(AdmitAll(errors, g).used);
      if errors != [] {
        AdmittedOneToOne(errors, g);
      } else {
        NothingToAdmit(errors, g);
      }
      assert OneToOne(choice, errors, g);
    }
  }

  /** A report the gate can judge: the step completed, it says one thing, and its last summary counts its openings. */
  ghost predicate Readable(report: Report, g: Gate, completed: bool) {
    completed &&
    match report
    case NoChangesAmongOthers => false
    case NoChangesAlone => g.base == g.revision
    case Clean => true
    case Lines(lines) =>
      LastSummary(lines) ==
        Some(Summary(Openings(lines, Error), Openings(lines, Warning), Openings(lines, Info)))
  }

  function ErrorsOf(report: Report): seq<Finding> {
    if report.Lines? then Filter(Findings(report.lines), IsError()) else []
  }

  /** How many of the errors were admitted by an exception of this id. */
  function AdmittedAs(id: string, used: seq<Option<nat>>, g: Gate): nat {
    if used == [] then 0
    else
      var last := used[|used| - 1];
      AdmittedAs(id, used[..|used| - 1], g)
      + if last.Some? && last.value < |g.exceptions| && g.exceptions[last.value].id == id then 1 else 0
  }

  /**
   The gate answers that it cannot tell exactly for what it cannot read. What it can read passes exactly if no
   error is refused and, when one exception is expected, exactly one error was admitted by it.
   */
  lemma JudgeExactly(report: Report, g: Gate, completed: bool, expected: Option<string>)
    ensures var verdict, a := Judge(report, g, completed, expected), AdmitAll(ErrorsOf(report), g);
      && (verdict.CannotTell? <==> !Readable(report, g, completed))
      && (verdict.Pass? <==>
            && Readable(report, g, completed) && !Refused(a)
            && (expected.Some? ==> AdmittedAs(expected.value, a.used, g) == 1))
  {
    hide AdmitAll, Findings, LastSummary, Filter, Openings, CountOf, AdmittedAs, IdsOf;
    if report.Lines? {
      EachOpeningIsAFinding(report.lines, Error);
      EachOpeningIsAFinding(report.lines, Warning);
      EachOpeningIsAFinding(report.lines, Info);
    } else {
      NothingCounted();
    }
    var errors := ErrorsOf(report);
    var a := AdmitAll(errors, g);
    if errors == [] {
      NothingRefused(g, expected);
    } else if !Refused(a) {
      AdmittedOneToOne(errors, g);
      if expected.Some? {
        IdsCounted(expected.value, a.used, g);
      }
    }
  }

  lemma NothingCounted()
    ensures CountOf([], Error) == CountOf([], Warning) == CountOf([], Info) == 0
    ensures Filter([], IsError()) == []
  {
  }

  lemma NothingRefused(g: Gate, expected: Option<string>)
    ensures !Refused(AdmitAll([], g))
    ensures expected.Some? ==> AdmittedAs(expected.value, AdmitAll([], g).used, g) == 0
  {
  }

  lemma {:induction false} IdsCounted(id: string, used: seq<Option<nat>>, g: Gate)
    requires None !in used
    requires forall u :: 0 <= u < |used| ==> Values(used)[u] < |g.exceptions|
    ensures multiset(IdsOf(Values(used), g.exceptions))[id] == AdmittedAs(id, used, g)
  {
    if used != [] {
      var n := |used| - 1;
      assert used == used[..n] + [used[n]];
      assert used[n] in used;
      assert forall u :: 0 <= u < n ==> Values(used[..n])[u] == Values(used)[u];
      IdsCounted(id, used[..n], g);
      var ids, before := IdsOf(Values(used), g.exceptions), IdsOf(Values(used[..n]), g.exceptions);
      assert ids == before + [ids[n]];
    }
  }

  /**
   So, when no particular exception is expected and any two errors are covered alike or apart, it passes exactly
   what it can read and can match, one exception to an error.
   */
  lemma PassExactly(report: Report, g: Gate, completed: bool)
    requires Partitioned(ErrorsOf(report), g)
    ensures Judge(report, g, completed, None).Pass? <==>
            Readable(report, g, completed) && exists choice :: OneToOne(choice, ErrorsOf(report), g)
  {
    hide Judge, Readable, AdmitAll, OneToOne, Partitioned;
    JudgeExactly(report, g, completed, None);
    PartitionedExactly(ErrorsOf(report), g);
  }

  lemma NothingToAdmit(errors: seq<Finding>, g: Gate)
    requires errors == []
    ensures OneToOne([], errors, g) && IdsOf([], g.exceptions) == []
  {
  }

  lemma {:induction false} ErrorsCounted(findings: seq<Finding>)
    ensures |Filter(findings, IsError())| == CountOf(findings, Error)
  {
    if findings != [] {
      var n := |findings| - 1;
      ErrorsCounted(findings[..n]);
      FilterSnoc(findings, n, IsError());
      assert findings[..n + 1] == findings;
    }
  }

  lemma InRange(errors: seq<Finding>, g: Gate)
    requires !Refused(AdmitAll(errors, g))
    ensures forall u :: 0 <= u < |errors| ==>
      var values := Values(AdmitAll(errors, g).used);
      |values| == |errors| && values[u] < |g.exceptions|
    ensures |AdmitAll(errors, g).used| == |errors|
  {
    hide AdmitAll, Admits;
    AdmittedOneToOne(errors, g);
  }

  /** One entry admits one finding: a match is spliced out of the pool. */
  method AdmitErrors(errors: seq<Finding>, g: Gate) returns (a: Admission)
    ensures a == AdmitAll(errors, g)
  {
    hide Admits, FindIndex;
    a := Admission([], AllOf(|g.exceptions|));
    for i := 0 to |errors|
      invariant a == AdmitAll(errors[..i], g)
    {
      assert errors[..i + 1][..i] == errors[..i];
      var found := FindIndex(a.pool, 0, errors[i], g);
      if found.None? {
        a := Admission(a.used + [None], a.pool);
      } else {
        a := Admission(a.used + [Some(a.pool[found.value])], a.pool[..found.value] + a.pool[found.value + 1..]);
      }
    }
    assert errors[..|errors|] == errors;
  }

  method Evaluate(report: Report, g: Gate, completed: bool, expected: Option<string>) returns (verdict: Verdict)
    ensures verdict == Judge(report, g, completed, expected)
  {
    hide Admits, AdmitAll, Findings, LastSummary, Filter, CountOf, OneToOne;
    if !completed {
      return CannotTell;
    }
    if report.NoChangesAmongOthers? || (report.NoChangesAlone? && g.base != g.revision) {
      return CannotTell;
    }
    var summary, findings := Some(Summary(0, 0, 0)), [];
    if report.Lines? {
      summary, findings := ParseReport(report.lines);
    }
    if summary.None? || !Agrees(summary.value, findings) {
      return CannotTell;
    }
    var errors := Filter(findings, IsError());
    if errors == [] {
      return if expected.Some? then Breaking else Pass([]);
    }
    var a := AdmitErrors(errors, g);
    if None in a.used {
      return Breaking;
    }
    InRange(errors, g);
    var ids := IdsOf(Values(a.used), g.exceptions);
    verdict := if expected.Some? && multiset(ids)[expected.value] != 1 then Breaking else Pass(ids);
  }
}
