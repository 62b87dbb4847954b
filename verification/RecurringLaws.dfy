/**
 The recurring half of the forecast, for rows of any source: what each charge key
 has landed, what it still owes, and what the run-rate commits it to.
 */
module RecurringLaws {
  import opened Calendar
  import opened Wrappers
  import opened Sums
  import opened Budget
  import opened CostSources
  import opened Forecast

  /** A row belongs to the scheduled source that names it, else to its own source, provider and service. */
  predicate BelongsTo(schedule: MonthSchedule, r: CostRow, k: ChargeKey) {
    var scheduled := exists c :: c in schedule.charges && c.kind.Recurring? && c.key == r.source;
    match k
    case BySource(source) => scheduled && source == r.source
    case ByRow(source, provider, service) =>
      !scheduled && source == r.source && provider == r.providerId && service == r.serviceId
  }

  function OfKey(schedule: MonthSchedule, k: ChargeKey): CostRow -> bool {
    (r: CostRow) => BelongsTo(schedule, r, k)
  }

  function LandedFor(schedule: MonthSchedule, rs: seq<CostRow>, k: ChargeKey): int {
    TotalOf(Filter(rs, OfKey(schedule, k)))
  }

  lemma KeyIsBelonging(schedule: MonthSchedule, r: CostRow, k: ChargeKey)
    ensures KeyFor(schedule, r) == k <==> BelongsTo(schedule, r, k)
  {
  }

  /** The landed map holds, per key, the total of the rows that belong to it. */
  lemma {:induction false} LandedIsTotal(schedule: MonthSchedule, rs: seq<CostRow>, k: ChargeKey)
    ensures LandedOf(schedule, rs).Get(k, 0) == LandedFor(schedule, rs, k)
  {
    if rs != [] {
      hide KeyFor, BelongsTo, LandedOf, Filter, TotalOf;
      var n := |rs| - 1;
      LandedSnoc(schedule, rs, n);
      LandedIsTotal(schedule, rs[..n], k);
      KeyIsBelonging(schedule, rs[n], k);
      assert rs[..n + 1] == rs;
      BasisSnoc(rs, n, OfKey(schedule, k));
    }
  }

  // Everything that landed is counted once

  lemma {:induction false} SumSet(
      keys: seq<ChargeKey>, f: ChargeKey -> int, g: ChargeKey -> int, k: ChargeKey, more: int)
    requires NoDup(keys) && k in keys
    requires forall x :: x in keys && x != k ==> f(x) == g(x)
    requires f(k) == g(k) + more
    ensures SumBy(keys, f) == SumBy(keys, g) + more
  {
    if keys[0] == k {
      assert keys == [keys[0]] + keys[1..];
      SumCong(keys[1..], f, g);
    } else {
      assert keys == [keys[0]] + keys[1..];
      SumSet(keys[1..], f, g, k, more);
    }
  }

  lemma {:induction false} LandedTotal(schedule: MonthSchedule, rs: seq<CostRow>)
    ensures SumBy(LandedOf(schedule, rs).keys, LandedAt(LandedOf(schedule, rs))) == TotalOf(rs)
  {
    if rs != [] {
      hide KeyFor;
      var n := |rs| - 1;
      var before, after, k := LandedOf(schedule, rs[..n]), LandedOf(schedule, rs), KeyFor(schedule, rs[n]);
      MapsValid(schedule, rs[..n]);
      MapsValid(schedule, rs);
      LandedTotal(schedule, rs[..n]);
      assert rs[..n + 1] == rs;
      SumSnoc(rs, n, Amount());
      if before.Has(k) {
        SumSet(after.keys, LandedAt(after), LandedAt(before), k, rs[n].amountMicros);
      } else {
        assert after.keys == before.keys + [k];
        SumAppend(before.keys, [k], LandedAt(after));
        SumCong(before.keys, LandedAt(after), LandedAt(before));
        assert SumBy([k][1..], LandedAt(after)) == 0;
      }
    }
  }

  function HasIn<V>(m: Ordered<V>): ChargeKey -> bool { (k: ChargeKey) => m.Has(k) }

  /** Landed against charges, and landed outside of them: together, everything that landed. */
  lemma LandedSplits(charges: Ordered<ScheduledCharge>, landed: Ordered<int>)
    requires charges.Valid() && landed.Valid()
    ensures SumBy(charges.keys, LandedAt(landed)) + SumBy(landed.keys, LandedOutside(charges, landed))
            == SumBy(landed.keys, LandedAt(landed))
  {
    var f := LandedAt(landed);
    var inside, both := Filter(landed.keys, HasIn(charges)), Filter(charges.keys, HasIn(landed));
    FilterMember(landed.keys, HasIn(charges));
    FilterMember(charges.keys, HasIn(landed));
    FilterNoDup(landed.keys, HasIn(charges));
    FilterNoDup(charges.keys, HasIn(landed));
    SumSameElements(inside, both, f);
    SumSplit(landed.keys, HasIn(charges), f);
    SumSplit(charges.keys, HasIn(landed), f);
    FilterMember(charges.keys, Not(HasIn(landed)));
    SumZero(Filter(charges.keys, Not(HasIn(landed))), f);
    SumSplit(landed.keys, HasIn(charges), LandedOutside(charges, landed));
    SumZero(inside, LandedOutside(charges, landed));
    FilterMember(landed.keys, Not(HasIn(charges)));
    SumCong(Filter(landed.keys, Not(HasIn(charges))), LandedOutside(charges, landed), f);
  }

  // What is charged

  /** A row that declares its own charge: not a manual one the schedule does not know. */
  predicate Declares(schedule: MonthSchedule, r: CostRow, k: ChargeKey) {
    BelongsTo(schedule, r, k) && (k.ByRow? ==> !(MANUAL_COST_SOURCE_PREFIX <= r.source))
  }

  /** `r` is a row of the key that declares, and none that does is later. */
  ghost predicate LatestDeclared(schedule: MonthSchedule, rs: seq<CostRow>, k: ChargeKey, r: CostRow) {
    r in rs && Declares(schedule, r, k) && forall q :: q in rs && Declares(schedule, q, k) ==> Le(q.day, r.day)
  }

  lemma DeclaresExactly(schedule: MonthSchedule, r: CostRow, k: ChargeKey)
    ensures Declares(schedule, r, k) <==>
            KeyFor(schedule, r) == k && (ScheduledSource(schedule, r.source) || !IsManualCostSource(r.source))
  {
  }

  lemma {:induction false} LatestExact(schedule: MonthSchedule, rs: seq<CostRow>, k: ChargeKey)
    ensures var latest := LatestOf(schedule, rs);
      && (latest.Has(k) <==> exists r :: r in rs && Declares(schedule, r, k))
      && (latest.Has(k) ==> LatestDeclared(schedule, rs, k, latest.vals[k]))
  {
    if rs != [] {
      hide KeyFor, Declares, ScheduledSource, IsManualCostSource, LatestOf;
      var n := |rs| - 1;
      LatestSnoc(schedule, rs, n);
      assert rs[..n + 1] == rs;
      LatestExact(schedule, rs[..n], k);
      DeclaresExactly(schedule, rs[n], k);
      assert rs == rs[..n] + [rs[n]];
    }
  }

  /**
   The recurring charges of a month: the schedule's, and one for each key some row declares and the schedule
   lacks.
   */
  function Charges(schedule: MonthSchedule, rs: seq<CostRow>): Ordered<ScheduledCharge> {
    MapsValid(schedule, rs);
    WithDeclared(ChargesOf(schedule.charges), LatestOf(schedule, rs), LatestOf(schedule, rs).keys)
  }

  lemma {:induction false} WithDeclaredAt(
      charges: Ordered<ScheduledCharge>, latest: Ordered<CostRow>, keys: seq<ChargeKey>, k: ChargeKey)
    requires forall x :: x in keys ==> x in latest.vals
    ensures var all := WithDeclared(charges, latest, keys);
      && (all.Has(k) <==> charges.Has(k) || k in keys)
      && (charges.Has(k) ==> all.vals[k] == charges.vals[k])
      && (!charges.Has(k) && k in keys ==> all.vals[k] == DeclaredBy(k, latest.vals[k]))
  {
    if keys != [] {
      var n := |keys| - 1;
      assert keys == keys[..n] + [keys[n]];
      WithDeclaredAt(charges, latest, keys[..n], k);
    }
  }

  /** The last of the schedule's recurring charges of this source. */
  ghost predicate LastCharge(cs: seq<ScheduledCharge>, source: string, c: ScheduledCharge) {
    exists i :: 0 <= i < |cs| && cs[i] == c && c.kind.Recurring? && c.key == source
                && forall j :: i < j < |cs| ==> !(cs[j].kind.Recurring? && cs[j].key == source)
  }

  lemma LastChargeSnoc(cs: seq<ScheduledCharge>, d: ScheduledCharge, source: string, c: ScheduledCharge)
    ensures LastCharge(cs + [d], source, c) <==>
            if d.kind.Recurring? && d.key == source then c == d else LastCharge(cs, source, c)
  {
    var all := cs + [d];
    assert all[|cs|] == d && forall i :: 0 <= i < |cs| ==> all[i] == cs[i];
    if LastCharge(cs, source, c) && !(d.kind.Recurring? && d.key == source) {
      var i :| 0 <= i < |cs| && cs[i] == c && c.kind.Recurring? && c.key == source
               && forall j :: i < j < |cs| ==> !(cs[j].kind.Recurring? && cs[j].key == source);
      assert all[i] == c;
    }
    if LastCharge(all, source, c) {
      var i :| 0 <= i < |all| && all[i] == c && c.kind.Recurring? && c.key == source
               && forall j :: i < j < |all| ==> !(all[j].kind.Recurring? && all[j].key == source);
      if i < |cs| {
        assert cs[i] == c && !(all[|cs|].kind.Recurring? && all[|cs|].key == source);
      }
    }
  }

  lemma {:induction false} ChargesOfAt(cs: seq<ScheduledCharge>, k: ChargeKey)
    ensures ChargesOf(cs).Has(k) <==> k.BySource? && exists c :: c in cs && c.kind.Recurring? && c.key == k.source
    ensures ChargesOf(cs).Has(k) ==> LastCharge(cs, k.source, ChargesOf(cs).vals[k])
  {
    if cs != [] {
      hide LastCharge;
      var n := |cs| - 1;
      ChargesOfAt(cs[..n], k);
      assert cs == cs[..n] + [cs[n]];
      if ChargesOf(cs).Has(k) {
        LastChargeSnoc(cs[..n], cs[n], k.source, ChargesOf(cs).vals[k]);
      }
    }
  }

  function KeyOfRow(r: CostRow): string { r.source + "|" + r.providerId + "|" + r.serviceId }

  /** A charge is the schedule's, or what the latest row of its key declares: its period's amount, or its own. */
  ghost predicate ChargeFor(schedule: MonthSchedule, rs: seq<CostRow>, k: ChargeKey, c: ScheduledCharge) {
    match k
    case BySource(source) => LastCharge(schedule.charges, source, c)
    case ByRow(_, _, _) =>
      exists r :: LatestDeclared(schedule, rs, k, r) && c.key == KeyOfRow(r) && c.kind.Recurring?
        && c.providerId == r.providerId && c.serviceId == r.serviceId && c.currency == r.currency && c.day == None
        && c.cadence == Some(if r.billingCadence.Some? then r.billingCadence.value else MonthlyCadence)
        && c.amountMicros == if r.periodAmountMicros.Some? then r.periodAmountMicros.value else r.amountMicros
  }

  lemma ChargesAt(schedule: MonthSchedule, rs: seq<CostRow>, k: ChargeKey)
    ensures Charges(schedule, rs).Has(k) <==>
            (k.BySource? && exists c :: c in schedule.charges && c.kind.Recurring? && c.key == k.source)
            || (k.ByRow? && exists r :: r in rs && Declares(schedule, r, k))
    ensures Charges(schedule, rs).Has(k) ==> ChargeFor(schedule, rs, k, Charges(schedule, rs).vals[k])
  {
    hide LastCharge, LatestDeclared, ChargesOf, LatestOf, WithDeclared;
    var latest := LatestOf(schedule, rs);
    MapsValid(schedule, rs);
    ChargesOfAt(schedule.charges, k);
    LatestExact(schedule, rs, k);
    WithDeclaredAt(ChargesOf(schedule.charges), latest, latest.keys, k);
    if latest.Has(k) {
      LatestBelongs(schedule, rs, k, latest.vals[k]);
    }
  }

  lemma LatestBelongs(schedule: MonthSchedule, rs: seq<CostRow>, k: ChargeKey, r: CostRow)
    requires LatestDeclared(schedule, rs, k, r)
    ensures k.BySource? ==> exists c :: c in schedule.charges && c.kind.Recurring? && c.key == k.source
    ensures k.ByRow? ==> KeyName(k) == KeyOfRow(r)
  {
  }

  /** What a charge still owes: its amount less everything its key has landed, if that is positive. */
  function Owing(schedule: MonthSchedule, rs: seq<CostRow>): ChargeKey -> int {
    (k: ChargeKey) =>
      var charges := Charges(schedule, rs);
      if charges.Has(k) && charges.vals[k].amountMicros > LandedFor(schedule, rs, k)
      then charges.vals[k].amountMicros - LandedFor(schedule, rs, k) else 0
  }

  /**
   For any schedule and any recurring rows, of whatever sources: what has landed is every row, once, and what is
   still to come is what each charge owes, each key once.
   */
  lemma RecurringExact(schedule: MonthSchedule, rs: seq<CostRow>)
    ensures RecurringOf(schedule, rs).landedMicros == TotalOf(rs)
    ensures RecurringOf(schedule, rs).scheduledMicros == SumBy(Charges(schedule, rs).keys, Owing(schedule, rs))
    ensures Charges(schedule, rs).Valid()
  {
    hide LandedOf, LatestOf, ChargesOf, WithDeclared, LandedFor, SumBy;
    var landed, charges := LandedOf(schedule, rs), Charges(schedule, rs);
    MapsValid(schedule, rs);
    ChargesValid(schedule.charges);
    DeclaredValid(ChargesOf(schedule.charges), LatestOf(schedule, rs), LatestOf(schedule, rs).keys);
    LandedTotal(schedule, rs);
    LandedSplits(charges, landed);
    forall k ensures RemainingAt(charges, landed)(k) == Owing(schedule, rs)(k) {
      LandedIsTotal(schedule, rs, k);
    }
    SumCong(charges.keys, RemainingAt(charges, landed), Owing(schedule, rs));
  }

  // What is committed

  function Committed(schedule: MonthSchedule, rs: seq<CostRow>): Ordered<Commitment> {
    MapsValid(schedule, rs);
    WithCommitted(schedule, LatestOf(schedule, rs), LatestOf(schedule, rs).keys)
  }

  ghost predicate LastCommitment(cs: seq<Commitment>, source: string, c: Commitment) {
    exists i :: 0 <= i < |cs| && cs[i] == c && c.key == source && forall j :: i < j < |cs| ==> cs[j].key != source
  }

  lemma LastCommitmentSnoc(cs: seq<Commitment>, d: Commitment, source: string, c: Commitment)
    ensures LastCommitment(cs + [d], source, c) <==> if d.key == source then c == d else LastCommitment(cs, source, c)
  {
    var all := cs + [d];
    assert all[|cs|] == d && forall i :: 0 <= i < |cs| ==> all[i] == cs[i];
    if LastCommitment(cs, source, c) && d.key != source {
      var i :| 0 <= i < |cs| && cs[i] == c && c.key == source && forall j :: i < j < |cs| ==> cs[j].key != source;
      assert all[i] == c;
    }
    if LastCommitment(all, source, c) {
      var i :| 0 <= i < |all| && all[i] == c && c.key == source && forall j :: i < j < |all| ==> all[j].key != source;
      if i < |cs| {
        assert cs[i] == c && all[|cs|].key != source;
      }
    }
  }

  lemma {:induction false} CommitmentsOfAt(cs: seq<Commitment>, k: ChargeKey)
    ensures CommitmentsOf(cs).Has(k) <==> k.BySource? && exists c :: c in cs && c.key == k.source
    ensures CommitmentsOf(cs).Has(k) ==> LastCommitment(cs, k.source, CommitmentsOf(cs).vals[k])
  {
    if cs != [] {
      hide LastCommitment;
      var n := |cs| - 1;
      CommitmentsOfAt(cs[..n], k);
      assert cs == cs[..n] + [cs[n]];
      if CommitmentsOf(cs).Has(k) {
        LastCommitmentSnoc(cs[..n], cs[n], k.source, CommitmentsOf(cs).vals[k]);
      }
    }
  }

  lemma {:induction false} WithCommittedAt(
      schedule: MonthSchedule, latest: Ordered<CostRow>, keys: seq<ChargeKey>, k: ChargeKey)
    requires forall x :: x in keys ==> x in latest.vals
    ensures var all, given := WithCommitted(schedule, latest, keys), CommitmentsOf(schedule.commitments);
      && (all.Has(k) <==> given.Has(k) || (k in keys && !ScheduledKey(schedule, k)))
      && (given.Has(k) ==> all.vals[k] == given.vals[k])
      && (!given.Has(k) && all.Has(k) ==> k in keys && all.vals[k] == CommittedBy(k, latest.vals[k]))
  {
    if keys != [] {
      hide CommitmentsOf, ScheduledKey;
      var n := |keys| - 1;
      assert keys == keys[..n] + [keys[n]];
      WithCommittedAt(schedule, latest, keys[..n], k);
    }
  }

  /** A commitment is the schedule's, or what the latest row of a key outside it declares. */
  ghost predicate CommitmentFor(schedule: MonthSchedule, rs: seq<CostRow>, k: ChargeKey, c: Commitment) {
    match k
    case BySource(source) => LastCommitment(schedule.commitments, source, c)
    case ByRow(_, _, _) =>
      exists r :: LatestDeclared(schedule, rs, k, r) && c.key == KeyOfRow(r)
        && c.providerId == r.providerId && c.serviceId == r.serviceId && c.currency == r.currency
        && c.cadence == (if r.billingCadence.Some? then r.billingCadence.value else MonthlyCadence)
        && c.periodAmountMicros == if r.periodAmountMicros.Some? then r.periodAmountMicros.value else r.amountMicros
  }

  lemma CommittedAt(schedule: MonthSchedule, rs: seq<CostRow>, k: ChargeKey)
    ensures Committed(schedule, rs).Has(k) <==>
            (k.BySource? && exists c :: c in schedule.commitments && c.key == k.source)
            || (k.ByRow? && exists r :: r in rs && Declares(schedule, r, k))
    ensures Committed(schedule, rs).Has(k) ==> CommitmentFor(schedule, rs, k, Committed(schedule, rs).vals[k])
  {
    hide LastCommitment, LatestDeclared, CommitmentsOf, LatestOf, WithCommitted;
    var latest := LatestOf(schedule, rs);
    MapsValid(schedule, rs);
    CommitmentsOfAt(schedule.commitments, k);
    LatestExact(schedule, rs, k);
    WithCommittedAt(schedule, latest, latest.keys, k);
    if latest.Has(k) {
      LatestBelongs(schedule, rs, k, latest.vals[k]);
    }
  }

  function FullFee(m: Ordered<Commitment>): ChargeKey -> int {
    (k: ChargeKey) => if m.Has(k) && m.vals[k].cadence == MonthlyCadence then m.vals[k].periodAmountMicros else 0
  }

  /** A twelfth, to the nearest micro. */
  predicate Twelfth(amount: int, share: int) { amount - 6 < 12 * share <= amount + 6 }

  /**
   For any schedule and rows the run-rate adds each commitment once: a monthly one whole, any other by a twelfth
   to the nearest micro.
   */
  lemma RunRateExact(schedule: MonthSchedule, rs: seq<CostRow>)
    ensures var m, rate := Committed(schedule, rs), RunRateOf(schedule, rs);
      && m.Valid() && rate.recurringMonthlyMicros == SumBy(m.keys, FullFee(m))
      && rate.annualEquivalentMicros == SumBy(m.keys, AnnualShareAt(m))
      && forall k :: m.Has(k) ==>
           if m.vals[k].cadence == MonthlyCadence then AnnualShareAt(m)(k) == 0
           else Twelfth(m.vals[k].periodAmountMicros, AnnualShareAt(m)(k))
  {
    hide LatestOf, WithCommitted, SumBy, RoundDiv;
    var m := Committed(schedule, rs);
    MapsValid(schedule, rs);
    CommitmentsValid(schedule, LatestOf(schedule, rs), LatestOf(schedule, rs).keys);
    SumCong(m.keys, MonthlyAt(m), FullFee(m));
    forall k | m.Has(k) && m.vals[k].cadence != MonthlyCadence
      ensures Twelfth(m.vals[k].periodAmountMicros, AnnualShareAt(m)(k))
    {
      RoundNearest(m.vals[k].periodAmountMicros, 12);
    }
  }
}
