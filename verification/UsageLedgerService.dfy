/**
 The ledger as a running object: a buffer of count objects mutated in place, and
 a flush that owns the objects it drained until its write settles.
 */
module UsageLedgerService {
  import opened Wrappers
  import opened UsageLedger

  class Counts {
    var attempted: nat
    var succeeded: nat
    var units: nat

    constructor ()
      ensures Value() == Zero()
    {
      attempted, succeeded, units := 0, 0, 0;
    }

    function Value(): Tally
      reads this
    {
      Tally(attempted, succeeded, units)
    }

    method Add(t: Tally)
      modifies this
      ensures Value() == Plus(old(Value()), t)
    {
      attempted, succeeded, units := attempted + t.attempted, succeeded + t.succeeded, units + t.units;
    }
  }

  function Objects(m: map<Slot, Counts>): set<Counts> { set k | k in m :: m[k] }

  function TalliesOf(m: map<Slot, Counts>): Tallies
    reads Objects(m)
  {
    map k | k in m :: m[k].Value()
  }

  ghost predicate Unshared(m: map<Slot, Counts>) {
    forall j, k :: j in m && k in m && j != k ==> m[j] != m[k]
  }

  /** The entries already visited. */
  function Visited(m: Tallies, todo: set<Slot>): Tallies {
    map k | k in m && k !in todo :: m[k]
  }

  lemma VisitOne(m: Tallies, todo: set<Slot>, slot: Slot)
    requires slot in todo && slot in m
    ensures slot !in Visited(m, todo) && Visited(m, todo - {slot}) == Visited(m, todo)[slot := m[slot]]
  {
  }

  lemma VisitEnds(m: Tallies)
    ensures Visited(m, m.Keys) == map[] && Visited(m, {}) == m
  {
  }

  class UsageTables {
    var usage: Tallies
    var meters: Meters

    constructor ()
      ensures usage == map[] && meters == map[]
    {
      usage, meters := map[], map[];
    }

    /** The transaction: both statements, or neither. */
    method Write(reg: Registry, values: Tallies, rows: seq<MeterRow>)
      requires Collected(reg, rows, values)
      modifies this
      ensures usage == Merge(old(usage), values) && meters == Post(reg, old(meters), values)
    {
      PostRowsIsPost(reg, meters, rows, values);
      usage, meters := Merge(usage, values), PostRows(meters, rows);
    }
  }

  class DbUsageLedger {
    const db: UsageTables
    const registry: Registry
    const enabled: bool
    var timer: bool
    var buffer: map<Slot, Counts>
    var flushing: bool
    // What the flush in flight holds: the drained entries, and the two statements built from them.
    var drained: map<Slot, Counts>
    var values: Tallies
    var meterRows: seq<MeterRow>

    ghost predicate Valid()
      reads this, Objects(drained)
    {
      && Unshared(buffer) && Unshared(drained) && Objects(buffer) !! Objects(drained)
      && (if flushing then values == TalliesOf(drained) && Collected(registry, meterRows, values) else drained == map[])
    }

    ghost function View(): State
      reads this, db, Objects(buffer), Objects(drained)
    {
      State(db.usage, db.meters, if flushing then Some(TalliesOf(drained)) else None, TalliesOf(buffer))
    }

    constructor (db: UsageTables, registry: Registry, enabled: bool)
      requires db.usage == map[] && db.meters == map[]
      ensures Valid() && View() == Empty()
      ensures this.db == db && this.registry == registry && this.enabled == enabled && !timer
    {
      this.db, this.registry, this.enabled := db, registry, enabled;
      timer, flushing := false, false;
      buffer, drained, values, meterRows := map[], map[], map[], [];
    }

    /** The slot's count object, made on first use. */
    method SlotFor(key: Slot) returns (c: Counts)
      requires Unshared(buffer)
      modifies this`buffer
      ensures Unshared(buffer) && key in buffer && buffer[key] == c
      ensures forall k :: k in buffer <==> k == key || k in old(buffer)
      ensures forall k :: k in old(buffer) ==> buffer[k] == old(buffer)[k]
      ensures key !in old(buffer) ==> fresh(c) && c.Value() == Zero()
    {
      if key in buffer {
        return buffer[key];
      }
      c := new Counts();
      buffer := buffer[key := c];
    }

    method AddTo(key: Slot, t: Tally)
      requires Unshared(buffer)
      modifies this`buffer, Objects(buffer)
      ensures Unshared(buffer)
      ensures TalliesOf(buffer) == Add(old(TalliesOf(buffer)), key, t)
      ensures fresh(Objects(buffer) - old(Objects(buffer)))
    {
      hide Plus, Counts.Value;
      ghost var before := TalliesOf(buffer);
      var c := SlotFor(key);
      assert c.Value() == At(before, key);
      c.Add(t);
      forall k | k in buffer && k != key ensures k in before && buffer[k].Value() == before[k] {
        assert buffer[k] != c;
      }
      assert TalliesOf(buffer).Keys == Add(before, key, t).Keys;
    }

    method Increment(name: string, labels: Labels, amount: int, today: UtcDay)
      requires Valid()
      modifies this`buffer, Objects(buffer)
      ensures Valid() && fresh(Objects(buffer) - old(Objects(buffer)))
      ensures View() ==
              if enabled then Next(registry, old(View()), Event.Increment(today, name, labels, amount)) else old(View())
    {
      if !enabled || amount <= 0 {
        return;
      }
      if name == REQUESTS_TOTAL {
        var operation := StringLabel(labels.methodLabel);
        if operation == None {
          return;
        }
        AddTo(Slot(today, operation.value), Tally(amount, if Is2xx(labels.status) then amount else 0, 0));
      } else if name == COST_UNITS {
        var sku := StringLabel(labels.sku);
        if sku == None {
          return;
        }
        AddTo(Slot(today, registry.operationForSku(sku.value)), Tally(0, 0, amount));
      }
    }

    /** Up to the await: drain the buffer, then build both statements from what was drained. */
    method BeginFlush()
      requires Valid() && !flushing
      modifies this`buffer, this`flushing, this`drained, this`values, this`meterRows
      ensures Valid() && flushing && drained == old(buffer) && buffer == map[]
      ensures TalliesOf(drained) == old(TalliesOf(buffer))
    {
      hide Collected, MeterRowsFor, Visited, Counts.Value;
      ghost var owed := TalliesOf(buffer);
      flushing, drained, buffer := true, buffer, map[];
      values, meterRows := map[], [];
      var todo := drained.Keys;
      assert todo == owed.Keys;
      VisitEnds(owed);
      CollectedNothing(registry);
      while todo != {}
        invariant todo <= drained.Keys
        invariant values == Visited(owed, todo) && Collected(registry, meterRows, values)
        decreases |todo|
        modifies this`values, this`meterRows
      {
        var slot :| slot in todo;
        var t := drained[slot].Value();
        VisitOne(owed, todo, slot);
        CollectedSlot(registry, meterRows, values, slot, t);
        values, meterRows := values[slot := t], meterRows + MeterRowsFor(registry, slot, t);
        todo := todo - {slot};
      }
    }

    /** The promise settles: this flush owns nothing any more. */
    method Settle()
      requires Unshared(buffer)
      modifies this`flushing, this`drained, this`values, this`meterRows
      ensures Valid() && !flushing
      ensures View() == State(db.usage, db.meters, None, TalliesOf(buffer))
    {
      flushing, drained, values, meterRows := false, map[], map[], [];
    }

    method CommitFlush()
      requires Valid() && flushing
      modifies this`flushing, this`drained, this`values, this`meterRows, db
      ensures Valid() && !flushing
      ensures View() == Next(registry, old(View()), WriteCommits)
    {
      hide Collected, Next, Counts.Value, Merge, Post;
      Landed(registry, View());
      db.Write(registry, values, meterRows);
      Settle();
    }

    method FailFlush()
      requires Valid() && flushing
      modifies this`buffer, this`flushing, this`drained, this`values, this`meterRows, Objects(buffer)
      ensures Valid() && !flushing && fresh(Objects(buffer) - old(Objects(buffer)))
      ensures View() == Next(registry, old(View()), WriteFails)
    {
      hide Collected, Next, Counts.Value, Merge, Post;
      ghost var s := View();
      PutBack();
      Returned(registry, s, TalliesOf(buffer));
      Settle();
    }

    /** After the await. A refused write puts every drained count back into whatever the buffer holds by then. */
    method FinishFlush(refused: bool) returns (threw: bool)
      requires Valid() && flushing
      modifies this`buffer, this`flushing, this`drained, this`values, this`meterRows, db, Objects(buffer)
      ensures Valid() && !flushing && fresh(Objects(buffer) - old(Objects(buffer)))
      ensures View() == Next(registry, old(View()), if refused then WriteFails else WriteCommits)
      ensures threw <==> refused && old(drained) != map[]
    {
      hide Collected, Next, Counts.Value, Merge, Post;
      threw := refused && drained != map[];
      if drained == map[] {
        NothingInFlight(registry, View());
        Settle();
      } else if refused {
        FailFlush();
      } else {
        CommitFlush();
      }
    }

    method PutBack()
      requires Valid()
      modifies this`buffer, Objects(buffer)
      ensures Unshared(buffer) && fresh(Objects(buffer) - old(Objects(buffer)))
      ensures TalliesOf(buffer) == Merge(old(TalliesOf(buffer)), old(TalliesOf(drained)))
    {
      hide Collected, Merge, Add, Visited, Counts.Value, Plus;
      ghost var before, owed := TalliesOf(buffer), TalliesOf(drained);
      var todo := drained.Keys;
      assert todo == owed.Keys;
      VisitEnds(owed);
      MergeNothing(before);
      while todo != {}
        invariant todo <= drained.Keys
        invariant Unshared(buffer) && fresh(Objects(buffer) - old(Objects(buffer)))
        invariant TalliesOf(drained) == owed
        invariant TalliesOf(buffer) == Merge(before, Visited(owed, todo))
        decreases |todo|
      {
        var slot :| slot in todo;
        var t := drained[slot].Value();
        VisitOne(owed, todo, slot);
        MergeOneMore(before, Visited(owed, todo), slot, t);
        AddTo(slot, t);
        todo := todo - {slot};
      }
    }

    /** Joins the flush in flight, or runs one; either way its write has settled on return. */
    method Flush(refused: bool) returns (threw: bool)
      requires Valid()
      modifies this`buffer, this`flushing, this`drained, this`values, this`meterRows, db, Objects(buffer)
      ensures Valid() && (enabled ==> !flushing) && fresh(Objects(buffer) - old(Objects(buffer)))
      ensures View() == if enabled then Flushed(registry, old(View()), refused) else old(View())
      ensures threw <==> enabled && refused && (if old(flushing) then old(drained) else old(buffer)) != map[]
    {
      threw := false;
      if !enabled {
        return;
      }
      if !flushing {
        BeginFlush();
      }
      threw := FinishFlush(refused);
    }

    /**
     Flush until nothing is buffered, at most `maxPasses` times. `refuses` says which
     writes the database refuses; the first refusal is thrown at once.
     */
    method Drain(maxPasses: nat, refuses: int -> bool) returns (passes: nat, threw: bool)
      requires Valid()
      modifies this`buffer, this`flushing, this`drained, this`values, this`meterRows, db, Objects(buffer)
      ensures Valid() && passes <= maxPasses
      ensures !enabled ==> passes == 0 && !threw
      ensures View() == Passes(registry, old(View()), passes, refuses)
      ensures threw ==> passes > 0 && refuses(passes - 1)
      ensures enabled ==> (buffer == map[] && passes > 0) || threw || passes == maxPasses
      ensures enabled && maxPasses >= 2 && (forall p :: !refuses(p)) ==>
        !threw && passes <= 2 && !flushing && buffer == map[]
    {
      hide Collected, Merge, Next, Counts.Value;
      passes, threw := 0, false;
      if !enabled {
        return;
      }
      while passes < maxPasses
        invariant 0 <= passes <= maxPasses
        invariant Valid() && fresh(Objects(buffer) - old(Objects(buffer)))
        invariant View() == Passes(registry, old(View()), passes, refuses)
        invariant !threw && (passes > 0 ==> !flushing && buffer != map[])
        invariant (forall p :: !refuses(p)) ==> passes < 2
      {
        threw := Flush(refuses(passes));
        passes := passes + 1;
        if passes == 2 && !refuses(0) && !refuses(1) {
          TwoPassesEmpty(registry, old(View()), refuses);
          assert View().buffer == map[];
        }
        if threw || buffer == map[] {
          return;
        }
      }
    }

    /** Begin flushing on an interval. Idempotent. */
    method Start()
      modifies this`timer
      ensures timer == (old(timer) || enabled)
    {
      if !enabled || timer {
        return;
      }
      timer := true;
    }

    method Stop(refuses: int -> bool) returns (threw: bool)
      requires Valid()
      modifies this`timer, this`buffer, this`flushing, this`drained, this`values, this`meterRows, db, Objects(buffer)
      ensures Valid() && !timer
      ensures enabled && (forall p :: !refuses(p)) ==>
        !threw && View() == State(db.usage, db.meters, None, map[])
        && forall k :: At(db.usage, k) == Total(old(View()), k)
    {
      timer := false;
      ghost var s := View();
      var passes;
      passes, threw := Drain(DRAIN_PASSES, refuses);
      forall k ensures Total(View(), k) == Total(s, k) {
        PassesConserve(registry, s, passes, refuses, k);
      }
    }
  }
}
