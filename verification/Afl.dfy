/** The application file locator and its READ RECORD plan (src/afl.rs; section 10.2 of EMV 4.3 Book 3). */
module Afl {
  import opened Kernel
  import opened Apdu

  const MAX_AFL_ENTRIES: nat := 63
  const MAX_RECORD_LOCATORS: nat := 256

  datatype AflEntry = AflEntry(sfi: byte, firstRecord: byte, lastRecord: byte, offlineAuthRecordCount: byte)

  datatype RecordLocator = RecordLocator(sfi: byte, record: byte, contributesToOfflineAuth: bool)

  /** What `parse_afl` guarantees of an entry. */
  predicate ValidEntry(e: AflEntry) {
    && 1 <= e.sfi <= 30
    && 1 <= e.firstRecord <= e.lastRecord
    && e.offlineAuthRecordCount <= e.lastRecord - e.firstRecord + 1
  }

  type Entry = e: AflEntry | ValidEntry(e) witness AflEntry(1, 1, 1, 0)

  /** `record_count`: the 8-bit subtraction and addition stay in range on a parsed entry. */
  function RecordCount(e: Entry): (n: byte)
    ensures 1 <= n == e.lastRecord - e.firstRecord + 1
  {
    e.lastRecord - e.firstRecord + 1
  }

  /** The entry four bytes denote. */
  function EntryOf(chunk: seq<byte>): AflEntry
    requires |chunk| == 4
  {
    AflEntry(chunk[0] / 8, chunk[1], chunk[2], chunk[3])
  }

  predicate ValidChunk(chunk: seq<byte>)
    requires |chunk| == 4
  {
    chunk[0] % 8 == 0 && ValidEntry(EntryOf(chunk))
  }

  function ChunkAt(input: seq<byte>, i: nat): (chunk: seq<byte>)
    requires 4 * i + 4 <= |input|
    ensures |chunk| == 4
  {
    input[4 * i..4 * i + 4]
  }

  predicate AllChunksValid(input: seq<byte>, n: nat)
    requires 4 * n <= |input|
  {
    forall i | 0 <= i < n :: ValidChunk(ChunkAt(input, i))
  }

  /** `parse_afl`: accepted exactly when every four-byte chunk is a valid entry; the entries are the chunks in order. */
  method ParseAfl(input: seq<byte>) returns (r: Result<seq<Entry>>)
    ensures r.Ok? <==>
      input != [] && |input| % 4 == 0 && |input| / 4 <= 63 && AllChunksValid(input, |input| / 4)
    ensures r.Ok? ==> |r.value| == |input| / 4 && forall i | 0 <= i < |r.value| :: r.value[i] == EntryOf(ChunkAt(input, i))
    ensures r == Err(LengthOverflow) <==> input != [] && |input| % 4 == 0 && |input| / 4 > 63
    ensures r.Err? ==> r.error == ParseError || r.error == LengthOverflow
  {
    if input == [] || |input| % 4 != 0 {
      return Err(ParseError);
    }
    var entryCount := |input| / 4;
    if entryCount > MAX_AFL_ENTRIES {
      return Err(LengthOverflow);
    }
    var entries: seq<Entry> := [];
    for i := 0 to entryCount
      invariant |entries| == i && AllChunksValid(input, i)
      invariant forall j | 0 <= j < i :: entries[j] == EntryOf(ChunkAt(input, j))
    {
      var chunk := ChunkAt(input, i);
      var sfi, first, last, offline := chunk[0] / 8, chunk[1], chunk[2], chunk[3];
      if chunk[0] % 8 != 0 || sfi == 0 || sfi > 30 || first == 0 || last < first {
        assert !ValidChunk(ChunkAt(input, i));
        return Err(ParseError);
      }
      if offline > last - first + 1 {
        assert !ValidChunk(ChunkAt(input, i));
        return Err(ParseError);
      }
      entries := entries + [AflEntry(sfi, first, last, offline)];
    }
    return Ok(entries);
  }

  // ---------------------------------------------------------------- the plan as a concatenation of ranges

  function LocatorAt(e: Entry, i: nat): RecordLocator
    requires i < RecordCount(e)
  {
    RecordLocator(e.sfi, e.firstRecord + i, i < e.offlineAuthRecordCount)
  }

  /** The first `n` locators of an entry. */
  function Range(e: Entry, n: nat): (locators: seq<RecordLocator>)
    requires n <= RecordCount(e)
    ensures |locators| == n
  {
    seq(n, i requires 0 <= i < n => LocatorAt(e, i))
  }

  /** All ranges in list order. */
  function Plan(entries: seq<Entry>): seq<RecordLocator> {
    if entries == [] then []
    else
      var e := entries[|entries| - 1];
      Plan(entries[..|entries| - 1]) + Range(e, RecordCount(e))
  }

  function TotalRecords(entries: seq<Entry>): nat {
    if entries == [] then 0 else TotalRecords(entries[..|entries| - 1]) + RecordCount(entries[|entries| - 1])
  }

  function TotalOfflineAuth(entries: seq<Entry>): nat {
    if entries == [] then 0
    else TotalOfflineAuth(entries[..|entries| - 1]) + entries[|entries| - 1].offlineAuthRecordCount
  }

  predicate Overlap(d: Entry, e: Entry) {
    d.sfi == e.sfi && d.firstRecord <= e.lastRecord && e.firstRecord <= d.lastRecord
  }

  /** No two entries of the same file name a common record. */
  predicate Disjoint(entries: seq<Entry>) {
    forall i, j | 0 <= i < j < |entries| :: !Overlap(entries[i], entries[j])
  }

  predicate Names(plan: seq<RecordLocator>, sfi: byte, record: byte) {
    exists i | 0 <= i < |plan| :: plan[i].sfi == sfi && plan[i].record == record
  }

  /** Every record is named at most once. */
  predicate DistinctRecords(plan: seq<RecordLocator>) {
    forall i, j | 0 <= i < j < |plan| :: !(plan[i].sfi == plan[j].sfi && plan[i].record == plan[j].record)
  }

  function OfflineAuthCount(plan: seq<RecordLocator>): nat {
    if plan == [] then 0
    else OfflineAuthCount(plan[..|plan| - 1]) + if plan[|plan| - 1].contributesToOfflineAuth then 1 else 0
  }

  // ---------------------------------------------------------------- record_plan

  /** The outcome of planning one more record after `plan`. */
  function Step(plan: seq<RecordLocator>, l: RecordLocator): Result<seq<RecordLocator>> {
    if |plan| >= MAX_RECORD_LOCATORS then Err(LengthOverflow)
    else if Names(plan, l.sfi, l.record) then Err(ParseError)
    else Ok(plan + [l])
  }

  /** The locators processed one by one: the first that does not fit or repeats a record fixes the error. */
  function Build(all: seq<RecordLocator>): Result<seq<RecordLocator>> {
    if all == [] then Ok([])
    else
      var plan :- Build(all[..|all| - 1]);
      Step(plan, all[|all| - 1])
  }

  lemma {:induction false} BuildPrefixFails(all: seq<RecordLocator>, n: nat)
    requires n <= |all| && Build(all[..n]).Err?
    ensures Build(all) == Build(all[..n])
    decreases |all| - n
  {
    if n < |all| {
      assert all[..n + 1][..n] == all[..n];
      BuildPrefixFails(all, n + 1);
    } else {
      assert all[..n] == all;
    }
  }

  lemma BuildNext(plan: seq<RecordLocator>, l: RecordLocator)
    requires Build(plan) == Ok(plan)
    ensures Build(plan + [l]) == Step(plan, l)
  {
    assert (plan + [l])[..|plan + [l]| - 1] == plan;
  }

  lemma RangeNext(e: Entry, n: nat)
    requires n < RecordCount(e)
    ensures Range(e, n + 1) == Range(e, n) + [LocatorAt(e, n)]
  {
  }

  /** `record_plan`, with its nested loops and its search of the locators planned so far. */
  method RecordPlan(entries: seq<Entry>) returns (r: Result<seq<RecordLocator>>)
    ensures r == Build(Plan(entries))
  {
    hide Build, Plan, Range;
    var out: seq<RecordLocator> := [];
    ghost var all := Plan(entries);
    PlanNothing();
    for k := 0 to |entries|
      invariant out == Plan(entries[..k]) && Build(out) == Ok(out)
    {
      var e := entries[k];
      PlanGrows(entries, k);
      ghost var before := out;
      assert Range(e, 0) == [] && before + [] == before;
      for index := 0 to RecordCount(e)
        invariant out == before + Range(e, index) && Build(out) == Ok(out)
      {
        var record: byte := e.firstRecord + index;
        var l := RecordLocator(e.sfi, record, index < e.offlineAuthRecordCount);
        RangeNext(e, index);
        ghost var next := out + [l];
        assert next == before + Range(e, index + 1);
        RangePrefix(before, e, index + 1, all);
        assert all[..|next|] == next;
        BuildNext(out, l);
        if |out| >= MAX_RECORD_LOCATORS {
          BuildPrefixFails(all, |next|);
          return Err(LengthOverflow);
        }
        if exists i | 0 <= i < |out| :: out[i].sfi == e.sfi && out[i].record == record {
          BuildPrefixFails(all, |next|);
          return Err(ParseError);
        }
        out := out + [l];
      }
    }
    assert entries[..|entries|] == entries;
    return Ok(out);
  }

  lemma PlanNothing()
    ensures Plan([]) == [] && Build([]) == Ok([])
  {
  }

  lemma {:induction false} PlanGrows(entries: seq<Entry>, k: nat)
    requires k < |entries|
    ensures Plan(entries[..k + 1]) == Plan(entries[..k]) + Range(entries[k], RecordCount(entries[k])) <= Plan(entries)
    decreases |entries| - k
  {
    assert entries[..k + 1][..k] == entries[..k];
    if k + 1 < |entries| {
      PlanGrows(entries, k + 1);
    } else {
      assert entries[..k + 1] == entries;
    }
  }

  lemma RangePrefix(before: seq<RecordLocator>, e: Entry, n: nat, all: seq<RecordLocator>)
    requires n <= RecordCount(e)
    requires before + Range(e, RecordCount(e)) <= all
    ensures before + Range(e, n) <= all
  {
    assert Range(e, n) == Range(e, RecordCount(e))[..n];
    assert before + Range(e, n) == (before + Range(e, RecordCount(e)))[..|before| + n];
  }

  // ---------------------------------------------------------------- what a plan guarantees

  lemma DistinctSnoc(p: seq<RecordLocator>, l: RecordLocator)
    ensures DistinctRecords(p + [l]) <==> DistinctRecords(p) && !Names(p, l.sfi, l.record)
  {
    var q := p + [l];
    assert forall i | 0 <= i < |p| :: q[i] == p[i];
    if DistinctRecords(q) {
      assert forall i, j | 0 <= i < j < |p| :: q[i] == p[i] && q[j] == p[j];
      assert q[|p|] == l;
    }
  }

  /** Planning succeeds exactly on lists of at most 256 distinct records, and then returns them unchanged. */
  lemma {:induction false} BuildSucceeds(all: seq<RecordLocator>)
    ensures Build(all).Ok? <==> |all| <= 256 && DistinctRecords(all)
    ensures Build(all).Ok? ==> Build(all).value == all
  {
    if all != [] {
      var n := |all| - 1;
      BuildSucceeds(all[..n]);
      assert all == all[..n] + [all[n]];
      DistinctSnoc(all[..n], all[n]);
    }
  }

  lemma {:induction false} PlanLength(entries: seq<Entry>)
    ensures |Plan(entries)| == TotalRecords(entries)
  {
    if entries != [] {
      PlanLength(entries[..|entries| - 1]);
    }
  }

  lemma NamesConcat(p: seq<RecordLocator>, q: seq<RecordLocator>, sfi: byte, record: byte)
    ensures Names(p + q, sfi, record) <==> Names(p, sfi, record) || Names(q, sfi, record)
  {
    var pq := p + q;
    assert forall i | 0 <= i < |p| :: pq[i] == p[i];
    assert forall i | 0 <= i < |q| :: pq[|p| + i] == q[i];
    if Names(pq, sfi, record) && !Names(p, sfi, record) {
      var i :| 0 <= i < |pq| && pq[i].sfi == sfi && pq[i].record == record;
      assert q[i - |p|] == pq[i];
    }
  }

  predicate Covers(e: Entry, sfi: byte, record: byte) {
    e.sfi == sfi && e.firstRecord <= record <= e.lastRecord
  }

  lemma RangeNames(e: Entry, n: nat, sfi: byte, record: byte)
    requires n <= RecordCount(e)
    ensures Names(Range(e, n), sfi, record) <==> e.sfi == sfi && e.firstRecord <= record < e.firstRecord + n
  {
    if e.sfi == sfi && e.firstRecord <= record < e.firstRecord + n {
      assert Range(e, n)[record - e.firstRecord] == LocatorAt(e, record - e.firstRecord);
    }
  }

  /** A plan names exactly the records inside its entries' ranges. */
  lemma {:induction false} PlanNames(entries: seq<Entry>, sfi: byte, record: byte)
    ensures Names(Plan(entries), sfi, record) <==> exists i | 0 <= i < |entries| :: Covers(entries[i], sfi, record)
  {
    if entries != [] {
      var n := |entries| - 1;
      var e, init := entries[n], entries[..n];
      PlanNames(init, sfi, record);
      NamesConcat(Plan(init), Range(e, RecordCount(e)), sfi, record);
      RangeNames(e, RecordCount(e), sfi, record);
      assert forall i | 0 <= i < n :: init[i] == entries[i];
    }
  }

  lemma {:induction false} DistinctAppendRange(head: seq<RecordLocator>, e: Entry, n: nat)
    requires n <= RecordCount(e)
    ensures DistinctRecords(head + Range(e, n)) <==>
      DistinctRecords(head) && forall record | e.firstRecord <= record < e.firstRecord + n :: !Names(head, e.sfi, record)
  {
    if n == 0 {
      assert head + Range(e, n) == head;
    } else {
      var last: byte := e.firstRecord + (n - 1);
      DistinctAppendRange(head, e, n - 1);
      RangeNext(e, n - 1);
      Associative(head, Range(e, n - 1), [LocatorAt(e, n - 1)]);
      DistinctSnoc(head + Range(e, n - 1), LocatorAt(e, n - 1));
      NamesConcat(head, Range(e, n - 1), e.sfi, last);
      RangeNames(e, n - 1, e.sfi, last);
    }
  }

  lemma {:induction false} DistinctIffDisjoint(entries: seq<Entry>)
    ensures DistinctRecords(Plan(entries)) <==> Disjoint(entries)
  {
    if entries != [] {
      var n := |entries| - 1;
      var e, init := entries[n], entries[..n];
      DistinctIffDisjoint(init);
      DistinctAppendRange(Plan(init), e, RecordCount(e));
      assert forall i | 0 <= i < n :: init[i] == entries[i];
      if DistinctRecords(Plan(entries)) {
        forall i | 0 <= i < n
          ensures !Overlap(entries[i], e)
        {
          var common: byte := Max(entries[i].firstRecord, e.firstRecord);
          PlanNames(init, e.sfi, common);
          assert Overlap(entries[i], e) ==> Covers(init[i], e.sfi, common);
        }
      }
      if Disjoint(entries) {
        assert Disjoint(init);
        forall record: byte | e.firstRecord <= record <= e.lastRecord
          ensures !Names(Plan(init), e.sfi, record)
        {
          PlanNames(init, e.sfi, record);
          assert forall i | 0 <= i < n :: Covers(init[i], e.sfi, record) ==> Overlap(entries[i], entries[n]);
        }
      }
    }
  }

  lemma {:induction false} OfflineAuthConcat(p: seq<RecordLocator>, q: seq<RecordLocator>)
    ensures OfflineAuthCount(p + q) == OfflineAuthCount(p) + OfflineAuthCount(q)
  {
    if q == [] {
      assert p + q == p;
    } else {
      var n := |q| - 1;
      OfflineAuthConcat(p, q[..n]);
      assert (p + q)[..|p + q| - 1] == p + q[..n];
    }
  }

  lemma {:induction false} OfflineAuthOfRange(e: Entry, n: nat)
    requires n <= RecordCount(e)
    ensures OfflineAuthCount(Range(e, n)) == if n <= e.offlineAuthRecordCount then n else e.offlineAuthRecordCount
  {
    if n > 0 {
      OfflineAuthOfRange(e, n - 1);
      assert Range(e, n)[..n - 1] == Range(e, n - 1);
    }
  }

  lemma {:induction false} OfflineAuthOfPlan(entries: seq<Entry>)
    ensures OfflineAuthCount(Plan(entries)) == TotalOfflineAuth(entries)
  {
    if entries != [] {
      var e := entries[|entries| - 1];
      OfflineAuthOfPlan(entries[..|entries| - 1]);
      OfflineAuthConcat(Plan(entries[..|entries| - 1]), Range(e, RecordCount(e)));
      OfflineAuthOfRange(e, RecordCount(e));
    }
  }

  /**
   A plan exists exactly when the entries name at most 256 records and no record twice; it is then the ranges in
   order, and as many of its locators contribute to offline authentication as the entries declare.
   */
  lemma PlanExists(entries: seq<Entry>)
    ensures Build(Plan(entries)).Ok? <==> TotalRecords(entries) <= 256 && Disjoint(entries)
    ensures Build(Plan(entries)).Ok? ==>
      && Build(Plan(entries)).value == Plan(entries)
      && DistinctRecords(Plan(entries))
      && OfflineAuthCount(Plan(entries)) == TotalOfflineAuth(entries)
  {
    BuildSucceeds(Plan(entries));
    PlanLength(entries);
    DistinctIffDisjoint(entries);
    OfflineAuthOfPlan(entries);
  }

  /** Position `n` is the first past the limit or naming a record again. */
  predicate FirstOffender(all: seq<RecordLocator>, n: nat) {
    && n < |all| && n <= MAX_RECORD_LOCATORS
    && DistinctRecords(all[..n])
    && (n == MAX_RECORD_LOCATORS || Names(all[..n], all[n].sfi, all[n].record))
  }

  /** A failing plan has a first offending position, and that position alone fixes the error. */
  lemma {:induction false} FirstOffenderFixesError(all: seq<RecordLocator>) returns (n: nat)
    requires Build(all).Err?
    ensures FirstOffender(all, n)
    ensures Build(all) == Err(if n == MAX_RECORD_LOCATORS then LengthOverflow else ParseError)
  {
    var init, last := all[..|all| - 1], all[|all| - 1];
    if Build(init).Err? {
      n := FirstOffenderFixesError(init);
      assert init[..n] == all[..n];
    } else {
      BuildSucceeds(init);
      n := |init|;
    }
  }

  // ---------------------------------------------------------------- commands

  function CommandFor(l: RecordLocator): Result<CommandApdu> {
    ReadRecord(l.record, l.sfi)
  }

  /** `read_record_commands`. */
  function ReadRecordCommands(entries: seq<Entry>): Result<seq<CommandApdu>> {
    var plan :- Build(Plan(entries));
    MapResult(CommandFor, plan)
  }

  lemma {:induction false} PlannedRecordsAreValid(entries: seq<Entry>)
    ensures forall l | l in Plan(entries) :: l.record != 0 && 1 <= l.sfi <= 30
  {
    if entries != [] {
      PlannedRecordsAreValid(entries[..|entries| - 1]);
    }
  }

  /**
   Every plan turns into READ RECORD commands, one per locator in order: class 00, instruction B2, the record in P1, the
   file and the "read record P1" bits in P2, no data, and Le 00. No command occurs twice.
   */
  lemma PlanToCommands(entries: seq<Entry>)
    ensures ReadRecordCommands(entries).Ok? <==> Build(Plan(entries)).Ok?
    ensures ReadRecordCommands(entries).Ok? ==>
      var commands, plan := ReadRecordCommands(entries).value, Plan(entries);
      && |commands| == |plan|
      && (forall i | 0 <= i < |plan| ::
            && commands[i].p1 == plan[i].record && commands[i].p2 / 8 == plan[i].sfi && commands[i].p2 % 8 == 4
            && commands[i] == CommandApdu(0x00, 0xb2, commands[i].p1, commands[i].p2, [], Some(0x00)))
      && NoDuplicates(commands)
  {
    hide Build, Plan, CommandFor, TotalRecords, TotalOfflineAuth, OfflineAuthCount, Disjoint;
    if Build(Plan(entries)).Ok? {
      PlanExists(entries);
      PlannedRecordsAreValid(entries);
      var plan := Plan(entries);
      forall i | 0 <= i < |plan|
        ensures IsCommandFor(plan[i])
      {
        assert plan[i] in plan;
        CommandNamesRecord(plan[i]);
      }
    }
  }

  predicate IsCommandFor(l: RecordLocator) {
    && CommandFor(l).Ok?
    && var c := CommandFor(l).value;
       && c.p1 == l.record && c.p2 / 8 == l.sfi && c.p2 % 8 == 4
       && c == CommandApdu(0x00, 0xb2, c.p1, c.p2, [], Some(0x00))
  }

  lemma CommandNamesRecord(l: RecordLocator)
    requires l.record != 0 && 1 <= l.sfi <= 30
    ensures IsCommandFor(l)
  {
  }
}
