/** The upload planner and the split of a refused pack. */
module BulkPlanner {
  import opened Common
  import opened BulkCodec

  datatype Step = Bulk(records: seq<Record>) | Single(record: Record) {
    function All(): seq<Record> {
      if Bulk? then records else [record]
    }
  }

  function Flatten(steps: seq<Step>): seq<Record> {
    if steps == [] then [] else Flatten(steps[..|steps| - 1]) + steps[|steps| - 1].All()
  }

  /** The planner refuses records that the encoder would refuse in any pack. */
  predicate Plannable(r: Record) {
    Shaped(r) && Weight(r) <= U32_MAX
  }

  predicate Eligible(r: Record, l: Limits) {
    |r.data| <= l.maxObjectBytes && PACK_HEADER_BYTES + Weight(r) <= l.maxBytes
  }

  /** A step the transport can send: one record, or an encodable pack. */
  ghost predicate Sendable(s: Step, l: Limits) {
    s.Bulk? ==> s.records != [] && Encodable(s.records, l)
  }

  /** Any order-preserving way to send these records. */
  ghost predicate IsPlan(steps: seq<Step>, records: seq<Record>, l: Limits) {
    Flatten(steps) == records && forall i | 0 <= i < |steps| :: Sendable(steps[i], l)
  }

  /** Records before step `i`. */
  function Covered(steps: seq<Step>, i: nat): nat
    requires i <= |steps|
  {
    if i == 0 then 0 else Covered(steps, i - 1) + |steps[i - 1].All()|
  }

  lemma {:induction false} CoveredIsPrefix(steps: seq<Step>, i: nat)
    requires i <= |steps|
    ensures Covered(steps, i) <= |Flatten(steps)| && Flatten(steps[..i]) == Flatten(steps)[..Covered(steps, i)]
    ensures Covered(steps, |steps|) == |Flatten(steps)|
    decreases |steps|, i
  {
    if steps != [] {
      var n := |steps| - 1;
      var before, last := steps[..n], steps[n].All();
      CoveredIsPrefix(before, if i <= n then i else n);
      CoveredAgrees(steps, n);
      assert Flatten(steps) == Flatten(before) + last;
      if i <= n {
        CoveredAgrees(steps, i);
        assert before[..i] == steps[..i];
        assert Flatten(steps)[..Covered(steps, i)] == Flatten(before)[..Covered(steps, i)];
      } else {
        assert steps[..i] == steps;
      }
    }
  }

  lemma {:induction false} CoveredAgrees(steps: seq<Step>, i: nat)
    requires i < |steps|
    ensures Covered(steps[..|steps| - 1], i) == Covered(steps, i)
  {
    if i > 0 { CoveredAgrees(steps, i - 1); }
  }

  /** Step `i` is the piece of the records between its cuts. */
  lemma StepIsPiece(steps: seq<Step>, i: nat)
    requires i < |steps|
    ensures var s, e := Covered(steps, i), Covered(steps, i + 1);
      s <= e <= |Flatten(steps)| && Flatten(steps)[s..e] == steps[i].All()
  {
    CoveredIsPrefix(steps, i);
    CoveredIsPrefix(steps, i + 1);
    assert steps[..i + 1][..i] == steps[..i];
    var all := Flatten(steps);
    var s, e := Covered(steps, i), Covered(steps, i + 1);
    assert all[..e] == all[..s] + steps[i].All();
    assert all[..e][s..] == all[s..e];
  }

  // -------------------------------------------------- pieces of an encodable pack

  lemma {:induction false} PayloadSplits(a: seq<Record>, b: seq<Record>)
    ensures Payload(a + b) == Payload(a) + Payload(b)
  {
    if b == [] {
      assert a + b == a;
    } else {
      var c := b[..|b| - 1];
      PayloadSplits(a, c);
      assert (a + b)[..|a + b| - 1] == a + c;
    }
  }

  lemma PartIsEncodable(a: seq<Record>, b: seq<Record>, l: Limits)
    requires Encodable(a + b, l)
    ensures Encodable(a, l) && Encodable(b, l)
  {
    hide Shaped;
    PayloadSplits(a, b);
    assert forall i | 0 <= i < |a| :: (a + b)[i] == a[i];
    forall i | 0 <= i < |b|
      ensures Shaped(b[i]) && |b[i].data| <= l.maxObjectBytes
    {
      assert (a + b)[|a| + i] == b[i];
    }
  }

  /** A pack stays encodable when records are dropped at either end. */
  lemma PieceIsEncodable(rs: seq<Record>, s: nat, e: nat, l: Limits)
    requires Encodable(rs, l) && s <= e <= |rs|
    ensures Encodable(rs[s..e], l)
  {
    hide Encodable;
    assert rs[..e] + rs[e..] == rs && rs[..s] + rs[s..e] == rs[..e];
    PartIsEncodable(rs[..e], rs[e..], l);
    PartIsEncodable(rs[..s], rs[s..e], l);
  }

  lemma Within(rs: seq<Record>, o: nat, p: nat, s: nat, e: nat)
    requires o <= s <= e <= p <= |rs|
    ensures rs[o..p][s - o..e - o] == rs[s..e]
  {
    var whole, part := rs[o..p][s - o..e - o], rs[s..e];
    forall k | 0 <= k < e - s
      ensures whole[k] == part[k]
    {
      assert whole[k] == rs[o..p][s - o + k] == rs[s + k] == part[k];
    }
  }

  lemma EligibleIffEncodable(r: Record, l: Limits)
    requires Shaped(r) && ValidLimits(l)
    ensures Eligible(r, l) <==> Encodable([r], l)
  {
    assert [r][..0] == [] && Payload([]) == 0;
    assert Payload([r]) == Weight(r);
    assert AllShaped([r]);
  }

  // --------------------------------------------------------------- greedy plans

  /** Bulk steps take all they can, single steps only what no pack can hold. */
  ghost predicate GreedyAt(steps: seq<Step>, i: nat, records: seq<Record>, l: Limits)
    requires i < |steps|
  {
    var s, e := Covered(steps, i), Covered(steps, i + 1);
    if steps[i].Single? then !Eligible(steps[i].record, l)
    else e < |records| ==> s <= e && !Encodable(records[s..e + 1], l)
  }

  ghost predicate IsGreedy(steps: seq<Step>, records: seq<Record>, l: Limits) {
    IsPlan(steps, records, l) && forall i | 0 <= i < |steps| :: GreedyAt(steps, i, records, l)
  }

  /** A record that some pack of a plan holds together with its successors is eligible. */
  lemma HeldIsEligible(rs: seq<Record>, s: nat, e: nat, l: Limits)
    requires ValidLimits(l) && AllShaped(rs) && s < e <= |rs| && Encodable(rs[s..e], l)
    ensures Eligible(rs[s], l)
  {
    hide Encodable, Eligible, Shaped;
    PieceIsEncodable(rs[s..e], 0, 1, l);
    assert rs[s..e][0..1] == [rs[s]];
    EligibleIffEncodable(rs[s], l);
  }

  /** A greedy plan that is ahead of another plan stays ahead for one more step. */
  lemma GreedyReaches(greedy: seq<Step>, i: nat, other: seq<Step>, j: nat, records: seq<Record>, l: Limits)
    requires ValidLimits(l) && AllShaped(records) && IsGreedy(greedy, records, l) && IsPlan(other, records, l)
    requires i < |greedy| && j < |other| && Covered(other, j) <= Covered(greedy, i) < Covered(other, j + 1)
    ensures Covered(greedy, i + 1) >= Covered(other, j + 1)
  {
    hide Encodable, Eligible, Covered, Flatten, Shaped;
    StepIsPiece(greedy, i);
    StepIsPiece(other, j);
    assert Sendable(greedy[i], l) && Sendable(other[j], l) && GreedyAt(greedy, i, records, l);
    var s, e := Covered(greedy, i), Covered(greedy, i + 1);
    var o, p := Covered(other, j), Covered(other, j + 1);
    assert greedy[i].Single? ==> e == s + 1 && records[s..e][0] == greedy[i].record;
    if e < p {
      Within(records, o, p, s, e + 1);
      assert p - o > 1 ==> other[j].Bulk?;
      PieceIsEncodable(records[o..p], s - o, e + 1 - o, l);
      HeldIsEligible(records, s, e + 1, l);
    }
  }

  lemma {:induction false} GreedyIsAhead(greedy: seq<Step>, i: nat, other: seq<Step>, j: nat, records: seq<Record>,
                                         l: Limits)
    requires ValidLimits(l) && AllShaped(records) && IsGreedy(greedy, records, l) && IsPlan(other, records, l)
    requires i <= |greedy| && j <= |other| && Covered(other, j) <= Covered(greedy, i)
    ensures |greedy| - i <= |other| - j
    decreases |other| - j
  {
    hide IsGreedy, IsPlan, AllShaped, ValidLimits, Covered;
    if i < |greedy| {
      StepsRemain(greedy, i, other, j, records, l);
      if Covered(other, j + 1) <= Covered(greedy, i) {
        GreedyIsAhead(greedy, i, other, j + 1, records, l);
      } else {
        GreedyReaches(greedy, i, other, j, records, l);
        GreedyIsAhead(greedy, i + 1, other, j + 1, records, l);
      }
    }
  }

  /** A plan with a step left is behind the end of every other plan. */
  lemma StepsRemain(steps: seq<Step>, i: nat, other: seq<Step>, j: nat, records: seq<Record>, l: Limits)
    requires IsGreedy(steps, records, l) && IsPlan(other, records, l)
    requires i < |steps| && j <= |other| && Covered(other, j) <= Covered(steps, i)
    ensures j < |other|
  {
    hide GreedyAt, Sendable, Covered;
    CoveredIsPrefix(other, j);
    StepIsPiece(steps, i);
    StepsAreNotEmpty(steps, i, records, l);
  }

  lemma StepsAreNotEmpty(steps: seq<Step>, i: nat, records: seq<Record>, l: Limits)
    requires IsPlan(steps, records, l) && i < |steps|
    ensures Covered(steps, i) < Covered(steps, i + 1)
  {
    assert Sendable(steps[i], l);
  }

  /** No order-preserving plan under the same limits uses fewer requests. */
  lemma GreedyIsShortest(greedy: seq<Step>, other: seq<Step>, records: seq<Record>, l: Limits)
    requires ValidLimits(l) && AllShaped(records) && IsGreedy(greedy, records, l) && IsPlan(other, records, l)
    ensures |greedy| <= |other|
  {
    GreedyIsAhead(greedy, 0, other, 0, records, l);
  }

  // ----------------------------------------------------------------- the planner

  /** The steps so far are greedy and `pending` follows them. */
  ghost predicate Planning(steps: seq<Step>, pending: seq<Record>, records: seq<Record>, n: nat, l: Limits) {
    && n <= |records| && Flatten(steps) + pending == records[..n]
    && (forall i | 0 <= i < |steps| :: Sendable(steps[i], l) && GreedyAt(steps, i, records, l))
    && (pending == [] || Encodable(pending, l))
  }

  lemma {:induction false} CoveredOfMore(steps: seq<Step>, s: Step, i: nat)
    requires i <= |steps|
    ensures Covered(steps + [s], i) == Covered(steps, i)
  {
    if i > 0 { CoveredOfMore(steps, s, i - 1); }
  }

  lemma AddStep(steps: seq<Step>, s: Step, records: seq<Record>, n: nat, l: Limits)
    requires n <= |records| && Flatten(steps) + s.All() == records[..n] && Sendable(s, l)
    requires forall i | 0 <= i < |steps| :: Sendable(steps[i], l) && GreedyAt(steps, i, records, l)
    requires if s.Single? then !Eligible(s.record, l)
             else n < |records| ==> !Encodable(records[|Flatten(steps)|..n + 1], l)
    ensures Flatten(steps + [s]) == records[..n]
    ensures forall i | 0 <= i < |steps + [s]| :: Sendable((steps + [s])[i], l) && GreedyAt(steps + [s], i, records, l)
  {
    hide Eligible, Encodable, GreedyAt, Sendable, Covered;
    var more := steps + [s];
    assert more[..|steps|] == steps;
    forall i | 0 <= i < |more|
      ensures Sendable(more[i], l) && GreedyAt(more, i, records, l)
    {
      if i < |steps| {
        assert Sendable(steps[i], l) && GreedyAt(steps, i, records, l);
        StaysGreedy(steps, s, i, records, l);
      } else {
        LastIsGreedy(steps, s, records, n, l);
      }
    }
  }

  lemma StaysGreedy(steps: seq<Step>, s: Step, i: nat, records: seq<Record>, l: Limits)
    requires i < |steps| && GreedyAt(steps, i, records, l)
    ensures GreedyAt(steps + [s], i, records, l)
  {
    hide Eligible, Encodable;
    CoveredOfMore(steps, s, i);
    CoveredOfMore(steps, s, i + 1);
  }

  lemma LastIsGreedy(steps: seq<Step>, s: Step, records: seq<Record>, n: nat, l: Limits)
    requires n <= |records| && |Flatten(steps)| + |s.All()| == n
    requires if s.Single? then !Eligible(s.record, l)
             else n < |records| ==> !Encodable(records[|Flatten(steps)|..n + 1], l)
    ensures GreedyAt(steps + [s], |steps|, records, l)
  {
    hide Eligible, Encodable;
    CoveredIsPrefix(steps, |steps|);
    CoveredOfMore(steps, s, |steps|);
  }

  /** `flush`: the pending pack becomes a step when the next record stops it. */
  method Flush(steps: seq<Step>, pending: seq<Record>, ghost records: seq<Record>, ghost n: nat, ghost l: Limits)
    returns (r: seq<Step>)
    requires Planning(steps, pending, records, n, l) && AllShaped(records)
    requires pending != [] && n < |records| ==> !Encodable(pending + [records[n]], l)
    ensures Planning(r, [], records, n, l)
  {
    hide Eligible, GreedyAt, Sendable;
    if pending == [] { return steps; }
    ghost var s := |Flatten(steps)|;
    if n < |records| {
      assert records[..n][s..] == pending;
      assert records[s..n + 1] == pending + [records[n]];
    }
    StepFits(pending, l);
    AddStep(steps, Bulk(pending), records, n, l);
    r := steps + [Bulk(pending)];
    assert Flatten(r) + [] == records[..n];
  }

  lemma StepFits(pending: seq<Record>, l: Limits)
    requires pending != [] && Encodable(pending, l)
    ensures Sendable(Bulk(pending), l)
  {
  }

  /** `planBulkUploadSteps`. */
  method Plan(records: seq<Record>, limits: Limits) returns (r: Option<seq<Step>>)
    ensures r.Some? <==> ValidLimits(limits) && forall i | 0 <= i < |records| :: Plannable(records[i])
    ensures r.Some? ==> IsGreedy(r.value, records, limits)
    ensures r.Some? ==> forall other | IsPlan(other, records, limits) :: |r.value| <= |other|
  {
    hide Shaped, GreedyAt, Sendable, Eligible, Planning, Payload;
    if !ValidLimits(limits) { return None; }
    var shaped := AllPlannable(records);
    if !shaped { return None; }
    var steps: seq<Step>, pending: seq<Record>, pendingBytes := [], [], PACK_HEADER_BYTES;
    StartPlanning(records, limits);
    for n := 0 to |records|
      invariant Planning(steps, pending, records, n, limits) && pendingBytes == PACK_HEADER_BYTES + Payload(pending)
    {
      var record := records[n];
      if !Eligible(record, limits) {
        Stopped(pending, record, limits);
        steps := Flush(steps, pending, records, n, limits);
        TakeSingle(steps, records, n, limits);
        steps, pending, pendingBytes := steps + [Single(record)], [], PACK_HEADER_BYTES;
        continue;
      }
      if |pending| >= limits.maxObjects || pendingBytes + Weight(record) > limits.maxBytes {
        Overfull(pending, record, limits);
        steps := Flush(steps, pending, records, n, limits);
        pending, pendingBytes := [], PACK_HEADER_BYTES;
        AloneFits(record, limits);
      }
      TakePending(steps, pending, records, n, limits);
      pending, pendingBytes := pending + [record], pendingBytes + Weight(record);
    }
    steps := Flush(steps, pending, records, |records|, limits);
    PlanEnds(steps, records, limits);
    forall other | IsPlan(other, records, limits)
      ensures |steps| <= |other|
    {
      GreedyIsShortest(steps, other, records, limits);
    }
    return Some(steps);
  }

  method AllPlannable(records: seq<Record>) returns (ok: bool)
    ensures ok <==> forall i | 0 <= i < |records| :: Plannable(records[i])
    ensures ok ==> AllShaped(records)
  {
    for i := 0 to |records|
      invariant forall j | 0 <= j < i :: Plannable(records[j])
    {
      if !Plannable(records[i]) { return false; }
    }
    return true;
  }

  lemma StartPlanning(records: seq<Record>, l: Limits)
    ensures Planning([], [], records, 0, l) && Payload([]) == 0
  {
  }

  lemma Stopped(pending: seq<Record>, record: Record, l: Limits)
    requires ValidLimits(l) && Shaped(record) && !Eligible(record, l)
    ensures !Encodable(pending + [record], l)
  {
    hide Shaped, Eligible, Encodable;
    if Encodable(pending + [record], l) {
      PartIsEncodable(pending, [record], l);
      EligibleIffEncodable(record, l);
    }
  }

  lemma Overfull(pending: seq<Record>, record: Record, l: Limits)
    requires |pending| >= l.maxObjects || PACK_HEADER_BYTES + Payload(pending) + Weight(record) > l.maxBytes
    ensures !Encodable(pending + [record], l)
  {
    assert (pending + [record])[..|pending|] == pending;
  }

  lemma TakeSingle(steps: seq<Step>, records: seq<Record>, n: nat, l: Limits)
    requires Planning(steps, [], records, n, l) && n < |records| && !Eligible(records[n], l)
    ensures Planning(steps + [Single(records[n])], [], records, n + 1, l) && Payload([]) == 0
  {
    hide Eligible, Encodable, GreedyAt;
    assert Flatten(steps) + [records[n]] == records[..n + 1];
    AddStep(steps, Single(records[n]), records, n + 1, l);
  }

  lemma TakePending(steps: seq<Step>, pending: seq<Record>, records: seq<Record>, n: nat, l: Limits)
    requires Planning(steps, pending, records, n, l) && n < |records| && ValidLimits(l) && Shaped(records[n])
    requires Eligible(records[n], l) && |pending| < l.maxObjects &&
      PACK_HEADER_BYTES + Payload(pending) + Weight(records[n]) <= l.maxBytes
    ensures Planning(steps, pending + [records[n]], records, n + 1, l)
    ensures Payload(pending + [records[n]]) == Payload(pending) + Weight(records[n])
  {
    hide GreedyAt, Sendable, Shaped, Flatten, Eligible, Encodable, Payload;
    MoreIsEncodable(pending, records[n], l);
    assert Flatten(steps) + (pending + [records[n]]) == Flatten(steps) + pending + [records[n]] == records[..n + 1];
  }

  lemma MoreIsEncodable(pending: seq<Record>, record: Record, l: Limits)
    requires pending == [] || Encodable(pending, l)
    requires Shaped(record) && Eligible(record, l) && |pending| < l.maxObjects
    requires PACK_HEADER_BYTES + Payload(pending) + Weight(record) <= l.maxBytes
    ensures Encodable(pending + [record], l) && Payload(pending + [record]) == Payload(pending) + Weight(record)
  {
    hide Shaped, Payload, Weight;
    var more := pending + [record];
    assert more[..|pending|] == pending && more[..|pending| + 1] == more;
    PayloadStep(more, |pending|);
    forall i | 0 <= i < |more|
      ensures Shaped(more[i]) && |more[i].data| <= l.maxObjectBytes
    {
      assert i < |pending| ==> more[i] == pending[i];
    }
  }

  lemma AloneFits(record: Record, l: Limits)
    requires Eligible(record, l)
    ensures PACK_HEADER_BYTES + Payload([]) + Weight(record) <= l.maxBytes
  {
  }

  lemma PlanEnds(steps: seq<Step>, records: seq<Record>, l: Limits)
    requires Planning(steps, [], records, |records|, l)
    ensures IsGreedy(steps, records, l)
  {
    hide GreedyAt, Sendable, Flatten;
    assert records[..|records|] == records && Flatten(steps) + [] == Flatten(steps);
  }

  // ---------------------------------------------------- splitting a refused pack

  function Largest(rs: seq<Record>): nat {
    if rs == [] then 0 else Max(Largest(rs[..|rs| - 1]), Weight(rs[|rs| - 1]))
  }

  lemma {:induction false} LargestBounds(rs: seq<Record>, i: nat)
    requires i < |rs|
    ensures Weight(rs[i]) <= Largest(rs)
  {
    if i < |rs| - 1 { LargestBounds(rs[..|rs| - 1], i); }
  }

  /** Half of the payload, rounded up. */
  function Half(rs: seq<Record>): nat {
    (Payload(rs) + 1) / 2
  }

  /** `splitBulkUploadRecords`: two non-empty ordered halves, neither heavier than
      half the payload plus one record. */
  method Split(records: seq<Record>) returns (r: Option<(seq<Record>, seq<Record>)>)
    ensures r.Some? <==> |records| >= 2 && Payload(records) <= U32_MAX
    ensures r.Some? ==>
      && r.value.0 + r.value.1 == records && r.value.0 != [] && r.value.1 != []
      && Payload(r.value.0) <= Half(records) + Largest(records)
      && Payload(r.value.1) <= Max(Half(records), Largest(records))
  {
    hide Payload, Largest;
    if |records| < 2 { return None; }
    var total := PayloadOf(records);
    if total.None? { return None; }
    var target := (total.value + 1) / 2;
    var consumed, splitAt, index := 0, 1, 0;
    NoPayload(records);
    while index < |records| - 1
      invariant index < |records| && consumed == Payload(records[..index])
      invariant splitAt == Max(1, index) && (index > 0 ==> consumed < target)
    {
      PayloadStep(records, index);
      LargestBounds(records, index);
      consumed := consumed + Weight(records[index]);
      splitAt := index + 1;
      if consumed >= target { break; }
      index := index + 1;
    }
    PayloadSplits(records[..splitAt], records[splitAt..]);
    assert records[..splitAt] + records[splitAt..] == records;
    if consumed < target { LastPayload(records); }
    return Some((records[..splitAt], records[splitAt..]));
  }

  method PayloadOf(records: seq<Record>) returns (r: Option<nat>)
    ensures r.Some? <==> Payload(records) <= U32_MAX
    ensures r.Some? ==> r.value == Payload(records)
  {
    hide Payload;
    var total := 0;
    NoPayload(records);
    for i := 0 to |records|
      invariant total == Payload(records[..i]) <= U32_MAX
    {
      PayloadStep(records, i);
      PayloadGrows(records, i + 1);
      if Weight(records[i]) > U32_MAX || total + Weight(records[i]) > U32_MAX { return None; }
      total := total + Weight(records[i]);
    }
    assert records[..|records|] == records;
    return Some(total);
  }

  lemma NoPayload(records: seq<Record>)
    ensures Payload(records[..0]) == 0
  {
  }

  lemma PayloadStep(records: seq<Record>, i: nat)
    requires i < |records|
    ensures Payload(records[..i + 1]) == Payload(records[..i]) + Weight(records[i])
  {
    assert records[..i + 1][..i] == records[..i];
  }

  lemma LastPayload(records: seq<Record>)
    requires |records| >= 2
    ensures Payload(records[|records| - 1..]) <= Largest(records)
  {
    var n := |records| - 1;
    LargestBounds(records, n);
    assert records[n..] == [records[n]] && [records[n]][..0] == [];
  }
}
