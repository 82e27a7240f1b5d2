/**
  The read-back after a merge: where the incoming delta must win, a conflicting scalar is rewritten
  and a wrongly ordered pair of list insertions is deleted and re-inserted.
 */
module Override {
  import opened Deltas
  import opened LexOrder
  import opened LwwOrder
  import opened Sequences

  /** The identity of one operation in a document. */
  datatype OpId = OpId(counter: nat, actor: Bytes)
  datatype Value = Scalar(n: int) | Object

  datatype Cell = Cell(id: OpId, value: Value)
  datatype Item = Item(id: OpId, value: Value)
  type Key = Bytes

  datatype LwwConflict = LwwConflict(key: Key, incoming: Cell, local: Cell)
  datatype RgaConflict = RgaConflict(local: Item, incoming: Item)

  /** One decoded list insertion: where it went in, and the element. */
  datatype InsertOp = InsertOp(predecessor: Option<OpId>, element: Item)

  datatype Report = Report(lwwChecked: nat, rgaChecked: nat, divergences: nat, applied: nat, failed: nat,
                           indeterminate: nat)

  // ---------------------------------------------------------------------------
  // Capturing conflicts

  /** The conflict of one key, if both documents hold different scalar writes there. */
  function LwwConflictAt(local: map<Key, Cell>, incoming: map<Key, Cell>, key: Key): Option<LwwConflict> {
    if key in local && key in incoming && local[key].value != Object && incoming[key].value != Object
       && local[key].id != incoming[key].id
    then Some(LwwConflict(key, incoming[key], local[key]))
    else None
  }

  function ConflictKey(c: LwwConflict): Key { c.key }

  /** Both documents hold a scalar under the key, from different writes, and these are the two. */
  predicate ConflictOf(local: map<Key, Cell>, incoming: map<Key, Cell>, c: LwwConflict) {
    && c.key in local && c.key in incoming && c.local == local[c.key] && c.incoming == incoming[c.key]
    && c.local.value != Object && c.incoming.value != Object && c.local.id != c.incoming.id
  }

  /** Exactly the keys with two different scalar writes conflict, each once, in the order of their bytes. */
  method CaptureLww(local: map<Key, Cell>, incoming: map<Key, Cell>) returns (out: seq<LwwConflict>)
    ensures forall i, j :: 0 <= i < j < |out| ==> Less(out[i].key, out[j].key)
    ensures forall c :: c in out <==> ConflictOf(local, incoming, c)
  {
    var found := GatherLww(local, incoming);
    out := SortBy(ConflictKey, found);
    SortSorts(ConflictKey, found);
    SortDistinct(ConflictKey, found);
    forall c ensures c in out <==> c in found {
      SortHolds(ConflictKey, found, c);
    }
    forall i, j | 0 <= i < j < |out| ensures Less(out[i].key, out[j].key) {
      Total(out[i].key, out[j].key);
    }
  }

  method GatherLww(local: map<Key, Cell>, incoming: map<Key, Cell>) returns (out: seq<LwwConflict>)
    ensures DistinctBy(ConflictKey, out)
    ensures forall c :: c in out <==> LwwConflictAt(local, incoming, c.key) == Some(c)
  {
    var keys := Listing(incoming.Keys);
    out := [];
    for i := 0 to |keys|
      invariant forall c :: c in out <==> c.key in keys[..i] && LwwConflictAt(local, incoming, c.key) == Some(c)
      invariant DistinctBy(ConflictKey, out)
    {
      assert keys[..i + 1] == keys[..i] + [keys[i]];
      var conflict := LwwConflictAt(local, incoming, keys[i]);
      if conflict.Some? {
        forall k | 0 <= k < |out| ensures out[k].key != keys[i] {
          assert out[k] in out;
        }
        out := out + [conflict.value];
      }
    }
    assert keys[..|keys|] == keys;
    assert forall k :: k in keys <==> k in Elems(keys);
  }

  /** The conflicts of one local insertion: one for each incoming insertion behind the same predecessor, in order. */
  function PairsOf(op: InsertOp, incoming: seq<InsertOp>): seq<RgaConflict> {
    if incoming == [] then []
    else
      var last := incoming[|incoming| - 1];
      PairsOf(op, incoming[..|incoming| - 1]) +
      if op.predecessor == last.predecessor then [RgaConflict(op.element, last.element)] else []
  }

  /** All conflicts, local insertion by local insertion. */
  function AllPairs(local: seq<InsertOp>, incoming: seq<InsertOp>): seq<RgaConflict> {
    if local == [] then []
    else AllPairs(local[..|local| - 1], incoming) + PairsOf(local[|local| - 1], incoming)
  }

  /** Every pair of insertions behind one predecessor, as often and in the order the two loops meet it. */
  method CaptureRga(local: seq<InsertOp>, incoming: seq<InsertOp>) returns (out: seq<RgaConflict>)
    ensures out == AllPairs(local, incoming)
  {
    out := [];
    for i := 0 to |local|
      invariant out == AllPairs(local[..i], incoming)
    {
      ghost var before := out;
      assert local[..i + 1][..i] == local[..i];
      for j := 0 to |incoming|
        invariant out == before + PairsOf(local[i], incoming[..j])
      {
        assert incoming[..j + 1][..j] == incoming[..j];
        if local[i].predecessor == incoming[j].predecessor {
          out := out + [RgaConflict(local[i].element, incoming[j].element)];
        }
      }
      assert incoming[..|incoming|] == incoming;
    }
    assert local[..|local|] == local;
  }

  /** The conflict of two insertions behind one predecessor. */
  predicate IsPair(l: InsertOp, x: InsertOp, c: RgaConflict) {
    l.predecessor == x.predecessor && c == RgaConflict(l.element, x.element)
  }

  ghost predicate PairedWith(op: InsertOp, incoming: seq<InsertOp>, c: RgaConflict) {
    exists x :: x in incoming && IsPair(op, x, c)
  }

  lemma PairedPush(op: InsertOp, init: seq<InsertOp>, last: InsertOp, c: RgaConflict)
    ensures PairedWith(op, init + [last], c) <==> PairedWith(op, init, c) || IsPair(op, last, c)
  {
    var all := init + [last];
    assert last in all && forall x :: x in init ==> x in all;
  }

  lemma {:induction false} PairsOfHolds(op: InsertOp, incoming: seq<InsertOp>, c: RgaConflict)
    ensures c in PairsOf(op, incoming) <==> PairedWith(op, incoming, c)
  {
    if incoming != [] {
      var init, last := incoming[..|incoming| - 1], incoming[|incoming| - 1];
      PairsOfHolds(op, init, c);
      PairedPush(op, init, last, c);
      assert incoming == init + [last];
    }
  }

  /** The conflict pairs an insertion of each document. */
  ghost predicate Captured(local: seq<InsertOp>, incoming: seq<InsertOp>, c: RgaConflict) {
    exists l :: l in local && PairedWith(l, incoming, c)
  }

  lemma CapturedPush(init: seq<InsertOp>, last: InsertOp, incoming: seq<InsertOp>, c: RgaConflict)
    ensures Captured(init + [last], incoming, c) <==> Captured(init, incoming, c) || PairedWith(last, incoming, c)
  {
    var all := init + [last];
    assert last in all && forall x :: x in init ==> x in all;
  }

  /** The conflicts are the pairs of insertions behind one predecessor, one from each document. */
  lemma {:induction false} AllPairsHold(local: seq<InsertOp>, incoming: seq<InsertOp>, c: RgaConflict)
    ensures c in AllPairs(local, incoming) <==> Captured(local, incoming, c)
  {
    if local != [] {
      var init, last := local[..|local| - 1], local[|local| - 1];
      AllPairsHold(init, incoming, c);
      PairsOfHolds(last, incoming, c);
      CapturedPush(init, last, incoming, c);
      assert local == init + [last];
    }
  }

  /** Two places, one in each of two lists. */
  datatype Spot = Spot(local: nat, incoming: nat)

  /** In the order in which the loop over the second list runs inside the loop over the first. */
  ghost predicate LoopOrder(at: seq<Spot>) {
    forall a, b :: 0 <= a < b < |at| ==>
        at[a].local < at[b].local || (at[a].local == at[b].local && at[a].incoming < at[b].incoming)
  }

  /** The conflicts are those of the insertions at the places. */
  ghost predicate PairsAt(local: seq<InsertOp>, incoming: seq<InsertOp>, at: seq<Spot>, out: seq<RgaConflict>) {
    |out| == |at| &&
    forall k :: 0 <= k < |at| ==>
      && at[k].local < |local| && at[k].incoming < |incoming|
      && out[k] == RgaConflict(local[at[k].local].element, incoming[at[k].incoming].element)
  }

  ghost predicate SamePredecessor(local: seq<InsertOp>, incoming: seq<InsertOp>, x: Spot) {
    && x.local < |local| && x.incoming < |incoming|
    && local[x.local].predecessor == incoming[x.incoming].predecessor
  }

  /** The places are exactly those whose insertions share a predecessor. */
  ghost predicate AllSpots(local: seq<InsertOp>, incoming: seq<InsertOp>, at: seq<Spot>) {
    forall x :: x in at <==> SamePredecessor(local, incoming, x)
  }

  /** The same for the last insertion of the first list alone. */
  ghost predicate RowSpots(local: seq<InsertOp>, incoming: seq<InsertOp>, at: seq<Spot>) {
    forall x :: x in at <==> x.local == |local| - 1 && SamePredecessor(local, incoming, x)
  }

  lemma SpotsPush(init: seq<InsertOp>, op: InsertOp, incoming: seq<InsertOp>, at: seq<Spot>, row: seq<Spot>)
    requires AllSpots(init, incoming, at) && RowSpots(init + [op], incoming, row)
    ensures AllSpots(init + [op], incoming, at + row)
  {
    forall x ensures x in at + row <==> SamePredecessor(init + [op], incoming, x) {
      assert x in at <==> SamePredecessor(init, incoming, x);
    }
  }

  lemma OrderPush(at: seq<Spot>, row: seq<Spot>, n: nat)
    requires LoopOrder(at) && LoopOrder(row)
    requires (forall x :: x in at ==> x.local < n) && forall x :: x in row ==> x.local == n
    ensures LoopOrder(at + row)
  {
    forall a, b | 0 <= a < |at| && 0 <= b < |row| ensures at[a].local < row[b].local {
      assert at[a] in at && row[b] in row;
    }
  }

  lemma PairsPush(init: seq<InsertOp>, op: InsertOp, incoming: seq<InsertOp>, at: seq<Spot>, out: seq<RgaConflict>,
                  row: seq<Spot>, more: seq<RgaConflict>)
    requires PairsAt(init, incoming, at, out) && PairsAt(init + [op], incoming, row, more)
    ensures PairsAt(init + [op], incoming, at + row, out + more)
  {
  }

  lemma {:induction false} RowOf(local: seq<InsertOp>, incoming: seq<InsertOp>) returns (row: seq<Spot>)
    requires local != []
    ensures LoopOrder(row) && RowSpots(local, incoming, row)
    ensures PairsAt(local, incoming, row, PairsOf(local[|local| - 1], incoming))
  {
    row := [];
    if incoming != [] {
      var op, init, last := local[|local| - 1], incoming[..|incoming| - 1], incoming[|incoming| - 1];
      var before := RowOf(local, init);
      assert incoming == init + [last];
      RowPush(local, init, last, before, PairsOf(op, init));
      row := if op.predecessor == last.predecessor then before + [Spot(|local| - 1, |init|)] else before;
    }
  }

  lemma RowPush(local: seq<InsertOp>, init: seq<InsertOp>, last: InsertOp, row: seq<Spot>, out: seq<RgaConflict>)
    requires local != [] && LoopOrder(row) && RowSpots(local, init, row) && PairsAt(local, init, row, out)
    ensures var op, spot := local[|local| - 1], Spot(|local| - 1, |init|);
      && (op.predecessor == last.predecessor ==>
            && LoopOrder(row + [spot]) && RowSpots(local, init + [last], row + [spot])
            && PairsAt(local, init + [last], row + [spot], out + [RgaConflict(op.element, last.element)]))
      && (op.predecessor != last.predecessor ==>
            RowSpots(local, init + [last], row) && PairsAt(local, init + [last], row, out))
  {
    RowSpotsPush(local, init, last, row);
    RowPairsPush(local, init, last, row, out);
    RowOrderPush(local, init, row);
  }

  lemma RowOrderPush(local: seq<InsertOp>, init: seq<InsertOp>, row: seq<Spot>)
    requires local != [] && LoopOrder(row) && RowSpots(local, init, row)
    ensures LoopOrder(row + [Spot(|local| - 1, |init|)])
  {
    forall k | 0 <= k < |row| ensures row[k].local == |local| - 1 && row[k].incoming < |init| {
      assert row[k] in row;
    }
  }

  lemma RowPairsPush(local: seq<InsertOp>, init: seq<InsertOp>, last: InsertOp, row: seq<Spot>, out: seq<RgaConflict>)
    requires local != [] && PairsAt(local, init, row, out)
    ensures var op, spot := local[|local| - 1], Spot(|local| - 1, |init|);
      && PairsAt(local, init + [last], row + [spot], out + [RgaConflict(op.element, last.element)])
      && PairsAt(local, init + [last], row, out)
  {
  }

  lemma RowSpotsPush(local: seq<InsertOp>, init: seq<InsertOp>, last: InsertOp, row: seq<Spot>)
    requires local != [] && RowSpots(local, init, row)
    ensures var op, spot := local[|local| - 1], Spot(|local| - 1, |init|);
      RowSpots(local, init + [last], if op.predecessor == last.predecessor then row + [spot] else row)
  {
    var op, spot := local[|local| - 1], Spot(|local| - 1, |init|);
    var longer := if op.predecessor == last.predecessor then row + [spot] else row;
    forall x ensures x in longer <==> x.local == |local| - 1 && SamePredecessor(local, init + [last], x) {
      assert x in row <==> x.local == |local| - 1 && SamePredecessor(local, init, x);
    }
  }

  /**
    The capture meets every pair of insertions behind one predecessor exactly once, local insertion by
    local insertion and, for each, in the order of the incoming ones.
   */
  lemma {:induction false} PairsInLoopOrder(local: seq<InsertOp>, incoming: seq<InsertOp>) returns (at: seq<Spot>)
    ensures LoopOrder(at) && AllSpots(local, incoming, at) && PairsAt(local, incoming, at, AllPairs(local, incoming))
  {
    at := [];
    if local != [] {
      var init, last := local[..|local| - 1], local[|local| - 1];
      assert local == init + [last];
      var before := PairsInLoopOrder(init, incoming);
      var row := RowOf(local, incoming);
      at := before + row;
      SpotsPush(init, last, incoming, before, row);
      OrderPush(before, row, |init|);
      PairsPush(init, last, incoming, before, AllPairs(init, incoming), row, PairsOf(last, incoming));
    }
  }

  /** An insertion both documents share is captured as a conflict of the element with itself. */
  lemma SharedInsertionsConflict(local: seq<InsertOp>, incoming: seq<InsertOp>, op: InsertOp)
    requires op in local && op in incoming
    ensures RgaConflict(op.element, op.element) in AllPairs(local, incoming)
  {
    AllPairsHold(local, incoming, RgaConflict(op.element, op.element));
    assert IsPair(op, op, RgaConflict(op.element, op.element));
    assert PairedWith(op, incoming, RgaConflict(op.element, op.element));
  }

  // ---------------------------------------------------------------------------
  // Scalars

  class Document {
    const actor: Bytes
    var ops: nat
    var root: map<Key, Cell>
    var lists: seq<seq<Item>>

    constructor (actor: Bytes, ops: nat, root: map<Key, Cell>, lists: seq<seq<Item>>)
      ensures this.actor == actor && this.ops == ops && this.root == root && this.lists == lists
    {
      this.actor, this.ops, this.root, this.lists := actor, ops, root, lists;
    }

    method Put(key: Key, value: Value, works: bool) returns (ok: bool)
      modifies this`root, this`ops
      ensures ok == works
      ensures root == if ok then old(root)[key := Cell(OpId(old(ops), actor), value)] else old(root)
      ensures ops == old(ops) + 1
    {
      if works {
        root := root[key := Cell(OpId(ops, actor), value)];
      }
      ops := ops + 1;
      return works;
    }

    /** Deletes an element; an index past the end is an error and changes nothing. */
    method Delete(list: nat, i: nat) returns (ok: bool)
      requires list < |lists|
      modifies this`lists
      ensures ok <==> i < |old(lists)[list]|
      ensures lists == old(lists)[list := if ok then old(lists)[list][..i] + old(lists)[list][i + 1..]
                                  else old(lists)[list]]
    {
      ok := i < |lists[list]|;
      if ok {
        lists := lists[list := lists[list][..i] + lists[list][i + 1..]];
      }
    }

    method Insert(list: nat, i: nat, value: Value) returns (ok: bool)
      requires list < |lists|
      modifies this`lists, this`ops
      ensures ok <==> i <= |old(lists)[list]|
      ensures lists == old(lists)[list := if ok then Inserted(old(lists)[list], i, Item(OpId(old(ops), actor), value))
                                  else old(lists)[list]]
      ensures ops == old(ops) + 1
    {
      ok := i <= |lists[list]|;
      if ok {
        lists := lists[list := Inserted(lists[list], i, Item(OpId(ops, actor), value))];
      }
      ops := ops + 1;
    }
  }

  function Inserted(items: seq<Item>, i: nat, item: Item): seq<Item>
    requires i <= |items|
  {
    items[..i] + [item] + items[i..]
  }

  /** The local write won although the incoming one must: the case that is overridden. */
  predicate Diverges(root: map<Key, Cell>, c: LwwConflict) {
    c.key in root && root[c.key].id == c.local.id && c.local.id != c.incoming.id
  }

  /** What a scalar cell holds after the pass, as far as values go. */
  ghost predicate ScalarAfter(before: map<Key, Cell>, after: map<Key, Cell>, c: LwwConflict, definitive: bool,
                              works: Key -> bool)
  {
    if definitive && Diverges(before, c) && works(c.key) then c.key in after && after[c.key].value == c.incoming.value
    else Untouched(before, after, c.key)
  }

  ghost predicate Untouched(before: map<Key, Cell>, after: map<Key, Cell>, k: Key) {
    (k in after <==> k in before) && (k in after ==> after[k] == before[k])
  }

  function KeysOf(conflicts: seq<LwwConflict>): set<Key> {
    set c | c in conflicts :: c.key
  }

  const NOTHING := Report(0, 0, 0, 0, 0, 0)

  /** The report with one more conflict looked at: a key that is gone is passed over. */
  function Counted(r: Report, root: map<Key, Cell>, c: LwwConflict, definitive: bool, works: bool): Report {
    if c.key !in root then r
    else
      var checked := r.(lwwChecked := r.lwwChecked + 1);
      if definitive && root[c.key].id == c.incoming.id then checked
      else if !definitive || !Diverges(root, c) then checked.(indeterminate := r.indeterminate + 1)
      else if works then checked.(divergences := r.divergences + 1, applied := r.applied + 1)
      else checked.(divergences := r.divergences + 1, failed := r.failed + 1)
  }

  /** What the scalar pass reports, conflict by conflict, over the document as merged. */
  function ScalarReport(before: map<Key, Cell>, conflicts: seq<LwwConflict>, definitive: bool,
                        works: Key -> bool): Report
  {
    if conflicts == [] then NOTHING
    else
      var c := conflicts[|conflicts| - 1];
      Counted(ScalarReport(before, conflicts[..|conflicts| - 1], definitive, works), before, c, definitive,
              works(c.key))
  }

  function Divergent(before: map<Key, Cell>, conflicts: seq<LwwConflict>, definitive: bool): set<Key> {
    set c | c in conflicts && definitive && Diverges(before, c) :: c.key
  }

  lemma DivergentPush(before: map<Key, Cell>, init: seq<LwwConflict>, c: LwwConflict, definitive: bool)
    ensures Divergent(before, init + [c], definitive) ==
            Divergent(before, init, definitive) + if definitive && Diverges(before, c) then {c.key} else {}
  {
    var all := init + [c];
    assert c in all;
    assert forall x :: x in init ==> x in all;
    assert forall x :: x in all ==> x in init || x == c;
  }

  function Working(keys: set<Key>, works: Key -> bool): set<Key> {
    set k | k in keys && works(k)
  }

  lemma WorkingPush(keys: set<Key>, key: Key, works: Key -> bool)
    requires key !in keys
    ensures |Working(keys + {key}, works)| == |Working(keys, works)| + if works(key) then 1 else 0
  {
    assert Working(keys + {key}, works) == Working(keys, works) + if works(key) then {key} else {};
  }

  lemma ScalarReportPush(before: map<Key, Cell>, init: seq<LwwConflict>, c: LwwConflict, definitive: bool,
                         works: Key -> bool)
    ensures var r, r' := ScalarReport(before, init, definitive, works),
            ScalarReport(before, init + [c], definitive, works);
      if definitive && Diverges(before, c) then
        && r'.divergences == r.divergences + 1
        && r'.applied == r.applied + (if works(c.key) then 1 else 0)
        && r'.failed == r.failed + (if works(c.key) then 0 else 1)
      else r'.divergences == r.divergences && r'.applied == r.applied && r'.failed == r.failed
  {
    assert (init + [c])[..|init|] == init;
  }

  /** Divergences are the keys where the local write won, and each is either overridden or failed. */
  lemma {:induction false} DivergencesAreOverrides(before: map<Key, Cell>, conflicts: seq<LwwConflict>,
                                                   definitive: bool, works: Key -> bool)
    requires forall i, j :: 0 <= i < j < |conflicts| ==> conflicts[i].key != conflicts[j].key
    ensures var r, keys := ScalarReport(before, conflicts, definitive, works), Divergent(before, conflicts, definitive);
      && r.divergences == r.applied + r.failed == |keys|
      && r.applied == |Working(keys, works)|
  {
    if conflicts != [] {
      var init, c := conflicts[..|conflicts| - 1], conflicts[|conflicts| - 1];
      DivergencesAreOverrides(before, init, definitive, works);
      DivergentPush(before, init, c, definitive);
      ScalarReportPush(before, init, c, definitive, works);
      assert conflicts == init + [c];
      WorkingPush(Divergent(before, init, definitive), c.key, works);
    }
  }

  /**
    What one conflict adds to the report, by whose write the merged cell holds: nothing for a key that is
    gone; a divergence for the local write in the definitive zone; a plain check for the incoming write
    there; and an indeterminate check for a third writer's cell, and for every cell outside that zone.
   */
  lemma ScalarTable(before: map<Key, Cell>, c: LwwConflict, definitive: bool, works: Key -> bool)
    ensures var r := ScalarReport(before, [c], definitive, works);
      && r.lwwChecked == (if c.key in before then 1 else 0)
      && (r.indeterminate == 1 <==>
            && c.key in before
            && (!definitive || (before[c.key].id != c.incoming.id && before[c.key].id != c.local.id)))
      && (r.divergences == 1 <==>
            && c.key in before && definitive
            && before[c.key].id == c.local.id && before[c.key].id != c.incoming.id)
      && (r.applied == 1 <==> r.divergences == 1 && works(c.key))
      && (r.failed == 1 <==> r.divergences == 1 && !works(c.key))
      && r.indeterminate <= 1 && r.divergences <= 1 && r.applied <= 1 && r.failed <= 1
  {
    assert [c][..0] == [];
  }

  /** The report of a pass is the sum of what its conflicts add. */
  lemma ScalarReportAdds(before: map<Key, Cell>, init: seq<LwwConflict>, c: LwwConflict, definitive: bool,
                         works: Key -> bool)
    ensures var a, b := ScalarReport(before, init, definitive, works), ScalarReport(before, [c], definitive, works);
      var sum := ScalarReport(before, init + [c], definitive, works);
      && sum.lwwChecked == a.lwwChecked + b.lwwChecked && sum.indeterminate == a.indeterminate + b.indeterminate
      && sum.divergences == a.divergences + b.divergences && sum.applied == a.applied + b.applied
      && sum.failed == a.failed + b.failed
  {
    assert (init + [c])[..|init|] == init && [c][..0] == [];
  }

  /**
    The cell after the pass: the incoming value where the local write stood in the definitive zone and the
    write back works; in every other case, a third writer's cell included, the cell as it was.
   */
  lemma CellAfter(before: map<Key, Cell>, after: map<Key, Cell>, c: LwwConflict, definitive: bool, works: Key -> bool)
    requires ScalarAfter(before, after, c, definitive, works)
    ensures var overridden := && definitive && c.key in before && before[c.key].id == c.local.id
                              && before[c.key].id != c.incoming.id && works(c.key);
      && (overridden ==> c.key in after && after[c.key].value == c.incoming.value)
      && (!overridden ==> (c.key in after <==> c.key in before) &&
                          (c.key in before && c.key in after ==> after[c.key] == before[c.key]))
  {
  }

  /** One conflict: override it if the local write won in the definitive zone, and count what was done. */
  method OverrideScalar(doc: Document, c: LwwConflict, definitive: bool, works: bool, soFar: Report)
    returns (report: Report)
    modifies doc`root, doc`ops
    ensures report == Counted(soFar, old(doc.root), c, definitive, works)
    ensures ScalarAfter(old(doc.root), doc.root, c, definitive, _ => works)
    ensures forall k :: k != c.key ==> Untouched(old(doc.root), doc.root, k)
  {
    report := soFar;
    if c.key !in doc.root {
      return;
    }
    var actual := doc.root[c.key].id;
    report := report.(lwwChecked := report.lwwChecked + 1);
    if !definitive {
      report := report.(indeterminate := report.indeterminate + 1);
      return;
    }
    if actual == c.incoming.id {
      return;
    }
    if actual != c.local.id {
      report := report.(indeterminate := report.indeterminate + 1);
      return;
    }
    report := report.(divergences := report.divergences + 1);
    var ok := doc.Put(c.key, c.incoming.value, works);
    report := if ok then report.(applied := report.applied + 1) else report.(failed := report.failed + 1);
  }

  /** The scalar pass: overrides exactly the divergent keys, and only in the definitive zone. */
  method OverrideScalars(doc: Document, conflicts: seq<LwwConflict>, definitive: bool, works: Key -> bool)
    returns (report: Report)
    requires forall i, j :: 0 <= i < j < |conflicts| ==> conflicts[i].key != conflicts[j].key
    modifies doc`root, doc`ops
    ensures forall c :: c in conflicts ==> ScalarAfter(old(doc.root), doc.root, c, definitive, works)
    ensures forall k :: k !in KeysOf(conflicts) ==> Untouched(old(doc.root), doc.root, k)
    ensures report == ScalarReport(old(doc.root), conflicts, definitive, works)
  {
    report := NOTHING;
    for i := 0 to |conflicts|
      invariant forall k :: 0 <= k < i ==> ScalarAfter(old(doc.root), doc.root, conflicts[k], definitive, works)
      invariant forall k :: k !in KeysOf(conflicts[..i]) ==> Untouched(old(doc.root), doc.root, k)
      invariant report == ScalarReport(old(doc.root), conflicts[..i], definitive, works)
    {
      var c := conflicts[i];
      ghost var root := doc.root;
      assert conflicts[..i + 1][..i] == conflicts[..i];
      assert Untouched(old(doc.root), root, c.key);
      ReportOneMore(old(doc.root), conflicts, i, definitive, works);
      report := OverrideScalar(doc, c, definitive, works(c.key), report);
      assert report == Counted(ScalarReport(old(doc.root), conflicts[..i], definitive, works), root, c, definitive,
                               works(c.key));
      SameCount(ScalarReport(old(doc.root), conflicts[..i], definitive, works), old(doc.root), root, c, definitive,
                works(c.key));
      AfterOneMore(old(doc.root), root, doc.root, conflicts, i, definitive, works);
    }
    assert conflicts[..|conflicts|] == conflicts;
  }

  lemma ReportOneMore(before: map<Key, Cell>, conflicts: seq<LwwConflict>, i: nat, definitive: bool, works: Key -> bool)
    requires i < |conflicts|
    ensures ScalarReport(before, conflicts[..i + 1], definitive, works) ==
            Counted(ScalarReport(before, conflicts[..i], definitive, works), before, conflicts[i], definitive,
                    works(conflicts[i].key))
  {
    assert conflicts[..i + 1][..i] == conflicts[..i];
  }

  /** A cell that was not touched counts as it did before. */
  lemma SameCount(r: Report, before: map<Key, Cell>, root: map<Key, Cell>, c: LwwConflict, definitive: bool,
                  works: bool)
    requires Untouched(before, root, c.key)
    ensures Counted(r, root, c, definitive, works) == Counted(r, before, c, definitive, works)
  {
  }

  lemma AfterOneMore(before: map<Key, Cell>, mid: map<Key, Cell>, after: map<Key, Cell>, conflicts: seq<LwwConflict>,
                     i: nat,
                     definitive: bool, works: Key -> bool)
    requires i < |conflicts| && forall k, l :: 0 <= k < l < |conflicts| ==> conflicts[k].key != conflicts[l].key
    requires forall k :: 0 <= k < i ==> ScalarAfter(before, mid, conflicts[k], definitive, works)
    requires forall k :: k !in KeysOf(conflicts[..i]) ==> Untouched(before, mid, k)
    requires ScalarAfter(mid, after, conflicts[i], definitive, _ => works(conflicts[i].key))
    requires forall k :: k != conflicts[i].key ==> Untouched(mid, after, k)
    ensures forall k :: 0 <= k <= i ==> ScalarAfter(before, after, conflicts[k], definitive, works)
    ensures forall k :: k !in KeysOf(conflicts[..i + 1]) ==> Untouched(before, after, k)
  {
    forall k | 0 <= k < i ensures ScalarAfter(before, after, conflicts[k], definitive, works) {
      AfterStays(before, mid, after, conflicts[k], definitive, works);
    }
    AfterNow(before, mid, after, conflicts[i], definitive, works);
    forall k | k !in KeysOf(conflicts[..i + 1]) ensures Untouched(before, after, k) {
      assert Untouched(before, mid, k) && Untouched(mid, after, k);
    }
  }

  lemma AfterNow(before: map<Key, Cell>, mid: map<Key, Cell>, after: map<Key, Cell>, c: LwwConflict, definitive: bool,
                 works: Key -> bool)
    requires Untouched(before, mid, c.key) && ScalarAfter(mid, after, c, definitive, _ => works(c.key))
    ensures ScalarAfter(before, after, c, definitive, works)
  {
  }

  lemma AfterStays(before: map<Key, Cell>, mid: map<Key, Cell>, after: map<Key, Cell>, c: LwwConflict,
                   definitive: bool, works: Key -> bool)
    requires ScalarAfter(before, mid, c, definitive, works) && Untouched(mid, after, c.key)
    ensures ScalarAfter(before, after, c, definitive, works)
  {
  }

  /** The merged cell is one of the two writes in conflict. */
  predicate Attributable(root: map<Key, Cell>, c: LwwConflict) {
    c.local.id != c.incoming.id && c.key in root && (root[c.key] == c.incoming || root[c.key] == c.local)
  }

  /** In the definitive zone every attributable conflict ends holding the incoming value. */
  lemma AttributableEndsIncoming(before: map<Key, Cell>, after: map<Key, Cell>, c: LwwConflict, works: Key -> bool)
    requires ScalarAfter(before, after, c, true, works) && works(c.key) && Attributable(before, c)
    ensures c.key in after && after[c.key].value == c.incoming.value
  {
  }

  // ---------------------------------------------------------------------------
  // Lists

  /** Where an element stands in a list; the last place if it were listed twice. */
  function PositionOf(items: seq<Item>, id: OpId): (r: Option<nat>)
    ensures r.Some? ==> r.value < |items| && items[r.value].id == id
    ensures r.Some? ==> forall i :: r.value < i < |items| ==> items[i].id != id
    ensures r.None? ==> forall i :: 0 <= i < |items| ==> items[i].id != id
  {
    if items == [] then None
    else if items[|items| - 1].id == id then Some(|items| - 1)
    else PositionOf(items[..|items| - 1], id)
  }

  /** The places of a conflicting pair in the first list that holds both elements. */
  datatype Place = Place(list: nat, local: nat, incoming: nat)

  function PlaceOf(lists: seq<seq<Item>>, c: RgaConflict): (r: Option<Place>)
    ensures r.Some? ==>
            r.value.list < |lists| && r.value.local < |lists[r.value.list]| && r.value.incoming < |lists[r.value.list]|
  {
    PlaceFrom(lists, c, 0)
  }

  function PlaceFrom(lists: seq<seq<Item>>, c: RgaConflict, from: nat): (r: Option<Place>)
    requires from <= |lists|
    ensures r.Some? ==>
            r.value.list < |lists| && r.value.local < |lists[r.value.list]| && r.value.incoming < |lists[r.value.list]|
    decreases |lists| - from
  {
    if from == |lists| then None
    else
      var l, i := PositionOf(lists[from], c.local.id), PositionOf(lists[from], c.incoming.id);
      if l.Some? && i.Some? then Some(Place(from, l.value, i.value)) else PlaceFrom(lists, c, from + 1)
  }

  predicate HoldsElement(items: seq<Item>, id: OpId) {
    exists i :: 0 <= i < |items| && items[i].id == id
  }

  predicate HoldsBoth(items: seq<Item>, c: RgaConflict) {
    HoldsElement(items, c.local.id) && HoldsElement(items, c.incoming.id)
  }

  /** The place of a pair is in the first list that holds both elements, and there is none when no list does. */
  lemma PlaceIsFirst(lists: seq<seq<Item>>, c: RgaConflict)
    ensures PlaceOf(lists, c).None? ==> forall l :: 0 <= l < |lists| ==> !HoldsBoth(lists[l], c)
    ensures PlaceOf(lists, c).Some? ==>
      var p := PlaceOf(lists, c).value;
      && (forall l :: 0 <= l < p.list ==> !HoldsBoth(lists[l], c))
      && lists[p.list][p.local].id == c.local.id && lists[p.list][p.incoming].id == c.incoming.id
  {
    PlaceFromIsFirst(lists, c, 0);
  }

  lemma {:induction false} PlaceFromIsFirst(lists: seq<seq<Item>>, c: RgaConflict, from: nat)
    requires from <= |lists| && forall l :: 0 <= l < from ==> !HoldsBoth(lists[l], c)
    ensures PlaceFrom(lists, c, from).None? ==> forall l :: 0 <= l < |lists| ==> !HoldsBoth(lists[l], c)
    ensures PlaceFrom(lists, c, from).Some? ==>
      var p := PlaceFrom(lists, c, from).value;
      && (forall l :: 0 <= l < p.list ==> !HoldsBoth(lists[l], c))
      && lists[p.list][p.local].id == c.local.id && lists[p.list][p.incoming].id == c.incoming.id
    decreases |lists| - from
  {
    if from < |lists| {
      var l, i := PositionOf(lists[from], c.local.id), PositionOf(lists[from], c.incoming.id);
      if l.None? || i.None? {
        PlaceFromIsFirst(lists, c, from + 1);
      }
    }
  }

  function Values(items: seq<Item>): (r: seq<Value>)
    ensures |r| == |items| && forall i :: 0 <= i < |items| ==> r[i] == items[i].value
  {
    seq(|items|, i requires 0 <= i < |items| => items[i].value)
  }

  function Without(items: seq<Value>, i: nat): seq<Value>
    requires i < |items|
  {
    items[..i] + items[i + 1..]
  }

  /**
    The four list edits of one override, stopping at the first that fails: delete the higher index,
    delete the lower, insert the incoming value, insert the local one behind it.
   */
  function Reordered(items: seq<Value>, lo: nat, hi: nat, incoming: Value, local: Value): (seq<Value>, bool) {
    if hi >= |items| then (items, false)
    else
      var one := Without(items, hi);
      if lo >= |one| then (one, false)
      else
        var two := Without(one, lo);
        (two[..lo] + [incoming, local] + two[lo..], true)
  }

  lemma ValuesOfWithout(items: seq<Item>, i: nat)
    requires i < |items|
    ensures Values(items[..i] + items[i + 1..]) == Without(Values(items), i)
  {
  }

  lemma ValuesOfInserted(items: seq<Item>, i: nat, a: Item, b: Item)
    requires i <= |items|
    ensures Values(Inserted(Inserted(items, i, a), i + 1, b)) ==
            Values(items)[..i] + [a.value, b.value] + Values(items)[i..]
  {
  }

  /** Inserts the incoming value and the local one behind it. */
  method InsertPair(doc: Document, list: nat, lo: nat, incoming: Value, local: Value) returns (ok: bool)
    requires list < |doc.lists| && lo <= |doc.lists[list]|
    modifies doc`lists, doc`ops
    ensures ok && |doc.lists| == |old(doc.lists)|
    ensures doc.lists == old(doc.lists)[list := doc.lists[list]]
    ensures var was := Values(old(doc.lists)[list]);
      Values(doc.lists[list]) == was[..lo] + [incoming, local] + was[lo..]
  {
    ghost var items := doc.lists[list];
    ghost var a, b := Item(OpId(doc.ops, doc.actor), incoming), Item(OpId(doc.ops + 1, doc.actor), local);
    ok := doc.Insert(list, lo, incoming);
    assert doc.lists[list] == Inserted(items, lo, a);
    ok := doc.Insert(list, lo + 1, local);
    assert doc.lists[list] == Inserted(Inserted(items, lo, a), lo + 1, b);
    ValuesOfInserted(items, lo, a, b);
  }

  method OverrideList(doc: Document, list: nat, lo: nat, hi: nat, incoming: Value, local: Value) returns (ok: bool)
    requires list < |doc.lists|
    modifies doc`lists, doc`ops
    ensures |doc.lists| == |old(doc.lists)|
    ensures doc.lists == old(doc.lists)[list := doc.lists[list]]
    ensures (Values(doc.lists[list]), ok) == Reordered(Values(old(doc.lists)[list]), lo, hi, incoming, local)
  {
    ghost var items := doc.lists[list];
    ok := doc.Delete(list, hi);
    if !ok {
      return;
    }
    ValuesOfWithout(items, hi);
    ghost var one := doc.lists[list];
    assert Values(one) == Without(Values(items), hi);
    ok := doc.Delete(list, lo);
    if !ok {
      return;
    }
    ValuesOfWithout(one, lo);
    assert Values(doc.lists[list]) == Without(Without(Values(items), hi), lo);
    ok := InsertPair(doc, list, lo, incoming, local);
  }

  /** One override of two distinct places: incoming directly before local at the lower place, the rest in order. */
  lemma ReorderedPair(items: seq<Value>, lo: nat, hi: nat, incoming: Value, local: Value)
    requires lo < hi < |items|
    ensures var (after, ok) := Reordered(items, lo, hi, incoming, local);
      && ok && |after| == |items|
      && after[lo] == incoming && after[lo + 1] == local
      && Without(Without(after, lo + 1), lo) == Without(Without(items, hi), lo)
  {
    PutBack(Without(Without(items, hi), lo), lo, incoming, local);
  }

  lemma PutBack(rest: seq<Value>, lo: nat, a: Value, b: Value)
    requires lo <= |rest|
    ensures var after := rest[..lo] + [a, b] + rest[lo..];
      after[lo] == a && after[lo + 1] == b && Without(Without(after, lo + 1), lo) == rest
  {
    var after := rest[..lo] + [a, b] + rest[lo..];
    var one := rest[..lo] + [a] + rest[lo..];
    assert Without(after, lo + 1) == one;
    assert Without(one, lo) == rest[..lo] + rest[lo..] == rest;
  }

  /** The values an override takes out. */
  function Taken(items: seq<Value>, lo: nat, hi: nat): multiset<Value>
    requires lo <= hi < |items|
  {
    if lo < hi then multiset{items[lo], items[hi]}
    else if lo + 1 < |items| then multiset{items[lo], items[lo + 1]}
    else multiset{items[lo]}
  }

  lemma WithoutMultiset(items: seq<Value>, i: nat)
    requires i < |items|
    ensures multiset(items) == multiset(Without(items, i)) + multiset{items[i]}
  {
    assert items == items[..i] + [items[i]] + items[i + 1..];
  }

  /**
    An override keeps the values of the list exactly when what it takes out is what it puts in.
    With stale places, or with an element in conflict with itself, that can fail.
   */
  lemma KeepsValuesIff(items: seq<Value>, lo: nat, hi: nat, incoming: Value, local: Value)
    requires lo <= hi < |items|
    ensures multiset(Reordered(items, lo, hi, incoming, local).0) == multiset(items) <==>
            Taken(items, lo, hi) == multiset{incoming, local}
  {
    WithoutMultiset(items, hi);
    if lo < |items| - 1 {
      KeepsValuesWithRoom(items, lo, hi, incoming, local);
    } else {
      assert |multiset(items)| == |multiset(Without(items, hi))| + 1;
      assert |Taken(items, lo, hi)| == 1 && |multiset{incoming, local}| == 2;
    }
  }

  lemma KeepsValuesWithRoom(items: seq<Value>, lo: nat, hi: nat, incoming: Value, local: Value)
    requires lo <= hi < |items| && lo < |items| - 1
    ensures multiset(Reordered(items, lo, hi, incoming, local).0) == multiset(items) <==>
            Taken(items, lo, hi) == multiset{incoming, local}
  {
    var one := Without(items, hi);
    var two := Without(one, lo);
    var after := Reordered(items, lo, hi, incoming, local).0;
    TakenAccounts(items, lo, hi);
    InsertedMultiset(two, lo, incoming, local);
    assert after == two[..lo] + [incoming, local] + two[lo..];
    SameRest(multiset(two), Taken(items, lo, hi), multiset{incoming, local});
  }

  lemma TakenAccounts(items: seq<Value>, lo: nat, hi: nat)
    requires lo <= hi < |items| && lo < |items| - 1
    ensures multiset(items) == multiset(Without(Without(items, hi), lo)) + Taken(items, lo, hi)
  {
    var one := Without(items, hi);
    WithoutMultiset(items, hi);
    WithoutMultiset(one, lo);
    assert Taken(items, lo, hi) == multiset{items[hi]} + multiset{one[lo]};
  }

  lemma InsertedMultiset(items: seq<Value>, i: nat, a: Value, b: Value)
    requires i <= |items|
    ensures multiset(items[..i] + [a, b] + items[i..]) == multiset(items) + multiset{a, b}
  {
    assert items == items[..i] + items[i..];
  }

  lemma SameRest(rest: multiset<Value>, a: multiset<Value>, b: multiset<Value>)
    ensures rest + a == rest + b <==> a == b
  {
    if rest + a == rest + b {
      assert a == (rest + a) - rest && b == (rest + b) - rest;
    }
  }

  /** The list pass as a function of the values: places are looked up once, in the lists as merged. */
  function ListPass(merged: seq<seq<Item>>, conflicts: seq<RgaConflict>, definitive: bool): (r: seq<seq<Value>>)
    ensures |r| == |merged|
  {
    if conflicts == [] then AllValues(merged)
    else
      var before, c := ListPass(merged, conflicts[..|conflicts| - 1], definitive), conflicts[|conflicts| - 1];
      var place := PlaceOf(merged, c);
      if !definitive || place.None? || place.value.incoming < place.value.local then before
      else
        var p := place.value;
        before[p.list := Reordered(before[p.list], p.local, p.incoming, c.incoming.value, c.local.value).0]
  }

  function AllValues(lists: seq<seq<Item>>): (r: seq<seq<Value>>)
    ensures |r| == |lists| && forall i :: 0 <= i < |lists| ==> r[i] == Values(lists[i])
  {
    seq(|lists|, i requires 0 <= i < |lists| => Values(lists[i]))
  }

  /** What the list pass reports: an override that fails half-way is counted as failed. */
  function ListReport(merged: seq<seq<Item>>, conflicts: seq<RgaConflict>, definitive: bool): (r: Report)
    ensures r.divergences == r.applied + r.failed && (!definitive ==> r.divergences == 0)
  {
    if conflicts == [] then NOTHING
    else
      var init, c := conflicts[..|conflicts| - 1], conflicts[|conflicts| - 1];
      var r, place := ListReport(merged, init, definitive), PlaceOf(merged, c);
      if place.None? then r
      else
        var p, checked := place.value, r.(rgaChecked := r.rgaChecked + 1);
        if !definitive then checked.(indeterminate := r.indeterminate + 1)
        else if p.incoming < p.local then checked
        else if Reordered(ListPass(merged, init, definitive)[p.list], p.local, p.incoming, c.incoming.value,
                          c.local.value).1 then
          checked.(divergences := r.divergences + 1, applied := r.applied + 1)
        else checked.(divergences := r.divergences + 1, failed := r.failed + 1)
  }

  /**
    What one more conflict adds to the list report: nothing when no list holds both elements; outside the
    definitive zone an indeterminate check; a plain check when the incoming element comes first; else a
    divergence, applied when both places are still in the list and failed when they are not.
   */
  lemma ListReportAdds(merged: seq<seq<Item>>, init: seq<RgaConflict>, c: RgaConflict, definitive: bool)
    ensures var r, r' := ListReport(merged, init, definitive), ListReport(merged, init + [c], definitive);
      var place := PlaceOf(merged, c);
      && (place.None? ==> r' == r)
      && (place.Some? && !definitive ==>
            r' == r.(rgaChecked := r.rgaChecked + 1, indeterminate := r.indeterminate + 1))
      && (place.Some? && definitive && place.value.incoming < place.value.local ==>
            r' == r.(rgaChecked := r.rgaChecked + 1))
      && (place.Some? && definitive && place.value.local <= place.value.incoming ==>
            var now, p := ListPass(merged, init, definitive)[place.value.list], place.value;
            var fits := p.incoming < |now| && p.local < |now| - 1;
            r' == r.(rgaChecked := r.rgaChecked + 1, divergences := r.divergences + 1,
                     applied := r.applied + (if fits then 1 else 0), failed := r.failed + if fits then 0 else 1))
  {
    assert (init + [c])[..|init|] == init;
  }

  method OverrideLists(doc: Document, conflicts: seq<RgaConflict>, definitive: bool) returns (report: Report)
    modifies doc`lists, doc`ops
    ensures AllValues(doc.lists) == ListPass(old(doc.lists), conflicts, definitive)
    ensures report == ListReport(old(doc.lists), conflicts, definitive)
  {
    report := NOTHING;
    var merged := doc.lists;
    for i := 0 to |conflicts|
      invariant AllValues(doc.lists) == ListPass(merged, conflicts[..i], definitive)
      invariant report == ListReport(merged, conflicts[..i], definitive)
    {
      assert conflicts[..i + 1][..i] == conflicts[..i];
      var c := conflicts[i];
      var found := PlaceOf(merged, c);
      if found.None? {
        continue;
      }
      var p := found.value;
      report := report.(rgaChecked := report.rgaChecked + 1);
      if !definitive {
        report := report.(indeterminate := report.indeterminate + 1);
        continue;
      }
      if p.incoming < p.local {
        continue;
      }
      report := report.(divergences := report.divergences + 1);
      var lo, hi := p.local, p.incoming;
      ghost var was := doc.lists;
      var ok := OverrideList(doc, p.list, lo, hi, c.incoming.value, c.local.value);
      assert AllValues(doc.lists) == AllValues(was)[p.list := Values(doc.lists[p.list])];
      report := if ok then report.(applied := report.applied + 1) else report.(failed := report.failed + 1);
    }
    assert conflicts[..|conflicts|] == conflicts;
  }

  /** A single conflict of two distinct elements: order corrected, nothing lost, everything else in place. */
  lemma SingleOverrideCorrects(merged: seq<seq<Item>>, c: RgaConflict)
    requires PlaceOf(merged, c).Some? && PlaceOf(merged, c).value.local < PlaceOf(merged, c).value.incoming
    requires var p := PlaceOf(merged, c).value;
      merged[p.list][p.local].value == c.local.value && merged[p.list][p.incoming].value == c.incoming.value
    ensures var p := PlaceOf(merged, c).value;
      var before, after := Values(merged[p.list]), ListPass(merged, [c], true)[p.list];
      && multiset(after) == multiset(before)
      && |after| == |before| && after[p.local] == c.incoming.value && after[p.local + 1] == c.local.value
      && Without(Without(after, p.local + 1), p.local) == Without(Without(before, p.incoming), p.local)
      && forall k :: 0 <= k < |merged| && k != p.list ==> ListPass(merged, [c], true)[k] == Values(merged[k])
  {
    var p := PlaceOf(merged, c).value;
    PassOfOne(merged, c);
    PairCorrected(Values(merged[p.list]), p.local, p.incoming, c.incoming.value, c.local.value);
  }

  /** An override whose two values stand at its places. */
  lemma PairCorrected(items: seq<Value>, lo: nat, hi: nat, incoming: Value, local: Value)
    requires lo < hi < |items| && items[lo] == local && items[hi] == incoming
    ensures var after := Reordered(items, lo, hi, incoming, local).0;
      && multiset(after) == multiset(items)
      && |after| == |items| && after[lo] == incoming && after[lo + 1] == local
      && Without(Without(after, lo + 1), lo) == Without(Without(items, hi), lo)
  {
    ReorderedPair(items, lo, hi, incoming, local);
    KeepsValuesIff(items, lo, hi, incoming, local);
  }

  lemma PassOfOne(merged: seq<seq<Item>>, c: RgaConflict)
    requires PlaceOf(merged, c).Some? && PlaceOf(merged, c).value.local <= PlaceOf(merged, c).value.incoming
    ensures var p := PlaceOf(merged, c).value;
      && ListPass(merged, [c], true)[p.list] ==
         Reordered(Values(merged[p.list]), p.local, p.incoming, c.incoming.value, c.local.value).0
      && forall k :: 0 <= k < |merged| && k != p.list ==> ListPass(merged, [c], true)[k] == Values(merged[k])
  {
    PassNothing(merged);
    PassPush(merged, [], c);
    assert [] + [c] == [c];
  }

  /**
    An element both sides share is in conflict with itself, and its override keeps the list's values
    exactly when the element is followed by an equal value; otherwise the neighbour is lost.
   */
  lemma SharedElementOverride(merged: seq<seq<Item>>, shared: Item)
    requires PlaceOf(merged, RgaConflict(shared, shared)).Some?
    requires var p := PlaceOf(merged, RgaConflict(shared, shared)).value; merged[p.list][p.local].value == shared.value
    ensures var p := PlaceOf(merged, RgaConflict(shared, shared)).value;
      var before, after := Values(merged[p.list]), ListPass(merged, [RgaConflict(shared, shared)], true)[p.list];
      multiset(after) == multiset(before) <==> p.local + 1 < |before| && before[p.local + 1] == shared.value
  {
    var c := RgaConflict(shared, shared);
    var p := PlaceOf(merged, c).value;
    SamePlace(merged, shared, 0);
    PassOfOne(merged, c);
    var items := Values(merged[p.list]);
    KeepsValuesIff(items, p.local, p.local, shared.value, shared.value);
    if p.local + 1 < |items| {
      PairsEqual(items[p.local], items[p.local + 1], shared.value);
    } else {
      assert |Taken(items, p.local, p.local)| == 1 && |multiset{shared.value, shared.value}| == 2;
    }
  }

  lemma PairsEqual(a: Value, b: Value, v: Value)
    requires a == v
    ensures multiset{a, b} == multiset{v, v} <==> b == v
  {
    if b != v {
      assert multiset{a, b}[v] == 1 && multiset{v, v}[v] == 2;
    }
  }

  lemma SamePlace(lists: seq<seq<Item>>, shared: Item, from: nat)
    requires from <= |lists|
    ensures var r := PlaceFrom(lists, RgaConflict(shared, shared), from);
      r.Some? ==> r.value.local == r.value.incoming
    decreases |lists| - from
  {
    if from < |lists| {
      SamePlace(lists, shared, from + 1);
    }
  }

  // ---------------------------------------------------------------------------
  // Passes with more than one conflict

  /** The list with the value at `hi` moved up to `lo`. */
  function Rotated(items: seq<Value>, lo: nat, hi: nat): seq<Value>
    requires lo < hi < |items|
  {
    items[..lo] + [items[hi]] + items[lo..hi] + items[hi + 1..]
  }

  /** The value at place `k` once the value at `hi` has moved up to `lo`. */
  function Moved(items: seq<Value>, lo: nat, hi: nat, k: nat): Value
    requires lo < hi < |items| && k < |items|
  {
    if k == lo then items[hi] else if lo < k <= hi then items[k - 1] else items[k]
  }

  lemma RotatedAt(items: seq<Value>, lo: nat, hi: nat)
    requires lo < hi < |items|
    ensures |Rotated(items, lo, hi)| == |items|
    ensures forall k :: 0 <= k < |items| ==> Rotated(items, lo, hi)[k] == Moved(items, lo, hi, k)
    ensures multiset(Rotated(items, lo, hi)) == multiset(items)
  {
    assert items == items[..lo] + items[lo..hi] + [items[hi]] + items[hi + 1..];
  }

  /** An override whose two values stand at its places moves the incoming one up, and nothing else. */
  lemma CorrectOverrideRotates(items: seq<Value>, lo: nat, hi: nat, incoming: Value, local: Value)
    requires lo < hi < |items| && items[lo] == local && items[hi] == incoming
    ensures Reordered(items, lo, hi, incoming, local) == (Rotated(items, lo, hi), true)
  {
    var one := Without(items, hi);
    var two := Without(one, lo);
    assert two[..lo] == items[..lo];
    RestAfterTwo(items, lo, hi);
    assert [incoming, local] + (items[lo + 1..hi] + items[hi + 1..]) == [items[hi]] + items[lo..hi] + items[hi + 1..];
    assert Reordered(items, lo, hi, incoming, local).0 == items[..lo] + ([incoming, local] + two[lo..]);
    assert Rotated(items, lo, hi) == items[..lo] + ([items[hi]] + items[lo..hi] + items[hi + 1..]);
  }

  lemma RestAfterTwo(items: seq<Value>, lo: nat, hi: nat)
    requires lo < hi < |items|
    ensures Without(Without(items, hi), lo)[lo..] == items[lo + 1..hi] + items[hi + 1..]
  {
    var one := Without(items, hi);
    assert one[lo + 1..] == items[lo + 1..hi] + items[hi + 1..];
    assert Without(one, lo)[lo..] == one[lo + 1..];
  }

  /**
    The second place an override takes a value from: its own, or the one behind for an element in
    conflict with itself.
   */
  function SecondPlace(lo: nat, hi: nat): nat {
    if lo < hi then hi else lo + 1
  }

  /**
    After one correct override, a second one in the same list keeps the values if and only if the
    two values that have moved to its places are the two it puts back.
   */
  lemma TwoOverridesKeepIff(items: seq<Value>, lo1: nat, hi1: nat, lo2: nat, hi2: nat, incoming: Value, local: Value)
    requires lo1 < hi1 < |items| && lo2 <= hi2 < |items|
    ensures var second := SecondPlace(lo2, hi2);
      multiset(Reordered(Rotated(items, lo1, hi1), lo2, hi2, incoming, local).0) == multiset(items) <==>
      second < |items| &&
          multiset{Moved(items, lo1, hi1, lo2), Moved(items, lo1, hi1, second)} == multiset{incoming, local}
  {
    var mid := Rotated(items, lo1, hi1);
    RotatedAt(items, lo1, hi1);
    KeepsValuesIff(mid, lo2, hi2, incoming, local);
    if SecondPlace(lo2, hi2) < |items| {
      assert Taken(mid, lo2, hi2) == multiset{mid[lo2], mid[SecondPlace(lo2, hi2)]};
    } else {
      assert |Taken(mid, lo2, hi2)| == 1 && |multiset{incoming, local}| == 2;
    }
  }

  /** The places of a conflict hold its two values, local first. */
  ghost predicate InPlace(merged: seq<seq<Item>>, c: RgaConflict) {
    var place := PlaceOf(merged, c);
    && place.Some? && place.value.local < place.value.incoming
    && var p := place.value;
       merged[p.list][p.local].value == c.local.value && merged[p.list][p.incoming].value == c.incoming.value
  }

  lemma PassPush(merged: seq<seq<Item>>, init: seq<RgaConflict>, c: RgaConflict)
    requires PlaceOf(merged, c).Some? && PlaceOf(merged, c).value.local <= PlaceOf(merged, c).value.incoming
    ensures var p, before := PlaceOf(merged, c).value, ListPass(merged, init, true);
      ListPass(merged, init + [c], true) ==
      before[p.list := Reordered(before[p.list], p.local, p.incoming, c.incoming.value, c.local.value).0]
  {
    assert (init + [c])[..|init|] == init;
  }

  lemma PassNothing(merged: seq<seq<Item>>)
    ensures ListPass(merged, [], true) == AllValues(merged)
  {
  }

  /** The pass passes over the conflict: no list holds both elements, or they are in the right order already. */
  predicate Idle(merged: seq<seq<Item>>, c: RgaConflict) {
    var place := PlaceOf(merged, c);
    place.None? || place.value.incoming < place.value.local
  }

  lemma PassIdle(merged: seq<seq<Item>>, init: seq<RgaConflict>, c: RgaConflict)
    requires Idle(merged, c)
    ensures ListPass(merged, init + [c], true) == ListPass(merged, init, true)
  {
    assert (init + [c])[..|init|] == init;
  }

  /** A pass of two conflicts in one list, neither of them idle: the second edit works on what the first left. */
  lemma PassOfTwo(merged: seq<seq<Item>>, c1: RgaConflict, c2: RgaConflict)
    requires !Idle(merged, c1) && !Idle(merged, c2) && PlaceOf(merged, c1).value.list == PlaceOf(merged, c2).value.list
    ensures var p1, p2 := PlaceOf(merged, c1).value, PlaceOf(merged, c2).value;
      var mid := Reordered(Values(merged[p1.list]), p1.local, p1.incoming, c1.incoming.value, c1.local.value).0;
      ListPass(merged, [c1, c2], true)[p1.list] ==
      Reordered(mid, p2.local, p2.incoming, c2.incoming.value, c2.local.value).0
  {
    PassNothing(merged);
    PassPush(merged, [], c1);
    PassPush(merged, [c1], c2);
    assert [] + [c1] == [c1] && [c1] + [c2] == [c1, c2];
  }

  /** A pass of two conflicts in one list, the first of them in place: the exact condition, on the merged list. */
  lemma TwoConflictsKeepIff(merged: seq<seq<Item>>, c1: RgaConflict, c2: RgaConflict)
    requires InPlace(merged, c1) && PlaceOf(merged, c2).Some?
    requires PlaceOf(merged, c2).value.list == PlaceOf(merged, c1).value.list
    requires PlaceOf(merged, c2).value.local <= PlaceOf(merged, c2).value.incoming
    ensures var p1, p2 := PlaceOf(merged, c1).value, PlaceOf(merged, c2).value;
      var items, second := Values(merged[p1.list]), SecondPlace(p2.local, p2.incoming);
      multiset(ListPass(merged, [c1, c2], true)[p1.list]) == multiset(items) <==>
      && second < |items|
      && multiset{Moved(items, p1.local, p1.incoming, p2.local), Moved(items, p1.local, p1.incoming, second)}
         == multiset{c2.incoming.value, c2.local.value}
  {
    var p1, p2 := PlaceOf(merged, c1).value, PlaceOf(merged, c2).value;
    var items := Values(merged[p1.list]);
    PassOfTwo(merged, c1, c2);
    CorrectOverrideRotates(items, p1.local, p1.incoming, c1.incoming.value, c1.local.value);
    TwoOverridesKeepIff(items, p1.local, p1.incoming, p2.local, p2.incoming, c2.incoming.value, c2.local.value);
  }

  /** An override of `c` shifts place `k` of list `l`. */
  ghost predicate Shifts(merged: seq<seq<Item>>, c: RgaConflict, l: nat, k: nat) {
    InPlace(merged, c) && var p := PlaceOf(merged, c).value; p.list == l && p.local <= k <= p.incoming
  }

  /** The value an override of `c` moves to a place it shifts. */
  ghost function Shifted(merged: seq<seq<Item>>, c: RgaConflict, l: nat, k: nat): Value
    requires Shifts(merged, c, l, k)
  {
    var p := PlaceOf(merged, c).value;
    Moved(Values(merged[l]), p.local, p.incoming, k)
  }

  /** The list after an element in conflict with itself: its successor is overwritten, a last element is lost. */
  function Doubled(items: seq<Value>, lo: nat): seq<Value>
    requires lo < |items|
  {
    if lo + 1 < |items| then items[lo + 1 := items[lo]] else items[..lo]
  }

  lemma SelfOverrideDoubles(items: seq<Value>, lo: nat)
    requires lo < |items|
    ensures Reordered(items, lo, lo, items[lo], items[lo]).0 == Doubled(items, lo)
  {
    if lo + 1 < |items| {
      assert Without(items, lo)[lo] == items[lo + 1];
    } else {
      assert Without(items, lo) == items[..lo];
    }
  }

  /**
    After an element in conflict with itself, a second override in the same list leaves the values of
    the list if and only if it puts in, together with the doubled value, what was overwritten and what it takes.
   */
  lemma SelfThenOverrideKeepsIff(items: seq<Value>, lo: nat, lo2: nat, hi2: nat, incoming: Value, local: Value)
    requires lo < |items| && lo2 <= hi2 < |items|
    ensures var mid, second := Doubled(items, lo), SecondPlace(lo2, hi2);
      multiset(Reordered(mid, lo2, hi2, incoming, local).0) == multiset(items) <==>
      && lo + 1 < |items| && second < |items|
      && multiset{items[lo + 1]} + multiset{mid[lo2], mid[second]} == multiset{items[lo]} + multiset{incoming, local}
  {
    var mid, second := Doubled(items, lo), SecondPlace(lo2, hi2);
    if lo + 1 < |items| && second < |items| {
      EditAccounts(mid, lo2, hi2, incoming, local);
      ReplacedMultiset(items, lo + 1, items[lo]);
      SwapBalance(multiset(Without(Without(mid, hi2), lo2)), multiset{mid[lo2], mid[second]}, multiset(items),
                  items[lo + 1], items[lo], multiset{incoming, local});
    } else {
      var after := Reordered(mid, lo2, hi2, incoming, local).0;
      ShorterAfter(mid, lo2, hi2, incoming, local);
      assert |multiset(after)| == |after| && |multiset(items)| == |items|;
    }
  }

  /** What an override with two values to take leaves and puts back. */
  lemma EditAccounts(items: seq<Value>, lo: nat, hi: nat, incoming: Value, local: Value)
    requires lo <= hi < |items| && SecondPlace(lo, hi) < |items|
    ensures var rest := multiset(Without(Without(items, hi), lo));
      && multiset(items) == rest + multiset{items[lo], items[SecondPlace(lo, hi)]}
      && multiset(Reordered(items, lo, hi, incoming, local).0) == rest + multiset{incoming, local}
  {
    TakenAccounts(items, lo, hi);
    InsertedMultiset(Without(Without(items, hi), lo), lo, incoming, local);
    assert Taken(items, lo, hi) == multiset{items[lo], items[SecondPlace(lo, hi)]};
  }

  lemma ReplacedMultiset(items: seq<Value>, i: nat, v: Value)
    requires i < |items|
    ensures multiset(items[i := v]) + multiset{items[i]} == multiset(items) + multiset{v}
  {
    assert items == items[..i] + [items[i]] + items[i + 1..];
    assert items[i := v] == items[..i] + [v] + items[i + 1..];
  }

  lemma SwapBalance(rest: multiset<Value>, taken: multiset<Value>, items: multiset<Value>, lost: Value, doubled: Value,
                    put: multiset<Value>)
    requires rest + taken + multiset{lost} == items + multiset{doubled}
    ensures rest + put == items <==> multiset{lost} + taken == multiset{doubled} + put
  {
    assert rest + put == items <==> rest + put + multiset{doubled} == items + multiset{doubled} by {
      SameRest(multiset{doubled}, rest + put, items);
      assert multiset{doubled} + (rest + put) == rest + put + multiset{doubled};
      assert multiset{doubled} + items == items + multiset{doubled};
    }
    assert rest + put + multiset{doubled} == rest + (multiset{doubled} + put);
    assert rest + taken + multiset{lost} == rest + (multiset{lost} + taken);
    SameRest(rest, multiset{doubled} + put, multiset{lost} + taken);
  }

  /** An override that finds no second value to take leaves a shorter list. */
  lemma ShorterAfter(mid: seq<Value>, lo: nat, hi: nat, incoming: Value, local: Value)
    requires lo <= hi
    ensures |Reordered(mid, lo, hi, incoming, local).0| == if hi >= |mid| || SecondPlace(lo, hi) < |mid| then |mid|
            else |mid| - 1
  {
  }

  /** A pass of a self-conflict and one more conflict in the same list: the exact condition, on the merged list. */
  lemma SelfConflictFirstKeepsIff(merged: seq<seq<Item>>, shared: Item, c2: RgaConflict)
    requires PlaceOf(merged, RgaConflict(shared, shared)).Some? && PlaceOf(merged, c2).Some?
    requires var p := PlaceOf(merged, RgaConflict(shared, shared)).value;
      PlaceOf(merged, c2).value.list == p.list && merged[p.list][p.local].value == shared.value
    requires PlaceOf(merged, c2).value.local <= PlaceOf(merged, c2).value.incoming
    ensures var c1 := RgaConflict(shared, shared);
      var p1, p2 := PlaceOf(merged, c1).value, PlaceOf(merged, c2).value;
      var items, second := Values(merged[p1.list]), SecondPlace(p2.local, p2.incoming);
      var mid := Doubled(items, p1.local);
      multiset(ListPass(merged, [c1, c2], true)[p1.list]) == multiset(items) <==>
      && p1.local + 1 < |items| && second < |items|
      && multiset{items[p1.local + 1]} + multiset{mid[p2.local], mid[second]}
         == multiset{shared.value} + multiset{c2.incoming.value, c2.local.value}
  {
    var c1 := RgaConflict(shared, shared);
    var p1, p2 := PlaceOf(merged, c1).value, PlaceOf(merged, c2).value;
    var items := Values(merged[p1.list]);
    SamePlace(merged, shared, 0);
    PassOfTwo(merged, c1, c2);
    SelfOverrideDoubles(items, p1.local);
    SelfThenOverrideKeepsIff(items, p1.local, p2.local, p2.incoming, c2.incoming.value, c2.local.value);
  }

  /** The conflicts are in place or idle, and no two of them shift one place. */
  ghost predicate Separate(merged: seq<seq<Item>>, conflicts: seq<RgaConflict>) {
    && (forall i :: 0 <= i < |conflicts| ==> InPlace(merged, conflicts[i]) || Idle(merged, conflicts[i]))
    && (forall i, j, l, k :: 0 <= i < j < |conflicts| && Shifts(merged, conflicts[i], l, k) ==>
          !Shifts(merged, conflicts[j], l, k))
  }

  /** The value `v` is what the conflicts make of one place: shifted by the one that shifts it, or left alone. */
  ghost predicate EndsAs(merged: seq<seq<Item>>, conflicts: seq<RgaConflict>, l: nat, k: nat, v: Value)
    requires l < |merged| && k < |merged[l]|
  {
    && (forall c :: c in conflicts && Shifts(merged, c, l, k) ==> v == Shifted(merged, c, l, k))
    && ((forall c :: c in conflicts ==> !Shifts(merged, c, l, k)) ==> v == merged[l][k].value)
  }

  /**
    The lists after a pass: the same values, each stretch with its incoming value moved up, the rest
    where it stood.
   */
  ghost predicate AllMoved(merged: seq<seq<Item>>, conflicts: seq<RgaConflict>, after: seq<seq<Value>>) {
    && |after| == |merged|
    && (forall l :: 0 <= l < |merged| ==>
        |after[l]| == |merged[l]| && multiset(after[l]) == multiset(Values(merged[l])))
    && (forall l, k :: 0 <= l < |merged| && 0 <= k < |merged[l]| ==> EndsAs(merged, conflicts, l, k, after[l][k]))
  }

  lemma PlaceUntouched(merged: seq<seq<Item>>, init: seq<RgaConflict>, c: RgaConflict, l: nat, k: nat, v: Value)
    requires Separate(merged, init + [c]) && Shifts(merged, c, l, k)
    requires l < |merged| && k < |merged[l]| && EndsAs(merged, init, l, k, v)
    ensures v == merged[l][k].value
  {
    forall d | d in init ensures !Shifts(merged, d, l, k) {
      var i :| 0 <= i < |init| && init[i] == d;
      assert (init + [c])[i] == d && (init + [c])[|init|] == c;
    }
  }

  lemma PlaceMoves(merged: seq<seq<Item>>, init: seq<RgaConflict>, c: RgaConflict, l: nat, k: nat, was: Value, v: Value)
    requires Separate(merged, init + [c])
    requires l < |merged| && k < |merged[l]| && EndsAs(merged, init, l, k, was)
    requires v == if Shifts(merged, c, l, k) then Shifted(merged, c, l, k) else was
    ensures EndsAs(merged, init + [c], l, k, v)
  {
    var all := init + [c];
    assert c in all && forall d :: d in init ==> d in all;
    forall d | d in all && Shifts(merged, d, l, k) ensures v == Shifted(merged, d, l, k) {
      if d in init {
        var i :| 0 <= i < |init| && init[i] == d;
        assert all[i] == d && all[|init|] == c;
      }
    }
  }

  lemma IdleMovesNothing(merged: seq<seq<Item>>, init: seq<RgaConflict>, c: RgaConflict, after: seq<seq<Value>>)
    requires Separate(merged, init + [c]) && AllMoved(merged, init, after) && Idle(merged, c)
    ensures AllMoved(merged, init + [c], after)
  {
    forall l, k | 0 <= l < |merged| && 0 <= k < |merged[l]| ensures EndsAs(merged, init + [c], l, k, after[l][k]) {
      PlaceMoves(merged, init, c, l, k, after[l][k], after[l][k]);
    }
  }

  lemma OverrideShifts(merged: seq<seq<Item>>, c: RgaConflict, items: seq<Value>, after: seq<Value>)
    requires InPlace(merged, c) && |items| == |merged[PlaceOf(merged, c).value.list]|
    requires var p := PlaceOf(merged, c).value;
      && (forall k :: p.local <= k <= p.incoming ==> items[k] == merged[p.list][k].value)
      && after == Reordered(items, p.local, p.incoming, c.incoming.value, c.local.value).0
    ensures |after| == |items| && multiset(after) == multiset(items)
    ensures var l := PlaceOf(merged, c).value.list;
      forall k :: 0 <= k < |items| ==>
          after[k] == if Shifts(merged, c, l, k) then Shifted(merged, c, l, k) else items[k]
  {
    var p := PlaceOf(merged, c).value;
    CorrectOverrideRotates(items, p.local, p.incoming, c.incoming.value, c.local.value);
    RotatedAt(items, p.local, p.incoming);
  }

  lemma OneMoreMoved(merged: seq<seq<Item>>, init: seq<RgaConflict>, c: RgaConflict, before: seq<seq<Value>>,
                     after: seq<seq<Value>>)
    requires Separate(merged, init + [c]) && AllMoved(merged, init, before) && InPlace(merged, c)
    requires var p := PlaceOf(merged, c).value;
      after == before[p.list := Reordered(before[p.list], p.local, p.incoming, c.incoming.value, c.local.value).0]
    ensures AllMoved(merged, init + [c], after)
  {
    var p := PlaceOf(merged, c).value;
    var items := before[p.list];
    forall k | p.local <= k <= p.incoming ensures items[k] == merged[p.list][k].value {
      PlaceUntouched(merged, init, c, p.list, k, items[k]);
    }
    OverrideShifts(merged, c, items, after[p.list]);
    forall l, k | 0 <= l < |merged| && 0 <= k < |merged[l]| ensures EndsAs(merged, init + [c], l, k, after[l][k]) {
      PlaceMoves(merged, init, c, l, k, before[l][k], after[l][k]);
    }
  }

  /**
    Any number of conflicts, idle ones among them, that shift no place in common: every pair is
    corrected, every list keeps its values, and what no conflict shifts stands where it stood.
   */
  lemma {:induction false} SeparateConflictsCorrected(merged: seq<seq<Item>>, conflicts: seq<RgaConflict>)
    requires Separate(merged, conflicts)
    ensures AllMoved(merged, conflicts, ListPass(merged, conflicts, true))
  {
    if conflicts == [] {
      PassNothing(merged);
    } else {
      var init, c := conflicts[..|conflicts| - 1], conflicts[|conflicts| - 1];
      assert conflicts == init + [c];
      assert forall i :: 0 <= i < |init| ==> init[i] == conflicts[i];
      SeparateConflictsCorrected(merged, init);
      assert InPlace(merged, conflicts[|init|]) || Idle(merged, conflicts[|init|]);
      if Idle(merged, c) {
        PassIdle(merged, init, c);
        IdleMovesNothing(merged, init, c, ListPass(merged, init, true));
      } else {
        PassPush(merged, init, c);
        OneMoreMoved(merged, init, c, ListPass(merged, init, true), ListPass(merged, conflicts, true));
      }
    }
  }

  /** In such a pass each incoming value ends directly before its local one. */
  lemma SeparatePairsOrdered(merged: seq<seq<Item>>, conflicts: seq<RgaConflict>, i: nat)
    requires Separate(merged, conflicts) && i < |conflicts| && InPlace(merged, conflicts[i])
    ensures var p, after := PlaceOf(merged, conflicts[i]).value, ListPass(merged, conflicts, true);
      && multiset(after[p.list]) == multiset(Values(merged[p.list])) && p.local + 1 < |after[p.list]|
      && after[p.list][p.local] == conflicts[i].incoming.value && after[p.list][p.local + 1] == conflicts[i].local.value
  {
    SeparateConflictsCorrected(merged, conflicts);
    var p := PlaceOf(merged, conflicts[i]).value;
    var after := ListPass(merged, conflicts, true)[p.list];
    assert EndsAs(merged, conflicts, p.list, p.local, after[p.local]);
    assert EndsAs(merged, conflicts, p.list, p.local + 1, after[p.local + 1]);
    assert Shifts(merged, conflicts[i], p.list, p.local) && Shifts(merged, conflicts[i], p.list, p.local + 1);
  }

  /**
    Two concurrent local insertions and an incoming one behind one predecessor give two conflicts,
    both in place: the second acts on places that have moved, and a local element is lost.
   */
  lemma SecondOverrideUsesStalePlaces(a: Bytes, b: Bytes)
    requires a != b
    ensures var l1, l2, inc := Item(OpId(2, a), Scalar(1)), Item(OpId(1, a), Scalar(2)), Item(OpId(1, b), Scalar(3));
      var conflicts := [RgaConflict(l2, inc), RgaConflict(l1, inc)];
      && conflicts == AllPairs([InsertOp(None, l2), InsertOp(None, l1)], [InsertOp(None, inc)])
      && (forall c :: c in conflicts ==> InPlace([[l1, l2, inc]], c))
      && ListPass([[l1, l2, inc]], conflicts, true) == [[Scalar(3), Scalar(1), Scalar(3)]]
  {
    var l1, l2, inc := Item(OpId(2, a), Scalar(1)), Item(OpId(1, a), Scalar(2)), Item(OpId(1, b), Scalar(3));
    CapturedTwice(InsertOp(None, l2), InsertOp(None, l1), InsertOp(None, inc));
    ThreePlaces(l1, l2, inc);
    var first, second := RgaConflict(l2, inc), RgaConflict(l1, inc);
    PassNothing([[l1, l2, inc]]);
    PassPush([[l1, l2, inc]], [], first);
    PassPush([[l1, l2, inc]], [first], second);
    assert [] + [first] == [first] && [first] + [second] == [first, second];
    assert Values([l1, l2, inc]) == [Scalar(1), Scalar(2), Scalar(3)];
    LastTwoReordered(Scalar(1), Scalar(2), Scalar(3), Scalar(3), Scalar(2));
    EndsReordered(Scalar(1), Scalar(3), Scalar(2), Scalar(3), Scalar(1));
  }

  lemma LastTwoReordered(a: Value, b: Value, c: Value, incoming: Value, local: Value)
    ensures Reordered([a, b, c], 1, 2, incoming, local).0 == [a, incoming, local]
  {
    assert Without([a, b, c], 2) == [a, b] && Without([a, b], 1) == [a];
    assert [a][..1] == [a] && [a][1..] == [];
  }

  lemma EndsReordered(a: Value, b: Value, c: Value, incoming: Value, local: Value)
    ensures Reordered([a, b, c], 0, 2, incoming, local).0 == [incoming, local, b]
  {
    assert Without([a, b, c], 2) == [a, b] && Without([a, b], 0) == [b];
    assert [b][..0] == [] && [b][0..] == [b];
  }

  lemma ThreePlaces(a: Item, b: Item, c: Item)
    requires a.id != b.id && a.id != c.id && b.id != c.id
    ensures PlaceOf([[a, b, c]], RgaConflict(b, c)) == Some(Place(0, 1, 2))
    ensures PlaceOf([[a, b, c]], RgaConflict(a, c)) == Some(Place(0, 0, 2))
  {
    var items := [a, b, c];
    assert items[..2] == [a, b] && [a, b][..1] == [a];
    assert PositionOf([a], a.id) == Some(0) && PositionOf([a, b], a.id) == Some(0);
    assert PositionOf(items, c.id) == Some(2) && PositionOf(items, b.id) == Some(1) &&
           PositionOf(items, a.id) == Some(0);
  }

  lemma CapturedTwice(l: InsertOp, m: InsertOp, x: InsertOp)
    requires l.predecessor == m.predecessor == x.predecessor
    ensures AllPairs([l, m], [x]) == [RgaConflict(l.element, x.element), RgaConflict(m.element, x.element)]
  {
    assert [l, m][..1] == [l] && [l][..0] == [] && [x][..0] == [];
    assert PairsOf(l, [x]) == PairsOf(l, []) + [RgaConflict(l.element, x.element)];
    assert PairsOf(m, [x]) == PairsOf(m, []) + [RgaConflict(m.element, x.element)];
    assert AllPairs([l], [x]) == AllPairs([], [x]) + PairsOf(l, [x]);
  }

  function Sum(a: Report, b: Report): Report {
    Report(a.lwwChecked + b.lwwChecked, a.rgaChecked + b.rgaChecked, a.divergences + b.divergences,
           a.applied + b.applied, a.failed + b.failed, a.indeterminate + b.indeterminate)
  }

  /** The report of a read-back adds what its two passes counted, counter by counter. */
  lemma SumAdds(a: Report, b: Report)
    ensures var r := Sum(a, b);
      && r.lwwChecked == a.lwwChecked + b.lwwChecked && r.rgaChecked == a.rgaChecked + b.rgaChecked
      && r.divergences == a.divergences + b.divergences && r.indeterminate == a.indeterminate + b.indeterminate
      && r.applied == a.applied + b.applied && r.failed == a.failed + b.failed
  {
  }

  /** The whole read-back after a merge: scalars, then lists. */
  method VerifyAndOverride(doc: Document, lww: seq<LwwConflict>, rga: seq<RgaConflict>, deltaLamport: nat,
                           localLamport: nat, works: Key -> bool)
    returns (report: Report)
    requires forall i, j :: 0 <= i < j < |lww| ==> lww[i].key != lww[j].key
    modifies doc
    ensures forall c :: c in lww ==> ScalarAfter(old(doc.root), doc.root, c, deltaLamport > localLamport, works)
    ensures forall k :: k !in KeysOf(lww) ==> Untouched(old(doc.root), doc.root, k)
    ensures deltaLamport > localLamport ==>
      forall c :: c in lww && works(c.key) && Attributable(old(doc.root), c) ==>
          c.key in doc.root && doc.root[c.key].value == c.incoming.value
    ensures AllValues(doc.lists) == ListPass(old(doc.lists), rga, deltaLamport > localLamport)
    ensures report == Sum(ScalarReport(old(doc.root), lww, deltaLamport > localLamport, works),
                          ListReport(old(doc.lists), rga, deltaLamport > localLamport))
  {
    var definitive := deltaLamport > localLamport;
    var scalars := OverrideScalars(doc, lww, definitive, works);
    if definitive {
      forall c | c in lww && works(c.key) && Attributable(old(doc.root), c)
        ensures c.key in doc.root && doc.root[c.key].value == c.incoming.value
      {
        AttributableEndsIncoming(old(doc.root), doc.root, c, works);
      }
    }
    var lists := OverrideLists(doc, rga, definitive);
    report := Sum(scalars, lists);
  }

  /** In the indeterminate zone the lists are left alone. */
  lemma {:induction false} IndeterminateChangesNothing(merged: seq<seq<Item>>, conflicts: seq<RgaConflict>)
    ensures ListPass(merged, conflicts, false) == AllValues(merged)
  {
    if conflicts != [] {
      IndeterminateChangesNothing(merged, conflicts[..|conflicts| - 1]);
    }
  }
}
