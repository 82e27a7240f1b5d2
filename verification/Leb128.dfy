/**
  The LEB128 reader used to take element ids apart (unsigned LEB128 as in section 7.6 of DWARF
  Version 5).  Words are 64 bits wide: a shift drops what it pushes past the top, and `Or` is the
  bit-wise operation, defined bit by bit.
 */
module Leb128 {
  import opened Deltas
  import opened LexOrder

  const WORD := 0x1_0000_0000_0000_0000
  const MAX_BYTES := 10

  type Word = w: nat | w < WORD

  /** `x` times two to the `n`, by doubling. */
  function Scale(x: nat, n: nat): nat {
    if n == 0 then x else 2 * Scale(x, n - 1)
  }

  /** Bit-wise or. */
  function Or(a: nat, b: nat): nat
    decreases a + b
  {
    if a == 0 then b
    else if b == 0 then a
    else 2 * Or(a / 2, b / 2) + if a % 2 == 1 || b % 2 == 1 then 1 else 0
  }

  /** A 64-bit left shift. */
  function Shl(x: nat, n: nat): Word {
    Scale(x, n) % WORD
  }

  // ---------------------------------------------------------------------------
  // The encoding

  predicate Continues(byte: Byte) {
    byte >= 128
  }

  /** The low seven bits. */
  function Payload(byte: Byte): nat {
    (byte as nat) % 128
  }

  /** The unsigned LEB128 encoding: seven bits a byte, low bits first. */
  function Encode(v: nat): Bytes {
    if v < 128 then [v as Byte] else [(128 + v % 128) as Byte] + Encode(v / 128)
  }

  /** The number a sequence of payloads spells. */
  function Spells(s: Bytes): nat {
    if s == [] then 0 else Payload(s[0]) + 128 * Spells(s[1..])
  }

  /** Every byte but the last announces another one. */
  predicate Terminated(s: Bytes) {
    s != [] && !Continues(s[|s| - 1]) && forall i :: 0 <= i < |s| - 1 ==> Continues(s[i])
  }

  /** The encoding of a word fits ten bytes, is terminated, and spells the word. */
  lemma {:induction false} EncodeSpells(v: nat, k: nat)
    requires v < Scale(128, 7 * k)
    ensures Terminated(Encode(v)) && Spells(Encode(v)) == v && |Encode(v)| <= k + 1
  {
    if v >= 128 {
      ScaleSeven(128, 7 * (k - 1));
      EncodeSpells(v / 128, k - 1);
      var s := Encode(v);
      assert s[1..] == Encode(v / 128);
      assert Payload(s[0]) == v % 128;
    }
  }

  lemma WordEncodes(v: Word)
    ensures Terminated(Encode(v)) && Spells(Encode(v)) == v && |Encode(v)| <= MAX_BYTES
  {
    TopShift(128);
    EncodeSpells(v, 9);
  }

  lemma ScaleSeven(x: nat, n: nat)
    ensures Scale(x, n + 7) == 128 * Scale(x, n)
  {
    assert Scale(x, n + 2) == 4 * Scale(x, n);
    assert Scale(x, n + 4) == 16 * Scale(x, n);
    assert Scale(x, n + 6) == 64 * Scale(x, n);
  }

  lemma {:induction false} ScaleAdds(x: nat, y: nat, n: nat)
    ensures Scale(x, n) + Scale(y, n) == Scale(x + y, n)
  {
    if n > 0 {
      ScaleAdds(x, y, n - 1);
    }
  }

  lemma {:induction false} ScaleGrows(x: nat, n: nat, m: nat)
    requires n <= m
    ensures Scale(x, n) <= Scale(x, m)
  {
    if n < m {
      ScaleGrows(x, n, m - 1);
    }
  }

  lemma TopShift(x: nat)
    ensures Scale(x, 63) == 0x8000_0000_0000_0000 * x
  {
    ScaleSeven(x, 0); ScaleSeven(x, 7); ScaleSeven(x, 14); ScaleSeven(x, 21); ScaleSeven(x, 28);
    ScaleSeven(x, 35); ScaleSeven(x, 42); ScaleSeven(x, 49); ScaleSeven(x, 56);
  }

  // ---------------------------------------------------------------------------
  // One step of the reader

  lemma {:induction false} SpellsPush(s: Bytes, byte: Byte)
    ensures Spells(s + [byte]) == Spells(s) + Scale(Payload(byte), 7 * |s|)
    ensures Spells(s) < Scale(1, 7 * |s|)
  {
    if s == [] {
      assert s + [byte] == [byte];
      assert Spells([byte][1..]) == 0;
    } else {
      SpellsPush(s[1..], byte);
      assert (s + [byte])[1..] == s[1..] + [byte];
      ScaleSeven(Payload(byte), 7 * (|s| - 1));
      ScaleSeven(1, 7 * (|s| - 1));
    }
  }

  /** Or-ing a number into the empty bits above another adds them. */
  lemma {:induction false} OrDisjoint(a: nat, n: nat, x: nat)
    requires a < Scale(1, n)
    ensures Or(a, Scale(x, n)) == a + Scale(x, n)
  {
    if n > 0 {
      OrDisjoint(a / 2, n - 1, x);
      assert Scale(x, n) / 2 == Scale(x, n - 1) && Scale(x, n) % 2 == 0;
    }
  }

  /** A shifted payload is a multiple of the shift; only the tenth byte can lose bits. */
  lemma ShlPayload(p: nat, k: nat) returns (q: nat)
    requires p < 128 && k < MAX_BYTES
    ensures Scale(p, 7 * k) % WORD == Scale(q, 7 * k) && Scale(q, 7 * k) + Scale(1, 7 * k) <= WORD
    ensures k < 9 ==> q == p
  {
    TopShift(1);
    if k < 9 {
      q := p;
      ScaleAdds(p, 1, 7 * k);
      ScaleAdds(p + 1, 127 - p, 7 * k);
      ScaleSeven(1, 7 * k);
      ScaleDoubles(7 * k);
      ScaleGrows(1, 7 * k + 7, 63);
    } else {
      q := p % 2;
      TopShift(p);
      TopShift(q);
      TopBit(p);
    }
  }

  lemma {:induction false} ScaleDoubles(n: nat)
    ensures Scale(128, n) == 128 * Scale(1, n)
  {
    if n > 0 {
      ScaleDoubles(n - 1);
    }
  }

  lemma TopBit(p: nat)
    ensures (0x8000_0000_0000_0000 * p) % WORD == 0x8000_0000_0000_0000 * (p % 2)
  {
    assert 0x8000_0000_0000_0000 * p == WORD * (p / 2) + 0x8000_0000_0000_0000 * (p % 2);
  }

  /** The accumulator after one more byte spells one more byte, modulo the word size. */
  lemma StepSpells(s: Bytes, byte: Byte)
    requires |s| < MAX_BYTES
    ensures Or(Spells(s), Shl(Payload(byte), 7 * |s|)) == Spells(s + [byte]) % WORD
    ensures |s| < 9 ==> Spells(s + [byte]) < WORD
  {
    SpellsPush(s, byte);
    StepOr(Spells(s), Payload(byte), |s|, Spells(s + [byte]));
  }

  /** Or-ing seven more bits above a number adds them, modulo the word size. */
  lemma StepOr(low: nat, p: nat, k: nat, sum: nat)
    requires k < MAX_BYTES && low < Scale(1, 7 * k) && p < 128 && sum == low + Scale(p, 7 * k)
    ensures Or(low, Shl(p, 7 * k)) == sum % WORD
    ensures k < 9 ==> sum < WORD
  {
    var q := ShlPayload(p, k);
    OrDisjoint(low, 7 * k, q);
    AddModulo(low, Scale(p, 7 * k), Scale(q, 7 * k));
  }

  lemma AddModulo(low: nat, high: nat, kept: nat)
    requires high % WORD == kept && low + kept < WORD
    ensures (low + high) % WORD == low + kept
    ensures high == kept ==> low + high < WORD
  {
  }

  // ---------------------------------------------------------------------------
  // The reader

  /** `b` holds at `start` a terminated encoding of at most ten bytes that ends before `end` and spells `v`. */
  ghost predicate ReadsAs(b: Bytes, start: nat, v: Word, end: nat) {
    start < end <= |b| && end - start <= MAX_BYTES && Terminated(b[start..end]) && v == Spells(b[start..end]) % WORD
  }

  /** The reader has taken these bytes, all of them announcing more. */
  ghost predicate Taken(b: Bytes, start: nat, taken: Bytes) {
    && start + |taken| <= |b| && taken == b[start..start + |taken|] && |taken| < MAX_BYTES
    && forall i :: 0 <= i < |taken| ==> Continues(taken[i])
  }

  /** Reads one value: finds the one encoding at `start`, or says there is none; never looks past the end. */
  method ReadU64(b: Bytes, start: nat) returns (r: Option<(Word, nat)>)
    ensures r.Some? ==> ReadsAs(b, start, r.value.0, r.value.1)
    ensures r.None? ==> forall v: Word, end: nat :: !ReadsAs(b, start, v, end)
  {
    if start >= |b| {
      return None;
    }
    var result: nat, shift: nat, pos := 0, 0, start;
    ghost var taken: Bytes := [];
    while true
      invariant Taken(b, start, taken) && pos == start + |taken|
      invariant shift == 7 * |taken| && result == Spells(taken)
      decreases |b| - pos
    {
      if pos >= |b| {
        NoEnd(b, start, taken);
        return None;
      }
      var byte := b[pos];
      ghost var before, more := taken, taken + [byte];
      StepSpells(taken, byte);
      pos := pos + 1;
      result := Or(result, Shl(Payload(byte), shift));
      taken := more;
      if !Continues(byte) {
        TakeLast(b, start, before, more, result);
        return Some((result, pos));
      }
      TakeNext(b, start, before, more);
      shift := shift + 7;
      if shift >= 64 {
        return None;
      }
    }
  }

  /** A byte that announces no other ends the encoding. */
  lemma TakeLast(b: Bytes, start: nat, taken: Bytes, more: Bytes, v: Word)
    requires Taken(b, start, taken) && start + |taken| < |b| && !Continues(b[start + |taken|])
    requires more == taken + [b[start + |taken|]] && v == Spells(more) % WORD
    ensures ReadsAs(b, start, v, start + |more|)
  {
    TakenPush(b, start, taken, more);
    EndsWith(taken, b[start + |taken|]);
    ReadsWhole(b, start, start + |more|, more, v);
  }

  /** A byte that announces another one is taken; after ten of them there is no encoding. */
  lemma TakeNext(b: Bytes, start: nat, taken: Bytes, more: Bytes)
    requires Taken(b, start, taken) && start + |taken| < |b| && Continues(b[start + |taken|])
    requires more == taken + [b[start + |taken|]]
    ensures |more| < MAX_BYTES ==> Taken(b, start, more)
    ensures |more| == MAX_BYTES ==> forall v: Word, end: nat :: !ReadsAs(b, start, v, end)
  {
    TakenPush(b, start, taken, more);
    if |more| == MAX_BYTES {
      NoEnd(b, start, more);
    }
  }

  lemma EndsWith(taken: Bytes, last: Byte)
    requires !Continues(last) && forall i :: 0 <= i < |taken| ==> Continues(taken[i])
    ensures Terminated(taken + [last])
  {
  }

  lemma ReadsWhole(b: Bytes, start: nat, end: nat, s: Bytes, v: Word)
    requires start < end <= |b| && end - start <= MAX_BYTES && b[start..end] == s && Terminated(s) &&
             v == Spells(s) % WORD
    ensures ReadsAs(b, start, v, end)
  {
  }

  lemma TakenPush(b: Bytes, start: nat, taken: Bytes, more: Bytes)
    requires start + |taken| < |b| && taken == b[start..start + |taken|] && more == taken + [b[start + |taken|]]
    ensures more == b[start..start + |more|]
  {
  }

  /** Continuation bytes up to the end of the input, or ten of them, leave no encoding. */
  lemma NoEnd(b: Bytes, start: nat, taken: Bytes)
    requires start + |taken| <= |b| && taken == b[start..start + |taken|]
    requires start + |taken| == |b| || |taken| == MAX_BYTES
    requires forall i :: 0 <= i < |taken| ==> Continues(taken[i])
    ensures forall v: Word, end: nat :: !ReadsAs(b, start, v, end)
  {
    forall v: Word, end: nat ensures !ReadsAs(b, start, v, end) {
      if start < end <= |b| && end - start <= MAX_BYTES {
        var s := b[start..end];
        assert s[|s| - 1] == taken[|s| - 1];
      }
    }
  }

  /** There is at most one encoding at a position, of at most ten bytes. */
  lemma ReadsUnique(b: Bytes, start: nat, v: Word, end: nat, v': Word, end': nat)
    requires ReadsAs(b, start, v, end) && ReadsAs(b, start, v', end')
    ensures v == v' && end == end' && end <= start + 10
  {
    StopsFirst(b, start, end, end');
    StopsFirst(b, start, end', end);
  }

  lemma StopsFirst(b: Bytes, start: nat, end: nat, end': nat)
    requires start < end <= |b| && start < end' <= |b|
    requires Terminated(b[start..end]) && Terminated(b[start..end'])
    ensures end <= end'
  {
    forall i | start <= i < end - 1 ensures Continues(b[i]) {
      assert b[start..end][i - start] == b[i];
    }
    assert b[start..end'][end' - start - 1] == b[end' - 1];
  }

  lemma ReadsAnywhere(before: Bytes, s: Bytes, after: Bytes, v: Word)
    requires Terminated(s) && |s| <= MAX_BYTES && v == Spells(s) % WORD
    ensures ReadsAs(before + s + after, |before|, v, |before| + |s|)
  {
    var b := before + s + after;
    assert b[|before|..|before| + |s|] == s;
    ReadsWhole(b, |before|, |before| + |s|, s, v);
  }

  /** What was written is what is read, whatever surrounds it. */
  lemma EncodedReadsAs(before: Bytes, v: Word, after: Bytes)
    ensures ReadsAs(before + Encode(v) + after, |before|, v, |before| + |Encode(v)|)
  {
    WordEncodes(v);
    SmallModulo(v);
    ReadsAnywhere(before, Encode(v), after, v);
  }

  lemma SmallModulo(v: Word)
    ensures v == v % WORD
  {
  }

  // ---------------------------------------------------------------------------
  // Element ids

  /** The documented layout of an element id: tag, actor length, actor, hint, counter. */
  function Print(tag: Byte, actor: Bytes, hint: Word, counter: Word): Bytes {
    [tag] + Encode(|actor|) + actor + Encode(hint) + Encode(counter)
  }

  /** A tag of serialisation version 0 that is not the root. */
  predicate ElementTag(tag: Byte) {
    tag % 16 == 0 && tag / 16 != 0
  }

  /** The fields of an id: actor length up to p1, then the actor, the hint up to p2, the counter up to p3. */
  ghost predicate FieldsAt(b: Bytes, p1: nat, hint: Word, p2: nat, counter: Word, p3: nat, actor: Bytes) {
    && |b| >= 2 && ElementTag(b[0])
    && |actor| < WORD && ReadsAs(b, 1, |actor|, p1)
    && p1 + |actor| <= |b| && b[p1..p1 + |actor|] == actor
    && ReadsAs(b, p1 + |actor|, hint, p2) && ReadsAs(b, p2, counter, p3)
  }

  ghost predicate Parses(b: Bytes, counter: Word, actor: Bytes) {
    exists p1: nat, hint: Word, p2: nat, p3: nat :: FieldsAt(b, p1, hint, p2, counter, p3, actor)
  }

  /** Extracts counter and actor from an element id. */
  method ExidParts(b: Bytes) returns (r: Option<(Word, Bytes)>)
    ensures r.Some? ==> Parses(b, r.value.0, r.value.1)
    ensures r.None? ==> forall counter: Word, actor: Bytes :: !Parses(b, counter, actor)
  {
    if |b| < 2 || b[0] % 16 != 0 {
      return None;
    }
    if b[0] / 16 == 0 {
      return None;
    }
    var length := ReadU64(b, 1);
    if length.None? {
      return None;
    }
    var (actorLen, p1) := length.value;
    NextField(b, 1, actorLen, p1);
    if p1 + actorLen > |b| {
      return None;
    }
    var actor := b[p1..p1 + actorLen];
    var hint := ReadU64(b, p1 + actorLen);
    if hint.None? {
      return None;
    }
    NextField(b, p1 + actorLen, hint.value.0, hint.value.1);
    var counter := ReadU64(b, hint.value.1);
    if counter.None? {
      return None;
    }
    assert FieldsAt(b, p1, hint.value.0, hint.value.1, counter.value.0, counter.value.1, actor);
    return Some((counter.value.0, actor));
  }

  lemma NextField(b: Bytes, start: nat, v: Word, end: nat)
    requires ReadsAs(b, start, v, end)
    ensures forall w: Word, e: nat :: ReadsAs(b, start, w, e) ==> w == v && e == end
  {
    forall w: Word, e: nat | ReadsAs(b, start, w, e) ensures w == v && e == end {
      ReadsUnique(b, start, v, end, w, e);
    }
  }

  lemma FieldsUnique(b: Bytes, p1: nat, hint: Word, p2: nat, counter: Word, p3: nat, actor: Bytes,
                     q1: nat, hint': Word, q2: nat, c: Word, q3: nat, a: Bytes)
    requires FieldsAt(b, p1, hint, p2, counter, p3, actor) && FieldsAt(b, q1, hint', q2, c, q3, a)
    ensures c == counter && a == actor
  {
    ReadsUnique(b, 1, |actor|, p1, |a|, q1);
    ReadsUnique(b, p1 + |actor|, hint, p2, hint', q2);
    ReadsUnique(b, p2, counter, p3, c, q3);
  }

  lemma PrintedFields(tag: Byte, actor: Bytes, hint: Word, counter: Word)
    returns (p1: nat, p2: nat, p3: nat)
    requires ElementTag(tag) && |actor| < WORD
    ensures FieldsAt(Print(tag, actor, hint, counter), p1, hint, p2, counter, p3, actor)
  {
    var b := Print(tag, actor, hint, counter);
    var head := [tag] + Encode(|actor|);
    var tail := Encode(hint) + Encode(counter);
    p1 := |head|;
    p2 := p1 + |actor| + |Encode(hint)|;
    p3 := p2 + |Encode(counter)|;
    EncodedReadsAs([tag], |actor|, actor + tail);
    assert [tag] + Encode(|actor|) + (actor + tail) == b;
    EncodedReadsAs(head + actor, hint, Encode(counter));
    assert head + actor + Encode(hint) + Encode(counter) == b;
    EncodedReadsAs(head + actor + Encode(hint), counter, []);
    assert head + actor + Encode(hint) + Encode(counter) + [] == b;
    assert b == head + (actor + tail);
    assert b[p1..p1 + |actor|] == actor;
  }

  /** What parses starts with a tag of version 0 that is not the root, and has a byte at least for each number. */
  lemma ParsedHead(b: Bytes, counter: Word, actor: Bytes)
    requires Parses(b, counter, actor)
    ensures |b| >= 4 + |actor| && b[0] % 16 == 0 && b[0] >= 16
  {
    var p1: nat, hint: Word, p2: nat, p3: nat :| FieldsAt(b, p1, hint, p2, counter, p3, actor);
  }

  /** Every printed id parses to its counter and actor, and to nothing else. */
  lemma PrintedParses(tag: Byte, actor: Bytes, hint: Word, counter: Word, c: Word, a: Bytes)
    requires tag % 16 == 0 && tag >= 16 && |actor| < 0x1_0000_0000_0000_0000
    ensures Parses(Print(tag, actor, hint, counter), c, a) <==> c == counter && a == actor
  {
    var b := Print(tag, actor, hint, counter);
    var p1, p2, p3 := PrintedFields(tag, actor, hint, counter);
    if Parses(b, c, a) {
      var q1: nat, h: Word, q2: nat, q3: nat :| FieldsAt(b, q1, h, q2, c, q3, a);
      FieldsUnique(b, p1, hint, p2, counter, p3, actor, q1, h, q2, c, q3, a);
    }
  }
}
